/**
 * The framebuffer description the bootloader hands to the kernel. Only the
 * shape is inspected by the kernel; the other fields are carried so that the
 * model can say they play no part.
 */
module BootloaderApi {
  import opened Primitives

  datatype PixelFormat =
    | Rgb
    | Bgr
    | U8
    | Unknown(red_position: u8, green_position: u8, blue_position: u8)

  datatype FrameBufferInfo = FrameBufferInfo(
    byte_len: usize,
    width: usize,
    height: usize,
    pixel_format: PixelFormat,
    bytes_per_pixel: usize,
    stride: usize)
}
