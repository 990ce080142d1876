/**
 * The interface the kernel uses from the ATA driver crate. The driver's own
 * code is not part of this model: its error, drive handle and drive
 * description are opaque types, and only the partition value the kernel
 * builds is spelled out.
 */
module Ata {
  import opened Primitives

  /** The driver's error type. */
  type AtaError(==)

  /** A handle on one attached drive. */
  type Drive(==)

  /** One entry of the driver's drive listing (model name, size, handle). */
  type DriveInfo(==)

  /** A contiguous range of sectors on a drive, as built by `Partition::new`. */
  datatype Partition = Partition(drive: Drive, start_sector: usize, sector_count: usize)
}
