# MariOS kernel start-up decisions

A Dafny model of the decision logic in the MariOS kernel's entry file,
`kernel/src/main.rs`: the checks the kernel makes before it loads its user
program, and the error each one reports.

- **Framebuffer shape check** (`check_framebuffer_size`): the bootloader's
  framebuffer must be exactly 640 by 480 pixels at 4 bytes per pixel, or start-up
  fails with `FramebufferWrongSize`.
- **First ATA drive** (`get_first_ata_drive`): a failure of driver
  initialisation or of the drive listing is wrapped as
  `KernelInitError::AtaError`. Otherwise the first listed drive is chosen, and
  `AtaNoDrive` is returned when the list is empty.
- **User partition** (`get_user_partition`): the disk's first sector is read as
  a classic PC Master Boot Record. Entry 0 must be in use, bootable and start at
  sector 0. Entry 1 must be in use. Entry 1 becomes the user partition
  (start sector and sector count). Every failure after the sector is read,
  including a record that does not parse, is `InvalidDiskMbr`.
- **Start-up errors** (`KernelInitError` and `From<AtaError>`).

Files:

- `wrappers.dfy`: Rust's `Option` and `Result`, plus `Outcome` for `Result<(), E>`.
- `primitives.dfy`: the fixed-width integers `u8`, `u32` and 64-bit `usize`.
- `bootloader_api.dfy`: the framebuffer description the bootloader passes in.
- `ata.dfy`: what the kernel uses from the ATA driver crate. The error, drive
  and drive-description types are opaque. The partition value is spelled out.
- `mbr.dfy`: the parsed boot record, which always has four partition-table
  entries.
- `kernel_main.dfy`: the kernel's own logic and the properties proved about it.

The boot-record parser is external, so `GetUserPartition` takes its outcome as
an input. The same holds for `ata::init()` and `ata::list()`, whose outcomes
`GetFirstAtaDrive` takes as inputs.

To state that the order of the boot-record checks does not matter, the model
adds a reference definition. `RunChecks` runs any sequence of the four checks
and stops at the first that fails. `CheckOrderIrrelevant` proves that any
sequence containing all four checks gives the same result as
`get_user_partition`. This holds because every check fails with the same
error.

`get_user_partition` requires only that entry 1's partition type is not
`Unused`, so an entry 1 with sector count 0 is accepted.

## Model

| member | source | states |
|---|---|---|
| `Primitives.U32ToUsize` | kernel/src/main.rs:137-138 | the `as usize` cast of a boot-record `u32` field keeps its value on the 64-bit target |
| `KernelMain.FromAtaError` | kernel/src/main.rs:42-46 | the driver error can be recovered unchanged from the `AtaError` variant |
| `KernelMain.FromAtaErrorInjective` | kernel/src/main.rs:42-46 | two driver errors convert to the same kernel error exactly when they are equal |
| `KernelMain.CheckFramebufferSize` | kernel/src/main.rs:103-112 | the only error the framebuffer check can return is `FramebufferWrongSize` |
| `KernelMain.CheckFramebufferSizeAcceptsExactlyRequiredShape` | kernel/src/main.rs:104-110 | the check passes if and only if width, height and bytes per pixel are 640, 480 and 4; otherwise it fails with `FramebufferWrongSize` |
| `KernelMain.CheckFramebufferSizeDependsOnlyOnShape` | kernel/src/main.rs:103-111 | two framebuffers of the same shape get the same verdict, whatever their pixel format, stride and byte length |
| `KernelMain.CheckFramebufferSizeExamples` | kernel/src/main.rs:103-112 | 640x480x4 passes and 800x600x4 fails with `FramebufferWrongSize` |
| `KernelMain.Next` | kernel/src/main.rs:117-118 | `next()` yields `None` exactly on an empty listing, and otherwise the first listed drive |
| `KernelMain.OkOr` | kernel/src/main.rs:119 | `ok_or` turns `None` into `Err` of the given error and `Some(v)` into `Ok(v)` |
| `KernelMain.GetFirstAtaDrive` | kernel/src/main.rs:114-120 | an init or listing failure is returned wrapped by `From<AtaError>`; after both succeed, `AtaNoDrive` is returned exactly when the list is empty, and a non-empty list yields `Ok` of its first drive |
| `KernelMain.GetFirstAtaDriveChoosesFirst` | kernel/src/main.rs:116-119 | with a non-empty listing the result is its head |
| `KernelMain.GetUserPartition` | kernel/src/main.rs:122-140 | a parse failure gives `InvalidDiskMbr`; `InvalidDiskMbr` is the only error; a success is on the same drive with entry 1's start sector and sector count |
| `KernelMain.GetUserPartitionSucceedsIff` | kernel/src/main.rs:125-139 | success exactly when the record parses, entry 0 is in use, bootable and at sector 0, and entry 1 is in use; the partition is then built from entry 1 |
| `KernelMain.GetUserPartitionIgnoresOtherFields` | kernel/src/main.rs:127-139 | entry 1's bootable flag and entries 2 and 3 never change the outcome |
| `KernelMain.GetUserPartitionExamples` | kernel/src/main.rs:127-139 | an unused entry 0 is refused; entry 1 at 2048 with 4096 sectors yields a partition at 2048 with 4096 sectors |
| `KernelMain.RunChecks` | kernel/src/main.rs:127-134 | running the boot-record checks one by one can only fail with `InvalidDiskMbr` |
| `KernelMain.RunChecksPassesIffAllHold` | kernel/src/main.rs:127-134 | a run of checks passes exactly when every check in it holds |
| `KernelMain.CheckOrderIrrelevant` | kernel/src/main.rs:126-134 | running the four checks in any order gives the same result as `get_user_partition` |

## Left out

- `kernel_main` (kernel/src/main.rs:50-101): a fixed sequence of global initialisation calls into modules that are not part of this model. This includes the `PhysicalMemoryNotMapped` path at lines 75-79. That error variant is modelled but nothing produces it.
- Reading the boot sector (`drive.read`, kernel/src/main.rs:123-124): this is device I/O. A read failure there is unwrapped, so it panics and never becomes a `KernelInitError`.
- Byte-level boot-record parsing (`MasterBootRecord::from_bytes`): an external crate. Only its success or failure and the parsed entries are modelled.
- The boot record's partition types: only `Unused` versus any other type is distinguished, because that is all the kernel asks.
- `ata::init` and `ata::list`: device I/O in an external crate. Their outcomes are inputs.
- `hlt_loop`, the panic handler and the allocation-error handler (kernel/src/main.rs:142-158): halt instructions and logging that never return.
- `BOOTLOADER_CONFIG` (kernel/src/main.rs:25-30): constant configuration read by the bootloader.
- The memory manager, ELF loader, descriptor tables, filesystem and user-mode transition: their source files are not part of this model.
