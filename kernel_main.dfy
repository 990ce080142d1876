/**
 * The decision logic of the kernel's entry file: the framebuffer shape check,
 * the choice of the first ATA drive, the selection of the user partition from
 * the disk's boot record, and the kernel's start-up error type.
 */
module KernelMain {
  import opened Wrappers
  import opened Primitives
  import opened BootloaderApi
  import opened Mbr
  import Ata

  /** Every way kernel start-up can fail before the user program is loaded. */
  datatype KernelInitError =
    | FramebufferWrongSize
    | PhysicalMemoryNotMapped
    | AtaError(err: Ata.AtaError)
    | AtaNoDrive
    | InvalidDiskMbr

  /** The driver error wrapped in a kernel error, if it is one. */
  function AtaErrorOf(e: KernelInitError): Option<Ata.AtaError>
  {
    if e.AtaError? then Some(e.err) else None
  }

  /** `From<AtaError> for KernelInitError`, which the `?` operator applies. */
  function FromAtaError(err: Ata.AtaError): (r: KernelInitError)
    ensures AtaErrorOf(r) == Some(err)
  {
    AtaError(err)
  }

  /** The conversion loses nothing: distinct driver errors stay distinct. */
  lemma FromAtaErrorInjective(a: Ata.AtaError, b: Ata.AtaError)
    ensures FromAtaError(a) == FromAtaError(b) <==> a == b
  {
  }

  // ---------------------------------------------------------------------
  // Framebuffer shape

  /** Width, height and bytes per pixel of a display. */
  datatype Shape = Shape(width: int, height: int, bytes_per_pixel: int)

  /** The only display the kernel's graphics support: 640 by 480, 4 bytes per pixel. */
  const RequiredShape := Shape(640, 480, 4)

  function ShapeOf(info: FrameBufferInfo): Shape
  {
    Shape(info.width as int, info.height as int, info.bytes_per_pixel as int)
  }

  /** `check_framebuffer_size`: its only possible error is `FramebufferWrongSize`. */
  function CheckFramebufferSize(fb_info: FrameBufferInfo): (r: Outcome<KernelInitError>)
    ensures r.Fail? ==> r.error == FramebufferWrongSize
  {
    if fb_info.width == 640 && fb_info.height == 480 && fb_info.bytes_per_pixel == 4 then
      Pass
    else
      Fail(FramebufferWrongSize)
  }

  /** The check accepts a framebuffer exactly when its shape is the required one. */
  lemma CheckFramebufferSizeAcceptsExactlyRequiredShape(fb_info: FrameBufferInfo)
    ensures CheckFramebufferSize(fb_info) == Pass <==> ShapeOf(fb_info) == RequiredShape
    ensures CheckFramebufferSize(fb_info) != Pass ==> CheckFramebufferSize(fb_info) == Fail(FramebufferWrongSize)
  {
  }

  /** Pixel format, stride and byte length play no part in the decision. */
  lemma CheckFramebufferSizeDependsOnlyOnShape(a: FrameBufferInfo, b: FrameBufferInfo)
    requires ShapeOf(a) == ShapeOf(b)
    ensures CheckFramebufferSize(a) == CheckFramebufferSize(b)
  {
  }

  /** 640x480x4 passes and 800x600x4 fails, whatever the other fields. */
  lemma CheckFramebufferSizeExamples(byte_len: usize, pixel_format: PixelFormat, stride: usize)
    ensures CheckFramebufferSize(FrameBufferInfo(byte_len, 640, 480, pixel_format, 4, stride)) == Pass
    ensures CheckFramebufferSize(FrameBufferInfo(byte_len, 800, 600, pixel_format, 4, stride)) == Fail(FramebufferWrongSize)
  {
  }

  // ---------------------------------------------------------------------
  // First ATA drive

  /** `into_iter().next()` on the drive listing. */
  function Next<T>(s: seq<T>): (r: Option<T>)
    ensures r.None? <==> |s| == 0
    ensures r.Some? ==> r.value == s[0]
  {
    if |s| == 0 then None else Some(s[0])
  }

  /** `Option::ok_or`. */
  function OkOr<T>(o: Option<T>, e: KernelInitError): (r: Result<T, KernelInitError>)
    ensures o.None? ==> r == Err(e)
    ensures o.Some? ==> r == Ok(o.value)
  {
    match o
    case Some(v) => Ok(v)
    case None => Err(e)
  }

  /**
   * `get_first_ata_drive`: the outcome of `ata::init()` and of `ata::list()`
   * are inputs (the listing is only consulted once initialisation succeeded).
   */
  function GetFirstAtaDrive(init: Outcome<Ata.AtaError>, listing: Result<seq<Ata.DriveInfo>, Ata.AtaError>)
    : (r: Result<Ata.DriveInfo, KernelInitError>)
    ensures init.Fail? ==> r == Err(FromAtaError(init.error))
    ensures init.Pass? && listing.Err? ==> r == Err(FromAtaError(listing.error))
    ensures init.Pass? && listing.Ok? ==> (r == Err(AtaNoDrive) <==> listing.value == [])
    ensures init.Pass? && listing.Ok? && listing.value != [] ==> r == Ok(listing.value[0])
    ensures r.Ok? ==> listing.Ok? && listing.value != [] && r.value == listing.value[0]
  {
    match init
    case Fail(e) => Err(FromAtaError(e))
    case Pass =>
      match listing
      case Err(e) => Err(FromAtaError(e))
      case Ok(drives) => OkOr(Next(drives), AtaNoDrive)
  }

  /** Whenever a drive is listed, the first one listed is the one chosen. */
  lemma GetFirstAtaDriveChoosesFirst(drives: seq<Ata.DriveInfo>, others: seq<Ata.DriveInfo>, d: Ata.DriveInfo)
    requires drives == [d] + others
    ensures GetFirstAtaDrive(Pass, Ok(drives)) == Ok(d)
  {
  }

  // ---------------------------------------------------------------------
  // User partition from the boot record

  /** Entry 0 is the kernel's own partition: in use, bootable, starting at sector 0. */
  predicate IsBootPartition(e: PartitionTableEntry)
  {
    e.partition_type.InUse? && e.bootable && e.logical_block_address == 0
  }

  /** The disk layout the kernel expects: entry 0 the boot partition, entry 1 in use. */
  predicate IsUserDiskLayout(mbr: MasterBootRecord)
  {
    IsBootPartition(mbr.entries[0]) && mbr.entries[1].partition_type.InUse?
  }

  /** The partition described by entry 1 of the boot record. */
  function UserPartitionOf(drive: Ata.Drive, mbr: MasterBootRecord): Ata.Partition
  {
    Ata.Partition(
      drive,
      U32ToUsize(mbr.entries[1].logical_block_address),
      U32ToUsize(mbr.entries[1].sector_count))
  }

  /**
   * `get_user_partition` after the boot sector has been read: `parsed` is the
   * outcome of parsing that sector as a boot record.
   */
  function GetUserPartition(drive: Ata.Drive, parsed: Result<MasterBootRecord, MbrError>)
    : (r: Result<Ata.Partition, KernelInitError>)
    ensures parsed.Err? ==> r == Err(InvalidDiskMbr)
    ensures r.Err? ==> r.error == InvalidDiskMbr
    ensures r.Ok? ==> parsed.Ok? && r.value.drive == drive
    ensures r.Ok? ==> r.value.start_sector as int == parsed.value.entries[1].logical_block_address as int
    ensures r.Ok? ==> r.value.sector_count as int == parsed.value.entries[1].sector_count as int
  {
    match parsed
    case Err(_) => Err(InvalidDiskMbr)
    case Ok(mbr) =>
      if mbr.entries[0].partition_type == Unused || mbr.entries[1].partition_type == Unused then
        Err(InvalidDiskMbr)
      else if !mbr.entries[0].bootable || mbr.entries[0].logical_block_address != 0 then
        Err(InvalidDiskMbr)
      else
        Ok(UserPartitionOf(drive, mbr))
  }

  /** Success exactly on a parsed record with the expected layout, and then entry 1 is the result. */
  lemma GetUserPartitionSucceedsIff(drive: Ata.Drive, parsed: Result<MasterBootRecord, MbrError>)
    ensures GetUserPartition(drive, parsed).Ok? <==> parsed.Ok? && IsUserDiskLayout(parsed.value)
    ensures GetUserPartition(drive, parsed).Ok? ==>
      GetUserPartition(drive, parsed).value == UserPartitionOf(drive, parsed.value)
  {
  }

  /** Entry 1's bootable flag and entries 2 and 3 never influence the outcome. */
  lemma GetUserPartitionIgnoresOtherFields(drive: Ata.Drive, a: MasterBootRecord, b: MasterBootRecord)
    requires a.entries[0] == b.entries[0]
    requires a.entries[1].partition_type == b.entries[1].partition_type
    requires a.entries[1].logical_block_address == b.entries[1].logical_block_address
    requires a.entries[1].sector_count == b.entries[1].sector_count
    ensures GetUserPartition(drive, Ok(a)) == GetUserPartition(drive, Ok(b))
  {
  }

  /**
   * A boot record whose entry 0 is unused is refused; one whose entry 0 is a
   * bootable partition at sector 0 and whose entry 1 starts at 2048 with 4096
   * sectors yields exactly that partition.
   */
  lemma GetUserPartitionExamples(drive: Ata.Drive, tag: u8, e2: PartitionTableEntry, e3: PartitionTableEntry)
    ensures var user := PartitionTableEntry(InUse(tag), false, 2048, 4096);
      && GetUserPartition(drive, Ok(MasterBootRecord([EmptyEntry, user, e2, e3]))) == Err(InvalidDiskMbr)
      && GetUserPartition(drive, Ok(MasterBootRecord([PartitionTableEntry(InUse(tag), true, 0, 2048), user, e2, e3])))
         == Ok(Ata.Partition(drive, 2048, 4096))
  {
  }

  // ---------------------------------------------------------------------
  // The checks, in any order

  /** The four conditions `get_user_partition` checks on a parsed boot record. */
  datatype BootRecordCheck = Entry0InUse | Entry1InUse | Entry0Bootable | Entry0AtSectorZero

  predicate Holds(c: BootRecordCheck, mbr: MasterBootRecord)
  {
    match c
    case Entry0InUse => mbr.entries[0].partition_type != Unused
    case Entry1InUse => mbr.entries[1].partition_type != Unused
    case Entry0Bootable => mbr.entries[0].bootable
    case Entry0AtSectorZero => mbr.entries[0].logical_block_address == 0
  }

  /** Runs `checks` one after another and stops at the first that fails. */
  function RunChecks(checks: seq<BootRecordCheck>, mbr: MasterBootRecord): (r: Outcome<KernelInitError>)
    ensures r.Fail? ==> r.error == InvalidDiskMbr
    decreases |checks|
  {
    if checks == [] then Pass
    else if !Holds(checks[0], mbr) then Fail(InvalidDiskMbr)
    else RunChecks(checks[1..], mbr)
  }

  /** A run of checks passes exactly when every check in it holds. */
  lemma {:induction false} RunChecksPassesIffAllHold(checks: seq<BootRecordCheck>, mbr: MasterBootRecord)
    ensures RunChecks(checks, mbr) == Pass <==> forall i | 0 <= i < |checks| :: Holds(checks[i], mbr)
    decreases |checks|
  {
    if checks != [] {
      RunChecksPassesIffAllHold(checks[1..], mbr);
      assert forall i | 1 <= i < |checks| :: checks[i] == checks[1..][i - 1];
    }
  }

  /**
   * Because every failing check yields the same `InvalidDiskMbr`, running the
   * four checks in any order (repeats allowed) gives the result that
   * `get_user_partition` gives.
   */
  lemma {:induction false} CheckOrderIrrelevant(drive: Ata.Drive, mbr: MasterBootRecord, checks: seq<BootRecordCheck>)
    requires forall c: BootRecordCheck :: c in checks
    ensures GetUserPartition(drive, Ok(mbr)) ==
      match RunChecks(checks, mbr)
      case Pass => Ok(UserPartitionOf(drive, mbr))
      case Fail(e) => Err(e)
  {
    RunChecksPassesIffAllHold(checks, mbr);
    GetUserPartitionSucceedsIff(drive, Ok(mbr));
    if RunChecks(checks, mbr) == Pass {
      forall c: BootRecordCheck ensures Holds(c, mbr) {
        assert c in checks;
        var i :| 0 <= i < |checks| && checks[i] == c;
      }
      assert Holds(Entry0InUse, mbr) && Holds(Entry1InUse, mbr);
      assert Holds(Entry0Bootable, mbr) && Holds(Entry0AtSectorZero, mbr);
    } else {
      var i :| 0 <= i < |checks| && !Holds(checks[i], mbr);
    }
  }
}
