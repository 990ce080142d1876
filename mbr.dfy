/**
 * The parsed form of a classic PC Master Boot Record, as the boot-record
 * crate hands it to the kernel: four partition-table entries. The byte-level
 * parser is not part of this model; its outcome is an input.
 */
module Mbr {
  import opened Primitives

  /** The parser's error type. */
  type MbrError(==)

  /**
   * The partition-type byte of an entry. The kernel only ever asks whether it
   * is `Unused` (type byte 0), so every other type is one variant carrying its tag.
   */
  datatype PartitionType = Unused | InUse(tag: u8)

  datatype PartitionTableEntry = PartitionTableEntry(
    partition_type: PartitionType,
    bootable: bool,
    logical_block_address: u32,
    sector_count: u32)

  const EmptyEntry := PartitionTableEntry(Unused, false, 0, 0)

  /** A boot record always has exactly four partition-table entries. */
  type PartitionTable = s: seq<PartitionTableEntry> | |s| == 4
    witness [EmptyEntry, EmptyEntry, EmptyEntry, EmptyEntry]

  datatype MasterBootRecord = MasterBootRecord(entries: PartitionTable)
}
