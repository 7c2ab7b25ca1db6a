/** The hits of a scan: their kinds, and the ways each kind can be opened. */
module Hits {
  import opened Machine

  datatype Detected =
    | Ntfs | Fat12 | Fat16 | Fat32 | ExFat | Ext | Apfs | Btrfs | Qnx6 | BitLocker
    | MbrPartitioned | GptPartitioned | Unknown
  {
    predicate IsPartitionTable() {
      MbrPartitioned? || GptPartitioned?
    }
  }

  datatype Backup = Backup(offset: nat, group: nat)

  datatype Kind =
    | Filesystem(detected: Detected)
    | PartitionTable(table: Detected)
    | LoneBackup(group: nat, start: Option<nat>, before: Option<nat>)
    | PrimaryCopies(copies: nat, last: nat)

  datatype Hit = Hit(offset: nat, kind: Kind, size: Option<nat>, backups: seq<Backup>)
  {
    function MountOffset(): Option<nat> {
      match kind
      case Filesystem(_) => Some(offset)
      case LoneBackup(_, start, _) => start
      case PrimaryCopies(_, _) => if backups == [] then None else Some(offset)
      case PartitionTable(_) => None
    }

    function HeadAbsent(): Option<nat> {
      match kind
      case LoneBackup(_, _, before) => before
      case _ => None
    }

    function BackupGroup(): Option<nat> {
      if kind.LoneBackup? then Some(kind.group)
      else if backups != [] then Some(backups[0].group)
      else None
    }

    predicate IsExtFilesystem() {
      kind == Filesystem(Ext)
    }

    /** The signed byte offset at which this hit says its filesystem begins. */
    function SignedStart(): int {
      match kind
      case LoneBackup(_, Some(start), _) => start as int
      case LoneBackup(_, None, Some(before)) => -(before as int)
      case _ => offset
    }
  }

  /** The hits a scan numbers, in scan order. */
  function MountableHits(hits: seq<Hit>): seq<Hit> {
    if hits == [] then []
    else if hits[0].MountOffset().Some? then [hits[0]] + MountableHits(hits[1..])
    else MountableHits(hits[1..])
  }
}
