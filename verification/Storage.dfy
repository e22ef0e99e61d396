/** The disk as the file system sees it through SynchDisk: an array of sectors, read and written whole. */
module Storage {
  import opened Bytes

  const SECTOR_SIZE := 128
  const NUM_SECTORS := 1024

  type Image = seq<seq<byte>>

  predicate Formed(d: Image) {
    |d| == NUM_SECTORS && forall s | 0 <= s < NUM_SECTORS :: |d[s]| == SECTOR_SIZE
  }

  class SynchDisk {
    var sectors: Image

    ghost predicate Valid()
      reads this
    {
      Formed(sectors)
    }

    method ReadSector(n: int, data: array<byte>, at: nat)
      requires Valid() && 0 <= n < NUM_SECTORS && at + SECTOR_SIZE <= data.Length
      modifies data
      ensures data[..] == Splice(old(data[..]), at, sectors[n])
    {
      Copy(sectors[n], data, at);
    }

    method WriteSector(n: int, data: seq<byte>)
      requires Valid() && 0 <= n < NUM_SECTORS && |data| == SECTOR_SIZE
      modifies this
      ensures Valid() && sectors == old(sectors)[n := data]
    {
      sectors := sectors[n := data];
    }
  }

  /** `bcopy`. */
  method Copy(from: seq<byte>, into: array<byte>, at: nat)
    requires at + |from| <= into.Length
    modifies into
    ensures into[..] == Splice(old(into[..]), at, from)
  {
    forall k | 0 <= k < |from| {
      into[at + k] := from[k];
    }
  }
}
