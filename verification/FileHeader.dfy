/** The file header (i-node) of nachos64/code/filesys/filehdr.cc: one sector naming the file's data sectors. */
module FileHeaders {
  import opened Bytes
  import opened BitMaps
  import opened Storage

  const NUM_DIRECT := 30
  const MAX_FILE_SIZE := NUM_DIRECT * SECTOR_SIZE

  /** The value of a header. */
  datatype Header = Header(numBytes: int, numSectors: int, dataSectors: seq<int>) {
    /** What the rest relies on: a legal length and, for it, as many sectors on the disk as it needs and no more. */
    predicate Formed() {
      && 0 <= numBytes <= MAX_FILE_SIZE
      && (numSectors - 1) * SECTOR_SIZE < numBytes <= numSectors * SECTOR_SIZE
      && |dataSectors| == NUM_DIRECT
      && forall k | 0 <= k < numSectors :: 0 <= dataSectors[k] < NUM_SECTORS
    }

    /** No sector holds two pieces of the file. */
    predicate Distinct()
      requires Formed()
    {
      forall k, l | 0 <= k < l < numSectors :: dataSectors[k] != dataSectors[l]
    }

    predicate Uses(s: int)
      requires Formed()
    {
      s in dataSectors[..numSectors]
    }
  }

  function DivRoundUp(n: nat, s: nat): nat
    requires s > 0
  {
    n / s + if n % s > 0 then 1 else 0
  }

  /** The header stored in a sector. */
  function HeaderIn(sector: seq<byte>): (h: Header)
    requires |sector| == SECTOR_SIZE
    ensures |h.dataSectors| == NUM_DIRECT
  {
    Header(IntAt(sector, 0), IntAt(sector, 4),
      seq(NUM_DIRECT, k requires 0 <= k < NUM_DIRECT => IntAt(sector, 8 + 4 * k)))
  }

  predicate Storable(h: Header) {
    && IsInt(h.numBytes) && IsInt(h.numSectors)
    && |h.dataSectors| == NUM_DIRECT && forall k | 0 <= k < NUM_DIRECT :: IsInt(h.dataSectors[k])
  }

  function HeaderWords(h: Header): (ws: seq<word>)
    requires Storable(h)
    ensures |ws| == 32
  {
    [Unsigned(h.numBytes), Unsigned(h.numSectors)]
    + seq(NUM_DIRECT, k requires 0 <= k < NUM_DIRECT => Unsigned(h.dataSectors[k]))
  }

  function HeaderImage(h: Header): (s: seq<byte>)
    requires Storable(h)
    ensures |s| == SECTOR_SIZE
  {
    WordsImage(HeaderWords(h))
  }

  /** A header written to a sector is read back unchanged. */
  lemma HeaderRoundTrip(h: Header)
    requires Storable(h)
    ensures HeaderIn(HeaderImage(h)) == h
  {
    var ws, g := HeaderWords(h), HeaderIn(HeaderImage(h));
    IntImageAt(ws, 0, h.numBytes);
    IntImageAt(ws, 1, h.numSectors);
    forall k | 0 <= k < NUM_DIRECT ensures g.dataSectors[k] == h.dataSectors[k] {
      IntImageAt(ws, k + 2, h.dataSectors[k]);
      assert 4 * (k + 2) == 8 + 4 * k;
    }
    assert g.dataSectors == h.dataSectors;
  }

  /** The flat byte sequence that a header denotes on a disk. */
  function FileBytes(d: Image, h: Header): (s: seq<byte>)
    requires Storage.Formed(d) && h.Formed()
    ensures |s| == h.numBytes
  {
    seq(h.numBytes, j requires 0 <= j < h.numBytes => d[h.dataSectors[j / SECTOR_SIZE]][j % SECTOR_SIZE])
  }

  /** The contents of sectors, one after the other. */
  function Joined(d: Image, sectors: seq<int>): seq<byte>
    requires Storage.Formed(d) && forall k | 0 <= k < |sectors| :: 0 <= sectors[k] < NUM_SECTORS
  {
    if sectors == [] then [] else Joined(d, sectors[..|sectors| - 1]) + d[sectors[|sectors| - 1]]
  }

  lemma {:induction false} JoinedAt(d: Image, sectors: seq<int>, j: nat)
    requires Storage.Formed(d) && forall k | 0 <= k < |sectors| :: 0 <= sectors[k] < NUM_SECTORS
    ensures |Joined(d, sectors)| == |sectors| * SECTOR_SIZE
    ensures j < |sectors| * SECTOR_SIZE ==> Joined(d, sectors)[j] == d[sectors[j / SECTOR_SIZE]][j % SECTOR_SIZE]
  {
    if sectors != [] {
      JoinedAt(d, sectors[..|sectors| - 1], j);
    }
  }

  /** A file is its data sectors joined in header order and cut off at its length. */
  lemma ContentsAreSectorsJoined(d: Image, h: Header)
    requires Storage.Formed(d) && h.Formed()
    ensures h.numBytes <= |Joined(d, h.dataSectors[..h.numSectors])|
    ensures FileBytes(d, h) == Joined(d, h.dataSectors[..h.numSectors])[..h.numBytes]
  {
    var sectors := h.dataSectors[..h.numSectors];
    JoinedAt(d, sectors, 0);
    forall j | 0 <= j < h.numBytes ensures FileBytes(d, h)[j] == Joined(d, sectors)[j] {
      JoinedAt(d, sectors, j);
    }
  }

  /** `taken` are the sectors an allocation took out of a free map. */
  predicate Took(before: seq<bool>, after: seq<bool>, taken: seq<int>) {
    && |after| == |before|
    && (forall k | 0 <= k < |taken| :: 0 <= taken[k] < |before| && !before[taken[k]])
    && (forall k, l | 0 <= k < l < |taken| :: taken[k] != taken[l])
    && forall s | 0 <= s < |before| :: after[s] == (before[s] || s in taken)
  }

  lemma TookMore(before: seq<bool>, bits: seq<bool>, taken: seq<int>, s: int)
    requires Took(before, bits, taken) && 0 <= s < |bits| && !bits[s]
    ensures Took(before, bits[s := true], taken + [s])
  {
  }

  class FileHeader {
    var numBytes: int
    var numSectors: int
    var dataSectors: seq<int>

    /** The C++ object starts out with whatever its memory held. */
    constructor (garbage: Header)
      requires Storable(garbage)
      ensures Value() == garbage
    {
      numBytes, numSectors, dataSectors := garbage.numBytes, garbage.numSectors, garbage.dataSectors;
    }

    function Value(): Header
      reads this
    {
      Header(numBytes, numSectors, dataSectors)
    }

    /**
     * Takes the data sectors of a file of `fileSize` bytes, or fails leaving the map alone, exactly when too few are
     * clear.
     */
    method Allocate(freeMap: BitMap, fileSize: int) returns (ok: bool)
      requires freeMap.Valid() && freeMap.numBits == NUM_SECTORS
      requires 0 <= fileSize && Storable(Value())
      requires fileSize <= MAX_FILE_SIZE || ClearCount(freeMap.Bits()) < (fileSize + 127) / 128
      modifies this, freeMap.words
      ensures ok <==> (fileSize + 127) / 128 <= ClearCount(old(freeMap.Bits()))
      ensures !ok ==> freeMap.Bits() == old(freeMap.Bits())
      ensures ok ==> Storable(Value()) && Value().Formed() && numBytes == fileSize
      ensures ok ==> (numSectors - 1) * 128 < fileSize <= numSectors * 128
      ensures ok ==> Took(old(freeMap.Bits()), freeMap.Bits(), dataSectors[..numSectors])
    {
      numBytes := fileSize;
      numSectors := DivRoundUp(fileSize, SECTOR_SIZE);
      var clear := freeMap.NumClear();
      if clear < numSectors {
        return false;
      }
      assert fileSize <= MAX_FILE_SIZE && numSectors <= NUM_DIRECT;
      TakeSectors(freeMap);
      return true;
    }

    /** The loop of Allocate. */
    method TakeSectors(freeMap: BitMap)
      requires freeMap.Valid() && freeMap.numBits == NUM_SECTORS && Storable(Value())
      requires 0 <= numSectors <= NUM_DIRECT && numSectors <= ClearCount(freeMap.Bits())
      modifies this`dataSectors, freeMap.words
      ensures Storable(Value()) && Took(old(freeMap.Bits()), freeMap.Bits(), dataSectors[..numSectors])
    {
      ghost var before := freeMap.Bits();
      var i := 0;
      while i < numSectors
        invariant 0 <= i <= numSectors && Storable(Value())
        invariant Took(before, freeMap.Bits(), dataSectors[..i])
        invariant ClearCount(freeMap.Bits()) == ClearCount(before) - i
      {
        ghost var bits := freeMap.Bits();
        var s := freeMap.Find();
        CountClearUpdate(bits, s, NUM_SECTORS);
        TookMore(before, bits, dataSectors[..i], s);
        assert dataSectors[i := s][..i + 1] == dataSectors[..i] + [s];
        dataSectors := dataSectors[i := s];
        i := i + 1;
      }
    }

    /** Gives the data sectors back. The ASSERT that each is marked is the precondition. */
    method Deallocate(freeMap: BitMap)
      requires freeMap.Valid() && freeMap.numBits == NUM_SECTORS
      requires Value().Formed() && Value().Distinct()
      requires forall k | 0 <= k < numSectors :: freeMap.Bits()[dataSectors[k]]
      modifies freeMap.words
      ensures forall s | 0 <= s < NUM_SECTORS :: freeMap.Bits()[s] == (old(freeMap.Bits())[s] && !Value().Uses(s))
    {
      var i := 0;
      while i < numSectors
        invariant 0 <= i <= numSectors
        invariant forall s | 0 <= s < NUM_SECTORS ::
                    freeMap.Bits()[s] == (old(freeMap.Bits())[s] && s !in dataSectors[..i])
      {
        var marked := freeMap.Test(dataSectors[i]);
        assert marked;
        freeMap.Clear(dataSectors[i]);
        assert dataSectors[..i + 1] == dataSectors[..i] + [dataSectors[i]];
        i := i + 1;
      }
    }

    method FetchFrom(disk: SynchDisk, sector: int)
      requires disk.Valid() && 0 <= sector < NUM_SECTORS
      modifies this
      ensures Value() == HeaderIn(disk.sectors[sector]) && Storable(Value())
    {
      var raw := new byte[SECTOR_SIZE];
      disk.ReadSector(sector, raw, 0);
      assert raw[..] == disk.sectors[sector];
      var h := HeaderIn(raw[..]);
      numBytes, numSectors, dataSectors := h.numBytes, h.numSectors, h.dataSectors;
    }

    method WriteBack(disk: SynchDisk, sector: int)
      requires disk.Valid() && 0 <= sector < NUM_SECTORS && Storable(Value())
      modifies disk
      ensures disk.Valid() && disk.sectors == old(disk.sectors)[sector := HeaderImage(Value())]
    {
      disk.WriteSector(sector, HeaderImage(Value()));
    }

    /**
     * On any disk `d` the byte of the file at `offset` is in that sector, as far into it as the offset is past a
     * boundary.
     */
    method ByteToSector(offset: int, ghost d: Image) returns (s: int)
      requires Value().Formed() && 0 <= offset && offset / SECTOR_SIZE < numSectors && Storage.Formed(d)
      ensures s == dataSectors[offset / SECTOR_SIZE]
      ensures offset < numBytes ==> FileBytes(d, Value())[offset] == d[s][offset % SECTOR_SIZE]
    {
      s := dataSectors[offset / SECTOR_SIZE];
    }

    method FileLength() returns (n: int)
      ensures n == numBytes
    {
      n := numBytes;
    }
  }
}
