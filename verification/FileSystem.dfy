/** The file system of nachos64/code/filesys/filesys.cc: format, Create, Open and Remove on one shared disk. */
module FileSystems {
  import opened Bytes
  import opened BitMaps
  import opened Storage
  import opened FileHeaders
  import opened OpenFiles
  import opened Directories
  import opened Volumes
  import opened Updates
  import opened Capacity

  // Moving the in-memory bitmap and directory to and from their files

  method FetchBitMap(m: BitMap, file: OpenFile)
    requires m.Valid() && m.numBits == NUM_SECTORS && m.words.Length == 32
    requires file.Valid() && file.hdr.numBytes == FREE_MAP_FILE_SIZE
    modifies m.words
    ensures m.Bits() == MapBits(file.disk.sectors, file.hdr.Value())
  {
    var raw := new byte[FREE_MAP_FILE_SIZE];
    var n := file.ReadAt(raw, 0, 4 * m.words.Length, 0);
    assert raw[..] == file.Contents();
    var ws := WordsOf(raw[..]);
    forall i | 0 <= i < 32 {
      m.words[i] := ws[i];
    }
    assert m.words[..] == ws;
  }

  method StoreBitMap(m: BitMap, file: OpenFile)
    requires m.Valid() && m.numBits == NUM_SECTORS && m.words.Length == 32
    requires file.Valid() && file.hdr.numBytes == FREE_MAP_FILE_SIZE
    modifies file.disk
    ensures file.Valid() && MapBits(file.disk.sectors, file.hdr.Value()) == m.Bits()
    ensures OnlyWithin(old(file.disk.sectors), file.disk.sectors, file.hdr.Value())
  {
    var image := WordsImage(m.words[..]);
    var n := file.WriteAt(image, 4 * m.words.Length, 0);
    assert file.Contents() == image;
    WordsRoundTrip(m.words[..]);
  }

  method FetchDirectory(dir: Directory, file: OpenFile)
    requires file.Valid() && file.hdr.numBytes == DIRECTORY_FILE_SIZE
    modifies dir
    ensures dir.table == file.Contents()
  {
    var raw := new byte[TABLE_SIZE];
    var n := file.ReadAt(raw, 0, TABLE_SIZE, 0);
    assert raw[..] == file.Contents();
    dir.table := raw[..];
  }

  method StoreDirectory(dir: Directory, file: OpenFile)
    requires file.Valid() && file.hdr.numBytes == DIRECTORY_FILE_SIZE
    modifies file.disk
    ensures file.Valid() && file.Contents() == dir.table
    ensures OnlyWithin(old(file.disk.sectors), file.disk.sectors, file.hdr.Value())
  {
    var n := file.WriteAt(dir.table, TABLE_SIZE, 0);
    assert file.Contents() == dir.table;
  }

  /** A sector for the header, a directory entry and the data sectors of a new file, or failure. */
  method Claim(directory: Directory, freeMap: BitMap, hdr: FileHeader, name: seq<byte>, size: int)
    returns (ok: bool, sector: int, ghost slot: nat)
    requires IsCString(name) && 0 <= size && Storable(hdr.Value())
    requires NamesPadded(directory.table) && !Has(directory.table, Key(name))
    requires freeMap.Valid() && freeMap.numBits == NUM_SECTORS
    requires size <= MAX_FILE_SIZE || Full(directory.table) || ClearCount(freeMap.Bits()) < Cost(size)
    modifies directory, freeMap.words, hdr
    ensures ok <==> !Full(old(directory.table)) && 1 + (size + 127) / 128 <= ClearCount(old(freeMap.Bits()))
    ensures ok ==> Entered(old(directory.table), directory.table, slot, Key(name), sector)
    ensures ok ==> Storable(hdr.Value()) && hdr.numBytes == size
    ensures ok ==> var node := Node(Key(name), sector, hdr.Value());
                   node.Formed() && Took(old(freeMap.Bits()), freeMap.Bits(), Pieces(node))
  {
    slot, ok := 0, false;
    ghost var bits := freeMap.Bits();
    sector := freeMap.Find();
    if sector == -1 {
      return;
    }
    CountClearUpdate(bits, sector, NUM_SECTORS);
    var added;
    added, slot := directory.Add(name, sector);
    if !added {
      return;
    }
    ok := hdr.Allocate(freeMap, size);
    if ok {
      TookAll(bits, freeMap.Bits(), Node(Key(name), sector, hdr.Value()));
    }
  }

  /** The first part of formatting: sectors 0 and 1, and room for the free map and the directory. Both ASSERTs hold. */
  method Reserve(g0: Header, g1: Header)
    returns (freeMap: BitMap, mapHdr: FileHeader, dirHdr: FileHeader, ghost b0: seq<bool>, ghost b1: seq<bool>)
    requires Storable(g0) && Storable(g1)
    ensures fresh(freeMap) && fresh(freeMap.words) && fresh(mapHdr) && fresh(dirHdr) && mapHdr != dirHdr
    ensures freeMap.Valid() && freeMap.numBits == NUM_SECTORS && freeMap.words.Length == 32
    ensures |b0| == NUM_SECTORS
    ensures forall s | 0 <= s < NUM_SECTORS :: b0[s] == (s == FREE_MAP_SECTOR || s == DIRECTORY_SECTOR)
    ensures Storable(mapHdr.Value()) && mapHdr.Value().Formed() && mapHdr.numBytes == FREE_MAP_FILE_SIZE
    ensures Storable(dirHdr.Value()) && dirHdr.Value().Formed() && dirHdr.numBytes == DIRECTORY_FILE_SIZE
    ensures Took(b0, b1, mapHdr.dataSectors[..mapHdr.numSectors])
            && Took(b1, freeMap.Bits(), dirHdr.dataSectors[..dirHdr.numSectors])
  {
    freeMap := new BitMap(NUM_SECTORS);
    mapHdr := new FileHeader(g0);
    dirHdr := new FileHeader(g1);
    freeMap.Mark(FREE_MAP_SECTOR);
    freeMap.Mark(DIRECTORY_SECTOR);
    b0 := freeMap.Bits();
    RoomToFormat(b0);
    var ok := mapHdr.Allocate(freeMap, FREE_MAP_FILE_SIZE);
    assert ok;
    b1 := freeMap.Bits();
    TookOne(b0, b1, mapHdr.dataSectors[..mapHdr.numSectors]);
    ok := dirHdr.Allocate(freeMap, DIRECTORY_FILE_SIZE);
    assert ok;
  }

  /** Both headers go to their places on the disk. */
  method PutHeaders(disk: SynchDisk, g0: Header, g1: Header)
    returns (freeMap: BitMap, ghost h0: Header, ghost h1: Header, ghost b0: seq<bool>, ghost b1: seq<bool>)
    requires disk.Valid() && Storable(g0) && Storable(g1)
    modifies disk
    ensures fresh(freeMap) && fresh(freeMap.words) && disk.Valid()
    ensures freeMap.Valid() && freeMap.numBits == NUM_SECTORS && freeMap.words.Length == 32
    ensures |b0| == NUM_SECTORS
    ensures forall s | 0 <= s < NUM_SECTORS :: b0[s] == (s == FREE_MAP_SECTOR || s == DIRECTORY_SECTOR)
    ensures Storable(h0) && h0.Formed() && h0.Distinct() && h0.numBytes == FREE_MAP_FILE_SIZE
    ensures Storable(h1) && h1.Formed() && h1.Distinct() && h1.numBytes == DIRECTORY_FILE_SIZE
    ensures Took(b0, b1, h0.dataSectors[..h0.numSectors]) && Took(b1, freeMap.Bits(), h1.dataSectors[..h1.numSectors])
    ensures disk.sectors == old(disk.sectors)[FREE_MAP_SECTOR := HeaderImage(h0)][DIRECTORY_SECTOR := HeaderImage(h1)]
    ensures HeaderIn(disk.sectors[FREE_MAP_SECTOR]) == h0 && HeaderIn(disk.sectors[DIRECTORY_SECTOR]) == h1
    ensures !h0.Uses(0) && !h0.Uses(1) && !h1.Uses(0) && !h1.Uses(1) && forall s | h0.Uses(s) :: !h1.Uses(s)
  {
    var mapHdr, dirHdr;
    freeMap, mapHdr, dirHdr, b0, b1 := Reserve(g0, g1);
    h0, h1 := mapHdr.Value(), dirHdr.Value();
    HeadersStored(disk.sectors, h0, h1, b0, b1, freeMap.Bits());
    mapHdr.WriteBack(disk, FREE_MAP_SECTOR);
    dirHdr.WriteBack(disk, DIRECTORY_SECTOR);
  }

  lemma TookOne(before: seq<bool>, after: seq<bool>, taken: seq<int>)
    requires |taken| == 1 && Took(before, after, taken)
    ensures ClearCount(after) == ClearCount(before) - 1
  {
    assert after == before[taken[0] := true];
    CountClearUpdate(before, taken[0], |before|);
  }

  lemma RoomToFormat(b0: seq<bool>)
    requires b0 == seq(NUM_SECTORS, i => false)[0 := true][1 := true]
    ensures ClearCount(b0) == NUM_SECTORS - 2
  {
    var clear := seq(NUM_SECTORS, i => false);
    AllClear(clear, NUM_SECTORS);
    CountClearUpdate(clear, 0, NUM_SECTORS);
    CountClearUpdate(clear[0 := true], 1, NUM_SECTORS);
  }

  /** What formatting leaves behind is an empty file system. */
  lemma Formatted(
    d0: Image, d1: Image, d2: Image, d3: Image, h0: Header, h1: Header, b0: seq<bool>, b1: seq<bool>, b2: seq<bool>,
    t: Table)
    requires Storage.Formed(d0) && Storable(h0) && Storable(h1) && h0.Formed() && h1.Formed()
    requires h0.numBytes == FREE_MAP_FILE_SIZE && h1.numBytes == DIRECTORY_FILE_SIZE
    requires |b0| == NUM_SECTORS
    requires forall s | 0 <= s < NUM_SECTORS :: b0[s] == (s == FREE_MAP_SECTOR || s == DIRECTORY_SECTOR)
    requires Took(b0, b1, h0.dataSectors[..h0.numSectors]) && Took(b1, b2, h1.dataSectors[..h1.numSectors])
    requires d1 == d0[FREE_MAP_SECTOR := HeaderImage(h0)][DIRECTORY_SECTOR := HeaderImage(h1)]
    requires OnlyWithin(d1, d2, h0) && MapBits(d2, h0) == b2
    requires OnlyWithin(d2, d3, h1) && FileBytes(d3, h1) == t
    requires forall i | 0 <= i < NUM_DIR_ENTRIES :: !InUse(t, i)
    ensures Sound(d3) && View(d3) == map[] && HeaderAt(d3, FREE_MAP_SECTOR) == h0
            && HeaderAt(d3, DIRECTORY_SECTOR) == h1
  {
    var files := map[FREE_MAP := Node([], FREE_MAP_SECTOR, h0), DIRECTORY := Node([], DIRECTORY_SECTOR, h1)];
    HeaderRoundTrip(h0);
    HeaderRoundTrip(h1);
    Claimed(b0, b1, b2, h0, h1);
    assert SameOn(d1, d2, 0) && SameOn(d2, d3, 0) && SameOn(d1, d2, 1) && SameOn(d2, d3, 1);
    SameContents(d2, d3, h0);
    assert FilesOf(d3) == files;
    FirstFiles(b2, files[FREE_MAP], files[DIRECTORY]);
    assert NamesIn(files) == {};
  }

  lemma HeadersStored(d0: Image, h0: Header, h1: Header, b0: seq<bool>, b1: seq<bool>, b2: seq<bool>)
    requires Storage.Formed(d0) && Storable(h0) && Storable(h1) && h0.Formed() && h1.Formed()
    requires |b0| == NUM_SECTORS
    requires forall s | 0 <= s < NUM_SECTORS :: b0[s] == (s == FREE_MAP_SECTOR || s == DIRECTORY_SECTOR)
    requires Took(b0, b1, h0.dataSectors[..h0.numSectors]) && Took(b1, b2, h1.dataSectors[..h1.numSectors])
    ensures var d1 := d0[FREE_MAP_SECTOR := HeaderImage(h0)][DIRECTORY_SECTOR := HeaderImage(h1)];
            HeaderIn(d1[FREE_MAP_SECTOR]) == h0 && HeaderIn(d1[DIRECTORY_SECTOR]) == h1
    ensures h0.Distinct() && h1.Distinct()
    ensures !h0.Uses(0) && !h0.Uses(1) && !h1.Uses(0) && !h1.Uses(1) && forall s | h0.Uses(s) :: !h1.Uses(s)
  {
    Claimed(b0, b1, b2, h0, h1);
    HeaderRoundTrip(h0);
    HeaderRoundTrip(h1);
  }

  lemma SystemHeaders(d: Image)
    requires Sound(d)
    ensures HeaderAt(d, FREE_MAP_SECTOR).Distinct() && HeaderAt(d, DIRECTORY_SECTOR).Distinct()
  {
    SystemFiles(d);
    assert FilesOf(d)[FREE_MAP].Formed() && FilesOf(d)[DIRECTORY].Formed();
  }

  lemma FirstFiles(bits: seq<bool>, a: Node, b: Node)
    requires |bits| == NUM_SECTORS && a.Formed() && b.Formed()
    requires forall s | a.Owns(s) :: !b.Owns(s)
    requires forall s | 0 <= s < NUM_SECTORS :: bits[s] <==> a.Owns(s) || b.Owns(s)
    ensures var files := map[FREE_MAP := a, DIRECTORY := b]; Apart(files) && Marked(bits, files) && Named(files)
  {
    var files := map[FREE_MAP := a, DIRECTORY := b];
    forall s | 0 <= s < NUM_SECTORS ensures bits[s] <==> Owned(files, s) {
      assert files[FREE_MAP].Owns(s) || files[DIRECTORY].Owns(s) <==> Owned(files, s);
    }
  }

  lemma Claimed(b0: seq<bool>, b1: seq<bool>, b2: seq<bool>, h0: Header, h1: Header)
    requires h0.Formed() && h1.Formed()
    requires |b0| == NUM_SECTORS
    requires forall s | 0 <= s < NUM_SECTORS :: b0[s] == (s == FREE_MAP_SECTOR || s == DIRECTORY_SECTOR)
    requires Took(b0, b1, h0.dataSectors[..h0.numSectors]) && Took(b1, b2, h1.dataSectors[..h1.numSectors])
    ensures h0.Distinct() && h1.Distinct()
    ensures !h0.Uses(0) && !h0.Uses(1) && !h1.Uses(0) && !h1.Uses(1)
    ensures forall s | h0.Uses(s) :: !h1.Uses(s)
    ensures forall s | 0 <= s < NUM_SECTORS :: b2[s] <==> s == 0 || s == 1 || h0.Uses(s) || h1.Uses(s)
  {
    var a, b := h0.dataSectors[..h0.numSectors], h1.dataSectors[..h1.numSectors];
    forall k, l | 0 <= k < l < h0.numSectors ensures h0.dataSectors[k] != h0.dataSectors[l] {
      assert a[k] != a[l];
    }
    forall k, l | 0 <= k < l < h1.numSectors ensures h1.dataSectors[k] != h1.dataSectors[l] {
      assert b[k] != b[l];
    }
  }

  lemma {:induction false} AllClear(bits: seq<bool>, n: nat)
    requires n <= |bits| && forall i | 0 <= i < n :: !bits[i]
    ensures CountClear(bits, n) == n
  {
    if n > 0 {
      AllClear(bits, n - 1);
    }
  }

  method StoreBoth(freeMap: BitMap, mapFile: OpenFile, directory: Directory, dirFile: OpenFile)
    returns (ghost between: Image)
    requires freeMap.Valid() && freeMap.numBits == NUM_SECTORS && freeMap.words.Length == 32
    requires mapFile.Valid() && mapFile.hdr.numBytes == FREE_MAP_FILE_SIZE
    requires dirFile.Valid() && dirFile.hdr.numBytes == DIRECTORY_FILE_SIZE && dirFile.disk == mapFile.disk
    modifies mapFile.disk
    ensures mapFile.disk.Valid()
    ensures OnlyWithin(old(mapFile.disk.sectors), between, mapFile.hdr.Value())
            && MapBits(between, mapFile.hdr.Value()) == freeMap.Bits()
    ensures OnlyWithin(between, mapFile.disk.sectors, dirFile.hdr.Value())
    ensures FileBytes(mapFile.disk.sectors, dirFile.hdr.Value()) == directory.table
  {
    StoreBitMap(freeMap, mapFile);
    between := mapFile.disk.sectors;
    StoreDirectory(directory, dirFile);
  }

  /** The rest of formatting: the new free map and the empty directory are written through their own files. */
  method FormatDisk(disk: SynchDisk, g0: Header, g1: Header, garbage: Table)
    returns (mapFile: OpenFile, dirFile: OpenFile)
    requires disk.Valid() && Storable(g0) && Storable(g1)
    modifies disk
    ensures disk.Valid() && Sound(disk.sectors) && View(disk.sectors) == map[]
    ensures fresh(mapFile) && fresh(mapFile.hdr) && fresh(dirFile) && fresh(dirFile.hdr)
    ensures mapFile.disk == disk && mapFile.hdr.Value() == HeaderAt(disk.sectors, FREE_MAP_SECTOR)
    ensures dirFile.disk == disk && dirFile.hdr.Value() == HeaderAt(disk.sectors, DIRECTORY_SECTOR)
  {
    var directory := new Directory(garbage);
    ghost var d0 := disk.sectors;
    var freeMap, h0, h1, b0, b1 := PutHeaders(disk, g0, g1);
    ghost var d1, b2 := disk.sectors, freeMap.Bits();
    mapFile := new OpenFile(disk, FREE_MAP_SECTOR, g0);
    dirFile := new OpenFile(disk, DIRECTORY_SECTOR, g1);
    assert mapFile.hdr.Value() == h0 && dirFile.hdr.Value() == h1;
    ghost var d2 := StoreBoth(freeMap, mapFile, directory, dirFile);
    Formatted(d0, d1, d2, disk.sectors, h0, h1, b0, b1, b2, directory.table);
  }

  type Files = map<seq<byte>, seq<byte>>

  /** What Create finds on the disk: the name is new, a directory entry is free and enough sectors are clear. */
  ghost predicate HasRoom(d: Image, key: seq<byte>, size: nat)
    requires Sound(d)
  {
    key !in View(d) && !Full(TableOf(d)) && 1 + (size + 127) / 128 <= ClearCount(FreeMapOf(d))
  }

  /** The same, going by the named files alone. */
  ghost predicate Admits(v: Files, key: seq<byte>, size: nat) {
    key !in v && |v| < NUM_DIR_ENTRIES && Used(v) + Cost(size) <= ROOM
  }

  lemma AdmitsRight(d: Image, key: seq<byte>, size: nat)
    requires Sound(d)
    ensures Admits(View(d), key, size) <==> HasRoom(d, key, size)
  {
    FreeSpace(d);
    FreeSlots(d);
  }

  /** A write to a listed file, and what it does to the disk. */
  method WriteListed(file: OpenFile, ghost slot: int, data: seq<byte>, position: int) returns (n: int)
    requires Sound(file.disk.sectors) && file.disk.Valid() && (data != [] ==> 0 <= position)
    requires slot in FilesOf(file.disk.sectors) && slot < NUM_DIR_ENTRIES
    requires FilesOf(file.disk.sectors)[slot].hdr == file.hdr.Value()
    modifies file.disk
    ensures file.disk.Valid() && Wrote(old(file.disk.sectors), file.disk.sectors, slot, data, position, n)
  {
    ghost var d, h := file.disk.sectors, file.hdr.Value();
    ListedFile(d, slot);
    n := file.WriteAt(data, |data|, position);
    WroteFile(d, file.disk.sectors, slot, position, data[..n]);
  }

  /**
   * The disk after a write of `n` bytes of `data` to a listed file: still sound, and only that file's contents differ.
   */
  ghost predicate Wrote(d: Image, e: Image, f: int, data: seq<byte>, position: int, n: int)
    requires Sound(d) && f in FilesOf(d) && f < NUM_DIR_ENTRIES && (data != [] ==> 0 <= position)
  {
    var (v, name) := (View(d), FilesOf(d)[f].name);
    && Sound(e) && FilesOf(e) == FilesOf(d) && FreeMapOf(e) == FreeMapOf(d)
    && HeaderAt(e, FREE_MAP_SECTOR) == HeaderAt(d, FREE_MAP_SECTOR)
    && HeaderAt(e, DIRECTORY_SECTOR) == HeaderAt(d, DIRECTORY_SECTOR)
    && name in v && n == Clamp(|data|, position, |v[name]|)
    && View(e) == v[name := Overwrite(v[name], position, data[..n])]
  }

  class FileSystem {
    const disk: SynchDisk
    const freeMapFile: OpenFile
    const directoryFile: OpenFile

    ghost predicate Valid()
      reads this, disk, freeMapFile, freeMapFile.hdr, directoryFile, directoryFile.hdr
    {
      && disk.Valid() && Sound(disk.sectors)
      && freeMapFile.disk == disk && freeMapFile.hdr.Value() == HeaderAt(disk.sectors, FREE_MAP_SECTOR)
      && directoryFile.disk == disk && directoryFile.hdr.Value() == HeaderAt(disk.sectors, DIRECTORY_SECTOR)
    }

    lemma FilesOpen()
      requires Valid()
      ensures freeMapFile.Valid() && directoryFile.Valid()
    {
      SystemFiles(disk.sectors);
      assert FilesOf(disk.sectors)[FREE_MAP].Formed() && FilesOf(disk.sectors)[DIRECTORY].Formed();
    }

    constructor Format(disk: SynchDisk, g0: Header, g1: Header, garbage: Table)
      requires disk.Valid() && Storable(g0) && Storable(g1)
      modifies disk
      ensures Valid() && this.disk == disk && View(disk.sectors) == map[]
      ensures fresh(freeMapFile) && fresh(freeMapFile.hdr) && fresh(directoryFile) && fresh(directoryFile.hdr)
    {
      var mapFile, dirFile := FormatDisk(disk, g0, g1, garbage);
      this.disk := disk;
      freeMapFile := mapFile;
      directoryFile := dirFile;
    }

    /** Starting without a format: the files of a sound disk are all there again. */
    constructor Mount(disk: SynchDisk, g0: Header, g1: Header)
      requires disk.Valid() && Sound(disk.sectors) && Storable(g0) && Storable(g1)
      ensures Valid() && this.disk == disk
      ensures fresh(freeMapFile) && fresh(freeMapFile.hdr) && fresh(directoryFile) && fresh(directoryFile.hdr)
    {
      SystemHeaders(disk.sectors);
      var mapFile := new OpenFile(disk, FREE_MAP_SECTOR, g0);
      var dirFile := new OpenFile(disk, DIRECTORY_SECTOR, g1);
      this.disk := disk;
      freeMapFile := mapFile;
      directoryFile := dirFile;
    }

    /** Succeeds exactly when the name is new, a directory slot is free and the disk has room for header and data. */
    method Create(name: seq<byte>, size: int, g: Header, garbage: Table) returns (ok: bool, ghost slot: nat)
      requires Valid() && IsCString(name) && 0 <= size && Storable(g)
      requires size <= MAX_FILE_SIZE || !HasRoom(disk.sectors, Key(name), size)
      modifies disk
      ensures Valid() && (ok <==> HasRoom(old(disk.sectors), Key(name), size))
      ensures !ok ==> disk.sectors == old(disk.sectors)
      ensures ok ==> Key(name) in View(disk.sectors) && |View(disk.sectors)[Key(name)]| == size
      ensures ok ==> View(disk.sectors) == View(old(disk.sectors))[Key(name) := View(disk.sectors)[Key(name)]]
      ensures ok ==>
                slot < NUM_DIR_ENTRIES && slot in FilesOf(disk.sectors) && FilesOf(disk.sectors)[slot].name == Key(name)
      ensures ok ==> slot !in FilesOf(old(disk.sectors))
                     && FilesOf(disk.sectors) == FilesOf(old(disk.sectors))[slot := FilesOf(disk.sectors)[slot]]
      ensures ok ==> Took(FreeMapOf(old(disk.sectors)), FreeMapOf(disk.sectors), Pieces(FilesOf(disk.sectors)[slot]))
      ensures ok ==> var sectors := |Pieces(FilesOf(disk.sectors)[slot])| - 1;
              (sectors - 1) * 128 < size <= sectors * 128
    {
      slot := 0;
      FilesOpen();
      ListedNames(disk.sectors, Key(name));
      var directory, freeMap, hdr, sector;
      ok, directory, freeMap, hdr, sector, slot := Prepare(name, size, g, garbage);
      if ok {
        KeyPadded(name);
        Entry(disk.sectors, slot);
        Flush(hdr, sector, directory, freeMap, slot, Node(Key(name), sector, hdr.Value()));
        ViewAt(disk.sectors, FilesOf(disk.sectors), slot);
      }
    }

    /** Fetches the directory and looks a name up in it, as Create, Open and Remove all begin. */
    method Lookup(directory: Directory, name: seq<byte>) returns (sector: int, ghost slot: int)
      requires Valid() && directoryFile.Valid() && IsCString(name)
      modifies directory
      ensures directory.table == TableOf(disk.sectors) && NamesPadded(directory.table)
      ensures sector == -1 <==> !Has(TableOf(disk.sectors), Key(name))
      ensures sector != -1 ==>
                0 <= slot < NUM_DIR_ENTRIES && InUse(TableOf(disk.sectors), slot)
                && NameOf(TableOf(disk.sectors), slot) == Key(name)
      ensures sector != -1 ==> slot in FilesOf(disk.sectors) && FilesOf(disk.sectors)[slot].Formed()
      ensures sector != -1 ==>
                FilesOf(disk.sectors)[slot].sector == sector && FilesOf(disk.sectors)[slot].name == Key(name)
      ensures sector != -1 ==> FilesOf(disk.sectors)[slot].hdr == HeaderAt(disk.sectors, sector)
    {
      ghost var d := disk.sectors;
      SoundNames(d);
      FetchDirectory(directory, directoryFile);
      sector, slot := directory.Find(name);
      if Has(TableOf(d), Key(name)) {
        Entry(d, slot);
        assert FilesOf(d)[slot].Formed();
      }
    }

    /** The part of Create that works in memory, on copies of the directory and the free map. */
    method Prepare(name: seq<byte>, size: int, g: Header, garbage: Table)
      returns (ok: bool, directory: Directory, freeMap: BitMap, hdr: FileHeader, sector: int, ghost slot: nat)
      requires Valid() && freeMapFile.Valid() && directoryFile.Valid() && IsCString(name) && 0 <= size && Storable(g)
      requires size <= MAX_FILE_SIZE || Has(TableOf(disk.sectors), Key(name)) || Full(TableOf(disk.sectors))
               || ClearCount(FreeMapOf(disk.sectors)) < Cost(size)
      ensures fresh(hdr) && fresh(freeMap) && fresh(freeMap.words) && fresh(directory)
      ensures ok <==> !Has(TableOf(disk.sectors), Key(name)) && !Full(TableOf(disk.sectors))
                      && 1 + (size + 127) / 128 <= ClearCount(FreeMapOf(disk.sectors))
      ensures ok ==> freeMap.Valid() && freeMap.numBits == NUM_SECTORS && freeMap.words.Length == 32
      ensures ok ==> Entered(TableOf(disk.sectors), directory.table, slot, Key(name), sector)
      ensures ok ==> Storable(hdr.Value()) && hdr.numBytes == size
      ensures ok ==> var node := Node(Key(name), sector, hdr.Value());
                     node.Formed() && Took(FreeMapOf(disk.sectors), freeMap.Bits(), Pieces(node))
    {
      ghost var d := disk.sectors;
      slot, sector, ok := 0, 0, false;
      directory := new Directory(garbage);
      freeMap := new BitMap(NUM_SECTORS);
      hdr := new FileHeader(g);
      var existing, _ := Lookup(directory, name);
      if existing != -1 {
        return;
      }
      FetchBitMap(freeMap, freeMapFile);
      ok, sector, slot := Claim(directory, freeMap, hdr, name, size);
    }

    /** The three writes at the end of Create. */
    method Flush(hdr: FileHeader, sector: int, directory: Directory, freeMap: BitMap, ghost slot: nat, ghost node: Node)
      requires Valid() && Storable(hdr.Value()) && node.Formed() && node.hdr == hdr.Value() && node.sector == sector
      requires |node.name| == FILE_NAME_MAX_LEN && Padded(node.name) && !Has(TableOf(disk.sectors), node.name)
      requires Entered(TableOf(disk.sectors), directory.table, slot, node.name, sector)
      requires freeMap.Valid() && freeMap.numBits == NUM_SECTORS && freeMap.words.Length == 32
      requires Took(FreeMapOf(disk.sectors), freeMap.Bits(), Pieces(node))
      requires hdr != freeMapFile.hdr && hdr != directoryFile.hdr
      modifies disk
      ensures Valid() && FilesOf(disk.sectors) == FilesOf(old(disk.sectors))[slot := node]
      ensures Took(FreeMapOf(old(disk.sectors)), FreeMapOf(disk.sectors), Pieces(node))
      ensures View(disk.sectors) == View(old(disk.sectors))[node.name := FileBytes(disk.sectors, node.hdr)]
    {
      FilesOpen();
      ghost var d := disk.sectors;
      hdr.WriteBack(disk, sector);
      ghost var d1 := disk.sectors;
      StoreDirectory(directory, directoryFile);
      ghost var d2 := disk.sectors;
      StoreBitMap(freeMap, freeMapFile);
      Created(d, d1, d2, disk.sectors, slot, node, directory.table);
      SystemFiles(d);
      SystemFiles(disk.sectors);
    }

    method Open(name: seq<byte>, g: Header, garbage: Table) returns (file: OpenFile?, ghost slot: int)
      requires Valid() && IsCString(name) && Storable(g)
      ensures (file == null) <==> Key(name) !in View(disk.sectors)
      ensures file != null ==>
                fresh(file) && fresh(file.hdr) && file.disk == disk && file.seekPosition == 0 && file.Valid()
      ensures file != null ==>
                && slot in FilesOf(disk.sectors) && slot < NUM_DIR_ENTRIES
                && FilesOf(disk.sectors)[slot].name == Key(name) && file.hdr.Value() == FilesOf(disk.sectors)[slot].hdr
                && file.Contents() == View(disk.sectors)[Key(name)]
    {
      ghost var d := disk.sectors;
      FilesOpen();
      ListedNames(d, Key(name));
      var directory := new Directory(garbage);
      file := null;
      var sector;
      sector, slot := Lookup(directory, name);
      if sector >= 0 {
        file := new OpenFile(disk, sector, g);
        ViewAt(d, FilesOf(d), slot);
      }
    }

    method Remove(name: seq<byte>, g: Header, garbage: Table) returns (ok: bool, ghost slot: nat)
      requires Valid() && IsCString(name) && Storable(g)
      modifies disk
      ensures Valid() && (ok <==> Key(name) in View(old(disk.sectors)))
      ensures !ok ==> disk.sectors == old(disk.sectors)
      ensures View(disk.sectors) == View(old(disk.sectors)) - {Key(name)}
      ensures ok ==> FilesOf(disk.sectors) == FilesOf(old(disk.sectors)) - {slot}
      ensures ok ==>
                && slot < NUM_DIR_ENTRIES && slot in FilesOf(old(disk.sectors))
                && FilesOf(old(disk.sectors))[slot].name == Key(name)
                && GaveBack(FreeMapOf(old(disk.sectors)), FreeMapOf(disk.sectors), FilesOf(old(disk.sectors))[slot])
    {
      slot := 0;
      ghost var d := disk.sectors;
      FilesOpen();
      ListedNames(d, Key(name));
      var directory, freeMap;
      ok, directory, freeMap, slot := Release(name, g, garbage);
      if ok {
        Entry(d, slot);
        FlushRemoved(directory, freeMap, slot);
      }
    }

    /** The two writes at the end of Remove. */
    method FlushRemoved(directory: Directory, freeMap: BitMap, ghost slot: nat)
      requires Valid() && slot < NUM_DIR_ENTRIES && slot in FilesOf(disk.sectors)
      requires !InUse(directory.table, slot) && OthersKept(TableOf(disk.sectors), directory.table, slot)
      requires freeMap.Valid() && freeMap.numBits == NUM_SECTORS && freeMap.words.Length == 32
      requires GaveBack(FreeMapOf(disk.sectors), freeMap.Bits(), FilesOf(disk.sectors)[slot])
      modifies disk
      ensures Valid()
      ensures GaveBack(FreeMapOf(old(disk.sectors)), FreeMapOf(disk.sectors), FilesOf(old(disk.sectors))[slot])
      ensures FilesOf(disk.sectors) == FilesOf(old(disk.sectors)) - {slot}
      ensures View(disk.sectors) == View(old(disk.sectors)) - {FilesOf(old(disk.sectors))[slot].name}
    {
      FilesOpen();
      ghost var d := disk.sectors;
      StoreBitMap(freeMap, freeMapFile);
      ghost var d1 := disk.sectors;
      StoreDirectory(directory, directoryFile);
      Removed(d, d1, disk.sectors, slot, directory.table);
      SystemFiles(d);
      SystemFiles(disk.sectors);
    }

    /** Remove fetches the header and the free map and clears the file's sectors; the ASSERTs in Deallocate hold. */
    method GiveBack(freeMap: BitMap, sector: int, ghost f: int, g: Header)
      requires Valid() && freeMapFile.Valid() && Storable(g) && freeMap.Valid() && freeMap.numBits == NUM_SECTORS
               && freeMap.words.Length == 32
      requires f in FilesOf(disk.sectors) && FilesOf(disk.sectors)[f].sector == sector
      requires 0 <= sector < NUM_SECTORS && FilesOf(disk.sectors)[f].hdr == HeaderAt(disk.sectors, sector)
      modifies freeMap.words
      ensures GaveBack(FreeMapOf(disk.sectors), freeMap.Bits(), FilesOf(disk.sectors)[f])
    {
      var fileHdr := new FileHeader(g);
      fileHdr.FetchFrom(disk, sector);
      FetchBitMap(freeMap, freeMapFile);
      AllMarked(disk.sectors, f);
      fileHdr.Deallocate(freeMap);
      freeMap.Clear(sector);
    }

    /** The part of Remove that works in memory, on copies of the directory and the free map. */
    method Release(name: seq<byte>, g: Header, garbage: Table)
      returns (ok: bool, directory: Directory, freeMap: BitMap, ghost slot: nat)
      requires Valid() && freeMapFile.Valid() && directoryFile.Valid() && IsCString(name) && Storable(g)
      ensures fresh(freeMap) && fresh(freeMap.words) && fresh(directory)
      ensures ok <==> Has(TableOf(disk.sectors), Key(name))
      ensures ok ==>
                slot < NUM_DIR_ENTRIES && InUse(TableOf(disk.sectors), slot)
                && NameOf(TableOf(disk.sectors), slot) == Key(name)
      ensures ok ==> !InUse(directory.table, slot) && OthersKept(TableOf(disk.sectors), directory.table, slot)
      ensures ok ==> freeMap.Valid() && freeMap.numBits == NUM_SECTORS && freeMap.words.Length == 32
      ensures ok ==>
                slot in FilesOf(disk.sectors)
                && GaveBack(FreeMapOf(disk.sectors), freeMap.Bits(), FilesOf(disk.sectors)[slot])
    {
      ghost var d := disk.sectors;
      slot, ok := 0, false;
      directory := new Directory(garbage);
      freeMap := new BitMap(NUM_SECTORS);
      var sector, i := Lookup(directory, name);
      if sector == -1 {
        return;
      }
      GiveBack(freeMap, sector, i, g);
      ok, slot := directory.Remove(name);
      OneSlot(d, i, slot);
    }

    /** Writing through a handle on a listed file: what Create, Remove and other writers rely on still holds. */
    method Write(file: OpenFile, ghost slot: int, data: seq<byte>, position: int) returns (n: int)
      requires Valid() && (data != [] ==> 0 <= position) && file.disk == disk
      requires slot in FilesOf(disk.sectors) && slot < NUM_DIR_ENTRIES
      requires FilesOf(disk.sectors)[slot].hdr == file.hdr.Value()
      modifies disk
      ensures Valid() && FilesOf(disk.sectors) == FilesOf(old(disk.sectors))
      ensures FreeMapOf(disk.sectors) == FreeMapOf(old(disk.sectors))
      ensures var (v, name) := (View(old(disk.sectors)), FilesOf(old(disk.sectors))[slot].name);
              && name in v && n == Clamp(|data|, position, |v[name]|)
              && View(disk.sectors) == v[name := Overwrite(v[name], position, data[..n])]
    {
      n := WriteListed(file, slot, data, position);
    }

    /** Reading through such a handle. */
    method Read(file: OpenFile, ghost slot: int, numBytes: int, position: int) returns (bytes: seq<byte>)
      requires Valid() && (numBytes > 0 ==> 0 <= position) && file.disk == disk
      requires slot in FilesOf(disk.sectors) && slot < NUM_DIR_ENTRIES
      requires FilesOf(disk.sectors)[slot].hdr == file.hdr.Value()
      ensures var (v, name) := (View(disk.sectors), FilesOf(disk.sectors)[slot].name);
              name in v && bytes == Returned(v[name], position, numBytes)
    {
      ListedFile(disk.sectors, slot);
      var into := new byte[Clamp(numBytes, position, file.hdr.numBytes)];
      var n := file.ReadAt(into, 0, numBytes, position);
      bytes := into[..];
    }

    /** Creating a file and removing it again restores the free map bit for bit, and every file. */
    method CreateThenRemove(name: seq<byte>, size: int, g: Header, garbage: Table)
      requires Valid() && IsCString(name) && 0 <= size && Storable(g) && Key(name) !in View(disk.sectors)
      requires size <= MAX_FILE_SIZE || !HasRoom(disk.sectors, Key(name), size)
      modifies disk
      ensures Valid() && FreeMapOf(disk.sectors) == FreeMapOf(old(disk.sectors))
              && View(disk.sectors) == View(old(disk.sectors))
    {
      ghost var d := disk.sectors;
      var created, i := Create(name, size, g, garbage);
      ghost var e := disk.sectors;
      var removed, j := Remove(name, g, garbage);
      if created {
        SameSlot(e, i, j);
        TakenGivenBack(FreeMapOf(d), FreeMapOf(e), FreeMapOf(disk.sectors), FilesOf(e)[i]);
        Undone(View(d), Key(name), View(e)[Key(name)]);
      }
    }
  }

  lemma ListedFile(d: Image, f: int)
    requires Sound(d) && f in FilesOf(d) && f < NUM_DIR_ENTRIES
    ensures var node := FilesOf(d)[f];
            && node.Formed() && node.name in View(d) && View(d)[node.name] == FileBytes(d, node.hdr)
  {
    assert FilesOf(d)[f].Formed();
    ViewAt(d, FilesOf(d), f);
  }

  /** The disk after a write to one listed file's data sectors. */
  lemma WroteFile(d: Image, e: Image, f: int, position: int, data: seq<byte>)
    requires Sound(d) && Storage.Formed(e) && f in FilesOf(d) && f < NUM_DIR_ENTRIES && FilesOf(d)[f].Formed()
    requires forall s | 0 <= s < NUM_SECTORS && !FilesOf(d)[f].hdr.Uses(s) :: e[s] == d[s]
    requires |data| > 0 ==> 0 <= position && position + |data| <= FilesOf(d)[f].hdr.numBytes
    requires FileBytes(e, FilesOf(d)[f].hdr) == Overwrite(FileBytes(d, FilesOf(d)[f].hdr), position, data)
    ensures Sound(e) && FilesOf(e) == FilesOf(d) && FreeMapOf(e) == FreeMapOf(d)
    ensures HeaderAt(e, FREE_MAP_SECTOR) == HeaderAt(d, FREE_MAP_SECTOR)
    ensures HeaderAt(e, DIRECTORY_SECTOR) == HeaderAt(d, DIRECTORY_SECTOR)
    ensures var (v, name) := (View(d), FilesOf(d)[f].name);
            && name in v && |v[name]| == FilesOf(d)[f].hdr.numBytes
            && View(e) == v[name := Overwrite(v[name], position, data)]
  {
    ListedFile(d, f);
    DataWritten(d, e, f);
    SystemFiles(d);
    SystemFiles(e);
  }

  lemma TakenGivenBack(before: seq<bool>, between: seq<bool>, after: seq<bool>, node: Node)
    requires node.hdr.Formed() && Took(before, between, Pieces(node)) && GaveBack(between, after, node)
    ensures after == before
  {
    forall s | 0 <= s < |before| ensures after[s] == before[s] {
      assert node.Owns(s) <==> s in Pieces(node);
    }
  }

  /** Taking the header sector and then the data sectors is taking all of a node's sectors. */
  lemma TookAll(before: seq<bool>, after: seq<bool>, node: Node)
    requires |before| == NUM_SECTORS && 0 <= node.sector < NUM_SECTORS && !before[node.sector] && node.hdr.Formed()
    requires Took(before[node.sector := true], after, node.hdr.dataSectors[..node.hdr.numSectors])
    ensures node.Formed() && Took(before, after, Pieces(node))
  {
    var data := node.hdr.dataSectors[..node.hdr.numSectors];
    forall k, l | 0 <= k < l < node.hdr.numSectors ensures node.hdr.dataSectors[k] != node.hdr.dataSectors[l] {
      assert data[k] != data[l];
    }
  }

  lemma Undone(v: Files, key: seq<byte>, contents: seq<byte>)
    requires key !in v
    ensures v[key := contents] - {key} == v
  {
  }

  lemma SameSlot(d: Image, i: int, j: int)
    requires Sound(d) && i in FilesOf(d) && j in FilesOf(d) && i < NUM_DIR_ENTRIES && j < NUM_DIR_ENTRIES
    requires FilesOf(d)[i].name == FilesOf(d)[j].name
    ensures i == j
  {
  }

  /** A name is listed at most once. */
  lemma OneSlot(d: Image, i: int, j: int)
    requires Sound(d) && 0 <= i < NUM_DIR_ENTRIES && 0 <= j < NUM_DIR_ENTRIES
    requires InUse(TableOf(d), i) && InUse(TableOf(d), j) && NameOf(TableOf(d), i) == NameOf(TableOf(d), j)
    ensures i == j
  {
    Entry(d, i);
    Entry(d, j);
  }

  /** The ASSERT in Deallocate cannot fail: a listed file's sectors are all marked. */
  lemma AllMarked(d: Image, f: int)
    requires Sound(d) && f in FilesOf(d)
    ensures FilesOf(d)[f].Formed()
    ensures forall s | FilesOf(d)[f].Owns(s) :: 0 <= s < NUM_SECTORS && FreeMapOf(d)[s]
  {
    var files := FilesOf(d);
    forall s | files[f].Owns(s) ensures 0 <= s < NUM_SECTORS && FreeMapOf(d)[s] {
      assert files[f].Formed();
      assert Owned(files, s);
    }
  }
}
