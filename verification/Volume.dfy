/** What a disk image means as a file system: who owns each sector, and the named byte sequences it holds. */
module Volumes {
  import opened Bytes
  import opened BitMaps
  import opened Storage
  import opened FileHeaders
  import opened OpenFiles
  import opened Directories

  const FREE_MAP_SECTOR := 0
  const DIRECTORY_SECTOR := 1
  const FREE_MAP_FILE_SIZE := NUM_SECTORS / 8
  const DIRECTORY_FILE_SIZE := TABLE_SIZE

  /** Files are numbered by their directory slot; the free map and the directory are files too. */
  const FREE_MAP := NUM_DIR_ENTRIES
  const DIRECTORY := NUM_DIR_ENTRIES + 1

  datatype Node = Node(name: seq<byte>, sector: int, hdr: Header) {
    /** The header sector and the data sectors exist and are all different. */
    predicate Formed() {
      0 <= sector < NUM_SECTORS && hdr.Formed() && hdr.Distinct() && !hdr.Uses(sector)
    }

    predicate Owns(s: int)
      requires hdr.Formed()
    {
      s == sector || hdr.Uses(s)
    }
  }

  /** A node's sectors, header first. */
  function Pieces(node: Node): seq<int>
    requires node.hdr.Formed()
  {
    [node.sector] + node.hdr.dataSectors[..node.hdr.numSectors]
  }

  function HeaderAt(d: Image, s: int): Header
    requires Storage.Formed(d)
  {
    if 0 <= s < NUM_SECTORS then HeaderIn(d[s]) else Header(-1, 0, [])
  }

  /** The two well-known headers are in place, so the free map and the directory can be opened. */
  predicate Bootable(d: Image) {
    && Storage.Formed(d)
    && HeaderAt(d, FREE_MAP_SECTOR).Formed() && HeaderAt(d, FREE_MAP_SECTOR).numBytes == FREE_MAP_FILE_SIZE
    && HeaderAt(d, DIRECTORY_SECTOR).Formed() && HeaderAt(d, DIRECTORY_SECTOR).numBytes == DIRECTORY_FILE_SIZE
  }

  function TableOf(d: Image): Table
    requires Bootable(d)
  {
    FileBytes(d, HeaderAt(d, DIRECTORY_SECTOR))
  }

  /** The free map as it is on the disk. */
  function FreeMapOf(d: Image): (bits: seq<bool>)
    requires Bootable(d)
    ensures |bits| == NUM_SECTORS
  {
    MapBits(d, HeaderAt(d, FREE_MAP_SECTOR))
  }

  function MapBits(d: Image, h: Header): (bits: seq<bool>)
    requires Storage.Formed(d) && h.Formed() && h.numBytes == FREE_MAP_FILE_SIZE
    ensures |bits| == NUM_SECTORS
  {
    BitsOf(WordsOf(FileBytes(d, h)), NUM_SECTORS)
  }

  predicate Listed(t: Table, f: int) {
    f == FREE_MAP || f == DIRECTORY || (0 <= f < NUM_DIR_ENTRIES && InUse(t, f))
  }

  function NodeAt(d: Image, t: Table, f: int): Node
    requires Storage.Formed(d) && Listed(t, f)
  {
    if f == FREE_MAP then Node([], FREE_MAP_SECTOR, HeaderAt(d, FREE_MAP_SECTOR))
    else if f == DIRECTORY then Node([], DIRECTORY_SECTOR, HeaderAt(d, DIRECTORY_SECTOR))
    else Node(NameOf(t, f), SectorOf(t, f), HeaderAt(d, SectorOf(t, f)))
  }

  function FilesOf(d: Image): map<int, Node>
    requires Bootable(d)
  {
    FilesNamed(d, TableOf(d))
  }

  /** The files that a table names, with their headers as they are on `d`. */
  function FilesNamed(d: Image, t: Table): map<int, Node>
    requires Storage.Formed(d)
  {
    map f | 0 <= f <= DIRECTORY && Listed(t, f) :: NodeAt(d, t, f)
  }

  // The invariant

  /** No sector belongs to two files, or twice to one. */
  ghost predicate Apart(files: map<int, Node>) {
    && (forall f | f in files :: files[f].Formed())
    && forall f, g, s | f in files && g in files && f != g && files[f].Owns(s) :: !files[g].Owns(s)
  }

  ghost predicate Owned(files: map<int, Node>, s: int)
    requires Apart(files)
  {
    exists f :: f in files && files[f].Owns(s)
  }

  /** The free map marks exactly the sectors that some file owns. */
  ghost predicate Marked(bits: seq<bool>, files: map<int, Node>)
    requires Apart(files) && |bits| == NUM_SECTORS
  {
    forall s | 0 <= s < NUM_SECTORS :: bits[s] <==> Owned(files, s)
  }

  predicate Named(files: map<int, Node>) {
    && (forall f | f in files && f < NUM_DIR_ENTRIES :: |files[f].name| == FILE_NAME_MAX_LEN && Padded(files[f].name))
    && forall f, g | f in files && g in files && f < g < NUM_DIR_ENTRIES :: files[f].name != files[g].name
  }

  ghost predicate Sound(d: Image) {
    Bootable(d) && Apart(FilesOf(d)) && Marked(FreeMapOf(d), FilesOf(d)) && Named(FilesOf(d))
  }

  // The abstract file system: named byte sequences

  ghost function NamesIn(files: map<int, Node>): set<seq<byte>> {
    set f | f in files && f < NUM_DIR_ENTRIES :: files[f].name
  }

  lemma NamesInMore(files: map<int, Node>, slot: int, node: Node)
    requires slot !in files && slot < NUM_DIR_ENTRIES
    ensures NamesIn(files[slot := node]) == NamesIn(files) + {node.name}
  {
    var more := files[slot := node];
    forall f | f in files && f < NUM_DIR_ENTRIES ensures files[f].name in NamesIn(more) {
      assert more[f] == files[f];
    }
    assert more[slot] == node;
  }

  lemma NamesInFewer(files: map<int, Node>, slot: int)
    requires slot in files && slot < NUM_DIR_ENTRIES && Named(files)
    ensures NamesIn(files - {slot}) == NamesIn(files) - {files[slot].name}
  {
    var fewer := files - {slot};
    forall f | f in files && f < NUM_DIR_ENTRIES && files[f].name != files[slot].name
      ensures files[f].name in NamesIn(fewer)
    {
      assert f in fewer && fewer[f] == files[f];
    }
  }

  ghost function SlotIn(files: map<int, Node>, name: seq<byte>): (f: int)
    requires name in NamesIn(files)
    ensures f in files && f < NUM_DIR_ENTRIES && files[f].name == name
  {
    var f :| f in files && f < NUM_DIR_ENTRIES && files[f].name == name;
    f
  }

  predicate Readable(files: map<int, Node>) {
    forall f | f in files :: files[f].hdr.Formed()
  }

  ghost function ViewIn(d: Image, files: map<int, Node>): map<seq<byte>, seq<byte>>
    requires Storage.Formed(d) && Readable(files)
  {
    map name | name in NamesIn(files) :: FileBytes(d, files[SlotIn(files, name)].hdr)
  }

  /** Each file's name with its contents. */
  ghost function View(d: Image): map<seq<byte>, seq<byte>>
    requires Sound(d)
  {
    ViewIn(d, FilesOf(d))
  }

  lemma ViewAt(d: Image, files: map<int, Node>, f: int)
    requires Storage.Formed(d) && Readable(files) && Named(files) && f in files && f < NUM_DIR_ENTRIES
    ensures files[f].name in ViewIn(d, files) && ViewIn(d, files)[files[f].name] == FileBytes(d, files[f].hdr)
  {
    assert files[f].name in NamesIn(files);
    assert f == SlotIn(files, files[f].name);
  }

  /** The view is the only map with the right names and contents. */
  lemma ViewIs(d: Image, files: map<int, Node>, m: map<seq<byte>, seq<byte>>)
    requires Storage.Formed(d) && Readable(files) && m.Keys == NamesIn(files)
    requires forall f | f in files && f < NUM_DIR_ENTRIES && files[f].name in m ::
               m[files[f].name] == FileBytes(d, files[f].hdr)
    ensures m == ViewIn(d, files)
  {
  }

  lemma ViewGrows(d: Image, e: Image, files: map<int, Node>, slot: int, node: Node)
    requires Storage.Formed(d) && Storage.Formed(e) && Readable(files) && Named(files)
    requires slot !in files && slot < NUM_DIR_ENTRIES && node.hdr.Formed()
    requires forall f | f in files && f < NUM_DIR_ENTRIES :: FileBytes(e, files[f].hdr) == FileBytes(d, files[f].hdr)
    requires forall f | f in files && f < NUM_DIR_ENTRIES :: files[f].name != node.name
    ensures ViewIn(e, files[slot := node]) == ViewIn(d, files)[node.name := FileBytes(e, node.hdr)]
  {
    var v := ViewIn(d, files);
    forall f | f in files && f < NUM_DIR_ENTRIES
      ensures files[f].name in v && v[files[f].name] == FileBytes(e, files[f].hdr)
    {
      ViewAt(d, files, f);
    }
    Grown(e, files, slot, node, v);
  }

  /** A view with one more file, from the contents of those there were. */
  lemma Grown(e: Image, files: map<int, Node>, slot: int, node: Node, v: map<seq<byte>, seq<byte>>)
    requires Storage.Formed(e) && Readable(files) && slot !in files && slot < NUM_DIR_ENTRIES && node.hdr.Formed()
    requires v.Keys == NamesIn(files) && node.name !in v
    requires forall f | f in files && f < NUM_DIR_ENTRIES ::
               files[f].name in v && v[files[f].name] == FileBytes(e, files[f].hdr)
    ensures ViewIn(e, files[slot := node]) == v[node.name := FileBytes(e, node.hdr)]
  {
    NamesInMore(files, slot, node);
    ViewIs(e, files[slot := node], v[node.name := FileBytes(e, node.hdr)]);
  }

  lemma ViewShrinks(d: Image, e: Image, files: map<int, Node>, slot: int)
    requires Storage.Formed(d) && Storage.Formed(e) && Readable(files) && Named(files)
    requires slot in files && slot < NUM_DIR_ENTRIES
    requires forall f | f in files && f < NUM_DIR_ENTRIES :: FileBytes(e, files[f].hdr) == FileBytes(d, files[f].hdr)
    ensures ViewIn(e, files - {slot}) == ViewIn(d, files) - {files[slot].name}
  {
    var fewer, m := files - {slot}, ViewIn(d, files) - {files[slot].name};
    NamesInFewer(files, slot);
    forall f | f in fewer && f < NUM_DIR_ENTRIES && fewer[f].name in m
      ensures m[fewer[f].name] == FileBytes(e, fewer[f].hdr)
    {
      ViewAt(d, files, f);
    }
    ViewIs(e, fewer, m);
  }

  lemma ViewChanges(d: Image, e: Image, files: map<int, Node>, f: int)
    requires Storage.Formed(d) && Storage.Formed(e) && Readable(files) && Named(files) && f in files
             && f < NUM_DIR_ENTRIES
    requires forall g | g in files && g != f :: FileBytes(e, files[g].hdr) == FileBytes(d, files[g].hdr)
    ensures ViewIn(e, files) == ViewIn(d, files)[files[f].name := FileBytes(e, files[f].hdr)]
  {
    var m := ViewIn(d, files)[files[f].name := FileBytes(e, files[f].hdr)];
    ViewAt(d, files, f);
    forall g | g in files && g < NUM_DIR_ENTRIES && files[g].name in m
      ensures m[files[g].name] == FileBytes(e, files[g].hdr)
    {
      ViewAt(d, files, g);
    }
    ViewIs(e, files, m);
  }

  /** The directory's lookup by name and the view agree on which files exist. */
  lemma ListedNames(d: Image, name: seq<byte>)
    requires Sound(d)
    ensures name in View(d) <==> Has(TableOf(d), name)
  {
    if name in NamesIn(FilesOf(d)) {
      var f := SlotIn(FilesOf(d), name);
      Entry(d, f);
    }
    if Has(TableOf(d), name) {
      var i :| 0 <= i < NUM_DIR_ENTRIES && InUse(TableOf(d), i) && NameOf(TableOf(d), i) == name;
      Entry(d, i);
    }
  }

  /** The files are the directory's entries in use. */
  lemma Entry(d: Image, f: int)
    requires Bootable(d) && 0 <= f < NUM_DIR_ENTRIES
    ensures f in FilesOf(d) <==> InUse(TableOf(d), f)
    ensures f in FilesOf(d) ==> FilesOf(d)[f].name == NameOf(TableOf(d), f)
    ensures f in FilesOf(d) ==> FilesOf(d)[f].sector == SectorOf(TableOf(d), f)
    ensures f in FilesOf(d) ==> FilesOf(d)[f].hdr == HeaderAt(d, SectorOf(TableOf(d), f))
  {
  }

  lemma SoundNames(d: Image)
    requires Sound(d)
    ensures NamesPadded(TableOf(d))
  {
    var t, files := TableOf(d), FilesOf(d);
    forall i | 0 <= i < NUM_DIR_ENTRIES && InUse(t, i) ensures Padded(NameOf(t, i)) {
      assert Listed(t, i) && files[i].name == NameOf(t, i);
    }
  }

  lemma SystemFiles(d: Image)
    requires Bootable(d)
    ensures FREE_MAP in FilesOf(d) && FilesOf(d)[FREE_MAP] == Node([], FREE_MAP_SECTOR, HeaderAt(d, FREE_MAP_SECTOR))
    ensures DIRECTORY in FilesOf(d) && FilesOf(d)[DIRECTORY] == Node([], DIRECTORY_SECTOR,
            HeaderAt(d, DIRECTORY_SECTOR))
  {
    assert Listed(TableOf(d), FREE_MAP) && Listed(TableOf(d), DIRECTORY);
  }

  // Framing: what a change to some sectors cannot reach

  predicate SameOn(d: Image, e: Image, s: int)
    requires Storage.Formed(d) && Storage.Formed(e)
  {
    0 <= s < NUM_SECTORS ==> e[s] == d[s]
  }

  lemma SameContents(d: Image, e: Image, h: Header)
    requires Storage.Formed(d) && Storage.Formed(e) && h.Formed()
    requires forall s | h.Uses(s) :: SameOn(d, e, s)
    ensures FileBytes(e, h) == FileBytes(d, h)
  {
    forall j | 0 <= j < h.numBytes ensures FileBytes(e, h)[j] == FileBytes(d, h)[j] {
      var k := j / SECTOR_SIZE;
      assert h.dataSectors[k] in h.dataSectors[..h.numSectors];
      assert SameOn(d, e, h.dataSectors[k]);
    }
  }

  /** A table names the same files on two disks that agree on the header sectors. */
  lemma SameNamed(d: Image, e: Image, u: Table)
    requires Storage.Formed(d) && Storage.Formed(e) && SameOn(d, e, FREE_MAP_SECTOR) && SameOn(d, e, DIRECTORY_SECTOR)
    requires forall f | 0 <= f < NUM_DIR_ENTRIES && InUse(u, f) :: SameOn(d, e, SectorOf(u, f))
    ensures FilesNamed(e, u) == FilesNamed(d, u)
  {
  }

  lemma EnteredNamed(d: Image, t: Table, u: Table, slot: nat, node: Node)
    requires Storage.Formed(d) && Entered(t, u, slot, node.name, node.sector) && HeaderAt(d, node.sector) == node.hdr
    ensures FilesNamed(d, u) == FilesNamed(d, t)[slot := node]
  {
    forall f | 0 <= f <= DIRECTORY && f != slot ensures Listed(u, f) == Listed(t, f) {
    }
  }

  lemma DroppedNamed(d: Image, t: Table, u: Table, slot: nat)
    requires Storage.Formed(d) && slot < NUM_DIR_ENTRIES && !InUse(u, slot) && OthersKept(t, u, slot)
    ensures FilesNamed(d, u) == FilesNamed(d, t) - {slot}
  {
    forall f | 0 <= f <= DIRECTORY && f != slot ensures Listed(u, f) == Listed(t, f) {
    }
  }

  /** If no header sector and no directory sector changes, the same files are there. */
  lemma SameFiles(d: Image, e: Image)
    requires Bootable(d) && Storage.Formed(e)
    requires forall f | f in FilesOf(d) :: SameOn(d, e, FilesOf(d)[f].sector)
    requires forall s | HeaderAt(d, DIRECTORY_SECTOR).Uses(s) :: SameOn(d, e, s)
    ensures Bootable(e) && TableOf(e) == TableOf(d) && FilesOf(e) == FilesOf(d)
  {
    SystemFiles(d);
    SameContents(d, e, HeaderAt(d, DIRECTORY_SECTOR));
    forall f | 0 <= f < NUM_DIR_ENTRIES && InUse(TableOf(d), f) ensures SameOn(d, e, SectorOf(TableOf(d), f)) {
      Entry(d, f);
    }
    SameNamed(d, e, TableOf(d));
  }

  /** Changing only the data sectors of one ordinary file: same files, same map, same contents of every other file. */
  lemma DataWritten(d: Image, e: Image, f: int)
    requires Sound(d) && Storage.Formed(e) && f in FilesOf(d) && f < NUM_DIR_ENTRIES
    requires forall s | 0 <= s < NUM_SECTORS && !FilesOf(d)[f].hdr.Uses(s) :: SameOn(d, e, s)
    ensures Sound(e) && FilesOf(e) == FilesOf(d) && FreeMapOf(e) == FreeMapOf(d)
    ensures forall g | g in FilesOf(d) && g != f :: FileBytes(e, FilesOf(d)[g].hdr) == FileBytes(d, FilesOf(d)[g].hdr)
    ensures View(e) == View(d)[FilesOf(d)[f].name := FileBytes(e, FilesOf(d)[f].hdr)]
  {
    var files := FilesOf(d);
    SystemFiles(d);
    forall g, s | g in files && (g != f || s == files[g].sector) && files[g].Owns(s) ensures SameOn(d, e, s) {
      assert files[f].Formed() && files[g].Formed();
    }
    assert files[DIRECTORY].hdr == HeaderAt(d, DIRECTORY_SECTOR);
    forall s | HeaderAt(d, DIRECTORY_SECTOR).Uses(s) ensures SameOn(d, e, s) {
      assert files[DIRECTORY].Owns(s);
    }
    SameFiles(d, e);
    forall g | g in files && g != f ensures FileBytes(e, files[g].hdr) == FileBytes(d, files[g].hdr) {
      forall s | files[g].hdr.Uses(s) ensures SameOn(d, e, s) {
        assert files[g].Owns(s);
      }
      SameContents(d, e, files[g].hdr);
    }
    assert FileBytes(e, files[FREE_MAP].hdr) == FileBytes(d, files[FREE_MAP].hdr);
    ViewChanges(d, e, files, f);
  }
}
