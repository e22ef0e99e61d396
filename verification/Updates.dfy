/** How the writes that Create and Remove make, one after the other, change what the disk means. */
module Updates {
  import opened Bytes
  import opened Storage
  import opened FileHeaders
  import opened OpenFiles
  import opened Directories
  import opened Volumes

  /** `e` differs from `d` only in sectors of the file `h`. */
  predicate OnlyWithin(d: Image, e: Image, h: Header)
    requires h.Formed()
  {
    Storage.Formed(d) && Storage.Formed(e) && forall s | 0 <= s < NUM_SECTORS && !h.Uses(s) :: SameOn(d, e, s)
  }

  /** Every file but `but` has the same contents on both disks. */
  predicate ContentsKept(d: Image, e: Image, files: map<int, Node>, but: int) {
    Storage.Formed(d) && Storage.Formed(e) &&
    forall f | f in files && f != but && files[f].hdr.Formed() ::
        FileBytes(e, files[f].hdr) == FileBytes(d, files[f].hdr)
  }

  /** Writing within one file changes no byte of another. */
  lemma OthersSame(d: Image, e: Image, files: map<int, Node>, but: int)
    requires Apart(files) && but in files && OnlyWithin(d, e, files[but].hdr)
    ensures ContentsKept(d, e, files, but)
  {
    forall f | f in files && f != but ensures FileBytes(e, files[f].hdr) == FileBytes(d, files[f].hdr) {
      forall s | files[f].hdr.Uses(s) ensures SameOn(d, e, s) {
        assert files[f].Owns(s);
      }
      SameContents(d, e, files[f].hdr);
    }
  }

  /** Writing a sector that the free map shows clear changes nothing that the file system can see. */
  lemma FreeSectorWritten(d: Image, e: Image, s: int, x: seq<byte>)
    requires Sound(d) && 0 <= s < NUM_SECTORS && |x| == SECTOR_SIZE && !FreeMapOf(d)[s] && e == d[s := x]
    ensures Bootable(e) && TableOf(e) == TableOf(d) && FilesOf(e) == FilesOf(d) && FreeMapOf(e) == FreeMapOf(d)
    ensures ContentsKept(d, e, FilesOf(d), -1)
  {
    var files := FilesOf(d);
    SystemFiles(d);
    forall f, q | f in files && files[f].Owns(q) ensures SameOn(d, e, q) {
      assert Owned(files, q);
    }
    forall q | HeaderAt(d, DIRECTORY_SECTOR).Uses(q) ensures SameOn(d, e, q) {
      assert files[DIRECTORY].Owns(q);
    }
    SameFiles(d, e);
    forall f | f in files ensures FileBytes(e, files[f].hdr) == FileBytes(d, files[f].hdr) {
      forall q | files[f].hdr.Uses(q) ensures SameOn(d, e, q) {
        assert files[f].Owns(q);
      }
      SameContents(d, e, files[f].hdr);
    }
    assert files[FREE_MAP].hdr == HeaderAt(d, FREE_MAP_SECTOR);
  }

  /** Rewriting the free map file changes the free map only. */
  lemma MapWritten(d: Image, e: Image)
    requires Bootable(d) && Apart(FilesOf(d)) && OnlyWithin(d, e, HeaderAt(d, FREE_MAP_SECTOR))
    ensures Bootable(e) && TableOf(e) == TableOf(d) && FilesOf(e) == FilesOf(d)
    ensures ContentsKept(d, e, FilesOf(d), FREE_MAP)
  {
    var files := FilesOf(d);
    SystemFiles(d);
    OthersSame(d, e, files, FREE_MAP);
    forall f | f in files ensures SameOn(d, e, files[f].sector) {
      assert files[f].Owns(files[f].sector);
    }
    forall s | HeaderAt(d, DIRECTORY_SECTOR).Uses(s) ensures SameOn(d, e, s) {
      assert files[DIRECTORY].Owns(s);
    }
    SameFiles(d, e);
  }

  /** Rewriting the directory file replaces the list of files and nothing else. */
  lemma TableWritten(d: Image, e: Image, u: Table)
    requires Bootable(d) && Apart(FilesOf(d)) && OnlyWithin(d, e, HeaderAt(d, DIRECTORY_SECTOR))
    requires FileBytes(e, HeaderAt(d, DIRECTORY_SECTOR)) == u
    requires forall f | 0 <= f < NUM_DIR_ENTRIES && InUse(u, f) :: !HeaderAt(d, DIRECTORY_SECTOR).Uses(SectorOf(u, f))
    ensures Bootable(e) && TableOf(e) == u && FreeMapOf(e) == FreeMapOf(d) && FilesOf(e) == FilesNamed(d, u)
    ensures ContentsKept(d, e, FilesOf(d), DIRECTORY)
  {
    var files := FilesOf(d);
    SystemFiles(d);
    OthersSame(d, e, files, DIRECTORY);
    assert files[DIRECTORY].Formed() && files[FREE_MAP].Formed();
    assert files[FREE_MAP].Owns(FREE_MAP_SECTOR);
    assert SameOn(d, e, FREE_MAP_SECTOR) && SameOn(d, e, DIRECTORY_SECTOR);
    assert FileBytes(e, files[FREE_MAP].hdr) == FileBytes(d, files[FREE_MAP].hdr);
    SameNamed(d, e, u);
  }

  /** A file whose sectors are all clear can join. */
  lemma Joins(bits: seq<bool>, after: seq<bool>, files: map<int, Node>, slot: int, node: Node)
    requires Apart(files) && |bits| == NUM_SECTORS && Marked(bits, files) && slot !in files && node.Formed()
    requires Took(bits, after, Pieces(node))
    ensures Apart(files[slot := node]) && Marked(after, files[slot := node])
  {
    var taken, more := Pieces(node), files[slot := node];
    forall s ensures node.Owns(s) <==> s in taken {
    }
    forall f, s | f in files && files[f].Owns(s) ensures !node.Owns(s) {
      assert Owned(files, s);
    }
    forall s | 0 <= s < NUM_SECTORS ensures after[s] <==> Owned(more, s) {
      if Owned(files, s) {
        var f :| f in files && files[f].Owns(s);
        assert more[f].Owns(s);
      }
      if node.Owns(s) {
        assert more[slot].Owns(s);
      }
    }
  }

  /** `after` is the free map `before` without the sectors of `node`. */
  predicate GaveBack(before: seq<bool>, after: seq<bool>, node: Node) {
    |after| == |before| && node.hdr.Formed() && forall s | 0 <= s < |before| :: after[s] == (before[s] && !node.Owns(s))
  }

  /** A file can leave, giving back exactly its own sectors. */
  lemma Leaves(bits: seq<bool>, after: seq<bool>, files: map<int, Node>, slot: int)
    requires Apart(files) && |bits| == |after| == NUM_SECTORS && Marked(bits, files) && slot in files
    requires GaveBack(bits, after, files[slot])
    ensures Apart(files - {slot}) && Marked(after, files - {slot})
  {
    var fewer := files - {slot};
    forall s | 0 <= s < NUM_SECTORS ensures after[s] <==> Owned(fewer, s) {
      if Owned(fewer, s) {
        var f :| f in fewer && fewer[f].Owns(s);
        assert files[f].Owns(s) && Owned(files, s);
      }
      if after[s] {
        var f :| f in files && files[f].Owns(s);
        assert f in fewer && fewer[f].Owns(s);
      }
    }
  }

  /** Every named file has the same contents on both disks. */
  predicate KeptFor(d: Image, e: Image, files: map<int, Node>) {
    && Storage.Formed(d) && Storage.Formed(e)
    && forall f | f in files && f < NUM_DIR_ENTRIES && files[f].hdr.Formed() ::
         FileBytes(e, files[f].hdr) == FileBytes(d, files[f].hdr)
  }

  lemma KeptOn(d: Image, d2: Image, d3: Image, files: map<int, Node>, slot: int, node: Node)
    requires KeptFor(d, d2, files) && ContentsKept(d2, d3, files[slot := node], FREE_MAP) && slot !in files
    ensures KeptFor(d, d3, files)
  {
    var more := files[slot := node];
    forall f | f in files && f < NUM_DIR_ENTRIES && files[f].hdr.Formed()
      ensures FileBytes(d3, files[f].hdr) == FileBytes(d, files[f].hdr)
    {
      assert more[f] == files[f];
    }
  }

  /** The header and directory writes of a successful Create: the new file is listed, and not yet marked. */
  lemma CreatedTable(d: Image, d1: Image, d2: Image, slot: nat, node: Node, u: Table)
    requires Sound(d) && Entered(TableOf(d), u, slot, node.name, node.sector) && node.Formed() && Storable(node.hdr)
    requires !FreeMapOf(d)[node.sector] && d1 == d[node.sector := HeaderImage(node.hdr)]
    requires OnlyWithin(d1, d2, HeaderAt(d, DIRECTORY_SECTOR)) && FileBytes(d2, HeaderAt(d, DIRECTORY_SECTOR)) == u
    ensures Bootable(d2) && slot !in FilesOf(d) && FilesOf(d2) == FilesOf(d)[slot := node]
    ensures HeaderAt(d2, FREE_MAP_SECTOR) == HeaderAt(d, FREE_MAP_SECTOR)
    ensures KeptFor(d, d2, FilesOf(d))
  {
    SystemFiles(d);
    Entry(d, slot);
    FreeSectorWritten(d, d1, node.sector, HeaderImage(node.hdr));
    EnteredSectors(d, u, slot, node);
    SystemFiles(d1);
    TableWritten(d1, d2, u);
    HeaderRoundTrip(node.hdr);
    EnteredNamed(d1, TableOf(d), u, slot, node);
    SystemFiles(d2);
    assert FilesOf(d2)[FREE_MAP] == FilesOf(d)[FREE_MAP];
  }

  /** With the free map write after them, the disk is sound again. */
  lemma CreatedSound(d: Image, d1: Image, d2: Image, d3: Image, slot: nat, node: Node, u: Table)
    requires Sound(d) && Entered(TableOf(d), u, slot, node.name, node.sector) && !Has(TableOf(d), node.name)
    requires |node.name| == FILE_NAME_MAX_LEN && Padded(node.name) && node.Formed() && Storable(node.hdr)
    requires d1 == d[node.sector := HeaderImage(node.hdr)]
    requires OnlyWithin(d1, d2, HeaderAt(d, DIRECTORY_SECTOR)) && FileBytes(d2, HeaderAt(d, DIRECTORY_SECTOR)) == u
    requires OnlyWithin(d2, d3, HeaderAt(d, FREE_MAP_SECTOR))
    requires Took(FreeMapOf(d), MapBits(d3, HeaderAt(d, FREE_MAP_SECTOR)), Pieces(node))
    ensures Sound(d3) && FilesOf(d3) == FilesOf(d)[slot := node] && slot !in FilesOf(d)
    ensures Took(FreeMapOf(d), FreeMapOf(d3), Pieces(node))
    ensures KeptFor(d, d3, FilesOf(d))
  {
    var files := FilesOf(d);
    assert Pieces(node)[0] == node.sector;
    CreatedTable(d, d1, d2, slot, node, u);
    Joins(FreeMapOf(d), MapBits(d3, HeaderAt(d, FREE_MAP_SECTOR)), files, slot, node);
    MapWritten(d2, d3);
    SystemFiles(d2);
    SystemFiles(d3);
    NamesStay(d, slot, node);
    KeptOn(d, d2, d3, files, slot, node);
  }

  /** Taken together they add one file and change none. */
  lemma Created(d: Image, d1: Image, d2: Image, d3: Image, slot: nat, node: Node, u: Table)
    requires Sound(d) && Entered(TableOf(d), u, slot, node.name, node.sector) && !Has(TableOf(d), node.name)
    requires |node.name| == FILE_NAME_MAX_LEN && Padded(node.name) && node.Formed() && Storable(node.hdr)
    requires d1 == d[node.sector := HeaderImage(node.hdr)]
    requires OnlyWithin(d1, d2, HeaderAt(d, DIRECTORY_SECTOR)) && FileBytes(d2, HeaderAt(d, DIRECTORY_SECTOR)) == u
    requires OnlyWithin(d2, d3, HeaderAt(d, FREE_MAP_SECTOR))
    requires Took(FreeMapOf(d), MapBits(d3, HeaderAt(d, FREE_MAP_SECTOR)), Pieces(node))
    ensures Sound(d3) && FilesOf(d3) == FilesOf(d)[slot := node]
    ensures Took(FreeMapOf(d), FreeMapOf(d3), Pieces(node))
    ensures View(d3) == View(d)[node.name := FileBytes(d3, node.hdr)]
  {
    CreatedSound(d, d1, d2, d3, slot, node, u);
    NamesStay(d, slot, node);
    ViewGrows(d, d3, FilesOf(d), slot, node);
  }

  /** No file the new table names has its header in a directory sector. */
  lemma EnteredSectors(d: Image, u: Table, slot: nat, node: Node)
    requires Sound(d) && Entered(TableOf(d), u, slot, node.name, node.sector)
    requires 0 <= node.sector < NUM_SECTORS && !FreeMapOf(d)[node.sector]
    ensures forall f | 0 <= f < NUM_DIR_ENTRIES && InUse(u, f) :: !HeaderAt(d, DIRECTORY_SECTOR).Uses(SectorOf(u, f))
  {
    var files := FilesOf(d);
    SystemFiles(d);
    forall f | 0 <= f < NUM_DIR_ENTRIES && InUse(u, f) ensures !HeaderAt(d, DIRECTORY_SECTOR).Uses(SectorOf(u, f)) {
      Entry(d, f);
      if f == slot {
        assert !Owned(files, node.sector);
      } else {
        assert files[f].Owns(files[f].sector) && f != DIRECTORY;
      }
    }
  }

  lemma NamesStay(d: Image, slot: nat, node: Node)
    requires Sound(d) && slot < NUM_DIR_ENTRIES && slot !in FilesOf(d)
    requires !Has(TableOf(d), node.name) && |node.name| == FILE_NAME_MAX_LEN && Padded(node.name)
    ensures Named(FilesOf(d)[slot := node])
    ensures forall f | f in FilesOf(d) && f < NUM_DIR_ENTRIES :: FilesOf(d)[f].name != node.name
  {
    forall f | f in FilesOf(d) && 0 <= f < NUM_DIR_ENTRIES ensures FilesOf(d)[f].name != node.name {
      Entry(d, f);
    }
    NamedMore(FilesOf(d), slot, node);
  }

  lemma NamedMore(files: map<int, Node>, slot: nat, node: Node)
    requires Named(files) && slot < NUM_DIR_ENTRIES && slot !in files && |node.name| == FILE_NAME_MAX_LEN
             && Padded(node.name)
    requires forall f | f in files && f < NUM_DIR_ENTRIES :: files[f].name != node.name
    ensures Named(files[slot := node])
  {
  }

  /** The free map and directory writes of a successful Remove, taken together. */
  lemma Removed(d: Image, d1: Image, d2: Image, slot: nat, u: Table)
    requires Sound(d) && slot < NUM_DIR_ENTRIES && !InUse(u, slot) && OthersKept(TableOf(d), u, slot)
    requires slot in FilesOf(d)
    requires OnlyWithin(d, d1, HeaderAt(d, FREE_MAP_SECTOR))
    requires OnlyWithin(d1, d2, HeaderAt(d, DIRECTORY_SECTOR)) && FileBytes(d2, HeaderAt(d, DIRECTORY_SECTOR)) == u
    requires GaveBack(FreeMapOf(d), MapBits(d1, HeaderAt(d, FREE_MAP_SECTOR)), FilesOf(d)[slot])
    ensures Sound(d2) && FilesOf(d2) == FilesOf(d) - {slot}
    ensures GaveBack(FreeMapOf(d), FreeMapOf(d2), FilesOf(d)[slot])
    ensures View(d2) == View(d) - {FilesOf(d)[slot].name}
  {
    var files := FilesOf(d);
    SystemFiles(d);
    MapWritten(d, d1);
    SystemFiles(d1);
    var bits := FreeMapOf(d1);
    forall f | 0 <= f < NUM_DIR_ENTRIES && InUse(u, f) ensures !HeaderAt(d, DIRECTORY_SECTOR).Uses(SectorOf(u, f)) {
      Entry(d, f);
      assert files[f].Owns(files[f].sector) && f != DIRECTORY;
    }
    TableWritten(d1, d2, u);
    DroppedNamed(d1, TableOf(d), u, slot);
    Leaves(FreeMapOf(d), bits, files, slot);
    forall f | f in files && f < NUM_DIR_ENTRIES ensures FileBytes(d2, files[f].hdr) == FileBytes(d, files[f].hdr) {
      assert files[f].Formed();
    }
    ViewShrinks(d, d2, files, slot);
  }
}
