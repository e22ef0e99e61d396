/** How much room a sound disk has left, counted from its named files alone. */
module Capacity {
  import opened Bytes
  import opened BitMaps
  import opened Storage
  import opened FileHeaders
  import opened OpenFiles
  import opened Directories
  import opened Volumes

  /** The sectors that a file of that many bytes takes, with its header. */
  function Cost(size: nat): nat {
    1 + (size + 127) / 128
  }

  /** The sectors that named files take. */
  ghost function Used(v: map<seq<byte>, seq<byte>>): nat
    decreases |v|
  {
    if v == map[] then 0
    else
      var name :| name in v;
      Fewer(v, name);
      Cost(|v[name]|) + Used(v - {name})
  }

  lemma Fewer<K, V>(v: map<K, V>, k: K)
    requires k in v
    ensures |v - {k}| == |v| - 1
  {
    assert (v - {k}).Keys == v.Keys - {k};
    assert |v.Keys - {k}| == |v.Keys| - 1;
  }

  /** The sum does not depend on the order in which it is taken. */
  lemma {:induction false} UsedWithout(v: map<seq<byte>, seq<byte>>, name: seq<byte>)
    requires name in v
    ensures Used(v) == Cost(|v[name]|) + Used(v - {name})
    decreases |v|
  {
    var first :| first in v && Used(v) == Cost(|v[first]|) + Used(v - {first});
    if first != name {
      Fewer(v, first);
      Fewer(v, name);
      UsedWithout(v - {first}, name);
      UsedWithout(v - {name}, first);
      assert v - {first} - {name} == v - {name} - {first};
    }
  }

  lemma UsedMore(v: map<seq<byte>, seq<byte>>, name: seq<byte>, contents: seq<byte>)
    requires name !in v
    ensures Used(v[name := contents]) == Used(v) + Cost(|contents|) && |v[name := contents]| == |v| + 1
  {
    UsedWithout(v[name := contents], name);
    Fewer(v[name := contents], name);
    assert v[name := contents] - {name} == v;
  }

  // The free map and the files

  lemma {:induction false} DistinctCount(s: seq<int>)
    requires forall k, l | 0 <= k < l < |s| :: s[k] != s[l]
    ensures |set x | x in s| == |s|
  {
    if s != [] {
      var n := |s| - 1;
      DistinctCount(s[..n]);
      assert s == s[..n] + [s[n]];
      assert (set x | x in s) == (set x | x in s[..n]) + {s[n]};
      assert s[n] !in s[..n];
    }
  }

  ghost function Sectors(node: Node): set<int>
    requires node.hdr.Formed()
  {
    {node.sector} + set s | s in node.hdr.dataSectors[..node.hdr.numSectors]
  }

  lemma SectorsCount(node: Node)
    requires node.Formed()
    ensures |Sectors(node)| == Cost(node.hdr.numBytes) && forall s | s in Sectors(node) :: node.Owns(s)
  {
    var data := node.hdr.dataSectors[..node.hdr.numSectors];
    forall k, l | 0 <= k < l < |data| ensures data[k] != data[l] {
      assert node.hdr.dataSectors[k] != node.hdr.dataSectors[l];
    }
    DistinctCount(data);
  }

  ghost function CostBelow(files: map<int, Node>, n: nat): nat
    requires Readable(files)
  {
    if n == 0 then 0
    else CostBelow(files, n - 1) + if n - 1 in files then Cost(files[n - 1].hdr.numBytes) else 0
  }

  ghost function SectorsBelow(files: map<int, Node>, n: nat): set<int>
    requires Readable(files)
  {
    if n == 0 then {}
    else SectorsBelow(files, n - 1) + if n - 1 in files then Sectors(files[n - 1]) else {}
  }

  lemma {:induction false} SectorsBelowOwned(files: map<int, Node>, n: nat, s: int)
    requires Apart(files)
    ensures s in SectorsBelow(files, n) <==> exists f :: 0 <= f < n && f in files && files[f].Owns(s)
  {
    if n > 0 {
      SectorsBelowOwned(files, n - 1, s);
    }
  }

  lemma {:induction false} SectorsBelowCount(files: map<int, Node>, n: nat)
    requires Apart(files)
    ensures |SectorsBelow(files, n)| == CostBelow(files, n)
  {
    if n > 0 {
      SectorsBelowCount(files, n - 1);
      if n - 1 in files {
        NextSectors(files, n - 1);
      }
    }
  }

  lemma NextSectors(files: map<int, Node>, f: nat)
    requires Apart(files) && f in files
    ensures |SectorsBelow(files, f + 1)| == |SectorsBelow(files, f)| + Cost(files[f].hdr.numBytes)
  {
    SectorsCount(files[f]);
    SectorsApart(files, f);
    UnionCount(SectorsBelow(files, f), Sectors(files[f]));
  }

  lemma UnionCount(a: set<int>, b: set<int>)
    requires a !! b
    ensures |a + b| == |a| + |b|
  {
  }

  lemma SectorsApart(files: map<int, Node>, f: nat)
    requires Apart(files) && f in files
    ensures SectorsBelow(files, f) !! Sectors(files[f])
  {
    var more, less := Sectors(files[f]), SectorsBelow(files, f);
    SectorsCount(files[f]);
    forall s | s in more ensures s !in less {
      SectorsBelowOwned(files, f, s);
      assert files[f].Owns(s);
    }
  }

  ghost function MarkedBelow(bits: seq<bool>, n: nat): set<int>
    requires n <= |bits|
  {
    set s | 0 <= s < n && bits[s]
  }

  lemma {:induction false} MarkedCount(bits: seq<bool>, n: nat)
    requires n <= |bits|
    ensures CountClear(bits, n) + |MarkedBelow(bits, n)| == n
  {
    if n > 0 {
      MarkedCount(bits, n - 1);
      if bits[n - 1] {
        assert MarkedBelow(bits, n) == MarkedBelow(bits, n - 1) + {n - 1};
      } else {
        assert MarkedBelow(bits, n) == MarkedBelow(bits, n - 1);
      }
    }
  }

  lemma MarkedIsOwned(d: Image)
    requires Sound(d)
    ensures MarkedBelow(FreeMapOf(d), NUM_SECTORS) == SectorsBelow(FilesOf(d), DIRECTORY + 1)
  {
    var files, n := FilesOf(d), DIRECTORY + 1;
    forall s ensures s in MarkedBelow(FreeMapOf(d), NUM_SECTORS) <==> s in SectorsBelow(files, n) {
      SectorsBelowOwned(files, n, s);
      if 0 <= s < NUM_SECTORS && Owned(files, s) {
        var f :| f in files && files[f].Owns(s);
        assert 0 <= f < n;
      }
      if s in SectorsBelow(files, n) {
        var f :| 0 <= f < n && f in files && files[f].Owns(s);
        assert files[f].Formed();
        assert 0 <= s < NUM_SECTORS;
        assert Owned(files, s);
      }
    }
  }

  // The files and the view

  ghost function CountBelow(files: map<int, Node>, n: nat): nat {
    if n == 0 then 0 else CountBelow(files, n - 1) + if n - 1 in files then 1 else 0
  }

  lemma {:induction false} AllBelow(files: map<int, Node>, n: nat)
    ensures CountBelow(files, n) <= n && (CountBelow(files, n) == n <==> forall f | 0 <= f < n :: f in files)
  {
    if n > 0 {
      AllBelow(files, n - 1);
    }
  }

  /** The named contents of the files numbered below `n`. */
  ghost function ViewBelow(d: Image, files: map<int, Node>, n: nat): map<seq<byte>, seq<byte>>
    requires Storage.Formed(d) && Readable(files)
  {
    if n == 0 then map[]
    else if n - 1 in files then ViewBelow(d, files, n - 1)[files[n - 1].name := FileBytes(d, files[n - 1].hdr)]
    else ViewBelow(d, files, n - 1)
  }

  lemma {:induction false} NamesBelow(d: Image, files: map<int, Node>, n: nat, name: seq<byte>)
    requires Storage.Formed(d) && Readable(files)
    ensures name in ViewBelow(d, files, n) <==> exists f :: 0 <= f < n && f in files && files[f].name == name
  {
    if n > 0 {
      NamesBelow(d, files, n - 1, name);
    }
  }

  lemma {:induction false} ContentsBelow(d: Image, files: map<int, Node>, n: nat, f: nat)
    requires Storage.Formed(d) && Readable(files) && Named(files) && f < n <= NUM_DIR_ENTRIES && f in files
    ensures files[f].name in ViewBelow(d, files, n)
            && ViewBelow(d, files, n)[files[f].name] == FileBytes(d, files[f].hdr)
  {
    if f < n - 1 {
      ContentsBelow(d, files, n - 1, f);
    }
  }

  lemma {:induction false} UsedBelow(d: Image, files: map<int, Node>, n: nat)
    requires Storage.Formed(d) && Readable(files) && Named(files) && n <= NUM_DIR_ENTRIES
    ensures Used(ViewBelow(d, files, n)) == CostBelow(files, n)
    ensures |ViewBelow(d, files, n)| == CountBelow(files, n)
  {
    if n > 0 {
      UsedBelow(d, files, n - 1);
      if n - 1 in files {
        NamesBelow(d, files, n - 1, files[n - 1].name);
        UsedMore(ViewBelow(d, files, n - 1), files[n - 1].name, FileBytes(d, files[n - 1].hdr));
      }
    }
  }

  lemma WholeView(d: Image)
    requires Sound(d)
    ensures ViewBelow(d, FilesOf(d), NUM_DIR_ENTRIES) == View(d)
  {
    var files := FilesOf(d);
    var v := ViewBelow(d, files, NUM_DIR_ENTRIES);
    forall name ensures name in v <==> name in NamesIn(files) {
      NamesBelow(d, files, NUM_DIR_ENTRIES, name);
    }
    forall f | f in files && f < NUM_DIR_ENTRIES && files[f].name in v
      ensures v[files[f].name] == FileBytes(d, files[f].hdr)
    {
      ContentsBelow(d, files, NUM_DIR_ENTRIES, f);
    }
    ViewIs(d, files, v);
  }

  /** The sectors left after the free map's two and the directory's three. */
  const ROOM := NUM_SECTORS - 5

  lemma SectorBalance(d: Image)
    requires Sound(d)
    ensures ClearCount(FreeMapOf(d)) + CostBelow(FilesOf(d), NUM_DIR_ENTRIES) == ROOM
  {
    var files := FilesOf(d);
    SystemFiles(d);
    MarkedIsOwned(d);
    MarkedCount(FreeMapOf(d), NUM_SECTORS);
    SectorsBelowCount(files, DIRECTORY + 1);
    CostOfSystem(files);
  }

  /** Every sector is free or paid for by exactly one named file, or by the two system files. */
  lemma FreeSpace(d: Image)
    requires Sound(d)
    ensures ClearCount(FreeMapOf(d)) + Used(View(d)) == ROOM
  {
    SectorBalance(d);
    WholeView(d);
    UsedBelow(d, FilesOf(d), NUM_DIR_ENTRIES);
  }

  /** The directory is full when it lists ten names. */
  lemma FreeSlots(d: Image)
    requires Sound(d)
    ensures |View(d)| <= NUM_DIR_ENTRIES && (Full(TableOf(d)) <==> |View(d)| == NUM_DIR_ENTRIES)
  {
    var files := FilesOf(d);
    WholeView(d);
    UsedBelow(d, files, NUM_DIR_ENTRIES);
    AllBelow(files, NUM_DIR_ENTRIES);
    forall f | 0 <= f < NUM_DIR_ENTRIES ensures f in files <==> InUse(TableOf(d), f) {
      Entry(d, f);
    }
  }

  lemma CostOfSystem(files: map<int, Node>)
    requires Readable(files) && FREE_MAP in files && DIRECTORY in files
    requires files[FREE_MAP].hdr.numBytes == FREE_MAP_FILE_SIZE && files[DIRECTORY].hdr.numBytes == DIRECTORY_FILE_SIZE
    ensures CostBelow(files, DIRECTORY + 1) == CostBelow(files, NUM_DIR_ENTRIES) + 5
  {
  }
}
