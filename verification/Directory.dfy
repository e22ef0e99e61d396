/**
 * The directory of nachos64/code/filesys/directory.cc, kept as the raw table of entries that is copied to and from
 * disk.
 */
module Directories {
  import opened Bytes

  const FILE_NAME_MAX_LEN := 9
  const NUM_DIR_ENTRIES := 10
  /** sizeof(DirectoryEntry): a flag byte, three bytes of padding, an int, ten name bytes, two bytes of padding. */
  const ENTRY_SIZE := 20
  const TABLE_SIZE := NUM_DIR_ENTRIES * ENTRY_SIZE

  type Table = t: seq<byte> | |t| == TABLE_SIZE witness seq(TABLE_SIZE, i => 0)

  predicate InUse(t: Table, i: nat)
    requires i < NUM_DIR_ENTRIES
  {
    t[ENTRY_SIZE * i] != 0
  }

  function SectorOf(t: Table, i: nat): int
    requires i < NUM_DIR_ENTRIES
  {
    IntAt(t, ENTRY_SIZE * i + 4)
  }

  /** The name bytes that count: the tenth is never looked at. */
  function NameOf(t: Table, i: nat): (s: seq<byte>)
    requires i < NUM_DIR_ENTRIES
    ensures |s| == FILE_NAME_MAX_LEN
  {
    t[ENTRY_SIZE * i + 8..ENTRY_SIZE * i + 17]
  }

  // C strings

  /** Character `i` of the NUL-terminated string with characters `s`. */
  function CharAt(s: seq<byte>, i: nat): byte {
    if i < |s| then s[i] else 0
  }

  predicate IsCString(s: seq<byte>) {
    forall i | 0 <= i < |s| :: s[i] != 0
  }

  /** `!strncmp(a, b, n)`, comparing from position `i` on. */
  predicate StrNEq(a: seq<byte>, b: seq<byte>, n: nat, i: nat)
    requires i <= n
    decreases n - i
  {
    i == n || (CharAt(a, i) == CharAt(b, i) && (CharAt(a, i) == 0 || StrNEq(a, b, n, i + 1)))
  }

  /** `strncpy(_, name, 9)`: the first nine characters, padded with NULs. */
  function Key(name: seq<byte>): (k: seq<byte>)
    ensures |k| == FILE_NAME_MAX_LEN
  {
    seq(FILE_NAME_MAX_LEN, i requires 0 <= i => CharAt(name, i))
  }

  /** Once a NUL, always NUL: what strncpy leaves behind. */
  predicate Padded(k: seq<byte>) {
    forall i, j | 0 <= i < j < |k| :: k[i] == 0 ==> k[j] == 0
  }

  lemma KeyPadded(name: seq<byte>)
    requires IsCString(name)
    ensures Padded(Key(name))
  {
  }

  lemma {:induction false} StrNEqFrom(a: seq<byte>, name: seq<byte>, i: nat)
    requires |a| == FILE_NAME_MAX_LEN && Padded(a) && IsCString(name) && i <= FILE_NAME_MAX_LEN
    ensures StrNEq(a, name, FILE_NAME_MAX_LEN, i) <==> a[i..] == Key(name)[i..]
    decreases FILE_NAME_MAX_LEN - i
  {
    var k := Key(name);
    if i < FILE_NAME_MAX_LEN {
      StrNEqFrom(a, name, i + 1);
      assert a[i..] == [a[i]] + a[i + 1..] && k[i..] == [k[i]] + k[i + 1..];
      KeyPadded(name);
      if a[i] == 0 && k[i] == 0 {
        assert forall j | i < j < FILE_NAME_MAX_LEN :: a[j] == 0 && k[j] == 0;
      }
    }
  }

  /** Looking a stored name up by strncmp compares the first nine characters and nothing else. */
  lemma SameName(a: seq<byte>, name: seq<byte>)
    requires |a| == FILE_NAME_MAX_LEN && Padded(a) && IsCString(name)
    ensures StrNEq(a, name, FILE_NAME_MAX_LEN, 0) <==> a == Key(name)
  {
    StrNEqFrom(a, name, 0);
  }

  /** Every stored name is padded. */
  predicate NamesPadded(t: Table) {
    forall i | 0 <= i < NUM_DIR_ENTRIES && InUse(t, i) :: Padded(NameOf(t, i))
  }

  predicate Has(t: Table, key: seq<byte>) {
    exists i :: 0 <= i < NUM_DIR_ENTRIES && InUse(t, i) && NameOf(t, i) == key
  }

  predicate Full(t: Table) {
    forall i | 0 <= i < NUM_DIR_ENTRIES :: InUse(t, i)
  }

  /** Entry `i` has become a file's entry, and no other entry has changed. */
  predicate Entered(t: Table, u: Table, i: nat, key: seq<byte>, sector: int) {
    && i < NUM_DIR_ENTRIES && !InUse(t, i)
    && InUse(u, i) && NameOf(u, i) == key && SectorOf(u, i) == sector
    && OthersKept(t, u, i)
  }

  predicate OthersKept(t: Table, u: Table, i: nat) {
    forall j | 0 <= j < NUM_DIR_ENTRIES && j != i ::
      InUse(u, j) == InUse(t, j) && NameOf(u, j) == NameOf(t, j) && SectorOf(u, j) == SectorOf(t, j)
  }

  /** An update that stays within entry `i` keeps every other entry. */
  lemma Confined(t: Table, u: Table, i: nat)
    requires i < NUM_DIR_ENTRIES
    requires forall o | 0 <= o < TABLE_SIZE && !(ENTRY_SIZE * i <= o < ENTRY_SIZE * (i + 1)) :: u[o] == t[o]
    ensures OthersKept(t, u, i)
  {
    forall j | 0 <= j < NUM_DIR_ENTRIES && j != i
      ensures InUse(u, j) == InUse(t, j) && NameOf(u, j) == NameOf(t, j) && SectorOf(u, j) == SectorOf(t, j)
    {
      assert forall o | ENTRY_SIZE * j <= o < ENTRY_SIZE * j + ENTRY_SIZE :: u[o] == t[o];
      assert NameOf(u, j) == NameOf(t, j);
    }
  }

  class Directory {
    var table: Table

    /** A new directory's entries are memory as it comes, except that none is in use. */
    constructor (garbage: Table)
      ensures forall i | 0 <= i < NUM_DIR_ENTRIES :: !InUse(table, i)
    {
      table := garbage;
      new;
      var i := 0;
      while i < NUM_DIR_ENTRIES
        invariant 0 <= i <= NUM_DIR_ENTRIES
        invariant forall j | 0 <= j < i :: !InUse(table, j)
      {
        ghost var t := table;
        table := table[ENTRY_SIZE * i := 0];
        Confined(t, table, i);
        i := i + 1;
      }
    }

    method FindIndex(name: seq<byte>) returns (r: int)
      requires IsCString(name) && NamesPadded(table)
      ensures -1 <= r < NUM_DIR_ENTRIES
      ensures r == -1 <==> !Has(table, Key(name))
      ensures r >= 0 ==> InUse(table, r) && NameOf(table, r) == Key(name)
    {
      var i := 0;
      while i < NUM_DIR_ENTRIES
        invariant 0 <= i <= NUM_DIR_ENTRIES
        invariant forall j | 0 <= j < i :: !(InUse(table, j) && NameOf(table, j) == Key(name))
      {
        if InUse(table, i) {
          SameName(NameOf(table, i), name);
          if StrNEq(NameOf(table, i), name, FILE_NAME_MAX_LEN, 0) {
            return i;
          }
        }
        i := i + 1;
      }
      return -1;
    }

    method Find(name: seq<byte>) returns (sector: int, ghost i: int)
      requires IsCString(name) && NamesPadded(table)
      ensures !Has(table, Key(name)) ==> sector == -1
      ensures Has(table, Key(name)) ==>
                0 <= i < NUM_DIR_ENTRIES && InUse(table, i) && NameOf(table, i) == Key(name)
                && sector == SectorOf(table, i)
    {
      var r := FindIndex(name);
      i := r;
      if r != -1 {
        return SectorOf(table, r), r;
      }
      return -1, r;
    }

    method Add(name: seq<byte>, newSector: int) returns (ok: bool, ghost slot: nat)
      requires IsCString(name) && NamesPadded(table) && IsInt(newSector)
      modifies this
      ensures ok <==> !Has(old(table), Key(name)) && !Full(old(table))
      ensures !ok ==> table == old(table)
      ensures ok ==> Entered(old(table), table, slot, Key(name), newSector)
    {
      slot := 0;
      var found := FindIndex(name);
      if found != -1 {
        return false, 0;
      }
      var i := 0;
      while i < NUM_DIR_ENTRIES
        invariant 0 <= i <= NUM_DIR_ENTRIES && table == old(table)
        invariant forall j | 0 <= j < i :: InUse(table, j)
      {
        if !InUse(table, i) {
          table := Enter(table, i, Key(name), newSector);
          return true, i;
        }
        i := i + 1;
      }
      return false, 0;
    }

    method Remove(name: seq<byte>) returns (ok: bool, ghost slot: nat)
      requires IsCString(name) && NamesPadded(table)
      modifies this
      ensures ok <==> Has(old(table), Key(name))
      ensures !ok ==> table == old(table)
      ensures ok ==> slot < NUM_DIR_ENTRIES && InUse(old(table), slot) && NameOf(old(table), slot) == Key(name)
                     && !InUse(table, slot) && OthersKept(old(table), table, slot)
    {
      slot := 0;
      var i := FindIndex(name);
      if i == -1 {
        return false, 0;
      }
      Confined(table, table[ENTRY_SIZE * i := 0], i);
      table := table[ENTRY_SIZE * i := 0];
      return true, i;
    }
  }

  /** The assignments that fill entry `i`. The padding and the tenth name byte keep their old contents. */
  function Enter(t: Table, i: nat, key: seq<byte>, sector: int): (u: Table)
    requires i < NUM_DIR_ENTRIES && !InUse(t, i) && |key| == FILE_NAME_MAX_LEN && IsInt(sector)
    ensures Entered(t, u, i, key, sector)
  {
    var b := ENTRY_SIZE * i;
    var u: Table := Splice(Splice(t[b := 1], b + 8, key), b + 4, Pack(Unsigned(sector)));
    assert u[b + 8..b + 17] == key;
    assert u[b + 4..b + 8] == Pack(Unsigned(sector));
    WordRoundTrip(Unsigned(sector), u, b + 4);
    Confined(t, u, i);
    u
  }
}
