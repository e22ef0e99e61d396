/** The singly linked list of nachos64/code/threads/list.h, with its cached last element and its sorted operations. */
module Lists {
  import opened Options

  datatype Entry<T> = Entry(key: int, item: T)

  class ListElement<T> {
    var next: ListElement?<T>
    const key: int
    const item: T

    constructor (item: T, key: int)
      ensures this.item == item && this.key == key && next == null
    {
      this.item, this.key, next := item, key, null;
    }
  }

  /** The place of a new key: before the first entry with a larger one, so after every equal one of a sorted list. */
  function Place<T>(s: seq<Entry<T>>, key: int, from: nat := 0): (r: nat)
    requires from <= |s|
    ensures from <= r <= |s|
    ensures forall j | from <= j < r :: s[j].key <= key
    ensures r < |s| ==> key < s[r].key
    decreases |s| - from
  {
    if from == |s| || key < s[from].key then from else Place(s, key, from + 1)
  }

  function Inserted<T>(s: seq<Entry<T>>, e: Entry<T>): seq<Entry<T>> {
    s[..Place(s, e.key)] + [e] + s[Place(s, e.key)..]
  }

  predicate Sorted<T>(s: seq<Entry<T>>) {
    forall i, j | 0 <= i < j < |s| :: s[i].key <= s[j].key
  }

  /** The entries of one key, in list order. */
  function WithKey<T>(s: seq<Entry<T>>, key: int): seq<Entry<T>> {
    if s == [] then []
    else if s[0].key == key then [s[0]] + WithKey(s[1..], key)
    else WithKey(s[1..], key)
  }

  ghost predicate LinkedAt<T>(nodes: seq<ListElement<T>>, i: int)
    requires 0 <= i < |nodes|
    reads nodes[i]
  {
    nodes[i].next == if i + 1 < |nodes| then nodes[i + 1] else null
  }

  ghost function Entries<T>(nodes: seq<ListElement<T>>): (s: seq<Entry<T>>)
    ensures |s| == |nodes| && forall i | 0 <= i < |s| :: s[i] == Entry(nodes[i].key, nodes[i].item)
  {
    seq(|nodes|, i requires 0 <= i < |nodes| => Entry(nodes[i].key, nodes[i].item))
  }

  lemma Splice<T>(nodes: seq<ListElement<T>>, k: int, element: ListElement<T>)
    requires 0 <= k <= |nodes| && element !in nodes && forall i, j | 0 <= i < j < |nodes| :: nodes[i] != nodes[j]
    requires element.next == if k < |nodes| then nodes[k] else null
    requires k > 0 ==> nodes[k - 1].next == element
    requires forall i | 0 <= i < |nodes| && i != k - 1 :: LinkedAt(nodes, i)
    ensures var r := nodes[..k] + [element] + nodes[k..];
            && (forall i, j | 0 <= i < j < |r| :: r[i] != r[j])
            && (forall i | 0 <= i < |r| :: LinkedAt(r, i))
  {
    var r := nodes[..k] + [element] + nodes[k..];
    forall i | 0 <= i < |r| ensures LinkedAt(r, i) {
      assert i < k - 1 ==> LinkedAt(nodes, i);
      assert i > k ==> LinkedAt(nodes, i - 1);
    }
  }

  lemma EntriesSpliced<T>(nodes: seq<ListElement<T>>, k: int, x: ListElement<T>)
    requires 0 <= k <= |nodes|
    ensures Entries(nodes[..k] + [x] + nodes[k..]) == Entries(nodes)[..k] + [Entry(x.key, x.item)] + Entries(nodes)[k..]
  {
  }

  lemma EntriesPrepended<T>(nodes: seq<ListElement<T>>, x: ListElement<T>)
    ensures Entries([x] + nodes) == [Entry(x.key, x.item)] + Entries(nodes)
    ensures var s := Entries(nodes); Entries([x] + nodes) == s[..0] + [Entry(x.key, x.item)] + s[0..]
  {
  }

  class List<T> {
    var first: ListElement?<T>
    var last: ListElement?<T>
    ghost var nodes: seq<ListElement<T>>

    ghost predicate Valid()
      reads this, nodes
    {
      && (forall i, j | 0 <= i < j < |nodes| :: nodes[i] != nodes[j])
      && (forall i | 0 <= i < |nodes| :: LinkedAt(nodes, i))
      && (nodes == [] ==> first == null && last == null)
      && (nodes != [] ==> first == nodes[0] && last == nodes[|nodes| - 1])
    }

    ghost function Nodes(): set<ListElement<T>>
      reads this
    {
      set n | n in nodes
    }

    ghost function Contents(): (s: seq<Entry<T>>)
      reads this
    {
      Entries(nodes)
    }

    constructor ()
      ensures Valid() && Contents() == [] && nodes == []
    {
      first, last, nodes := null, null, [];
    }

    method IsEmpty() returns (empty: bool)
      requires Valid()
      ensures empty == (Contents() == [])
    {
      empty := first == null;
    }

    method Append(item: T)
      requires Valid()
      modifies this, Nodes()
      ensures Valid() && Contents() == old(Contents()) + [Entry(0, item)]
      ensures fresh(Nodes() - old(Nodes()))
    {
      var element := new ListElement(item, 0);
      if first == null {
        first, last := element, element;
      } else {
        last.next := element;
        last := element;
      }
      ghost var was := nodes;
      nodes := was + [element];
      forall i | 0 <= i < |nodes| ensures LinkedAt(nodes, i) {
        assert i < |was| ==> old(LinkedAt(was, i));
      }
    }

    /** The element becomes the head, as in Prepend and in the first two cases of SortedInsert. */
    method PutFirst(element: ListElement<T>)
      requires Valid() && element !in nodes && element.next == null
      modifies this, element
      ensures Valid() && nodes == [element] + old(nodes) && Nodes() == old(Nodes()) + {element}
    {
      if first == null {
        first, last := element, element;
      } else {
        element.next := first;
        first := element;
      }
      forall i | 0 <= i < |nodes| ensures LinkedAt(nodes, i) {
        assert old(LinkedAt(nodes, i));
      }
      Splice(nodes, 0, element);
      assert [element] + nodes == nodes[..0] + [element] + nodes[0..];
      nodes := [element] + nodes;
    }

    /** The element is linked in behind `ptr`, the one before place `k`. */
    method PutAfter(ptr: ListElement<T>, element: ListElement<T>, ghost k: int)
      requires Valid() && element !in nodes && element.next == null
      requires 0 < k <= |nodes| && ptr == nodes[k - 1]
      modifies this, ptr, element
      ensures Valid() && nodes == old(nodes)[..k] + [element] + old(nodes)[k..] && Nodes() == old(Nodes()) + {element}
    {
      assert LinkedAt(nodes, k - 1);
      if ptr.next != null {
        element.next := ptr.next;
        ptr.next := element;
      } else {
        last.next := element;
        last := element;
      }
      forall i | 0 <= i < |nodes| && i != k - 1 ensures LinkedAt(nodes, i) {
        assert old(LinkedAt(nodes, i));
      }
      Splice(nodes, k, element);
      nodes := nodes[..k] + [element] + nodes[k..];
    }

    method Prepend(item: T)
      requires Valid()
      modifies this, Nodes()
      ensures Valid() && Contents() == [Entry(0, item)] + old(Contents())
      ensures fresh(Nodes() - old(Nodes()))
    {
      var element := new ListElement(item, 0);
      PutFirst(element);
    }

    method Remove() returns (item: Option<T>)
      requires Valid()
      modifies this
      ensures Valid() && Nodes() <= old(Nodes())
      ensures old(Contents()) == [] ==> item == None && Contents() == []
      ensures old(Contents()) != [] ==> item == Some(old(Contents())[0].item) && Contents() == old(Contents())[1..]
    {
      var entry := SortedRemove();
      item := if entry.Some? then Some(entry.value.item) else None;
    }

    /** The walk of SortedInsert: the last element that the new one goes after. */
    method Before(sortKey: int) returns (ptr: ListElement<T>)
      requires Valid() && nodes != [] && first.key <= sortKey
      ensures var k := Place(Contents(), sortKey); 0 < k <= |nodes| && ptr == nodes[k - 1] && LinkedAt(nodes, k - 1)
    {
      ghost var k := Place(Contents(), sortKey);
      ptr := first;
      ghost var i := 0;
      while ptr.next != null && sortKey >= ptr.next.key
        invariant 0 <= i < |nodes| && ptr == nodes[i] && i < k
        decreases |nodes| - i
      {
        assert LinkedAt(nodes, i);
        assert sortKey >= Contents()[i + 1].key;
        ptr := ptr.next;
        i := i + 1;
      }
      assert LinkedAt(nodes, i) && (i + 1 < |nodes| ==> sortKey < Contents()[i + 1].key);
      assert k == i + 1;
    }

    /** Holds of any list, sorted or not. */
    method SortedInsert(item: T, sortKey: int)
      requires Valid()
      modifies this, Nodes()
      ensures Valid() && Contents() == Inserted(old(Contents()), Entry(sortKey, item))
      ensures fresh(Nodes() - old(Nodes()))
    {
      var element := new ListElement(item, sortKey);
      ghost var k := Place(Contents(), sortKey);
      if first == null || sortKey < first.key {
        PutFirst(element);
        EntriesPrepended(old(nodes), element);
        assert k == 0;
      } else {
        var ptr := Before(sortKey);
        PutAfter(ptr, element, k);
        EntriesSpliced(old(nodes), k, element);
      }
    }

    method SortedRemove() returns (entry: Option<Entry<T>>)
      requires Valid()
      modifies this
      ensures Valid() && Nodes() <= old(Nodes())
      ensures old(Contents()) == [] ==> entry == None && Contents() == []
      ensures old(Contents()) != [] ==> entry == Some(old(Contents())[0]) && Contents() == old(Contents())[1..]
    {
      if first == null {
        return None;
      }
      var element := first;
      if first == last {
        first, last := null, null;
      } else {
        first := element.next;
      }
      assert LinkedAt(nodes, 0);
      ghost var was := nodes;
      nodes := was[1..];
      forall i | 0 <= i < |nodes| ensures LinkedAt(nodes, i) {
        assert LinkedAt(was, i + 1);
      }
      return Some(Entry(element.key, element.item));
    }
  }

  // The sorted list as a stable priority queue

  lemma SortedAround<T>(s: seq<Entry<T>>, k: nat, e: Entry<T>)
    requires Sorted(s) && k <= |s| && (k > 0 ==> s[k - 1].key <= e.key) && (k < |s| ==> e.key < s[k].key)
    ensures Sorted(s[..k] + [e] + s[k..])
  {
  }

  lemma InsertedIsSorted<T>(s: seq<Entry<T>>, e: Entry<T>)
    requires Sorted(s)
    ensures Sorted(Inserted(s, e))
  {
    SortedAround(s, Place(s, e.key), e);
  }

  lemma InsertedAdds<T>(s: seq<Entry<T>>, e: Entry<T>)
    ensures multiset(Inserted(s, e)) == multiset(s) + multiset{e}
  {
    var k := Place(s, e.key);
    assert s == s[..k] + s[k..];
  }

  lemma {:induction false} WithKeyConcat<T>(s: seq<Entry<T>>, t: seq<Entry<T>>, key: int)
    ensures WithKey(s + t, key) == WithKey(s, key) + WithKey(t, key)
  {
    if s == [] {
      assert s + t == t;
    } else {
      assert (s + t)[1..] == s[1..] + t;
      WithKeyConcat(s[1..], t, key);
    }
  }

  lemma {:induction false} WithKeyAbsent<T>(s: seq<Entry<T>>, key: int)
    requires forall i | 0 <= i < |s| :: s[i].key != key
    ensures WithKey(s, key) == []
  {
    if s != [] {
      WithKeyAbsent(s[1..], key);
    }
  }

  lemma WithKeyAround<T>(s: seq<Entry<T>>, k: nat, e: Entry<T>, key: int)
    requires k <= |s| && forall j | k <= j < |s| :: e.key < s[j].key
    ensures WithKey(s[..k] + [e] + s[k..], key) == if key == e.key then WithKey(s, key) + [e] else WithKey(s, key)
  {
    assert s == s[..k] + s[k..];
    WithKeyConcat(s[..k], s[k..], key);
    WithKeyConcat(s[..k] + [e], s[k..], key);
    WithKeyConcat(s[..k], [e], key);
    if key == e.key {
      WithKeyAbsent(s[k..], key);
    }
  }

  /** The new entry comes last among its equals, and no two old ones change places. */
  lemma InsertedIsStable<T>(s: seq<Entry<T>>, e: Entry<T>, key: int)
    requires Sorted(s)
    ensures WithKey(Inserted(s, e), key) == if key == e.key then WithKey(s, key) + [e] else WithKey(s, key)
  {
    WithKeyAround(s, Place(s, e.key), e, key);
  }

  /** Every entry of `es` inserted in turn. */
  function InsertedAll<T>(es: seq<Entry<T>>): seq<Entry<T>> {
    if es == [] then [] else Inserted(InsertedAll(es[..|es| - 1]), es[|es| - 1])
  }

  ghost predicate StableSortOf<T(!new)>(s: seq<Entry<T>>, es: seq<Entry<T>>) {
    Sorted(s) && forall key :: WithKey(s, key) == WithKey(es, key)
  }

  /** Sorted insertions in any order leave the stable sort of what was inserted. */
  lemma {:induction false} InsertionsSort<T(!new)>(es: seq<Entry<T>>)
    ensures StableSortOf(InsertedAll(es), es)
  {
    if es != [] {
      var n := |es| - 1;
      InsertionsSort(es[..n]);
      InsertedIsSorted(InsertedAll(es[..n]), es[n]);
      assert es == es[..n] + [es[n]];
      forall key ensures WithKey(InsertedAll(es), key) == WithKey(es, key) {
        InsertedIsStable(InsertedAll(es[..n]), es[n], key);
        WithKeyConcat(es[..n], [es[n]], key);
      }
    }
  }

  lemma {:induction false} WithKeyMember<T>(s: seq<Entry<T>>, i: nat)
    requires i < |s|
    ensures WithKey(s, s[i].key) != [] && (i == 0 ==> WithKey(s, s[0].key)[0] == s[0])
  {
    if i > 0 {
      WithKeyMember(s[1..], i - 1);
    }
  }

  /** An entry of a key found in the filter is found in the list. */
  lemma {:induction false} WithKeyFound<T>(s: seq<Entry<T>>, key: int)
    requires WithKey(s, key) != []
    ensures exists i :: 0 <= i < |s| && s[i].key == key
  {
    if s[0].key != key {
      WithKeyFound(s[1..], key);
      var i :| 0 <= i < |s[1..]| && s[1..][i].key == key;
      assert s[i + 1].key == key;
    }
  }

  /** There is only one stable sort, so the list's contents after any insertions are fully determined. */
  lemma {:induction false} StableSortIsUnique<T(!new)>(s: seq<Entry<T>>, t: seq<Entry<T>>)
    requires Sorted(s) && StableSortOf(t, s)
    ensures s == t
  {
    if s != [] {
      WithKeyMember(s, 0);
      WithKeyFound(t, s[0].key);
      WithKeyMember(t, 0);
      WithKeyFound(s, t[0].key);
      assert s[0].key == t[0].key;
      assert s[0] == t[0];
      forall key ensures WithKey(t[1..], key) == WithKey(s[1..], key) {
        assert WithKey(t, key) == WithKey(s, key);
        if key == s[0].key {
          assert WithKey(s, key) == [s[0]] + WithKey(s[1..], key);
          assert WithKey(t, key)[1..] == WithKey(t[1..], key);
        }
      }
      StableSortIsUnique(s[1..], t[1..]);
    }
  }

  /**
   * Taking the head off and putting it back, as the event queue does with an interrupt that is not yet due, leaves the
   * list as it was exactly when the head is alone with its key: among equals it goes to the back.
   */
  lemma PutBackKeepsOrder<T(!new)>(s: seq<Entry<T>>)
    requires Sorted(s) && s != [] && forall i | 0 < i < |s| :: s[i] != s[0]
    ensures Inserted(s[1..], s[0]) == s <==> (|s| == 1 || s[0].key < s[1].key)
  {
    var r := Inserted(s[1..], s[0]);
    if |s| > 1 && s[1].key == s[0].key {
      assert Place(s[1..], s[0].key) > 0;
      assert r[0] == s[1];
    } else {
      assert Place(s[1..], s[0].key) == 0;
    }
  }
}
