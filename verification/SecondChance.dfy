/**
 * The two second-chance searches of nachos64/code/userprog/exception.cc: in the TLB and over the frames of main memory.
 */
module SecondChance {
  // The ring of entries

  /** The entry `d` places ahead of `hand`, for up to one full turn. */
  function At(hand: nat, d: nat, n: nat): (i: nat)
    requires hand < n && d <= n
    ensures i < n
  {
    if hand + d < n then hand + d else hand + d - n
  }

  /** How far ahead of `hand` entry `i` is. */
  function Ahead(hand: nat, i: nat, n: nat): (d: nat)
    requires hand < n && i < n
    ensures d < n && At(hand, d, n) == i
  {
    if hand <= i then i - hand else i + n - hand
  }

  /** How far the hand goes past set use bits; a full turn when all are set. */
  function Passes(used: seq<bool>, hand: nat, d: nat := 0): (r: nat)
    requires hand < |used| && d <= |used|
    ensures d <= r <= |used|
    ensures forall j | d <= j < r :: used[At(hand, j, |used|)]
    ensures r < |used| ==> !used[At(hand, r, |used|)]
    decreases |used| - d
  {
    if d == |used| || !used[At(hand, d, |used|)] then d else Passes(used, hand, d + 1)
  }

  function Victim(used: seq<bool>, hand: nat): (v: nat)
    requires hand < |used|
    ensures v < |used|
  {
    At(hand, Passes(used, hand), |used|)
  }

  /** Exactly the first `d` use bits from the hand on are cleared. */
  predicate Swept(used: seq<bool>, now: seq<bool>, hand: nat, d: nat)
    requires hand < |used|
  {
    && |now| == |used|
    && forall i | 0 <= i < |used| :: now[i] == (used[i] && Ahead(hand, i, |used|) >= d)
  }

  /** The victim is the first unused entry in ring order, or the starting one when all were used. */
  lemma VictimIsFirstUnused(used: seq<bool>, hand: nat)
    requires hand < |used|
    ensures var v := Victim(used, hand);
            if forall i | 0 <= i < |used| :: used[i] then v == hand
            else !used[v] && forall i | 0 <= i < |used| && !used[i] :: Ahead(hand, v, |used|) <= Ahead(hand, i, |used|)
  {
    var n, r := |used|, Passes(used, hand);
    if r == n {
      forall i | 0 <= i < n ensures used[i] {
        assert used[At(hand, Ahead(hand, i, n), n)];
      }
    } else {
      forall i | 0 <= i < n && !used[i] ensures r <= Ahead(hand, i, n) {
        assert i == At(hand, Ahead(hand, i, n), n);
      }
    }
  }

  /** Entry `e` of the turn that starts at `hand`, as the code steps through it. */
  function Turn(hand: nat, e: nat, n: nat): (i: nat)
    requires 0 < n
    ensures i < n
  {
    (hand + e) % n
  }

  lemma TurnIsAt(hand: nat, e: nat, n: nat)
    requires hand < n && e <= n
    ensures Turn(hand, e, n) == At(hand, e, n)
  {
    if hand + e < n {
      assert (hand + e) % n == hand + e;
    } else {
      OnceRound(hand + e, n);
    }
  }

  lemma OnceRound(x: nat, n: nat)
    requires 0 < n <= x < 2 * n
    ensures x % n == x - n
  {
    var p := x / n;
    assert x == p * n + x % n;
    if p <= 0 {
      Monotone(n, p, 0);
    } else if p >= 2 {
      Monotone(n, 2, p);
    }
  }

  lemma Monotone(n: int, x: int, y: int)
    requires 0 <= n && x <= y
    ensures x * n <= y * n
  {
  }

  /** The hand passes used entries one after the other, at most once round, and stops at the first unused one. */
  lemma VictimInTurn(used: seq<bool>, hand: nat) returns (d: nat)
    requires hand < |used|
    ensures d <= |used| && Victim(used, hand) == Turn(hand, d, |used|)
    ensures forall e | 0 <= e < d :: used[Turn(hand, e, |used|)]
    ensures d < |used| ==> !used[Turn(hand, d, |used|)]
    ensures d == Passes(used, hand)
  {
    d := Passes(used, hand);
    TurnIsAt(hand, d, |used|);
    forall e | 0 <= e < d ensures used[Turn(hand, e, |used|)] {
      TurnIsAt(hand, e, |used|);
    }
  }

  /** The entries passed lose their use bits, and no others do. */
  lemma SweptInTurn(used: seq<bool>, now: seq<bool>, hand: nat, d: nat, e: nat)
    requires hand < |used| && d <= |used| && Swept(used, now, hand, d) && e < |used|
    ensures now[Turn(hand, e, |used|)] == (used[Turn(hand, e, |used|)] && e >= d)
  {
    TurnIsAt(hand, e, |used|);
    var i := At(hand, e, |used|);
    assert Ahead(hand, i, |used|) == e;
  }

  lemma NextSwept(used: seq<bool>, now: seq<bool>, hand: nat, d: nat)
    requires hand < |used| && d < |used| && Swept(used, now, hand, d)
    ensures now[At(hand, d, |used|)] == used[At(hand, d, |used|)]
    ensures Swept(used, now[At(hand, d, |used|) := false], hand, d + 1)
  {
    var i := At(hand, d, |used|);
    assert Ahead(hand, i, |used|) == d;
    forall k | 0 <= k < |used| && k != i ensures Ahead(hand, k, |used|) != d {
      assert At(hand, Ahead(hand, k, |used|), |used|) == k;
    }
  }

  lemma StepAhead(hand: nat, d: nat, n: nat)
    requires hand < n && d < n
    ensures (At(hand, d, n) + 1) % n == At(hand, d + 1, n)
  {
    var i := At(hand, d, n);
    if i + 1 < n {
      assert (i + 1) % n == i + 1;
    }
  }

  /** A set bit under the hand: the hand has more to pass, and clearing the bit goes on with the sweep. */
  lemma Passing(used: seq<bool>, now: seq<bool>, hand: nat, d: nat)
    requires hand < |used| && d <= Passes(used, hand) && Swept(used, now, hand, d) && now[At(hand, d, |used|)]
    ensures d < Passes(used, hand) && Swept(used, now[At(hand, d, |used|) := false], hand, d + 1)
    ensures (At(hand, d, |used|) + 1) % |used| == At(hand, d + 1, |used|)
  {
    assert d < |used| by {
      assert Ahead(hand, At(hand, d, |used|), |used|) >= d;
    }
    NextSwept(used, now, hand, d);
    StepAhead(hand, d, |used|);
  }

  lemma Stopped(used: seq<bool>, now: seq<bool>, hand: nat, d: nat)
    requires hand < |used| && d <= Passes(used, hand) && Swept(used, now, hand, d) && !now[At(hand, d, |used|)]
    ensures d == Passes(used, hand)
  {
    if d < |used| {
      NextSwept(used, now, hand, d);
    }
  }

  // The TLB

  datatype TlbEntry = TlbEntry(virtualPage: int, physicalPage: int, valid: bool, use: bool, dirty: bool, readOnly: bool)

  function Uses(tlb: seq<TlbEntry>): (u: seq<bool>)
    ensures |u| == |tlb| && forall i | 0 <= i < |u| :: u[i] == tlb[i].use
  {
    seq(|tlb|, i requires 0 <= i < |tlb| => tlb[i].use)
  }

  // Main memory: a frame's use bit is in its owner's page table

  datatype Page = Page(thread: nat, vp: nat)

  datatype PageEntry = PageEntry(physicalPage: int, valid: bool, use: bool, dirty: bool)

  /** The frames belong to distinct live pages. */
  predicate Owned(owner: seq<Page>, tables: map<Page, PageEntry>) {
    && (forall i | 0 <= i < |owner| :: owner[i] in tables)
    && (forall i, j | 0 <= i < j < |owner| :: owner[i] != owner[j])
  }

  function FrameUses(owner: seq<Page>, tables: map<Page, PageEntry>): (u: seq<bool>)
    requires Owned(owner, tables)
    ensures |u| == |owner| && forall i | 0 <= i < |u| :: u[i] == tables[owner[i]].use
  {
    seq(|owner|, i requires 0 <= i < |owner| => tables[owner[i]].use)
  }

  /** Only use bits, and only those of pages in memory, may differ. */
  predicate OnlyUseDiffers(owner: seq<Page>, was: map<Page, PageEntry>, now: map<Page, PageEntry>) {
    && now.Keys == was.Keys
    && forall p | p in was :: now[p] == if p in owner then was[p].(use := now[p].use) else was[p]
  }

  function Cleared(tables: map<Page, PageEntry>, page: Page): map<Page, PageEntry>
    requires page in tables
  {
    tables[page := tables[page].(use := false)]
  }

  lemma ClearUse(owner: seq<Page>, was: map<Page, PageEntry>, tables: map<Page, PageEntry>, k: nat)
    requires Owned(owner, tables) && OnlyUseDiffers(owner, was, tables) && k < |owner|
    ensures var t := Cleared(tables, owner[k]);
            && Owned(owner, t) && OnlyUseDiffers(owner, was, t)
               && FrameUses(owner, t) == FrameUses(owner, tables)[k := false]
  {
  }

  class Machine {
    const tlb: array<TlbEntry>
    var tlbIterator: nat
    /** invertedTable and invertedTableVP. */
    const owner: seq<Page>
    var tables: map<Page, PageEntry>
    var mainMemoryIterator: nat

    constructor (tlb: array<TlbEntry>, owner: seq<Page>, tables: map<Page, PageEntry>)
      ensures this.tlb == tlb && this.owner == owner && this.tables == tables && tlbIterator == 0
              && mainMemoryIterator == 0
    {
      this.tlb, this.owner, this.tables := tlb, owner, tables;
      tlbIterator, mainMemoryIterator := 0, 0;
    }

    /** The loop of updateTLB, for a TLB of any size. */
    method FindTlbVictim()
      requires tlbIterator < tlb.Length
      modifies this`tlbIterator, tlb
      ensures var used := Uses(old(tlb[..]));
              && tlbIterator == Victim(used, old(tlbIterator))
              && Swept(used, Uses(tlb[..]), old(tlbIterator), Passes(used, old(tlbIterator)))
      ensures forall i | 0 <= i < tlb.Length :: tlb[i] == old(tlb[i]).(use := tlb[i].use)
    {
      ghost var hand, used, d := tlbIterator, Uses(tlb[..]), 0;
      while tlb[tlbIterator].use
        invariant d <= tlb.Length && tlbIterator == At(hand, d, tlb.Length) && d <= Passes(used, hand)
        invariant Swept(used, Uses(tlb[..]), hand, d)
        invariant forall i | 0 <= i < tlb.Length :: tlb[i] == old(tlb[i]).(use := tlb[i].use)
        decreases tlb.Length - d
      {
        ghost var was := Uses(tlb[..]);
        Passing(used, was, hand, d);
        tlb[tlbIterator] := tlb[tlbIterator].(use := false);
        assert Uses(tlb[..]) == was[tlbIterator := false];
        tlbIterator := (tlbIterator + 1) % tlb.Length;
        d := d + 1;
      }
      Stopped(used, Uses(tlb[..]), hand, d);
    }

    /** The loop of replaceMainMemoryFrame, for any number of frames. */
    method FindFrameVictim()
      requires mainMemoryIterator < |owner| && Owned(owner, tables)
      modifies this`mainMemoryIterator, this`tables
      ensures Owned(owner, tables) && OnlyUseDiffers(owner, old(tables), tables)
      ensures var used := FrameUses(owner, old(tables));
              && mainMemoryIterator == Victim(used, old(mainMemoryIterator))
              && Swept(used, FrameUses(owner, tables), old(mainMemoryIterator), Passes(used, old(mainMemoryIterator)))
    {
      ghost var hand, used, d := mainMemoryIterator, FrameUses(owner, tables), 0;
      while tables[owner[mainMemoryIterator]].use
        invariant d <= |owner| && mainMemoryIterator == At(hand, d, |owner|) && d <= Passes(used, hand)
        invariant Owned(owner, tables) && OnlyUseDiffers(owner, old(tables), tables)
        invariant Swept(used, FrameUses(owner, tables), hand, d)
        decreases |owner| - d
      {
        ghost var was := FrameUses(owner, tables);
        Passing(used, was, hand, d);
        ClearUse(owner, old(tables), tables, mainMemoryIterator);
        tables := Cleared(tables, owner[mainMemoryIterator]);
        assert FrameUses(owner, tables) == was[mainMemoryIterator := false];
        mainMemoryIterator := (mainMemoryIterator + 1) % |owner|;
        d := d + 1;
      }
      Stopped(used, FrameUses(owner, tables), hand, d);
    }
  }
}
