/** What one drain of the reorder buffer takes, exactly (frontend/p2p/replica.ts:186-197). */
module BufferDrain {
  import opened Prelude
  import opened Models
  import opened ReplicaSpec

  /** How many entries of the buffer have index i. */
  function Copies(p: seq<Indexed>, i: int): nat {
    if p == [] then 0 else Copies(p[..|p| - 1], i) + if p[|p| - 1].index == i then 1 else 0
  }

  function AtOrAbove(p: seq<Indexed>, i: int): nat {
    if p == [] then 0 else AtOrAbove(p[..|p| - 1], i) + if p[|p| - 1].index >= i then 1 else 0
  }

  lemma {:induction false} AtOrAboveSplits(p: seq<Indexed>, i: int)
    ensures AtOrAbove(p, i) == Copies(p, i) + AtOrAbove(p, i + 1)
  {
    if p != [] {
      AtOrAboveSplits(p[..|p| - 1], i);
    }
  }

  /** The first index from i on that is not buffered. */
  function FirstGap(p: seq<Indexed>, i: int): (e: int)
    ensures i <= e && Copies(p, e) == 0
    ensures forall k :: i <= k < e ==> Copies(p, k) > 0
    decreases AtOrAbove(p, i)
  {
    AtOrAboveSplits(p, i);
    if Copies(p, i) == 0 then i else FirstGap(p, i + 1)
  }

  predicate Stale(p: seq<Indexed>, i: int) {
    exists s :: s in p && s.index < i
  }

  /** Entries of the buffer that continue idx without a hole. */
  ghost predicate HoleFree(run: seq<Indexed>, idx: int, pending: seq<Indexed>) {
    forall i :: 0 <= i < |run| ==> run[i].index == idx + i && run[i] in pending
  }

  /**
   Where a drain from f stops. A stale entry at the head stops it at once; otherwise it passes the
   indices buffered once, and stops behind the first one buffered twice or at the first gap.
   */
  ghost predicate StopsAt(p: seq<Indexed>, f: int, g: int) {
    if Stale(p, f) then g == f
    else
      && f <= g
      && (forall i :: f <= i < g - 1 ==> Copies(p, i) == 1)
      && (g > f ==> Copies(p, g - 1) > 0)
      && ((g > f && Copies(p, g - 1) > 1) || Copies(p, g) == 0)
  }

  // ---- counting ----

  lemma {:induction false} CopiesOfSum(a: seq<Indexed>, b: seq<Indexed>, i: int)
    ensures Copies(a + b, i) == Copies(a, i) + Copies(b, i)
  {
    if b == [] {
      assert a + b == a;
    } else {
      assert (a + b)[..|a + b| - 1] == a + b[..|b| - 1];
      CopiesOfSum(a, b[..|b| - 1], i);
    }
  }

  lemma {:induction false} CopiesAreMembers(p: seq<Indexed>, i: int)
    ensures Copies(p, i) > 0 <==> exists s :: s in p && s.index == i
  {
    if p != [] {
      var front, last := p[..|p| - 1], p[|p| - 1];
      CopiesAreMembers(front, i);
      assert p == front + [last];
      if Copies(p, i) > 0 && last.index == i {
        assert last in p;
      }
      if s :| s in p && s.index == i {
        assert s in front || s == last;
      }
      if s :| s in front && s.index == i {
        assert s in p;
      }
    }
  }

  lemma {:induction false} CopiesOfInsert(w: Indexed, sorted: seq<Indexed>, i: int)
    ensures Copies(Insert(w, sorted), i) == Copies(sorted, i) + if w.index == i then 1 else 0
  {
    if sorted == [] || sorted[|sorted| - 1].index <= w.index {
      assert (sorted + [w])[..|sorted|] == sorted;
    } else {
      var front, last := sorted[..|sorted| - 1], sorted[|sorted| - 1];
      CopiesOfInsert(w, front, i);
      assert (Insert(w, front) + [last])[..|Insert(w, front)|] == Insert(w, front);
    }
  }

  lemma {:induction false} CopiesOfSorted(p: seq<Indexed>, i: int)
    ensures Copies(SortByIndex(p), i) == Copies(p, i)
  {
    if p != [] {
      CopiesOfSorted(p[..|p| - 1], i);
      CopiesOfInsert(p[|p| - 1], SortByIndex(p[..|p| - 1]), i);
    }
  }

  lemma {:induction false} CopiesOfDropBelow(p: seq<Indexed>, idx: int, i: int)
    ensures Copies(DropBelow(p, idx), i) == if i >= idx then Copies(p, i) else 0
  {
    if p != [] {
      CopiesOfDropBelow(p[1..], idx, i);
      assert p == [p[0]] + p[1..];
      CopiesOfSum([p[0]], p[1..], i);
      CopiesOfOne(p[0], i);
      var kept := if p[0].index >= idx then [p[0]] else [];
      CopiesOfSum(kept, DropBelow(p[1..], idx), i);
    }
  }

  lemma CopiesOfOne(s: Indexed, i: int)
    ensures Copies([s], i) == if s.index == i then 1 else 0
    ensures Copies([], i) == 0
  {
    assert [s][..0] == [];
  }

  // ---- order ----

  ghost predicate Rising(p: seq<Indexed>) {
    forall i, j :: 0 <= i < j < |p| ==> p[i].index <= p[j].index
  }

  lemma {:induction false} InsertKeepsMembers(w: Indexed, sorted: seq<Indexed>, s: Indexed)
    ensures s in Insert(w, sorted) <==> s == w || s in sorted
  {
    if !(sorted == [] || sorted[|sorted| - 1].index <= w.index) {
      InsertKeepsMembers(w, sorted[..|sorted| - 1], s);
      assert sorted == sorted[..|sorted| - 1] + [sorted[|sorted| - 1]];
    }
  }

  lemma {:induction false} SortKeepsMembers(p: seq<Indexed>, s: Indexed)
    ensures s in SortByIndex(p) <==> s in p
  {
    if p != [] {
      SortKeepsMembers(p[..|p| - 1], s);
      InsertKeepsMembers(p[|p| - 1], SortByIndex(p[..|p| - 1]), s);
      assert p == p[..|p| - 1] + [p[|p| - 1]];
    }
  }

  lemma {:induction false} InsertRises(w: Indexed, sorted: seq<Indexed>)
    requires Rising(sorted)
    ensures Rising(Insert(w, sorted))
  {
    if !(sorted == [] || sorted[|sorted| - 1].index <= w.index) {
      var front, last := sorted[..|sorted| - 1], sorted[|sorted| - 1];
      InsertRises(w, front);
      forall s | s in Insert(w, front) ensures s.index <= last.index {
        InsertKeepsMembers(w, front, s);
      }
    }
  }

  lemma {:induction false} SortedRises(p: seq<Indexed>)
    ensures Rising(SortByIndex(p))
  {
    if p != [] {
      SortedRises(p[..|p| - 1]);
      InsertRises(p[|p| - 1], SortByIndex(p[..|p| - 1]));
    }
  }

  lemma {:induction false} DropBelowMembers(p: seq<Indexed>, idx: int, s: Indexed)
    ensures s in DropBelow(p, idx) <==> s in p && s.index >= idx
  {
    if p != [] {
      DropBelowMembers(p[1..], idx, s);
    }
  }

  // ---- one drain ----

  /** In a rising list, where the run at the head ends. */
  lemma RunStops(sorted: seq<Indexed>, f: int)
    requires Rising(sorted)
    ensures StopsAt(sorted, f, f + RunLength(sorted, f))
  {
    hide RunLength, Copies, Rising;
    var k := RunLength(sorted, f);
    StaleHead(sorted, f);
    if !Stale(sorted, f) {
      forall i | f <= i < f + k - 1 ensures Copies(sorted, i) == 1 {
        OnceAt(sorted, f, k, i);
      }
      if k > 0 {
        CopiesAreMembers(sorted, f + k - 1);
        assert sorted[k - 1] in sorted;
      }
      if k < |sorted| && k > 0 && sorted[k].index == f + k - 1 {
        TwiceAt(sorted, k, f + k - 1);
      } else {
        NoneAt(sorted, f, k);
      }
    }
  }

  lemma StaleHead(sorted: seq<Indexed>, f: int)
    requires Rising(sorted)
    ensures Stale(sorted, f) <==> sorted != [] && sorted[0].index < f
  {
    if sorted != [] {
      assert sorted[0] in sorted;
    }
  }

  lemma NoneAt(sorted: seq<Indexed>, f: int, k: nat)
    requires Rising(sorted) && k <= |sorted| && forall i :: 0 <= i < k ==> sorted[i].index == f + i
    requires k < |sorted| ==> sorted[k].index != f + k
    requires k < |sorted| && k > 0 ==> sorted[k].index != f + k - 1
    requires k < |sorted| && k == 0 ==> sorted[k].index >= f
    ensures Copies(sorted, f + k) == 0
  {
    CopiesAreMembers(sorted, f + k);
    if k < |sorted| {
      assert k > 0 ==> sorted[k - 1].index <= sorted[k].index;
      forall j | 0 <= j < |sorted| ensures sorted[j].index != f + k {
        assert j >= k ==> sorted[k].index <= sorted[j].index;
      }
    }
  }

  lemma OnceAt(sorted: seq<Indexed>, f: int, k: nat, i: int)
    requires Rising(sorted) && k <= |sorted| && forall j :: 0 <= j < k ==> sorted[j].index == f + j
    requires f <= i < f + k - 1
    ensures Copies(sorted, i) == 1
  {
    hide Copies;
    var at := i - f;
    var before, after := sorted[..at], sorted[at + 1..];
    assert sorted == (before + [sorted[at]]) + after;
    CopiesOfSum(before + [sorted[at]], after, i);
    CopiesOfSum(before, [sorted[at]], i);
    CopiesOfOne(sorted[at], i);
    CopiesAreMembers(before, i);
    CopiesAreMembers(after, i);
    forall s | s in after ensures s.index > i {
      var j :| 0 <= j < |after| && after[j] == s;
      assert sorted[at + 1].index <= sorted[at + 1 + j].index;
    }
  }

  lemma TwiceAt(sorted: seq<Indexed>, k: nat, i: int)
    requires 0 < k < |sorted| && sorted[k - 1].index == i && sorted[k].index == i
    ensures Copies(sorted, i) > 1
  {
    assert sorted == sorted[..k] + sorted[k..];
    CopiesOfSum(sorted[..k], sorted[k..], i);
    CopiesAreMembers(sorted[..k], i);
    CopiesAreMembers(sorted[k..], i);
    assert sorted[..k][k - 1] == sorted[k - 1] && sorted[k..][0] == sorted[k];
    assert sorted[k - 1] in sorted[..k] && sorted[k] in sorted[k..];
  }

  /** The entries and their number matter to a drain, not their order. */
  lemma StopsAtOfSorted(p: seq<Indexed>, f: int, g: int)
    requires StopsAt(SortByIndex(p), f, g)
    ensures StopsAt(p, f, g)
  {
    hide SortByIndex, Copies;
    assert Stale(SortByIndex(p), f) <==> Stale(p, f) by {
      forall s ensures s in SortByIndex(p) <==> s in p { SortKeepsMembers(p, s); }
    }
    forall i ensures Copies(SortByIndex(p), i) == Copies(p, i) {
      CopiesOfSorted(p, i);
    }
  }

  lemma HeadIsBuffered(p: seq<Indexed>, idx: int)
    ensures var sorted := SortByIndex(p); HoleFree(sorted[..RunLength(sorted, idx)], idx, p)
  {
    hide SortByIndex;
    var sorted := SortByIndex(p);
    var run := sorted[..RunLength(sorted, idx)];
    forall i | 0 <= i < |run| ensures run[i] in p {
      assert run[i] in sorted;
      SortKeepsMembers(p, run[i]);
    }
  }

  /** What the drain leaves: everything at or above the new floor, as often as it was there. */
  lemma RestStays(p: seq<Indexed>, idx: int)
    ensures var sorted := SortByIndex(p);
            var k := RunLength(sorted, idx);
            var rest := DropBelow(sorted[k..], idx + k);
            && (forall s :: s in rest <==> s in p && s.index >= idx + k)
            && (forall i :: i >= idx + k ==> Copies(rest, i) == Copies(p, i))
  {
    hide SortByIndex, DropBelow, RunLength, Copies;
    var sorted := SortByIndex(p);
    var k := RunLength(sorted, idx);
    assert sorted == sorted[..k] + sorted[k..];
    forall s ensures s in DropBelow(sorted[k..], idx + k) <==> s in p && s.index >= idx + k {
      DropBelowMembers(sorted[k..], idx + k, s);
      SortKeepsMembers(p, s);
    }
    forall i | i >= idx + k ensures Copies(DropBelow(sorted[k..], idx + k), i) == Copies(p, i) {
      CopiesOfDropBelow(sorted[k..], idx + k, i);
      CopiesOfSum(sorted[..k], sorted[k..], i);
      CopiesAreMembers(sorted[..k], i);
      CopiesOfSorted(p, i);
    }
  }

  /**
   One drain, exactly: it delivers a run without a hole that ends where `StopsAt` says, drops what is
   below the new floor, and keeps every other entry.
   */
  lemma DrainDeliversRun(v: View) returns (run: seq<Indexed>)
    requires v.floor.Some?
    ensures var w := DrainPending(v);
            && HoleFree(run, v.floor.value.idx, v.pending)
            && StopsAt(v.pending, v.floor.value.idx, v.floor.value.idx + |run|)
            && w.floor == Some(Floor(v.floor.value.round, v.floor.value.idx + |run|))
            && w.delivered == v.delivered + Tagged(v.epoch, v.floor.value.round, run)
            && w == v.(pending := w.pending, floor := w.floor, delivered := w.delivered, lastStrokeIndex := w.lastStrokeIndex)
            && (forall s :: s in w.pending <==> s in v.pending && s.index >= w.floor.value.idx)
            && (forall i :: i >= w.floor.value.idx ==> Copies(w.pending, i) == Copies(v.pending, i))
  {
    hide SortByIndex, RunLength, DropBelow, HoleFree, StopsAt, Tagged, Copies;
    var sorted := SortByIndex(v.pending);
    var idx := v.floor.value.idx;
    run := sorted[..RunLength(sorted, idx)];
    HeadIsBuffered(v.pending, idx);
    RestStays(v.pending, idx);
    SortedRises(v.pending);
    RunStops(sorted, idx);
    StopsAtOfSorted(v.pending, idx, idx + |run|);
  }

  // ---- repeated entries ----

  /** How many indices of lo..hi-1 are buffered more than once. */
  function Repeats(p: seq<Indexed>, lo: int, hi: int): nat
    decreases hi - lo
  {
    if hi <= lo then 0 else Repeats(p, lo, hi - 1) + if Copies(p, hi - 1) > 1 then 1 else 0
  }

  lemma {:induction false} RepeatsSplit(p: seq<Indexed>, lo: int, mid: int, hi: int)
    requires lo <= mid <= hi
    ensures Repeats(p, lo, hi) == Repeats(p, lo, mid) + Repeats(p, mid, hi)
    decreases hi - mid
  {
    if mid < hi {
      RepeatsSplit(p, lo, mid, hi - 1);
    }
  }

  lemma {:induction false} RepeatsOfSame(p: seq<Indexed>, q: seq<Indexed>, lo: int, hi: int)
    requires forall i :: lo <= i < hi ==> Copies(p, i) == Copies(q, i)
    ensures Repeats(p, lo, hi) == Repeats(q, lo, hi)
    decreases hi - lo
  {
    if lo < hi {
      RepeatsOfSame(p, q, lo, hi - 1);
    }
  }

  lemma {:induction false} NoRepeats(p: seq<Indexed>, lo: int, hi: int)
    requires forall i :: lo <= i < hi ==> Copies(p, i) <= 1
    ensures Repeats(p, lo, hi) == 0
    decreases hi - lo
  {
    if lo < hi {
      NoRepeats(p, lo, hi - 1);
    }
  }

  /** A drain with no stale entry reaches the gap, or stops short behind the first repeated index. */
  lemma StopsBehindFirstRepeat(p: seq<Indexed>, f: int, g: int, e: int)
    requires StopsAt(p, f, g) && !Stale(p, f)
    requires f <= e && Copies(p, e) == 0 && forall i :: f <= i < e ==> Copies(p, i) > 0
    ensures f <= g <= e
    ensures g == e ==> Repeats(p, f, e - 1) == 0
    ensures g < e ==> Repeats(p, f, e - 1) == 1 + Repeats(p, g, e - 1)
  {
    hide Copies;
    assert g <= e;
    NoRepeats(p, f, g - 1);
    if g < e {
      RepeatsSplit(p, f, g - 1, e - 1);
      RepeatsSplit(p, g - 1, g, e - 1);
      assert Repeats(p, g - 1, g) == Repeats(p, g - 1, g - 1) + 1;
    }
  }
}
