/**
 What the reorder buffer of a replica is for (frontend/p2p/replica.ts:158-197): the strokes of a round,
 come in any order, are drawn in order.
 */
module ReorderBuffer {
  import opened Prelude
  import opened Models
  import opened ReplicaSpec
  import opened BufferDrain
  import opened SyncProtocol
  import opened SyncRequests

  predicate Within(order: seq<nat>, lo: nat, hi: nat) {
    forall k :: 0 <= k < |order| ==> lo <= order[k] < hi
  }

  /** The strokes with these indices arrive one by one, each carrying the count after it. */
  function Received(v: View, strokes: seq<Stroke>, order: seq<nat>): View
    requires Within(order, 0, |strokes|)
  {
    if order == [] then v
    else
      var i := order[|order| - 1];
      ApplyStroke(Received(v, strokes, order[..|order| - 1]), strokes[i], i + 1)
  }

  /** The first index from i on that has not arrived. */
  function Missing(order: seq<nat>, i: nat): (k: nat)
    ensures i <= k && k !in order && forall j :: i <= j < k ==> j in order
    decreases |set x | x in order && x >= i|
  {
    if i !in order then i
    else
      assert (set x | x in order && x >= i) == (set x | x in order && x >= i + 1) + {i};
      Missing(order, i + 1)
  }

  lemma MissingIs(order: seq<nat>, i: nat, k: nat)
    requires i <= k && k !in order && forall j :: i <= j < k ==> j in order
    ensures Missing(order, i) == k
  {
  }

  /** The floor stands at the first index missing; what has arrived above it is buffered, once each. */
  ghost predicate CaughtUpTo(v: View, w: View, strokes: seq<Stroke>, order: seq<nat>, f: nat)
    requires v.floor.Some?
  {
    var k := Missing(order, f);
    && k <= |strokes|
    && w == v.(floor := Some(Floor(v.floor.value.round, k)), pending := w.pending, delivered := w.delivered,
               lastStrokeIndex := w.lastStrokeIndex, syncInFlight := w.syncInFlight, requests := w.requests)
    && w.delivered == v.delivered + Strokes(v.epoch, v.floor.value.round, strokes[..k], f)
    && (forall s :: s in w.pending <==> s.index >= k && s.index in order && s.index < |strokes| && s.stroke == strokes[s.index])
    && (forall i :: Copies(w.pending, i) <= 1)
  }

  /** A clean buffer is drained to its first gap. */
  lemma CleanDrain(v: View) returns (run: seq<Indexed>)
    requires v.floor.Some? && forall i :: Copies(v.pending, i) <= 1
    requires forall s :: s in v.pending ==> s.index >= v.floor.value.idx
    ensures var w, f := DrainPending(v), v.floor.value.idx;
            && HoleFree(run, f, v.pending)
            && w.floor == Some(Floor(v.floor.value.round, f + |run|))
            && w.delivered == v.delivered + Tagged(v.epoch, v.floor.value.round, run)
            && w == v.(pending := w.pending, floor := w.floor, delivered := w.delivered, lastStrokeIndex := w.lastStrokeIndex)
            && (forall s :: s in w.pending <==> s in v.pending && s.index >= f + |run|)
            && (forall s :: s in v.pending ==> s.index != f + |run|)
            && (forall i :: Copies(w.pending, i) <= 1)
  {
    hide DrainPending, Copies;
    run := DrainDeliversRun(v);
    var w, g := DrainPending(v), v.floor.value.idx + |run|;
    assert !Stale(v.pending, v.floor.value.idx);
    CopiesAreMembers(v.pending, g);
    forall i ensures Copies(w.pending, i) <= 1 {
      CopiesAreMembers(w.pending, i);
    }
  }

  /** A run of buffered strokes is drawn as the strokes they are. */
  lemma RunIsStrokes(epoch: nat, round: nat, strokes: seq<Stroke>, run: seq<Indexed>, f: nat, k: nat)
    requires f <= k && k + |run| <= |strokes|
    requires forall i :: 0 <= i < |run| ==> run[i] == Indexed(k + i, strokes[k + i])
    ensures Strokes(epoch, round, strokes[..k + |run|], f) == Strokes(epoch, round, strokes[..k], f) + Tagged(epoch, round, run)
  {
  }

  lemma {:induction false} AnyOrderHolds(v: View, strokes: seq<Stroke>, order: seq<nat>)
    requires v.floor.Some? && v.pending == [] && RoundContext(v) == v.floor.value.round
    requires NoDup(order) && Within(order, v.floor.value.idx, |strokes|) && v.floor.value.idx <= |strokes|
    ensures CaughtUpTo(v, Received(v, strokes, order), strokes, order, v.floor.value.idx)
  {
    var f := v.floor.value.idx;
    if order == [] {
      assert v.delivered + Strokes(v.epoch, v.floor.value.round, strokes[..f], f) == v.delivered;
    } else {
      var front, i := order[..|order| - 1], order[|order| - 1];
      assert order == front + [i];
      AnyOrderHolds(v, strokes, front);
      OneMoreHolds(v, Received(v, strokes, front), strokes, front, i);
    }
  }

  lemma OneMoreHolds(v: View, w: View, strokes: seq<Stroke>, front: seq<nat>, i: nat)
    requires v.floor.Some? && RoundContext(v) == v.floor.value.round && v.floor.value.idx <= i < |strokes| && i !in front
    requires Within(front, v.floor.value.idx, |strokes|)
    requires CaughtUpTo(v, w, strokes, front, v.floor.value.idx)
    ensures CaughtUpTo(v, ApplyStroke(w, strokes[i], i + 1), strokes, front + [i], v.floor.value.idx)
  {
    hide DrainPending, Copies, Strokes;
    var f, k := v.floor.value.idx, Missing(front, v.floor.value.idx);
    assert RoundContext(w) == w.floor.value.round;
    if i > k {
      MissingIs(front + [i], f, k);
      BufferedHolds(w.pending, Indexed(i, strokes[i]));
    } else {
      assert i == k;
      var x := Deliver(w, strokes[k], k).(floor := Some(Floor(w.floor.value.round, k + 1)));
      assert ApplyStroke(w, strokes[i], i + 1) == DrainPending(x);
      DrainedHolds(v, w, x, strokes, front);
    }
  }

  lemma BufferedHolds(p: seq<Indexed>, s: Indexed)
    requires forall t :: t in p ==> t.index != s.index
    requires forall i :: Copies(p, i) <= 1
    ensures forall i :: Copies(p + [s], i) <= 1
  {
    forall i ensures Copies(p + [s], i) <= 1 {
      CopiesOfSum(p, [s], i);
      CopiesOfOne(s, i);
      CopiesAreMembers(p, i);
    }
  }

  lemma DrainedHolds(v: View, w: View, x: View, strokes: seq<Stroke>, front: seq<nat>)
    requires v.floor.Some? && Within(front, v.floor.value.idx, |strokes|)
    requires CaughtUpTo(v, w, strokes, front, v.floor.value.idx)
    requires var k := Missing(front, v.floor.value.idx);
             k < |strokes| && x == Deliver(w, strokes[k], k).(floor := Some(Floor(w.floor.value.round, k + 1)))
    ensures var k := Missing(front, v.floor.value.idx);
            CaughtUpTo(v, DrainPending(x), strokes, front + [k], v.floor.value.idx)
  {
    hide DrainPending, Copies, Strokes;
    var f, k := v.floor.value.idx, Missing(front, v.floor.value.idx);
    var run := CleanDrain(x);
    var g := k + 1 + |run|;
    RunArrived(x.pending, run, strokes, front, f, k);
    MissingIs(front + [k], f, g);
    hide HoleFree, Missing, Within;
    var epoch, round := v.epoch, v.floor.value.round;
    RunIsStrokes(epoch, round, strokes, [Indexed(k, strokes[k])] + run, f, k);
    assert Tagged(epoch, round, [Indexed(k, strokes[k])] + run) == [Delivery(epoch, round, k, strokes[k])] + Tagged(epoch, round, run);
    assert DrainPending(x).delivered == v.delivered + Strokes(epoch, round, strokes[..g], f);
    hide Tagged;
  }

  /** The run that a drain takes behind stroke k goes up to the next index that has not arrived. */
  lemma RunArrived(pending: seq<Indexed>, run: seq<Indexed>, strokes: seq<Stroke>, front: seq<nat>, f: nat, k: nat)
    requires Within(front, f, |strokes|) && f <= k < |strokes| && k == Missing(front, f)
    requires forall s :: s in pending <==> s.index >= k && s.index in front && s.index < |strokes| && s.stroke == strokes[s.index]
    requires HoleFree(run, k + 1, pending) && forall s :: s in pending ==> s.index != k + 1 + |run|
    ensures var g := k + 1 + |run|;
            && g <= |strokes| && g !in front + [k] && (forall j :: f <= j < g ==> j in front + [k])
            && forall j :: 0 <= j < |run| ==> run[j] == Indexed(k + 1 + j, strokes[k + 1 + j])
  {
    var g := k + 1 + |run|;
    forall j: nat | j in front && j > k ensures j < |strokes| && Indexed(j, strokes[j]) in pending {
    }
    forall j | 0 <= j < |run| ensures k + 1 + j in front && run[j] == Indexed(k + 1 + j, strokes[k + 1 + j]) {
      assert run[j] in pending;
    }
    assert |run| > 0 ==> run[|run| - 1].index in front;
    assert g !in front;
    forall j | f <= j < g ensures j in front + [k] {
      if j > k { assert run[j - k - 1].index in front; }
    }
  }

  /**
   The strokes of a round from the floor on, each once and in any order, are all drawn, in the order of
   the round; nothing stays buffered.
   */
  lemma AnyOrderDrawsAll(v: View, strokes: seq<Stroke>, order: seq<nat>)
    requires v.floor.Some? && v.pending == [] && RoundContext(v) == v.floor.value.round && v.floor.value.idx <= |strokes|
    requires NoDup(order) && Within(order, v.floor.value.idx, |strokes|) && forall i: nat :: v.floor.value.idx <= i < |strokes| ==> i in order
    ensures var w := Received(v, strokes, order);
            && w.delivered == v.delivered + Strokes(v.epoch, v.floor.value.round, strokes, v.floor.value.idx)
            && w.floor == Some(Floor(v.floor.value.round, |strokes|)) && w.pending == [] && w.epoch == v.epoch
  {
    AnyOrderHolds(v, strokes, order);
    MissingIs(order, v.floor.value.idx, |strokes|);
    assert strokes[..|strokes|] == strokes;
    var w := Received(v, strokes, order);
    SomeMember(w.pending);
  }

  lemma SomeMember(p: seq<Indexed>)
    ensures p == [] || exists s :: s in p
  {
    assert p == [] || p[0] in p;
  }
}
