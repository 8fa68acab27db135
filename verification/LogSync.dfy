/**
 A sync answered from the stroke log (frontend/p2p/hostBridge.ts:118-124): what its strokes do at the
 guest, which looks at their indices only (frontend/p2p/replica.ts:115-119).
 */
module LogSync {
  import opened Prelude
  import opened Models
  import opened ReplicaSpec
  import opened StrokeLogs
  import opened ScanCompleteness
  import opened SyncProtocol

  ghost predicate Ordered(frames: seq<Frame>) {
    forall i, j :: 0 <= i < j < |frames| ==> frames[i].strokeIndex < frames[j].strokeIndex
  }

  /** The frames at or above an index, as deliveries of the round the guest is in. */
  function DrawnFrom(epoch: nat, round: nat, frames: seq<Frame>, idx: int): seq<Delivery> {
    if frames == [] then []
    else
      var last := frames[|frames| - 1];
      DrawnFrom(epoch, round, frames[..|frames| - 1], idx)
      + if last.strokeIndex < idx then [] else [Delivery(epoch, round, last.strokeIndex, last.stroke)]
  }

  /** Ordered frames are drawn from the floor on, whatever round they name; what they skip is skipped. */
  lemma {:induction false} OrderedFramesAreDrawn(v: View, frames: seq<Frame>)
    requires v.floor.Some? && Ordered(frames)
    ensures var w := ApplyStrokes(v, frames);
            && w.delivered == v.delivered + DrawnFrom(v.epoch, v.floor.value.round, frames, v.floor.value.idx)
            && w.epoch == v.epoch && w.pending == v.pending && w.floor.value.round == v.floor.value.round
            && w.floor.value.idx ==
                 if frames != [] && frames[|frames| - 1].strokeIndex >= v.floor.value.idx then frames[|frames| - 1].strokeIndex + 1
                 else v.floor.value.idx
  {
    if frames != [] {
      var front := frames[..|frames| - 1];
      OrderedFramesAreDrawn(v, front);
      if front != [] {
        assert front[|front| - 1].strokeIndex < frames[|front|].strokeIndex;
      }
    }
  }

  lemma {:induction false} DrawnFromIs(epoch: nat, round: nat, frames: seq<Frame>, idx: int, d: Delivery)
    ensures d in DrawnFrom(epoch, round, frames, idx) <==>
            d.epoch == epoch && d.round == round && d.index >= idx
            && exists f :: f in frames && f.strokeIndex == d.index && f.stroke == d.stroke
  {
    if frames != [] {
      var front, last := frames[..|frames| - 1], frames[|frames| - 1];
      DrawnFromIs(epoch, round, front, idx, d);
      assert frames == front + [last];
      if f :| f in frames && f.strokeIndex == d.index && f.stroke == d.stroke {
        assert f in front || f == last;
      }
      if f :| f in front && f.strokeIndex == d.index && f.stroke == d.stroke {
        assert f in frames;
      }
    }
  }

  lemma {:induction false} DrawnFromRises(epoch: nat, round: nat, frames: seq<Frame>, idx: int)
    requires Ordered(frames)
    ensures var ds := DrawnFrom(epoch, round, frames, idx);
            forall i, j :: 0 <= i < j < |ds| ==> ds[i].index < ds[j].index
  {
    if frames != [] {
      var front, last := frames[..|frames| - 1], frames[|frames| - 1];
      DrawnFromRises(epoch, round, front, idx);
      var ds := DrawnFrom(epoch, round, front, idx);
      forall i | 0 <= i < |ds| ensures ds[i].index < last.strokeIndex {
        DrawnFromIs(epoch, round, front, idx, ds[i]);
        assert ds[i] in ds;
        var f :| f in front && f.strokeIndex == ds[i].index && f.stroke == ds[i].stroke;
        var k :| 0 <= k < |front| && front[k] == f;
        assert frames[k] == f;
      }
    }
  }

  /** What `ServeSyncReq` promises of an answer from the log. */
  ghost predicate FromLog(frames: seq<Frame>, store: map<Units, Stroke>, room: Units, round: nat, from: nat) {
    && Ordered(frames)
    && forall f :: f in frames <==> f.roundIndex == round && Scanned(store, room, round, from, Indexed(f.strokeIndex, f.stroke))
  }

  /** The log holds the strokes of the round and no others under its keys. */
  ghost predicate Logged(store: map<Units, Stroke>, room: Units, round: nat, strokes: seq<Stroke>) {
    forall i: nat :: StrokeKey(room, round, i) in store <==> i < |strokes|
  }

  ghost predicate SameStrokes(store: map<Units, Stroke>, room: Units, round: nat, strokes: seq<Stroke>) {
    forall i: nat :: i < |strokes| && StrokeKey(room, round, i) in store ==> store[StrokeKey(room, round, i)] == strokes[i]
  }

  /** No index of lo..hi-1 begins with digits that read as less than the index asked for. */
  ghost predicate NoneSkipped(from: nat, lo: nat, hi: nat) {
    forall i :: lo <= i < hi ==> from <= Leading(i, |Decimal(from)|)
  }

  lemma StrokesAre(epoch: nat, round: nat, strokes: seq<Stroke>, lo: nat, d: Delivery)
    ensures d in Strokes(epoch, round, strokes, lo) <==>
            d.epoch == epoch && d.round == round && lo <= d.index < |strokes| && d.stroke == strokes[d.index]
  {
    if d.epoch == epoch && d.round == round && lo <= d.index < |strokes| && d.stroke == strokes[d.index] {
      assert Strokes(epoch, round, strokes, lo)[d.index - lo] == d;
    }
  }

  lemma FirstIsMember(a: seq<Delivery>)
    ensures a == [] || exists d :: d in a
  {
    if a != [] {
      assert a[0] in a;
    }
  }

  /** A list of deliveries in order is determined by its members. */
  lemma {:induction false} OrderedListsAgree(a: seq<Delivery>, b: seq<Delivery>)
    requires forall i, j :: 0 <= i < j < |a| ==> a[i].index < a[j].index
    requires forall i, j :: 0 <= i < j < |b| ==> b[i].index < b[j].index
    requires forall d :: d in a <==> d in b
    ensures a == b
  {
    FirstIsMember(a);
    FirstIsMember(b);
    if a != [] && b != [] {
      SameLast(a, b);
      WithoutLast(a);
      WithoutLast(b);
      var a', b' := a[..|a| - 1], b[..|b| - 1];
      forall d ensures d in a' <==> d in b' {
        assert d in a' <==> d in a && d != a[|a| - 1];
        assert d in b' <==> d in b && d != b[|b| - 1];
      }
      OrderedListsAgree(a', b');
      assert a == a[..|a| - 1] + [a[|a| - 1]] && b == b[..|b| - 1] + [b[|b| - 1]];
    }
  }

  lemma SameLast(a: seq<Delivery>, b: seq<Delivery>)
    requires forall i, j :: 0 <= i < j < |a| ==> a[i].index < a[j].index
    requires forall i, j :: 0 <= i < j < |b| ==> b[i].index < b[j].index
    requires a != [] && b != [] && forall d :: d in a <==> d in b
    ensures a[|a| - 1] == b[|b| - 1]
  {
    var x, y := a[|a| - 1], b[|b| - 1];
    assert x in a && y in b;
    var i :| 0 <= i < |b| && b[i] == x;
    var j :| 0 <= j < |a| && a[j] == y;
    assert i < |b| - 1 ==> x.index < y.index;
    assert j < |a| - 1 ==> y.index < x.index;
  }

  lemma WithoutLast(a: seq<Delivery>)
    requires forall i, j :: 0 <= i < j < |a| ==> a[i].index < a[j].index
    requires a != []
    ensures forall d :: d in a[..|a| - 1] <==> d in a && d != a[|a| - 1]
  {
    assert a == a[..|a| - 1] + [a[|a| - 1]];
  }

  /**
   The answer from a faithful log makes the guest draw exactly the host's strokes from its floor on
   exactly when none of their indices begins with digits that read as less than the index asked for.
   */
  lemma LogFillsTheGapExactlyWhen(v: View, frames: seq<Frame>, store: map<Units, Stroke>, room: Units, from: nat, strokes: seq<Stroke>)
    requires v.floor.Some? && from <= v.floor.value.idx
    requires FromLog(frames, store, room, v.floor.value.round, from)
    requires Logged(store, room, v.floor.value.round, strokes) && SameStrokes(store, room, v.floor.value.round, strokes)
    ensures ApplyStrokes(v, frames).delivered == v.delivered + Strokes(v.epoch, v.floor.value.round, strokes, v.floor.value.idx)
       <==> NoneSkipped(from, v.floor.value.idx, |strokes|)
  {
    hide Decimal, Leading, StrokeKey, LexLeq;
    var round, idx := v.floor.value.round, v.floor.value.idx;
    OrderedFramesAreDrawn(v, frames);
    var drawn, all := DrawnFrom(v.epoch, round, frames, idx), Strokes(v.epoch, round, strokes, idx);
    assert ApplyStrokes(v, frames).delivered == v.delivered + all <==> drawn == all by {
      assert (v.delivered + drawn)[|v.delivered|..] == drawn && (v.delivered + all)[|v.delivered|..] == all;
    }
    forall d ensures d in drawn <==> d in all && from <= Leading(d.index, |Decimal(from)|) {
      DrawnStroke(v, frames, store, room, from, strokes, d);
    }
    if NoneSkipped(from, idx, |strokes|) {
      forall d ensures d in drawn <==> d in all { StrokesAre(v.epoch, round, strokes, idx, d); }
      DrawnFromRises(v.epoch, round, frames, idx);
      OrderedListsAgree(drawn, all);
    }
    if drawn == all {
      forall i | idx <= i < |strokes| ensures from <= Leading(i, |Decimal(from)|) {
        var d := Delivery(v.epoch, round, i, strokes[i]);
        StrokesAre(v.epoch, round, strokes, idx, d);
        DrawnStroke(v, frames, store, room, from, strokes, d);
        assert d in all;
      }
    }
  }

  lemma DrawnStroke(v: View, frames: seq<Frame>, store: map<Units, Stroke>, room: Units, from: nat, strokes: seq<Stroke>, d: Delivery)
    requires v.floor.Some? && from <= v.floor.value.idx
    requires FromLog(frames, store, room, v.floor.value.round, from)
    requires Logged(store, room, v.floor.value.round, strokes) && SameStrokes(store, room, v.floor.value.round, strokes)
    ensures var round, idx := v.floor.value.round, v.floor.value.idx;
            d in DrawnFrom(v.epoch, round, frames, idx)
            <==> d in Strokes(v.epoch, round, strokes, idx) && d.index >= 0 && from <= Leading(d.index, |Decimal(from)|)
  {
    hide Decimal, Leading, StrokeKey, LexLeq;
    var round, idx := v.floor.value.round, v.floor.value.idx;
    DrawnFromIs(v.epoch, round, frames, idx, d);
    StrokesAre(v.epoch, round, strokes, idx, d);
    if d.index >= idx {
      LexIsLeadingDigits(from, d.index);
      if d.index < |strokes| {
        var f := Frame(round, d.index, d.stroke);
        assert f in frames <==> d.stroke == strokes[d.index] && from <= Leading(d.index, |Decimal(from)|);
      }
      if f :| f in frames && f.strokeIndex == d.index && f.stroke == d.stroke {
        assert StrokeKey(room, round, f.strokeIndex) in store;
      }
    }
  }

  /**
   The guest does not look at the round a frame names. An answer that serves an older round from the
   log, while the host's state is already in the guest's round, has the old strokes drawn there.
   */
  lemma OldStrokesAreDrawnInTheNewRound(v: View, host: GameState, frames: seq<Frame>, f: Frame)
    requires host.currentRound.Some? && v.floor.Some? && v.floor.value.round == host.currentRound.value.index
    requires Ordered(frames) && f in frames && f.strokeIndex >= v.floor.value.idx
    ensures var w := ApplySyncRes(v, host, frames);
            && v.delivered <= w.delivered
            && Delivery(v.epoch, v.floor.value.round, f.strokeIndex, f.stroke) in w.delivered[|v.delivered|..]
  {
    hide ApplyStrokes;
    OrderedFramesAreDrawn(v, frames);
    var d := Delivery(v.epoch, v.floor.value.round, f.strokeIndex, f.stroke);
    DrawnFromIs(v.epoch, v.floor.value.round, frames, v.floor.value.idx, d);
    var drawn := DrawnFrom(v.epoch, v.floor.value.round, frames, v.floor.value.idx);
    NothingUndelivered(ApplyStrokes(v, frames), host);
    assert SyncContext(v, host) == v;
    var rest := ApplySyncRes(v, host, frames).delivered[|ApplyStrokes(v, frames).delivered|..];
    assert ApplySyncRes(v, host, frames).delivered == (v.delivered + drawn) + rest;
    assert ((v.delivered + drawn) + rest)[|v.delivered|..] == drawn + rest;
  }

  lemma NothingUndelivered(a: View, host: GameState)
    ensures a.delivered <= DrainPending(ApplyState(DrainPending(a), host).(syncInFlight := false)).delivered
  {
    var b := DrainPending(a);
    var c := ApplyState(b, host).(syncInFlight := false);
    assert c.delivered == b.delivered;
  }
}
