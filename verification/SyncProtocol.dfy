/** A sync closes the gap: the host's answer, met by the guest's buffer. */
module SyncProtocol {
  import opened Prelude
  import opened Models
  import opened ReplicaSpec
  import opened BufferDrain
  import opened HostBridges
  import S = ReplicaSafety

  /** The strokes lo, lo+1, ... of a round, as deliveries. */
  function Strokes(epoch: nat, round: nat, strokes: seq<Stroke>, lo: nat): seq<Delivery> {
    if lo >= |strokes| then []
    else seq(|strokes| - lo, i requires 0 <= i < |strokes| - lo => Delivery(epoch, round, lo + i, strokes[lo + i]))
  }

  function Indices(p: seq<Indexed>): seq<int> {
    seq(|p|, i requires 0 <= i < |p| => p[i].index)
  }

  /** The host's frames from `from` on deliver exactly the strokes from the floor on. */
  lemma {:induction false} ServedFillsTheGap(v: View, strokes: seq<Stroke>, round: nat, from: nat, m: nat)
    requires v.floor.Some? && from <= v.floor.value.idx && from <= m <= |strokes|
    ensures var frames := seq(m - from, i requires 0 <= i < m - from => Frame(round, from + i, strokes[from + i]));
            var w := ApplyStrokes(v, frames);
            && w.delivered == v.delivered + Strokes(v.epoch, v.floor.value.round, strokes[..m], v.floor.value.idx)
            && w.floor == Some(v.floor.value.(idx := if m > v.floor.value.idx then m else v.floor.value.idx))
            && w == v.(delivered := w.delivered, floor := w.floor, lastStrokeIndex := w.lastStrokeIndex)
    decreases m
  {
    var frames := seq(m - from, i requires 0 <= i < m - from => Frame(round, from + i, strokes[from + i]));
    if m == from {
      assert Strokes(v.epoch, v.floor.value.round, strokes[..m], v.floor.value.idx) == [];
    } else {
      ServedFillsTheGap(v, strokes, round, from, m - 1);
      assert frames[..|frames| - 1] == seq(m - 1 - from, i requires 0 <= i < m - 1 - from => Frame(round, from + i, strokes[from + i]));
      if m <= v.floor.value.idx {
        assert Strokes(v.epoch, v.floor.value.round, strokes[..m], v.floor.value.idx) == [];
      } else {
        assert Strokes(v.epoch, v.floor.value.round, strokes[..m], v.floor.value.idx)
            == Strokes(v.epoch, v.floor.value.round, strokes[..m - 1], v.floor.value.idx) + [Delivery(v.epoch, v.floor.value.round, m - 1, strokes[m - 1])];
      }
    }
  }

  /** The answer to a request of the host's own round, at or below the guest's floor. */
  ghost predicate Answers(v: View, host: GameState, from: nat) {
    && host.currentRound.Some? && host.currentRound.value.strokeIndex == |host.currentRound.value.strokes|
    && v.floor.Some? && v.floor.value.round == host.currentRound.value.index && from <= v.floor.value.idx
  }

  /** Where the guest stands once the host's strokes are drawn. */
  function CaughtUp(v: View, host: GameState): nat
    requires v.floor.Some? && host.currentRound.Some?
  {
    var n := |host.currentRound.value.strokes|;
    if n > v.floor.value.idx then n else v.floor.value.idx
  }

  lemma StrokesServed(v: View, host: GameState, from: nat)
    requires Answers(v, host, from)
    ensures var round := v.floor.value.round;
            var a := ApplyStrokes(v, Served(host, round, from));
            && SyncContext(v, host) == v
            && a.delivered == v.delivered + Strokes(v.epoch, round, host.currentRound.value.strokes, v.floor.value.idx)
            && a.floor == Some(Floor(round, CaughtUp(v, host)))
            && a == v.(delivered := a.delivered, floor := a.floor, lastStrokeIndex := a.lastStrokeIndex)
  {
    var strokes, round := host.currentRound.value.strokes, v.floor.value.round;
    var frames := Served(host, round, from);
    if from < |strokes| {
      ServedFillsTheGap(v, strokes, round, from, |strokes|);
      assert strokes[..|strokes|] == strokes;
      assert frames == seq(|strokes| - from, i requires 0 <= i < |strokes| - from => Frame(round, from + i, strokes[from + i]));
    } else {
      assert frames == [];
    }
  }

  /**
   The host answers from memory a request of the same round at or below the guest's floor. The
   guest then draws exactly the host's strokes from its floor on, in order, followed by what its
   buffer continues them with; its floor ends at or above the host's count and no request is left
   in flight. It keeps exactly the buffered entries from its floor on. If no index was buffered
   twice, the run drawn from the buffer is the whole run: the next index is not buffered.
   */
  lemma SyncClosesTheGap(v: View, host: GameState, from: nat) returns (run: seq<Indexed>)
    requires Answers(v, host, from)
    ensures var round := v.floor.value.round;
            var w := ApplySyncRes(v, host, Served(host, round, from));
            && w.delivered == v.delivered + Strokes(v.epoch, round, host.currentRound.value.strokes, v.floor.value.idx) + Tagged(v.epoch, round, run)
            && HoleFree(run, CaughtUp(v, host), v.pending)
            && w.floor == Some(Floor(round, CaughtUp(v, host) + |run|)) && w.floor.value.idx >= |host.currentRound.value.strokes|
            && w.state == Some(host) && !w.syncInFlight && w.epoch == v.epoch
            && (forall s :: s in w.pending <==> s in v.pending && s.index >= w.floor.value.idx)
            && (NoDup(Indices(v.pending)) ==> forall s :: s in v.pending ==> s.index != w.floor.value.idx)
  {
    hide ApplyStrokes, DrainPending, Strokes, Served;
    StrokesServed(v, host, from);
    var a := ApplyStrokes(v, Served(host, v.floor.value.round, from));
    run := DrainAroundSnapshot(a, host);
    BufferDoneExactlyWhen(a, host);
    if NoDup(Indices(v.pending)) {
      var next := CaughtUp(v, host);
      forall i ensures Copies(v.pending, i) <= 1 {
        DistinctCopies(v.pending, i);
      }
      NoRepeats(v.pending, next, FirstGap(v.pending, next) - 1);
    }
  }

  lemma {:induction false} DistinctCopies(p: seq<Indexed>, i: int)
    requires NoDup(Indices(p))
    ensures Copies(p, i) <= 1
  {
    if p != [] {
      var front, last := p[..|p| - 1], p[|p| - 1];
      assert Indices(front) == Indices(p)[..|front|];
      DistinctCopies(front, i);
      CopiesAreMembers(front, i);
      forall j | 0 <= j < |front| ensures front[j].index != last.index {
        assert Indices(p)[j] != Indices(p)[|front|];
      }
    }
  }

  /** The two drains around the snapshot, once the floor has reached the host's count. */
  lemma DrainAroundSnapshot(a: View, host: GameState) returns (run: seq<Indexed>)
    requires host.currentRound.Some? && a.floor.Some?
    requires a.floor.value.round == host.currentRound.value.index && host.currentRound.value.strokeIndex <= a.floor.value.idx
    ensures var w := DrainPending(ApplyState(DrainPending(a), host).(syncInFlight := false));
            && HoleFree(run, a.floor.value.idx, a.pending)
            && w.delivered == a.delivered + Tagged(a.epoch, a.floor.value.round, run)
            && w.floor == Some(Floor(a.floor.value.round, a.floor.value.idx + |run|))
            && w.state == Some(host) && !w.syncInFlight && w.epoch == a.epoch
            && (forall s :: s in w.pending <==> s in a.pending && s.index >= w.floor.value.idx)
  {
    hide DrainPending, StopsAt, Copies;
    var run1 := DrainDeliversRun(a);
    var b := DrainPending(a);
    var c := ApplyState(b, host).(syncInFlight := false);
    StateKeepsBuffer(b, host);
    var run2 := DrainDeliversRun(c);
    run := run1 + run2;
    assert Tagged(a.epoch, a.floor.value.round, run) == Tagged(a.epoch, a.floor.value.round, run1) + Tagged(c.epoch, c.floor.value.round, run2);
  }

  lemma StateKeepsBuffer(b: View, host: GameState)
    requires host.currentRound.Some? && b.floor.Some?
    requires b.floor.value.round == host.currentRound.value.index && host.currentRound.value.strokeIndex <= b.floor.value.idx
    ensures var c := ApplyState(b, host).(syncInFlight := false);
            && c.floor == b.floor && c.pending == b.pending && c.delivered == b.delivered && c.epoch == b.epoch
            && c.state == Some(host) && !c.syncInFlight
  {
  }

  // ---- when a deliverable stroke stays behind ----

  ghost predicate NothingDeliverable(w: View)
    requires w.floor.Some?
  {
    forall s :: s in w.pending ==> s.index != w.floor.value.idx
  }

  lemma BufferDoneExactlyWhen(a: View, host: GameState)
    requires host.currentRound.Some? && a.floor.Some?
    requires a.floor.value.round == host.currentRound.value.index && host.currentRound.value.strokeIndex <= a.floor.value.idx
    ensures var w := DrainPending(ApplyState(DrainPending(a), host).(syncInFlight := false));
            var next := a.floor.value.idx;
            && w.floor.Some?
            && (NothingDeliverable(w) <==>
                  Repeats(a.pending, next, FirstGap(a.pending, next) - 1) <= if Stale(a.pending, next) then 0 else 1)
  {
    hide DrainPending, Copies, StopsAt, FirstGap, Repeats;
    var f0 := a.floor.value.idx;
    var run1 := DrainDeliversRun(a);
    var b := DrainPending(a);
    var f1 := b.floor.value.idx;
    StateKeepsBuffer(b, host);
    var c := ApplyState(b, host).(syncInFlight := false);
    var run2 := DrainDeliversRun(c);
    var w := DrainPending(c);
    var f2 := w.floor.value.idx;
    TwoDrains(a.pending, b.pending, f0, f1, f2);
    CopiesAreMembers(a.pending, f2);
    assert NothingDeliverable(w) <==> Copies(a.pending, f2) == 0;
  }

  /** Two drains in a row pass one repeated index each, and the first none if an entry is stale. */
  lemma TwoDrains(p: seq<Indexed>, q: seq<Indexed>, f0: int, f1: int, f2: int)
    requires StopsAt(p, f0, f1) && StopsAt(q, f1, f2)
    requires forall s :: s in q <==> s in p && s.index >= f1
    requires forall i :: i >= f1 ==> Copies(q, i) == Copies(p, i)
    ensures Copies(p, f2) == 0 <==> Repeats(p, f0, FirstGap(p, f0) - 1) <= if Stale(p, f0) then 0 else 1
  {
    var e := FirstGap(p, f0);
    assert !Stale(q, f1);
    if Stale(p, f0) {
      assert f1 == f0;
      SecondDrain(p, q, f1, f2, e);
    } else {
      StopsBehindFirstRepeat(p, f0, f1, e);
      SecondDrain(p, q, f1, f2, e);
    }
  }

  lemma SecondDrain(p: seq<Indexed>, q: seq<Indexed>, f1: int, f2: int, e: int)
    requires StopsAt(q, f1, f2) && !Stale(q, f1)
    requires forall i :: i >= f1 ==> Copies(q, i) == Copies(p, i)
    requires f1 <= e && Copies(p, e) == 0 && forall i :: f1 <= i < e ==> Copies(p, i) > 0
    ensures Copies(p, f2) == 0 <==> Repeats(p, f1, e - 1) == 0
  {
    hide Copies;
    StopsBehindFirstRepeat(q, f1, f2, e);
    RepeatsOfSame(p, q, f1, e - 1);
  }

  /**
   After an answer from memory nothing the guest could draw stays behind exactly when, from where it
   stands to the first gap of its buffer, the last index aside, no index is buffered twice, or only
   one is and nothing stale was buffered.
   */
  lemma NothingStaysExactlyWhen(v: View, host: GameState, from: nat)
    requires Answers(v, host, from)
    ensures var next := CaughtUp(v, host);
            var w := ApplySyncRes(v, host, Served(host, v.floor.value.round, from));
            && w.floor.Some?
            && (NothingDeliverable(w) <==>
                  Repeats(v.pending, next, FirstGap(v.pending, next) - 1) <= if Stale(v.pending, next) then 0 else 1)
  {
    hide ApplyStrokes, DrainPending, Strokes, Served, Repeats, FirstGap;
    StrokesServed(v, host, from);
    BufferDoneExactlyWhen(ApplyStrokes(v, Served(host, v.floor.value.round, from)), host);
  }

  // ---- a run in which one does ----

  /** A round shown with no stroke; then strokes 1, 1, 2, 2 and 3 arrive, and stroke 0 is lost. */
  function Lossy(st: GameState, s: Stroke): seq<S.Arrival> {
    [S.Event(StateUpdate(st)), S.Event(StrokeAdded(s, 2)), S.Event(StrokeAdded(s, 2)),
     S.Event(StrokeAdded(s, 3)), S.Event(StrokeAdded(s, 3)), S.Event(StrokeAdded(s, 4))]
  }

  lemma LossyBuffers(hooked: bool, st: GameState, s: Stroke)
    requires st.currentRound.Some? && st.currentRound.value.index == 0 && st.currentRound.value.strokeIndex == 0
    ensures var v := S.Run(NewView(hooked), Lossy(st, s));
            && v.floor == Some(Floor(0, 0))
            && v.pending == [Indexed(1, s), Indexed(1, s), Indexed(2, s), Indexed(2, s), Indexed(3, s)]
  {
    var v0 := Apply(NewView(hooked), StateUpdate(st));
    assert v0.floor == Some(Floor(0, 0)) && v0.pending == [] && RoundContext(v0) == 0;
    BuffersOne(v0, s, 2);
    var v1 := ApplyStroke(v0, s, 2);
    BuffersOne(v1, s, 2);
    var v2 := ApplyStroke(v1, s, 2);
    BuffersOne(v2, s, 3);
    var v3 := ApplyStroke(v2, s, 3);
    BuffersOne(v3, s, 3);
    var v4 := ApplyStroke(v3, s, 3);
    BuffersOne(v4, s, 4);
    var v5 := ApplyStroke(v4, s, 4);
    hide ApplyStroke, ApplyState;
    var l := Lossy(st, s);
    OneStep(NewView(hooked), l);
    OneStep(v0, l[1..]);
    OneStep(v1, l[2..]);
    OneStep(v2, l[3..]);
    OneStep(v3, l[4..]);
    OneStep(v4, l[5..]);
    assert l[6..] == [];
    assert l[1..][1..] == l[2..] && l[2..][1..] == l[3..] && l[3..][1..] == l[4..] && l[4..][1..] == l[5..] && l[5..][1..] == l[6..];
  }

  lemma OneStep(v: View, arrivals: seq<S.Arrival>)
    requires arrivals != []
    ensures S.Run(v, arrivals) == S.Run(S.Step(v, arrivals[0]), arrivals[1..])
  {
  }

  /** A stroke above the floor is buffered. */
  lemma BuffersOne(v: View, s: Stroke, next: nat)
    requires v.floor == Some(Floor(0, 0)) && RoundContext(v) == 0 && next > 1
    ensures var w := ApplyStroke(v, s, next);
            w.floor == v.floor && w.pending == v.pending + [Indexed(next - 1, s)] && RoundContext(w) == 0
  {
  }

  /**
   So the drain can be blocked, from a new replica: two indices came twice, and after the host's
   answer with stroke 0 the guest stops before stroke 3, which it holds.
   */
  lemma RepeatsCanBlockTheDrain(hooked: bool, st: GameState, host: GameState, s: Stroke)
    requires st.currentRound.Some? && st.currentRound.value.index == 0 && st.currentRound.value.strokeIndex == 0
    requires host.currentRound.Some? && host.currentRound.value.index == 0
    requires host.currentRound.value.strokes == [s] && host.currentRound.value.strokeIndex == 1
    ensures var v := S.Run(NewView(hooked), Lossy(st, s));
            var w := ApplySyncRes(v, host, Served(host, 0, 0));
            && Answers(v, host, 0)
            && w.floor.Some? && exists x :: x in w.pending && x.index == w.floor.value.idx
  {
    hide ApplySyncRes, Served;
    LossyBuffers(hooked, st, s);
    var v := S.Run(NewView(hooked), Lossy(st, s));
    NothingStaysExactlyWhen(v, host, 0);
    BlockingBuffer(v.pending, s);
  }

  lemma BlockingBuffer(p: seq<Indexed>, s: Stroke)
    requires p == [Indexed(1, s), Indexed(1, s), Indexed(2, s), Indexed(2, s), Indexed(3, s)]
    ensures !Stale(p, 1) && FirstGap(p, 1) == 4 && Repeats(p, 1, 3) == 2
  {
    forall i ensures Copies(p, i) == if i == 1 || i == 2 then 2 else if i == 3 then 1 else 0 {
      var one, two, three := [Indexed(1, s), Indexed(1, s)], [Indexed(2, s), Indexed(2, s)], [Indexed(3, s)];
      assert p == (one + two) + three;
      CopiesOfSum(one + two, three, i);
      CopiesOfSum(one, two, i);
      CopiesOfTwo(Indexed(1, s), i);
      CopiesOfTwo(Indexed(2, s), i);
      CopiesOfOne(Indexed(3, s), i);
    }
    hide Copies;
    assert FirstGap(p, 4) == 4 && FirstGap(p, 3) == 4;
    assert FirstGap(p, 2) == 4;
    assert Repeats(p, 1, 1) == 0;
    assert Repeats(p, 1, 2) == 1;
  }

  lemma CopiesOfTwo(x: Indexed, i: int)
    ensures Copies([x, x], i) == if x.index == i then 2 else 0
  {
    assert [x, x] == [x] + [x];
    CopiesOfSum([x], [x], i);
    CopiesOfOne(x, i);
  }
}
