/**
 When the server draws one card twice (internal/rooms/draw.go:84-116): exactly when a call that reached
 the merge listed twice an id that was not in the pool at that moment.
 */
module DrawRepeats {
  import opened Prelude
  import opened Draws

  // ---- the tally ----

  /** The ids of the used entries, each as often as it is in the pool. */
  function UsedSeq(pool: seq<PoolEntry>): seq<string> {
    if pool == [] then []
    else UsedSeq(pool[..|pool| - 1]) + if pool[|pool| - 1].used then [pool[|pool| - 1].id] else []
  }

  lemma {:induction false} UsedSeqOfSum(a: seq<PoolEntry>, b: seq<PoolEntry>)
    ensures UsedSeq(a + b) == UsedSeq(a) + UsedSeq(b)
  {
    if b == [] {
      assert a + b == a;
    } else {
      assert (a + b)[..|a + b| - 1] == a + b[..|b| - 1];
      UsedSeqOfSum(a, b[..|b| - 1]);
    }
  }

  lemma UsedSeqOfOne(e: PoolEntry)
    ensures UsedSeq([e]) == if e.used then [e.id] else []
  {
    assert [e][..0] == [];
  }

  lemma {:induction false} NoneUsed(pool: seq<PoolEntry>)
    requires forall e :: e in pool ==> !e.used
    ensures UsedSeq(pool) == []
  {
    if pool != [] {
      NoneUsed(pool[..|pool| - 1]);
    }
  }

  lemma {:induction false} AllUsed(pool: seq<PoolEntry>)
    requires forall e :: e in pool ==> e.used
    ensures UsedSeq(pool) == EntryIds(pool)
  {
    if pool != [] {
      AllUsed(pool[..|pool| - 1]);
      assert EntryIds(pool) == EntryIds(pool[..|pool| - 1]) + [pool[|pool| - 1].id];
    } else {
      assert EntryIds(pool) == [];
    }
  }

  lemma MarkingAddsOne(pool: seq<PoolEntry>, k: nat)
    requires k < |pool| && !pool[k].used
    ensures multiset(UsedSeq(Marked(pool, k))) == multiset(UsedSeq(pool)) + multiset{pool[k].id}
  {
    hide UsedSeq;
    var a, b := pool[..k], pool[k + 1..];
    var e, f := pool[k], pool[k].(used := true);
    assert pool == (a + [e]) + b && Marked(pool, k) == (a + [f]) + b;
    UsedSeqOfSum(a + [e], b);
    UsedSeqOfSum(a, [e]);
    UsedSeqOfSum(a + [f], b);
    UsedSeqOfSum(a, [f]);
    UsedSeqOfOne(e);
    UsedSeqOfOne(f);
    var x, y := UsedSeq(a), UsedSeq(b);
    assert UsedSeq(pool) == x + y by { assert x + [] == x; }
    assert UsedSeq(Marked(pool, k)) == (x + [e.id]) + y;
  }

  /** Distinct ids have distinct used ids. */
  lemma {:induction false} UsedOfDistinct(pool: seq<PoolEntry>)
    requires NoDup(EntryIds(pool))
    ensures NoDup(UsedSeq(pool)) && forall id :: id in UsedSeq(pool) ==> id in EntryIds(pool)
  {
    if pool != [] {
      var front, last := pool[..|pool| - 1], pool[|pool| - 1];
      assert pool == front + [last];
      NoDupOneMore(front, last);
      assert EntryIds(pool) == EntryIds(front) + [last.id];
      UsedOfDistinct(front);
    }
  }

  /** What is drawn is what is used, as often. */
  ghost predicate Tally(c: DrawCore, drawn: seq<string>) {
    multiset(UsedSeq(c.pool)) == multiset(drawn)
  }

  /** Merging uses nothing. */
  lemma MergedUsed(pool: seq<PoolEntry>, entries: seq<PoolEntry>)
    ensures UsedSeq(Merged(pool, entries)) == UsedSeq(pool)
  {
    hide UsedSeq, Known;
    var added := Unseen(Known(pool), entries);
    UnseenAreNew(Known(pool), entries);
    NoneUsed(added);
    UsedSeqOfSum(pool, added);
    assert UsedSeq(pool) + [] == UsedSeq(pool);
  }

  lemma DrawTallies(s: Server, c: DrawCore, q: Request, drawn: seq<string>)
    requires Tally(c, drawn)
    ensures var (c', r) := Drawn(s, c, q); Tally(c', drawn + if r.Ok? then [r.value.cardId] else [])
  {
    hide UsedSeq, Unseen, Known, Merged, Place, Marked;
    var (c', r) := Drawn(s, c, q);
    MergedUsed(c.pool, q.entries);
    if r.Ok? {
      var pool := Merged(c.pool, q.entries);
      var k := Place(pool, q.chance.card).value;
      MarkingAddsOne(pool, k);
      assert c'.pool == Marked(pool, k) && r.value.cardId == pool[k].id;
    } else {
      assert drawn + [] == drawn;
    }
  }

  lemma {:induction false} RunTallies(s: Server, qs: seq<Request>)
    ensures Tally(After(s, NO_DRAWS, qs), Cards(Successes(s, NO_DRAWS, qs)))
  {
    if qs == [] {
      assert Cards([]) == [];
    } else {
      hide Tally, Drawn;
      var n := |qs| - 1;
      RunTallies(s, qs[..n]);
      var before := After(s, NO_DRAWS, qs[..n]);
      DrawTallies(s, before, qs[n], Cards(Successes(s, NO_DRAWS, qs[..n])));
      var r := Drawn(s, before, qs[n]).1;
      assert Cards(Successes(s, NO_DRAWS, qs)) == Cards(Successes(s, NO_DRAWS, qs[..n])) + if r.Ok? then [r.value.cardId] else [];
    }
  }

  // ---- how a pool comes to hold an id twice ----

  predicate Reaches(q: Request) {
    q.host.Some? && q.caller == q.host.value && q.players != []
  }

  /** A call that reaches the merge and lists twice an id the pool does not know. */
  predicate Doubles(c: DrawCore, q: Request) {
    Reaches(q) && RepeatsUnknown(Known(c.pool), q.entries)
  }

  predicate SomeDoubles(s: Server, c: DrawCore, qs: seq<Request>) {
    qs != [] && (SomeDoubles(s, c, qs[..|qs| - 1]) || Doubles(After(s, c, qs[..|qs| - 1]), qs[|qs| - 1]))
  }

  lemma DistinctAfterOne(s: Server, c: DrawCore, q: Request)
    ensures NoDup(EntryIds(Drawn(s, c, q).0.pool)) <==> NoDup(EntryIds(c.pool)) && !Doubles(c, q)
  {
    hide RepeatsUnknown, NoDup, Merged;
    MergeKeepsDistinctExactlyWhen(c.pool, q.entries);
    var pool := Merged(c.pool, q.entries);
    if Place(pool, q.chance.card).Some? {
      MarkedIds(pool, Place(pool, q.chance.card).value);
    }
  }

  lemma {:induction false} DistinctAfter(s: Server, c: DrawCore, qs: seq<Request>)
    requires NoDup(EntryIds(c.pool))
    ensures NoDup(EntryIds(After(s, c, qs).pool)) <==> !SomeDoubles(s, c, qs)
  {
    if qs != [] {
      hide Drawn, Doubles, NoDup;
      DistinctAfter(s, c, qs[..|qs| - 1]);
      DistinctAfterOne(s, After(s, c, qs[..|qs| - 1]), qs[|qs| - 1]);
    }
  }

  // ---- drawing everything ----

  const PLAIN := Request(Some("h"), "h", 0, ["h"], [], Chance(0, 0, []))

  lemma {:induction false} AfterSum(s: Server, c: DrawCore, a: seq<Request>, b: seq<Request>)
    ensures After(s, c, a + b) == After(s, After(s, c, a), b)
  {
    if b == [] {
      assert a + b == a;
    } else {
      assert (a + b)[..|a + b| - 1] == a + b[..|b| - 1];
      AfterSum(s, c, a, b[..|b| - 1]);
    }
  }

  lemma {:induction false} FreeOfMarked(pool: seq<PoolEntry>, k: nat)
    requires k < |pool| && !pool[k].used
    ensures |Free(Marked(pool, k))| == |Free(pool)| - 1
  {
    var n := |pool| - 1;
    if k < n {
      assert Marked(pool, k)[..n] == Marked(pool[..n], k);
      FreeOfMarked(pool[..n], k);
    } else {
      assert Marked(pool, k)[..n] == pool[..n];
    }
  }

  lemma PlainDraw(s: Server, c: DrawCore)
    ensures var c' := Drawn(s, c, PLAIN).0;
            && EntryIds(c'.pool) == EntryIds(c.pool)
            && |Free(c'.pool)| == if Free(c.pool) == [] then 0 else |Free(c.pool)| - 1
  {
    assert Unseen(Known(c.pool), []) == [];
    assert Merged(c.pool, []) == c.pool;
    var k := Place(c.pool, 0);
    if k.Some? {
      FreeOfMarked(c.pool, k.value);
      MarkedIds(c.pool, k.value);
    }
  }

  /** As many plain draws as there are unused entries use up the pool. */
  lemma {:induction false} Exhaust(s: Server, c: DrawCore, n: nat)
    requires n <= |Free(c.pool)|
    ensures var c' := After(s, c, seq(n, i => PLAIN));
            EntryIds(c'.pool) == EntryIds(c.pool) && |Free(c'.pool)| == |Free(c.pool)| - n
  {
    var qs := seq(n, i => PLAIN);
    if n > 0 {
      assert qs[..n - 1] == seq(n - 1, i => PLAIN);
      Exhaust(s, c, n - 1);
      PlainDraw(s, After(s, c, qs[..n - 1]));
    }
  }

  lemma NoneFreeMeansAllUsed(pool: seq<PoolEntry>)
    requires Free(pool) == []
    ensures forall e :: e in pool ==> e.used
  {
    forall k | 0 <= k < |pool| ensures pool[k].used {
      assert k !in Free(pool);
    }
  }

  // ---- results ----

  /** However the calls come, no card is drawn twice while no call doubles an unknown id. */
  lemma NoCardTwice(s: Server, qs: seq<Request>)
    requires !SomeDoubles(s, NO_DRAWS, qs)
    ensures NoDup(Cards(Successes(s, NO_DRAWS, qs)))
  {
    assert EntryIds([]) == [];
    DistinctAfter(s, NO_DRAWS, qs);
    RunTallies(s, qs);
    UsedOfDistinct(After(s, NO_DRAWS, qs).pool);
    PermutationNoDup(UsedSeq(After(s, NO_DRAWS, qs).pool), Cards(Successes(s, NO_DRAWS, qs)));
  }

  /** Calls that bring no words can go on to draw a card twice. */
  ghost predicate CanRepeat(s: Server, qs: seq<Request>) {
    exists more: seq<Request> :: (forall q :: q in more ==> q.entries == []) && !NoDup(Cards(Successes(s, NO_DRAWS, qs + more)))
  }

  /**
   Exactly when a card is, or can still be, drawn twice: when some call that reached the merge listed
   twice an id the pool did not know then. Repeating an id the pool knows does no harm.
   */
  lemma CardRepeatsExactlyWhen(s: Server, qs: seq<Request>)
    ensures CanRepeat(s, qs) <==> SomeDoubles(s, NO_DRAWS, qs)
  {
    hide Successes, After, NoDup, SomeDoubles;
    var c := After(s, NO_DRAWS, qs);
    EmptyIsDistinct();
    DistinctAfter(s, NO_DRAWS, qs);
    if SomeDoubles(s, NO_DRAWS, qs) {
      DoubledCanRepeat(s, qs);
    }
    if more: seq<Request> :| (forall q :: q in more ==> q.entries == []) && !NoDup(Cards(Successes(s, NO_DRAWS, qs + more))) {
      DistinctAfter(s, NO_DRAWS, qs + more);
      if !SomeDoubles(s, NO_DRAWS, qs) {
        NothingDoubledLater(s, qs, more);
        NoCardTwice(s, qs + more);
      }
    }
  }

  lemma EmptyIsDistinct()
    ensures NoDup(EntryIds(NO_DRAWS.pool))
  {
  }

  lemma {:induction false} NothingDoubledLater(s: Server, qs: seq<Request>, more: seq<Request>)
    requires !SomeDoubles(s, NO_DRAWS, qs) && forall q :: q in more ==> q.entries == []
    ensures !SomeDoubles(s, NO_DRAWS, qs + more)
    decreases |more|
  {
    if more == [] {
      assert qs + more == qs;
    } else {
      var front, last := more[..|more| - 1], more[|more| - 1];
      assert last in more && forall q :: q in front ==> q in more;
      assert (qs + more)[..|qs + more| - 1] == qs + front;
      NothingDoubledLater(s, qs, front);
    }
  }

  /** A pool with an id twice gives it twice, once everything is drawn. */
  lemma DoubledCanRepeat(s: Server, qs: seq<Request>)
    requires SomeDoubles(s, NO_DRAWS, qs)
    ensures CanRepeat(s, qs)
  {
    hide Successes, After, SomeDoubles, NoDup, Free, UsedSeq, Cards;
    EmptyIsDistinct();
    var c := After(s, NO_DRAWS, qs);
    DistinctAfter(s, NO_DRAWS, qs);
    var n := |Free(c.pool)|;
    var more := seq(n, i => PLAIN);
    Exhaust(s, c, n);
    AfterSum(s, NO_DRAWS, qs, more);
    var pool := After(s, NO_DRAWS, qs + more).pool;
    NoneFreeMeansAllUsed(pool);
    AllUsed(pool);
    RunTallies(s, qs + more);
    var drawn := Cards(Successes(s, NO_DRAWS, qs + more));
    if NoDup(drawn) {
      PermutationNoDup(drawn, UsedSeq(pool));
    }
    assert forall q :: q in more ==> q.entries == [];
  }

  // ---- a card drawn twice ----

  const TWICE := PoolEntry("card", "word", "author", false)

  function ListsTwice(): Request {
    PLAIN.(entries := [TWICE, TWICE])
  }

  lemma TwiceMerged()
    ensures Merged([], [TWICE, TWICE]) == [TWICE, TWICE]
  {
    assert Known([]) == {};
    assert [TWICE, TWICE][..1] == [TWICE] && [TWICE][..0] == [];
    assert Unseen({}, [TWICE]) == [TWICE];
  }

  lemma FreeOfTwo(first: PoolEntry)
    ensures Free([first, TWICE]) == if first.used then [1] else [0, 1]
  {
    assert [first, TWICE][..1] == [first] && [first][..0] == [];
    assert Free([first]) == if first.used then [] else [0];
  }

  lemma FirstOfTwo(s: Server)
    ensures var (c, r) := Drawn(s, NO_DRAWS, ListsTwice());
            r.Ok? && r.value.cardId == "card" && c.pool == [TWICE.(used := true), TWICE]
  {
    TwiceMerged();
    FreeOfTwo(TWICE);
    hide Free, Merged, Roles;
    assert Place([TWICE, TWICE], 0) == Some(0);
  }

  lemma SecondOfTwo(s: Server, c: DrawCore)
    requires c.pool == [TWICE.(used := true), TWICE]
    ensures var r := Drawn(s, c, PLAIN).1; r.Ok? && r.value.cardId == "card"
  {
    FreeOfTwo(TWICE.(used := true));
    assert Unseen(Known(c.pool), []) == [];
    assert Merged(c.pool, []) == c.pool;
    hide Free, Merged, Roles;
    assert Place(c.pool, 0) == Some(1);
  }

  /** A new room: one call lists an entry twice, the next brings none, and both draw that card. */
  lemma DuplicateEntryIsDrawnTwice(s: Server)
    ensures Cards(Successes(s, NO_DRAWS, [ListsTwice(), PLAIN])) == ["card", "card"]
  {
    hide Drawn, ListsTwice;
    var qs := [ListsTwice(), PLAIN];
    FirstOfTwo(s);
    var (c1, r1) := Drawn(s, NO_DRAWS, ListsTwice());
    SecondOfTwo(s, c1);
    var r2 := Drawn(s, c1, PLAIN).1;
    assert qs[..1] == [ListsTwice()] && [ListsTwice()][..0] == [];
    assert After(s, NO_DRAWS, qs[..1]) == c1;
    assert Successes(s, NO_DRAWS, qs[..1]) == [r1.value];
    assert Successes(s, NO_DRAWS, qs) == [r1.value, r2.value];
  }
}
