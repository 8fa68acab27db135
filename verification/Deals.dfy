/**
 What chance can bring (frontend/p2p/engine.ts:416-451). Every unused card, every order of the players and
 every fake can be dealt, and two random sources deal the same order exactly when their choices agree.
 */
module Deals {
  import opened Prelude
  import opened Models
  import opened EngineSpec
  import opened EngineInvariant

  /** The random number that makes `Math.floor(u * n)` be k. */
  lemma SomeUnit(k: nat, n: nat) returns (u: Unit)
    requires k < n
    ensures Pick(u, n) == k
  {
    var a, b := k as real, n as real;
    Fraction(a, b);
    u := a / b;
    assert u * b == a;
    assert a.Floor == k;
  }

  lemma Fraction(a: real, b: real)
    requires 0.0 <= a < b
    ensures 0.0 <= a / b < 1.0 && a / b * b == a
  {
    assert a / b * b == a;
    Scaled(a / b, 1.0, b);
    Scaled(a / b, 0.0, b);
  }

  lemma Scaled(x: real, y: real, b: real)
    requires b > 0.0
    ensures x >= y ==> x * b >= y * b
    ensures x < y ==> x * b < y * b
  {
  }

  /** A source that agrees with another from some place on shuffles alike from there. */
  lemma {:induction false} ShuffleReadsOnward(s: seq<string>, i: nat, e: Env, f: Env, pos: nat)
    requires i < |s| && forall p: nat :: p >= pos ==> e.rng(p) == f.rng(p)
    ensures Shuffled(s, i, e, pos) == Shuffled(s, i, f, pos)
    decreases i
  {
    if i > 0 {
      ShuffleReadsOnward(Swap(s, i, Pick(e.rng(pos), i + 1)), i - 1, e, f, pos + 1);
    }
  }

  /** The entries behind place i stay where they are. */
  lemma {:induction false} ShuffleKeepsTail(s: seq<string>, i: nat, e: Env, pos: nat)
    requires i < |s|
    ensures Shuffled(s, i, e, pos)[i + 1..] == s[i + 1..]
    decreases i
  {
    if i > 0 {
      var t := Swap(s, i, Pick(e.rng(pos), i + 1));
      ShuffleKeepsTail(t, i - 1, e, pos + 1);
      var r := Shuffled(s, i, e, pos);
      assert r[i..][1..] == r[i + 1..] && t[i..][1..] == t[i + 1..] == s[i + 1..];
    }
  }

  /** The entry swapped into place i stays there. */
  lemma ShuffleSettles(s: seq<string>, i: nat, e: Env, pos: nat)
    requires 0 < i < |s|
    ensures Shuffled(s, i, e, pos)[i] == s[Pick(e.rng(pos), i + 1)]
  {
    var t := Swap(s, i, Pick(e.rng(pos), i + 1));
    ShuffleKeepsTail(t, i - 1, e, pos + 1);
    var r := Shuffled(t, i - 1, e, pos + 1);
    assert r[i..][0] == t[i..][0];
  }

  lemma SwapPermutes(s: seq<string>, i: nat, j: nat)
    requires i < |s| && j < |s|
    ensures multiset(Swap(s, i, j)) == multiset(s)
  {
  }

  /** Behind place i the two agree already: then the entry t wants at i is among the first i + 1 of s. */
  lemma WantedIsAhead(s: seq<string>, t: seq<string>, i: nat) returns (j: nat)
    requires i < |s| == |t| && Permutation(s, t) && s[i + 1..] == t[i + 1..]
    ensures j <= i && s[j] == t[i]
  {
    assert s == s[..i + 1] + s[i + 1..] && t == t[..i + 1] + t[i + 1..];
    assert multiset(s) == multiset(s[..i + 1]) + multiset(s[i + 1..]) && multiset(t) == multiset(t[..i + 1]) + multiset(t[i + 1..]);
    var a, b := multiset(s[..i + 1]), multiset(t[..i + 1]);
    forall x ensures a[x] == b[x] {
      assert multiset(s)[x] == a[x] + multiset(s[i + 1..])[x] && multiset(t)[x] == b[x] + multiset(t[i + 1..])[x];
    }
    assert t[..i + 1][i] == t[i];
    assert t[i] in multiset(t[..i + 1]);
    assert t[i] in s[..i + 1];
    j :| 0 <= j <= i && s[..i + 1][j] == t[i];
  }

  /** Some source turns s into any arrangement t of it that agrees behind place i. */
  lemma {:induction false} SomeShuffle(s: seq<string>, t: seq<string>, i: nat, env: Env, pos: nat) returns (e: Env)
    requires i < |s| && Permutation(s, t) && |s| == |t| && s[i + 1..] == t[i + 1..]
    ensures Shuffled(s, i, e, pos) == t
    ensures e == env.(rng := e.rng) && forall p: nat :: p < pos || p >= pos + i ==> e.rng(p) == env.rng(p)
    decreases i
  {
    if i == 0 {
      assert s == s[..1] + s[1..] && t == t[..1] + t[1..];
      var j := WantedIsAhead(s, t, 0);
      e := env;
    } else {
      var j := WantedIsAhead(s, t, i);
      var u := SomeUnit(j, i + 1);
      SettledHere(s, t, i, j);
      var e' := SomeShuffle(Swap(s, i, j), t, i - 1, env, pos + 1);
      e := e'.(rng := p => if p == pos then u else e'.rng(p));
      ShuffleReadsOnward(Swap(s, i, j), i - 1, e, e', pos + 1);
      hide Pick, Swap;
      assert Pick(e.rng(pos), i + 1) == j;
    }
  }

  lemma SettledHere(s: seq<string>, t: seq<string>, i: nat, j: nat)
    requires i < |s| == |t| && Permutation(s, t) && s[i + 1..] == t[i + 1..] && j <= i && s[j] == t[i]
    ensures Permutation(Swap(s, i, j), t) && Swap(s, i, j)[i..] == t[i..]
  {
    SwapPermutes(s, i, j);
    var s' := Swap(s, i, j);
    assert s'[i..] == [s'[i]] + s[i + 1..] && t[i..] == [t[i]] + t[i + 1..];
  }

  /** Every order of the players can be the turn order, whatever the other random numbers are. */
  lemma EveryOrderCanCome(ids: seq<string>, order: seq<string>, env: Env, pos: nat) returns (e: Env)
    requires Permutation(ids, order)
    ensures TurnOrder(ids, e, pos) == order
    ensures e == env.(rng := e.rng) && forall p: nat :: p < pos || p >= pos + ShuffleCalls(|ids|) ==> e.rng(p) == env.rng(p)
  {
    PermutationMembers(ids, order);
    if ids == [] {
      e := env;
    } else {
      assert ids[|ids|..] == order[|ids|..];
      e := SomeShuffle(ids, order, |ids| - 1, env, pos);
    }
  }

  /** What a source chooses for place i, when it gets to place 0 at `last`. */
  function Choice(e: Env, last: nat, i: nat): nat
    requires i <= last
  {
    Pick(e.rng(last - i), i + 1)
  }

  /** The choices of two sources agree on the way down from place i. */
  ghost predicate SameChoices(e: Env, f: Env, last: nat, i: nat)
    requires i <= last
  {
    forall j :: 1 <= j <= i ==> Choice(e, last, j) == Choice(f, last, j)
  }

  /**
   The shuffle of distinct entries never maps two different rows of choices to one order. With
   `EveryOrderCanCome` the n! rows of choices and the n! orders correspond one to one.
   */
  lemma {:induction false} OrdersAreTheChoices(s: seq<string>, i: nat, e: Env, f: Env, pos: nat)
    requires i < |s| && NoDup(s)
    ensures Shuffled(s, i, e, pos) == Shuffled(s, i, f, pos) <==> SameChoices(e, f, pos + i, i)
    decreases i
  {
    if i > 0 {
      var j, k := Choice(e, pos + i, i), Choice(f, pos + i, i);
      ShuffleSettles(s, i, e, pos);
      ShuffleSettles(s, i, f, pos);
      hide Pick, Swap;
      if j == k {
        var t := Swap(s, i, j);
        SwapPermutes(s, i, j);
        PermutationNoDup(s, t);
        hide NoDup, Permutation;
        OrdersAreTheChoices(t, i - 1, e, f, pos + 1);
      } else {
        assert s[j] != s[k];
      }
    }
  }

  // ---- a whole deal ----

  /** Some random source deals this card, this order and this fake. */
  lemma EveryDealCanCome(c: Core, env: Env, k: nat, order: seq<string>, fake: nat) returns (e: Env)
    requires |c.st.players| >= c.st.config.minPlayers && k < |Available(c.st.pool)|
    requires Permutation(Ids(c.st.players), order) && fake < |order|
    ensures e == env.(rng := e.rng)
    ensures var (ok, out) := PrepareRound(c, e);
            && ok && out.core.st.currentRound.Some?
            && var r := out.core.st.currentRound.value;
            && r.cardId == Some(Available(c.st.pool)[k].id) && r.turnOrder == order && r.fakeId == Some(order[fake])
  {
    PermutationMembers(Ids(c.st.players), order);
    var n := |Available(c.st.pool)|;
    var card := SomeUnit(k, n);
    var at := c.pos + 1 + ShuffleCalls(|order|);
    var who := SomeUnit(fake, |order|);
    var base := env.(rng := p => if p == c.pos then card else if p == at then who else env.rng(p));
    e := EveryOrderCanCome(Ids(c.st.players), order, base, c.pos + 1);
    assert e.rng(c.pos) == card && e.rng(at) == who;
    hide PrepareRound, Available, TurnOrder, Pick, Permutation;
    DealIs(c, e, k, order, fake);
  }

  /** What a source deals whose choices are known. */
  lemma DealIs(c: Core, e: Env, k: nat, order: seq<string>, fake: nat)
    requires |c.st.players| >= c.st.config.minPlayers && k < |Available(c.st.pool)| && fake < |order|
    requires Pick(e.rng(c.pos), |Available(c.st.pool)|) == k && TurnOrder(Ids(c.st.players), e, c.pos + 1) == order
    requires Pick(e.rng(c.pos + 1 + ShuffleCalls(|order|)), |order|) == fake
    ensures var (ok, out) := PrepareRound(c, e);
            && ok && out.core.st.currentRound.Some?
            && var r := out.core.st.currentRound.value;
            && r.cardId == Some(Available(c.st.pool)[k].id) && r.turnOrder == order && r.fakeId == Some(order[fake])
  {
    hide Available, TurnOrder, MarkUsed, RoleMessages, Pick;
  }
}
