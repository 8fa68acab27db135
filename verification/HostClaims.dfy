/**
 Arbitration between racing host claims (internal/rooms/manager.go:237-291), from a vacated slot.
 No caller of the manager vacates a slot; the runs here start where one has been.
 */
module HostClaims {
  import opened Prelude
  import opened BitOrder
  import opened IdOrder
  import opened RegistrySpec

  datatype Claim = Claim(playerId: GoString, version: int, lastStrokeIndex: int)

  datatype Arrival = Arrival(claim: Claim, at: int)

  predicate Beats(a: Claim, b: Claim) {
    TupleBeats(a.version, a.lastStrokeIndex, a.playerId, b.version, b.lastStrokeIndex, b.playerId)
  }

  /** Between claims of different players, exactly one beats the other. */
  lemma BeatsIsTotal(a: Claim, b: Claim)
    ensures !Beats(a, a)
    ensures !(Beats(a, b) && Beats(b, a))
    ensures a == b || Beats(a, b) || Beats(b, a)
  {
    hide Below8;
    BytesTotal();
    PrecedesTotal(Below8, a.playerId, b.playerId);
    PrecedesTotal(Below8, a.playerId, a.playerId);
  }

  lemma BeatsIsTransitive(a: Claim, b: Claim, c: Claim)
    requires Beats(a, b) && Beats(b, c)
    ensures Beats(a, c)
  {
    hide Below8;
    BytesTotal();
    if a.version == b.version == c.version && a.lastStrokeIndex == b.lastStrokeIndex == c.lastStrokeIndex {
      PrecedesTransitive(Below8, a.playerId, b.playerId, c.playerId);
    }
  }

  // ---- arrivals in some order ----

  function Step(room: Room, a: Arrival): (Room, ClaimReply) {
    Claimed(room, a.claim.playerId, a.claim.version, a.claim.lastStrokeIndex, a.at)
  }

  function After(room: Room, arrivals: seq<Arrival>): Room {
    if arrivals == [] then room
    else Step(After(room, arrivals[..|arrivals| - 1]), arrivals[|arrivals| - 1]).0
  }

  function Claims(arrivals: seq<Arrival>): seq<Claim> {
    seq(|arrivals|, i requires 0 <= i < |arrivals| => arrivals[i].claim)
  }

  function Claimants(claims: seq<Claim>): seq<GoString> {
    seq(|claims|, i requires 0 <= i < |claims| => claims[i].playerId)
  }

  /** Distinct, named claimants. */
  ghost predicate Rivals(claims: seq<Claim>) {
    NoDup(Claimants(claims)) && [] !in Claimants(claims)
  }

  /** Each claim comes while the slot is empty or within the grace window of the last endorsed claim. */
  predicate InWindow(room: Room, arrivals: seq<Arrival>) {
    arrivals == [] ||
    (var n := |arrivals| - 1;
     && InWindow(room, arrivals[..n])
     && var before := After(room, arrivals[..n]);
        before.hostId == [] || (before.lastClaim.Some? && arrivals[n].at - before.lastClaim.value.at <= CLAIM_GRACE_WINDOW))
  }

  /** A claim of the list that beats every other one. */
  ghost predicate Best(claims: seq<Claim>, c: Claim) {
    c in claims && forall d :: d in claims ==> d == c || Beats(c, d)
  }

  lemma BestIsUnique(claims: seq<Claim>, c: Claim, d: Claim)
    requires Best(claims, c) && Best(claims, d)
    ensures c == d
  {
    BeatsIsTotal(c, d);
  }

  /** What the record says of the endorsed claim. */
  predicate HeldBy(room: Room, c: Claim) {
    && room.hostId == c.playerId
    && room.lastClaim.Some?
    && room.lastClaim.value.playerId == c.playerId
    && room.lastClaim.value.version == c.version
    && room.lastClaim.value.lastStrokeIndex == c.lastStrokeIndex
  }

  /** One more claim: the record ends with the better of the two. */
  lemma OneMoreClaim(room: Room, best: Claim, a: Arrival)
    requires HeldBy(room, best) && best.playerId != [] && a.claim.playerId != best.playerId
    requires a.at - room.lastClaim.value.at <= CLAIM_GRACE_WINDOW
    ensures HeldBy(Step(room, a).0, if Beats(a.claim, best) then a.claim else best)
    ensures Step(room, a).1.endorsed <==> Beats(a.claim, best)
  {
  }

  /** After any arrivals in the window, the best claim so far holds the slot, and the last was endorsed if it is the best. */
  lemma {:induction false} TheBestHoldsTheSlot(room: Room, arrivals: seq<Arrival>) returns (best: Claim)
    requires room.hostId == [] && arrivals != [] && Rivals(Claims(arrivals)) && InWindow(room, arrivals)
    ensures Best(Claims(arrivals), best) && HeldBy(After(room, arrivals), best)
    ensures var n := |arrivals| - 1;
            Step(After(room, arrivals[..n]), arrivals[n]).1.endorsed <==> best == arrivals[n].claim
    decreases |arrivals|
  {
    hide TupleBeats;
    var n := |arrivals| - 1;
    var a, cs := arrivals[n], Claims(arrivals);
    assert Claimants(cs)[n] == a.claim.playerId;
    if n == 0 {
      assert arrivals[..0] == [];
      assert cs == [a.claim];
      best := a.claim;
    } else {
      var front := Claims(arrivals[..n]);
      assert cs == front + [a.claim];
      assert Claimants(front) == Claimants(cs)[..n];
      best := TheBestHoldsTheSlot(room, arrivals[..n]);
      var i :| 0 <= i < n && front[i] == best;
      assert Claimants(cs)[i] == best.playerId;
      OneMoreClaim(After(room, arrivals[..n]), best, a);
      BeatsIsTotal(a.claim, best);
      if Beats(a.claim, best) {
        forall d | d in cs ensures d == a.claim || Beats(a.claim, d) {
          if d in front && d != best {
            BeatsIsTransitive(a.claim, best, d);
          }
        }
        best := a.claim;
      }
    }
  }

  /** In whatever order, and at whatever times inside the window, the same claims elect the same host. */
  lemma ArrivalOrderDoesNotMatter(room: Room, one: seq<Arrival>, other: seq<Arrival>)
    requires room.hostId == [] && one != []
    requires Rivals(Claims(one)) && Permutation(Claims(one), Claims(other))
    requires InWindow(room, one) && InWindow(room, other)
    ensures After(room, one).hostId == After(room, other).hostId
    ensures exists best :: Best(Claims(one), best) && HeldBy(After(room, one), best) && HeldBy(After(room, other), best)
  {
    PermutationMembers(Claims(one), Claims(other));
    PermutationRivals(Claims(one), Claims(other));
    var best := TheBestHoldsTheSlot(room, one);
    var best' := TheBestHoldsTheSlot(room, other);
    assert Best(Claims(one), best');
    BestIsUnique(Claims(one), best, best');
  }

  lemma PermutationRivals(cs: seq<Claim>, ds: seq<Claim>)
    requires Rivals(cs) && Permutation(cs, ds)
    ensures Rivals(ds)
  {
    PermutationMembers(cs, ds);
    forall i, j | 0 <= i < j < |cs| ensures cs[i] != cs[j] {
      assert Claimants(cs)[i] != Claimants(cs)[j];
    }
    PermutationNoDup(cs, ds);
    forall i | 0 <= i < |ds| ensures ds[i].playerId != [] {
      assert ds[i] in cs;
      var k :| 0 <= k < |cs| && cs[k] == ds[i];
      assert Claimants(cs)[k] == ds[i].playerId;
    }
    forall i, j | 0 <= i < j < |ds| ensures ds[i].playerId != ds[j].playerId {
      assert ds[i] in cs && ds[j] in cs;
      var k :| 0 <= k < |cs| && cs[k] == ds[i];
      var l :| 0 <= l < |cs| && cs[l] == ds[j];
      assert Claimants(cs)[k] == ds[i].playerId && Claimants(cs)[l] == ds[j].playerId;
    }
  }

  // ---- where order does matter ----

  /** Outside the window the first claim stands, however good the other: the order decides. */
  lemma OutsideTheWindowTheFirstStands(room: Room, a: Claim, b: Claim, t: int)
    requires room.hostId == [] && Rivals([a, b])
    ensures var late := t + CLAIM_GRACE_WINDOW + 1;
            && After(room, [Arrival(a, t), Arrival(b, late)]).hostId == a.playerId
            && After(room, [Arrival(b, t), Arrival(a, late)]).hostId == b.playerId
  {
    assert Claimants([a, b])[0] == a.playerId && Claimants([a, b])[1] == b.playerId;
    FirstStands(room, a, b, t);
    FirstStands(room, b, a, t);
  }

  lemma FirstStands(room: Room, a: Claim, b: Claim, t: int)
    requires room.hostId == [] && a.playerId != [] && a.playerId != b.playerId
    ensures After(room, [Arrival(a, t), Arrival(b, t + CLAIM_GRACE_WINDOW + 1)]).hostId == a.playerId
  {
    var x, y := Arrival(a, t), Arrival(b, t + CLAIM_GRACE_WINDOW + 1);
    assert [x, y][..1] == [x] && [x][..0] == [];
    assert After(room, []) == room;
    assert After(room, [x]) == Step(room, x).0;
    assert After(room, [x, y]) == Step(Step(room, x).0, y).0;
  }

  /**
   A host that claims again is endorsed but not recorded. A rival who beats its old claim, but not the
   new one, still takes the slot within the window.
   */
  lemma AReclaimIsNotRecorded(room: Room, mine: Claim, again: Claim, rival: Claim, t: int, u: int)
    requires HeldBy(room, mine) && mine.playerId != [] && mine.playerId == again.playerId != rival.playerId
    requires Beats(again, rival) && Beats(rival, mine)
    requires u - room.lastClaim.value.at <= CLAIM_GRACE_WINDOW
    ensures Step(room, Arrival(again, t)).1.endorsed
    ensures HeldBy(After(room, [Arrival(again, t), Arrival(rival, u)]), rival)
  {
    hide TupleBeats;
    var x, y := Arrival(again, t), Arrival(rival, u);
    assert [x, y][..1] == [x] && [x][..0] == [];
    assert After(room, [x]) == Step(room, x).0;
    OneMoreClaim(Step(room, x).0, mine, y);
  }
}
