/**
 The guests' election of a new host (frontend/p2p/election.ts), and its agreement with the server's
 arbitration of their claims.
 */
module Election {
  import opened Prelude
  import opened Utf8
  import opened BitOrder
  import opened IdOrder
  import R = RegistrySpec
  import C = HostClaims

  datatype Candidate = Candidate(playerId: JsString, version: int, lastStrokeIndex: int)

  datatype Standing = Standing(version: int, lastStrokeIndex: int)

  datatype LocalView = LocalView(
    selfId: JsString,
    selfVersion: int,
    selfLastStrokeIndex: int,
    connected: seq<JsString>,
    peers: Option<map<JsString, Standing>>)

  /** What a view knows of a player; nothing known counts as zero. */
  function CandidateOf(view: LocalView, pid: JsString): Candidate {
    if pid == view.selfId then Candidate(pid, view.selfVersion, view.selfLastStrokeIndex)
    else if view.peers.Some? && pid in view.peers.value then
      Candidate(pid, view.peers.value[pid].version, view.peers.value[pid].lastStrokeIndex)
    else Candidate(pid, 0, 0)
  }

  /** The comparison function: negative when a goes first. */
  function Compare(a: Candidate, b: Candidate): int {
    if a.version != b.version then b.version - a.version
    else if a.lastStrokeIndex != b.lastStrokeIndex then b.lastStrokeIndex - a.lastStrokeIndex
    else if LtUnits(a.playerId, b.playerId) then -1
    else if LtUnits(b.playerId, a.playerId) then 1
    else 0
  }

  /** Array.prototype.sort, which is stable. */
  function InsertCandidate(c: Candidate, sorted: seq<Candidate>): seq<Candidate> {
    if sorted == [] then [c]
    else if Compare(c, sorted[0]) <= 0 then [c] + sorted
    else [sorted[0]] + InsertCandidate(c, sorted[1..])
  }

  function Sorted(cs: seq<Candidate>): seq<Candidate> {
    if cs == [] then [] else InsertCandidate(cs[0], Sorted(cs[1..]))
  }

  function Candidates(view: LocalView): seq<Candidate> {
    seq(|view.connected|, i requires 0 <= i < |view.connected| => CandidateOf(view, view.connected[i]))
  }

  /** The winner is connected and no other connected player goes before it. */
  ghost predicate Wins(view: LocalView, winner: JsString) {
    && winner in view.connected
    && forall pid :: pid in view.connected && pid != winner ==> Compare(CandidateOf(view, winner), CandidateOf(view, pid)) < 0
  }

  lemma CompareIsTotal(a: Candidate, b: Candidate)
    ensures Compare(a, a) == 0
    ensures Compare(a, b) < 0 <==> Compare(b, a) > 0
    ensures Compare(a, b) == 0 <==> a == b
  {
    hide Below16;
    UnitsTotal();
    PrecedesTotal(Below16, a.playerId, b.playerId);
    PrecedesTotal(Below16, a.playerId, a.playerId);
  }

  lemma CompareIsTransitive(a: Candidate, b: Candidate, c: Candidate)
    requires Compare(a, b) < 0 && Compare(b, c) < 0
    ensures Compare(a, c) < 0
  {
    hide Below16;
    UnitsTotal();
    CompareIsTotal(a, b);
    CompareIsTotal(b, c);
    if a.version == b.version == c.version && a.lastStrokeIndex == b.lastStrokeIndex == c.lastStrokeIndex {
      PrecedesTransitive(Below16, a.playerId, b.playerId, c.playerId);
      PrecedesTotal(Below16, a.playerId, c.playerId);
    }
  }

  ghost predicate First(c: Candidate, cs: seq<Candidate>) {
    c in cs && forall d :: d in cs ==> Compare(c, d) <= 0
  }

  lemma InsertCandidateMembers(c: Candidate, sorted: seq<Candidate>)
    ensures InsertCandidate(c, sorted) != []
    ensures forall d :: d in InsertCandidate(c, sorted) <==> d == c || d in sorted
  {
  }

  lemma {:induction false} SortedFirst(cs: seq<Candidate>)
    ensures forall d :: d in Sorted(cs) <==> d in cs
    ensures cs != [] ==> Sorted(cs) != [] && First(Sorted(cs)[0], cs)
  {
    hide Compare;
    if cs != [] {
      var rest := Sorted(cs[1..]);
      SortedFirst(cs[1..]);
      InsertCandidateMembers(cs[0], rest);
      assert cs == [cs[0]] + cs[1..];
      CompareIsTotal(cs[0], cs[0]);
      if rest != [] {
        CompareIsTotal(cs[0], rest[0]);
        forall d | d in cs ensures Compare(Sorted(cs)[0], d) <= 0 {
          CompareIsTotal(cs[0], d);
          CompareIsTotal(rest[0], d);
          if d in cs[1..] && Compare(cs[0], rest[0]) < 0 && Compare(rest[0], d) < 0 {
            CompareIsTransitive(cs[0], rest[0], d);
          }
        }
      }
    }
  }

  lemma FirstWins(view: LocalView)
    requires view.connected != []
    ensures Wins(view, Sorted(Candidates(view))[0].playerId)
  {
    hide Compare, Sorted;
    var cs := Candidates(view);
    SortedFirst(cs);
    var top := Sorted(cs)[0];
    var k :| 0 <= k < |cs| && cs[k] == top;
    assert top.playerId == view.connected[k] && top == CandidateOf(view, top.playerId);
    forall pid | pid in view.connected && pid != top.playerId ensures Compare(top, CandidateOf(view, pid)) < 0 {
      var i :| 0 <= i < |cs| && view.connected[i] == pid;
      assert cs[i] == CandidateOf(view, pid) && cs[i] in cs;
      CompareIsTotal(top, cs[i]);
    }
  }

  method Elect(view: LocalView) returns (winner: Option<JsString>)
    ensures winner.None? <==> view.connected == []
    ensures winner.Some? ==> Wins(view, winner.value)
  {
    hide Compare, Sorted;
    if |view.connected| == 0 {
      return None;
    }
    var candidates: seq<Candidate> := [];
    var i := 0;
    while i < |view.connected|
      invariant 0 <= i <= |view.connected|
      invariant candidates == Candidates(view)[..i]
    {
      var pid := view.connected[i];
      i := i + 1;
      if pid == view.selfId {
        candidates := candidates + [Candidate(pid, view.selfVersion, view.selfLastStrokeIndex)];
        continue;
      }
      var p := if view.peers.Some? && pid in view.peers.value then view.peers.value[pid] else Standing(0, 0);
      candidates := candidates + [Candidate(pid, p.version, p.lastStrokeIndex)];
    }
    assert candidates == Candidates(view);
    SortedFirst(candidates);
    FirstWins(view);
    candidates := Sorted(candidates);
    return Some(candidates[0].playerId);
  }

  /** What a view holds of a player: its own standing for itself, a peer's if known, and else nothing. */
  ghost predicate Stands(view: LocalView, pid: JsString, version: int, strokes: int) {
    if pid == view.selfId then version == view.selfVersion && strokes == view.selfLastStrokeIndex
    else if view.peers.Some? && pid in view.peers.value then view.peers.value[pid] == Standing(version, strokes)
    else version == 0 && strokes == 0
  }

  /** The elected has the newest version of all connected; among these the most strokes; among these the first id. */
  lemma TheNewestIsElected(view: LocalView, winner: JsString, v: int, s: int, pid: JsString, v': int, s': int)
    requires Wins(view, winner) && Stands(view, winner, v, s)
    requires pid in view.connected && pid != winner && Stands(view, pid, v', s')
    ensures v > v' || (v == v' && (s > s' || (s == s' && LtUnits(winner, pid))))
  {
  }

  /** Only one player can win, so views that know the same elect the same, in whatever order they list it. */
  lemma ViewsThatKnowTheSameAgree(view: LocalView, other: LocalView, winner: JsString, otherWinner: JsString)
    requires forall pid :: pid in view.connected <==> pid in other.connected
    requires forall pid :: pid in view.connected ==> CandidateOf(view, pid) == CandidateOf(other, pid)
    requires Wins(view, winner) && Wins(other, otherWinner)
    ensures winner == otherWinner
  {
    hide Compare;
    CompareIsTotal(CandidateOf(view, winner), CandidateOf(view, otherWinner));
  }

  // ---- agreement with the server ----

  /** The claim a candidate sends, as the server reads it. */
  function ClaimOf(c: Candidate): C.Claim {
    C.Claim(Octets(c.playerId), c.version, c.lastStrokeIndex)
  }

  ghost predicate WellFormedIds(ids: seq<JsString>) {
    && NoDup(ids)
    && forall a :: a in ids ==> a != [] && WellFormed(a)
  }

  ghost predicate ComparableIds(ids: seq<JsString>) {
    forall a, b :: a in ids && b in ids ==> Comparable(CodePoints(a, 0), CodePoints(b, 0))
  }

  /** The two orders on claims are one, where the ids are comparable. */
  lemma OrdersAgree(a: Candidate, b: Candidate)
    requires WellFormed(a.playerId) && WellFormed(b.playerId)
    requires Comparable(CodePoints(a.playerId, 0), CodePoints(b.playerId, 0))
    ensures Compare(a, b) < 0 <==> C.Beats(ClaimOf(a), ClaimOf(b))
  {
    hide CodePoints, Comparable, Encoded;
    BrowserAndServerAgree(a.playerId, b.playerId);
  }

  /** Everyone's claim, once each. */
  function Announced(view: LocalView): seq<C.Claim> {
    seq(|view.connected|, i requires 0 <= i < |view.connected| => ClaimOf(CandidateOf(view, view.connected[i])))
  }

  lemma OctetsNonEmpty(s: JsString)
    requires s != []
    ensures Octets(s) != []
  {
    hide EncodePoint, CodePointAt;
    assert CodePoints(s, 0) != [];
    assert Encoded(CodePoints(s, 0)) != [];
  }

  lemma AnnouncedAreRivals(view: LocalView)
    requires WellFormedIds(view.connected)
    ensures C.Rivals(Announced(view))
  {
    hide Octets;
    var ids, cs := view.connected, Announced(view);
    assert forall i :: 0 <= i < |cs| ==> C.Claimants(cs)[i] == Octets(ids[i]);
    forall i, j | 0 <= i < j < |ids| ensures Octets(ids[i]) != Octets(ids[j]) {
      if Octets(ids[i]) == Octets(ids[j]) {
        SameOctets(ids[i], ids[j]);
      }
    }
    forall i | 0 <= i < |ids| ensures Octets(ids[i]) != [] {
      assert ids[i] in ids;
      OctetsNonEmpty(ids[i]);
    }
  }

  lemma SameOctets(s: JsString, t: JsString)
    requires Octets(s) == Octets(t)
    ensures s == t
  {
    EncoderIsInjective(s, t);
  }

  lemma WinnerIsBest(view: LocalView, winner: JsString)
    requires WellFormedIds(view.connected) && ComparableIds(view.connected) && Wins(view, winner)
    ensures C.Best(Announced(view), ClaimOf(CandidateOf(view, winner)))
  {
    hide Compare, ClaimOf, WellFormed;
    var ids, cs := view.connected, Announced(view);
    var top := ClaimOf(CandidateOf(view, winner));
    var k :| 0 <= k < |ids| && ids[k] == winner;
    assert cs[k] == top;
    forall d | d in cs ensures d == top || C.Beats(top, d) {
      var i :| 0 <= i < |cs| && cs[i] == d;
      assert ids[i] in ids && winner in ids;
      if ids[i] != winner {
        OrdersAgree(CandidateOf(view, winner), CandidateOf(view, ids[i]));
      }
    }
  }

  /**
   The server ends with the host that every guest elects: when each connected player claims once, with
   the tuple a guest's view holds, and every claim comes within the window of the last endorsed one.
   It needs ids that both orders compare alike.
   */
  lemma ServerEndorsesTheElected(room: R.Room, arrivals: seq<C.Arrival>, view: LocalView, winner: JsString)
    requires room.hostId == [] && view.connected != []
    requires WellFormedIds(view.connected) && ComparableIds(view.connected)
    requires Permutation(Announced(view), C.Claims(arrivals)) && C.InWindow(room, arrivals)
    requires Wins(view, winner)
    ensures C.After(room, arrivals).hostId == Octets(winner)
    ensures C.HeldBy(C.After(room, arrivals), ClaimOf(CandidateOf(view, winner)))
  {
    hide Compare, WellFormed, Comparable, Octets;
    AnnouncedAreRivals(view);
    C.PermutationRivals(Announced(view), C.Claims(arrivals));
    PermutationMembers(Announced(view), C.Claims(arrivals));
    assert |arrivals| == |C.Claims(arrivals)|;
    WinnerIsBest(view, winner);
    var best := C.TheBestHoldsTheSlot(room, arrivals);
    C.BestIsUnique(C.Claims(arrivals), best, ClaimOf(CandidateOf(view, winner)));
  }

  /** Ids of the form the server mints, being ASCII, are always comparable. */
  lemma AsciiIdsAreComparable(ids: seq<JsString>)
    requires forall id :: id in ids ==> forall u :: u in id ==> u < 0x80
    ensures ComparableIds(ids) && forall id :: id in ids ==> WellFormed(id)
  {
    forall a, b | a in ids && b in ids
      ensures Comparable(CodePoints(a, 0), CodePoints(b, 0)) && WellFormed(a)
    {
      AsciiPoints(a, 0);
      AsciiPoints(b, 0);
      AsciiIsComparable(CodePoints(a, 0), CodePoints(b, 0));
    }
  }

  /** Comparable ids are needed: with equal tuples, two ids that are not comparable split the votes. */
  lemma CrossedIdsSplitTheVote(a: JsString, b: JsString, version: int, last: int)
    requires WellFormed(a) && WellFormed(b) && a != b
    ensures var x, y := Candidate(a, version, last), Candidate(b, version, last);
            (Compare(x, y) < 0 <==> C.Beats(ClaimOf(x), ClaimOf(y))) <==> Comparable(CodePoints(a, 0), CodePoints(b, 0))
  {
    hide CodePoints, Comparable, Encoded;
    BrowserAndServerAgree(a, b);
  }
}
