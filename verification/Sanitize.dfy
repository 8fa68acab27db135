/** frontend/p2p/sanitize.ts: the redaction every broadcast passes through. */
module Sanitizer {
  import opened Prelude
  import opened Models

  /** The two statuses in which the round's secrets are published. */
  predicate Reveals(status: Status) {
    status == ROUND_SUMMARY || status == GAME_OVER
  }

  function StripCard(c: WordCard): WordCard {
    c.(word := None)
  }

  function StripPool(pool: seq<WordCard>): seq<WordCard> {
    seq(|pool|, i requires 0 <= i < |pool| => StripCard(pool[i]))
  }

  function StripRound(r: Round): Round {
    r.(cardId := None, fakeId := None, revealedWord := None, fakeGuess := None, votes := None, outcome := Pending)
  }

  function Sanitize(st: GameState): GameState {
    var out := st.(pool := StripPool(st.pool), poolSize := |st.pool|);
    if st.currentRound.None? || Reveals(st.status) then out
    else out.(currentRound := Some(StripRound(st.currentRound.value)))
  }

  /**
   Redaction is complete and minimal: two states are indistinguishable after it exactly when they
   agree on everything but the words in the pool and, outside the two reveal statuses, the
   round's secret fields.
   */
  lemma SanitizeHidesExactlyTheSecrets(a: GameState, b: GameState)
    ensures Sanitize(a) == Sanitize(b) <==>
      && a.(pool := [], poolSize := 0, currentRound := None) == b.(pool := [], poolSize := 0, currentRound := None)
      && |a.pool| == |b.pool|
      && (forall i :: 0 <= i < |a.pool| ==> a.pool[i].(word := None) == b.pool[i].(word := None))
      && a.currentRound.Some? == b.currentRound.Some?
      && (a.currentRound.Some? ==>
          var p, q := a.currentRound.value, b.currentRound.value;
          && p.index == q.index && p.turnOrder == q.turnOrder && p.strokeIndex == q.strokeIndex
          && p.strokes == q.strokes && p.votesCast == q.votesCast
          && (Reveals(a.status) ==> p == q))
  {
    var sa, sb := Sanitize(a), Sanitize(b);
    if sa == sb {
      forall i | 0 <= i < |a.pool| ensures a.pool[i].(word := None) == b.pool[i].(word := None) {
        assert sa.pool[i] == StripCard(a.pool[i]) && sb.pool[i] == StripCard(b.pool[i]);
      }
    } else if |a.pool| == |b.pool| && forall i :: 0 <= i < |a.pool| ==> a.pool[i].(word := None) == b.pool[i].(word := None) {
      assert sa.pool == sb.pool;
    }
  }

  /** Redacting twice is redacting once, so a relay may sanitize again without harm. */
  lemma SanitizeIdempotent(st: GameState)
    ensures Sanitize(Sanitize(st)) == Sanitize(st)
  {
    SanitizeHidesExactlyTheSecrets(Sanitize(st), st);
  }
}
