/**
 What a reveal tells of the draw before it (internal/rooms/draw.go:101-206), which draws can come about,
 and when a call is refused.
 */
module RevealedDraw {
  import opened Prelude
  import opened Draws
  import Crypto

  /** A card that the call could pick: unused in the pool, or brought by the call and new to the pool. */
  ghost predicate Pickable(c: DrawCore, q: Request, id: string, word: string) {
    || (exists e :: e in c.pool && !e.used && e.id == id && e.word == word)
    || (exists e :: e in q.entries && e.id !in Known(c.pool) && e.id == id && e.word == word)
  }

  /** A result names its round, gives the fake away to nobody else, and the word to everyone else. */
  ghost predicate TellsOf(r: DrawResult, roundIndex: int, fake: string, word: string) {
    && r.roundIndex == roundIndex
    && fake in r.assignments && r.assignments[fake] == Role(true, "")
    && forall p :: p in r.assignments && p != fake ==> r.assignments[p] == Role(false, word)
  }

  lemma {:induction false} UnseenComeFrom(known: set<string>, entries: seq<PoolEntry>, e: PoolEntry)
    requires e in Unseen(known, entries)
    ensures !e.used && e.id !in known && exists d :: d in entries && d.id == e.id && d.word == e.word
  {
    var n := |entries| - 1;
    assert entries == entries[..n] + [entries[n]];
    if e in Unseen(known, entries[..n]) {
      UnseenComeFrom(known, entries[..n], e);
    } else {
      assert entries[n] in entries;
    }
  }

  lemma MergedAreKnownOrNew(c: DrawCore, q: Request, e: PoolEntry)
    requires e in Merged(c.pool, q.entries) && !e.used
    ensures Pickable(c, q, e.id, e.word)
  {
    if e !in c.pool {
      UnseenComeFrom(Known(c.pool), q.entries, e);
    }
  }

  /** A draw that succeeds keeps, for its round, the fake and word it told, the word of a card it could pick. */
  lemma DrawKeepsWhatItTold(s: Server, c: DrawCore, q: Request)
    requires Drawn(s, c, q).1.Ok?
    ensures var (c', r) := Drawn(s, c, q);
            && q.roundIndex in c'.secrets
            && var secret := c'.secrets[q.roundIndex];
               && TellsOf(r.value, q.roundIndex, secret.fakeId, secret.word)
               && Pickable(c, q, r.value.cardId, secret.word)
               && secret.nonce == q.chance.nonce && secret.fakeId == FakeOf(q)
  {
    var pool := Merged(c.pool, q.entries);
    var k := Place(pool, q.chance.card).value;
    assert pool[k] in pool;
    MergedAreKnownOrNew(c, q, pool[k]);
    assert FakeOf(q) in q.players;
    hide Merged, Place, Pickable, Crypto.Commitment;
  }

  /** The round's last draw, in a run of calls. */
  ghost predicate LastDrawn(s: Server, qs: seq<Request>, roundIndex: int, i: nat) {
    && i < |qs| && qs[i].roundIndex == roundIndex && Drawn(s, After(s, NO_DRAWS, qs[..i]), qs[i]).1.Ok?
    && forall j :: i < j < |qs| && qs[j].roundIndex == roundIndex ==> Drawn(s, After(s, NO_DRAWS, qs[..j]), qs[j]).1.Err?
  }

  lemma OneMoreCall(s: Server, qs: seq<Request>, roundIndex: int, i: nat)
    requires qs != []
    ensures var n := |qs| - 1;
            var last := qs[n].roundIndex == roundIndex && Drawn(s, After(s, NO_DRAWS, qs[..n]), qs[n]).1.Ok?;
            LastDrawn(s, qs, roundIndex, i) <==> if last then i == n else i < n && LastDrawn(s, qs[..n], roundIndex, i)
  {
    var n := |qs| - 1;
    assert forall j :: 0 <= j <= n ==> qs[..n][..j] == qs[..j];
    hide Drawn, After;
    if i < n && LastDrawn(s, qs[..n], roundIndex, i) {
      assert qs[..n][i] == qs[i] && qs[..n][..i] == qs[..i];
      forall j | i < j < n && qs[j].roundIndex == roundIndex ensures Drawn(s, After(s, NO_DRAWS, qs[..j]), qs[j]).1.Err? {
        assert qs[..n][j] == qs[j] && qs[..n][..j] == qs[..j];
      }
    }
    if i < n && LastDrawn(s, qs, roundIndex, i) {
      assert qs[..n][i] == qs[i] && qs[..n][..i] == qs[..i];
      forall j | i < j < n && qs[..n][j].roundIndex == roundIndex ensures Drawn(s, After(s, NO_DRAWS, qs[..n][..j]), qs[..n][j]).1.Err? {
        assert qs[..n][j] == qs[j] && qs[..n][..j] == qs[..j];
      }
    }
  }

  lemma {:induction false} SecretIsTheLastDraws(s: Server, qs: seq<Request>, roundIndex: int, i: nat)
    requires LastDrawn(s, qs, roundIndex, i)
    ensures var c := After(s, NO_DRAWS, qs);
            && roundIndex in c.secrets
            && var before := After(s, NO_DRAWS, qs[..i]);
               var r := Drawn(s, before, qs[i]).1.value;
               && TellsOf(r, roundIndex, c.secrets[roundIndex].fakeId, c.secrets[roundIndex].word)
               && Pickable(before, qs[i], r.cardId, c.secrets[roundIndex].word)
               && c.secrets[roundIndex].nonce == qs[i].chance.nonce
  {
    hide Drawn, TellsOf, Pickable;
    var n := |qs| - 1;
    OneMoreCall(s, qs, roundIndex, i);
    var before := After(s, NO_DRAWS, qs[..n]);
    if i == n {
      DrawKeepsWhatItTold(s, before, qs[n]);
    } else {
      assert qs[..n][i] == qs[i] && qs[..n][..i] == qs[..i];
      SecretIsTheLastDraws(s, qs[..n], roundIndex, i);
      DrawSetsItsSecret(s, before, qs[n]);
    }
  }

  /**
   After any calls, the reveal of a round tells of its last draw: it names the round, the one player that
   draw made the fake, the word it gave to every other player, which is the word of a card it could pick
   under the id it answered with, and its nonce.
   */
  lemma RevealTellsTheLastDraw(s: Server, qs: seq<Request>, roundIndex: int, i: nat)
    requires LastDrawn(s, qs, roundIndex, i)
    ensures var told := Revealed(After(s, NO_DRAWS, qs), true, roundIndex);
            && told.Ok? && told.value.roundIndex == roundIndex
            && var before := After(s, NO_DRAWS, qs[..i]);
               var r := Drawn(s, before, qs[i]).1.value;
               && TellsOf(r, roundIndex, told.value.fakeId, told.value.word)
               && r.assignments.Keys == (set p | p in qs[i].players)
               && Pickable(before, qs[i], r.cardId, told.value.word)
               && told.value.nonce == Crypto.Base16(qs[i].chance.nonce)
  {
    hide TellsOf, Pickable, Crypto.Base16;
    SecretIsTheLastDraws(s, qs, roundIndex, i);
    ExactlyOneFake(s, After(s, NO_DRAWS, qs[..i]), qs[i]);
  }

  lemma {:induction false} RevealedMeansDrawn(s: Server, qs: seq<Request>, roundIndex: int)
    ensures Revealed(After(s, NO_DRAWS, qs), true, roundIndex).Ok? <==> exists i :: LastDrawn(s, qs, roundIndex, i)
  {
    if qs != [] {
      var n := |qs| - 1;
      RevealedMeansDrawn(s, qs[..n], roundIndex);
      DrawSetsItsSecret(s, After(s, NO_DRAWS, qs[..n]), qs[n]);
      hide Drawn, LastDrawn;
      forall i: nat ensures LastDrawn(s, qs, roundIndex, i) <==>
          if qs[n].roundIndex == roundIndex && Drawn(s, After(s, NO_DRAWS, qs[..n]), qs[n]).1.Ok? then i == n else i < n && LastDrawn(s, qs[..n], roundIndex, i)
      {
        OneMoreCall(s, qs, roundIndex, i);
      }
      if i :| LastDrawn(s, qs[..n], roundIndex, i) {
        LastIsInside(s, qs[..n], roundIndex, i);
      }
      assert LastDrawn(s, qs, roundIndex, n) || !(qs[n].roundIndex == roundIndex && Drawn(s, After(s, NO_DRAWS, qs[..n]), qs[n]).1.Ok?);
    }
  }

  lemma LastIsInside(s: Server, qs: seq<Request>, roundIndex: int, i: nat)
    requires LastDrawn(s, qs, roundIndex, i)
    ensures i < |qs|
  {
  }

  // ---- what chance can bring ----

  lemma {:induction false} FreeHasPlace(pool: seq<PoolEntry>, k: nat)
    requires k < |pool| && !pool[k].used
    ensures exists x :: 0 <= x < |Free(pool)| && Free(pool)[x] == k
  {
    assert k in Free(pool);
  }

  /** Every unused card can be the one picked, and every player of the call the fake. */
  lemma EveryDrawCanCome(s: Server, c: DrawCore, q: Request, k: nat, f: nat) returns (chance: Chance)
    requires q.host == Some(q.caller) && f < |q.players|
    requires var pool := Merged(c.pool, q.entries); k < |pool| && !pool[k].used
    ensures chance.nonce == q.chance.nonce
    ensures var (c', r) := Drawn(s, c, q.(chance := chance));
            && r.Ok? && r.value.cardId == Merged(c.pool, q.entries)[k].id
            && c'.pool == Marked(Merged(c.pool, q.entries), k)
            && c'.secrets[q.roundIndex].fakeId == q.players[f]
  {
    var pool := Merged(c.pool, q.entries);
    FreeHasPlace(pool, k);
    var x :| 0 <= x < |Free(pool)| && Free(pool)[x] == k;
    chance := Chance(x, f, q.chance.nonce);
    PlaceIs(pool, x);
    FakeIs(q.(chance := chance), f);
    hide Free, Place, Merged, Crypto.Commitment, Roles, FakeOf;
    DrawnIs(s, c, q.(chance := chance));
  }

  lemma PlaceIs(pool: seq<PoolEntry>, x: nat)
    requires x < |Free(pool)|
    ensures Place(pool, x) == Some(Free(pool)[x])
  {
    hide Free;
    assert x % |Free(pool)| == x;
  }

  lemma FakeIs(q: Request, f: nat)
    requires f < |q.players| && q.chance.fake == f
    ensures FakeOf(q) == q.players[f]
  {
    assert f % |q.players| == f;
  }

  /** A draw that is not refused, read off the place and the fake. */
  lemma DrawnIs(s: Server, c: DrawCore, q: Request)
    requires q.host == Some(q.caller) && q.players != []
    ensures var pool, (c', r) := Merged(c.pool, q.entries), Drawn(s, c, q);
            var k := Place(pool, q.chance.card);
            k.Some? ==>
              && r.Ok? && r.value.cardId == pool[k.value].id && c'.pool == Marked(pool, k.value)
              && q.roundIndex in c'.secrets && c'.secrets[q.roundIndex].fakeId == FakeOf(q)
  {
    hide Place, Merged, Crypto.Commitment, Roles;
  }

  /** A call is refused for a room that is gone, by anyone but its host, without players, or without a card. */
  lemma RefusedExactlyWhen(s: Server, c: DrawCore, q: Request)
    ensures var (c', r) := Drawn(s, c, q);
            && (r == Err(RoomNotFound) <==> q.host.None?)
            && (r == Err(NotHost) <==> q.host.Some? && q.caller != q.host.value)
            && (r == Err(NoPlayers) <==> q.host == Some(q.caller) && q.players == [])
            && (r == Err(PoolExhausted) <==>
                  q.host == Some(q.caller) && q.players != []
                  && (forall e :: e in c.pool ==> e.used) && (forall e :: e in q.entries ==> e.id in Known(c.pool)))
            && (r.Err? ==> c'.secrets == c.secrets && r.error in {RoomNotFound, NotHost, NoPlayers, PoolExhausted})
            && (r.Err? ==> c' == c)
  {
    var pool := Merged(c.pool, q.entries);
    UnseenAreNew(Known(c.pool), q.entries);
    forall e | e in q.entries && e.id !in Known(c.pool) ensures PoolEntry(e.id, e.word, e.authorId, false) in pool {
      NewAreUnseen(Known(c.pool), q.entries, e);
    }
    if pool != c.pool {
      var u := Unseen(Known(c.pool), q.entries);
      assert u[0] in u && u[0] in pool;
    }
  }
}
