/**
 The server's role draw (internal/rooms/draw.go): the card pool a host extends, the pick of an unused
 card and of the fake, the commitment, and its later reveal.

 Random numbers are arguments: Intn(n) is any natural number modulo n. A Go string is its bytes; the
 bytes of an id are given by a function, because only the commitment looks inside ids.
 */
module Draws {
  import opened Prelude
  import opened Utf8
  import opened Crypto

  datatype PoolEntry = PoolEntry(id: string, word: string, authorId: string, used: bool)

  datatype Role = Role(isFake: bool, word: string)

  datatype DrawResult = DrawResult(roundIndex: int, cardId: string, assignments: map<string, Role>, commitment: JsString)

  datatype RoundReveal = RoundReveal(roundIndex: int, fakeId: string, word: string, nonce: JsString)

  datatype Secret = Secret(cardId: string, word: string, fakeId: string, nonce: Bytes, commitment: JsString)

  datatype DrawError = RoomNotFound | NotHost | NoPlayers | PoolExhausted | UnknownRound

  datatype Chance = Chance(card: nat, fake: nat, nonce: Bytes)

  datatype Server = Server(sha: Digest, bytes: string -> Bytes)

  datatype DrawCore = DrawCore(pool: seq<PoolEntry>, secrets: map<int, Secret>)

  const NO_DRAWS := DrawCore([], map[])

  // One call: the room's host if the room exists, the caller, and the body of the request.
  datatype Request = Request(host: Option<string>, caller: string, roundIndex: int, players: seq<string>,
                             entries: seq<PoolEntry>, chance: Chance)

  // ---- what each step does ----

  function EntryIds(pool: seq<PoolEntry>): seq<string> {
    seq(|pool|, i requires 0 <= i < |pool| => pool[i].id)
  }

  /** The entries whose id is not known, unused. */
  function Unseen(known: set<string>, entries: seq<PoolEntry>): seq<PoolEntry> {
    if entries == [] then []
    else
      var e := entries[|entries| - 1];
      Unseen(known, entries[..|entries| - 1]) + if e.id in known then [] else [PoolEntry(e.id, e.word, e.authorId, false)]
  }

  function Known(pool: seq<PoolEntry>): set<string> {
    set p | p in pool :: p.id
  }

  function Merged(pool: seq<PoolEntry>, entries: seq<PoolEntry>): seq<PoolEntry> {
    pool + Unseen(Known(pool), entries)
  }

  /** The places of the unused entries. */
  function Free(pool: seq<PoolEntry>): (r: seq<nat>)
    ensures forall k :: k in r <==> 0 <= k < |pool| && !pool[k].used
  {
    if pool == [] then []
    else
      var last := |pool| - 1;
      Free(pool[..last]) + if pool[last].used then [] else [last]
  }

  /** The place of the card picked, when one is left. */
  function Place(pool: seq<PoolEntry>, x: nat): (r: Option<nat>)
    ensures r.Some? ==> r.value < |pool| && !pool[r.value].used
    ensures r.None? <==> forall p :: p in pool ==> p.used
  {
    var free := Free(pool);
    if free == [] then None
    else
      assert free[x % |free|] in free;
      Some(free[x % |free|])
  }

  function Marked(pool: seq<PoolEntry>, k: nat): seq<PoolEntry>
    requires k < |pool|
  {
    pool[k := pool[k].(used := true)]
  }

  function Roles(players: seq<string>, fake: string, word: string): map<string, Role> {
    map p | p in players :: if p == fake then Role(true, "") else Role(false, word)
  }

  function SecretOf(s: Server, card: PoolEntry, fake: string, nonce: Bytes): Secret {
    Secret(card.id, card.word, fake, nonce, Commitment(s.sha, s.bytes(fake), nonce))
  }

  /** A whole draw, and the pool and secrets it leaves. */
  function Drawn(s: Server, c: DrawCore, q: Request): (DrawCore, Result<DrawResult, DrawError>) {
    if q.host.None? then (c, Err(RoomNotFound))
    else if q.caller != q.host.value then (c, Err(NotHost))
    else if q.players == [] then (c, Err(NoPlayers))
    else
      var pool := Merged(c.pool, q.entries);
      match Place(pool, q.chance.card)
      case None => (c.(pool := pool), Err(PoolExhausted))
      case Some(k) =>
        var secret := SecretOf(s, pool[k], q.players[q.chance.fake % |q.players|], q.chance.nonce);
        (DrawCore(Marked(pool, k), c.secrets[q.roundIndex := secret]),
         Ok(DrawResult(q.roundIndex, secret.cardId, Roles(q.players, secret.fakeId, secret.word), secret.commitment)))
  }

  function Revealed(c: DrawCore, roomExists: bool, roundIndex: int): Result<RoundReveal, DrawError> {
    if !roomExists then Err(RoomNotFound)
    else if roundIndex !in c.secrets then Err(UnknownRound)
    else
      var secret := c.secrets[roundIndex];
      Ok(RoundReveal(roundIndex, secret.fakeId, secret.word, Base16(secret.nonce)))
  }

  // ---- the object that does it ----

  class DrawState {
    var pool: seq<PoolEntry>
    var secrets: map<int, Secret>

    constructor ()
      ensures pool == [] && secrets == map[]
    {
      pool := [];
      secrets := map[];
    }

    function Core(): DrawCore
      reads this
    {
      DrawCore(pool, secrets)
    }

    method MergePool(entries: seq<PoolEntry>)
      modifies this`pool
      ensures pool == Merged(old(pool), entries)
    {
      var known: set<string> := {};
      var k := 0;
      while k < |pool|
        invariant 0 <= k <= |pool|
        invariant known == Known(pool[..k])
      {
        assert pool[..k + 1] == pool[..k] + [pool[k]];
        known := known + {pool[k].id};
        k := k + 1;
      }
      assert pool[..k] == pool;
      var i := 0;
      while i < |entries|
        invariant 0 <= i <= |entries|
        invariant pool == old(pool) + Unseen(known, entries[..i])
      {
        assert entries[..i + 1][..i] == entries[..i];
        var e := entries[i];
        if e.id !in known {
          pool := pool + [PoolEntry(e.id, e.word, e.authorId, false)];
        }
        i := i + 1;
      }
      assert entries[..i] == entries;
    }

    method PickCard(x: nat) returns (r: Result<(string, string), DrawError>)
      modifies this`pool
      ensures match Place(old(pool), x)
              case None => r == Err(PoolExhausted) && pool == old(pool)
              case Some(k) => r == Ok((old(pool)[k].id, old(pool)[k].word)) && pool == Marked(old(pool), k)
    {
      var avail: seq<nat> := [];
      var i := 0;
      while i < |pool|
        invariant 0 <= i <= |pool|
        invariant avail == Free(pool[..i])
      {
        assert pool[..i + 1][..i] == pool[..i];
        if !pool[i].used {
          avail := avail + [i];
        }
        i := i + 1;
      }
      assert pool[..i] == pool;
      if |avail| == 0 {
        return Err(PoolExhausted);
      }
      var idx := avail[x % |avail|];
      assert idx in avail;
      pool := pool[idx := pool[idx].(used := true)];
      return Ok((pool[idx].id, pool[idx].word));
    }

    method Draw(s: Server, q: Request) returns (r: Result<DrawResult, DrawError>)
      modifies this
      ensures (Core(), r) == Drawn(s, old(Core()), q)
    {
      if q.host.None? {
        return Err(RoomNotFound);
      }
      if q.caller != q.host.value {
        return Err(NotHost);
      }
      if |q.players| == 0 {
        return Err(NoPlayers);
      }
      MergePool(q.entries);
      var picked := PickCard(q.chance.card);
      if picked.Err? {
        return Err(picked.error);
      }
      var (cardId, word) := picked.value;
      var fakeId := q.players[q.chance.fake % |q.players|];
      var commitment := BytesToHex(s.sha(s.bytes(fakeId) + q.chance.nonce));
      secrets := secrets[q.roundIndex := Secret(cardId, word, fakeId, q.chance.nonce, commitment)];
      var assignments: map<string, Role> := map[];
      var i := 0;
      while i < |q.players|
        invariant 0 <= i <= |q.players|
        invariant assignments == Roles(q.players[..i], fakeId, word)
      {
        var pid := q.players[i];
        assert q.players[..i + 1] == q.players[..i] + [pid];
        assignments := assignments[pid := if pid == fakeId then Role(true, "") else Role(false, word)];
        i := i + 1;
      }
      assert q.players[..i] == q.players;
      return Ok(DrawResult(q.roundIndex, cardId, assignments, commitment));
    }

    method Reveal(roomExists: bool, roundIndex: int) returns (r: Result<RoundReveal, DrawError>)
      ensures r == Revealed(Core(), roomExists, roundIndex)
    {
      if !roomExists {
        return Err(RoomNotFound);
      }
      if roundIndex !in secrets {
        return Err(UnknownRound);
      }
      var secret := secrets[roundIndex];
      var nonce := BytesToHex(secret.nonce);
      return Ok(RoundReveal(roundIndex, secret.fakeId, secret.word, nonce));
    }
  }

  // ---- one draw ----

  /** Exactly one player of the draw is the fake and gets no word; every other one gets the card's word. */
  lemma ExactlyOneFake(s: Server, c: DrawCore, q: Request)
    requires Drawn(s, c, q).1.Ok?
    ensures var (c', r) := Drawn(s, c, q);
            && q.roundIndex in c'.secrets
            && var secret := c'.secrets[q.roundIndex];
               && r.value.assignments.Keys == (set p | p in q.players)
               && secret.fakeId in q.players
               && forall p :: p in q.players ==>
                    && (r.value.assignments[p].isFake <==> p == secret.fakeId)
                    && r.value.assignments[p].word == if p == secret.fakeId then "" else secret.word
  {
    var secret := Drawn(s, c, q).0.secrets[q.roundIndex];
    assert q.players[q.chance.fake % |q.players|] in q.players;
    assert secret.fakeId in q.players;
  }

  lemma {:induction false} UnseenAreNew(known: set<string>, entries: seq<PoolEntry>)
    ensures forall e :: e in Unseen(known, entries) ==> !e.used && e.id in Known(entries) && e.id !in known
  {
    if entries != [] {
      var n := |entries| - 1;
      UnseenAreNew(known, entries[..n]);
      assert Known(entries) == Known(entries[..n]) + {entries[n].id} by {
        assert entries == entries[..n] + [entries[n]];
      }
    }
  }

  lemma {:induction false} NewAreUnseen(known: set<string>, entries: seq<PoolEntry>, e: PoolEntry)
    requires e in entries && e.id !in known
    ensures PoolEntry(e.id, e.word, e.authorId, false) in Unseen(known, entries)
  {
    var n := |entries| - 1;
    if e != entries[n] {
      assert entries == entries[..n] + [entries[n]];
      NewAreUnseen(known, entries[..n], e);
    }
  }

  /** The entries list twice an id that is not known. */
  predicate RepeatsUnknown(known: set<string>, entries: seq<PoolEntry>) {
    exists i, j :: 0 <= i < j < |entries| && entries[i].id == entries[j].id && entries[i].id !in known
  }

  lemma DistinctRepeatsNothing(known: set<string>, entries: seq<PoolEntry>)
    requires NoDup(EntryIds(entries))
    ensures !RepeatsUnknown(known, entries)
  {
    forall i, j | 0 <= i < j < |entries| ensures entries[i].id != entries[j].id {
      assert EntryIds(entries)[i] != EntryIds(entries)[j];
    }
  }

  lemma {:induction false} UnseenNoDup(known: set<string>, entries: seq<PoolEntry>)
    ensures NoDup(EntryIds(Unseen(known, entries))) <==> !RepeatsUnknown(known, entries)
  {
    hide NoDup, RepeatsUnknown, Known;
    if entries != [] {
      var n := |entries| - 1;
      var u, last := Unseen(known, entries[..n]), entries[n];
      assert u + [] == u;
      UnseenNoDup(known, entries[..n]);
      if last.id !in known {
        UnseenIds(known, entries[..n], last.id);
      }
      NoDupOneMore(u, PoolEntry(last.id, last.word, last.authorId, false));
      RepeatsOneMore(known, entries);
    } else {
      NothingRepeats(known);
    }
  }

  lemma NothingRepeats(known: set<string>)
    ensures NoDup(EntryIds(Unseen(known, []))) && !RepeatsUnknown(known, [])
  {
  }

  lemma UnseenIds(known: set<string>, entries: seq<PoolEntry>, id: string)
    requires id !in known
    ensures id in EntryIds(Unseen(known, entries)) <==> id in Known(entries)
  {
    UnseenAreNew(known, entries);
    var u := Unseen(known, entries);
    if id in EntryIds(u) {
      var i :| 0 <= i < |u| && u[i].id == id;
      assert u[i] in u;
    }
    if id in Known(entries) {
      var e :| e in entries && e.id == id;
      NewAreUnseen(known, entries, e);
      var i :| 0 <= i < |u| && u[i] == PoolEntry(e.id, e.word, e.authorId, false);
      assert EntryIds(u)[i] == id;
    }
  }

  lemma NoDupOneMore(u: seq<PoolEntry>, e: PoolEntry)
    ensures NoDup(EntryIds(u + [e])) <==> NoDup(EntryIds(u)) && e.id !in EntryIds(u)
  {
    assert EntryIds(u + [e]) == EntryIds(u) + [e.id];
    var ids := EntryIds(u);
    if NoDup(ids + [e.id]) {
      forall i, j | 0 <= i < j < |ids| ensures ids[i] != ids[j] {
        assert (ids + [e.id])[i] != (ids + [e.id])[j];
      }
      forall i | 0 <= i < |ids| ensures ids[i] != e.id {
        assert (ids + [e.id])[i] != (ids + [e.id])[|ids|];
      }
    }
  }

  lemma RepeatsOneMore(known: set<string>, entries: seq<PoolEntry>)
    requires entries != []
    ensures var n := |entries| - 1;
            RepeatsUnknown(known, entries) <==>
            RepeatsUnknown(known, entries[..n]) || (entries[n].id !in known && entries[n].id in Known(entries[..n]))
  {
    var n := |entries| - 1;
    if RepeatsUnknown(known, entries) {
      var i, j :| 0 <= i < j < |entries| && entries[i].id == entries[j].id && entries[i].id !in known;
      assert entries[..n][i] == entries[i] && entries[i] in entries[..n];
      assert j < n ==> entries[..n][j] == entries[j];
    }
    if entries[n].id !in known && entries[n].id in Known(entries[..n]) {
      var e :| e in entries[..n] && e.id == entries[n].id;
      var i :| 0 <= i < n && entries[..n][i] == e;
      assert entries[i].id == entries[n].id;
    }
    if RepeatsUnknown(known, entries[..n]) {
      var i, j :| 0 <= i < j < n && entries[..n][i].id == entries[..n][j].id && entries[..n][i].id !in known;
      assert entries[i].id == entries[j].id;
    }
  }

  /** Merging keeps every entry and its place, adds the new ids unused, and adds nothing else. */
  lemma MergeExtends(pool: seq<PoolEntry>, entries: seq<PoolEntry>)
    ensures pool <= Merged(pool, entries)
    ensures Known(Merged(pool, entries)) == Known(pool) + Known(entries)
    ensures forall e :: e in Merged(pool, entries) && e.used ==> e in pool
  {
    UnseenAreNew(Known(pool), entries);
    var m, added := Merged(pool, entries), Unseen(Known(pool), entries);
    forall id | id in Known(entries) ensures id in Known(m) {
      var e :| e in entries && e.id == id;
      if id in Known(pool) {
        var p :| p in pool && p.id == id;
        assert p in m;
      } else {
        NewAreUnseen(Known(pool), entries, e);
        assert PoolEntry(e.id, e.word, e.authorId, false) in m;
      }
    }
    forall id | id in Known(m) ensures id in Known(pool) + Known(entries) {
      var p :| p in m && p.id == id;
      assert p in pool || p in added;
    }
    assert forall p :: p in pool ==> p in m;
  }

  /** The pool has no duplicate ids after a merge exactly when it had none and the call repeats no unknown id. */
  lemma MergeKeepsDistinctExactlyWhen(pool: seq<PoolEntry>, entries: seq<PoolEntry>)
    ensures NoDup(EntryIds(Merged(pool, entries))) <==> NoDup(EntryIds(pool)) && !RepeatsUnknown(Known(pool), entries)
  {
    var m, added := Merged(pool, entries), Unseen(Known(pool), entries);
    UnseenNoDup(Known(pool), entries);
    UnseenAreNew(Known(pool), entries);
    assert EntryIds(m) == EntryIds(pool) + EntryIds(added);
    var x, y := EntryIds(pool), EntryIds(added);
    forall i, j | 0 <= i < |x| && 0 <= j < |y| ensures x[i] != y[j] {
      assert added[j] in added && pool[i] in pool;
      assert pool[i].id in Known(pool);
    }
    NoDupOfParts(x, y);
  }

  lemma NoDupOfParts(x: seq<string>, y: seq<string>)
    requires forall i, j :: 0 <= i < |x| && 0 <= j < |y| ==> x[i] != y[j]
    ensures NoDup(x + y) <==> NoDup(x) && NoDup(y)
  {
    var z := x + y;
    if NoDup(z) {
      forall i, j | 0 <= i < j < |x| ensures x[i] != x[j] { assert z[i] != z[j]; }
      forall i, j | 0 <= i < j < |y| ensures y[i] != y[j] { assert z[|x| + i] != z[|x| + j]; }
    }
  }

  // ---- runs of draws ----

  function After(s: Server, c: DrawCore, qs: seq<Request>): DrawCore {
    if qs == [] then c else Drawn(s, After(s, c, qs[..|qs| - 1]), qs[|qs| - 1]).0
  }

  /** The draws that succeeded, in order. */
  function Successes(s: Server, c: DrawCore, qs: seq<Request>): seq<DrawResult> {
    if qs == [] then []
    else
      var n := |qs| - 1;
      var r := Drawn(s, After(s, c, qs[..n]), qs[n]).1;
      Successes(s, c, qs[..n]) + if r.Ok? then [r.value] else []
  }

  function Cards(rs: seq<DrawResult>): seq<string> {
    seq(|rs|, i requires 0 <= i < |rs| => rs[i].cardId)
  }

  function UsedIds(pool: seq<PoolEntry>): set<string> {
    set p | p in pool && p.used :: p.id
  }

  /** What every run keeps: distinct ids, and exactly the drawn cards are used. */
  ghost predicate Sound(c: DrawCore, drawn: seq<string>) {
    NoDup(EntryIds(c.pool)) && NoDup(drawn) && UsedIds(c.pool) == set id | id in drawn
  }

  lemma MarkedIds(pool: seq<PoolEntry>, k: nat)
    requires k < |pool|
    ensures EntryIds(Marked(pool, k)) == EntryIds(pool)
    ensures UsedIds(Marked(pool, k)) == UsedIds(pool) + {pool[k].id}
  {
    var m := Marked(pool, k);
    assert m[k] in m && m[k].used;
    forall id | id in UsedIds(pool) ensures id in UsedIds(m) {
      var i :| 0 <= i < |pool| && pool[i].used && pool[i].id == id;
      assert m[i] in m && m[i].used && m[i].id == id;
    }
    forall id | id in UsedIds(m) ensures id in UsedIds(pool) + {pool[k].id} {
      var i :| 0 <= i < |m| && m[i].used && m[i].id == id;
      assert i != k ==> pool[i] in pool;
    }
  }

  lemma DrawKeepsSound(s: Server, c: DrawCore, q: Request, drawn: seq<string>)
    requires Sound(c, drawn) && !RepeatsUnknown(Known(c.pool), q.entries)
    ensures var (c', r) := Drawn(s, c, q);
            Sound(c', drawn + if r.Ok? then [r.value.cardId] else [])
  {
    var (c', r) := Drawn(s, c, q);
    var pool := Merged(c.pool, q.entries);
    MergeExtends(c.pool, q.entries);
    MergeKeepsDistinctExactlyWhen(c.pool, q.entries);
    assert UsedIds(pool) == UsedIds(c.pool) by {
      assert forall p :: p in c.pool ==> p in pool;
    }
    if r.Ok? {
      var k := Place(pool, q.chance.card).value;
      MarkedIds(pool, k);
      var drawn' := drawn + [pool[k].id];
      UnusedIsNotUsed(pool, k);
      assert pool[k].id !in drawn;
      assert (set id | id in drawn') == (set id | id in drawn) + {pool[k].id};
    } else {
      assert drawn + [] == drawn;
    }
  }

  lemma UnusedIsNotUsed(pool: seq<PoolEntry>, k: nat)
    requires NoDup(EntryIds(pool)) && k < |pool| && !pool[k].used
    ensures pool[k].id !in UsedIds(pool)
  {
    forall i | 0 <= i < |pool| && pool[i].used ensures pool[i].id != pool[k].id {
      assert i != k && EntryIds(pool)[i] == pool[i].id && EntryIds(pool)[k] == pool[k].id;
    }
  }

  // ---- reveals ----

  /** The last success for a round, if there is one. */
  function LastFor(rs: seq<DrawResult>, roundIndex: int): Option<DrawResult> {
    if rs == [] then None
    else if rs[|rs| - 1].roundIndex == roundIndex then Some(rs[|rs| - 1])
    else LastFor(rs[..|rs| - 1], roundIndex)
  }

  /** A secret opens the commitment published with the draw it belongs to. */
  predicate Opens(s: Server, secret: Secret, r: DrawResult) {
    && r.cardId == secret.cardId
    && r.commitment == secret.commitment == Commitment(s.sha, s.bytes(secret.fakeId), secret.nonce)
    && secret.fakeId in r.assignments && r.assignments[secret.fakeId].isFake
  }

  /** A draw that fails leaves the secrets alone; one that succeeds sets that of its round. */
  lemma DrawSetsItsSecret(s: Server, c: DrawCore, q: Request)
    ensures var (c', r) := Drawn(s, c, q);
            if r.Err? then c'.secrets == c.secrets
            else
              && q.roundIndex in c'.secrets && r.value.roundIndex == q.roundIndex
              && c'.secrets == c.secrets[q.roundIndex := c'.secrets[q.roundIndex]]
              && Opens(s, c'.secrets[q.roundIndex], r.value)
  {
    if Drawn(s, c, q).1.Ok? {
      ExactlyOneFake(s, c, q);
    }
  }

  lemma {:induction false} SecretsMatchTheLastDraw(s: Server, qs: seq<Request>, roundIndex: int)
    ensures var c, last := After(s, NO_DRAWS, qs), LastFor(Successes(s, NO_DRAWS, qs), roundIndex);
            && (roundIndex in c.secrets <==> last.Some?)
            && (last.Some? ==> Opens(s, c.secrets[roundIndex], last.value))
  {
    hide Drawn, Opens;
    if qs != [] {
      var n := |qs| - 1;
      SecretsMatchTheLastDraw(s, qs[..n], roundIndex);
      var before := After(s, NO_DRAWS, qs[..n]);
      DrawSetsItsSecret(s, before, qs[n]);
      var r := Drawn(s, before, qs[n]).1;
      var rs := Successes(s, NO_DRAWS, qs[..n]);
      if r.Ok? {
        assert (rs + [r.value])[..|rs|] == rs;
      } else {
        assert rs + [] == rs;
      }
    }
  }

  /** A browser id whose characters are those of the server's bytes. */
  ghost predicate SameText(id: JsString, bytes: Bytes) {
    Decoded(bytes, false) == Some(CodePoints(id, 0))
  }

  /**
   After any run of draws, a round can be revealed exactly when it was drawn; and a client that got
   the commitment of its last draw, and reads the revealed id as the same text, finds it verified.
   */
  lemma HonestRevealVerifies(s: Server, qs: seq<Request>, roundIndex: int, id: JsString)
    ensures var c, last := After(s, NO_DRAWS, qs), LastFor(Successes(s, NO_DRAWS, qs), roundIndex);
            && (Revealed(c, true, roundIndex).Ok? <==> last.Some?)
            && (last.Some? && SameText(id, s.bytes(Revealed(c, true, roundIndex).value.fakeId)) ==>
                 Verifies(s.sha, id, Revealed(c, true, roundIndex).value.nonce, last.value.commitment))
  {
    hide Base16, CodePoints, Encoded, Decoded, Unhexed, Drawn;
    SecretsMatchTheLastDraw(s, qs, roundIndex);
    var c := After(s, NO_DRAWS, qs);
    if roundIndex in c.secrets {
      var secret := c.secrets[roundIndex];
      HexRoundTrip(secret.nonce);
      if SameText(id, s.bytes(secret.fakeId)) {
        DecodedEncodes(s.bytes(secret.fakeId));
      }
    }
  }

  const NONCE_SIZE: nat := 16

  /** A Go string is its bytes. */
  ghost predicate TextIsBytes(s: Server) {
    forall x, y :: s.bytes(x) == s.bytes(y) ==> x == y
  }

  function FakeOf(q: Request): string
    requires q.players != []
  {
    q.players[q.chance.fake % |q.players|]
  }

  /**
   A second draw of a round replaces its secret by its own. With nonces of 16 bytes and no collisions,
   what the reveal then says opens the first draw's commitment exactly when the second chose the same
   fake and the same nonce.
   */
  lemma RedrawDropsTheFirst(s: Server, c: DrawCore, first: Request, second: Request, id: JsString)
    requires CollisionFree(s.sha) && TextIsBytes(s)
    requires |first.chance.nonce| == |second.chance.nonce| == NONCE_SIZE
    ensures var (c1, r1) := Drawn(s, c, first);
            var (c2, r2) := Drawn(s, c1, second);
            first.roundIndex == second.roundIndex && r1.Ok? && r2.Ok? ==>
              var shown := Revealed(c2, true, first.roundIndex);
              && shown.Ok? && shown.value.fakeId == FakeOf(second) && shown.value.nonce == Base16(second.chance.nonce)
              && (SameText(id, s.bytes(FakeOf(second))) ==>
                    (Verifies(s.sha, id, shown.value.nonce, r1.value.commitment)
                     <==> FakeOf(second) == FakeOf(first) && second.chance.nonce == first.chance.nonce))
  {
    hide Base16, Unhexed, CodePoints, Encoded, Decoded, Merged, Place;
    var (c1, r1) := Drawn(s, c, first);
    var (c2, r2) := Drawn(s, c1, second);
    if first.roundIndex == second.roundIndex && r1.Ok? && r2.Ok? {
      HexRoundTrip(second.chance.nonce);
      if SameText(id, s.bytes(FakeOf(second))) {
        DecodedEncodes(s.bytes(FakeOf(second)));
        SameOpening(s, FakeOf(first), first.chance.nonce, FakeOf(second), second.chance.nonce);
      }
    }
  }

  /** Among nonces of one length, equal commitments come from equal fakes and nonces. */
  lemma SameOpening(s: Server, fake: string, nonce: Bytes, fake': string, nonce': Bytes)
    requires CollisionFree(s.sha) && TextIsBytes(s) && |nonce| == |nonce'|
    ensures Commitment(s.sha, s.bytes(fake), nonce) == Commitment(s.sha, s.bytes(fake'), nonce')
            <==> fake == fake' && nonce == nonce'
  {
    hide Base16;
    var x, y := s.bytes(fake) + nonce, s.bytes(fake') + nonce';
    if Commitment(s.sha, s.bytes(fake), nonce) == Commitment(s.sha, s.bytes(fake'), nonce') {
      Base16IsInjective(s.sha(x), s.sha(y));
      assert x == y && |s.bytes(fake)| == |s.bytes(fake')|;
      assert x[..|s.bytes(fake)|] == s.bytes(fake) && y[..|s.bytes(fake)|] == s.bytes(fake');
      assert x[|s.bytes(fake)|..] == nonce && y[|s.bytes(fake)|..] == nonce';
    }
  }
}
