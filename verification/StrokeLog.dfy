/**
 The stroke log of frontend/p2p/log.ts: strokes under string keys, read back by a lexicographic
 range scan. Strings are sequences of UTF-16 code units, which is how the store orders them.
 */
module StrokeLogs {
  import opened Prelude
  import opened Models
  import opened ReplicaSpec
  import opened BufferDrain

  type Units = seq<int>

  const SLASH := 0x2F
  const LAST_UNIT := 0xFFFF

  /** The decimal numeral of n. */
  function Decimal(n: nat): (s: Units)
    ensures |s| >= 1
    ensures forall k :: 0 <= k < |s| ==> 0x30 <= s[k] <= 0x39
  {
    if n < 10 then [0x30 + n] else Decimal(n / 10) + [0x30 + n % 10]
  }

  function RoundPrefix(room: Units, round: nat): Units {
    room + [SLASH] + Decimal(round) + [SLASH]
  }

  function StrokeKey(room: Units, round: nat, index: nat): Units {
    RoundPrefix(room, round) + Decimal(index)
  }

  predicate LexLeq(a: Units, b: Units) {
    if a == [] then true
    else if b == [] then false
    else a[0] < b[0] || (a[0] == b[0] && LexLeq(a[1..], b[1..]))
  }

  /**
   `Number(s)` for what can follow a round prefix in a key: a numeral, or something with a '/' in
   it, which is not a number.
   */
  function ToNumber(s: Units): Option<nat> {
    if s == [] then Some(0)
    else if 0x30 <= s[|s| - 1] <= 0x39 then
      match ToNumber(s[..|s| - 1])
      case None => None
      case Some(n) => Some(10 * n + (s[|s| - 1] - 0x30))
    else None
  }

  predicate InRange(key: Units, lower: Units, upper: Units) {
    LexLeq(lower, key) && LexLeq(key, upper)
  }

  /** What one cursor position contributes to the result. */
  function Contribution(store: map<Units, Stroke>, prefix: Units, from: nat, key: Units): Option<Indexed>
    requires key in store
  {
    var index := if |key| >= |prefix| then ToNumber(key[|prefix|..]) else Some(0);
    if index.Some? && index.value >= from then Some(Indexed(index.value, store[key])) else None
  }

  // ---- the two records beside the strokes ----

  datatype LogMeta = LogMeta(lastRound: int, lastStroke: int, lastVersion: nat)

  datatype LogState = LogState(version: nat, state: GameState)

  function Prior(meta: map<Units, LogMeta>, room: Units, none: LogMeta): LogMeta {
    if room in meta then meta[room] else none
  }

  /** The floor recorded with a stroke. */
  function MetaAfterStroke(meta: map<Units, LogMeta>, room: Units, round: nat, index: nat): LogMeta {
    var prev := Prior(meta, room, LogMeta(round, -1, 0));
    LogMeta(Max(prev.lastRound, round), if round > prev.lastRound then index else Max(prev.lastStroke, index), prev.lastVersion)
  }

  /** The floor recorded with a state. */
  function MetaAfterState(meta: map<Units, LogMeta>, room: Units, version: nat, st: GameState): LogMeta {
    var round := if st.currentRound.Some? then Some(st.currentRound.value.index) else None;
    var prev := Prior(meta, room, LogMeta(if round.Some? then round.value else -1, -1, 0));
    LogMeta(if round.Some? then round.value else prev.lastRound, prev.lastStroke, Max(prev.lastVersion, version))
  }

  /** The floor after the first n strokes of a round, in order. */
  function MetaAfterStrokes(meta: map<Units, LogMeta>, room: Units, round: nat, n: nat): map<Units, LogMeta> {
    if n == 0 then meta
    else
      var before := MetaAfterStrokes(meta, room, round, n - 1);
      before[room := MetaAfterStroke(before, room, round, n - 1)]
  }

  lemma {:induction false} StrokesRaiseTheIndex(meta: map<Units, LogMeta>, room: Units, round: nat, n: nat)
    requires n > 0 && room in meta && meta[room].lastRound <= round
    ensures var after := MetaAfterStrokes(meta, room, round, n);
            && room in after && after[room].lastRound == round
            && after[room].lastStroke == if meta[room].lastRound < round then n - 1 else Max(meta[room].lastStroke, n - 1)
  {
    if n == 1 {
      assert MetaAfterStrokes(meta, room, round, 0) == meta;
    } else {
      StrokesRaiseTheIndex(meta, room, round, n - 1);
    }
  }

  /**
   The recorded stroke index starts again with a new round, unless the round's state is recorded
   before its strokes, as the host does: then it never falls below that of the old round.
   */
  lemma StateFirstKeepsTheOldIndex(meta: map<Units, LogMeta>, room: Units, version: nat, st: GameState, n: nat)
    requires n > 0 && room in meta && st.currentRound.Some? && meta[room].lastRound < st.currentRound.value.index
    ensures var round := st.currentRound.value.index;
            var shown := meta[room := MetaAfterState(meta, room, version, st)];
            var with, without := MetaAfterStrokes(shown, room, round, n), MetaAfterStrokes(meta, room, round, n);
            && room in with && with[room].lastStroke == Max(meta[room].lastStroke, n - 1)
            && room in without && without[room].lastStroke == n - 1
  {
    var round := st.currentRound.value.index;
    StrokesRaiseTheIndex(meta, room, round, n);
    StrokesRaiseTheIndex(meta[room := MetaAfterState(meta, room, version, st)], room, round, n);
  }

  // One write to the log.
  datatype Write = StrokeWrite(round: nat, index: nat) | StateWrite(version: nat, state: GameState)

  function MetaAfter(meta: map<Units, LogMeta>, room: Units, writes: seq<Write>): map<Units, LogMeta> {
    if writes == [] then meta
    else
      var before := MetaAfter(meta, room, writes[..|writes| - 1]);
      match writes[|writes| - 1]
      case StrokeWrite(round, index) => before[room := MetaAfterStroke(before, room, round, index)]
      case StateWrite(version, st) => before[room := MetaAfterState(before, room, version, st)]
  }

  /** The record's version is the largest that any state was written with, and 0 before the first. */
  lemma {:induction false} VersionIsTheLargest(room: Units, writes: seq<Write>)
    requires writes != []
    ensures var meta := MetaAfter(map[], room, writes);
            && room in meta
            && (forall i :: 0 <= i < |writes| && writes[i].StateWrite? ==> writes[i].version <= meta[room].lastVersion)
            && (meta[room].lastVersion == 0
                || exists i :: 0 <= i < |writes| && writes[i].StateWrite? && writes[i].version == meta[room].lastVersion)
  {
    var front, last := writes[..|writes| - 1], writes[|writes| - 1];
    if front == [] {
      assert MetaAfter(map[], room, front) == map[];
    } else {
      VersionIsTheLargest(room, front);
      var before := MetaAfter(map[], room, front);
      if before[room].lastVersion != 0 {
        var i :| 0 <= i < |front| && front[i].StateWrite? && front[i].version == before[room].lastVersion;
        assert writes[i] == front[i];
      }
    }
  }

  class StrokeLog {
    const roomId: Units
    var store: map<Units, Stroke>
    var meta: map<Units, LogMeta>
    var states: map<Units, LogState>

    constructor (roomId: Units, store: map<Units, Stroke>, meta: map<Units, LogMeta>, states: map<Units, LogState>)
      ensures this.roomId == roomId && this.store == store && this.meta == meta && this.states == states
    {
      this.roomId := roomId;
      this.store := store;
      this.meta := meta;
      this.states := states;
    }

    method AppendStroke(round: nat, index: nat, stroke: Stroke)
      modifies this`store, this`meta
      ensures store == old(store)[StrokeKey(roomId, round, index) := stroke]
      ensures meta == old(meta)[roomId := MetaAfterStroke(old(meta), roomId, round, index)]
    {
      store := store[StrokeKey(roomId, round, index) := stroke];
      var prev := if roomId in meta then meta[roomId] else LogMeta(round, -1, 0);
      var lastStroke := if round > prev.lastRound then index else Max(prev.lastStroke, index);
      meta := meta[roomId := LogMeta(Max(prev.lastRound, round), lastStroke, prev.lastVersion)];
    }

    method PutState(version: nat, st: GameState)
      modifies this`states, this`meta
      ensures states == old(states)[roomId := LogState(version, st)]
      ensures meta == old(meta)[roomId := MetaAfterState(old(meta), roomId, version, st)]
    {
      states := states[roomId := LogState(version, st)];
      var prev := if roomId in meta then meta[roomId]
                  else LogMeta(if st.currentRound.Some? then st.currentRound.value.index else -1, -1, 0);
      var lastRound := if st.currentRound.Some? then st.currentRound.value.index else prev.lastRound;
      meta := meta[roomId := LogMeta(lastRound, prev.lastStroke, Max(prev.lastVersion, version))];
    }

    /**
     The cursor loop and the final sort. The contract does not depend on the order in which the
     cursor visits the keys of the range.
     */
    method GetStrokesFrom(round: nat, from: nat) returns (out: seq<Indexed>)
      requires KeysAreStrokeKeys(store)
      ensures Ascending(out)
      ensures forall s :: s in out <==> Scanned(store, roomId, round, from, s)
    {
      var prefix := RoundPrefix(roomId, round);
      var todo := set k | k in store && InRange(k, prefix + Decimal(from), prefix + [LAST_UNIT]);
      ghost var all := todo;
      var found: seq<Indexed> := [];
      while todo != {}
        invariant todo <= all
        invariant forall s :: s in found <==> exists k :: k in all - todo && Contribution(store, prefix, from, k) == Some(s)
        invariant forall i, j :: 0 <= i < j < |found| ==> found[i].index != found[j].index
        decreases todo
      {
        var key :| key in todo;
        var c := Contribution(store, prefix, from, key);
        if c.Some? {
          forall s | s in found ensures s.index != c.value.index {
            var k :| k in all - todo && Contribution(store, prefix, from, k) == Some(s);
            ContributionsDiffer(store, roomId, round, from, k, key);
          }
          found := found + [c.value];
        }
        todo := todo - {key};
      }
      out := SortByIndex(found);
      SortedAscending(found);
      forall s ensures s in out <==> Scanned(store, roomId, round, from, s) {
        SortKeepsMembers(found, s);
        ScanFinds(store, roomId, round, from, s);
      }
    }

    /** Every key in the range of the room goes, and the room's two records. */
    method ClearRoom()
      modifies this
      ensures meta == old(meta) - {roomId} && states == old(states) - {roomId}
      ensures store.Keys == set k | k in old(store).Keys && !InRange(k, roomId + [SLASH], roomId + [SLASH, LAST_UNIT])
      ensures forall k :: k in store ==> store[k] == old(store)[k]
    {
      var doomed := set k | k in store && InRange(k, roomId + [SLASH], roomId + [SLASH, LAST_UNIT]);
      while doomed != {}
        invariant doomed <= old(store).Keys
        invariant store.Keys == set k | k in old(store).Keys && (k in doomed || !InRange(k, roomId + [SLASH], roomId + [SLASH, LAST_UNIT]))
        invariant forall k :: k in store ==> store[k] == old(store)[k]
        invariant meta == old(meta) && states == old(states)
        decreases doomed
      {
        var key :| key in doomed;
        store := store - {key};
        doomed := doomed - {key};
      }
      meta := meta - {roomId};
      states := states - {roomId};
    }
  }

  // ---- the specification of the scan ----

  ghost predicate KeysAreStrokeKeys(store: map<Units, Stroke>) {
    forall k :: k in store ==> exists room: Units, round: nat, index: nat :: k == StrokeKey(room, round, index)
  }

  ghost predicate Ascending(out: seq<Indexed>) {
    forall i, j :: 0 <= i < j < |out| ==> out[i].index < out[j].index
  }

  /** A stroke of this round at or above f whose numeral is not lexicographically below f's. */
  ghost predicate Scanned(store: map<Units, Stroke>, room: Units, round: nat, from: nat, s: Indexed) {
    && s.index >= from
    && StrokeKey(room, round, s.index) in store
    && store[StrokeKey(room, round, s.index)] == s.stroke
    && LexLeq(Decimal(from), Decimal(s.index))
  }

  // ---- lexicographic order ----

  lemma {:induction false} LexSamePrefix(p: Units, a: Units, b: Units)
    ensures LexLeq(p + a, p + b) <==> LexLeq(a, b)
  {
    if p == [] {
      assert p + a == a && p + b == b;
    } else {
      assert (p + a)[1..] == p[1..] + a && (p + b)[1..] == p[1..] + b;
      LexSamePrefix(p[1..], a, b);
    }
  }

  /** A string between two strings that begin with p begins with p itself. */
  lemma {:induction false} RangeHasPrefix(p: Units, x: Units, y: Units, key: Units)
    requires LexLeq(p + x, key) && LexLeq(key, p + y)
    ensures |key| >= |p| && key[..|p|] == p
  {
    if p != [] {
      assert (p + x)[1..] == p[1..] + x && (p + y)[1..] == p[1..] + y;
      RangeHasPrefix(p[1..], x, y, key[1..]);
      assert key[..|p|] == [key[0]] + key[1..][..|p| - 1];
    }
  }

  // ---- numerals ----

  lemma {:induction false} NumeralReadsBack(n: nat)
    ensures ToNumber(Decimal(n)) == Some(n)
  {
    if n >= 10 {
      NumeralReadsBack(n / 10);
      assert Decimal(n)[..|Decimal(n)| - 1] == Decimal(n / 10);
    } else {
      assert Decimal(n)[..0] == [];
    }
  }

  lemma {:induction false} SlashIsNoNumber(s: Units)
    requires SLASH in s
    ensures ToNumber(s).None?
  {
    if s[|s| - 1] != SLASH {
      SlashIsNoNumber(s[..|s| - 1]);
    }
  }

  lemma NoSlashInNumerals(n: nat)
    ensures SLASH !in Decimal(n)
  {
  }

  // ---- keys ----

  /** Splitting at the last slash is unambiguous. */
  lemma {:induction false} LastSlashSplits(a: Units, x: Units, b: Units, y: Units)
    requires a + [SLASH] + x == b + [SLASH] + y && SLASH !in x && SLASH !in y
    ensures a == b && x == y
  {
    var k := a + [SLASH] + x;
    assert k[|a|] == SLASH && k[|b|] == SLASH;
    assert forall j :: |a| < j < |k| ==> k[j] == x[j - |a| - 1];
    assert forall j :: |b| < j < |k| ==> k[j] == y[j - |b| - 1];
    assert |a| == |b|;
    assert a == k[..|a|] == b;
    assert x == k[|a| + 1..] == y;
  }

  /** Keys are injective for all rooms, with or without slashes in their ids. */
  lemma KeysAreInjective(room: Units, round: nat, index: nat, room': Units, round': nat, index': nat)
    requires StrokeKey(room, round, index) == StrokeKey(room', round', index')
    ensures room == room' && round == round' && index == index'
  {
    NoSlashInNumerals(index);
    NoSlashInNumerals(index');
    NoSlashInNumerals(round);
    NoSlashInNumerals(round');
    LastSlashSplits(room + [SLASH] + Decimal(round), Decimal(index), room' + [SLASH] + Decimal(round'), Decimal(index'));
    LastSlashSplits(room, Decimal(round), room', Decimal(round'));
    NumeralReadsBack(index);
    NumeralReadsBack(index');
    NumeralReadsBack(round);
    NumeralReadsBack(round');
  }

  /** A key that continues a round's prefix with a number is a key of that round. */
  lemma NumberedKeyIsOfTheRound(room: Units, round: nat, key: Units)
    requires exists r: Units, n: nat, i: nat :: key == StrokeKey(r, n, i)
    requires var p := RoundPrefix(room, round); |key| >= |p| && key[..|p|] == p && ToNumber(key[|p|..]).Some?
    ensures var p := RoundPrefix(room, round); key == StrokeKey(room, round, ToNumber(key[|p|..]).value)
  {
    var p := RoundPrefix(room, round);
    var tail := key[|p|..];
    var r: Units, n: nat, i: nat :| key == StrokeKey(r, n, i);
    if SLASH in tail {
      SlashIsNoNumber(tail);
    }
    NoSlashInNumerals(i);
    assert key == (room + [SLASH] + Decimal(round)) + [SLASH] + tail;
    LastSlashSplits(room + [SLASH] + Decimal(round), tail, r + [SLASH] + Decimal(n), Decimal(i));
    NumeralReadsBack(i);
  }

  /** The keys of the range that contribute are the round's own, one for each index. */
  lemma ContributionIs(store: map<Units, Stroke>, room: Units, round: nat, from: nat, key: Units, s: Indexed)
    requires KeysAreStrokeKeys(store) && key in store
    requires var p := RoundPrefix(room, round); InRange(key, p + Decimal(from), p + [LAST_UNIT])
    requires Contribution(store, RoundPrefix(room, round), from, key) == Some(s)
    ensures s.index >= 0 && key == StrokeKey(room, round, s.index) && Scanned(store, room, round, from, s)
  {
    var p := RoundPrefix(room, round);
    RangeHasPrefix(p, Decimal(from), [LAST_UNIT], key);
    NumberedKeyIsOfTheRound(room, round, key);
    LexSamePrefix(p, Decimal(from), Decimal(s.index));
  }

  lemma ContributionsDiffer(store: map<Units, Stroke>, room: Units, round: nat, from: nat, k: Units, k': Units)
    requires KeysAreStrokeKeys(store) && k in store && k' in store && k != k'
    requires var p := RoundPrefix(room, round);
             InRange(k, p + Decimal(from), p + [LAST_UNIT]) && InRange(k', p + Decimal(from), p + [LAST_UNIT])
    requires Contribution(store, RoundPrefix(room, round), from, k).Some? && Contribution(store, RoundPrefix(room, round), from, k').Some?
    ensures Contribution(store, RoundPrefix(room, round), from, k).value.index
         != Contribution(store, RoundPrefix(room, round), from, k').value.index
  {
    var p := RoundPrefix(room, round);
    ContributionIs(store, room, round, from, k, Contribution(store, p, from, k).value);
    ContributionIs(store, room, round, from, k', Contribution(store, p, from, k').value);
  }

  lemma ScanFinds(store: map<Units, Stroke>, room: Units, round: nat, from: nat, s: Indexed)
    requires KeysAreStrokeKeys(store)
    ensures var p := RoundPrefix(room, round);
            Scanned(store, room, round, from, s) <==>
            exists k :: k in store && InRange(k, p + Decimal(from), p + [LAST_UNIT]) && Contribution(store, p, from, k) == Some(s)
  {
    var p := RoundPrefix(room, round);
    if Scanned(store, room, round, from, s) {
      var k := StrokeKey(room, round, s.index);
      LexSamePrefix(p, Decimal(from), Decimal(s.index));
      LexSamePrefix(p, Decimal(s.index), [LAST_UNIT]);
      assert k[|p|..] == Decimal(s.index);
      NumeralReadsBack(s.index);
      assert Contribution(store, p, from, k) == Some(s);
    }
    if k :| k in store && InRange(k, p + Decimal(from), p + [LAST_UNIT]) && Contribution(store, p, from, k) == Some(s) {
      ContributionIs(store, room, round, from, k, s);
    }
  }

  // ---- sorting ----

  lemma {:induction false} InsertAscending(w: Indexed, sorted: seq<Indexed>)
    requires Ascending(sorted) && forall s :: s in sorted ==> s.index != w.index
    ensures Ascending(Insert(w, sorted))
  {
    if !(sorted == [] || sorted[|sorted| - 1].index <= w.index) {
      var front := sorted[..|sorted| - 1];
      InsertAscending(w, front);
      forall s | s in Insert(w, front) ensures s.index < sorted[|sorted| - 1].index {
        InsertKeepsMembers(w, front, s);
      }
    } else if sorted != [] {
      assert sorted[|sorted| - 1] in sorted;
    }
  }

  lemma {:induction false} SortedAscending(p: seq<Indexed>)
    requires forall i, j :: 0 <= i < j < |p| ==> p[i].index != p[j].index
    ensures Ascending(SortByIndex(p))
  {
    if p != [] {
      var front := p[..|p| - 1];
      SortedAscending(front);
      forall s | s in SortByIndex(front) ensures s.index != p[|p| - 1].index {
        SortKeepsMembers(front, s);
      }
      InsertAscending(p[|p| - 1], SortByIndex(front));
    }
  }
}
