/** The host half of the sync protocol: frontend/p2p/hostBridge.ts. */
module HostBridges {
  import opened Prelude
  import opened Models
  import opened ReplicaSpec
  import opened Transports
  import opened StrokeLogs

  function RoundIndexOf(st: GameState): nat {
    if st.currentRound.Some? then st.currentRound.value.index else 0
  }

  /** The strokes served from memory: those of the round asked for, from the index asked for. */
  function Served(st: GameState, roundIndex: nat, from: nat): seq<Frame> {
    if st.currentRound.None? || st.currentRound.value.index != roundIndex || from >= |st.currentRound.value.strokes| then []
    else
      var strokes := st.currentRound.value.strokes;
      seq(|strokes| - from, i requires 0 <= i < |strokes| - from => Frame(roundIndex, from + i, strokes[from + i]))
  }

  class HostBridge {
    // Envelopes handed to the peer hub: to everyone, and to one peer.
    var broadcasted: seq<Envelope>
    var direct: seq<(string, Envelope)>
    const log: StrokeLog?

    constructor (log: StrokeLog?)
      ensures broadcasted == [] && direct == [] && this.log == log
    {
      broadcasted, direct := [], [];
      this.log := log;
    }

    /** `st` and `version` are the engine's at the moment it emits. */
    method RelayBroadcast(evt: ServerEvent, st: GameState, version: nat)
      requires evt.StrokeAdded? ==> evt.strokeIndex >= 1
      modifies this`broadcasted, if log == null then {} else {log}
      ensures broadcasted == old(broadcasted) + [EventToEnv(evt, version, RoundIndexOf(st))]
      ensures log != null ==>
                var round := RoundIndexOf(st);
                if evt.StrokeAdded? && st.currentRound.Some? then
                  && log.store == old(log.store)[StrokeKey(log.roomId, round, evt.strokeIndex - 1) := evt.stroke]
                  && log.meta == old(log.meta)[log.roomId := MetaAfterStroke(old(log.meta), log.roomId, round, evt.strokeIndex - 1)]
                  && log.states == old(log.states)
                else if evt.StateUpdate? then
                  && log.store == old(log.store)
                  && log.meta == old(log.meta)[log.roomId := MetaAfterState(old(log.meta), log.roomId, version, evt.state)]
                  && log.states == old(log.states)[log.roomId := LogState(version, evt.state)]
                else log.store == old(log.store) && log.meta == old(log.meta) && log.states == old(log.states)
    {
      var env := EventToEnv(evt, version, RoundIndexOf(st));
      if log != null {
        if evt.StrokeAdded? && st.currentRound.Some? {
          log.AppendStroke(st.currentRound.value.index, evt.strokeIndex - 1, evt.stroke);
        } else if evt.StateUpdate? {
          log.PutState(version, evt.state);
        }
      }
      broadcasted := broadcasted + [env];
    }

    method RelayDirect(playerId: string, evt: ServerEvent, st: GameState, version: nat)
      modifies this`direct
      ensures direct == old(direct) + [(playerId, EventToEnv(evt, version, RoundIndexOf(st)))]
    {
      direct := direct + [(playerId, EventToEnv(evt, version, RoundIndexOf(st)))];
    }

    /** Without a log, the answer holds the round's strokes from `from` on, in order. */
    method ServeSyncReq(peerId: string, roundIndex: nat, from: nat, st: GameState, version: nat)
      requires log != null ==> KeysAreStrokeKeys(log.store)
      modifies this`direct
      ensures |direct| == |old(direct)| + 1 && direct[..|old(direct)|] == old(direct)
      ensures direct[|old(direct)|].0 == peerId
      ensures direct[|old(direct)|].1.SyncResEnv?
      ensures direct[|old(direct)|].1.resState == st && direct[|old(direct)|].1.resVersion == version
      ensures log == null ==> direct[|old(direct)|].1.strokes == Served(st, roundIndex, from)
      ensures log != null ==>
                var frames := direct[|old(direct)|].1.strokes;
                && (forall i, j :: 0 <= i < j < |frames| ==> frames[i].strokeIndex < frames[j].strokeIndex)
                && (forall f :: f in frames <==>
                      f.roundIndex == roundIndex && Scanned(log.store, log.roomId, roundIndex, from, Indexed(f.strokeIndex, f.stroke)))
    {
      var strokes: seq<Frame> := [];
      if log != null {
        var got := log.GetStrokesFrom(roundIndex, from);
        forall i | 0 <= i < |got| ensures got[i].index >= 0 && Scanned(log.store, log.roomId, roundIndex, from, got[i]) {
          assert got[i] in got;
        }
        strokes := seq(|got|, i requires 0 <= i < |got| => Frame(roundIndex, got[i].index, got[i].stroke));
        forall f ensures f in strokes <==>
          f.roundIndex == roundIndex && Scanned(log.store, log.roomId, roundIndex, from, Indexed(f.strokeIndex, f.stroke))
        {
          if f.roundIndex == roundIndex && Scanned(log.store, log.roomId, roundIndex, from, Indexed(f.strokeIndex, f.stroke)) {
            var i :| 0 <= i < |got| && got[i] == Indexed(f.strokeIndex, f.stroke);
            assert strokes[i] == f;
          }
        }
      } else if st.currentRound.Some? && st.currentRound.value.index == roundIndex {
        var r := st.currentRound.value;
        var i := from;
        while i < |r.strokes|
          invariant from <= i
          invariant from < |r.strokes| ==> i <= |r.strokes| && strokes == Served(st, roundIndex, from)[..i - from]
          invariant from >= |r.strokes| ==> strokes == []
        {
          assert Served(st, roundIndex, from)[..i + 1 - from] == Served(st, roundIndex, from)[..i - from] + [Served(st, roundIndex, from)[i - from]];
          strokes := strokes + [Frame(roundIndex, i, r.strokes[i])];
          i := i + 1;
        }
      }
      direct := direct + [(peerId, SyncResEnv(st, version, strokes))];
    }
  }
}
