/** Who is sent what, and who is cut off, by each event of the signaling hub (internal/signal/hub.go:68-171). */
module HubDelivery {
  import opened Prelude
  import opened SignalHub

  /** The clients an event means to reach. */
  function Targets(h: HubCore, e: Event): set<Client> {
    match e
    case Broadcast(_, _, _) => h.clients
    case Direct(p, _, _) => if p in h.byPlayer then {h.byPlayer[p]} else {}
    case BroadcastRoom(room, _, _, _) => Members(h, room)
    case CloseRoom(room, _, _) => Members(h, room)
    case _ => {}
  }

  /** What it means to tell them. */
  function Says(e: Event): Message
    requires e.Broadcast? || e.Direct? || e.BroadcastRoom? || e.CloseRoom?
  {
    match e
    case Broadcast(msg, _, _) => msg
    case Direct(_, msg, _) => msg
    case BroadcastRoom(_, msg, _, _) => msg
    case CloseRoom(_, _, _) => RoomClosed
  }

  predicate Speaks(e: Event) {
    e.Broadcast? || e.Direct? || e.BroadcastRoom? || e.CloseRoom?
  }

  /** The clients an event cuts off: the one that leaves, the members of a closing room, and who is full. */
  predicate CutsOff(h: HubCore, e: Event, c: Client) {
    match e
    case Unregister(d) => c == d && c in h.clients
    case CloseRoom(_, _, _) => c in Targets(h, e)
    case Broadcast(_, _, full) => c in Targets(h, e) && c in full && c in h.clients
    case Direct(_, _, full) => c in Targets(h, e) && c in full && c in h.clients
    case BroadcastRoom(_, _, _, full) => c in Targets(h, e) && c in full && c in h.clients
    case _ => false
  }

  function One(b: bool): nat {
    if b then 1 else 0
  }

  // ---- sending ----

  lemma SentExactly(h: HubCore, d: Client, msg: Message, full: set<Client>, c: Client, m: Message)
    requires d !in h.closes
    ensures var h' := Sent(h, d, msg, full);
            && h'.sent[(c, m)] == h.sent[(c, m)] + One(c == d && m == msg && c !in full)
            && h'.closes[c] == h.closes[c] + One(c == d && c in full && c in h.clients)
            && (c in h'.clients <==> c in h.clients && !(c == d && c in full))
  {
  }

  lemma {:induction false} SentAllExactly(h: HubCore, order: seq<Client>, msg: Message, full: set<Client>, c: Client, m: Message)
    requires NoDup(order) && forall d :: d in order ==> d !in h.closes
    ensures var h' := SentAll(h, order, msg, full);
            && h'.sent[(c, m)] == h.sent[(c, m)] + One(c in order && m == msg && c !in full)
            && h'.closes[c] == h.closes[c] + One(c in order && c in full && c in h.clients)
            && (c in h'.clients <==> c in h.clients && !(c in order && c in full))
  {
    if order != [] {
      hide Sent;
      var front, last := order[..|order| - 1], order[|order| - 1];
      assert order == front + [last] && last !in front && last in order;
      SentAllExactly(h, front, msg, full, c, m);
      SentAllExactly(h, front, msg, full, last, m);
      SentExactly(SentAll(h, front, msg, full), last, msg, full, c, m);
    }
  }

  lemma ShutOutExactly(h: HubCore, d: Client, full: set<Client>, c: Client, m: Message)
    requires d !in h.closes
    ensures var h' := ShutOut(h, d, full);
            && h'.sent[(c, m)] == h.sent[(c, m)] + One(c == d && m == RoomClosed && c !in full)
            && h'.closes[c] == h.closes[c] + One(c == d)
            && (c in h'.clients <==> c in h.clients && c != d)
  {
  }

  lemma {:induction false} ShutOutAllExactly(h: HubCore, order: seq<Client>, full: set<Client>, c: Client, m: Message)
    requires NoDup(order) && forall d :: d in order ==> d !in h.closes
    ensures var h' := ShutOutAll(h, order, full);
            && h'.sent[(c, m)] == h.sent[(c, m)] + One(c in order && m == RoomClosed && c !in full)
            && h'.closes[c] == h.closes[c] + One(c in order)
            && (c in h'.clients <==> c in h.clients && c !in order)
  {
    if order != [] {
      hide ShutOut;
      var front, last := order[..|order| - 1], order[|order| - 1];
      assert order == front + [last] && last !in front && last in order;
      ShutOutAllExactly(h, front, full, c, m);
      ShutOutAllExactly(h, front, full, last, m);
      ShutOutExactly(ShutOutAll(h, front, full), last, full, c, m);
    }
  }

  /**
   Every event, exactly. A client is sent a message by it at most once: when the event means to reach it,
   says that message, and finds space. Its channel is closed by it exactly when the event cuts it off, and
   it is registered afterwards exactly if it was and is not cut off, or is registered by the event.
   */
  lemma DeliveredExactly(w: World, e: Event, c: Client, m: Message)
    requires WorldOk(w) && CanHappen(w.hub, e)
    ensures var h, h' := w.hub, Step(w, e).hub;
            && h'.sent[(c, m)] == h.sent[(c, m)] + One(Speaks(e) && c in Targets(h, e) && m == Says(e) && c !in e.full)
            && h'.closes[c] == h.closes[c] + One(CutsOff(h, e, c))
            && (c in h'.clients <==> (c in h.clients && !CutsOff(h, e, c)) || e == Register(c))
  {
    MapsHoldOpen(w);
    hide WorldOk, SentAll, ShutOutAll, LeftRoom;
    match e
    case Broadcast(msg, order, full) => SentAllExactly(w.hub, order, msg, full, c, m);
    case Direct(p, msg, full) => if p in w.hub.byPlayer { SentExactly(w.hub, w.hub.byPlayer[p], msg, full, c, m); }
    case BroadcastRoom(room, msg, order, full) => if room in w.hub.byRoom { SentAllExactly(w.hub, order, msg, full, c, m); }
    case CloseRoom(room, order, full) => if room in w.hub.byRoom { ShutOutAllExactly(w.hub, order, full, c, m); }
    case _ =>
  }

  // ---- the two maps ----

  /** The maps less some clients that were dropped. */
  ghost predicate Less(h: HubCore, h': HubCore, gone: set<Client>) {
    && h'.clients == h.clients - gone
    && (forall p :: p in h'.byPlayer <==> p in h.byPlayer && h.byPlayer[p] !in gone)
    && (forall p :: p in h'.byPlayer ==> h'.byPlayer[p] == h.byPlayer[p])
    && (forall r :: Members(h', r) == Members(h, r) - gone)
  }

  /** Clients are in the maps under their own names. */
  ghost predicate OwnNames(h: HubCore) {
    && (forall p :: p in h.byPlayer ==> h.byPlayer[p].playerId == p != "")
    && (forall r, c :: c in Members(h, r) ==> c.roomId == r != "")
  }

  lemma DroppedMaps(h: HubCore, c: Client)
    requires OwnNames(h)
    ensures Less(h, Dropped(h, c), if c in h.clients then {c} else {})
  {
    var h' := Dropped(h, c);
    forall r ensures Members(h', r) == Members(h, r) - if c in h.clients then {c} else {} {
    }
  }

  function Full(h: HubCore, order: seq<Client>, full: set<Client>): set<Client> {
    set c | c in order && c in full && c in h.clients
  }

  lemma SentMaps(h: HubCore, d: Client, msg: Message, full: set<Client>)
    requires OwnNames(h) && d !in h.closes
    ensures Less(h, Sent(h, d, msg, full), if d in full && d in h.clients then {d} else {})
  {
    hide Dropped;
    DroppedMaps(h, d);
  }

  lemma LessAndLess(h: HubCore, h1: HubCore, h2: HubCore, gone: set<Client>, more: set<Client>)
    requires OwnNames(h) && Less(h, h1, gone)
    ensures OwnNames(h1)
    ensures Less(h1, h2, more) ==> Less(h, h2, gone + more)
  {
    forall r, c | c in Members(h1, r) ensures c.roomId == r != "" {
      assert c in Members(h, r);
    }
    if Less(h1, h2, more) {
      forall r ensures Members(h2, r) == Members(h, r) - (gone + more) {
        assert Members(h1, r) == Members(h, r) - gone;
      }
    }
  }

  lemma {:induction false} SentAllMaps(h: HubCore, order: seq<Client>, msg: Message, full: set<Client>)
    requires OwnNames(h) && NoDup(order) && forall d :: d in order ==> d !in h.closes
    ensures Less(h, SentAll(h, order, msg, full), Full(h, order, full))
  {
    if order == [] {
      assert Full(h, order, full) == {};
    } else {
      hide Less, OwnNames, Sent;
      var front, last := order[..|order| - 1], order[|order| - 1];
      assert order == front + [last] && last !in front && last in order;
      var h1, more := SentAll(h, front, msg, full), if last in full && last in h.clients then {last} else {};
      assert Full(h, order, full) == Full(h, front, full) + more;
      SentAllMaps(h, front, msg, full);
      SentAllExactly(h, front, msg, full, last, msg);
      LessAndLess(h, h1, SentAll(h, order, msg, full), Full(h, front, full), more);
      SentMaps(h1, last, msg, full);
    }
  }

  lemma NamesAreOwn(w: World)
    requires WorldOk(w)
    ensures OwnNames(w.hub)
  {
    forall r, c | c in Members(w.hub, r) ensures c.roomId == r != "" {
      assert MembersOk(r, w.hub.byRoom[r], w.hub.closes, w.roomBound);
    }
  }

  /**
   After an event that closes no room a player is bound to the client just bound for it, or as before
   unless that client is cut off; and a room has the members it had, less those cut off, and the one that
   joins by it.
   */
  lemma BoundExactly(w: World, e: Event, p: string, r: string, c: Client)
    requires WorldOk(w) && CanHappen(w.hub, e) && !e.CloseRoom?
    ensures var h, h' := w.hub, Step(w, e).hub;
            && (if e.BindPlayer? && e.c.playerId == p != "" then p in h'.byPlayer && h'.byPlayer[p] == e.c
                else
                  && (p in h'.byPlayer <==> p in h.byPlayer && !CutsOff(h, e, h.byPlayer[p]))
                  && (p in h'.byPlayer ==> h'.byPlayer[p] == h.byPlayer[p]))
            && (c in Members(h', r) <==> (c in Members(h, r) && !CutsOff(h, e, c)) || (e == BindRoom(c) && c.roomId == r != ""))
  {
    MapsHoldOpen(w);
    NamesAreOwn(w);
    hide WorldOk, SentAll, Sent, Dropped, LeftRoom, OwnNames;
    match e
    case Unregister(d) => DroppedMaps(w.hub, d);
    case Broadcast(msg, order, full) => SentAllMaps(w.hub, order, msg, full);
    case Direct(q, msg, full) => if q in w.hub.byPlayer { SentMaps(w.hub, w.hub.byPlayer[q], msg, full); }
    case BroadcastRoom(room, msg, order, full) => if room in w.hub.byRoom { SentAllMaps(w.hub, order, msg, full); }
    case _ =>
  }

  /** A room that closes is empty afterwards, and the other rooms are as before. */
  lemma ClosedRoomIsEmpty(w: World, e: Event, r: string)
    requires WorldOk(w) && CanHappen(w.hub, e) && e.CloseRoom?
    ensures Members(Step(w, e).hub, r) == if r == e.room then {} else Members(w.hub, r)
  {
    hide WorldOk, ShutOut;
    ShutOutLeavesRooms(w.hub, e.order, e.full);
  }

  lemma {:induction false} ShutOutLeavesRooms(h: HubCore, order: seq<Client>, full: set<Client>)
    ensures ShutOutAll(h, order, full).byRoom == h.byRoom
  {
    if order != [] {
      ShutOutLeavesRooms(h, order[..|order| - 1], full);
    }
  }
}
