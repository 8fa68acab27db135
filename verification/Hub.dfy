/**
 The signaling hub (internal/signal/hub.go): three maps over the connected clients, and the rule that
 a client's send channel is closed once and never written afterwards.

 A client is its socket's number with the player and room it was opened for. Of a send channel the model
 keeps what was sent on it, how often it was closed, and, for each event, whether it is full. A write to
 a closed channel, or a second close that nothing recovers from, is a panic.
 */
module SignalHub {
  import opened Prelude

  datatype Client = Client(socket: nat, playerId: string, roomId: string)

  datatype Message = Text(bytes: string) | RoomClosed

  datatype HubCore = HubCore(
    clients: set<Client>,
    byPlayer: map<string, Client>,
    byRoom: map<string, set<Client>>,
    sent: multiset<(Client, Message)>,
    closes: multiset<Client>,
    panicked: bool)

  const EMPTY_HUB := HubCore({}, map[], map[], multiset{}, multiset{}, false)

  // ---- what each case of the loop does ----

  function PlayerBound(h: HubCore, c: Client): HubCore {
    if c.playerId == "" then h else h.(byPlayer := h.byPlayer[c.playerId := c])
  }

  function Members(h: HubCore, room: string): set<Client> {
    if room in h.byRoom then h.byRoom[room] else {}
  }

  function RoomBound(h: HubCore, c: Client): HubCore {
    if c.roomId == "" then h else h.(byRoom := h.byRoom[c.roomId := Members(h, c.roomId) + {c}])
  }

  function LeftRoom(byRoom: map<string, set<Client>>, c: Client): map<string, set<Client>> {
    if c.roomId == "" || c.roomId !in byRoom then byRoom
    else if byRoom[c.roomId] - {c} == {} then byRoom - {c.roomId}
    else byRoom[c.roomId := byRoom[c.roomId] - {c}]
  }

  /** dropClient: a client that is not registered is left alone; the close is recovered from. */
  function Dropped(h: HubCore, c: Client): HubCore {
    if c !in h.clients then h
    else h.(
      clients := h.clients - {c},
      byPlayer := if c.playerId != "" && c.playerId in h.byPlayer && h.byPlayer[c.playerId] == c then h.byPlayer - {c.playerId} else h.byPlayer,
      byRoom := LeftRoom(h.byRoom, c),
      closes := if c in h.closes then h.closes else h.closes + multiset{c})
  }

  /** trySend: a full client is dropped. */
  function Sent(h: HubCore, c: Client, msg: Message, full: set<Client>): HubCore {
    if c in h.closes then h.(panicked := true)
    else if c in full then Dropped(h, c)
    else h.(sent := h.sent + multiset{(c, msg)})
  }

  /** One message to each client of a list. */
  function SentAll(h: HubCore, order: seq<Client>, msg: Message, full: set<Client>): HubCore {
    if order == [] then h
    else Sent(SentAll(h, order[..|order| - 1], msg, full), order[|order| - 1], msg, full)
  }

  /** A member of a room that closes: told so if there is space, closed, and forgotten. */
  function ShutOut(h: HubCore, c: Client, full: set<Client>): HubCore {
    if c in h.closes then h.(panicked := true)
    else h.(
      sent := if c in full then h.sent else h.sent + multiset{(c, RoomClosed)},
      closes := h.closes + multiset{c},
      clients := h.clients - {c},
      byPlayer := if c.playerId != "" then h.byPlayer - {c.playerId} else h.byPlayer)
  }

  function ShutOutAll(h: HubCore, order: seq<Client>, full: set<Client>): HubCore {
    if order == [] then h else ShutOut(ShutOutAll(h, order[..|order| - 1], full), order[|order| - 1], full)
  }

  // An event, with the order in which a map happens to be walked and the clients that are full.
  datatype Event =
    | Register(c: Client)
    | BindPlayer(c: Client)
    | BindRoom(c: Client)
    | Unregister(c: Client)
    | Broadcast(msg: Message, order: seq<Client>, full: set<Client>)
    | Direct(playerId: string, msg: Message, full: set<Client>)
    | BroadcastRoom(room: string, msg: Message, order: seq<Client>, full: set<Client>)
    | CloseRoom(room: string, order: seq<Client>, full: set<Client>)

  /** order lists the set, each member once. */
  ghost predicate Walks(order: seq<Client>, s: set<Client>) {
    NoDup(order) && s == set c | c in order
  }

  function Next(h: HubCore, e: Event): HubCore {
    match e
    case Register(c) => h.(clients := h.clients + {c})
    case BindPlayer(c) => PlayerBound(h, c)
    case BindRoom(c) => RoomBound(h, c)
    case Unregister(c) => Dropped(h, c)
    case Broadcast(msg, order, full) => SentAll(h, order, msg, full)
    case Direct(playerId, msg, full) => if playerId in h.byPlayer then Sent(h, h.byPlayer[playerId], msg, full) else h
    case BroadcastRoom(room, msg, order, full) => if room in h.byRoom then SentAll(h, order, msg, full) else h
    case CloseRoom(room, order, full) =>
      if room !in h.byRoom then h
      else
        var h' := ShutOutAll(h, order, full);
        h'.(byRoom := h'.byRoom - {room})
  }

  // ---- the object ----

  class Hub {
    var clients: set<Client>
    var byPlayer: map<string, Client>
    var byRoom: map<string, set<Client>>
    var sent: multiset<(Client, Message)>
    var closes: multiset<Client>
    var panicked: bool

    constructor ()
      ensures Core() == EMPTY_HUB
    {
      clients, byPlayer, byRoom := {}, map[], map[];
      sent, closes, panicked := multiset{}, multiset{}, false;
    }

    function Core(): HubCore
      reads this
    {
      HubCore(clients, byPlayer, byRoom, sent, closes, panicked)
    }

    method OnRegister(c: Client)
      modifies this`clients
      ensures Core() == Next(old(Core()), Register(c))
    {
      clients := clients + {c};
    }

    method OnBindPlayer(c: Client)
      modifies this`byPlayer
      ensures Core() == Next(old(Core()), BindPlayer(c))
    {
      if c.playerId != "" {
        byPlayer := byPlayer[c.playerId := c];
      }
    }

    method OnBindRoom(c: Client)
      modifies this`byRoom
      ensures Core() == Next(old(Core()), BindRoom(c))
    {
      if c.roomId != "" {
        if c.roomId !in byRoom {
          byRoom := byRoom[c.roomId := {}];
        }
        byRoom := byRoom[c.roomId := byRoom[c.roomId] + {c}];
      }
    }

    method DropClient(c: Client)
      modifies this
      ensures Core() == Dropped(old(Core()), c)
    {
      if c !in clients {
        return;
      }
      clients := clients - {c};
      if c.playerId != "" {
        if c.playerId in byPlayer && byPlayer[c.playerId] == c {
          byPlayer := byPlayer - {c.playerId};
        }
      }
      if c.roomId != "" && c.roomId in byRoom {
        ghost var before := byRoom;
        byRoom := byRoom[c.roomId := byRoom[c.roomId] - {c}];
        if byRoom[c.roomId] == {} {
          byRoom := byRoom - {c.roomId};
          assert byRoom == before - {c.roomId};
        }
      }
      if c !in closes {
        closes := closes + multiset{c};
      }
    }

    method TrySend(c: Client, msg: Message, full: set<Client>)
      modifies this
      ensures Core() == Sent(old(Core()), c, msg, full)
    {
      if c in closes {
        panicked := true;
      } else if c in full {
        DropClient(c);
      } else {
        sent := sent + multiset{(c, msg)};
      }
    }

    /** The loop over a map of clients. */
    method SendToAll(targets: set<Client>, msg: Message, full: set<Client>) returns (ghost order: seq<Client>)
      modifies this
      ensures Walks(order, targets) && Core() == SentAll(old(Core()), order, msg, full)
    {
      hide Walks, Sent;
      order := [];
      WalksNothing();
      SentNothing(Core(), msg, full);
      assert targets - targets == {};
      var todo := targets;
      while todo != {}
        invariant todo <= targets
        invariant Walks(order, targets - todo)
        invariant Core() == SentAll(old(Core()), order, msg, full)
        decreases |todo|
      {
        var c :| c in todo;
        ghost var before := targets - todo;
        WalksOn(order, before, c);
        todo := todo - {c};
        assert targets - todo == before + {c};
        TrySend(c, msg, full);
        SentOneMore(old(Core()), order, c, msg, full);
        order := order + [c];
      }
      assert targets - todo == targets;
    }

    method OnBroadcast(msg: Message, full: set<Client>) returns (ghost order: seq<Client>)
      modifies this
      ensures Walks(order, old(clients)) && Core() == Next(old(Core()), Broadcast(msg, order, full))
    {
      order := SendToAll(clients, msg, full);
    }

    method OnDirect(playerId: string, msg: Message, full: set<Client>)
      modifies this
      ensures Core() == Next(old(Core()), Direct(playerId, msg, full))
    {
      if playerId in byPlayer {
        TrySend(byPlayer[playerId], msg, full);
      }
    }

    method OnBroadcastRoom(room: string, msg: Message, full: set<Client>) returns (ghost order: seq<Client>)
      modifies this
      ensures Walks(order, Members(old(Core()), room)) && Core() == Next(old(Core()), BroadcastRoom(room, msg, order, full))
    {
      order := [];
      if room in byRoom {
        order := SendToAll(byRoom[room], msg, full);
      }
    }

    method OnCloseRoom(room: string, full: set<Client>) returns (ghost order: seq<Client>)
      modifies this
      ensures Walks(order, Members(old(Core()), room)) && Core() == Next(old(Core()), CloseRoom(room, order, full))
    {
      hide Walks, ShutOut;
      order := [];
      WalksNothing();
      ghost var targets := Members(Core(), room);
      if room !in byRoom {
        return;
      }
      var todo := byRoom[room];
      assert targets - todo == {};
      ghost var h := Core();
      ShutOutNothing(h, full);
      while todo != {}
        invariant todo <= targets
        invariant Walks(order, targets - todo)
        invariant Core() == ShutOutAll(h, order, full)
        decreases |todo|
      {
        var c :| c in todo;
        ghost var before := targets - todo;
        WalksOn(order, before, c);
        todo := todo - {c};
        assert targets - todo == before + {c};
        ShutOutMember(c, full);
        ShutOutOneMore(h, order, c, full);
        order := order + [c];
      }
      assert targets - todo == targets;
      byRoom := byRoom - {room};
    }

    /** The body of that loop. */
    method ShutOutMember(c: Client, full: set<Client>)
      modifies this
      ensures Core() == ShutOut(old(Core()), c, full)
    {
      if c in closes {
        panicked := true;
        return;
      }
      if c !in full {
        sent := sent + multiset{(c, RoomClosed)};
      }
      closes := closes + multiset{c};
      clients := clients - {c};
      assert byPlayer == old(byPlayer) && byRoom == old(byRoom) && panicked == old(panicked);
      if c.playerId != "" {
        byPlayer := byPlayer - {c.playerId};
      }
    }
  }

  lemma WalksNothing()
    ensures Walks([], {})
  {
  }

  lemma WalksOn(order: seq<Client>, s: set<Client>, c: Client)
    requires Walks(order, s) && c !in s
    ensures Walks(order + [c], s + {c})
  {
  }

  lemma SentNothing(h: HubCore, msg: Message, full: set<Client>)
    ensures SentAll(h, [], msg, full) == h
  {
  }

  lemma SentOneMore(h: HubCore, order: seq<Client>, c: Client, msg: Message, full: set<Client>)
    ensures SentAll(h, order + [c], msg, full) == Sent(SentAll(h, order, msg, full), c, msg, full)
  {
    assert (order + [c])[..|order|] == order;
  }

  lemma ShutOutNothing(h: HubCore, full: set<Client>)
    ensures ShutOutAll(h, [], full) == h
  {
  }

  lemma ShutOutOneMore(h: HubCore, order: seq<Client>, c: Client, full: set<Client>)
    ensures ShutOutAll(h, order + [c], full) == ShutOut(ShutOutAll(h, order, full), c, full)
  {
    assert (order + [c])[..|order|] == order;
  }

  // ---- when a client's channel is closed for good ----

  /** The set-up events that put a client into a map although its channel is closed already. */
  predicate Late(h: HubCore, e: Event) {
    match e
    case Register(c) => c in h.closes
    case BindPlayer(c) => c.playerId != "" && c in h.closes
    case BindRoom(c) => c.roomId != "" && c in h.closes
    case _ => false
  }

  /** A walk over a map meets each of its clients once; nothing else is asked of an event. */
  ghost predicate CanHappen(h: HubCore, e: Event) {
    match e
    case Broadcast(_, order, _) => Walks(order, h.clients)
    case BroadcastRoom(room, _, order, _) => Walks(order, Members(h, room))
    case CloseRoom(room, order, _) => Walks(order, Members(h, room))
    case _ => true
  }

  /** Some map holds a client whose channel is closed. */
  ghost predicate HoldsClosed(h: HubCore) {
    || (exists c :: c in h.clients && c in h.closes)
    || (exists p :: p in h.byPlayer && h.byPlayer[p] in h.closes)
    || (exists r, c :: r in h.byRoom && c in h.byRoom[r] && c in h.closes)
  }

  ghost predicate CanPanic(h: HubCore) {
    exists e :: CanHappen(h, e) && Next(h, e).panicked
  }

  lemma {:induction false} SomeOrder(s: set<Client>) returns (order: seq<Client>)
    ensures Walks(order, s)
    decreases |s|
  {
    order := [];
    if s != {} {
      var c :| c in s;
      order := SomeOrder(s - {c});
      WalksOn(order, s - {c}, c);
      assert s == s - {c} + {c};
      order := order + [c];
    }
  }

  /** Sending to a list panics exactly when it meets a client that was closed before. */
  lemma {:induction false} SentAllPanics(h: HubCore, order: seq<Client>, msg: Message, full: set<Client>)
    requires NoDup(order) && !h.panicked
    ensures SentAll(h, order, msg, full).panicked <==> exists c :: c in order && c in h.closes
    ensures forall c :: c in SentAll(h, order, msg, full).closes ==> c in h.closes || c in order
    ensures forall c :: c in h.closes ==> c in SentAll(h, order, msg, full).closes
  {
    if order != [] {
      var front, last := order[..|order| - 1], order[|order| - 1];
      assert order == front + [last];
      assert last !in front;
      SentAllPanics(h, front, msg, full);
      SentPanics(SentAll(h, front, msg, full), last, msg, full);
    }
  }

  lemma SentPanics(h: HubCore, c: Client, msg: Message, full: set<Client>)
    ensures Sent(h, c, msg, full).panicked <==> h.panicked || c in h.closes
    ensures forall x :: x in Sent(h, c, msg, full).closes ==> x in h.closes || x == c
    ensures forall x :: x in h.closes ==> x in Sent(h, c, msg, full).closes
  {
  }

  lemma {:induction false} ShutOutAllPanics(h: HubCore, order: seq<Client>, full: set<Client>)
    requires NoDup(order) && !h.panicked
    ensures ShutOutAll(h, order, full).panicked <==> exists c :: c in order && c in h.closes
    ensures forall c :: c in ShutOutAll(h, order, full).closes ==> c in h.closes || c in order
    ensures forall c :: c in h.closes ==> c in ShutOutAll(h, order, full).closes
  {
    if order != [] {
      var front, last := order[..|order| - 1], order[|order| - 1];
      assert order == front + [last];
      assert last !in front;
      ShutOutAllPanics(h, front, full);
      ShutOutPanics(ShutOutAll(h, front, full), last, full);
    }
  }

  lemma ShutOutPanics(h: HubCore, c: Client, full: set<Client>)
    ensures ShutOut(h, c, full).panicked <==> h.panicked || c in h.closes
    ensures forall x :: x in ShutOut(h, c, full).closes ==> x in h.closes || x == c
    ensures forall x :: x in h.closes ==> x in ShutOut(h, c, full).closes
  {
  }

  lemma PanickingEvent(h: HubCore, e: Event)
    requires !h.panicked && CanHappen(h, e) && Next(h, e).panicked
    ensures HoldsClosed(h)
  {
    hide SentAll, ShutOutAll;
    match e
    case Broadcast(msg, order, full) => SentAllPanics(h, order, msg, full);
    case Direct(p, msg, full) => assert h.byPlayer[p] in h.closes;
    case BroadcastRoom(room, msg, order, full) =>
      SentAllPanics(h, order, msg, full);
      assert exists c :: c in h.byRoom[room] && c in h.closes;
    case CloseRoom(room, order, full) =>
      ShutOutAllPanics(h, order, full);
      assert exists c :: c in h.byRoom[room] && c in h.closes;
    case _ =>
  }

  /** The next event can make the hub panic exactly when some map holds a closed client. */
  lemma CanPanicExactlyWhen(h: HubCore)
    requires !h.panicked
    ensures CanPanic(h) <==> HoldsClosed(h)
  {
    hide SentAll, ShutOutAll;
    if e :| CanHappen(h, e) && Next(h, e).panicked {
      PanickingEvent(h, e);
    }
    if c :| c in h.clients && c in h.closes {
      var order := SomeOrder(h.clients);
      SentAllPanics(h, order, Text(""), {});
      assert CanHappen(h, Broadcast(Text(""), order, {}));
      assert Next(h, Broadcast(Text(""), order, {})).panicked;
    } else if p :| p in h.byPlayer && h.byPlayer[p] in h.closes {
      assert CanHappen(h, Direct(p, Text(""), {}));
      assert Next(h, Direct(p, Text(""), {})).panicked;
    } else if r, c :| r in h.byRoom && c in h.byRoom[r] && c in h.closes {
      var order := SomeOrder(h.byRoom[r]);
      SentAllPanics(h, order, Text(""), {});
      assert c in order;
      assert CanHappen(h, BroadcastRoom(r, Text(""), order, {}));
      assert Next(h, BroadcastRoom(r, Text(""), order, {})).panicked;
    }
  }

  // ---- runs ----

  // Which of a client's three set-up events have been handled.
  datatype World = World(hub: HubCore, registered: set<Client>, playerBound: set<Client>, roomBound: set<Client>)

  const START := World(EMPTY_HUB, {}, {}, {})

  function Step(w: World, e: Event): World {
    World(
      Next(w.hub, e),
      if e.Register? then w.registered + {e.c} else w.registered,
      if e.BindPlayer? then w.playerBound + {e.c} else w.playerBound,
      if e.BindRoom? then w.roomBound + {e.c} else w.roomBound)
  }

  function Run(w: World, events: seq<Event>): World
    decreases |events|
  {
    if events == [] then w else Run(Step(w, events[0]), events[1..])
  }

  ghost predicate CanRun(w: World, events: seq<Event>)
    decreases |events|
  {
    events != [] ==> CanHappen(w.hub, events[0]) && CanRun(Step(w, events[0]), events[1..])
  }

  /** Some set-up event of the run is handled after its client's channel was closed. */
  predicate SomeLate(w: World, events: seq<Event>)
    decreases |events|
  {
    events != [] && (Late(w.hub, events[0]) || SomeLate(Step(w, events[0]), events[1..]))
  }

  /** At some point of the run one more event would make the hub panic. */
  ghost predicate CouldPanic(w: World, events: seq<Event>)
    decreases |events|
  {
    CanPanic(w.hub) || (events != [] && CouldPanic(Step(w, events[0]), events[1..]))
  }

  // ---- what every event keeps that is not late ----

  /** Registered clients are those handled and not closed; nothing is closed twice. */
  ghost predicate ChannelsOk(w: World) {
    && !w.hub.panicked
    && (forall c :: w.hub.closes[c] <= 1)
    && (forall c :: c in w.hub.clients <==> c in w.registered && c !in w.hub.closes)
  }

  ghost predicate PlayersOk(w: World) {
    forall p :: p in w.hub.byPlayer ==>
      var c := w.hub.byPlayer[p];
      p != "" && c.playerId == p && c in w.playerBound && c !in w.hub.closes
  }

  predicate MembersOk(room: string, members: set<Client>, closes: multiset<Client>, bound: set<Client>) {
    room != "" && forall c :: c in members ==> c.roomId == room && c in bound && c !in closes
  }

  /** The rooms hold exactly the clients bound to them and not closed, and no room is empty. */
  ghost predicate RoomsOk(byRoom: map<string, set<Client>>, closes: multiset<Client>, bound: set<Client>) {
    && (forall r :: r in byRoom ==> byRoom[r] != {})
    && (forall r :: r in byRoom ==> MembersOk(r, byRoom[r], closes, bound))
    && (forall c :: c in bound && c.roomId != "" && c !in closes ==> c.roomId in byRoom && c in byRoom[c.roomId])
  }

  ghost predicate WorldOk(w: World) {
    ChannelsOk(w) && PlayersOk(w) && RoomsOk(w.hub.byRoom, w.hub.closes, w.roomBound)
  }

  lemma DropKeeps(w: World, c: Client)
    requires WorldOk(w)
    ensures WorldOk(w.(hub := Dropped(w.hub, c))) && (c in w.registered ==> c in Dropped(w.hub, c).closes)
  {
    if c in w.hub.clients {
      var h, h' := w.hub, Dropped(w.hub, c);
      LeftRoomKeeps(h.byRoom, h.closes, w.roomBound, c);
      hide LeftRoom, RoomsOk;
      assert h'.closes == h.closes + multiset{c};
      assert forall x :: x in h'.closes <==> x in h.closes || x == c;
    }
  }

  lemma LeftRoomKeeps(byRoom: map<string, set<Client>>, closes: multiset<Client>, bound: set<Client>, c: Client)
    requires RoomsOk(byRoom, closes, bound) && c !in closes
    ensures RoomsOk(LeftRoom(byRoom, c), closes + multiset{c}, bound)
  {
    var closes', byRoom' := closes + multiset{c}, LeftRoom(byRoom, c);
    assert forall x :: x in closes' <==> x in closes || x == c;
    forall r | r in byRoom' ensures byRoom'[r] != {} && MembersOk(r, byRoom'[r], closes', bound) {
      assert r in byRoom && MembersOk(r, byRoom[r], closes, bound);
      assert byRoom'[r] == byRoom[r] - {c};
    }
    forall x | x in bound && x.roomId != "" && x !in closes' ensures x.roomId in byRoom' && x in byRoom'[x.roomId] {
      assert x in byRoom[x.roomId] - {c};
    }
  }

  lemma SendKeeps(w: World, c: Client, msg: Message, full: set<Client>)
    requires WorldOk(w) && c !in w.hub.closes
    ensures WorldOk(w.(hub := Sent(w.hub, c, msg, full)))
    ensures forall x :: x in Sent(w.hub, c, msg, full).closes ==> x in w.hub.closes || x == c
  {
    if c in full {
      DropKeeps(w, c);
    }
  }

  lemma {:induction false} SendAllKeeps(w: World, order: seq<Client>, msg: Message, full: set<Client>)
    requires WorldOk(w) && NoDup(order)
    requires forall c :: c in order ==> c !in w.hub.closes
    ensures WorldOk(w.(hub := SentAll(w.hub, order, msg, full)))
    ensures forall x :: x in SentAll(w.hub, order, msg, full).closes ==> x in w.hub.closes || x in order
  {
    hide WorldOk, Sent;
    if order != [] {
      var n := |order| - 1;
      var front, last := order[..n], order[n];
      assert order == front + [last];
      SendAllKeeps(w, front, msg, full);
      assert last in order && last !in front;
      SendKeeps(w.(hub := SentAll(w.hub, front, msg, full)), last, msg, full);
    }
  }

  /** While a room closes, its members shut out so far are the only ones still in its set though closed. */
  ghost predicate Closing(w: World, h: HubCore, room: string, gone: set<Client>) {
    && h.byRoom == w.hub.byRoom
    && !h.panicked
    && (forall c :: h.closes[c] == w.hub.closes[c] + if c in gone then 1 else 0)
    && h.clients == w.hub.clients - gone
    && (forall p :: p in h.byPlayer <==> p in w.hub.byPlayer && forall c :: c in gone ==> c.playerId != p)
    && (forall p :: p in h.byPlayer ==> h.byPlayer[p] == w.hub.byPlayer[p])
  }

  lemma {:induction false} ShutOutAllCloses(w: World, room: string, order: seq<Client>, full: set<Client>)
    requires WorldOk(w) && NoDup(order) && forall c :: c in order ==> c !in w.hub.closes
    ensures Closing(w, ShutOutAll(w.hub, order, full), room, set c | c in order)
  {
    if order != [] {
      var n := |order| - 1;
      var front, last := order[..n], order[n];
      assert order == front + [last];
      ShutOutAllCloses(w, room, front, full);
      assert last !in front;
      assert (set c | c in order) == (set c | c in front) + {last};
      assert w.hub.closes[last] == 0;
      OneShutOut(w, ShutOutAll(w.hub, front, full), room, (set c | c in front), last, full);
    } else {
      assert (set c | c in order) == {};
    }
  }

  lemma OneShutOut(w: World, h: HubCore, room: string, gone: set<Client>, c: Client, full: set<Client>)
    requires WorldOk(w) && Closing(w, h, room, gone) && c !in gone && c !in w.hub.closes
    ensures Closing(w, ShutOut(h, c, full), room, gone + {c})
  {
    assert h.closes[c] == 0;
    assert c.playerId == "" ==> c.playerId !in w.hub.byPlayer;
  }

  lemma CloseRoomKeeps(w: World, e: Event)
    requires WorldOk(w) && CanHappen(w.hub, e) && e.CloseRoom?
    ensures WorldOk(Step(w, e))
    ensures e.room in w.hub.byRoom ==> forall c :: c in w.hub.byRoom[e.room] ==> Step(w, e).hub.closes[c] == 1
  {
    if e.room in w.hub.byRoom {
      var gone := w.hub.byRoom[e.room];
      MembersAreOpen(w, e.room);
      ShutOutAllCloses(w, e.room, e.order, e.full);
      var h := ShutOutAll(w.hub, e.order, e.full);
      ClosedIffGone(w, h, e.room, gone);
      ClosedRoomLeaves(w.hub.byRoom, w.hub.closes, h.closes, w.roomBound, e.room);
      ClosedChannelsOk(w, h, e.room, gone);
      ClosedPlayersOk(w, h, e.room, gone);
      hide RoomsOk, Walks, ShutOutAll, ChannelsOk, PlayersOk;
      assert Step(w, e) == w.(hub := h.(byRoom := h.byRoom - {e.room}));
      StillOk(w.(hub := h), h.byRoom - {e.room});
    }
  }

  lemma MembersAreOpen(w: World, room: string)
    requires WorldOk(w) && room in w.hub.byRoom
    ensures forall c :: c in w.hub.byRoom[room] ==> w.hub.closes[c] == 0
  {
    assert MembersOk(room, w.hub.byRoom[room], w.hub.closes, w.roomBound);
  }

  lemma ClosedChannelsOk(w: World, h: HubCore, room: string, gone: set<Client>)
    requires WorldOk(w) && Closing(w, h, room, gone)
    requires forall c :: c in gone ==> w.hub.closes[c] == 0
    ensures ChannelsOk(w.(hub := h))
  {
    hide RoomsOk, PlayersOk;
    ClosedIffGone(w, h, room, gone);
  }

  lemma ClosedPlayersOk(w: World, h: HubCore, room: string, gone: set<Client>)
    requires WorldOk(w) && Closing(w, h, room, gone)
    ensures PlayersOk(w.(hub := h))
  {
    hide RoomsOk, ChannelsOk;
    ClosedIffGone(w, h, room, gone);
  }

  lemma StillOk(w: World, byRoom: map<string, set<Client>>)
    requires ChannelsOk(w) && PlayersOk(w) && RoomsOk(byRoom, w.hub.closes, w.roomBound)
    ensures WorldOk(w.(hub := w.hub.(byRoom := byRoom)))
  {
    hide RoomsOk;
  }

  lemma ClosedRoomLeaves(byRoom: map<string, set<Client>>, closes: multiset<Client>, closes': multiset<Client>, bound: set<Client>, room: string)
    requires RoomsOk(byRoom, closes, bound) && room in byRoom
    requires forall c :: c in closes' <==> c in closes || c in byRoom[room]
    ensures RoomsOk(byRoom - {room}, closes', bound)
  {
    forall r | r in byRoom && r != room ensures MembersOk(r, byRoom[r], closes', bound) {
      assert MembersOk(room, byRoom[room], closes, bound) && MembersOk(r, byRoom[r], closes, bound);
    }
  }

  lemma ClosedIffGone(w: World, h: HubCore, room: string, gone: set<Client>)
    requires Closing(w, h, room, gone)
    ensures forall c :: c in h.closes <==> c in w.hub.closes || c in gone
  {
  }

  lemma RegisterKeeps(w: World, c: Client)
    requires WorldOk(w) && !Late(w.hub, Register(c))
    ensures WorldOk(Step(w, Register(c)))
  {
    hide RoomsOk;
  }

  lemma BindPlayerKeeps(w: World, c: Client)
    requires WorldOk(w) && !Late(w.hub, BindPlayer(c))
    ensures WorldOk(Step(w, BindPlayer(c)))
  {
    hide RoomsOk;
  }

  lemma BindRoomKeeps(w: World, c: Client)
    requires WorldOk(w) && !Late(w.hub, BindRoom(c))
    ensures WorldOk(Step(w, BindRoom(c)))
  {
    BoundRoomHolds(w.hub, w.roomBound, c);
    hide RoomsOk, RoomBound;
  }

  lemma BoundRoomHolds(h: HubCore, bound: set<Client>, c: Client)
    requires RoomsOk(h.byRoom, h.closes, bound) && (c.roomId != "" ==> c !in h.closes)
    ensures RoomsOk(RoomBound(h, c).byRoom, h.closes, bound + {c})
    ensures RoomBound(h, c) == h.(byRoom := RoomBound(h, c).byRoom)
  {
    if c.roomId != "" {
      var byRoom := RoomBound(h, c).byRoom;
      assert byRoom[c.roomId] == Members(h, c.roomId) + {c};
      forall r | r in byRoom ensures MembersOk(r, byRoom[r], h.closes, bound + {c}) {
        assert r in h.byRoom ==> MembersOk(r, h.byRoom[r], h.closes, bound);
      }
    }
  }

  lemma StepKeeps(w: World, e: Event)
    requires WorldOk(w) && CanHappen(w.hub, e) && !Late(w.hub, e)
    ensures WorldOk(Step(w, e))
  {
    MapsHoldOpen(w);
    hide Sent, SentAll, Dropped, ChannelsOk, PlayersOk, RoomsOk;
    match e
    case Register(c) => RegisterKeeps(w, c);
    case BindPlayer(c) => BindPlayerKeeps(w, c);
    case BindRoom(c) => BindRoomKeeps(w, c);
    case Unregister(c) => DropKeeps(w, c);
    case Broadcast(msg, order, full) => SendAllKeeps(w, order, msg, full);
    case Direct(p, msg, full) => if p in w.hub.byPlayer { SendKeeps(w, w.hub.byPlayer[p], msg, full); }
    case BroadcastRoom(room, msg, order, full) => if room in w.hub.byRoom { SendAllKeeps(w, order, msg, full); }
    case CloseRoom(_, _, _) => CloseRoomKeeps(w, e);
  }

  lemma MapsHoldOpen(w: World)
    requires WorldOk(w)
    ensures !w.hub.panicked && !HoldsClosed(w.hub)
    ensures forall c :: c in w.hub.clients ==> c !in w.hub.closes
    ensures forall p :: p in w.hub.byPlayer ==> w.hub.byPlayer[p] !in w.hub.closes
    ensures forall r, c :: r in w.hub.byRoom && c in w.hub.byRoom[r] ==> c !in w.hub.closes
  {
    forall r, c | r in w.hub.byRoom && c in w.hub.byRoom[r] ensures c !in w.hub.closes {
      assert MembersOk(r, w.hub.byRoom[r], w.hub.closes, w.roomBound);
    }
  }

  lemma {:induction false} RunKeeps(w: World, events: seq<Event>)
    requires WorldOk(w) && CanRun(w, events) && !SomeLate(w, events)
    ensures WorldOk(Run(w, events))
    decreases |events|
  {
    if events != [] {
      hide WorldOk, CanHappen, Step, Late;
      StepKeeps(w, events[0]);
      RunKeeps(Step(w, events[0]), events[1..]);
    }
  }

  // ---- results ----

  /**
   When no set-up event comes after its client's channel was closed, the hub never panics: no channel is
   written after its close or closed twice. Whoever is in the player map or a room is registered as soon
   as its registration was handled, and every room has a member.
   */
  lemma HubNeverPanics(events: seq<Event>)
    requires CanRun(START, events) && !SomeLate(START, events)
    ensures var w := Run(START, events);
            && !w.hub.panicked
            && (forall c :: w.hub.closes[c] <= 1)
            && (forall p :: p in w.hub.byPlayer && w.hub.byPlayer[p] in w.registered ==> w.hub.byPlayer[p] in w.hub.clients)
            && (forall r, c :: r in w.hub.byRoom && c in w.hub.byRoom[r] && c in w.registered ==> c in w.hub.clients)
            && (forall r :: r in w.hub.byRoom ==> w.hub.byRoom[r] != {})
  {
    RunKeeps(START, events);
    MapsHoldOpen(Run(START, events));
  }

  /** From a state in which no map holds a closed client, an event puts one there exactly when it is late. */
  lemma OnlyLateSetUpTaints(w: World, e: Event)
    requires WorldOk(w) && CanHappen(w.hub, e)
    ensures HoldsClosed(Step(w, e).hub) <==> Late(w.hub, e)
    ensures !Step(w, e).hub.panicked
  {
    if Late(w.hub, e) {
      LateTaints(w, e);
    } else {
      StepKeeps(w, e);
      MapsHoldOpen(Step(w, e));
    }
  }

  lemma LateTaints(w: World, e: Event)
    requires !w.hub.panicked && Late(w.hub, e)
    ensures HoldsClosed(Step(w, e).hub) && !Step(w, e).hub.panicked
  {
    var h := Step(w, e).hub;
    match e
    case Register(c) => assert c in h.clients;
    case BindPlayer(c) => assert h.byPlayer[c.playerId] == c;
    case BindRoom(c) => assert c in h.byRoom[c.roomId];
  }

  /**
   Exactly when the hub can be made to panic: at some point of a run, one more event would do it exactly
   when some set-up event of the run was handled after its client's channel had been closed.
   */
  lemma {:induction false} PanicsExactlyAfterLateSetUp(w: World, events: seq<Event>)
    requires WorldOk(w) && CanRun(w, events)
    ensures CouldPanic(w, events) <==> SomeLate(w, events)
    decreases |events|
  {
    MapsHoldOpen(w);
    CanPanicExactlyWhen(w.hub);
    hide WorldOk, CanHappen, Late, Step, HoldsClosed, CanPanic;
    if events != [] {
      OnlyLateSetUpTaints(w, events[0]);
      CanPanicExactlyWhen(Step(w, events[0]).hub);
      if !Late(w.hub, events[0]) {
        StepKeeps(w, events[0]);
        PanicsExactlyAfterLateSetUp(Step(w, events[0]), events[1..]);
      }
    }
  }

  /** A new hub, so every run from the start is covered. */
  lemma NewHubIsOk()
    ensures WorldOk(START)
  {
  }

  /** Once a registered client is unregistered, or its room closed, its channel is closed: exactly once. */
  lemma TornDownMeansClosedOnce(w: World, e: Event, c: Client)
    requires WorldOk(w) && CanHappen(w.hub, e)
    requires (e == Unregister(c) && c in w.registered) || (e.CloseRoom? && e.room in w.hub.byRoom && c in w.hub.byRoom[e.room])
    ensures Step(w, e).hub.closes[c] == 1 && c !in Step(w, e).hub.clients
  {
    StepKeeps(w, e);
    if e.CloseRoom? {
      CloseRoomKeeps(w, e);
    } else {
      DropKeeps(w, c);
    }
  }

  /** A late Unregister of a player's old socket leaves the new one bound, registered and in its room. */
  lemma LateUnregisterSparesTheNewSocket(w: World, older: Client, newer: Client)
    requires WorldOk(w) && older != newer
    requires older.playerId in w.hub.byPlayer && w.hub.byPlayer[older.playerId] == newer
    ensures var h := Step(w, Unregister(older)).hub;
            && older.playerId in h.byPlayer && h.byPlayer[older.playerId] == newer
            && (newer in w.hub.clients ==> newer in h.clients)
            && (newer in Members(w.hub, newer.roomId) ==> newer in Members(h, newer.roomId))
            && newer !in h.closes
  {
    DropKeeps(w, older);
  }

  /**
   Closing a room is not so careful. It leaves a player bound exactly when no member of the room belongs
   to that player, so an old socket there takes away the binding of a newer one elsewhere.
   */
  lemma ClosingUnbindsByPlayer(w: World, e: Event, p: string)
    requires WorldOk(w) && CanHappen(w.hub, e) && e.CloseRoom? && e.room in w.hub.byRoom
    ensures p in Step(w, e).hub.byPlayer <==> p in w.hub.byPlayer && forall c :: c in w.hub.byRoom[e.room] ==> c.playerId != p
  {
    MembersAreOpen(w, e.room);
    ShutOutAllCloses(w, e.room, e.order, e.full);
  }

  /** A player whose newer socket is in another room can no longer be reached once the old room closes. */
  lemma NewerSocketLosesItsBinding()
    ensures var older, newer := Client(0, "p", "r"), Client(1, "p", "s");
            var w := Run(START, [Register(older), BindPlayer(older), BindRoom(older), Register(newer), BindPlayer(newer), BindRoom(newer)]);
            var closing := CloseRoom("r", [older], {});
            && CanHappen(w.hub, closing) && "p" in w.hub.byPlayer && w.hub.byPlayer["p"] == newer
            && newer in Step(w, closing).hub.clients
            && "p" !in Step(w, closing).hub.byPlayer
  {
    var older, newer := Client(0, "p", "r"), Client(1, "p", "s");
    var events := [Register(older), BindPlayer(older), BindRoom(older), Register(newer), BindPlayer(newer), BindRoom(newer)];
    TwoSocketsOfOnePlayer(older, newer);
    var w := Run(START, events);
    assert older != newer;
    assert [older][..0] == [];
    assert ShutOutAll(w.hub, [older], {}) == ShutOut(ShutOutAll(w.hub, [], {}), older, {});
    assert Walks([older], {older});
  }

  lemma TwoSocketsOfOnePlayer(older: Client, newer: Client)
    requires older.playerId == newer.playerId != "" && older != newer
    requires older.roomId != newer.roomId && older.roomId != "" && newer.roomId != ""
    ensures var w := Run(START, [Register(older), BindPlayer(older), BindRoom(older), Register(newer), BindPlayer(newer), BindRoom(newer)]);
            && w.hub.clients == {older, newer}
            && w.hub.byPlayer == map[newer.playerId := newer]
            && w.hub.byRoom == map[older.roomId := {older}, newer.roomId := {newer}]
            && w.hub.closes == multiset{}
            && w.registered == w.playerBound == w.roomBound == {older, newer}
  {
    var events := [Register(older), BindPlayer(older), BindRoom(older), Register(newer), BindPlayer(newer), BindRoom(newer)];
    var w3 := Step(Step(Step(START, events[0]), events[1]), events[2]);
    assert {} + {older} == {older} && {} + {newer} == {newer};
    assert w3.hub.byRoom == map[older.roomId := {older}];
    var w6 := Step(Step(Step(w3, events[3]), events[4]), events[5]);
    assert w6.hub.byRoom == map[older.roomId := {older}, newer.roomId := {newer}];
    hide Next;
    RunUnrolls(START, events);
    RunUnrolls(Step(START, events[0]), events[1..]);
    RunUnrolls(Step(Step(START, events[0]), events[1]), events[2..]);
    RunUnrolls(w3, events[3..]);
    RunUnrolls(Step(w3, events[3]), events[4..]);
    RunUnrolls(Step(Step(w3, events[3]), events[4]), events[5..]);
    RunUnrolls(w6, events[6..]);
  }

  lemma RunUnrolls(w: World, events: seq<Event>)
    ensures events == [] ==> Run(w, events) == w
    ensures events != [] ==> Run(w, events) == Run(Step(w, events[0]), events[1..])
  {
  }

  /** The order of the set-up matters: a client unregistered before its room was bound makes the hub panic. */
  lemma UnregisterBeforeBindRoomPanics()
    ensures var c := Client(0, "p", "r");
            Run(START, [Register(c), BindPlayer(c), Unregister(c), BindRoom(c), BroadcastRoom("r", Text("m"), [c], {})]).hub.panicked
  {
    var c := Client(0, "p", "r");
    var events := [Register(c), BindPlayer(c), Unregister(c), BindRoom(c), BroadcastRoom("r", Text("m"), [c], {})];
    var w1 := Step(START, events[0]);
    var w2 := Step(w1, events[1]);
    var w3 := Step(w2, events[2]);
    var w4 := Step(w3, events[3]);
    var w5 := Step(w4, events[4]);
    assert c in w4.hub.closes;
    assert [c][..0] == [];
    assert SentAll(w4.hub, [c], Text("m"), {}) == Sent(SentAll(w4.hub, [], Text("m"), {}), c, Text("m"), {});
    assert w5.hub.panicked;
    RunUnrolls(START, events);
    RunUnrolls(w1, events[1..]);
    RunUnrolls(w2, events[2..]);
    RunUnrolls(w3, events[3..]);
    RunUnrolls(w4, events[4..]);
    RunUnrolls(w5, events[5..]);
  }

  /** A room message reaches each member once, except those that are full: these are dropped instead. */
  lemma RoomMessageReachesTheRoom(w: World, room: string, msg: Message, order: seq<Client>, full: set<Client>, c: Client)
    requires WorldOk(w) && CanHappen(w.hub, BroadcastRoom(room, msg, order, full))
    ensures var h, h' := w.hub, Step(w, BroadcastRoom(room, msg, order, full)).hub;
            && h'.sent[(c, msg)] == h.sent[(c, msg)] + (if c in Members(h, room) && c !in full then 1 else 0)
            && (c in Members(h, room) && c in full && c in h.clients ==> h'.closes[c] == 1)
  {
    if room in w.hub.byRoom {
      MembersAreOpen(w, room);
      SendAllSends(w, order, msg, full, c);
    } else {
    }
  }

  lemma {:induction false} SendAllSends(w: World, order: seq<Client>, msg: Message, full: set<Client>, c: Client)
    requires WorldOk(w) && NoDup(order)
    requires forall x :: x in order ==> x !in w.hub.closes
    ensures var h' := SentAll(w.hub, order, msg, full);
            && h'.sent[(c, msg)] == w.hub.sent[(c, msg)] + (if c in order && c !in full then 1 else 0)
            && (c in order && c in full && c in w.hub.clients ==> h'.closes[c] == 1)
            && (c in h'.clients <==> c in w.hub.clients && !(c in order && c in full))
  {
    if order != [] {
      var n := |order| - 1;
      var front, last := order[..n], order[n];
      assert order == front + [last];
      SendAllKeeps(w, front, msg, full);
      SendAllSends(w, front, msg, full, c);
      assert last in order && last !in front;
      var h := SentAll(w.hub, front, msg, full);
      assert last !in h.closes;
      SendKeeps(w.(hub := h), last, msg, full);
    }
  }
}
