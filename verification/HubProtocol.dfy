/**
 * The WebSocket hub (internal/modules/websocket/application: hub.go, subscribe.go, broadcasting.go, wsHandler.go) with
 * any number of connections, room broadcasters and eviction goroutines. A step is one lock region or one channel
 * operation. An action that is not enabled changes nothing, so every action sequence is a run.
 */
module HubProtocol {
  import opened Common

  const REGISTER_BUFFER_LEN: nat := 100
  const UNREGISTER_BUFFER_LEN: nat := 100
  const CLIENT_BUFFER_SIZE: nat := 20

  /** What is put on a client's send channel: a join confirmation, or the k-th flush of a room. */
  datatype Item = Confirmation | FlushItem(room: nat, index: nat)

  /** Where the goroutine that serves a connection stands; rooms are named by the object it looked up. */
  datatype Pc =
    | Connecting
    | Reading
    | Building(name: string)
    | Subscribing(name: string)
    | Switching(oldRoom: Option<nat>, newRoom: Option<nat>, name: string)
    | Deciding(newRoom: Option<nat>, name: string)
    | Adding(target: nat, name: string)
    | Confirming
    | Leaving
    | Gone
    | Crashed

  /** `outbox` is all that was ever sent to the client's channel, of which the first `written` left it. */
  datatype Client = Client(pc: Pc, room: string, doneClosed: bool, closes: nat, outbox: seq<Item>, written: nat)

  /** When a client entered the room: the first flush it is to get, and how long its outbox was. */
  datatype Membership = Membership(joinedAt: nat, mark: nat)

  /** In the middle of a flush: its number, the clients of the snapshot not served yet, and those found slow. */
  datatype BroadcasterPc =
    | NoBroadcaster
    | Broadcasting
    | Sending(index: nat, left: set<nat>, slow: set<nat>)
    | SawNoClients
    | Exited

  datatype Room = Room(name: string, clients: map<nat, Membership>, flushes: nat, broadcaster: BroadcasterPc)

  /** The goroutine that is to remove slow clients from a room; when it has run there are none left to remove. */
  datatype Eviction = Eviction(room: nat, clients: set<nat>)

  datatype HubPc = HubIdle | HubUnregistering(client: nat, room: Option<nat>)

  datatype State = State(
    live: map<string, nat>, rooms: seq<Room>, clients: seq<Client>, evictions: seq<Eviction>,
    registers: nat, unregisters: seq<nat>, unregistered: set<nat>, hub: HubPc, totalClients: int)

  datatype Action =
    | Connect
    | Register(c: nat)
    | StartJoin(c: nat, name: string)
    | BuildRoom(c: nat)
    | LookupRooms(c: nat, nameValid: bool)
    | RemoveFromOld(c: nat)
    | Decide(c: nat, canJoin: bool)
    | AddToRoom(c: nat)
    | Confirm(c: nat)
    | StopReading(c: nat)
    | Unregister(c: nat)
    | WriteOne(c: nat)
    | TakeSnapshot(r: nat)
    | SendNext(r: nat, c: nat)
    | EndFlush(r: nat)
    | IdleCheck(r: nat)
    | RemoveRoom(r: nat)
    | Evict(k: nat)
    | HubRegister
    | HubLookup
    | HubRemove

  function Start(): (s: State) {
    State(map[], [], [], [], 0, [], {}, HubIdle, 0)
  }

  /** The room's broadcaster goroutine has started and not ended. */
  predicate Served(room: Room) {
    room.broadcaster.Broadcasting? || room.broadcaster.Sending? || room.broadcaster.SawNoClients?
  }

  predicate Flushing(a: Action) {
    a.TakeSnapshot? || a.SendNext? || a.EndFlush?
  }

  predicate At(s: State, c: nat) {
    c < |s.clients|
  }

  function Moved(s: State, c: nat, pc: Pc): (r: State)
    requires At(s, c)
  {
    s.(clients := s.clients[c := s.clients[c].(pc := pc)])
  }

  predicate HasSpace(client: Client) {
    |client.outbox| - client.written < CLIENT_BUFFER_SIZE
  }

  function Sent(client: Client, item: Item): (r: Client) {
    client.(outbox := client.outbox + [item])
  }

  /** Closing `done` and forgetting it, once. */
  function Closed(client: Client): (r: Client) {
    if client.doneClosed then client else client.(doneClosed := true, closes := client.closes + 1)
  }

  function ClosedAll(clients: seq<Client>, gone: set<nat>): (r: seq<Client>)
    ensures |r| == |clients|
    ensures forall c {:trigger r[c]} :: 0 <= c < |r| ==> r[c] == if c in gone then Closed(clients[c]) else clients[c]
  {
    seq(|clients|, c requires 0 <= c < |clients| => if c in gone then Closed(clients[c]) else clients[c])
  }

  /** `RemoveClients`, under the room's lock. */
  function RemoveClients(s: State, r: nat, gone: set<nat>): (t: State)
    requires r < |s.rooms|
  {
    s.(rooms := s.rooms[r := s.rooms[r].(clients := s.rooms[r].clients - gone)],
       clients := ClosedAll(s.clients, gone))
  }

  /** One client removed from the room found for it, if any. */
  function RemovedFrom(s: State, c: nat, found: Option<nat>): (t: State) {
    if found.Some? && found.value < |s.rooms| then RemoveClients(s, found.value, {c}) else s
  }

  function AfterEvict(s: State, k: nat): (t: State) {
    if k >= |s.evictions| || s.evictions[k].room >= |s.rooms| then s
    else RemoveClients(s, s.evictions[k].room, s.evictions[k].clients).(evictions := s.evictions[k := Eviction(s.evictions[k].room, {})])
  }

  /** `GetOrCreateRoom` for a name that has no room. */
  function Created(s: State, name: string, broadcaster: BroadcasterPc): (t: State) {
    s.(rooms := s.rooms + [Room(name, map[], 0, broadcaster)], live := s.live[name := |s.rooms|])
  }

  function Found(s: State, name: string): (r: Option<nat>) {
    if name in s.live then Some(s.live[name]) else None
  }

  /** The hub-lock region of `SubscribeRoom`. The room it creates when the lookup fails is not the one it goes on with. */
  function AfterLookup(s: State, c: nat, name: string): (t: State)
    requires At(s, c)
  {
    var oldRoom := if s.clients[c].room != "" then Found(s, s.clients[c].room) else None;
    var target := Found(s, name);
    Moved(if target.None? then Created(s, name, NoBroadcaster) else s, c, Switching(oldRoom, target, name))
  }

  /** The next flush a client is to be sent: one under way, if it is in the snapshot and not served yet, or the next one. */
  function NextFlush(room: Room, c: nat): (index: nat) {
    if room.broadcaster.Sending? && c in room.broadcaster.left then room.broadcaster.index else room.flushes
  }

  function AfterAdd(s: State, c: nat, r: nat, name: string): (t: State)
    requires At(s, c) && r < |s.rooms|
  {
    var room := s.rooms[r];
    var members := if c in room.clients then room.clients
                   else room.clients[c := Membership(NextFlush(room, c), |s.clients[c].outbox|)];
    s.(rooms := s.rooms[r := room.(clients := members)],
       clients := s.clients[c := s.clients[c].(room := name, pc := Confirming)])
  }

  /** A flush begins: the clients of the room at this moment are copied under its lock. */
  function AfterSnapshot(s: State, r: nat): (t: State)
    requires r < |s.rooms|
  {
    var room := s.rooms[r];
    s.(rooms := s.rooms[r := room.(flushes := room.flushes + 1, broadcaster := Sending(room.flushes, room.clients.Keys, {}))])
  }

  /** One client of the snapshot gets the batch or, its channel being full, is marked for removal. */
  function AfterSend(s: State, r: nat, c: nat): (t: State)
    requires r < |s.rooms| && s.rooms[r].broadcaster.Sending? && At(s, c)
  {
    var b := s.rooms[r].broadcaster;
    if HasSpace(s.clients[c]) then
      s.(rooms := s.rooms[r := s.rooms[r].(broadcaster := b.(left := b.left - {c}))],
         clients := s.clients[c := Sent(s.clients[c], FlushItem(r, b.index))])
    else
      s.(rooms := s.rooms[r := s.rooms[r].(broadcaster := b.(left := b.left - {c}, slow := b.slow + {c}))])
  }

  /** With all clients served, the slow ones are left to a goroutine of their own. */
  function AfterFlushEnd(s: State, r: nat): (t: State)
    requires r < |s.rooms| && s.rooms[r].broadcaster.Sending?
  {
    var slow := s.rooms[r].broadcaster.slow;
    s.(rooms := s.rooms[r := s.rooms[r].(broadcaster := Broadcasting)],
       evictions := if slow == {} then s.evictions else s.evictions + [Eviction(r, slow)])
  }

  function Step(s: State, a: Action): (t: State) {
    match a
    case Connect => s.(clients := s.clients + [Client(Connecting, "", false, 0, [], 0)])
    case Register(c) =>
      if !At(s, c) || !s.clients[c].pc.Connecting? || s.registers >= REGISTER_BUFFER_LEN then s
      else Moved(s, c, Reading).(registers := s.registers + 1)
    case StartJoin(c, name) =>
      if !At(s, c) || !s.clients[c].pc.Reading? || name == "" then s else Moved(s, c, Building(name))
    case BuildRoom(c) =>
      if !At(s, c) || !s.clients[c].pc.Building? then s
      else
        var name := s.clients[c].pc.name;
        Moved(if name in s.live then s else Created(s, name, Broadcasting), c, Subscribing(name))
    case LookupRooms(c, nameValid) =>
      if !At(s, c) || !s.clients[c].pc.Subscribing? then s
      else if !nameValid || s.clients[c].room == s.clients[c].pc.name then Moved(s, c, Reading)
      else AfterLookup(s, c, s.clients[c].pc.name)
    case RemoveFromOld(c) =>
      if !At(s, c) || !s.clients[c].pc.Switching? then s
      else Moved(RemovedFrom(s, c, s.clients[c].pc.oldRoom), c, Deciding(s.clients[c].pc.newRoom, s.clients[c].pc.name))
    case Decide(c, canJoin) =>
      if !At(s, c) || !s.clients[c].pc.Deciding? then s
      else if !canJoin then Moved(s, c, Reading)
      else if s.clients[c].pc.newRoom.None? then Moved(s, c, Crashed)
      else Moved(s, c, Adding(s.clients[c].pc.newRoom.value, s.clients[c].pc.name))
    case AddToRoom(c) =>
      if !At(s, c) || !s.clients[c].pc.Adding? || s.clients[c].pc.target >= |s.rooms| then s
      else AfterAdd(s, c, s.clients[c].pc.target, s.clients[c].pc.name)
    case Confirm(c) =>
      if !At(s, c) || !s.clients[c].pc.Confirming? || !HasSpace(s.clients[c]) then s
      else s.(clients := s.clients[c := Sent(s.clients[c], Confirmation).(pc := Reading)])
    case StopReading(c) => if !At(s, c) || !s.clients[c].pc.Reading? then s else Moved(s, c, Leaving)
    case Unregister(c) =>
      if !At(s, c) || !s.clients[c].pc.Leaving? || |s.unregisters| >= UNREGISTER_BUFFER_LEN then s
      else Moved(s, c, Gone).(unregisters := s.unregisters + [c])
    case WriteOne(c) =>
      if !At(s, c) || s.clients[c].written >= |s.clients[c].outbox| then s
      else s.(clients := s.clients[c := s.clients[c].(written := s.clients[c].written + 1)])
    case TakeSnapshot(r) => if r >= |s.rooms| || !s.rooms[r].broadcaster.Broadcasting? then s else AfterSnapshot(s, r)
    case SendNext(r, c) =>
      if r >= |s.rooms| || !s.rooms[r].broadcaster.Sending? || c !in s.rooms[r].broadcaster.left || !At(s, c) then s
      else AfterSend(s, r, c)
    case EndFlush(r) =>
      if r >= |s.rooms| || !s.rooms[r].broadcaster.Sending? || s.rooms[r].broadcaster.left != {} then s else AfterFlushEnd(s, r)
    case IdleCheck(r) =>
      if r >= |s.rooms| || !s.rooms[r].broadcaster.Broadcasting? || s.rooms[r].clients != map[] then s
      else s.(rooms := s.rooms[r := s.rooms[r].(broadcaster := SawNoClients)])
    case RemoveRoom(r) =>
      if r >= |s.rooms| || !s.rooms[r].broadcaster.SawNoClients? then s
      else s.(live := s.live - {s.rooms[r].name}, rooms := s.rooms[r := s.rooms[r].(broadcaster := Exited)])
    case Evict(k) => AfterEvict(s, k)
    case HubRegister =>
      if !s.hub.HubIdle? || s.registers == 0 then s else s.(registers := s.registers - 1, totalClients := s.totalClients + 1)
    case HubLookup =>
      if !s.hub.HubIdle? || s.unregisters == [] || !At(s, s.unregisters[0]) then s
      else s.(unregisters := s.unregisters[1..],
              hub := HubUnregistering(s.unregisters[0], Found(s, s.clients[s.unregisters[0]].room)))
    case HubRemove =>
      if !s.hub.HubUnregistering? then s
      else
        RemovedFrom(s, s.hub.client, s.hub.room)
        .(hub := HubIdle, totalClients := s.totalClients - 1, unregistered := s.unregistered + {s.hub.client})
  }

  function After(run: seq<Action>): (s: State) {
    if run == [] then Start() else Step(After(run[..|run| - 1]), run[|run| - 1])
  }

  lemma AfterSnoc(run: seq<Action>, a: Action)
    ensures After(run + [a]) == Step(After(run), a)
  {
    assert (run + [a])[..|run|] == run;
  }

  lemma AfterTwo(run: seq<Action>, a: Action, b: Action)
    ensures After(run + [a, b]) == Step(Step(After(run), a), b)
  {
    AfterSnoc(run, a);
    AfterSnoc(run + [a], b);
    assert run + [a] + [b] == run + [a, b];
  }
}
