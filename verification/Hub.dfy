/** The relay's hub with every hub call atomic (relay/hub.go), driven by the per-connection
    lifecycle of relay/main.go: hello, frames, unregister. */
module Hub {
  import opened Common

  const SEND_QUEUE: nat := 64

  type ConnId = nat
  type DeviceId = string

  /** `from` tags a payload with its sender for the statements below; only `raw` is sent. */
  datatype Msg =
    | HelloAck(dev: DeviceId)
    | Error(code: string)
    | Presence(dev: DeviceId, online: bool)
    | Pong
    | Payload(from: ConnId, raw: Bytes)

  datatype Role = NoRole | Daemon | Client

  /** Where a connection's read loop stands: `Greeted` is between the hub call and its answer. */
  datatype Phase = Opened | Greeted(ack: Msg) | Looping | Rejected | Ended

  /** `sent` is what the write loop already took from `queue`. */
  datatype Conn = Conn(queue: seq<Msg>, sent: seq<Msg>, closed: bool, deviceID: DeviceId, role: Role, phase: Phase)

  datatype Room = Room(daemon: Option<ConnId>, token: string, clients: set<ConnId>)

  datatype World = World(rooms: map<DeviceId, Room>, conns: map<ConnId, Conn>)

  const NEW_CONN := Conn([], [], false, "", NoRole, Opened)
  const NEW_WORLD := World(map[], map[])

  // ---- Hub calls as functions of the state ----

  function Push(c: Conn, m: Msg): Conn {
    if c.closed then c
    else if |c.queue| < SEND_QUEUE then c.(queue := c.queue + [m])
    else c.(closed := true)
  }

  function SendAll(conns: map<ConnId, Conn>, ids: set<ConnId>, m: Msg): (r: map<ConnId, Conn>)
    ensures r.Keys == conns.Keys
  {
    map id | id in conns :: if id in ids then Push(conns[id], m) else conns[id]
  }

  function Shut(conns: map<ConnId, Conn>, ids: set<ConnId>): (r: map<ConnId, Conn>)
    ensures r.Keys == conns.Keys
  {
    map id | id in conns :: if id in ids then conns[id].(closed := true) else conns[id]
  }

  function RoomOf(w: World, dev: DeviceId): Room {
    if dev in w.rooms then w.rooms[dev] else Room(None, "", {})
  }

  function RegisterDaemon(w: World, relayKey: string, dev: DeviceId, token: string, c: ConnId): (World, Msg)
    requires c in w.conns
  {
    var r := RoomOf(w, dev);
    if relayKey != "" && token != relayKey then (w, Error("auth_failed"))
    else if r.daemon.Some? then (w, Error("device_already_online"))
    else
      var conns := w.conns[c := w.conns[c].(deviceID := dev, role := Daemon)];
      (World(w.rooms[dev := r.(daemon := Some(c), token := token)], SendAll(conns, r.clients, Presence(dev, true))),
       HelloAck(dev))
  }

  function JoinClient(w: World, dev: DeviceId, c: ConnId): (World, Msg)
    requires c in w.conns
  {
    var r := RoomOf(w, dev);
    if r.daemon.None? then (w, Error("device_offline"))
    else if |r.clients| > 0 then (w, Error("device_busy"))
    else
      (World(w.rooms[dev := r.(clients := r.clients + {c})],
             w.conns[c := w.conns[c].(deviceID := dev, role := Client)]),
       HelloAck(dev))
  }

  /** Who receives what `from` forwards: the viewers for a daemon, the daemon for a viewer. */
  function Audience(w: World, from: ConnId): set<ConnId>
    requires from in w.conns
  {
    var r := RoomOf(w, w.conns[from].deviceID);
    if w.conns[from].role == Daemon then r.clients
    else if r.daemon.Some? then {r.daemon.value} else {}
  }

  function Forward(w: World, from: ConnId, raw: Bytes): World
    requires from in w.conns
  {
    if w.conns[from].deviceID !in w.rooms then w
    else if w.conns[from].role != Daemon && w.rooms[w.conns[from].deviceID].daemon.None? then
      w.(conns := SendAll(w.conns, {from}, Error("device_offline")))
    else w.(conns := SendAll(w.conns, Audience(w, from), Payload(from, raw)))
  }

  function KickClients(w: World, dev: DeviceId): World {
    if dev !in w.rooms then w
    else
      var kicked := w.rooms[dev].clients;
      World(w.rooms[dev := w.rooms[dev].(clients := {})],
            Shut(SendAll(w.conns, kicked, Error("kicked")), kicked))
  }

  function Unregister(w: World, c: ConnId): World
    requires c in w.conns
  {
    var dev := w.conns[c].deviceID;
    if dev !in w.rooms then w
    else
      var r := w.rooms[dev];
      var leaving := w.conns[c].role == Daemon && r.daemon == Some(c);
      var r' := if leaving then r.(daemon := None) else r.(clients := r.clients - {c});
      var conns' := if leaving then SendAll(w.conns, r.clients, Presence(dev, false)) else w.conns;
      World(if r'.daemon.None? && r'.clients == {} then w.rooms - {dev} else w.rooms[dev := r'], conns')
  }

  // ---- The lifecycle of a connection (readPump, writePump) ----

  datatype Envelope = Envelope(t: string, v: int, role: string, dev: DeviceId, token: string)

  datatype Frame = Ping | Kick | HelloAgain | NotText | Data(raw: Bytes)

  datatype Action =
    | Open(id: ConnId)
    | Hello(id: ConnId, e: Envelope)
    | Answer(id: ConnId)
    | Read(id: ConnId, frame: Frame)
    | End(id: ConnId)
    | Write(id: ConnId)
    | Break(id: ConnId)

  /** The error a malformed hello is answered with, if any. */
  function HelloError(e: Envelope): Option<Msg> {
    if e.t != "hello" then Some(Error("protocol_error"))
    else if e.v != 1 then Some(Error("unsupported_version"))
    else if e.dev == "" then Some(Error("auth_failed"))
    else if e.role == "daemon" && e.token == "" then Some(Error("auth_failed"))
    else if e.role != "daemon" && e.role != "client" then Some(Error("auth_failed"))
    else None
  }

  /** The hub call a hello leads to. */
  function Call(w: World, relayKey: string, id: ConnId, e: Envelope): (World, Msg)
    requires id in w.conns
  {
    if HelloError(e).Some? then (w, HelloError(e).value)
    else if e.role == "daemon" then RegisterDaemon(w, relayKey, e.dev, e.token, id)
    else JoinClient(w, e.dev, id)
  }

  function Called(w: World, relayKey: string, id: ConnId, e: Envelope): World
    requires id in w.conns
  {
    var (w1, ack) := Call(w, relayKey, id, e);
    w1.(conns := w1.conns[id := w1.conns[id].(phase := Greeted(ack))])
  }

  function Answered(w: World, id: ConnId): World
    requires id in w.conns && w.conns[id].phase.Greeted?
  {
    var ack := w.conns[id].phase.ack;
    var conns := SendAll(w.conns, {id}, ack);
    w.(conns := conns[id := conns[id].(phase := if ack.HelloAck? then Looping else Rejected)])
  }

  /** The call and its answer with nothing in between. */
  function Greet(w: World, relayKey: string, id: ConnId, e: Envelope): World
    requires id in w.conns
  {
    Answered(Called(w, relayKey, id, e), id)
  }

  function ReadFrame(w: World, id: ConnId, f: Frame): World
    requires id in w.conns
  {
    match f
    case Ping => w.(conns := SendAll(w.conns, {id}, Pong))
    case Kick => if w.conns[id].role == Daemon then KickClients(w, w.conns[id].deviceID) else w
    case Data(raw) => Forward(w, id, raw)
    case _ => w
  }

  /** The deferred cleanup: unregister, then shut the send queue. */
  function Cleanup(w: World, id: ConnId): World
    requires id in w.conns
  {
    var w1 := Unregister(w, id);
    w1.(conns := w1.conns[id := w1.conns[id].(closed := true, phase := Ended)])
  }

  /** `Break` is a failed write to the socket, which shuts the connection down at any time. */
  predicate Enabled(w: World, a: Action) {
    match a
    case Open(id) => id !in w.conns
    case Hello(id, _) => id in w.conns && w.conns[id].phase == Opened
    case Read(id, _) => id in w.conns && w.conns[id].phase == Looping && !w.conns[id].closed
    case Answer(id) => id in w.conns && w.conns[id].phase.Greeted?
    case End(id) => id in w.conns && w.conns[id].phase != Ended && !w.conns[id].phase.Greeted?
    case Write(id) => id in w.conns && w.conns[id].queue != []
    case Break(id) => id in w.conns
  }

  function Step(w: World, relayKey: string, a: Action): World {
    if !Enabled(w, a) then w
    else
      match a
      case Open(id) => w.(conns := w.conns[id := NEW_CONN])
      case Hello(id, e) => Called(w, relayKey, id, e)
      case Answer(id) => Answered(w, id)
      case Read(id, f) => ReadFrame(w, id, f)
      case End(id) => Cleanup(w, id)
      case Break(id) => w.(conns := w.conns[id := w.conns[id].(closed := true)])
      case Write(id) =>
        var c := w.conns[id];
        w.(conns := w.conns[id := c.(queue := c.queue[1..], sent := c.sent + [c.queue[0]])])
  }

  function Exec(relayKey: string, acts: seq<Action>): World {
    if acts == [] then NEW_WORLD
    else Step(Exec(relayKey, acts[..|acts| - 1]), relayKey, acts[|acts| - 1])
  }

  /** Everything ever queued to a connection, in order. */
  function All(c: Conn): seq<Msg> { c.sent + c.queue }

  // ---- Rooms and slots ----

  /** The map holds exactly the non-empty rooms, and every slot is held by a live connection of
      that device and role. */
  predicate RoomOk(w: World, dev: DeviceId)
    requires dev in w.rooms
  {
    var r := w.rooms[dev];
    && dev != ""
    && (r.daemon.Some? || r.clients != {})
    && |r.clients| <= 1
    && (r.daemon.Some? ==> Holds(w, r.daemon.value, dev, Daemon))
    && (forall c :: c in r.clients ==> Holds(w, c, dev, Client))
  }

  /** The hub call let the connection in. */
  predicate Admitted(p: Phase) { p == Looping || (p.Greeted? && p.ack.HelloAck?) }

  predicate Refused(p: Phase) { p == Rejected || (p.Greeted? && p.ack.Error?) }

  predicate Holds(w: World, c: ConnId, dev: DeviceId, role: Role) {
    c in w.conns && w.conns[c].deviceID == dev && w.conns[c].role == role && Admitted(w.conns[c].phase)
  }

  /** An admitted daemon is in its slot; an admitted viewer too, unless it was shut down. */
  predicate ConnOk(w: World, c: ConnId)
    requires c in w.conns
  {
    var k := w.conns[c];
    && |k.queue| <= SEND_QUEUE
    && (k.phase.Greeted? ==> k.phase.ack.HelloAck? || k.phase.ack.Error?)
    && (k.phase == Opened || Refused(k.phase) ==> k.role == NoRole && k.deviceID == "")
    && (Admitted(k.phase) ==> k.role != NoRole)
    && (Admitted(k.phase) && k.role == Daemon ==> k.deviceID in w.rooms && w.rooms[k.deviceID].daemon == Some(c))
    && (Admitted(k.phase) && k.role == Client && !k.closed ==>
          k.deviceID in w.rooms && c in w.rooms[k.deviceID].clients)
    && (k.phase == Ended ==> k.closed)
  }

  ghost predicate SlotsOk(w: World) {
    && (forall dev :: dev in w.rooms ==> RoomOk(w, dev))
    && (forall c :: c in w.conns ==> ConnOk(w, c))
  }

  /** Sending touches nothing but send queues. */
  lemma SendAllKeeps(w: World, ids: set<ConnId>, m: Msg)
    requires SlotsOk(w)
    ensures SlotsOk(w.(conns := SendAll(w.conns, ids, m)))
  {
    var w' := w.(conns := SendAll(w.conns, ids, m));
    forall dev | dev in w'.rooms ensures RoomOk(w', dev) { assert RoomOk(w, dev); }
    forall c | c in w'.conns ensures ConnOk(w', c) { PushKeeps(w, ids, m, c); }
  }

  lemma PushKeeps(w: World, ids: set<ConnId>, m: Msg, c: ConnId)
    requires c in w.conns && ConnOk(w, c)
    ensures ConnOk(w.(conns := SendAll(w.conns, ids, m)), c)
  {
  }

  lemma RegisterKeeps(w: World, dev: DeviceId, token: string, c: ConnId, p: Phase)
    requires SlotsOk(w) && c in w.conns && w.conns[c].phase == Opened && dev != "" && Admitted(p)
    requires RoomOf(w, dev).daemon.None?
    ensures var r := RoomOf(w, dev);
            SlotsOk(World(w.rooms[dev := r.(daemon := Some(c), token := token)],
                          w.conns[c := w.conns[c].(deviceID := dev, role := Daemon, phase := p)]))
  {
    var r := RoomOf(w, dev);
    var w' := World(w.rooms[dev := r.(daemon := Some(c), token := token)],
                    w.conns[c := w.conns[c].(deviceID := dev, role := Daemon, phase := p)]);
    forall d | d in w'.rooms ensures RoomOk(w', d) { assert d in w.rooms ==> RoomOk(w, d); }
    forall x | x in w'.conns ensures ConnOk(w', x) { assert ConnOk(w, x); }
  }

  lemma JoinKeeps(w: World, dev: DeviceId, c: ConnId, p: Phase)
    requires SlotsOk(w) && c in w.conns && w.conns[c].phase == Opened && Admitted(p)
    requires dev in w.rooms && w.rooms[dev].daemon.Some? && w.rooms[dev].clients == {}
    ensures SlotsOk(World(w.rooms[dev := w.rooms[dev].(clients := {c})],
                          w.conns[c := w.conns[c].(deviceID := dev, role := Client, phase := p)]))
  {
    var w' := World(w.rooms[dev := w.rooms[dev].(clients := {c})],
                    w.conns[c := w.conns[c].(deviceID := dev, role := Client, phase := p)]);
    forall d | d in w'.rooms ensures RoomOk(w', d) { assert RoomOk(w, d); }
    forall x | x in w'.conns ensures ConnOk(w', x) { assert ConnOk(w, x); }
  }

  lemma KickKeeps(w: World, dev: DeviceId)
    requires SlotsOk(w) && dev in w.rooms && w.rooms[dev].daemon.Some?
    ensures SlotsOk(KickClients(w, dev))
  {
    var w' := KickClients(w, dev);
    forall d | d in w'.rooms ensures RoomOk(w', d) { assert RoomOk(w, d); }
    forall x | x in w'.conns ensures ConnOk(w', x) { assert ConnOk(w, x); }
  }

  /** `c` occupies a slot of the room of its device. */
  predicate InSlot(w: World, c: ConnId)
    requires c in w.conns
  {
    var r := RoomOf(w, w.conns[c].deviceID);
    r.daemon == Some(c) || c in r.clients
  }

  /** Cleaning up a rejected or already kicked connection leaves the map, every slot and every
      other connection as they were. */
  lemma CleanupOutsideSlots(w: World, c: ConnId)
    requires SlotsOk(w) && c in w.conns && !InSlot(w, c)
    ensures Cleanup(w, c).rooms == w.rooms
    ensures Cleanup(w, c).conns == w.conns[c := w.conns[c].(closed := true, phase := Ended)]
  {
    var dev := w.conns[c].deviceID;
    if dev in w.rooms {
      assert RoomOk(w, dev);
      assert w.rooms[dev].clients - {c} == w.rooms[dev].clients;
    }
  }

  /** No slot anywhere holds a connection that is not in its own device's room. */
  lemma SlotElsewhere(w: World, c: ConnId, dev: DeviceId)
    requires SlotsOk(w) && c in w.conns && dev in w.rooms
    requires !InSlot(w, c) || dev != w.conns[c].deviceID
    ensures w.rooms[dev].daemon != Some(c) && c !in w.rooms[dev].clients
  {
    assert RoomOk(w, dev);
  }

  lemma EndKeeps(w: World, c: ConnId)
    requires SlotsOk(w) && c in w.conns && !InSlot(w, c)
    ensures SlotsOk(w.(conns := w.conns[c := w.conns[c].(closed := true, phase := Ended)]))
  {
    var w' := w.(conns := w.conns[c := w.conns[c].(closed := true, phase := Ended)]);
    forall d | d in w'.rooms ensures RoomOk(w', d) {
      assert RoomOk(w, d);
      SlotElsewhere(w, c, d);
    }
    forall x | x in w'.conns ensures ConnOk(w', x) { assert ConnOk(w, x); }
  }

  /** Leaving a slot: the room loses the connection and goes when it is empty. */
  function Left(w: World, c: ConnId): World
    requires c in w.conns
  {
    var dev, r := w.conns[c].deviceID, RoomOf(w, w.conns[c].deviceID);
    var r' := if w.conns[c].role == Daemon then r.(daemon := None) else r.(clients := r.clients - {c});
    World(if r'.daemon.None? && r'.clients == {} then w.rooms - {dev} else w.rooms[dev := r'],
          w.conns[c := w.conns[c].(closed := true, phase := Ended)])
  }

  lemma LeftRoomOk(w: World, c: ConnId, d: DeviceId)
    requires SlotsOk(w) && c in w.conns && InSlot(w, c) && Admitted(w.conns[c].phase) && d in Left(w, c).rooms
    ensures RoomOk(Left(w, c), d)
  {
    assert RoomOk(w, w.conns[c].deviceID) && RoomOk(w, d);
    if d != w.conns[c].deviceID { SlotElsewhere(w, c, d); }
  }

  lemma LeftConnOk(w: World, c: ConnId, x: ConnId)
    requires SlotsOk(w) && c in w.conns && InSlot(w, c) && Admitted(w.conns[c].phase) && x in w.conns
    ensures ConnOk(Left(w, c), x)
  {
    assert RoomOk(w, w.conns[c].deviceID) && ConnOk(w, x);
  }

  lemma LeaveKeeps(w: World, c: ConnId)
    requires SlotsOk(w) && c in w.conns && InSlot(w, c) && Admitted(w.conns[c].phase)
    ensures SlotsOk(Left(w, c))
  {
    forall d | d in Left(w, c).rooms ensures RoomOk(Left(w, c), d) { LeftRoomOk(w, c, d); }
    forall x | x in w.conns ensures ConnOk(Left(w, c), x) { LeftConnOk(w, c, x); }
  }

  lemma CleanupKeeps(w: World, c: ConnId)
    requires SlotsOk(w) && c in w.conns
    ensures SlotsOk(Cleanup(w, c))
  {
    var dev := w.conns[c].deviceID;
    if !InSlot(w, c) {
      CleanupOutsideSlots(w, c);
      EndKeeps(w, c);
    } else {
      var r := RoomOf(w, dev);
      assert dev in w.rooms && RoomOk(w, dev) && ConnOk(w, c);
      if w.conns[c].role == Daemon {
        SendAllKeeps(w, r.clients, Presence(dev, false));
        LeaveKeeps(w.(conns := SendAll(w.conns, r.clients, Presence(dev, false))), c);
      } else {
        LeaveKeeps(w, c);
      }
    }
  }

  /** A phase change may be moved before the sends. */
  lemma PhaseFirst(conns: map<ConnId, Conn>, ids: set<ConnId>, m: Msg, c: ConnId, p: Phase)
    requires c in conns
    ensures var sent := SendAll(conns, ids, m);
            sent[c := sent[c].(phase := p)] == SendAll(conns[c := conns[c].(phase := p)], ids, m)
  {
  }

  lemma CalledRegisterKeeps(w: World, c: ConnId, e: Envelope)
    requires SlotsOk(w) && c in w.conns && w.conns[c].phase == Opened && e.dev != ""
    requires RoomOf(w, e.dev).daemon.None?
    ensures var r := RoomOf(w, e.dev);
            var conns := w.conns[c := w.conns[c].(deviceID := e.dev, role := Daemon)];
            var sent := SendAll(conns, r.clients, Presence(e.dev, true));
            SlotsOk(World(w.rooms[e.dev := r.(daemon := Some(c), token := e.token)],
                          sent[c := sent[c].(phase := Greeted(HelloAck(e.dev)))]))
  {
    var r, p := RoomOf(w, e.dev), Greeted(HelloAck(e.dev));
    RegisterKeeps(w, e.dev, e.token, c, p);
    var conns := w.conns[c := w.conns[c].(deviceID := e.dev, role := Daemon)];
    var w2 := World(w.rooms[e.dev := r.(daemon := Some(c), token := e.token)], conns[c := conns[c].(phase := p)]);
    assert w2.conns == w.conns[c := w.conns[c].(deviceID := e.dev, role := Daemon, phase := p)];
    PhaseFirst(conns, r.clients, Presence(e.dev, true), c, p);
    SendAllKeeps(w2, r.clients, Presence(e.dev, true));
  }

  /** A phase that stays on its side of the hub's decision. */
  lemma PhaseKeeps(w: World, c: ConnId, p: Phase)
    requires SlotsOk(w) && c in w.conns
    requires var o := w.conns[c].phase; (Admitted(o) && Admitted(p)) || ((o == Opened || Refused(o)) && Refused(p))
    ensures SlotsOk(w.(conns := w.conns[c := w.conns[c].(phase := p)]))
  {
    var w' := w.(conns := w.conns[c := w.conns[c].(phase := p)]);
    forall d | d in w'.rooms ensures RoomOk(w', d) { assert RoomOk(w, d); }
    forall x | x in w'.conns ensures ConnOk(w', x) { assert ConnOk(w, x); }
  }

  lemma CalledKeeps(w: World, relayKey: string, c: ConnId, e: Envelope)
    requires SlotsOk(w) && c in w.conns && w.conns[c].phase == Opened
    ensures SlotsOk(Called(w, relayKey, c, e))
  {
    var r, ack := RoomOf(w, e.dev), Call(w, relayKey, c, e).1;
    if ack.Error? {
      PhaseKeeps(w, c, Greeted(ack));
    } else if e.role == "daemon" {
      CalledRegisterKeeps(w, c, e);
    } else {
      assert r.clients == {} && r.clients + {c} == {c};
      JoinKeeps(w, e.dev, c, Greeted(ack));
      var joined := w.conns[c := w.conns[c].(deviceID := e.dev, role := Client)];
      assert joined[c := joined[c].(phase := Greeted(ack))]
          == w.conns[c := w.conns[c].(deviceID := e.dev, role := Client, phase := Greeted(ack))];
    }
  }

  lemma AnsweredKeeps(w: World, c: ConnId)
    requires SlotsOk(w) && c in w.conns && w.conns[c].phase.Greeted?
    ensures SlotsOk(Answered(w, c))
  {
    var ack := w.conns[c].phase.ack;
    assert ConnOk(w, c);
    SendAllKeeps(w, {c}, ack);
    PhaseKeeps(w.(conns := SendAll(w.conns, {c}, ack)), c, if ack.HelloAck? then Looping else Rejected);
  }

  lemma GreetKeeps(w: World, relayKey: string, c: ConnId, e: Envelope)
    requires SlotsOk(w) && c in w.conns && w.conns[c].phase == Opened
    ensures SlotsOk(Greet(w, relayKey, c, e))
  {
    CalledKeeps(w, relayKey, c, e);
    AnsweredKeeps(Called(w, relayKey, c, e), c);
  }

  lemma StepKeeps(w: World, relayKey: string, a: Action)
    requires SlotsOk(w)
    ensures SlotsOk(Step(w, relayKey, a))
  {
    var w' := Step(w, relayKey, a);
    if Enabled(w, a) {
      match a
      case Open(id) => TouchKeeps(w, id, NEW_CONN);
      case Hello(id, e) => CalledKeeps(w, relayKey, id, e);
      case Answer(id) => AnsweredKeeps(w, id);
      case Read(id, f) => ReadFrameKeeps(w, id, f);
      case End(id) => CleanupKeeps(w, id);
      case Write(id) => TouchKeeps(w, id, w'.conns[id]);
      case Break(id) => TouchKeeps(w, id, w'.conns[id]);
    }
  }

  lemma ReadFrameKeeps(w: World, id: ConnId, f: Frame)
    requires SlotsOk(w) && id in w.conns && w.conns[id].phase == Looping
    ensures SlotsOk(ReadFrame(w, id, f))
  {
    assert ConnOk(w, id);
    match f
    case Ping => SendAllKeeps(w, {id}, Pong);
    case Kick => if w.conns[id].role == Daemon { KickKeeps(w, w.conns[id].deviceID); }
    case Data(raw) =>
      SendAllKeeps(w, {id}, Error("device_offline"));
      SendAllKeeps(w, Audience(w, id), Payload(id, raw));
    case _ =>
  }

  lemma TouchKeeps(w: World, c: ConnId, k: Conn)
    requires SlotsOk(w) && |k.queue| <= SEND_QUEUE
    requires c in w.conns ==>
               var o := w.conns[c];
               k.deviceID == o.deviceID && k.role == o.role && k.phase == o.phase && (o.closed ==> k.closed)
    requires c !in w.conns ==> k == NEW_CONN
    ensures SlotsOk(w.(conns := w.conns[c := k]))
  {
    var w' := w.(conns := w.conns[c := k]);
    forall d | d in w'.rooms ensures RoomOk(w', d) { assert RoomOk(w, d); }
    forall x | x in w'.conns ensures ConnOk(w', x) { assert x in w.conns ==> ConnOk(w, x); }
  }

  lemma {:induction false} RunSlots(relayKey: string, acts: seq<Action>)
    ensures SlotsOk(Exec(relayKey, acts))
    decreases |acts|
  {
    if acts != [] {
      RunSlots(relayKey, acts[..|acts| - 1]);
      StepKeeps(Exec(relayKey, acts[..|acts| - 1]), relayKey, acts[|acts| - 1]);
    }
  }

  /** Where the invariant holds, a connection fills at most one slot, under its device and role. */
  lemma OneSlot(w: World, c: ConnId, d1: DeviceId, d2: DeviceId)
    requires SlotsOk(w) && d1 in w.rooms && d2 in w.rooms
    requires w.rooms[d1].daemon == Some(c) || c in w.rooms[d1].clients
    requires w.rooms[d2].daemon == Some(c) || c in w.rooms[d2].clients
    ensures d1 == d2 && c in w.conns && w.conns[c].deviceID == d1
    ensures w.rooms[d1].daemon == Some(c) <==> w.conns[c].role == Daemon
    ensures c in w.rooms[d1].clients <==> w.conns[c].role == Client
  {
    assert RoomOk(w, d1) && RoomOk(w, d2);
  }

  /** In every reachable state a connection fills at most one slot, and only under its own device
      and role. */
  lemma {:induction false} OneSlotEach(relayKey: string, acts: seq<Action>, c: ConnId, d1: DeviceId, d2: DeviceId)
    requires var w := Exec(relayKey, acts);
             && d1 in w.rooms && d2 in w.rooms
             && (w.rooms[d1].daemon == Some(c) || c in w.rooms[d1].clients)
             && (w.rooms[d2].daemon == Some(c) || c in w.rooms[d2].clients)
    ensures var w := Exec(relayKey, acts);
            && d1 == d2 && c in w.conns && w.conns[c].deviceID == d1
            && (w.rooms[d1].daemon == Some(c) <==> w.conns[c].role == Daemon)
            && (c in w.rooms[d1].clients <==> w.conns[c].role == Client)
  {
    RunSlots(relayKey, acts);
    OneSlot(Exec(relayKey, acts), c, d1, d2);
  }

  // ---- What a connection receives ----

  /** The message a step addresses to connection `c`, if any. */
  function Addressed(w: World, relayKey: string, a: Action, c: ConnId): Option<Msg> {
    if !Enabled(w, a) then None
    else
      match a
      case Hello(id, e) =>
        if Registers(w, relayKey, a) && c in RoomOf(w, e.dev).clients then Some(Presence(e.dev, true)) else None
      case Answer(id) => if c == id then Some(w.conns[id].phase.ack) else None
      case Read(id, Ping) => if c == id then Some(Pong) else None
      case Read(id, Kick) =>
        if w.conns[id].role == Daemon && c in RoomOf(w, w.conns[id].deviceID).clients then Some(Error("kicked"))
        else None
      case Read(id, Data(raw)) =>
        if c in Audience(w, id) then Some(Payload(id, raw))
        else if c == id && w.conns[id].role != Daemon && w.conns[id].deviceID in w.rooms
                && w.rooms[w.conns[id].deviceID].daemon.None? then Some(Error("device_offline"))
        else None
      case End(id) =>
        if Leaves(w, a) && c in RoomOf(w, w.conns[id].deviceID).clients then Some(Presence(w.conns[id].deviceID, false))
        else None
      case _ => None
  }

  /** The step brings a daemon online. */
  predicate Registers(w: World, relayKey: string, a: Action) {
    a.Hello? && Enabled(w, a) && a.e.role == "daemon" && Call(w, relayKey, a.id, a.e).1.HelloAck?
  }

  /** The step takes a daemon offline. */
  predicate Leaves(w: World, a: Action) {
    a.End? && Enabled(w, a) && w.conns[a.id].role == Daemon
    && RoomOf(w, w.conns[a.id].deviceID).daemon == Some(a.id)
  }

  predicate Accepts(k: Conn) { !k.closed && |k.queue| < SEND_QUEUE }

  /** Every step extends what a connection was sent by the message addressed to it, in order; it
      loses that message only when it is shut down or is being shut down for a full queue. The
      device and role are fixed by the hello. */
  predicate Extends(k: Conn, k': Conn, m: Option<Msg>) {
    && All(k') == All(k) + (if m.Some? && Accepts(k) then [m.value] else [])
    && (!k'.closed ==> !k.closed && (m.Some? ==> Accepts(k)))
    && (k.phase != Opened ==> k'.phase != Opened && k'.deviceID == k.deviceID && k'.role == k.role)
  }

  lemma SendAllExtends(conns: map<ConnId, Conn>, ids: set<ConnId>, m: Msg, c: ConnId)
    requires c in conns
    ensures Extends(conns[c], SendAll(conns, ids, m)[c], if c in ids then Some(m) else None)
  {
  }

  lemma HelloExtends(w: World, relayKey: string, id: ConnId, e: Envelope, c: ConnId)
    requires SlotsOk(w) && c in w.conns && Enabled(w, Hello(id, e))
    ensures c in Called(w, relayKey, id, e).conns
    ensures Extends(w.conns[c], Called(w, relayKey, id, e).conns[c], Addressed(w, relayKey, Hello(id, e), c))
  {
    if Registers(w, relayKey, Hello(id, e)) {
      var r := RoomOf(w, e.dev);
      if e.dev in w.rooms { assert RoomOk(w, e.dev); }
      assert id !in r.clients;
      var conns := w.conns[id := w.conns[id].(deviceID := e.dev, role := Daemon)];
      SendAllExtends(conns, r.clients, Presence(e.dev, true), c);
    }
  }

  lemma {:induction false} StepExtends(w: World, relayKey: string, a: Action, c: ConnId)
    requires SlotsOk(w) && c in w.conns
    ensures c in Step(w, relayKey, a).conns
    ensures Extends(w.conns[c], Step(w, relayKey, a).conns[c], Addressed(w, relayKey, a, c))
  {
    if Enabled(w, a) {
      match a
      case Open(_) =>
      case Write(id) =>
        if c == id { assert w.conns[c].queue == [w.conns[c].queue[0]] + w.conns[c].queue[1..]; }
      case Break(_) =>
      case Hello(id, e) => HelloExtends(w, relayKey, id, e, c);
      case Answer(id) => SendAllExtends(w.conns, {id}, w.conns[id].phase.ack, c);
      case Read(id, f) => ReadExtends(w, relayKey, id, f, c);
      case End(id) => EndExtends(w, relayKey, id, c);
    }
  }

  lemma ReadExtends(w: World, relayKey: string, id: ConnId, f: Frame, c: ConnId)
    requires SlotsOk(w) && c in w.conns && Enabled(w, Read(id, f))
    ensures c in ReadFrame(w, id, f).conns
    ensures Extends(w.conns[c], ReadFrame(w, id, f).conns[c], Addressed(w, relayKey, Read(id, f), c))
  {
    assert ConnOk(w, id);
    var r := RoomOf(w, w.conns[id].deviceID);
    match f
    case Ping => SendAllExtends(w.conns, {id}, Pong, c);
    case Kick => SendAllExtends(w.conns, r.clients, Error("kicked"), c);
    case Data(raw) =>
      SendAllExtends(w.conns, {id}, Error("device_offline"), c);
      SendAllExtends(w.conns, Audience(w, id), Payload(id, raw), c);
    case _ =>
  }

  lemma EndExtends(w: World, relayKey: string, id: ConnId, c: ConnId)
    requires SlotsOk(w) && c in w.conns && Enabled(w, End(id))
    ensures c in Cleanup(w, id).conns
    ensures Extends(w.conns[c], Cleanup(w, id).conns[c], Addressed(w, relayKey, End(id), c))
  {
    var dev := w.conns[id].deviceID;
    SendAllExtends(w.conns, RoomOf(w, dev).clients, Presence(dev, false), c);
  }

  /** Only connections whose hello was taken are addressed. */
  lemma AddressedIsLive(w: World, relayKey: string, a: Action, c: ConnId)
    requires SlotsOk(w) && Addressed(w, relayKey, a, c).Some?
    ensures c in w.conns && w.conns[c].phase != Opened
  {
    var dev := if a.Hello? then a.e.dev else w.conns[a.id].deviceID;
    assert ConnOk(w, a.id);
    if dev in w.rooms { assert RoomOk(w, dev); }
  }

  function Payloads(ms: seq<Msg>): seq<Msg> {
    if ms == [] then []
    else
      var rest, m := Payloads(ms[..|ms| - 1]), ms[|ms| - 1];
      if m.Payload? then rest + [m] else rest
  }

  /** The step forwards a payload to the room's other side, and `c` holds that slot. */
  predicate ForwardsTo(w: World, a: Action, c: ConnId) {
    a.Read? && a.frame.Data? && Enabled(w, a) && c in Audience(w, a.id)
  }

  /** What the other side of `c`'s room forwarded while `c` held its slot, over a whole run. */
  function Forwarded(relayKey: string, acts: seq<Action>, c: ConnId): seq<Msg> {
    if acts == [] then []
    else
      var pre, a := acts[..|acts| - 1], acts[|acts| - 1];
      var rest := Forwarded(relayKey, pre, c);
      if ForwardsTo(Exec(relayKey, pre), a, c) then rest + [Payload(a.id, a.frame.raw)] else rest
  }

  lemma PayloadsSnoc(ms: seq<Msg>, m: Msg)
    ensures Payloads(ms + [m]) == Payloads(ms) + if m.Payload? then [m] else []
    ensures LastPresence(ms + [m]) == if m.Presence? then m.online else LastPresence(ms)
  {
    assert (ms + [m])[..|ms|] == ms;
  }

  lemma AddressedPayload(w: World, relayKey: string, a: Action, c: ConnId)
    requires SlotsOk(w)
    ensures var m := Addressed(w, relayKey, a, c);
            if ForwardsTo(w, a, c) then m == Some(Payload(a.id, a.frame.raw))
            else m.Some? ==> !m.value.Payload?
  {
    if a.Answer? && Enabled(w, a) { assert ConnOk(w, a.id); }
  }

  lemma ExtendsPayloads(k: Conn, k': Conn, m: Option<Msg>, all: seq<Msg>)
    requires Extends(k, k', m) && Payloads(All(k)) <= all && (!k.closed ==> Payloads(All(k)) == all)
    ensures var all' := if m.Some? && m.value.Payload? then all + [m.value] else all;
            Payloads(All(k')) <= all' && (!k'.closed ==> Payloads(All(k')) == all')
  {
    if m.Some? { PayloadsSnoc(All(k), m.value); }
    assert All(k) + [] == All(k);
  }

  /** The relay is a FIFO pipe: what a connection is sent of the other side's forwards is a prefix
      of them, and all of them, in order and once each, as long as it was never shut down. */
  lemma {:induction false} FifoPipe(relayKey: string, acts: seq<Action>, c: ConnId)
    requires c in Exec(relayKey, acts).conns
    ensures Payloads(All(Exec(relayKey, acts).conns[c])) <= Forwarded(relayKey, acts, c)
    ensures !Exec(relayKey, acts).conns[c].closed ==>
              Payloads(All(Exec(relayKey, acts).conns[c])) == Forwarded(relayKey, acts, c)
    decreases |acts|
  {
    var pre, a := acts[..|acts| - 1], acts[|acts| - 1];
    var w := Exec(relayKey, pre);
    RunSlots(relayKey, pre);
    if c in w.conns {
      FifoPipe(relayKey, pre, c);
      StepExtends(w, relayKey, a, c);
      AddressedPayload(w, relayKey, a, c);
      ExtendsPayloads(w.conns[c], Exec(relayKey, acts).conns[c], Addressed(w, relayKey, a, c),
                      Forwarded(relayKey, pre, c));
    } else {
      NothingBeforeOpen(relayKey, acts, c);
      NewIsEmpty(w, relayKey, a, c);
    }
  }

  lemma NewIsEmpty(w: World, relayKey: string, a: Action, c: ConnId)
    requires c !in w.conns && c in Step(w, relayKey, a).conns
    ensures a == Open(c) && Step(w, relayKey, a).conns[c] == NEW_CONN
  {
  }

  lemma {:induction false} NothingBeforeOpen(relayKey: string, acts: seq<Action>, c: ConnId)
    requires acts == [] || c !in Exec(relayKey, acts[..|acts| - 1]).conns
    ensures Forwarded(relayKey, acts, c) == []
    decreases |acts|
  {
    if acts != [] {
      var pre, a := acts[..|acts| - 1], acts[|acts| - 1];
      RunSlots(relayKey, pre);
      if ForwardsTo(Exec(relayKey, pre), a, c) {
        AddressedIsLive(Exec(relayKey, pre), relayKey, a, c);
      }
      if pre != [] {
        RunSlots(relayKey, pre[..|pre| - 1]);
        if c in Exec(relayKey, pre[..|pre| - 1]).conns {
          StepExtends(Exec(relayKey, pre[..|pre| - 1]), relayKey, pre[|pre| - 1], c);
        }
      }
      NothingBeforeOpen(relayKey, pre, c);
    }
  }

  /** Every payload ever queued has a sender and a receiver of the same device. */
  lemma {:induction false} PayloadsStayInDevice(relayKey: string, acts: seq<Action>, c: ConnId, m: Msg)
    requires c in Exec(relayKey, acts).conns && m in All(Exec(relayKey, acts).conns[c]) && m.Payload?
    ensures var w := Exec(relayKey, acts);
            && m.from in w.conns && w.conns[m.from].deviceID == w.conns[c].deviceID != ""
            && w.conns[c].phase != Opened && w.conns[m.from].phase != Opened
    decreases |acts|
  {
    var pre, a := acts[..|acts| - 1], acts[|acts| - 1];
    var w := Exec(relayKey, pre);
    RunSlots(relayKey, pre);
    if c in w.conns {
      StepExtends(w, relayKey, a, c);
      AddressedPayload(w, relayKey, a, c);
      if m in All(w.conns[c]) {
        PayloadsStayInDevice(relayKey, pre, c, m);
      } else {
        assert Addressed(w, relayKey, a, c) == Some(m);
        AudienceShares(w, a.id, c);
      }
      StepExtends(w, relayKey, a, m.from);
    } else {
      NewIsEmpty(w, relayKey, a, c);
    }
  }

  lemma AudienceShares(w: World, from: ConnId, c: ConnId)
    requires SlotsOk(w) && from in w.conns && c in Audience(w, from)
    ensures c in w.conns && w.conns[c].deviceID == w.conns[from].deviceID != ""
    ensures Admitted(w.conns[c].phase) && w.conns[c].role == if w.conns[from].role == Daemon then Client else Daemon
  {
    assert RoomOk(w, w.conns[from].deviceID);
  }

  // ---- Presence ----

  function LastPresence(ms: seq<Msg>): bool {
    if ms == [] then true
    else if ms[|ms| - 1].Presence? then ms[|ms| - 1].online
    else LastPresence(ms[..|ms| - 1])
  }

  /** What viewer `c` was last told, or "online" when told nothing since it joined. */
  predicate Told(w: World, dev: DeviceId, c: ConnId)
    requires dev in w.rooms
  {
    c in w.rooms[dev].clients ==>
      c in w.conns && (!w.conns[c].closed ==> LastPresence(All(w.conns[c])) == w.rooms[dev].daemon.Some?)
  }

  /** How one step changes whether a daemon holds the room a viewer is in. */
  lemma DaemonChange(w: World, relayKey: string, a: Action, dev: DeviceId, c: ConnId)
    requires SlotsOk(w) && dev in w.rooms && c in w.rooms[dev].clients
    requires dev in Step(w, relayKey, a).rooms
    ensures var m := Addressed(w, relayKey, a, c);
            Step(w, relayKey, a).rooms[dev].daemon.Some? ==
            if m.Some? && m.value.Presence? then m.value.online else w.rooms[dev].daemon.Some?
  {
    assert RoomOk(w, dev);
    if Enabled(w, a) {
      match a
      case Hello(id, e) => DaemonChangeHello(w, relayKey, id, e, dev, c);
      case Read(id, f) => DaemonChangeRead(w, relayKey, id, f, dev, c);
      case End(id) => DaemonChangeEnd(w, relayKey, id, dev, c);
      case Answer(id) => assert ConnOk(w, id);
      case _ =>
    }
  }

  lemma DaemonChangeHello(w: World, relayKey: string, id: ConnId, e: Envelope, dev: DeviceId, c: ConnId)
    requires SlotsOk(w) && dev in w.rooms && c in w.rooms[dev].clients && Enabled(w, Hello(id, e))
    ensures var m := Addressed(w, relayKey, Hello(id, e), c);
            && dev in Called(w, relayKey, id, e).rooms
            && Called(w, relayKey, id, e).rooms[dev].daemon.Some? ==
               if m.Some? && m.value.Presence? then m.value.online else w.rooms[dev].daemon.Some?
  {
    assert RoomOk(w, dev);
    if e.dev in w.rooms { assert RoomOk(w, e.dev); }
  }

  lemma DaemonChangeRead(w: World, relayKey: string, id: ConnId, f: Frame, dev: DeviceId, c: ConnId)
    requires dev in w.rooms && Enabled(w, Read(id, f))
    ensures dev in ReadFrame(w, id, f).rooms && ReadFrame(w, id, f).rooms[dev].daemon == w.rooms[dev].daemon
    ensures var m := Addressed(w, relayKey, Read(id, f), c); m.Some? ==> !m.value.Presence?
  {
  }

  lemma DaemonChangeEnd(w: World, relayKey: string, id: ConnId, dev: DeviceId, c: ConnId)
    requires SlotsOk(w) && dev in w.rooms && c in w.rooms[dev].clients && Enabled(w, End(id))
    requires dev in Cleanup(w, id).rooms
    ensures var m := Addressed(w, relayKey, End(id), c);
            Cleanup(w, id).rooms[dev].daemon.Some? ==
            if m.Some? && m.value.Presence? then m.value.online else w.rooms[dev].daemon.Some?
  {
    assert RoomOk(w, dev) && ConnOk(w, id);
    if w.conns[id].deviceID in w.rooms { assert RoomOk(w, w.conns[id].deviceID); }
  }

  /** A slot is entered only by the connection's own hello, into a room with a daemon. */
  lemma JoinedByHello(w: World, relayKey: string, a: Action, dev: DeviceId, c: ConnId)
    requires SlotsOk(w) && dev in Step(w, relayKey, a).rooms && c in Step(w, relayKey, a).rooms[dev].clients
    requires dev !in w.rooms || c !in w.rooms[dev].clients
    ensures a.Hello? && Enabled(w, a) && a.id == c
    ensures Addressed(w, relayKey, a, c) == None && Step(w, relayKey, a).rooms[dev].daemon.Some?
  {
    match a
    case Hello(id, e) =>
      if Enabled(w, a) { JoinedByCall(w, relayKey, id, e, dev, c); }
    case _ =>
  }

  lemma JoinedByCall(w: World, relayKey: string, id: ConnId, e: Envelope, dev: DeviceId, c: ConnId)
    requires Enabled(w, Hello(id, e)) && dev in Called(w, relayKey, id, e).rooms
    requires c in Called(w, relayKey, id, e).rooms[dev].clients && (dev !in w.rooms || c !in w.rooms[dev].clients)
    ensures id == c && e.role != "daemon" && Called(w, relayKey, id, e).rooms[dev].daemon.Some?
  {
  }

  lemma {:induction false} SilentBeforeHello(relayKey: string, acts: seq<Action>, c: ConnId)
    requires c in Exec(relayKey, acts).conns && Exec(relayKey, acts).conns[c].phase == Opened
    ensures All(Exec(relayKey, acts).conns[c]) == []
    decreases |acts|
  {
    var pre, a := acts[..|acts| - 1], acts[|acts| - 1];
    var w := Exec(relayKey, pre);
    RunSlots(relayKey, pre);
    if c in w.conns {
      StepExtends(w, relayKey, a, c);
      SilentBeforeHello(relayKey, pre, c);
      if Addressed(w, relayKey, a, c).Some? { AddressedIsLive(w, relayKey, a, c); }
    } else {
      NewIsEmpty(w, relayKey, a, c);
    }
  }

  lemma ExtendsPresence(k: Conn, k': Conn, m: Option<Msg>)
    requires Extends(k, k', m) && !k'.closed
    ensures LastPresence(All(k')) ==
            if m.Some? && m.value.Presence? then m.value.online else LastPresence(All(k))
  {
    if m.Some? { PayloadsSnoc(All(k), m.value); }
    assert All(k) + [] == All(k);
  }

  /** Presence agrees with the truth in every reachable state, for every joined viewer that has
      not been shut down. */
  lemma {:induction false} PresenceIsTrue(relayKey: string, acts: seq<Action>, dev: DeviceId, c: ConnId)
    requires dev in Exec(relayKey, acts).rooms && c in Exec(relayKey, acts).rooms[dev].clients
    ensures Told(Exec(relayKey, acts), dev, c)
    decreases |acts|
  {
    var pre, a := acts[..|acts| - 1], acts[|acts| - 1];
    var w, w' := Exec(relayKey, pre), Exec(relayKey, acts);
    RunSlots(relayKey, pre);
    RunSlots(relayKey, acts);
    assert RoomOk(w', dev);
    var m := Addressed(w, relayKey, a, c);
    if dev in w.rooms && c in w.rooms[dev].clients {
      assert RoomOk(w, dev);
      PresenceIsTrue(relayKey, pre, dev, c);
      DaemonChange(w, relayKey, a, dev, c);
    } else {
      JoinedByHello(w, relayKey, a, dev, c);
      SilentBeforeHello(relayKey, pre, c);
    }
    StepExtends(w, relayKey, a, c);
    if !w'.conns[c].closed { ExtendsPresence(w.conns[c], w'.conns[c], m); }
  }

  // ---- Cleanup and the room map over whole runs ----

  /** In every reachable state the map's keys are exactly the devices of connections in a slot. */
  lemma {:induction false} MapIsOccupiedRooms(relayKey: string, acts: seq<Action>, dev: DeviceId)
    ensures var w := Exec(relayKey, acts);
            dev in w.rooms <==>
            exists c :: c in w.conns && Admitted(w.conns[c].phase) && w.conns[c].deviceID == dev && InSlot(w, c)
  {
    var w := Exec(relayKey, acts);
    RunSlots(relayKey, acts);
    if dev in w.rooms {
      assert RoomOk(w, dev);
      if w.rooms[dev].daemon.Some? {
        assert InSlot(w, w.rooms[dev].daemon.value);
      } else {
        var c :| c in w.rooms[dev].clients;
        assert InSlot(w, c);
      }
    }
  }

  lemma DaemonByHello(w: World, relayKey: string, a: Action, dev: DeviceId, c: ConnId)
    requires dev in Step(w, relayKey, a).rooms && Step(w, relayKey, a).rooms[dev].daemon == Some(c)
    requires dev !in w.rooms || w.rooms[dev].daemon != Some(c)
    ensures a.Hello? && Enabled(w, a) && a.id == c
  {
  }

  /** A slot that was left, or never entered, is not entered after the hello. */
  lemma StaysOut(w: World, relayKey: string, a: Action, c: ConnId)
    requires SlotsOk(w) && c in w.conns && w.conns[c].phase != Opened && !InSlot(w, c)
    ensures c in Step(w, relayKey, a).conns && Step(w, relayKey, a).conns[c].phase != Opened
    ensures !InSlot(Step(w, relayKey, a), c)
  {
    StepExtends(w, relayKey, a, c);
    var w' := Step(w, relayKey, a);
    var dev := w'.conns[c].deviceID;
    if dev in w'.rooms && w'.rooms[dev].daemon == Some(c) { DaemonByHello(w, relayKey, a, dev, c); }
    if dev in w'.rooms && c in w'.rooms[dev].clients { JoinedByHello(w, relayKey, a, dev, c); }
  }

  predicate HarmlessEnd(w: World, relayKey: string, c: ConnId) {
    && Step(w, relayKey, End(c)).rooms == w.rooms
    && Step(w, relayKey, End(c)).conns - {c} == w.conns - {c}
  }

  lemma OutsideEndIsHarmless(w: World, relayKey: string, c: ConnId)
    requires SlotsOk(w) && c in w.conns && !InSlot(w, c)
    ensures HarmlessEnd(w, relayKey, c)
  {
    CleanupOutsideSlots(w, c);
  }

  /** Once a connection is out of its slot, whatever happens before its cleanup, the cleanup
      changes no room and no other connection. */
  lemma {:induction false} LateCleanupIsHarmless(relayKey: string, acts: seq<Action>, more: seq<Action>, c: ConnId)
    requires c in Exec(relayKey, acts).conns && Exec(relayKey, acts).conns[c].phase != Opened
    requires !InSlot(Exec(relayKey, acts), c)
    ensures c in Exec(relayKey, acts + more).conns && Exec(relayKey, acts + more).conns[c].phase != Opened
    ensures !InSlot(Exec(relayKey, acts + more), c)
    ensures HarmlessEnd(Exec(relayKey, acts + more), relayKey, c)
    decreases |more|
  {
    RunSlots(relayKey, acts + more);
    if more == [] {
      assert acts + more == acts;
    } else {
      var pre := more[..|more| - 1];
      assert (acts + more)[..|acts + more| - 1] == acts + pre;
      LateCleanupIsHarmless(relayKey, acts, pre, c);
      RunSlots(relayKey, acts + pre);
      StaysOut(Exec(relayKey, acts + pre), relayKey, more[|more| - 1], c);
    }
    OutsideEndIsHarmless(Exec(relayKey, acts + more), relayKey, c);
  }

  /** A rejected connection is in no slot, and a kicked one is out as soon as the kick returns. */
  lemma {:induction false} RejectedAndKickedAreOut(relayKey: string, acts: seq<Action>, c: ConnId, d: ConnId)
    requires c in Exec(relayKey, acts).conns
    ensures Refused(Exec(relayKey, acts).conns[c].phase) ==> !InSlot(Exec(relayKey, acts), c)
    ensures var w := Exec(relayKey, acts);
            var w' := Step(w, relayKey, Read(d, Kick));
            Enabled(w, Read(d, Kick)) && w.conns[d].role == Daemon && c in Audience(w, d) ==>
              && c in w'.conns && !InSlot(w', c) && Admitted(w'.conns[c].phase) && w'.conns[c].closed
              && w'.rooms == w.rooms[w.conns[d].deviceID := w.rooms[w.conns[d].deviceID].(clients := {})]
  {
    var w := Exec(relayKey, acts);
    RunSlots(relayKey, acts);
    assert ConnOk(w, c);
    if Enabled(w, Read(d, Kick)) && w.conns[d].role == Daemon && c in Audience(w, d) {
      AudienceShares(w, d, c);
      assert RoomOk(w, w.conns[d].deviceID);
    }
    forall dev | dev in w.rooms ensures dev != "" { assert RoomOk(w, dev); }
  }
}
