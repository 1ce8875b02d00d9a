/** The hub's methods (relay/hub.go) and the lifecycle of a connection (relay/main.go) on the hub's
    own fields, each proved against its function in module Hub. Every lifecycle method keeps the
    map and slot invariant. */
module RelayHub {
  import opened Common
  import opened H = Hub

  class RelayHub {
    const relayKey: string
    var rooms: map<DeviceId, Room>
    var conns: map<ConnId, Conn>

    ghost function View(): World reads this { World(rooms, conns) }

    /** Rooms point at connections that exist. */
    ghost predicate Valid() reads this {
      forall dev :: dev in rooms ==>
        && rooms[dev].clients <= conns.Keys
        && (rooms[dev].daemon.Some? ==> rooms[dev].daemon.value in conns)
    }

    constructor (expectedKey: string)
      ensures View() == NEW_WORLD && relayKey == expectedKey && Valid() && SlotsOk(View())
    {
      relayKey := expectedKey;
      rooms, conns := map[], map[];
    }

    method SendMsg(c: ConnId, m: Msg) returns (ok: bool)
      requires c in conns
      modifies this`conns
      ensures conns == SendAll(old(conns), {c}, m)
      ensures ok == Accepts(old(conns)[c])
    {
      var k := conns[c];
      if k.closed {
        return false;
      }
      if |k.queue| < SEND_QUEUE {
        conns := conns[c := k.(queue := k.queue + [m])];
        ok := true;
      } else {
        Shutdown(c);
        ok := false;
      }
    }

    method Shutdown(c: ConnId)
      requires c in conns
      modifies this`conns
      ensures conns == Shut(old(conns), {c})
    {
      conns := conns[c := conns[c].(closed := true)];
    }

    method BroadcastToClients(clients: set<ConnId>, m: Msg)
      requires clients <= conns.Keys
      modifies this`conns
      ensures conns == SendAll(old(conns), clients, m)
    {
      var rest := clients;
      while rest != {}
        invariant rest <= clients
        invariant conns == SendAll(old(conns), clients - rest, m)
      {
        var c :| c in rest;
        var _ := SendMsg(c, m);
        rest := rest - {c};
      }
    }

    method RegisterDaemon(dev: DeviceId, token: string, c: ConnId) returns (ack: Msg)
      requires Valid() && c in conns
      modifies this
      ensures Valid() && conns.Keys == old(conns).Keys
      ensures (View(), ack) == H.RegisterDaemon(old(View()), relayKey, dev, token, c)
    {
      if relayKey != "" && token != relayKey {
        return Error("auth_failed");
      }
      if dev !in rooms {
        rooms := rooms[dev := Room(None, "", {})];
      }
      var r := rooms[dev];
      if r.daemon.Some? {
        return Error("device_already_online");
      }
      rooms := rooms[dev := r.(daemon := Some(c), token := token)];
      assert rooms == old(rooms)[dev := rooms[dev]];
      conns := conns[c := conns[c].(deviceID := dev, role := Daemon)];
      BroadcastToClients(r.clients, Presence(dev, true));
      ack := HelloAck(dev);
    }

    method JoinClient(dev: DeviceId, c: ConnId) returns (ack: Msg)
      requires Valid() && c in conns
      modifies this
      ensures Valid() && conns.Keys == old(conns).Keys
      ensures (View(), ack) == H.JoinClient(old(View()), dev, c)
    {
      if dev !in rooms {
        return Error("device_offline");
      }
      var r := rooms[dev];
      if r.daemon.None? {
        return Error("device_offline");
      }
      if |r.clients| > 0 {
        return Error("device_busy");
      }
      rooms := rooms[dev := r.(clients := r.clients + {c})];
      conns := conns[c := conns[c].(deviceID := dev, role := Client)];
      ack := HelloAck(dev);
    }

    method Forward(from: ConnId, raw: Bytes)
      requires Valid() && from in conns
      modifies this`conns
      ensures Valid() && conns.Keys == old(conns).Keys
      ensures View() == H.Forward(old(View()), from, raw)
    {
      if conns[from].deviceID !in rooms {
        return;
      }
      var r := rooms[conns[from].deviceID];
      if conns[from].role == Daemon {
        BroadcastToClients(r.clients, Payload(from, raw));
      } else if r.daemon.None? {
        var _ := SendMsg(from, Error("device_offline"));
      } else {
        var _ := SendMsg(r.daemon.value, Payload(from, raw));
      }
    }

    method KickClients(dev: DeviceId)
      requires Valid()
      modifies this
      ensures Valid() && conns.Keys == old(conns).Keys
      ensures View() == H.KickClients(old(View()), dev)
    {
      if dev !in rooms {
        return;
      }
      var clients := rooms[dev].clients;
      rooms := rooms[dev := rooms[dev].(clients := {})];
      var rest := clients;
      while rest != {}
        invariant rest <= clients <= conns.Keys && rooms == old(rooms)[dev := old(rooms)[dev].(clients := {})]
        invariant conns == Shut(SendAll(old(conns), clients - rest, Error("kicked")), clients - rest)
      {
        var c :| c in rest;
        var _ := SendMsg(c, Error("kicked"));
        Shutdown(c);
        rest := rest - {c};
      }
    }

    method Unregister(c: ConnId)
      requires Valid() && c in conns
      modifies this
      ensures Valid() && conns.Keys == old(conns).Keys
      ensures View() == H.Unregister(old(View()), c)
    {
      var dev := conns[c].deviceID;
      if dev !in rooms {
        return;
      }
      var r := rooms[dev];
      if conns[c].role == Daemon && r.daemon == Some(c) {
        r := r.(daemon := None);
        BroadcastToClients(r.clients, Presence(dev, false));
      } else {
        r := r.(clients := r.clients - {c});
      }
      rooms := rooms[dev := r];
      if r.daemon.None? && |r.clients| == 0 {
        rooms := rooms - {dev};
      }
    }

    /** A new connection. */
    method Accept(c: ConnId)
      requires Valid() && c !in conns
      modifies this`conns
      ensures Valid() && View() == Step(old(View()), relayKey, Open(c))
      ensures old(SlotsOk(View())) ==> SlotsOk(View())
    {
      ghost var w := View();
      conns := conns[c := NEW_CONN];
      if SlotsOk(w) { StepKeeps(w, relayKey, Open(c)); }
    }

    method TakeHello(c: ConnId, e: Envelope)
      requires Valid() && c in conns && conns[c].phase == Opened
      modifies this
      ensures Valid() && c in conns && conns[c].phase.Greeted?
      ensures View() == Step(old(View()), relayKey, Hello(c, e))
      ensures old(SlotsOk(View())) ==> SlotsOk(View())
    {
      ghost var w := View();
      var ack;
      if e.t != "hello" {
        ack := Error("protocol_error");
      } else if e.v != 1 {
        ack := Error("unsupported_version");
      } else if e.dev == "" {
        ack := Error("auth_failed");
      } else if e.role == "daemon" && e.token == "" {
        ack := Error("auth_failed");
      } else if e.role == "daemon" {
        ack := RegisterDaemon(e.dev, e.token, c);
      } else if e.role == "client" {
        ack := JoinClient(e.dev, c);
      } else {
        ack := Error("auth_failed");
      }
      conns := conns[c := conns[c].(phase := Greeted(ack))];
      if SlotsOk(w) { CalledKeeps(w, relayKey, c, e); }
    }

    /** Sends the answer; an error ends the connection's reading. */
    method AnswerHello(c: ConnId)
      requires Valid() && c in conns && conns[c].phase.Greeted?
      modifies this`conns
      ensures Valid() && c in conns && (conns[c].phase == Looping || conns[c].phase == Rejected)
      ensures View() == Step(old(View()), relayKey, Answer(c))
      ensures old(SlotsOk(View())) ==> SlotsOk(View())
    {
      ghost var w := View();
      var ack := conns[c].phase.ack;
      var _ := SendMsg(c, ack);
      conns := conns[c := conns[c].(phase := if ack.HelloAck? then Looping else Rejected)];
      if SlotsOk(w) { AnsweredKeeps(w, c); }
    }

    method ReadFrame(c: ConnId, f: Frame)
      requires Valid() && c in conns && conns[c].phase == Looping && !conns[c].closed
      modifies this
      ensures Valid() && conns.Keys == old(conns).Keys
      ensures View() == H.ReadFrame(old(View()), c, f) == Step(old(View()), relayKey, Read(c, f))
      ensures old(SlotsOk(View())) ==> SlotsOk(View())
    {
      ghost var w := View();
      match f {
        case Ping => var _ := SendMsg(c, Pong);
        case Kick =>
          if conns[c].role == Daemon {
            KickClients(conns[c].deviceID);
          }
        case Data(raw) => Forward(c, raw);
        case _ =>
      }
      if SlotsOk(w) { ReadFrameKeeps(w, c, f); }
    }

    /** The deferred end of a connection. */
    method CleanUp(c: ConnId)
      requires Valid() && c in conns && conns[c].phase != Ended && !conns[c].phase.Greeted?
      modifies this
      ensures View() == H.Cleanup(old(View()), c)
      ensures old(SlotsOk(View())) ==> SlotsOk(View()) && !InSlot(View(), c)
    {
      ghost var w := View();
      Unregister(c);
      ghost var left := View();
      Shutdown(c);
      conns := conns[c := conns[c].(phase := Ended)];
      ShutAndEnded(w, left, View(), c);
      if SlotsOk(w) { CleanupEmptiesSlot(w, c); }
    }

    /** One connection from its hello to its cleanup, when no other connection runs meanwhile. */
    method ReadPump(c: ConnId, e: Envelope, frames: seq<Frame>)
      requires Valid() && c in conns && conns[c].phase == Opened
      modifies this
      ensures View() == H.Cleanup(Frames(H.Greet(old(View()), relayKey, c, e), c, frames), c)
      ensures old(SlotsOk(View())) ==> SlotsOk(View()) && !InSlot(View(), c)
    {
      ghost var w := View();
      TakeHello(c, e);
      AnswerHello(c);
      ghost var greeted := View();
      for i := 0 to |frames|
        invariant Valid() && c in conns && c in greeted.conns
        invariant conns[c].phase == Looping || conns[c].phase == Rejected
        invariant View() == Frames(greeted, c, frames[..i])
      {
        assert frames[..i + 1][..i] == frames[..i];
        ReadKeepsPhase(View(), c, frames[i]);
        if conns[c].phase == Looping && !conns[c].closed {
          ReadFrame(c, frames[i]);
        }
      }
      assert frames[..|frames|] == frames;
      CleanUp(c);
      if SlotsOk(w) {
        GreetKeeps(w, relayKey, c, e);
        FramesKeep(greeted, c, frames);
      }
    }
  }

  lemma ReadKeepsPhase(w: World, c: ConnId, f: Frame)
    requires c in w.conns
    ensures c in H.ReadFrame(w, c, f).conns && H.ReadFrame(w, c, f).conns[c].phase == w.conns[c].phase
  {
  }

  lemma ShutAndEnded(w: World, left: World, w': World, c: ConnId)
    requires c in w.conns && left == H.Unregister(w, c) && c in left.conns
    requires w'.rooms == left.rooms
    requires var shut := Shut(left.conns, {c}); w'.conns == shut[c := shut[c].(phase := Ended)]
    ensures w' == H.Cleanup(w, c)
  {
    var shut := Shut(left.conns, {c});
    assert shut == left.conns[c := left.conns[c].(closed := true)];
  }

  lemma CleanupEmptiesSlot(w: World, c: ConnId)
    requires SlotsOk(w) && c in w.conns
    ensures SlotsOk(Cleanup(w, c)) && c in Cleanup(w, c).conns && !InSlot(Cleanup(w, c), c)
  {
    var w' := Cleanup(w, c);
    CleanupKeeps(w, c);
    assert c in w'.conns && w'.conns[c].phase == Ended;
    if w'.conns[c].deviceID in w'.rooms { assert RoomOk(w', w'.conns[c].deviceID); }
  }

  /** A connection's frames, read one after another while it may read. */
  ghost function Frames(w: World, c: ConnId, frames: seq<Frame>): (w': World)
    requires c in w.conns
    ensures w'.conns.Keys == w.conns.Keys
  {
    if frames == [] then w
    else
      var w1 := Frames(w, c, frames[..|frames| - 1]);
      if Enabled(w1, Read(c, frames[|frames| - 1])) then H.ReadFrame(w1, c, frames[|frames| - 1]) else w1
  }

  lemma {:induction false} FramesKeep(w: World, c: ConnId, frames: seq<Frame>)
    requires SlotsOk(w) && c in w.conns
    ensures SlotsOk(Frames(w, c, frames))
    decreases |frames|
  {
    if frames != [] {
      var w1, f := Frames(w, c, frames[..|frames| - 1]), frames[|frames| - 1];
      FramesKeep(w, c, frames[..|frames| - 1]);
      if Enabled(w1, Read(c, f)) { ReadFrameKeeps(w1, c, f); }
    }
  }
}
