/** The hello at the relay (relay/main.go, relay/hub.go): its exact outcome, and who fills a slot. */
module HubHello {
  import opened Common
  import opened H = Hub

  // ---- The outcome of one hello ----

  datatype Check = Check(holds: bool, code: string)

  predicate HasDaemon(w: World, dev: DeviceId) { dev in w.rooms && w.rooms[dev].daemon.Some? }

  predicate HasViewer(w: World, dev: DeviceId) { dev in w.rooms && w.rooms[dev].clients != {} }

  /** What a hello must meet, in the order in which it is looked at. */
  function Checks(w: World, relayKey: string, e: Envelope): seq<Check> {
    var daemon, client := e.role == "daemon", e.role == "client";
    [ Check(e.t == "hello", "protocol_error"),
      Check(e.v == 1, "unsupported_version"),
      Check(e.dev != "", "auth_failed"),
      Check(daemon ==> e.token != "", "auth_failed"),
      Check(daemon || client, "auth_failed"),
      Check(daemon && relayKey != "" ==> e.token == relayKey, "auth_failed"),
      Check(daemon ==> !HasDaemon(w, e.dev), "device_already_online"),
      Check(client ==> HasDaemon(w, e.dev), "device_offline"),
      Check(client ==> !HasViewer(w, e.dev), "device_busy") ]
  }

  predicate AllHold(cs: seq<Check>) { forall i :: 0 <= i < |cs| ==> cs[i].holds }

  predicate FirstFailing(cs: seq<Check>, i: nat) {
    i < |cs| && !cs[i].holds && forall j :: 0 <= j < i ==> cs[j].holds
  }

  /** The rooms after a hello that meets every check: its connection in its slot, nothing else. */
  function Entered(w: World, id: ConnId, e: Envelope): map<DeviceId, Room> {
    var viewers := if e.dev in w.rooms then w.rooms[e.dev].clients else {};
    w.rooms[e.dev := if e.role == "daemon" then Room(Some(id), e.token, viewers)
                     else if e.dev in w.rooms then w.rooms[e.dev].(clients := {id}) else Room(None, "", {id})]
  }

  lemma OutcomeOf(w: World, relayKey: string, id: ConnId, e: Envelope)
    requires id in w.conns && w.conns[id].phase == Opened && SlotsOk(w)
    ensures var w', cs := Step(w, relayKey, Hello(id, e)), Checks(w, relayKey, e);
            && id in w'.conns && w'.conns[id].phase.Greeted?
            && (AllHold(cs) ==> w'.conns[id].phase.ack == HelloAck(e.dev) && w'.rooms == Entered(w, id, e))
            && (forall i: nat :: FirstFailing(cs, i) ==>
                  w'.conns[id].phase.ack == Error(cs[i].code) && w'.rooms == w.rooms)
  {
    var cs := Checks(w, relayKey, e);
    if e.dev in w.rooms { assert RoomOk(w, e.dev); }
    forall i: nat | FirstFailing(cs, i)
      ensures Step(w, relayKey, Hello(id, e)).conns[id].phase.ack == Error(cs[i].code)
      ensures Step(w, relayKey, Hello(id, e)).rooms == w.rooms
    {
      RefusedAt(w, relayKey, id, e, i);
    }
    if AllHold(cs) { AdmittedBy(w, relayKey, id, e); }
  }

  lemma RefusedAt(w: World, relayKey: string, id: ConnId, e: Envelope, i: nat)
    requires id in w.conns && w.conns[id].phase == Opened && FirstFailing(Checks(w, relayKey, e), i)
    ensures Called(w, relayKey, id, e).conns[id].phase == Greeted(Error(Checks(w, relayKey, e)[i].code))
    ensures Called(w, relayKey, id, e).rooms == w.rooms
  {
    var cs := Checks(w, relayKey, e);
    assert i > 0 ==> cs[0].holds;
    assert i > 1 ==> cs[1].holds;
    assert i > 2 ==> cs[2].holds;
    assert i > 3 ==> cs[3].holds;
    assert i > 4 ==> cs[4].holds;
    assert i > 5 ==> cs[5].holds;
    assert i > 6 ==> cs[6].holds;
    assert i > 7 ==> cs[7].holds;
  }

  lemma AdmittedBy(w: World, relayKey: string, id: ConnId, e: Envelope)
    requires id in w.conns && w.conns[id].phase == Opened && AllHold(Checks(w, relayKey, e))
    ensures Called(w, relayKey, id, e).conns[id].phase == Greeted(HelloAck(e.dev))
    ensures Called(w, relayKey, id, e).rooms == Entered(w, id, e)
  {
    var cs := Checks(w, relayKey, e);
    assert cs[0].holds && cs[1].holds && cs[2].holds && cs[3].holds && cs[4].holds;
    assert cs[5].holds && cs[6].holds && cs[7].holds && cs[8].holds;
  }

  lemma {:induction false} SomeFirstFails(cs: seq<Check>) returns (i: nat)
    requires !AllHold(cs)
    ensures FirstFailing(cs, i)
    decreases |cs|
  {
    var n := |cs| - 1;
    if AllHold(cs[..n]) {
      assert forall j :: 0 <= j < n ==> cs[..n][j].holds;
      i := n;
    } else {
      i := SomeFirstFails(cs[..n]);
      assert forall j :: 0 <= j < i ==> cs[..n][j].holds;
    }
  }

  /** In every reachable state a hello is answered hello_ack if and only if it meets every check, and
      then its connection fills its slot; otherwise it gets the error of the first check it fails, and
      no room changes. */
  lemma {:induction false} HelloExactly(relayKey: string, acts: seq<Action>, id: ConnId, e: Envelope)
    requires Enabled(Exec(relayKey, acts), Hello(id, e))
    ensures var w := Exec(relayKey, acts);
            var w', cs := Step(w, relayKey, Hello(id, e)), Checks(w, relayKey, e);
            && id in w'.conns && w'.conns[id].phase.Greeted?
            && (w'.conns[id].phase.ack == HelloAck(e.dev) <==> AllHold(cs))
            && (AllHold(cs) ==> w'.rooms == Entered(w, id, e))
            && (forall i: nat :: FirstFailing(cs, i) ==>
                  w'.conns[id].phase.ack == Error(cs[i].code) && w'.rooms == w.rooms)
  {
    var w := Exec(relayKey, acts);
    RunSlots(relayKey, acts);
    OutcomeOf(w, relayKey, id, e);
    if !AllHold(Checks(w, relayKey, e)) { var i := SomeFirstFails(Checks(w, relayKey, e)); }
  }

  // ---- Who fills a slot, told by the actions alone ----

  predicate WellFormed(e: Envelope) { e.t == "hello" && e.v == 1 && e.dev != "" }

  /** The daemon's own hello for the device, with the relay's key if the relay has one. */
  predicate DaemonHello(relayKey: string, a: Action, c: ConnId, dev: DeviceId) {
    && a.Hello? && a.id == c && WellFormed(a.e) && a.e.role == "daemon" && a.e.dev == dev
    && a.e.token != "" && (relayKey != "" ==> a.e.token == relayKey)
  }

  predicate ViewerHello(a: Action, c: ConnId, dev: DeviceId) {
    a.Hello? && a.id == c && WellFormed(a.e) && a.e.role == "client" && a.e.dev == dev
  }

  lemma EnteredBy(relayKey: string, acts: seq<Action>, id: ConnId, e: Envelope)
    requires Enabled(Exec(relayKey, acts), Hello(id, e))
    requires Step(Exec(relayKey, acts), relayKey, Hello(id, e)).rooms != Exec(relayKey, acts).rooms
    ensures WellFormed(e) && (e.role == "daemon" || e.role == "client")
    ensures e.role == "daemon" ==> DaemonHello(relayKey, Hello(id, e), id, e.dev)
    ensures Step(Exec(relayKey, acts), relayKey, Hello(id, e)).rooms == Entered(Exec(relayKey, acts), id, e)
  {
    var cs := Checks(Exec(relayKey, acts), relayKey, e);
    HelloExactly(relayKey, acts, id, e);
    if !AllHold(cs) { var i := SomeFirstFails(cs); }
    assert cs[0].holds && cs[1].holds && cs[2].holds && cs[3].holds && cs[4].holds && cs[5].holds;
  }

  /** For every run: whoever fills the daemon slot of a device came with that device's well-formed
      daemon hello, and with the relay's key as its token whenever the relay has a key. */
  lemma {:induction false} DaemonSlotNeedsKey(relayKey: string, acts: seq<Action>, dev: DeviceId, c: ConnId)
    requires dev in Exec(relayKey, acts).rooms && Exec(relayKey, acts).rooms[dev].daemon == Some(c)
    ensures exists k :: 0 <= k < |acts| && DaemonHello(relayKey, acts[k], c, dev)
    decreases |acts|
  {
    var n := |acts| - 1;
    var pre, a := acts[..n], acts[n];
    var w := Exec(relayKey, pre);
    if dev in w.rooms && w.rooms[dev].daemon == Some(c) {
      DaemonSlotNeedsKey(relayKey, pre, dev, c);
      var k :| 0 <= k < n && DaemonHello(relayKey, pre[k], c, dev);
      assert acts[k] == pre[k];
    } else {
      DaemonByHello(w, relayKey, a, dev, c);
      EnteredBy(relayKey, pre, a.id, a.e);
      assert DaemonHello(relayKey, acts[n], c, dev);
    }
  }

  /** Whoever fills a viewer slot came with that device's well-formed client hello. */
  lemma {:induction false} ViewerSlotNeedsHello(relayKey: string, acts: seq<Action>, dev: DeviceId, c: ConnId)
    requires dev in Exec(relayKey, acts).rooms && c in Exec(relayKey, acts).rooms[dev].clients
    ensures exists k :: 0 <= k < |acts| && ViewerHello(acts[k], c, dev)
    decreases |acts|
  {
    var n := |acts| - 1;
    var pre, a := acts[..n], acts[n];
    var w := Exec(relayKey, pre);
    if dev in w.rooms && c in w.rooms[dev].clients {
      ViewerSlotNeedsHello(relayKey, pre, dev, c);
      var k :| 0 <= k < n && ViewerHello(pre[k], c, dev);
      assert acts[k] == pre[k];
    } else {
      RunSlots(relayKey, pre);
      JoinedByHello(w, relayKey, a, dev, c);
      EnteredBy(relayKey, pre, a.id, a.e);
      assert ViewerHello(acts[n], c, dev);
    }
  }
}
