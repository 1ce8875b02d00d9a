/** The relay's hub at lock granularity (relay/hub.go): one mutex for the room map, one for each
    room object, any number of operations in flight. Room objects have an identity of their own:
    an operation may hold one that the map no longer lists. */
module HubLocks {
  import opened Common

  type DeviceId = string
  type ConnId = nat
  type RoomId = nat
  type Tid = nat

  datatype Op =
    | Register(dev: DeviceId, c: ConnId)
    | Join(dev: DeviceId, c: ConnId)
    | Forward(dev: DeviceId)
    | Kick(dev: DeviceId)
    | Presence(dev: DeviceId)
    | Unregister(dev: DeviceId, c: ConnId, asDaemon: bool)

  /** Where an operation stands. `Have` means holding the mutex named last; from `HaveRoom` to
      `Leaving` the room's mutex is held. */
  datatype Pc =
    | Finished
    | WantHub(op: Op)
    | HaveHub(op: Op)
    | WantRoom(op: Op, r: RoomId)
    | HaveRoom(op: Op, r: RoomId)
    | WantHubAgain(op: Op, r: RoomId)
    | HaveHubAgain(op: Op, r: RoomId)
    | Leaving(op: Op, r: RoomId)

  /** `dev` is the device the room object was made for; no operation reads it. */
  datatype Room = Room(dev: DeviceId, daemon: Option<ConnId>, clients: set<ConnId>, owner: Option<Tid>)

  datatype State = State(hubOwner: Option<Tid>, listed: map<DeviceId, RoomId>, rooms: seq<Room>, threads: seq<Pc>)

  function NewRoom(dev: DeviceId): Room { Room(dev, None, {}, None) }

  /** A goroutine begins an operation (a new one when `t` is one past the last), or takes a step. */
  datatype Action = Start(t: Tid, op: Op) | Go(t: Tid)

  function InitWith(n: nat): State {
    State(None, map[], [], seq(n, _ => Finished))
  }

  /** Under the room's mutex: the slot changes, and whether the room is to be unlisted. */
  function Body(op: Op, r: Room): (Room, bool) {
    match op
    case Register(_, c) => (if r.daemon.None? then r.(daemon := Some(c)) else r, false)
    case Join(_, c) => (if r.daemon.Some? && |r.clients| == 0 then r.(clients := r.clients + {c}) else r, false)
    case Kick(_) => (r.(clients := {}), false)
    case Unregister(_, c, asDaemon) =>
      var r' := if asDaemon && r.daemon == Some(c) then r.(daemon := None) else r.(clients := r.clients - {c});
      (r', r'.daemon.None? && |r'.clients| == 0)
    case _ => (r, false)
  }

  predicate CanGo(s: State, t: Tid) {
    t < |s.threads| &&
    match s.threads[t]
    case Finished => false
    case WantHub(_) => s.hubOwner.None?
    case WantHubAgain(_, _) => s.hubOwner.None?
    case WantRoom(_, r) => r < |s.rooms| && s.rooms[r].owner.None?
    case HaveRoom(_, r) => r < |s.rooms|
    case Leaving(_, r) => r < |s.rooms|
    case _ => true
  }

  function Advance(s: State, t: Tid): State
    requires CanGo(s, t)
  {
    match s.threads[t]
    case WantHub(op) => s.(hubOwner := Some(t), threads := s.threads[t := HaveHub(op)])
    case HaveHub(op) =>
      if op.dev in s.listed then s.(hubOwner := None, threads := s.threads[t := WantRoom(op, s.listed[op.dev])])
      else if op.Register? then
        State(None, s.listed[op.dev := |s.rooms|], s.rooms + [NewRoom(op.dev)], s.threads[t := WantRoom(op, |s.rooms|)])
      else s.(hubOwner := None, threads := s.threads[t := Finished])
    case WantRoom(op, r) =>
      s.(rooms := s.rooms[r := s.rooms[r].(owner := Some(t))], threads := s.threads[t := HaveRoom(op, r)])
    case HaveRoom(op, r) =>
      var (room, unlist) := Body(op, s.rooms[r]);
      s.(rooms := s.rooms[r := room], threads := s.threads[t := if unlist then WantHubAgain(op, r) else Leaving(op, r)])
    case WantHubAgain(op, r) => s.(hubOwner := Some(t), threads := s.threads[t := HaveHubAgain(op, r)])
    case HaveHubAgain(op, r) =>
      s.(hubOwner := None, listed := s.listed - {op.dev}, threads := s.threads[t := Leaving(op, r)])
    case Leaving(op, r) =>
      s.(rooms := s.rooms[r := s.rooms[r].(owner := None)], threads := s.threads[t := Finished])
  }

  function Step(s: State, a: Action): State {
    match a
    case Start(t, op) =>
      if t < |s.threads| && s.threads[t].Finished? then s.(threads := s.threads[t := WantHub(op)])
      else if t == |s.threads| then s.(threads := s.threads + [WantHub(op)])
      else s
    case Go(t) => if CanGo(s, t) then Advance(s, t) else s
  }

  function Exec(s: State, acts: seq<Action>): State {
    if acts == [] then s else Step(Exec(s, acts[..|acts| - 1]), acts[|acts| - 1])
  }

  // ---- The invariant: every mutex is held by exactly the operation inside its section ----

  predicate InHub(pc: Pc) { pc.HaveHub? || pc.HaveHubAgain? }

  predicate InRoom(pc: Pc, r: RoomId) {
    (pc.HaveRoom? || pc.WantHubAgain? || pc.HaveHubAgain? || pc.Leaving?) && pc.r == r
  }

  predicate ThreadOk(s: State, t: Tid)
    requires t < |s.threads|
  {
    var pc := s.threads[t];
    && (InHub(pc) <==> s.hubOwner == Some(t))
    && (!pc.Finished? && !pc.WantHub? && !pc.HaveHub? ==> pc.r < |s.rooms|)
    && (forall r :: 0 <= r < |s.rooms| ==> (InRoom(pc, r) <==> s.rooms[r].owner == Some(t)))
  }

  ghost predicate Inv(s: State) {
    && DataOk(s)
    && (forall t :: 0 <= t < |s.threads| ==> ThreadOk(s, t))
  }

  lemma BodyKeepsOneClient(op: Op, r: Room)
    requires |r.clients| <= 1
    ensures |Body(op, r).0.clients| <= 1 && Body(op, r).0.owner == r.owner
  {
    match op
    case Join(_, c) => if |r.clients| == 0 { assert r.clients + {c} == {c}; }
    case Unregister(_, c, _) =>
      if c in r.clients { assert |r.clients - {c}| == |r.clients| - 1; } else { assert r.clients - {c} == r.clients; }
    case _ =>
  }

  /** A step on the hub's mutex leaves the rooms' mutexes alone. */
  lemma HubStepThread(s: State, t: Tid, u: Tid)
    requires Inv(s) && CanGo(s, t) && u < |s.threads|
    requires s.threads[t].WantHub? || s.threads[t].HaveHub? || s.threads[t].WantHubAgain? || s.threads[t].HaveHubAgain?
    ensures ThreadOk(Advance(s, t), u)
  {
    assert ThreadOk(s, t) && ThreadOk(s, u);
  }

  lemma RoomStepThread(s: State, t: Tid, u: Tid)
    requires Inv(s) && CanGo(s, t) && u < |s.threads|
    requires s.threads[t].WantRoom? || s.threads[t].HaveRoom? || s.threads[t].Leaving?
    ensures ThreadOk(Advance(s, t), u)
  {
    assert ThreadOk(s, t) && ThreadOk(s, u);
    if s.threads[t].HaveRoom? { BodyKeepsOneClient(s.threads[t].op, s.rooms[s.threads[t].r]); }
  }

  predicate DataOk(s: State) {
    && (s.hubOwner.Some? ==> s.hubOwner.value < |s.threads|)
    && (forall r :: 0 <= r < |s.rooms| ==> RoomOk(s.rooms[r], |s.threads|))
    && (forall dev :: dev in s.listed ==> s.listed[dev] < |s.rooms|)
  }

  predicate RoomOk(r: Room, n: nat) { |r.clients| <= 1 && (r.owner.Some? ==> r.owner.value < n) }

  lemma AdvanceData(s: State, t: Tid)
    requires Inv(s) && CanGo(s, t)
    ensures DataOk(Advance(s, t))
  {
    if s.threads[t].HaveRoom? { BodyKeepsOneClient(s.threads[t].op, s.rooms[s.threads[t].r]); }
  }

  lemma AdvanceKeeps(s: State, t: Tid)
    requires Inv(s) && CanGo(s, t)
    ensures Inv(Advance(s, t))
  {
    AdvanceData(s, t);
    forall u | 0 <= u < |s.threads| ensures ThreadOk(Advance(s, t), u) {
      if s.threads[t].WantRoom? || s.threads[t].HaveRoom? || s.threads[t].Leaving? {
        RoomStepThread(s, t, u);
      } else {
        HubStepThread(s, t, u);
      }
    }
  }

  lemma StepKeeps(s: State, a: Action)
    requires Inv(s)
    ensures Inv(Step(s, a))
  {
    match a
    case Start(t, op) =>
      var s' := Step(s, a);
      forall u | 0 <= u < |s'.threads| ensures ThreadOk(s', u) {
        if u < |s.threads| { assert ThreadOk(s, u); }
      }
    case Go(t) => if CanGo(s, t) { AdvanceKeeps(s, t); }
  }

  lemma {:induction false} RunInv(n: nat, acts: seq<Action>)
    ensures Inv(Exec(InitWith(n), acts))
    decreases |acts|
  {
    if acts != [] {
      RunInv(n, acts[..|acts| - 1]);
      StepKeeps(Exec(InitWith(n), acts[..|acts| - 1]), acts[|acts| - 1]);
    }
  }

  // ---- Exclusion and slots ----

  /** No two operations are ever inside the same room, in any reachable state. */
  lemma RoomsExclude(n: nat, acts: seq<Action>, t: Tid, u: Tid, r: RoomId)
    requires var s := Exec(InitWith(n), acts);
             t < |s.threads| && u < |s.threads| && InRoom(s.threads[t], r) && InRoom(s.threads[u], r)
    ensures t == u
  {
    RunInv(n, acts);
    assert ThreadOk(Exec(InitWith(n), acts), t) && ThreadOk(Exec(InitWith(n), acts), u);
  }

  /** In every reachable state a room object, listed or not, has at most one viewer, and a step
      changes its daemon slot only from empty to the registering connection or from the
      unregistering connection to empty, by the one operation inside the room. */
  lemma {:induction false} SlotsChangeInTurn(n: nat, acts: seq<Action>, a: Action, r: RoomId)
    requires r < |Exec(InitWith(n), acts).rooms|
    ensures var s := Exec(InitWith(n), acts);
            var s' := Step(s, a);
            && |s.rooms[r].clients| <= 1
            && r < |s'.rooms|
            && (s'.rooms[r].daemon != s.rooms[r].daemon ==>
                  && a.Go? && s.rooms[r].owner == Some(a.t)
                  && a.t < |s.threads| && s.threads[a.t].HaveRoom?
                  && var op := s.threads[a.t].op;
                     || (op.Register? && s.rooms[r].daemon == None && s'.rooms[r].daemon == Some(op.c))
                     || (op.Unregister? && s.rooms[r].daemon == Some(op.c) && s'.rooms[r].daemon == None))
  {
    var s := Exec(InitWith(n), acts);
    RunInv(n, acts);
    if a.Go? && CanGo(s, a.t) { assert ThreadOk(s, a.t); }
  }

  // ---- Deadlock freedom and termination ----

  /** Whoever has not finished, some operation can take a step. */
  lemma SomeoneCanGo(s: State, t: Tid) returns (u: Tid)
    requires Inv(s) && t < |s.threads| && !s.threads[t].Finished?
    ensures CanGo(s, u)
  {
    assert ThreadOk(s, t);
    if s.hubOwner.Some? {
      u := s.hubOwner.value;
      assert ThreadOk(s, u);
    } else if s.threads[t].WantRoom? && s.rooms[s.threads[t].r].owner.Some? {
      u := s.rooms[s.threads[t].r].owner.value;
      assert ThreadOk(s, u) && InRoom(s.threads[u], s.threads[t].r);
    } else {
      u := t;
    }
  }

  function Rank(pc: Pc): nat {
    match pc
    case Finished => 0
    case WantHub(_) => 7
    case HaveHub(_) => 6
    case WantRoom(_, _) => 5
    case HaveRoom(_, _) => 4
    case WantHubAgain(_, _) => 3
    case HaveHubAgain(_, _) => 2
    case Leaving(_, _) => 1
  }

  function Work(threads: seq<Pc>): nat {
    if threads == [] then 0 else Work(threads[..|threads| - 1]) + Rank(threads[|threads| - 1])
  }

  lemma {:induction false} WorkUpdate(threads: seq<Pc>, t: Tid, pc: Pc)
    requires t < |threads|
    ensures Work(threads[t := pc]) == Work(threads) - Rank(threads[t]) + Rank(pc)
    decreases |threads|
  {
    var n := |threads| - 1;
    assert threads[t := pc][..n] == if t == n then threads[..n] else threads[..n][t := pc];
    if t < n { WorkUpdate(threads[..n], t, pc); }
  }

  lemma AdvanceWorks(s: State, t: Tid)
    requires CanGo(s, t)
    ensures Work(Advance(s, t).threads) < Work(s.threads) && |Advance(s, t).threads| == |s.threads|
  {
    WorkUpdate(s.threads, t, Advance(s, t).threads[t]);
    assert Advance(s, t).threads == s.threads[t := Advance(s, t).threads[t]];
  }

  lemma {:induction false} NoWorkLeft(threads: seq<Pc>)
    requires Work(threads) == 0
    ensures forall t :: 0 <= t < |threads| ==> threads[t].Finished?
    decreases |threads|
  {
    if threads != [] { NoWorkLeft(threads[..|threads| - 1]); }
  }

  lemma {:induction false} WorkLeft(threads: seq<Pc>) returns (t: Tid)
    requires Work(threads) > 0
    ensures t < |threads| && !threads[t].Finished?
    decreases |threads|
  {
    var n := |threads| - 1;
    if threads[n].Finished? { t := WorkLeft(threads[..n]); } else { t := n; }
  }

  /** A schedule in which every entry takes a step. */
  predicate Effective(s: State, sched: seq<Tid>)
    decreases |sched|
  {
    sched == [] || (CanGo(s, sched[0]) && Effective(Advance(s, sched[0]), sched[1..]))
  }

  function After(s: State, sched: seq<Tid>): State
    requires Effective(s, sched)
    decreases |sched|
  {
    if sched == [] then s else After(Advance(s, sched[0]), sched[1..])
  }

  /** No reachable state is stuck: with no new operations every schedule of steps is at most as
      long as the work left, and when no operation can step any more, all have finished. */
  lemma {:induction false} EveryScheduleFinishes(s: State, sched: seq<Tid>)
    requires Inv(s) && Effective(s, sched)
    ensures Inv(After(s, sched)) && |sched| + Work(After(s, sched).threads) <= Work(s.threads)
    ensures |After(s, sched).threads| == |s.threads|
    ensures (forall t :: !CanGo(After(s, sched), t)) ==>
              forall t :: 0 <= t < |s.threads| ==> After(s, sched).threads[t].Finished?
    decreases |sched|
  {
    if sched == [] {
      if Work(s.threads) == 0 {
        NoWorkLeft(s.threads);
      } else {
        var t := WorkLeft(s.threads);
        var _ := SomeoneCanGo(s, t);
      }
    } else {
      AdvanceKeeps(s, sched[0]);
      AdvanceWorks(s, sched[0]);
      EveryScheduleFinishes(Advance(s, sched[0]), sched[1..]);
    }
  }

  lemma ReachableNeverStuck(n: nat, acts: seq<Action>, t: Tid, sched: seq<Tid>)
    requires Effective(Exec(InitWith(n), acts), sched)
    ensures var s := After(Exec(InitWith(n), acts), sched);
            t < |s.threads| && !s.threads[t].Finished? ==> exists u :: CanGo(s, u)
    ensures |sched| <= Work(Exec(InitWith(n), acts).threads)
  {
    RunInv(n, acts);
    EveryScheduleFinishes(Exec(InitWith(n), acts), sched);
    var s := After(Exec(InitWith(n), acts), sched);
    if t < |s.threads| && !s.threads[t].Finished? { var _ := SomeoneCanGo(s, t); }
  }

  // ---- What the map lists ----

  predicate Occupied(r: Room) { r.daemon.Some? || r.clients != {} }

  /** The map leads from the room's device to this very object. */
  predicate Listed(s: State, r: RoomId)
    requires r < |s.rooms|
  {
    s.rooms[r].dev in s.listed && s.listed[s.rooms[r].dev] == r
  }

  predicate AllListed(s: State) {
    forall r :: 0 <= r < |s.rooms| && Occupied(s.rooms[r]) ==> Listed(s, r)
  }

  predicate HasRoom(pc: Pc) { !pc.Finished? && !pc.WantHub? && !pc.HaveHub? }

  /** An operation holds a room of its device, an empty one while it unlists it. */
  predicate AtHome(s: State, t: Tid)
    requires t < |s.threads|
  {
    var pc := s.threads[t];
    HasRoom(pc) ==>
      && pc.r < |s.rooms| && s.rooms[pc.r].dev == pc.op.dev
      && (pc.WantHubAgain? || pc.HaveHubAgain? ==> !Occupied(s.rooms[pc.r]))
  }

  ghost predicate Homes(s: State) {
    && (forall dev :: dev in s.listed ==> s.listed[dev] < |s.rooms| && s.rooms[s.listed[dev]].dev == dev)
    && (forall t :: 0 <= t < |s.threads| ==> AtHome(s, t))
  }

  /** Advancing an operation changes rooms only by adding one, or the one it is inside. */
  lemma AdvanceRooms(s: State, t: Tid)
    requires Inv(s) && CanGo(s, t)
    ensures var s' := Advance(s, t);
            && |s.rooms| <= |s'.rooms|
            && (forall r :: 0 <= r < |s.rooms| ==>
                  && s'.rooms[r].dev == s.rooms[r].dev
                  && (!(s.threads[t].HaveRoom? && s.threads[t].r == r) ==>
                        Occupied(s'.rooms[r]) == Occupied(s.rooms[r])))
            && (forall r :: |s.rooms| <= r < |s'.rooms| ==> s'.rooms[r] == NewRoom(s.threads[t].op.dev))
  {
  }

  lemma AtHomeStep(s: State, t: Tid, u: Tid)
    requires Inv(s) && Homes(s) && CanGo(s, t) && u < |s.threads|
    ensures AtHome(Advance(s, t), u)
  {
    assert AtHome(s, t) && AtHome(s, u) && ThreadOk(s, t) && ThreadOk(s, u);
    AdvanceRooms(s, t);
  }

  lemma HomesStep(s: State, a: Action)
    requires Inv(s) && Homes(s)
    ensures Homes(Step(s, a))
  {
    match a
    case Start(t, op) =>
      var s' := Step(s, a);
      forall u | 0 <= u < |s'.threads| ensures AtHome(s', u) {
        if u < |s.threads| { assert AtHome(s, u); }
      }
    case Go(t) =>
      if CanGo(s, t) {
        AdvanceRooms(s, t);
        forall u | 0 <= u < |s.threads| ensures AtHome(Advance(s, t), u) { AtHomeStep(s, t, u); }
      }
  }

  lemma {:induction false} RunHomes(n: nat, acts: seq<Action>)
    ensures Homes(Exec(InitWith(n), acts))
    decreases |acts|
  {
    if acts != [] {
      RunHomes(n, acts[..|acts| - 1]);
      RunInv(n, acts[..|acts| - 1]);
      HomesStep(Exec(InitWith(n), acts[..|acts| - 1]), acts[|acts| - 1]);
    }
  }

  /** A registration fills a room the map does not list, or an unregistration unlists a room other
      than its own, which someone occupies. */
  predicate Unlists(s: State, a: Action) {
    a.Go? && CanGo(s, a.t) &&
    var pc := s.threads[a.t];
    || (pc.HaveRoom? && pc.op.Register? && !Occupied(s.rooms[pc.r]) && !Listed(s, pc.r))
    || (pc.HaveHubAgain? && pc.op.dev in s.listed && s.listed[pc.op.dev] < |s.rooms|
        && Occupied(s.rooms[s.listed[pc.op.dev]]))
  }

  lemma BodyOccupies(op: Op, r: Room)
    ensures Occupied(Body(op, r).0) ==> Occupied(r) || op.Register?
    ensures !Occupied(r) && op.Register? ==> Occupied(Body(op, r).0)
    ensures Body(op, r).1 ==> !Occupied(Body(op, r).0)
  {
  }

  lemma ListedAfter(s: State, t: Tid, r: RoomId)
    requires Inv(s) && Homes(s) && CanGo(s, t) && r < |s.rooms|
    ensures r < |Advance(s, t).rooms| && Advance(s, t).rooms[r].dev == s.rooms[r].dev
    ensures Listed(Advance(s, t), r) <==>
            Listed(s, r) && !(s.threads[t].HaveHubAgain? && s.threads[t].op.dev == s.rooms[r].dev)
  {
    AdvanceRooms(s, t);
  }

  /** The invariant "every occupied room is listed" is broken by exactly these two kinds of step. */
  lemma UnlistsExactly(n: nat, acts: seq<Action>, a: Action)
    requires AllListed(Exec(InitWith(n), acts))
    ensures !AllListed(Step(Exec(InitWith(n), acts), a)) <==> Unlists(Exec(InitWith(n), acts), a)
  {
    var s := Exec(InitWith(n), acts);
    RunInv(n, acts);
    RunHomes(n, acts);
    if a.Go? && CanGo(s, a.t) { UnlistsStep(s, a.t); }
  }

  lemma UnlistsStep(s: State, t: Tid)
    requires Inv(s) && Homes(s) && AllListed(s) && CanGo(s, t)
    ensures !AllListed(Advance(s, t)) <==> Unlists(s, Go(t))
  {
    var s', pc := Advance(s, t), s.threads[t];
    AdvanceRooms(s, t);
    assert AtHome(s, t);
    if pc.HaveRoom? { BodyOccupies(pc.op, s.rooms[pc.r]); }
    forall r | 0 <= r < |s.rooms|
      ensures Listed(s', r) <==> Listed(s, r) && !(pc.HaveHubAgain? && pc.op.dev == s.rooms[r].dev)
    {
      ListedAfter(s, t, r);
    }
    if Unlists(s, Go(t)) {
      var r := if pc.HaveRoom? then pc.r else s.listed[pc.op.dev];
      assert Occupied(s'.rooms[r]) && !Listed(s', r);
    }
  }

  // ---- When an unlisted room comes to be occupied ----

  predicate RegisterAt(s: State, t: Tid, r: RoomId) {
    && t < |s.threads| && (s.threads[t].WantRoom? || s.threads[t].HaveRoom?)
    && s.threads[t].op.Register? && s.threads[t].r == r
  }

  /** Empty, unlisted, and no registration waits for the room or is inside it. */
  ghost predicate Dead(s: State, r: RoomId) {
    && r < |s.rooms| && !Occupied(s.rooms[r])
    && (forall dev :: dev in s.listed ==> s.listed[dev] != r)
    && (forall t :: 0 <= t < |s.threads| ==> !RegisterAt(s, t, r))
  }

  lemma DeadStep(s: State, a: Action, r: RoomId)
    requires Inv(s) && Dead(s, r)
    ensures Dead(Step(s, a), r)
  {
    if a.Go? && CanGo(s, a.t) {
      var s', pc := Advance(s, a.t), s.threads[a.t];
      AdvanceRooms(s, a.t);
      assert !RegisterAt(s, a.t, r);
      if pc.HaveRoom? && pc.r == r { BodyOccupies(pc.op, s.rooms[r]); }
      forall t | 0 <= t < |s'.threads| ensures !RegisterAt(s', t, r) { assert !RegisterAt(s, t, r); }
    } else {
      var s' := Step(s, a);
      forall t | 0 <= t < |s'.threads| ensures !RegisterAt(s', t, r) {
        if t < |s.threads| { assert !RegisterAt(s, t, r); }
      }
    }
  }

  lemma {:induction false} ExecKeepsInv(s: State, more: seq<Action>)
    requires Inv(s)
    ensures Inv(Exec(s, more))
    decreases |more|
  {
    if more != [] {
      ExecKeepsInv(s, more[..|more| - 1]);
      StepKeeps(Exec(s, more[..|more| - 1]), more[|more| - 1]);
    }
  }

  lemma {:induction false} DeadStaysDead(s: State, more: seq<Action>, r: RoomId)
    requires Inv(s) && Dead(s, r)
    ensures Dead(Exec(s, more), r)
    decreases |more|
  {
    if more != [] {
      DeadStaysDead(s, more[..|more| - 1], r);
      ExecKeepsInv(s, more[..|more| - 1]);
      DeadStep(Exec(s, more[..|more| - 1]), more[|more| - 1], r);
    }
  }

  lemma {:induction false} ExecConcat(s: State, a: seq<Action>, b: seq<Action>)
    ensures Exec(s, a + b) == Exec(Exec(s, a), b)
    decreases |b|
  {
    if b == [] {
      assert a + b == a;
    } else {
      assert (a + b)[..|a + b| - 1] == a + b[..|b| - 1];
      ExecConcat(s, a, b[..|b| - 1]);
    }
  }

  lemma ExecOne(s: State, a: Action)
    ensures Exec(s, [a]) == Step(s, a)
  {
    assert [a][..0] == [];
  }

  /** Any step at all leaves the room filled, or the registration still there with less to do. */
  lemma RegistrationSurvives(s: State, t: Tid, u: Tid, r: RoomId)
    requires Inv(s) && r < |s.rooms| && !Occupied(s.rooms[r]) && RegisterAt(s, t, r) && CanGo(s, u)
    ensures r < |Advance(s, u).rooms|
    ensures Occupied(Advance(s, u).rooms[r]) || RegisterAt(Advance(s, u), t, r)
  {
    AdvanceRooms(s, u);
    if s.threads[u].HaveRoom? && s.threads[u].r == r { BodyOccupies(s.threads[u].op, s.rooms[r]); }
  }

  /** Running the waiting operations out, in any order, fills the room. */
  lemma {:induction false} RegistrationFills(s: State, t: Tid, r: RoomId) returns (more: seq<Action>)
    requires Inv(s) && r < |s.rooms| && !Occupied(s.rooms[r]) && RegisterAt(s, t, r)
    ensures r < |Exec(s, more).rooms| && Occupied(Exec(s, more).rooms[r])
    decreases Work(s.threads)
  {
    var u := SomeoneCanGo(s, t);
    var s' := Advance(s, u);
    RegistrationSurvives(s, t, u, r);
    ExecOne(s, Go(u));
    if Occupied(s'.rooms[r]) {
      more := [Go(u)];
    } else {
      AdvanceWorks(s, u);
      AdvanceKeeps(s, u);
      var rest := RegistrationFills(s', t, r);
      more := [Go(u)] + rest;
      ExecConcat(s, [Go(u)], rest);
    }
  }

  lemma UnlistedStep(s: State, a: Action, r: RoomId)
    requires Inv(s) && Homes(s) && r < |s.rooms| && !Listed(s, r)
    ensures r < |Step(s, a).rooms| && !Listed(Step(s, a), r)
  {
    if a.Go? && CanGo(s, a.t) { ListedAfter(s, a.t, r); }
  }

  lemma {:induction false} UnlistedForever(s: State, more: seq<Action>, r: RoomId)
    requires Inv(s) && Homes(s) && r < |s.rooms| && !Listed(s, r)
    ensures Homes(Exec(s, more)) && r < |Exec(s, more).rooms| && !Listed(Exec(s, more), r)
    decreases |more|
  {
    if more != [] {
      var pre := Exec(s, more[..|more| - 1]);
      UnlistedForever(s, more[..|more| - 1], r);
      ExecKeepsInv(s, more[..|more| - 1]);
      HomesStep(pre, more[|more| - 1]);
      UnlistedStep(pre, more[|more| - 1], r);
    }
  }

  ghost predicate CanBeFilled(s: State, r: RoomId) {
    exists more: seq<Action> :: r < |Exec(s, more).rooms| && Occupied(Exec(s, more).rooms[r])
  }

  /** In every reachable state, an empty room that the map does not list is occupied in some
      continuation, unlisted even then, if and only if a registration that looked it up before is
      still waiting for it or inside it. */
  lemma UnlistedRoomFillsExactly(n: nat, acts: seq<Action>, r: RoomId)
    requires var s := Exec(InitWith(n), acts); r < |s.rooms| && !Occupied(s.rooms[r]) && !Listed(s, r)
    ensures var s := Exec(InitWith(n), acts); CanBeFilled(s, r) <==> exists t: Tid :: RegisterAt(s, t, r)
    ensures forall more: seq<Action> ::
              var s' := Exec(Exec(InitWith(n), acts), more); r < |s'.rooms| && !Listed(s', r)
  {
    var s := Exec(InitWith(n), acts);
    RunInv(n, acts);
    RunHomes(n, acts);
    forall more: seq<Action> ensures r < |Exec(s, more).rooms| && !Listed(Exec(s, more), r) {
      UnlistedForever(s, more, r);
    }
    if t: Tid :| RegisterAt(s, t, r) {
      var more := RegistrationFills(s, t, r);
    } else {
      assert Dead(s, r);
      forall more: seq<Action> ensures !Occupied(Exec(s, more).rooms[r]) { DeadStaysDead(s, more, r); }
    }
  }

  // ---- Calls for one device that do not overlap ----

  predicate Separate(s: State) {
    forall t, u :: 0 <= t < u < |s.threads| && !s.threads[t].Finished? && !s.threads[u].Finished? ==>
      s.threads[t].op.dev != s.threads[u].op.dev
  }

  /** At no time are two operations for one device under way. */
  predicate InTurn(n: nat, acts: seq<Action>) {
    Separate(Exec(InitWith(n), acts)) && (acts == [] || InTurn(n, acts[..|acts| - 1]))
  }

  /** What an operation holds is what the map lists, until it leaves. */
  predicate HoldsListed(s: State, t: Tid)
    requires t < |s.threads|
  {
    var pc := s.threads[t];
    HasRoom(pc) && !pc.Leaving? ==> pc.op.dev in s.listed && s.listed[pc.op.dev] == pc.r
  }

  lemma InTurnStep(s: State, t: Tid)
    requires Inv(s) && Homes(s) && CanGo(s, t) && Separate(s) && AllListed(s)
    requires forall u :: 0 <= u < |s.threads| ==> HoldsListed(s, u)
    ensures AllListed(Advance(s, t))
    ensures forall u :: 0 <= u < |s.threads| ==> HoldsListed(Advance(s, t), u)
  {
    assert HoldsListed(s, t) && AtHome(s, t);
    UnlistsStep(s, t);
    forall u | 0 <= u < |s.threads| ensures HoldsListed(Advance(s, t), u) {
      assert HoldsListed(s, u);
    }
  }

  lemma StartStep(s: State, t: Tid, op: Op)
    requires AllListed(s) && forall u :: 0 <= u < |s.threads| ==> HoldsListed(s, u)
    ensures var s' := Step(s, Start(t, op));
            AllListed(s') && forall u :: 0 <= u < |s'.threads| ==> HoldsListed(s', u)
  {
    var s' := Step(s, Start(t, op));
    assert s'.rooms == s.rooms && s'.listed == s.listed;
    forall r | 0 <= r < |s'.rooms| && Occupied(s'.rooms[r]) ensures Listed(s', r) { assert Listed(s, r); }
    forall u | 0 <= u < |s'.threads| ensures HoldsListed(s', u) {
      if u < |s.threads| { assert HoldsListed(s, u); }
    }
  }

  /** As long as calls for one device do not overlap, every occupied room is listed. */
  lemma {:induction false} InTurnAllListed(n: nat, acts: seq<Action>)
    requires InTurn(n, acts)
    ensures AllListed(Exec(InitWith(n), acts))
    ensures forall u :: 0 <= u < |Exec(InitWith(n), acts).threads| ==> HoldsListed(Exec(InitWith(n), acts), u)
    decreases |acts|
  {
    if acts != [] {
      var pre, a := acts[..|acts| - 1], acts[|acts| - 1];
      var s := Exec(InitWith(n), pre);
      InTurnAllListed(n, pre);
      RunInv(n, pre);
      RunHomes(n, pre);
      match a
      case Start(t, op) => StartStep(s, t, op);
      case Go(t) => if CanGo(s, t) { InTurnStep(s, t); }
    }
  }

  // ---- An operation that nobody interferes with ----

  lemma Then(s0: State, acts: seq<Action>, s: State, a: Action) returns (acts': seq<Action>, s': State)
    requires s == Exec(s0, acts)
    ensures acts' == acts + [a] && s' == Step(s, a) && s' == Exec(s0, acts')
  {
    acts', s' := acts + [a], Step(s, a);
    assert acts'[..|acts|] == acts;
  }

  predicate Quiet(s: State) {
    s.hubOwner.None? && (forall r :: 0 <= r < |s.rooms| ==> s.rooms[r].owner.None?)
    && forall dev :: dev in s.listed ==> s.listed[dev] < |s.rooms|
  }

  function LookedUp(s: State, t: Tid, op: Op): State
    requires t < |s.threads|
  {
    if op.dev in s.listed then s.(threads := s.threads[t := WantRoom(op, s.listed[op.dev])])
    else if op.Register? then
      State(s.hubOwner, s.listed[op.dev := |s.rooms|], s.rooms + [NewRoom(op.dev)],
            s.threads[t := WantRoom(op, |s.rooms|)])
    else s
  }

  lemma LooksUp(s: State, t: Tid, op: Op) returns (acts: seq<Action>)
    requires t < |s.threads| && s.threads[t].Finished? && s.hubOwner.None?
    ensures Exec(s, acts) == LookedUp(s, t, op)
  {
    var s1;
    acts, s1 := Then(s, [], s, Start(t, op));
    acts, s1 := Then(s, acts, s1, Go(t));
    acts, s1 := Then(s, acts, s1, Go(t));
    assert s.threads[t := Finished] == s.threads;
  }

  /** The room's part of the operation, in one step. */
  function Done(s: State, t: Tid): State
    requires t < |s.threads| && s.threads[t].WantRoom? && s.threads[t].r < |s.rooms|
  {
    var op, r := s.threads[t].op, s.threads[t].r;
    var (room, unlist) := Body(op, s.rooms[r]);
    s.(rooms := s.rooms[r := room], listed := if unlist then s.listed - {op.dev} else s.listed,
       threads := s.threads[t := Finished])
  }

  /** Inside the room, its part done. */
  function Within(s: State, t: Tid): State
    requires t < |s.threads| && s.threads[t].WantRoom? && s.threads[t].r < |s.rooms|
  {
    var op, r := s.threads[t].op, s.threads[t].r;
    var (room, unlist) := Body(op, s.rooms[r]);
    s.(rooms := s.rooms[r := room.(owner := Some(t))],
       threads := s.threads[t := if unlist then WantHubAgain(op, r) else Leaving(op, r)])
  }

  lemma BodyIgnoresOwner(op: Op, r: Room, owner: Option<Tid>)
    ensures Body(op, r.(owner := owner)) == (Body(op, r).0.(owner := owner), Body(op, r).1)
    ensures Body(op, r).0.owner == r.owner
  {
  }

  lemma EntersRoom(s: State, t: Tid) returns (acts: seq<Action>)
    requires t < |s.threads| && s.threads[t].WantRoom? && s.threads[t].r < |s.rooms|
    requires s.rooms[s.threads[t].r].owner.None?
    ensures Exec(s, acts) == Within(s, t)
  {
    var op, r := s.threads[t].op, s.threads[t].r;
    BodyIgnoresOwner(op, s.rooms[r], Some(t));
    var s1, s2;
    acts, s1 := Then(s, [], s, Go(t));
    acts, s2 := Then(s, acts, s1, Go(t));
    assert s1 == s.(rooms := s.rooms[r := s.rooms[r].(owner := Some(t))], threads := s.threads[t := HaveRoom(op, r)]);
    assert s2.rooms == Within(s, t).rooms && s2.threads == Within(s, t).threads;
  }

  lemma LeavesRoom(s: State, t: Tid) returns (acts: seq<Action>)
    requires t < |s.threads| && (s.threads[t].WantHubAgain? || s.threads[t].Leaving?)
    requires s.threads[t].r < |s.rooms| && s.hubOwner.None?
    ensures var pc := s.threads[t];
            Exec(s, acts) == s.(rooms := s.rooms[pc.r := s.rooms[pc.r].(owner := None)],
                                listed := if pc.WantHubAgain? then s.listed - {pc.op.dev} else s.listed,
                                threads := s.threads[t := Finished])
  {
    var s1 := s;
    acts := [];
    if s.threads[t].WantHubAgain? {
      acts, s1 := Then(s, acts, s1, Go(t));
      acts, s1 := Then(s, acts, s1, Go(t));
    }
    acts, s1 := Then(s, acts, s1, Go(t));
  }

  lemma Resumes(s: State, t: Tid) returns (acts: seq<Action>)
    requires t < |s.threads| && s.threads[t].WantRoom? && s.threads[t].r < |s.rooms|
    requires s.hubOwner.None? && s.rooms[s.threads[t].r].owner.None?
    ensures Exec(s, acts) == Done(s, t)
  {
    var r := s.threads[t].r;
    BodyIgnoresOwner(s.threads[t].op, s.rooms[r], None);
    var a := EntersRoom(s, t);
    var b := LeavesRoom(Within(s, t), t);
    ExecConcat(s, a, b);
    acts := a + b;
    assert Exec(s, acts).rooms == Done(s, t).rooms && Exec(s, acts).threads == Done(s, t).threads;
  }

  /** The whole operation in one step. */
  function Alone(s: State, t: Tid, op: Op): State
    requires t < |s.threads| && Quiet(s)
  {
    var s1 := LookedUp(s, t, op);
    if op.dev in s.listed || op.Register? then Done(s1, t) else s
  }

  /** An operation that nobody interferes with does to map and rooms what it does as one step. */
  lemma AloneIsAtomic(s: State, t: Tid, op: Op) returns (acts: seq<Action>)
    requires t < |s.threads| && s.threads[t].Finished? && Quiet(s)
    ensures Exec(s, acts) == Alone(s, t, op)
    ensures Alone(s, t, op).threads == s.threads && Quiet(Alone(s, t, op))
  {
    acts := LooksUp(s, t, op);
    var s1 := LookedUp(s, t, op);
    if op.dev in s.listed || op.Register? {
      var b := Resumes(s1, t);
      ExecConcat(s, acts, b);
      acts := acts + b;
      BodyIgnoresOwner(op, s1.rooms[s1.threads[t].r], None);
      assert s.threads[t := Finished] == s.threads;
    }
  }

  // ---- Both kinds of step happen ----

  /** A second daemon looks its room up, the first one leaves and unlists it. */
  lemma SecondIsLate(d: DeviceId) returns (acts: seq<Action>)
    ensures Exec(InitWith(2), acts) ==
            State(None, map[], [Room(d, None, {}, None)], [Finished, WantRoom(Register(d, 2), 0)])
  {
    var s := InitWith(2);
    assert s.threads == [Finished, Finished];
    var a := AloneIsAtomic(s, 0, Register(d, 1));
    var s1 := State(None, map[d := 0], [Room(d, Some(1), {}, None)], [Finished, Finished]);
    assert Alone(s, 0, Register(d, 1)) == s1;
    var b := LooksUp(s1, 1, Register(d, 2));
    var s2 := State(None, map[d := 0], [Room(d, Some(1), {}, None)], [Finished, WantRoom(Register(d, 2), 0)]);
    assert LookedUp(s1, 1, Register(d, 2)) == s2;
    var c := AloneIsAtomic(s2, 0, Unregister(d, 1, true));
    ExecConcat(s, a, b);
    ExecConcat(s, a + b, c);
    acts := a + b + c;
    assert map[d := 0] - {d} == map[];
  }

  /** `h.mu` is released before `r.mu` is taken: a second daemon looks its room up, the first one
      leaves and unlists it, and the second then takes the slot of the unlisted room. */
  lemma UnlistedRoomCanBeOccupied(d: DeviceId) returns (acts: seq<Action>)
    ensures var s := Exec(InitWith(2), acts);
            s.listed == map[] && s.rooms == [Room(d, Some(2), {}, None)] && s.threads == [Finished, Finished]
  {
    var a := SecondIsLate(d);
    var b := Resumes(Exec(InitWith(2), a), 1);
    ExecConcat(InitWith(2), a, b);
    acts := a + b;
  }

  /** A viewer joins, is kicked, and begins to unregister. */
  lemma KickedViewerLeaves(d: DeviceId) returns (acts: seq<Action>)
    ensures Exec(InitWith(2), acts) ==
            State(None, map[d := 0], [Room(d, Some(1), {}, None)], [Finished, WantRoom(Unregister(d, 9, false), 0)])
  {
    var s := InitWith(2);
    assert s.threads == [Finished, Finished];
    var a := AloneIsAtomic(s, 0, Register(d, 1));
    var s1 := State(None, map[d := 0], [Room(d, Some(1), {}, None)], [Finished, Finished]);
    assert Alone(s, 0, Register(d, 1)) == s1;
    var b := AloneIsAtomic(s1, 0, Join(d, 9));
    var s2 := s1.(rooms := [Room(d, Some(1), {9}, None)]);
    assert Alone(s1, 0, Join(d, 9)) == s2;
    var c := AloneIsAtomic(s2, 0, Kick(d));
    assert Alone(s2, 0, Kick(d)) == s1;
    var e := LooksUp(s1, 1, Unregister(d, 9, false));
    ExecConcat(s, a, b);
    ExecConcat(s, a + b, c);
    ExecConcat(s, a + b + c, e);
    acts := a + b + c + e;
  }

  /** The daemon reconnects meanwhile, in a room of its own; the viewer then finds the old room
      empty and unlists the new one. */
  lemma OccupiedRoomCanBeUnlisted(d: DeviceId) returns (acts: seq<Action>)
    ensures var s := Exec(InitWith(2), acts);
            && s.listed == map[] && s.threads == [Finished, Finished]
            && s.rooms == [Room(d, None, {}, None), Room(d, Some(3), {}, None)]
  {
    var a := KickedViewerLeaves(d);
    var s := Exec(InitWith(2), a);
    var b := AloneIsAtomic(s, 0, Unregister(d, 1, true));
    assert map[d := 0] - {d} == map[];
    var s1 := s.(listed := map[], rooms := [Room(d, None, {}, None)]);
    assert Alone(s, 0, Unregister(d, 1, true)) == s1;
    var c := AloneIsAtomic(s1, 0, Register(d, 3));
    var s2 := s.(listed := map[d := 1], rooms := [Room(d, None, {}, None), Room(d, Some(3), {}, None)]);
    assert Alone(s1, 0, Register(d, 3)) == s2;
    var e := Resumes(s2, 1);
    assert map[d := 1] - {d} == map[];
    ExecConcat(InitWith(2), a, b);
    ExecConcat(InitWith(2), a + b, c);
    ExecConcat(InitWith(2), a + b + c, e);
    acts := a + b + c + e;
  }
}
