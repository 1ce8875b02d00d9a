/** The daemon's connection to the session host (daemon/src/host_client.rs,
    daemon/src/host_server.rs): serialized requests and pushed events share one stream of lines. */
module HostMux {
  import opened Common
  import opened Protocol
  import opened PingText

  datatype HostFrame = Data(msg: DaemonMsg) | ReplyEnd | HostPong

  // ---- The host's answers ----

  /** What the operating system makes of a request. */
  datatype World = World(created: Option<Sid>, ioOk: bool, ring: Bytes, n: nat)

  function NotFound(id: Option<nat>): DaemonMsg { Error(id, "session_not_found") }

  /** `handle_msg`: the sessions left and the answers. */
  function HandleMsg(sessions: set<Sid>, m: ClientMsg, w: World): (set<Sid>, seq<DaemonMsg>) {
    match m
    case Ping => (sessions, [Pong])
    case Hello(_, _, _) => (sessions, [])
    case AuthProof(_, _) => (sessions, [Error(None, "protocol_error")])
    case SessionList(id) => (sessions, [SessionListResult(id, sessions)])
    case SessionCreate(id, _, _, _, _) =>
      if w.created.Some? then (sessions + {w.created.value}, [SessionCreated(id, w.created.value)])
      else (sessions, [Error(Some(id), "spawn_failed")])
    case SessionAttach(id, sid) =>
      if sid in sessions then (sessions, [SessionAttached(id, sid), Snapshot(sid, w.n, w.ring)])
      else (sessions, [NotFound(Some(id))])
    case SessionKill(id, sid) =>
      if sid in sessions then (sessions - {sid}, [SessionKilled(id, sid)]) else (sessions, [NotFound(Some(id))])
    case Input(sid, data) =>
      if sid !in sessions then (sessions, [NotFound(None)])
      else if data.Garbled? then (sessions, [Error(None, "protocol_error")])
      else (sessions, if w.ioOk then [] else [Error(None, "internal")])
    case Resize(sid, _, _) =>
      (sessions, if sid in sessions && !w.ioOk then [Error(None, "internal")] else [])
  }

  /** The frames among messages that carry a request id. */
  function Replies(ms: seq<DaemonMsg>): seq<DaemonMsg> {
    if ms == [] then [] else (if ReplyId(ms[0]).Some? then [ms[0]] else []) + Replies(ms[1..])
  }

  /** A request with an id is answered by exactly one frame with an id, its own; others by none. */
  predicate AnswersTo(m: ClientMsg, ms: seq<DaemonMsg>) {
    match RequestId(m)
    case Some(id) => |Replies(ms)| == 1 && ReplyId(Replies(ms)[0]) == Some(id)
    case None => Replies(ms) == []
  }

  lemma RepliesOfOne(a: DaemonMsg)
    ensures Replies([a]) == if ReplyId(a).Some? then [a] else []
  {
    assert [a][1..] == [];
  }

  lemma RepliesOfTwo(a: DaemonMsg, b: DaemonMsg)
    ensures Replies([a, b]) == Replies([a]) + Replies([b])
  {
    assert [a, b][1..] == [b] && [a][1..] == [];
  }

  lemma RepliesCarryOwnId(sessions: set<Sid>, m: ClientMsg, w: World)
    ensures AnswersTo(m, HandleMsg(sessions, m, w).1)
  {
    var ms := HandleMsg(sessions, m, w).1;
    if m.SessionAttach? && m.sid in sessions {
      AttachAnswers(m, m.reqId, w);
    } else if ms != [] {
      assert ms == [ms[0]] && ReplyId(ms[0]) == RequestId(m);
      OneAnswers(m, ms[0]);
    }
  }

  lemma AttachAnswers(m: ClientMsg, id: nat, w: World)
    requires m.SessionAttach? && RequestId(m) == Some(id)
    ensures AnswersTo(m, [SessionAttached(id, m.sid), Snapshot(m.sid, w.n, w.ring)])
  {
    RepliesOfTwo(SessionAttached(id, m.sid), Snapshot(m.sid, w.n, w.ring));
    RepliesOfOne(SessionAttached(id, m.sid));
    RepliesOfOne(Snapshot(m.sid, w.n, w.ring));
  }

  lemma OneAnswers(m: ClientMsg, a: DaemonMsg)
    requires ReplyId(a) == RequestId(m)
    ensures AnswersTo(m, [a])
  {
    RepliesOfOne(a);
  }

  /** Lines written for one request. */
  function Served(sessions: set<Sid>, l: ClientMsg, w: World): seq<HostFrame> {
    if MentionsPing(l) then [HostPong] else DataAll(HandleMsg(sessions, l, w).1) + [ReplyEnd]
  }

  function DataAll(ms: seq<DaemonMsg>): seq<HostFrame> {
    if ms == [] then [] else [Data(ms[0])] + DataAll(ms[1..])
  }

  // ---- The daemon's side ----

  /** Where the holder of the request gate stands. */
  datatype Gate = Free | Registered(line: ClientMsg) | Waiting | Delivered(frames: seq<DaemonMsg>)

  datatype Client = Client(gate: Gate, pending: Option<seq<DaemonMsg>>, broadcast: seq<DaemonMsg>)

  /** The reader task's routing of one frame. */
  function Routed(c: Client, f: HostFrame): Client {
    match f
    case Data(m) =>
      if ReplyId(m).None? then c.(broadcast := c.broadcast + [m])
      else if c.pending.Some? then c.(pending := Some(c.pending.value + [m]))
      else c
    case ReplyEnd => if c.pending.Some? then c.(pending := None, gate := Delivered(c.pending.value)) else c
    case HostPong => c
  }

  // ---- The interleaving ----

  /** `up` and `down` are the lines in flight. `asked`, `served`, `produced`, `results` and
      `written` are history: requests written, requests the host took with their answers, what
      `request` returned, and every frame the host wrote. */
  datatype State = State(
    client: Client, up: seq<ClientMsg>, down: seq<HostFrame>, sessions: set<Sid>, events: seq<DaemonMsg>,
    asked: seq<ClientMsg>, served: seq<ClientMsg>, produced: seq<seq<DaemonMsg>>, results: seq<seq<DaemonMsg>>,
    written: seq<HostFrame>)

  datatype Action =
    | Acquire(line: ClientMsg)
    | WriteLine
    | Happen(event: DaemonMsg)
    | PushEvent
    | Serve(w: World)
    | Read
    | Return

  const INIT := State(Client(Free, None, []), [], [], {}, [], [], [], [], [], [])

  predicate Enabled(s: State, a: Action) {
    match a
    case Acquire(_) => s.client.gate.Free?
    case WriteLine => s.client.gate.Registered?
    case Happen(e) => e.Output? || e.SessionExited? || e.AgentStatus?
    case PushEvent => s.events != []
    case Serve(_) => s.up != []
    case Read => s.down != []
    case Return => s.client.gate.Delivered?
  }

  function Step(s: State, a: Action): State {
    if !Enabled(s, a) then s
    else
      match a
      case Acquire(l) => s.(client := s.client.(gate := Registered(l), pending := Some([])))
      case WriteLine =>
        var l := s.client.gate.line;
        s.(client := s.client.(gate := Waiting), up := s.up + [l], asked := s.asked + [l])
      case Happen(e) => s.(events := s.events + [e])
      case PushEvent =>
        var e := s.events[0];
        s.(events := s.events[1..], down := s.down + [Data(e)], written := s.written + [Data(e)],
           sessions := if e.SessionExited? then s.sessions - {e.sid} else s.sessions)
      case Serve(w) =>
        var l := s.up[0];
        var (sessions, answers) := if MentionsPing(l) then (s.sessions, []) else HandleMsg(s.sessions, l, w);
        var lines := Served(s.sessions, l, w);
        s.(up := s.up[1..], sessions := sessions, down := s.down + lines, written := s.written + lines,
           served := s.served + [l], produced := s.produced + [answers])
      case Read => s.(client := Routed(s.client, s.down[0]), down := s.down[1..])
      case Return => s.(client := s.client.(gate := Free), results := s.results + [s.client.gate.frames])
  }

  function Exec(acts: seq<Action>): State {
    if acts == [] then INIT else Step(Exec(acts[..|acts| - 1]), acts[|acts| - 1])
  }

  // ---- The invariant ----

  predicate IsEvent(f: HostFrame) { f.HostPong? || (f.Data? && ReplyId(f.msg).None?) }

  /** Nothing for the gate's holder is in flight. */
  predicate Clean(fs: seq<HostFrame>) { forall i :: 0 <= i < |fs| ==> IsEvent(fs[i]) }

  /** The answer in flight: its frames with an id, its end, then only events. */
  predicate OneAnswer(fs: seq<HostFrame>, replies: seq<DaemonMsg>)
    decreases |fs|
  {
    fs != [] &&
    (if fs[0].ReplyEnd? then replies == [] && Clean(fs[1..])
     else if IsEvent(fs[0]) then OneAnswer(fs[1..], replies)
     else replies != [] && fs[0].msg == replies[0] && OneAnswer(fs[1..], replies[1..]))
  }

  /** The pushed messages among frames. */
  function Pushed(fs: seq<HostFrame>): seq<DaemonMsg> {
    if fs == [] then []
    else (if fs[0].Data? && ReplyId(fs[0].msg).None? then [fs[0].msg] else []) + Pushed(fs[1..])
  }

  predicate Quiet(s: State) {
    s.up == [] && Clean(s.down) && |s.served| == |s.asked|
  }

  /** What the gate's holder can rely on at each point of its request. */
  predicate GateOk(s: State) {
    var n := |s.asked|;
    match s.client.gate
    case Free => s.client.pending.None? && Quiet(s) && |s.results| == n
    case Registered(_) => s.client.pending == Some([]) && Quiet(s) && |s.results| == n
    case Delivered(frames) =>
      && s.client.pending.None? && Quiet(s) && n > 0 && |s.results| == n - 1
      && |s.produced| == n && frames == Replies(s.produced[n - 1]) && !MentionsPing(s.asked[n - 1])
    case Waiting =>
      && n > 0 && |s.results| == n - 1 && s.client.pending.Some?
      && if s.up != [] then
           s.up == [s.asked[n - 1]] && |s.served| == n - 1 && Clean(s.down) && s.client.pending == Some([])
         else
           && |s.served| == n && |s.produced| == n
           && if MentionsPing(s.asked[n - 1]) then Clean(s.down) && s.client.pending == Some([])
              else
                var got, all := s.client.pending.value, Replies(s.produced[n - 1]);
                got <= all && OneAnswer(s.down, all[|got|..])
  }

  predicate ResultOk(asked: seq<ClientMsg>, produced: seq<seq<DaemonMsg>>, results: seq<seq<DaemonMsg>>, k: nat)
    requires k < |results|
  {
    k < |produced| && k < |asked| && !MentionsPing(asked[k]) && results[k] == Replies(produced[k])
  }

  predicate ServedOk(asked: seq<ClientMsg>, served: seq<ClientMsg>, produced: seq<seq<DaemonMsg>>, k: nat)
    requires k < |served|
  {
    k < |asked| && served[k] == asked[k] && k < |produced|
    && (!MentionsPing(served[k]) ==> AnswersTo(served[k], produced[k]))
  }

  ghost predicate HistoryOk(
      asked: seq<ClientMsg>, served: seq<ClientMsg>, produced: seq<seq<DaemonMsg>>, results: seq<seq<DaemonMsg>>)
  {
    && |served| == |produced|
    && (forall k :: 0 <= k < |results| ==> ResultOk(asked, produced, results, k))
    && (forall k :: 0 <= k < |served| ==> ServedOk(asked, served, produced, k))
  }

  ghost predicate Inv(s: State) {
    && GateOk(s)
    && HistoryOk(s.asked, s.served, s.produced, s.results)
    && Pushed(s.written) == s.client.broadcast + Pushed(s.down)
    && (forall i :: 0 <= i < |s.events| ==> ReplyId(s.events[i]).None?)
  }

  lemma AskKeeps(asked: seq<ClientMsg>, served: seq<ClientMsg>, produced: seq<seq<DaemonMsg>>,
                 results: seq<seq<DaemonMsg>>, l: ClientMsg)
    requires HistoryOk(asked, served, produced, results)
    ensures HistoryOk(asked + [l], served, produced, results)
  {
    forall k | 0 <= k < |results| ensures ResultOk(asked + [l], produced, results, k) {
      assert ResultOk(asked, produced, results, k);
    }
    forall k | 0 <= k < |served| ensures ServedOk(asked + [l], served, produced, k) {
      assert ServedOk(asked, served, produced, k);
    }
  }

  lemma AnswerKeeps(asked: seq<ClientMsg>, served: seq<ClientMsg>, produced: seq<seq<DaemonMsg>>,
                    results: seq<seq<DaemonMsg>>, answers: seq<DaemonMsg>)
    requires HistoryOk(asked, served, produced, results) && |served| < |asked|
    requires !MentionsPing(asked[|served|]) ==> AnswersTo(asked[|served|], answers)
    ensures HistoryOk(asked, served + [asked[|served|]], produced + [answers], results)
  {
    forall k | 0 <= k < |results| ensures ResultOk(asked, produced + [answers], results, k) {
      assert ResultOk(asked, produced, results, k);
    }
    forall k | 0 <= k <= |served| ensures ServedOk(asked, served + [asked[|served|]], produced + [answers], k) {
      if k < |served| { assert ServedOk(asked, served, produced, k); }
    }
  }

  lemma ReturnKeeps(asked: seq<ClientMsg>, served: seq<ClientMsg>, produced: seq<seq<DaemonMsg>>,
                    results: seq<seq<DaemonMsg>>)
    requires HistoryOk(asked, served, produced, results) && |results| < |produced|
    requires |results| < |asked| && !MentionsPing(asked[|results|])
    ensures HistoryOk(asked, served, produced, results + [Replies(produced[|results|])])
  {
    var more := results + [Replies(produced[|results|])];
    forall k | 0 <= k < |more| ensures ResultOk(asked, produced, more, k) {
      if k < |results| { assert ResultOk(asked, produced, results, k); }
    }
  }

  lemma {:induction false} PushedConcat(a: seq<HostFrame>, b: seq<HostFrame>)
    ensures Pushed(a + b) == Pushed(a) + Pushed(b)
    decreases |a|
  {
    if a == [] {
      assert a + b == b;
    } else {
      assert (a + b)[1..] == a[1..] + b;
      PushedConcat(a[1..], b);
    }
  }

  lemma WritePushes(written: seq<HostFrame>, broadcast: seq<DaemonMsg>, down: seq<HostFrame>, lines: seq<HostFrame>)
    requires Pushed(written) == broadcast + Pushed(down)
    ensures Pushed(written + lines) == broadcast + Pushed(down + lines)
  {
    PushedConcat(written, lines);
    PushedConcat(down, lines);
    Assoc(broadcast, Pushed(down), Pushed(lines));
  }

  lemma {:induction false} AnswerThenEvent(fs: seq<HostFrame>, replies: seq<DaemonMsg>, f: HostFrame)
    requires OneAnswer(fs, replies) && IsEvent(f)
    ensures OneAnswer(fs + [f], replies)
    decreases |fs|
  {
    assert (fs + [f])[1..] == fs[1..] + [f];
    if IsEvent(fs[0]) {
      AnswerThenEvent(fs[1..], replies, f);
    } else if !fs[0].ReplyEnd? {
      AnswerThenEvent(fs[1..], replies[1..], f);
    }
  }

  /** A block of answers and its end, written after events only. */
  lemma {:induction false} EventsThenAnswer(fs: seq<HostFrame>, ms: seq<DaemonMsg>)
    requires Clean(fs)
    ensures OneAnswer(fs + DataAll(ms) + [ReplyEnd], Replies(ms))
    decreases |fs| + |ms|
  {
    var all := fs + DataAll(ms) + [ReplyEnd];
    if fs != [] {
      assert all[1..] == fs[1..] + DataAll(ms) + [ReplyEnd];
      EventsThenAnswer(fs[1..], ms);
    } else if ms != [] {
      assert all[1..] == [] + DataAll(ms[1..]) + [ReplyEnd];
      EventsThenAnswer([], ms[1..]);
      if ReplyId(ms[0]).Some? {
        assert Replies(ms)[1..] == Replies(ms[1..]);
      } else {
        assert Replies(ms) == Replies(ms[1..]);
      }
    } else {
      assert all == [ReplyEnd];
    }
  }

  /** Reading one frame of the answer in flight. */
  lemma ReadAnswer(down: seq<HostFrame>, got: seq<DaemonMsg>, all: seq<DaemonMsg>)
    requires down != [] && got <= all && OneAnswer(down, all[|got|..])
    ensures var f, c := down[0], Routed(Client(Waiting, Some(got), []), down[0]);
            if f.ReplyEnd? then c.gate == Delivered(all) && c.pending.None? && Clean(down[1..])
            else
              && c.gate.Waiting? && c.pending.Some? && c.pending.value <= all
              && OneAnswer(down[1..], all[|c.pending.value|..])
  {
    var f := down[0];
    if f.Data? && ReplyId(f.msg).Some? {
      assert got + [f.msg] == all[..|got| + 1];
      assert all[|got|..][1..] == all[|got| + 1..];
    }
  }

  lemma ReadKeepsGate(s: State)
    requires GateOk(s) && s.down != []
    ensures GateOk(Step(s, Read))
  {
    var n := |s.asked|;
    if s.client.gate.Waiting? && s.up == [] && !MentionsPing(s.asked[n - 1]) {
      ReadAnswer(s.down, s.client.pending.value, Replies(s.produced[n - 1]));
    } else {
      ReadEvent(s);
    }
  }

  lemma ReadEvent(s: State)
    requires GateOk(s) && s.down != [] && Clean(s.down)
    ensures GateOk(Step(s, Read))
  {
    assert IsEvent(s.down[0]);
  }

  lemma ReadKeeps(s: State)
    requires Inv(s) && s.down != []
    ensures Inv(Step(s, Read))
  {
    ReadKeepsGate(s);
  }

  lemma PushKeepsGate(s: State)
    requires GateOk(s) && s.events != [] && ReplyId(s.events[0]).None?
    ensures GateOk(Step(s, PushEvent))
  {
    var f, n := Data(s.events[0]), |s.asked|;
    if s.client.gate.Waiting? && s.up == [] && !MentionsPing(s.asked[n - 1]) {
      AnswerThenEvent(s.down, Replies(s.produced[n - 1])[|s.client.pending.value|..], f);
    }
  }

  lemma PushKeeps(s: State)
    requires Inv(s) && s.events != []
    ensures Inv(Step(s, PushEvent))
  {
    PushKeepsGate(s);
    WritePushes(s.written, s.client.broadcast, s.down, [Data(s.events[0])]);
  }

  lemma ServeKeepsGate(s: State, w: World)
    requires GateOk(s) && s.up != [] && |s.served| == |s.produced|
    ensures GateOk(Step(s, Serve(w))) && s.up[0] == s.asked[|s.asked| - 1] && |s.served| == |s.asked| - 1
  {
    var s', l, n := Step(s, Serve(w)), s.up[0], |s.asked|;
    assert s.client.gate.Waiting? && l == s.asked[n - 1] && s'.up == [];
    if !MentionsPing(l) {
      var answers := HandleMsg(s.sessions, l, w).1;
      EventsThenAnswer(s.down, answers);
      assert s.down + Served(s.sessions, l, w) == s.down + DataAll(answers) + [ReplyEnd];
      assert s'.produced[n - 1] == answers && Replies(answers)[0..] == Replies(answers);
    }
  }

  lemma ServeHistory(s: State, w: World)
    requires HistoryOk(s.asked, s.served, s.produced, s.results)
    requires s.up != [] && |s.served| < |s.asked| && s.up[0] == s.asked[|s.served|]
    ensures var s' := Step(s, Serve(w)); HistoryOk(s'.asked, s'.served, s'.produced, s'.results)
  {
    var l := s.up[0];
    var answers := if MentionsPing(l) then [] else HandleMsg(s.sessions, l, w).1;
    if !MentionsPing(l) { RepliesCarryOwnId(s.sessions, l, w); }
    AnswerKeeps(s.asked, s.served, s.produced, s.results, answers);
  }

  lemma ServeKeeps(s: State, w: World)
    requires Inv(s) && s.up != []
    ensures Inv(Step(s, Serve(w)))
  {
    ServeKeepsGate(s, w);
    WritePushes(s.written, s.client.broadcast, s.down, Served(s.sessions, s.up[0], w));
    ServeHistory(s, w);
  }

  lemma GateMoveGate(s: State, a: Action)
    requires GateOk(s) && Enabled(s, a) && (a.Acquire? || a.WriteLine? || a.Return? || a.Happen?)
    ensures GateOk(Step(s, a))
  {
  }

  lemma GateMoveKeeps(s: State, a: Action)
    requires Inv(s) && Enabled(s, a) && (a.Acquire? || a.WriteLine? || a.Return? || a.Happen?)
    ensures Inv(Step(s, a))
  {
    GateMoveGate(s, a);
    if a.WriteLine? { AskKeeps(s.asked, s.served, s.produced, s.results, s.client.gate.line); }
    if a.Return? { ReturnKeeps(s.asked, s.served, s.produced, s.results); }
  }

  lemma {:induction false} RunInv(acts: seq<Action>)
    ensures Inv(Exec(acts))
    decreases |acts|
  {
    if acts != [] {
      var s, a := Exec(acts[..|acts| - 1]), acts[|acts| - 1];
      RunInv(acts[..|acts| - 1]);
      if Enabled(s, a) {
        match a
        case Read => ReadKeeps(s);
        case PushEvent => PushKeeps(s);
        case Serve(w) => ServeKeeps(s, w);
        case _ => GateMoveKeeps(s, a);
      }
    }
  }

  // ---- What callers and subscribers see ----

  /** For every interleaving, the k-th gated request returned exactly the id-carrying frames the
      host produced for it, in order: one frame with its own id when it has one, otherwise none. */
  lemma RequestsGetTheirOwnReplies(acts: seq<Action>, k: nat)
    requires k < |Exec(acts).results|
    ensures var s := Exec(acts);
            && k < |s.served| && k < |s.asked| && k < |s.produced| && s.served[k] == s.asked[k]
            && s.results[k] == Replies(s.produced[k])
            && (match RequestId(s.asked[k])
                case Some(id) => |s.results[k]| == 1 && ReplyId(s.results[k][0]) == Some(id)
                case None => s.results[k] == [])
  {
    RunInv(acts);
    var s := Exec(acts);
    assert ResultOk(s.asked, s.produced, s.results, k) && ServedOk(s.asked, s.served, s.produced, k);
  }

  /** The broadcast carries every other message in exactly the order the host wrote them: those
      already read, and nothing is missing once the stream is drained. */
  lemma BroadcastIsWireOrder(acts: seq<Action>)
    ensures Exec(acts).client.broadcast + Pushed(Exec(acts).down) == Pushed(Exec(acts).written)
    ensures Exec(acts).down == [] ==> Exec(acts).client.broadcast == Pushed(Exec(acts).written)
  {
    RunInv(acts);
    assert Exec(acts).client.broadcast + [] == Exec(acts).client.broadcast;
  }

  /** A caller waits with nothing in flight only for a line taken for a keep-alive; such a line has
      no result and is the last. */
  predicate OnlyPingsWait(s: State, k: nat) {
    && (s.client.gate.Waiting? && s.up == [] && s.down == [] ==>
          s.asked != [] && MentionsPing(s.asked[|s.asked| - 1]))
    && (k < |s.asked| && MentionsPing(s.asked[k]) ==>
          k >= |s.results| && k == |s.asked| - 1 && s.client.gate.Waiting?)
  }

  /** No answer is lost: a caller waits with nothing in flight exactly when its line was taken for a
      keep-alive, and such a line the host never answers. */
  lemma OnlyPingsGoUnanswered(acts: seq<Action>, k: nat)
    ensures OnlyPingsWait(Exec(acts), k)
  {
    RunInv(acts);
    UnansweredArePings(Exec(acts), k);
  }

  lemma UnansweredArePings(s: State, k: nat)
    requires Inv(s)
    ensures OnlyPingsWait(s, k)
  {
    assert k < |s.results| ==> ResultOk(s.asked, s.produced, s.results, k);
  }

  lemma ExecSnoc(acts: seq<Action>, a: Action)
    ensures Exec(acts + [a]) == Step(Exec(acts), a)
  {
    assert (acts + [a])[..|acts|] == acts;
  }

  /** Creating a session whose command is that word: the host writes a pong and nothing else, and
      the caller waits with nothing in flight. */
  lemma PingCommandIsNotAnswered(id: nat, cols: nat, rows: nat, w: World)
    ensures var m := SessionCreate(id, cols, rows, None, Some(WORD));
            var s := Exec([Acquire(m), WriteLine, Serve(w), Read]);
            && MentionsPing(m) && RequestId(m) == Some(id)
            && s.written == [HostPong] && s.asked == [m] && s.results == []
            && s.client.gate.Waiting? && s.up == [] && s.down == [] && s.sessions == {}
  {
    var m := SessionCreate(id, cols, rows, None, Some(WORD));
    assert Texts(m)[0] == WORD && Names(Texts(m)[0], WORD);
    MentionsPingExactly(m);
    PingLineRun(m, w);
  }

  lemma PingLineRun(m: ClientMsg, w: World)
    requires MentionsPing(m)
    ensures var s := Exec([Acquire(m), WriteLine, Serve(w), Read]);
            && s.written == [HostPong] && s.asked == [m] && s.results == []
            && s.client.gate.Waiting? && s.up == [] && s.down == [] && s.sessions == {}
  {
    var none: seq<Action> := [];
    ExecSnoc(none, Acquire(m));
    ExecSnoc([Acquire(m)], WriteLine);
    assert none + [Acquire(m)] == [Acquire(m)];
    assert [Acquire(m)] + [WriteLine] == [Acquire(m), WriteLine];
    var asked := State(Client(Waiting, Some([]), []), [m], [], {}, [], [m], [], [], [], []);
    assert Exec([Acquire(m), WriteLine]) == asked;
    ExecSnoc([Acquire(m), WriteLine], Serve(w));
    ExecSnoc([Acquire(m), WriteLine, Serve(w)], Read);
    assert [Acquire(m), WriteLine] + [Serve(w)] == [Acquire(m), WriteLine, Serve(w)];
    assert [Acquire(m), WriteLine, Serve(w)] + [Read] == [Acquire(m), WriteLine, Serve(w), Read];
    PingServed(asked, w);
  }

  lemma PingServed(s: State, w: World)
    requires s.client.gate.Waiting? && s.up != [] && s.down == [] && s.written == [] && MentionsPing(s.up[0])
    ensures var s' := Step(Step(s, Serve(w)), Read);
            && s'.written == [HostPong] && s'.down == [] && s'.up == s.up[1..]
            && s'.client == s.client && s'.asked == s.asked && s'.results == s.results && s'.sessions == s.sessions
  {
  }

  // ---- Both ends as the programs run them ----

  class SessionHost {
    var gate: Gate
    var pending: Option<seq<DaemonMsg>>
    var events: seq<DaemonMsg>

    ghost function View(): Client reads this { Client(gate, pending, events) }

    constructor ()
      ensures View() == INIT.client
    {
      gate, pending, events := Free, None, [];
    }

    method Register(l: ClientMsg)
      requires gate.Free?
      modifies this
      ensures View() == old(View()).(gate := Registered(l), pending := Some([]))
    {
      gate := Registered(l);
      pending := Some([]);
    }

    /** The reader task, one parsed frame at a time. */
    method Route(f: HostFrame)
      modifies this
      ensures View() == Routed(old(View()), f)
    {
      match f
      case ReplyEnd =>
        var taken := pending;
        pending := None;
        if taken.Some? {
          gate := Delivered(taken.value);
        }
      case HostPong =>
      case Data(m) =>
        if ReplyId(m).Some? {
          if pending.Some? {
            pending := Some(pending.value + [m]);
          }
        } else {
          events := events + [m];
        }
    }
  }

  class HostServer {
    var sessions: set<Sid>
    var writer: seq<HostFrame>

    constructor ()
      ensures sessions == {} && writer == []
    {
      sessions, writer := {}, [];
    }

    method ServeLine(l: ClientMsg, w: World)
      modifies this
      ensures writer == old(writer) + Served(old(sessions), l, w)
      ensures sessions == if MentionsPing(l) then old(sessions) else HandleMsg(old(sessions), l, w).0
    {
      if MentionsPing(l) {
        writer := writer + [HostPong];
        return;
      }
      var (left, replies) := HandleMsg(sessions, l, w);
      sessions := left;
      assert replies[0..] == replies;
      for i := 0 to |replies|
        invariant sessions == left
        invariant writer + DataAll(replies[i..]) == old(writer) + DataAll(replies)
      {
        assert replies[i..][1..] == replies[i + 1..];
        assert writer + DataAll(replies[i..]) == writer + [Data(replies[i])] + DataAll(replies[i + 1..]);
        writer := writer + [Data(replies[i])];
      }
      assert replies[|replies|..] == [] && writer + [] == writer;
      writer := writer + [ReplyEnd];
    }
  }
}
