/** One PTY session from the reader thread to the browser (daemon/src/session.rs,
    daemon/src/host_server.rs): the ring, the sequence number and the subscriber, stepped by the
    reader thread and by an attaching host connection in any interleaving. */
module SessionStream {
  import opened Common
  import P = Protocol
  import T = Terminal

  const RING_CAP: nat := 200 * 1024
  const READ_BUF: nat := 32 * 1024

  datatype Report = Report(agent: string, status: string, detail: Bytes)

  datatype SessionEvent = Output(chunk: Bytes, n: nat) | Agent(report: Report)

  /** What the threads share: the ring, the atomic counter, the subscriber slot and the queue
      of the host connection's channel. */
  datatype Shared = Shared(ring: Bytes, seqNo: nat, subscribed: bool, queue: seq<SessionEvent>)

  function WithPushed(sh: Shared, chunk: Bytes): Shared {
    sh.(ring := TakeLast(sh.ring + chunk, RING_CAP))
  }

  function BumpSeq(sh: Shared): Shared {
    sh.(seqNo := sh.seqNo + 1)
  }

  function Emit(sh: Shared, e: SessionEvent): Shared {
    if sh.subscribed then sh.(queue := sh.queue + [e]) else sh
  }

  function Subscribe(sh: Shared): Shared {
    sh.(subscribed := true)
  }

  class Channel {
    var items: seq<SessionEvent>

    constructor ()
      ensures items == []
    {
      items := [];
    }

    method Send(e: SessionEvent)
      modifies this
      ensures items == old(items) + [e]
    {
      items := items + [e];
    }
  }

  /** `log` is every chunk the reader has pushed. */
  class Session {
    var ring: Bytes
    var seqNo: nat
    var subscriber: Channel?
    ghost var log: seq<Bytes>

    /** The ring is the end of everything pushed; the counter lags by at most the chunk that is
        pushed and not yet counted. */
    ghost predicate Valid() reads this {
      ring == TakeLast(Flatten(log), RING_CAP) && seqNo <= |log| <= seqNo + 1
    }

    constructor ()
      ensures Valid() && log == [] && subscriber == null
    {
      ring, seqNo, subscriber, log := [], 0, null, [];
    }

    ghost function View(tx: Channel): Shared
      reads this, tx
    {
      Shared(ring, seqNo, subscriber == tx, tx.items)
    }

    method PushRing(bytes: Bytes)
      requires Valid() && |log| == seqNo
      modifies this`ring, this`log
      ensures Valid() && log == old(log) + [bytes]
      ensures ring == WithPushed(Shared(old(ring), seqNo, false, []), bytes).ring
    {
      TakeLastAppend(Flatten(log), bytes, RING_CAP);
      FlattenSnoc(log, bytes);
      ring := ring + bytes;
      var overflow := if |ring| > RING_CAP then |ring| - RING_CAP else 0;
      if overflow > 0 {
        ring := ring[overflow..];
      }
      log := log + [bytes];
    }

    method SetSubscriber(tx: Channel)
      modifies this`subscriber
      ensures View(tx) == Subscribe(old(View(tx)))
    {
      subscriber := tx;
    }

    /** The bytes are the last 200 KiB of all chunks pushed. Of these at least the first `n` are
        counted, and at most one is not. */
    method Snapshot() returns (bytes: Bytes, n: nat)
      requires Valid()
      ensures bytes == TakeLast(Flatten(log), RING_CAP)
      ensures n == |log| || n + 1 == |log|
      ensures n == |log| <==> seqNo == |log|
    {
      bytes, n := ring, seqNo;
    }

    /** One turn of the reader's loop, when no other thread runs between its steps. */
    method ReadOnce(chunk: Bytes, report: Option<Report>, ghost tx: Channel)
      requires Valid() && |log| == seqNo
      requires subscriber == null || subscriber == tx
      modifies this`ring, this`log, this`seqNo, subscriber
      ensures Valid() && log == old(log) + [chunk] && seqNo == |log|
      ensures subscriber == old(subscriber)
      ensures View(tx) ==
              var bumped := BumpSeq(WithPushed(old(View(tx)), chunk));
              Emit(if report.Some? then Emit(bumped, Agent(report.value)) else bumped, Output(chunk, bumped.seqNo))
    {
      PushRing(chunk);
      assert View(tx) == WithPushed(old(View(tx)), chunk);
      seqNo := seqNo + 1;
      var n := seqNo;
      if report.Some? {
        if subscriber != null {
          subscriber.Send(Agent(report.value));
        }
      }
      if subscriber != null {
        subscriber.Send(Output(chunk, n));
      }
    }
  }

  // ---- The interleaving ----

  datatype Reader = Idle | Pushed(chunk: Bytes) | Bumped(chunk: Bytes, n: nat)

  /** The serve loop is one task: while it answers an attach it drains no events. The ring's
      lock is held from the copy to the load of the counter. */
  datatype Attach = NoAttach | Subscribed | Copied(bytes: Bytes)

  /** `wire` is everything the host wrote that reaches the broadcast. `log` (the chunks read so
      far) and `taken` (chunks pushed when the snapshot at a wire index was loaded) are history. */
  datatype State = State(
    sh: Shared, reader: Reader, attach: Attach, wire: seq<P.DaemonMsg>,
    log: seq<Bytes>, taken: map<nat, nat>)

  datatype Action =
    | Push(chunk: Bytes)
    | Bump
    | Detect(report: Report)
    | Send
    | SetSubscriber
    | Copy
    | LoadAndReply
    | Drain
    | Other(frame: P.DaemonMsg)

  const INIT := State(Shared([], 0, false, []), Idle, NoAttach, [], [], map[])

  /** The message is one of session `me`'s stream. */
  predicate OfSession(f: P.DaemonMsg, me: P.Sid) {
    (f.Output? || f.Snapshot? || f.SessionExited? || f.AgentStatus?) && f.sid == me
  }

  predicate Enabled(s: State, me: P.Sid, a: Action) {
    match a
    case Push(chunk) => s.reader.Idle? && 1 <= |chunk| <= READ_BUF && !s.attach.Copied?
    case Bump => s.reader.Pushed?
    case Detect(_) => s.reader.Bumped?
    case Send => s.reader.Bumped?
    case SetSubscriber => s.attach.NoAttach?
    case Copy => s.attach.Subscribed?
    case LoadAndReply => s.attach.Copied?
    case Drain => s.attach.NoAttach? && s.sh.queue != []
    case Other(frame) => s.attach.NoAttach? && P.ReplyId(frame).None? && !OfSession(frame, me)
  }

  function ToFrame(me: P.Sid, e: SessionEvent): P.DaemonMsg {
    match e
    case Output(chunk, n) => P.Output(me, n, chunk)
    case Agent(r) => P.AgentStatus(me, r.agent, r.status, r.detail)
  }

  /** One atomic step; an action that is not enabled does nothing. */
  function Step(s: State, me: P.Sid, a: Action): State {
    if !Enabled(s, me, a) then s
    else
      match a
      case Push(chunk) => s.(sh := WithPushed(s.sh, chunk), reader := Pushed(chunk), log := s.log + [chunk])
      case Bump => s.(sh := BumpSeq(s.sh), reader := Bumped(s.reader.chunk, s.sh.seqNo + 1))
      case Detect(r) => s.(sh := Emit(s.sh, Agent(r)))
      case Send => s.(sh := Emit(s.sh, Output(s.reader.chunk, s.reader.n)), reader := Idle)
      case SetSubscriber => s.(sh := Subscribe(s.sh), attach := Subscribed)
      case Copy => s.(attach := Copied(s.sh.ring))
      case LoadAndReply =>
        s.(wire := s.wire + [P.Snapshot(me, s.sh.seqNo, s.attach.bytes)], attach := NoAttach,
           taken := s.taken[|s.wire| := |s.log|])
      case Drain => s.(wire := s.wire + [ToFrame(me, s.sh.queue[0])], sh := s.sh.(queue := s.sh.queue[1..]))
      case Other(frame) => s.(wire := s.wire + [frame])
  }

  function Exec(me: P.Sid, acts: seq<Action>): State {
    if acts == [] then INIT else Step(Exec(me, acts[..|acts| - 1]), me, acts[|acts| - 1])
  }

  lemma ExecSnoc(me: P.Sid, acts: seq<Action>, s: State, a: Action) returns (acts': seq<Action>, s': State)
    requires s == Exec(me, acts)
    ensures acts' == acts + [a] && s' == Step(s, me, a) == Exec(me, acts')
  {
    acts', s' := acts + [a], Step(s, me, a);
    assert acts'[..|acts|] == acts;
  }

  // ---- The invariant ----

  /** The output frames of session `me`, in order. */
  function Outs(fs: seq<P.DaemonMsg>, me: P.Sid): (outs: seq<P.DaemonMsg>)
    ensures |outs| <= |fs|
  {
    if fs == [] then []
    else
      var rest, f := Outs(fs[..|fs| - 1], me), fs[|fs| - 1];
      if f.Output? && f.sid == me then rest + [f] else rest
  }

  lemma OutsSnoc(fs: seq<P.DaemonMsg>, f: P.DaemonMsg, me: P.Sid)
    ensures Outs(fs + [f], me) == Outs(fs, me) + if f.Output? && f.sid == me then [f] else []
  {
    assert (fs + [f])[..|fs|] == fs;
  }

  lemma {:induction false} OutsConcat(a: seq<P.DaemonMsg>, b: seq<P.DaemonMsg>, me: P.Sid)
    ensures Outs(a + b, me) == Outs(a, me) + Outs(b, me)
    decreases |b|
  {
    if b == [] {
      assert a + b == a;
    } else {
      var init, f := b[..|b| - 1], b[|b| - 1];
      OutsConcat(a, init, me);
      OutsSnoc(init, f, me);
      OutsSnoc(a + init, f, me);
      assert b == init + [f];
      Assoc(a, init, [f]);
      Assoc(Outs(a, me), Outs(init, me), if f.Output? && f.sid == me then [f] else []);
    }
  }

  function Framed(me: P.Sid, q: seq<SessionEvent>): seq<P.DaemonMsg> {
    seq(|q|, i requires 0 <= i < |q| => ToFrame(me, q[i]))
  }

  /** Everything sent and not lost: written frames, then queued ones. */
  function Pipe(s: State, me: P.Sid): seq<P.DaemonMsg> {
    s.wire + Framed(me, s.sh.queue)
  }

  /** Chunks lo+1..hi as the output frames that carry them. */
  function Numbered(me: P.Sid, log: seq<Bytes>, lo: nat, hi: nat): seq<P.DaemonMsg>
    requires lo <= hi <= |log|
    ensures |Numbered(me, log, lo, hi)| == hi - lo
  {
    if lo == hi then [] else Numbered(me, log, lo, hi - 1) + [P.Output(me, hi, log[hi - 1])]
  }

  /** The bytes of chunks lo+1..hi. */
  function Span(log: seq<Bytes>, lo: nat, hi: nat): Bytes
    requires lo <= hi <= |log|
  {
    if lo == hi then [] else Span(log, lo, hi - 1) + log[hi - 1]
  }

  lemma {:induction false} SpanFrame(log: seq<Bytes>, c: Bytes, lo: nat, hi: nat)
    requires lo <= hi <= |log|
    ensures Span(log + [c], lo, hi) == Span(log, lo, hi)
    decreases hi
  {
    if lo < hi {
      SpanFrame(log, c, lo, hi - 1);
    }
  }

  /** Chunks whose send step has been reached and passed. */
  function Done(s: State): int {
    if s.reader.Bumped? then s.sh.seqNo - 1 else s.sh.seqNo
  }

  /** The ring is the end of all chunks read. */
  predicate RingHolds(ring: Bytes, log: seq<Bytes>) { ring == TakeLast(Span(log, 0, |log|), RING_CAP) }

  lemma RingPushed(ring: Bytes, log: seq<Bytes>, c: Bytes)
    requires RingHolds(ring, log)
    ensures RingHolds(TakeLast(ring + c, RING_CAP), log + [c])
  {
    SpanFrame(log, c, 0, |log|);
    TakeLastAppend(Span(log, 0, |log|), c, RING_CAP);
  }

  predicate ReaderOk(s: State) {
    && |s.log| == s.sh.seqNo + (if s.reader.Pushed? then 1 else 0)
    && (!s.reader.Idle? ==> s.log != [] && s.reader.chunk == s.log[|s.log| - 1])
    && (s.reader.Bumped? ==> s.reader.n == s.sh.seqNo)
    && (forall k :: 0 <= k < |s.log| ==> 1 <= |s.log[k]| <= READ_BUF)
    && (!s.attach.NoAttach? ==> s.sh.subscribed)
    && (s.attach.Copied? ==> s.attach.bytes == s.sh.ring)
  }

  /** What was sent is the tail of the chunks done: nothing is skipped once there is a subscriber. */
  predicate SentOk(me: P.Sid, sent: seq<P.DaemonMsg>, log: seq<Bytes>, done: int, subscribed: bool) {
    && |sent| <= done <= |log|
    && sent == Numbered(me, log, done - |sent|, done)
    && (!subscribed ==> sent == [])
  }

  predicate OutputsOk(s: State, me: P.Sid) {
    SentOk(me, Outs(Pipe(s, me), me), s.log, Done(s), s.sh.subscribed)
  }

  predicate SnapshotOk(s: State, me: P.Sid, i: nat)
    requires i < |s.wire|
  {
    s.wire[i].Snapshot? && s.wire[i].sid == me ==>
      && s.sh.subscribed
      && i in s.taken
      && s.wire[i].n <= s.taken[i] <= s.wire[i].n + 1
      && s.wire[i].n <= s.sh.seqNo
      && s.taken[i] <= |s.log|
      && s.wire[i].data == TakeLast(Span(s.log, 0, s.taken[i]), RING_CAP)
      && Done(s) - |Outs(Pipe(s, me), me)| + |Outs(s.wire[..i], me)| <= s.wire[i].n
  }

  predicate Inv(s: State, me: P.Sid) {
    && ReaderOk(s)
    && RingHolds(s.sh.ring, s.log)
    && OutputsOk(s, me)
    && forall i :: 0 <= i < |s.wire| ==> SnapshotOk(s, me, i)
  }

  lemma ReaderStep(s: State, me: P.Sid, a: Action)
    requires ReaderOk(s)
    ensures ReaderOk(Step(s, me, a))
  {
  }

  lemma RingStep(s: State, me: P.Sid, a: Action)
    requires RingHolds(s.sh.ring, s.log)
    ensures RingHolds(Step(s, me, a).sh.ring, Step(s, me, a).log)
  {
    if a.Push? && Enabled(s, me, a) {
      RingPushed(s.sh.ring, s.log, a.chunk);
    }
  }

  lemma FramedSnoc(me: P.Sid, q: seq<SessionEvent>, e: SessionEvent)
    ensures Framed(me, q + [e]) == Framed(me, q) + [ToFrame(me, e)]
  {
  }

  /** Only a send to a subscriber extends the outputs in the pipe. */
  lemma PipeStep(s: State, me: P.Sid, a: Action)
    ensures Outs(Pipe(Step(s, me, a), me), me) == Outs(Pipe(s, me), me) +
            if a.Send? && Enabled(s, me, a) && s.sh.subscribed then [P.Output(me, s.reader.n, s.reader.chunk)] else []
  {
    var s' := Step(s, me, a);
    if Enabled(s, me, a) {
      match a
      case Send =>
        if s.sh.subscribed { PipeEmit(s, s', me, Output(s.reader.chunk, s.reader.n)); }
      case Detect(r) =>
        if s.sh.subscribed { PipeEmit(s, s', me, Agent(r)); }
      case Drain =>
        assert Pipe(s', me) == Pipe(s, me);
      case LoadAndReply =>
        PipeInsert(s.wire, P.Snapshot(me, s.sh.seqNo, s.attach.bytes), Framed(me, s.sh.queue), me);
      case Other(frame) =>
        PipeInsert(s.wire, frame, Framed(me, s.sh.queue), me);
      case _ =>
    }
  }

  lemma PipeEmit(s: State, s': State, me: P.Sid, e: SessionEvent)
    requires s'.wire == s.wire && s'.sh.queue == s.sh.queue + [e]
    ensures Outs(Pipe(s', me), me) == Outs(Pipe(s, me), me) + if e.Output? then [ToFrame(me, e)] else []
  {
    FramedSnoc(me, s.sh.queue, e);
    assert Pipe(s', me) == Pipe(s, me) + [ToFrame(me, e)];
    assert Pipe(s', me)[..|Pipe(s, me)|] == Pipe(s, me);
  }

  lemma PipeInsert(a: seq<P.DaemonMsg>, f: P.DaemonMsg, b: seq<P.DaemonMsg>, me: P.Sid)
    requires !(f.Output? && f.sid == me)
    ensures Outs(a + [f] + b, me) == Outs(a + b, me)
  {
    OutsConcat(a + [f], b, me);
    OutsConcat(a, b, me);
    assert (a + [f])[..|a|] == a;
  }

  lemma {:induction false} NumberedFrame(me: P.Sid, log: seq<Bytes>, more: seq<Bytes>, lo: nat, hi: nat)
    requires lo <= hi <= |log|
    ensures Numbered(me, log + more, lo, hi) == Numbered(me, log, lo, hi)
    decreases hi
  {
    if lo < hi {
      NumberedFrame(me, log, more, lo, hi - 1);
    }
  }

  lemma {:induction false} NumberedSplit(me: P.Sid, log: seq<Bytes>, lo: nat, mid: nat, hi: nat)
    requires lo <= mid <= hi <= |log|
    ensures Numbered(me, log, lo, hi) == Numbered(me, log, lo, mid) + Numbered(me, log, mid, hi)
    decreases hi
  {
    if mid < hi {
      NumberedSplit(me, log, lo, mid, hi - 1);
    }
  }

  lemma NumberedSlice(me: P.Sid, log: seq<Bytes>, lo: nat, hi: nat, a: nat, b: nat)
    requires lo <= hi <= |log| && a <= b <= hi - lo
    ensures Numbered(me, log, lo, hi)[a..b] == Numbered(me, log, lo + a, lo + b)
  {
    NumberedSplit(me, log, lo, lo + b, hi);
    NumberedSplit(me, log, lo, lo + a, lo + b);
  }

  lemma SentPush(me: P.Sid, sent: seq<P.DaemonMsg>, log: seq<Bytes>, done: int, subscribed: bool, c: Bytes)
    requires SentOk(me, sent, log, done, subscribed)
    ensures SentOk(me, sent, log + [c], done, subscribed)
  {
    NumberedFrame(me, log, [c], done - |sent|, done);
  }

  lemma SentDone(me: P.Sid, sent: seq<P.DaemonMsg>, log: seq<Bytes>, done: int, subscribed: bool)
    requires SentOk(me, sent, log, done, subscribed) && done < |log|
    ensures SentOk(me, sent + if subscribed then [P.Output(me, done + 1, log[done])] else [], log, done + 1, subscribed)
  {
    if !subscribed { assert sent + [] == []; }
  }

  lemma SentKept(me: P.Sid, sent: seq<P.DaemonMsg>, log: seq<Bytes>, done: int, subscribed: bool, later: bool)
    requires SentOk(me, sent, log, done, subscribed) && (subscribed ==> later)
    ensures SentOk(me, sent, log, done, later)
  {
  }

  /** What a step does to the chunks read, the chunks done and the subscriber slot. */
  lemma CountsStep(s: State, me: P.Sid, a: Action)
    requires ReaderOk(s)
    ensures var s', sends := Step(s, me, a), a.Send? && Enabled(s, me, a);
            && Done(s') == Done(s) + (if sends then 1 else 0)
            && s'.log == s.log + (if a.Push? && Enabled(s, me, a) then [a.chunk] else [])
            && (s.sh.subscribed ==> s'.sh.subscribed)
            && (sends ==> 0 <= Done(s) < |s.log| && s.reader.chunk == s.log[Done(s)] && s.reader.n == Done(s) + 1)
            && (sends ==> s'.sh.subscribed == s.sh.subscribed)
  {
  }

  lemma SentStep(me: P.Sid, sent: seq<P.DaemonMsg>, log: seq<Bytes>, done: int, subscribed: bool, pushed: seq<Bytes>,
                 sends: bool, sent': seq<P.DaemonMsg>, log': seq<Bytes>, done': int, subscribed': bool)
    requires SentOk(me, sent, log, done, subscribed) && |pushed| <= 1 && (subscribed ==> subscribed')
    requires sends ==> done < |log| && pushed == [] && subscribed' == subscribed
    requires sent' == sent + if sends && subscribed then [P.Output(me, done + 1, log[done])] else []
    requires log' == log + pushed && done' == done + (if sends then 1 else 0)
    ensures SentOk(me, sent', log', done', subscribed')
  {
    assert log + [] == log && sent + [] == sent;
    if sends {
      SentDone(me, sent, log, done, subscribed);
    } else {
      if pushed != [] {
        SentPush(me, sent, log, done, subscribed, pushed[0]);
        assert pushed == [pushed[0]];
      }
      SentKept(me, sent, log', done, subscribed, subscribed');
    }
  }

  lemma SentExtends(s: State, me: P.Sid, a: Action)
    requires ReaderOk(s)
    ensures var sends := a.Send? && Enabled(s, me, a);
            && (sends ==> 0 <= Done(s) < |s.log|)
            && Outs(Pipe(Step(s, me, a), me), me) == Outs(Pipe(s, me), me) +
               (if sends && s.sh.subscribed then [P.Output(me, Done(s) + 1, s.log[Done(s)])] else [])
  {
    PipeStep(s, me, a);
    CountsStep(s, me, a);
  }

  /** The outputs in the pipe stay numbered up to the chunks done. */
  lemma OutputsStep(s: State, me: P.Sid, a: Action)
    requires ReaderOk(s) && OutputsOk(s, me)
    ensures OutputsOk(Step(s, me, a), me)
  {
    var s', sends := Step(s, me, a), a.Send? && Enabled(s, me, a);
    var pushed := if a.Push? && Enabled(s, me, a) then [a.chunk] else [];
    SentExtends(s, me, a);
    CountsStep(s, me, a);
    SentStep(me, Outs(Pipe(s, me), me), s.log, Done(s), s.sh.subscribed, pushed, sends,
             Outs(Pipe(s', me), me), s'.log, Done(s'), s'.sh.subscribed);
  }

  lemma SnapshotStays(s: State, me: P.Sid, a: Action, i: nat)
    requires i < |s.wire| && SnapshotOk(s, me, i)
    ensures SnapshotOk(Step(s, me, a), me, i)
  {
    PipeStep(s, me, a);
    assert Step(s, me, a).wire[..i] == s.wire[..i];
    if a.Push? && i in s.taken && s.taken[i] <= |s.log| {
      SpanFrame(s.log, a.chunk, 0, s.taken[i]);
    }
  }

  lemma SnapshotNew(s: State, me: P.Sid, a: Action)
    requires ReaderOk(s) && RingHolds(s.sh.ring, s.log) && OutputsOk(s, me) && |s.wire| < |Step(s, me, a).wire|
    ensures SnapshotOk(Step(s, me, a), me, |s.wire|)
  {
    PipeStep(s, me, a);
    OutsConcat(s.wire, Framed(me, s.sh.queue), me);
    assert Step(s, me, a).wire[..|s.wire|] == s.wire;
  }

  lemma SnapshotsStep(s: State, me: P.Sid, a: Action)
    requires Inv(s, me)
    ensures forall i :: 0 <= i < |Step(s, me, a).wire| ==> SnapshotOk(Step(s, me, a), me, i)
  {
    forall i | 0 <= i < |Step(s, me, a).wire| ensures SnapshotOk(Step(s, me, a), me, i) {
      if i < |s.wire| { SnapshotStays(s, me, a, i); } else { SnapshotNew(s, me, a); }
    }
  }

  lemma {:induction false} RunInv(me: P.Sid, acts: seq<Action>)
    ensures Inv(Exec(me, acts), me)
    decreases |acts|
  {
    if acts != [] {
      var s, a := Exec(me, acts[..|acts| - 1]), acts[|acts| - 1];
      RunInv(me, acts[..|acts| - 1]);
      ReaderStep(s, me, a);
      RingStep(s, me, a);
      OutputsStep(s, me, a);
      SnapshotsStep(s, me, a);
    }
  }

  // ---- What the browser shows ----

  /** The frames among browser events, without the mounts. */
  function Frames(evs: seq<T.Event>): seq<P.DaemonMsg> {
    if evs == [] then []
    else
      var rest, e := Frames(evs[..|evs| - 1]), evs[|evs| - 1];
      if e.Recv? then rest + [e.frame] else rest
  }

  /** The session's own frames here are outputs and agent reports. */
  predicate NoBaseline(fs: seq<P.DaemonMsg>, me: P.Sid) {
    fs == [] ||
    var f := fs[|fs| - 1];
    NoBaseline(fs[..|fs| - 1], me) && (OfSession(f, me) ==> f.Output? || f.AgentStatus?)
  }

  lemma {:induction false} NoBaselineFromFrames(fs: seq<P.DaemonMsg>, me: P.Sid)
    requires forall k :: 0 <= k < |fs| ==> OfSession(fs[k], me) ==> fs[k].Output? || fs[k].AgentStatus?
    ensures NoBaseline(fs, me)
    decreases |fs|
  {
    if fs != [] {
      NoBaselineFromFrames(fs[..|fs| - 1], me);
    }
  }

  function Max(a: nat, b: nat): nat { if a < b then b else a }

  lemma ReplayOne(a: T.App, me: P.Sid, c: Bytes, k: nat, base: Bytes, text: Bytes)
    requires me in a.lastSeq && a.lastSeq[me] <= k && T.View(a, me) == base + text
    ensures T.Handle(a, T.Recv(P.Output(me, k + 1, c))).lastSeq == a.lastSeq[me := k + 1]
    ensures T.View(T.Handle(a, T.Recv(P.Output(me, k + 1, c))), me) == base + (text + c)
  {
    T.ViewStep(a, T.Recv(P.Output(me, k + 1, c)), me);
  }

  lemma SkipOne(a: T.App, me: P.Sid, e: T.Event)
    requires me in a.lastSeq
    requires e.Recv? && OfSession(e.frame, me) ==>
               e.frame.AgentStatus? || (e.frame.Output? && e.frame.n <= a.lastSeq[me])
    ensures me in T.Handle(a, e).lastSeq && T.Handle(a, e).lastSeq[me] == a.lastSeq[me]
    ensures T.View(T.Handle(a, e), me) == T.View(a, me)
  {
    T.ViewStep(a, e, me);
  }

  /** Consecutively numbered outputs, some of them already covered by the baseline `q`, add
      exactly the chunks above the baseline. */
  lemma {:induction false} ReplayOutputs(
      a: T.App, evs: seq<T.Event>, me: P.Sid, log: seq<Bytes>, lo: nat, q: nat, k: nat)
    requires me in a.lastSeq && a.lastSeq[me] == q && lo <= q <= |log|
    requires NoBaseline(Frames(evs), me)
    requires lo + k <= |log|
    requires Outs(Frames(evs), me) == Numbered(me, log, lo, lo + k)
    ensures me in T.Run(a, evs).lastSeq && T.Run(a, evs).lastSeq[me] == Max(q, lo + k)
    ensures T.View(T.Run(a, evs), me) == T.View(a, me) + Span(log, q, Max(q, lo + k))
    decreases |evs|
  {
    if evs == [] {
      assert Numbered(me, log, lo, lo + k) == [];
    } else {
      var pre, e := evs[..|evs| - 1], evs[|evs| - 1];
      if e.Recv? {
        assert Frames(evs)[..|Frames(pre)|] == Frames(pre);
      }
      var k' := k;
      if e.Recv? && e.frame.Output? && e.frame.sid == me {
        OutsLast(Frames(pre), e.frame, me, log, lo, k);
        k' := k - 1;
      }
      ReplayOutputs(a, pre, me, log, lo, q, k');
      var b := T.Run(a, pre);
      if k' < k && q < lo + k {
        ReplayOne(b, me, log[lo + k'], lo + k', T.View(a, me), Span(log, q, lo + k'));
        assert Span(log, q, lo + k) == Span(log, q, lo + k') + log[lo + k'];
      } else {
        SkipOne(b, me, e);
      }
    }
  }

  lemma OutsLast(fs: seq<P.DaemonMsg>, f: P.DaemonMsg, me: P.Sid, log: seq<Bytes>, lo: nat, k: nat)
    requires lo + k <= |log| && f.Output? && f.sid == me
    requires Outs(fs, me) + [f] == Numbered(me, log, lo, lo + k)
    ensures k > 0 && Outs(fs, me) == Numbered(me, log, lo, lo + k - 1)
    ensures f == P.Output(me, lo + k, log[lo + k - 1])
  {
    assert |Outs(fs, me) + [f]| == k;
    var all := Numbered(me, log, lo, lo + k);
    assert all == Numbered(me, log, lo, lo + k - 1) + [P.Output(me, lo + k, log[lo + k - 1])];
    assert all[..k - 1] == Outs(fs, me) && all[k - 1] == f;
  }

  /** The chunks shown when the frames `wire[i..j]` have been handled. */
  function Shown(s: State, me: P.Sid, i: nat, j: nat): int
    requires i < j <= |s.wire| && s.wire[i].Snapshot?
  {
    var hi := Done(s) - |Outs(Pipe(s, me), me)| + |Outs(s.wire[..j], me)|;
    if hi > s.wire[i].n then hi else s.wire[i].n
  }

  lemma SnapshotOne(a: T.App, me: P.Sid, data: Bytes, n: nat)
    ensures T.Handle(a, T.Recv(P.Snapshot(me, n, data))).lastSeq == a.lastSeq[me := n]
    ensures T.View(T.Handle(a, T.Recv(P.Snapshot(me, n, data))), me) == data
  {
    T.ViewStep(a, T.Recv(P.Snapshot(me, n, data)), me);
  }

  /** What a reader's, an attach's and a browser's steps add up to: the ring's window over the
      first m chunks followed by chunks q+1..n without a gap, q being the snapshot's number. */
  ghost predicate Seamless(s: State, me: P.Sid, i: nat, n: int, shown: T.App)
    requires i < |s.wire| && s.wire[i].Snapshot?
  {
    var q := s.wire[i].n;
    && i in s.taken && q <= s.taken[i] <= q + 1 && s.taken[i] <= |s.log|
    && q <= n <= |s.log|
    && me in shown.lastSeq && shown.lastSeq[me] == n
    && T.View(shown, me) == TakeLast(Span(s.log, 0, s.taken[i]), RING_CAP) + Span(s.log, q, n)
  }

  lemma SnapshotFacts(s: State, me: P.Sid, i: nat)
    requires i < |s.wire| && SnapshotOk(s, me, i) && s.wire[i].Snapshot? && s.wire[i].sid == me
    ensures var q := s.wire[i].n;
            && i in s.taken && q <= s.taken[i] <= q + 1 && s.taken[i] <= |s.log|
            && s.wire[i].data == TakeLast(Span(s.log, 0, s.taken[i]), RING_CAP)
  {
  }

  /** The browser handles the session's outputs of `wire[i + 1..j]`, among frames of others. */
  lemma ScreenShows(s: State, me: P.Sid, i: nat, j: nat, b: T.App, evs: seq<T.Event>)
    requires OutputsOk(s, me) && i < j <= |s.wire| && SnapshotOk(s, me, i)
    requires s.wire[i].Snapshot? && s.wire[i].sid == me
    requires Outs(Frames(evs), me) == Outs(s.wire[i + 1..j], me) && NoBaseline(Frames(evs), me)
    requires me in b.lastSeq && b.lastSeq[me] == s.wire[i].n && T.View(b, me) == s.wire[i].data
    ensures Seamless(s, me, i, Shown(s, me, i, j), T.Run(b, evs))
  {
    SnapshotFacts(s, me, i);
    var lo := AfterSnapshot(s, me, i, j);
    ReplayFrom(b, evs, me, s.log, lo, s.wire[i].n, Outs(s.wire[i + 1..j], me));
  }

  lemma ReplayFrom(b: T.App, evs: seq<T.Event>, me: P.Sid, log: seq<Bytes>, lo: nat, q: nat, mine: seq<P.DaemonMsg>)
    requires lo <= q <= |log| && lo + |mine| <= |log| && mine == Numbered(me, log, lo, lo + |mine|)
    requires Outs(Frames(evs), me) == mine && NoBaseline(Frames(evs), me)
    requires me in b.lastSeq && b.lastSeq[me] == q
    ensures var n := Max(q, lo + |mine|);
            && me in T.Run(b, evs).lastSeq && T.Run(b, evs).lastSeq[me] == n
            && T.View(T.Run(b, evs), me) == T.View(b, me) + Span(log, q, n)
  {
    ReplayOutputs(b, evs, me, log, lo, q, |mine|);
  }

  /** The session's own messages among others. */
  function Mine(fs: seq<P.DaemonMsg>, me: P.Sid): (mine: seq<P.DaemonMsg>)
    ensures |mine| <= |fs|
  {
    if fs == [] then []
    else
      var rest, f := Mine(fs[..|fs| - 1], me), fs[|fs| - 1];
      if OfSession(f, me) then rest + [f] else rest
  }

  lemma {:induction false} OutsAreMine(fs: seq<P.DaemonMsg>, me: P.Sid)
    ensures Outs(fs, me) == Outs(Mine(fs, me), me)
    ensures NoBaseline(fs, me) <==> NoBaseline(Mine(fs, me), me)
    decreases |fs|
  {
    if fs != [] {
      var rest, f := Mine(fs[..|fs| - 1], me), fs[|fs| - 1];
      OutsAreMine(fs[..|fs| - 1], me);
      assert (rest + [f])[..|rest|] == rest;
    }
  }

  /** For every interleaving and every browser, whatever it saw or dropped before the snapshot at
      wire position i, and wherever terminals are mounted: after the session's own frames up to j
      it shows the seamless text, or the snapshot's last chunk once more. */
  lemma ScreenFromSnapshot(me: P.Sid, acts: seq<Action>, i: nat, j: nat, a: T.App, evs: seq<T.Event>)
    requires i < j <= |Exec(me, acts).wire|
    requires Exec(me, acts).wire[i].Snapshot? && Exec(me, acts).wire[i].sid == me
    requires forall k :: i < k < j ==> !(Exec(me, acts).wire[k].Snapshot? && Exec(me, acts).wire[k].sid == me)
    requires Mine(Frames(evs), me) == Mine(Exec(me, acts).wire[i + 1..j], me)
    ensures var s := Exec(me, acts);
            Seamless(s, me, i, Shown(s, me, i, j), T.Run(T.Handle(a, T.Recv(s.wire[i])), evs))
  {
    var s := Exec(me, acts);
    RunInv(me, acts);
    assert SnapshotOk(s, me, i);
    SnapshotOne(a, me, s.wire[i].data, s.wire[i].n);
    ForeignFrames(me, acts);
    NoBaselineFromFrames(s.wire[i + 1..j], me);
    OutsAreMine(Frames(evs), me);
    OutsAreMine(s.wire[i + 1..j], me);
    ScreenShows(s, me, i, j, T.Handle(a, T.Recv(s.wire[i])), evs);
  }

  /** The outputs written after a snapshot are numbered on from a point it covers. */
  lemma AfterSnapshot(s: State, me: P.Sid, i: nat, j: nat) returns (lo: nat)
    requires OutputsOk(s, me) && i < j <= |s.wire| && SnapshotOk(s, me, i)
    requires s.wire[i].Snapshot? && s.wire[i].sid == me
    ensures var mine := Outs(s.wire[i + 1..j], me);
            && lo <= s.wire[i].n && lo + |mine| <= |s.log| && mine == Numbered(me, s.log, lo, lo + |mine|)
            && Max(s.wire[i].n, lo + |mine|) == Shown(s, me, i, j)
  {
    var pipe, mine := Outs(Pipe(s, me), me), Outs(s.wire[i + 1..j], me);
    var before := |Outs(s.wire[..i], me)|;
    PipeSplit(s, me, i, j);
    lo := Done(s) - |pipe| + before;
    SentSlice(me, pipe, s.log, Done(s), before, mine);
  }

  lemma SentSlice(me: P.Sid, sent: seq<P.DaemonMsg>, log: seq<Bytes>, done: int, a: nat, mine: seq<P.DaemonMsg>)
    requires |sent| <= done <= |log| && sent == Numbered(me, log, done - |sent|, done)
    requires a + |mine| <= |sent| && mine == sent[a..a + |mine|]
    ensures mine == Numbered(me, log, done - |sent| + a, done - |sent| + a + |mine|)
  {
    NumberedSlice(me, log, done - |sent|, done, a, a + |mine|);
  }

  lemma PipeSplit(s: State, me: P.Sid, i: nat, j: nat)
    requires i < j <= |s.wire| && s.wire[i].Snapshot?
    ensures var pipe := Outs(Pipe(s, me), me);
            var before, mine := |Outs(s.wire[..i], me)|, Outs(s.wire[i + 1..j], me);
            && before + |mine| == |Outs(s.wire[..j], me)| <= |pipe|
            && pipe[before..before + |mine|] == mine
  {
    var w := s.wire;
    assert w[..i + 1][..i] == w[..i];
    assert w[..j] == w[..i + 1] + w[i + 1..j];
    OutsConcat(w[..i + 1], w[i + 1..j], me);
    assert Pipe(s, me) == w[..j] + (w[j..] + Framed(me, s.sh.queue));
    OutsConcat(w[..j], w[j..] + Framed(me, s.sh.queue), me);
  }

  /** The session's own frames are snapshots, outputs and agent reports. */
  lemma {:induction false} ForeignFrames(me: P.Sid, acts: seq<Action>)
    ensures forall k :: 0 <= k < |Exec(me, acts).wire| ==>
              P.ReplyId(Exec(me, acts).wire[k]).None?
              && !(Exec(me, acts).wire[k].SessionExited? && Exec(me, acts).wire[k].sid == me)
    decreases |acts|
  {
    if acts != [] {
      ForeignFrames(me, acts[..|acts| - 1]);
    }
  }

  /** Once the session is quiet and everything written has been handled, nothing is missing. */
  lemma NothingMissingWhenQuiet(me: P.Sid, acts: seq<Action>, i: nat)
    requires var s := Exec(me, acts);
             && i < |s.wire| && s.wire[i].Snapshot? && s.wire[i].sid == me
             && s.reader.Idle? && s.sh.queue == []
    ensures Shown(Exec(me, acts), me, i, |Exec(me, acts).wire|) == |Exec(me, acts).log|
  {
    var s := Exec(me, acts);
    RunInv(me, acts);
    assert SnapshotOk(s, me, i);
    assert s.wire[..|s.wire|] == s.wire && Pipe(s, me) == s.wire;
  }

  /** The seam repeats a chunk exactly when the counter is loaded while the reader stands
      between its push and its bump; the repeated chunk then ends the snapshot. */
  lemma SeamExactly(me: P.Sid, acts: seq<Action>)
    requires Exec(me, acts).attach.Copied?
    ensures var s, s' := Exec(me, acts), Exec(me, acts + [LoadAndReply]);
            var i := |s.wire|;
            && s'.wire == s.wire + [P.Snapshot(me, s.sh.seqNo, s.sh.ring)]
            && i in s'.taken
            && s'.taken[i] == s.sh.seqNo + (if s.reader.Pushed? then 1 else 0)
            && (s.reader.Pushed? ==>
                  && 1 <= |s.log[s.sh.seqNo]| <= READ_BUF
                  && s.log[s.sh.seqNo] == TakeLast(s.sh.ring, |s.log[s.sh.seqNo]|))
  {
    var s := Exec(me, acts);
    RunInv(me, acts);
    var _, _ := ExecSnoc(me, acts, s, LoadAndReply);
    if s.reader.Pushed? {
      var c := s.log[s.sh.seqNo];
      assert Span(s.log, 0, |s.log|) == Span(s.log, 0, s.sh.seqNo) + c;
    }
  }

  /** The repetition is reachable: push, attach, snapshot, then the bump. */
  lemma SeamCanRepeat(me: P.Sid)
    ensures Exec(me, [Push([65]), SetSubscriber, Copy, LoadAndReply, Bump, Send, Drain]).log == [[65]]
    ensures Exec(me, [Push([65]), SetSubscriber, Copy, LoadAndReply, Bump, Send, Drain]).wire
            == [P.Snapshot(me, 0, [65]), P.Output(me, 1, [65])]
  {
    var a4 := [Push([65]), SetSubscriber, Copy, LoadAndReply];
    var s4 := Exec(me, a4);
    SeamBegins(me);
    var a5, s5 := ExecSnoc(me, a4, s4, Bump);
    var a6, s6 := ExecSnoc(me, a5, s5, Send);
    assert s6.sh.queue == [Output([65], 1)];
    var a7, s7 := ExecSnoc(me, a6, s6, Drain);
    assert a7 == [Push([65]), SetSubscriber, Copy, LoadAndReply, Bump, Send, Drain];
  }

  lemma SeamBegins(me: P.Sid)
    ensures var s := Exec(me, [Push([65]), SetSubscriber, Copy, LoadAndReply]);
            && s.log == [[65]] && s.wire == [P.Snapshot(me, 0, [65])]
            && s.reader == Pushed([65]) && s.sh == Shared([65], 0, true, [])
  {
    var a1 := [Push([65])];
    var s1 := Step(INIT, me, Push([65]));
    assert a1[..0] == [] && Exec(me, a1) == s1;
    assert s1.sh.ring == [] + [65] == [65];
    var a2, s2 := ExecSnoc(me, a1, s1, SetSubscriber);
    var a3, s3 := ExecSnoc(me, a2, s2, Copy);
    var a4, s4 := ExecSnoc(me, a3, s3, LoadAndReply);
    assert a4 == [Push([65]), SetSubscriber, Copy, LoadAndReply];
  }

  /** The browser then shows the chunk twice. */
  lemma SeamScreen(me: P.Sid)
    ensures T.View(T.Run(T.NEW_APP, [T.Recv(P.Snapshot(me, 0, [65])), T.Recv(P.Output(me, 1, [65]))]), me) == [65, 65]
  {
    var evs := [T.Recv(P.Snapshot(me, 0, [65])), T.Recv(P.Output(me, 1, [65]))];
    assert evs[..1] == [T.Recv(P.Snapshot(me, 0, [65]))];
    var one := T.Handle(T.NEW_APP, evs[0]);
    assert T.Run(T.NEW_APP, evs[..1]) == one;
    T.ViewStep(T.NEW_APP, evs[0], me);
    T.ViewStep(one, evs[1], me);
  }

  // ---- Agent reports ----

  /** The agent frames of session `me`, in order. */
  function Agents(fs: seq<P.DaemonMsg>, me: P.Sid): seq<P.DaemonMsg> {
    if fs == [] then []
    else
      var rest, f := Agents(fs[..|fs| - 1], me), fs[|fs| - 1];
      if f.AgentStatus? && f.sid == me then rest + [f] else rest
  }

  /** What the detector reported while there was a subscriber. */
  function Detected(me: P.Sid, acts: seq<Action>): seq<Report> {
    if acts == [] then []
    else
      var pre, a := acts[..|acts| - 1], acts[|acts| - 1];
      var s := Exec(me, pre);
      Detected(me, pre) + if a.Detect? && Enabled(s, me, a) && s.sh.subscribed then [a.report] else []
  }

  /** The frames carry the reports field by field. */
  predicate Carry(fs: seq<P.DaemonMsg>, me: P.Sid, rs: seq<Report>) {
    |fs| == |rs| && forall i :: 0 <= i < |fs| ==> CarriesReport(fs[i], me, rs[i])
  }

  predicate CarriesReport(f: P.DaemonMsg, me: P.Sid, r: Report) {
    f.AgentStatus? && f.sid == me && f.agent == r.agent && f.status == r.status && f.detail == r.detail
  }

  lemma AgentsSnoc(fs: seq<P.DaemonMsg>, f: P.DaemonMsg, me: P.Sid)
    ensures Agents(fs + [f], me) == Agents(fs, me) + if f.AgentStatus? && f.sid == me then [f] else []
  {
    assert (fs + [f])[..|fs|] == fs;
  }

  lemma {:induction false} AgentsConcat(a: seq<P.DaemonMsg>, b: seq<P.DaemonMsg>, me: P.Sid)
    ensures Agents(a + b, me) == Agents(a, me) + Agents(b, me)
    decreases |b|
  {
    if b == [] {
      assert a + b == a;
    } else {
      var init, f := b[..|b| - 1], b[|b| - 1];
      AgentsConcat(a, init, me);
      AgentsSnoc(init, f, me);
      AgentsSnoc(a + init, f, me);
      InitLast(b);
      Assoc(a, init, [f]);
      Assoc(Agents(a, me), Agents(init, me), if f.AgentStatus? && f.sid == me then [f] else []);
    }
  }

  lemma AgentsInsert(a: seq<P.DaemonMsg>, f: P.DaemonMsg, b: seq<P.DaemonMsg>, me: P.Sid)
    requires !(f.AgentStatus? && f.sid == me)
    ensures Agents(a + [f] + b, me) == Agents(a + b, me)
  {
    AgentsConcat(a + [f], b, me);
    AgentsConcat(a, b, me);
    AgentsSnoc(a, f, me);
  }

  lemma AgentsEmit(s: State, s': State, me: P.Sid, e: SessionEvent)
    requires s'.wire == s.wire && s'.sh.queue == s.sh.queue + [e]
    ensures Agents(Pipe(s', me), me) == Agents(Pipe(s, me), me) + if e.Agent? then [ToFrame(me, e)] else []
  {
    FramedSnoc(me, s.sh.queue, e);
    Assoc(s.wire, Framed(me, s.sh.queue), [ToFrame(me, e)]);
    AgentsSnoc(Pipe(s, me), ToFrame(me, e), me);
  }

  /** Only a report to a subscriber extends the agent frames in the pipe. */
  lemma AgentsStep(s: State, me: P.Sid, a: Action)
    ensures Agents(Pipe(Step(s, me, a), me), me) == Agents(Pipe(s, me), me) +
            if a.Detect? && Enabled(s, me, a) && s.sh.subscribed then [ToFrame(me, Agent(a.report))] else []
  {
    var s' := Step(s, me, a);
    if Enabled(s, me, a) {
      match a
      case Send =>
        if s.sh.subscribed { AgentsEmit(s, s', me, Output(s.reader.chunk, s.reader.n)); }
      case Detect(r) =>
        if s.sh.subscribed { AgentsEmit(s, s', me, Agent(r)); }
      case Drain =>
        assert Pipe(s', me) == Pipe(s, me);
      case LoadAndReply =>
        AgentsInsert(s.wire, P.Snapshot(me, s.sh.seqNo, s.attach.bytes), Framed(me, s.sh.queue), me);
      case Other(frame) =>
        AgentsInsert(s.wire, frame, Framed(me, s.sh.queue), me);
      case _ =>
    }
  }

  lemma {:induction false} PipeCarriesReports(me: P.Sid, acts: seq<Action>)
    ensures Carry(Agents(Pipe(Exec(me, acts), me), me), me, Detected(me, acts))
    decreases |acts|
  {
    if acts != [] {
      PipeCarriesReports(me, acts[..|acts| - 1]);
      AgentsStep(Exec(me, acts[..|acts| - 1]), me, acts[|acts| - 1]);
    }
  }

  /** For every interleaving: the agent frames on the wire are the first of the reports detected since
      there was a subscriber, in order and field by field, and all of them once the queue is drained. */
  lemma {:induction false} AgentReportsExactly(me: P.Sid, acts: seq<Action>)
    ensures var on, all := Agents(Exec(me, acts).wire, me), Detected(me, acts);
            && |on| <= |all| && Carry(on, me, all[..|on|])
            && (Exec(me, acts).sh.queue == [] ==> |on| == |all|)
  {
    var s := Exec(me, acts);
    PipeCarriesReports(me, acts);
    AgentsConcat(s.wire, Framed(me, s.sh.queue), me);
    if s.sh.queue == [] { assert Framed(me, s.sh.queue) == []; }
  }
}
