/** What the session host answers (daemon/src/host_server.rs), told from the frames it wrote before:
    which sessions are live then, and the answer each request gets. */
module HostAnswers {
  import opened Common
  import opened Protocol
  import opened PingText
  import opened M = HostMux

  // ---- Live sessions, told by the frames written ----

  predicate Starts(f: HostFrame, sid: Sid) { f.Data? && f.msg.SessionCreated? && f.msg.sid == sid }

  predicate Ends(f: HostFrame, sid: Sid) {
    f.Data? && (f.msg.SessionKilled? || f.msg.SessionExited?) && f.msg.sid == sid
  }

  /** The session was created, and neither killed nor reported exited since. */
  predicate Live(frames: seq<HostFrame>, sid: Sid) {
    exists i :: 0 <= i < |frames| && LiveSince(frames, sid, i)
  }

  predicate LiveSince(frames: seq<HostFrame>, sid: Sid, i: nat)
    requires i < |frames|
  {
    Starts(frames[i], sid) && forall j :: i < j < |frames| ==> !Ends(frames[j], sid)
  }

  // ---- The right answer ----

  /** What the host answers to `m` when `before` is all it has written and the operating system and
      the session's ring give `w`. */
  ghost predicate RightAnswer(before: seq<HostFrame>, m: ClientMsg, w: World, ms: seq<DaemonMsg>) {
    match m
    case Ping => ms == [Pong]
    case Hello(_, _, _) => ms == []
    case AuthProof(_, _) => ms == [Error(None, "protocol_error")]
    case SessionList(id) => |ms| == 1 && ListsLive(before, id, ms[0])
    case SessionCreate(id, _, _, _, _) =>
      ms == [if w.created.Some? then SessionCreated(id, w.created.value) else Error(Some(id), "spawn_failed")]
    case SessionAttach(id, sid) =>
      if Live(before, sid) then
        ms == [SessionAttached(id, sid), Snapshot(sid, w.n, w.ring)]
      else ms == [Error(Some(id), "session_not_found")]
    case SessionKill(id, sid) =>
      ms == [if Live(before, sid) then SessionKilled(id, sid) else Error(Some(id), "session_not_found")]
    case Input(sid, data) =>
      if !Live(before, sid) then ms == [Error(None, "session_not_found")]
      else if data.Garbled? then ms == [Error(None, "protocol_error")]
      else ms == if w.ioOk then [] else [Error(None, "internal")]
    case Resize(sid, _, _) => ms == if !w.ioOk && Live(before, sid) then [Error(None, "internal")] else []
  }

  ghost predicate ListsLive(before: seq<HostFrame>, id: nat, f: DaemonMsg) {
    f.SessionListResult? && f.reqId == id && forall sid: Sid :: sid in f.sessions <==> Live(before, sid)
  }

  /** The lines of one answer: the messages and the end, or a pong alone. */
  predicate Block(lines: seq<HostFrame>, m: ClientMsg, ms: seq<DaemonMsg>) {
    if MentionsPing(m) then ms == [] && lines == [HostPong]
    else
      && |lines| == |ms| + 1 && lines[|ms|] == ReplyEnd
      && forall i :: 0 <= i < |ms| ==> lines[i] == Data(ms[i])
  }

  predicate BlockAt(written: seq<HostFrame>, p: nat, n: nat, m: ClientMsg, ms: seq<DaemonMsg>) {
    p + n <= |written| && Block(written[p..p + n], m, ms)
  }

  /** When the host took a request: how much it had written, and what it met. */
  datatype Moment = Moment(p: nat, w: World)

  function TakenAt(acts: seq<Action>): seq<Moment> {
    if acts == [] then []
    else
      var pre, a := acts[..|acts| - 1], acts[|acts| - 1];
      TakenAt(pre) + if a.Serve? && Enabled(Exec(pre), a) then [Moment(|Exec(pre).written|, a.w)] else []
  }

  // ---- Live sessions are the host's sessions ----

  lemma LiveSnoc(frames: seq<HostFrame>, f: HostFrame, sid: Sid)
    ensures Live(frames + [f], sid) <==> Starts(f, sid) || (Live(frames, sid) && !Ends(f, sid))
  {
    var all, n := frames + [f], |frames|;
    assert LiveSince(all, sid, n) <==> Starts(f, sid);
    forall i | 0 <= i < n ensures LiveSince(all, sid, i) <==> LiveSince(frames, sid, i) && !Ends(f, sid) {
      SinceSnoc(frames, f, sid, i);
    }
  }

  lemma SinceSnoc(frames: seq<HostFrame>, f: HostFrame, sid: Sid, i: nat)
    requires i < |frames|
    ensures LiveSince(frames + [f], sid, i) <==> LiveSince(frames, sid, i) && !Ends(f, sid)
  {
    var all, n := frames + [f], |frames|;
    assert all[n] == f && all[i] == frames[i];
    if LiveSince(all, sid, i) {
      forall j | i < j < n ensures !Ends(frames[j], sid) { assert all[j] == frames[j]; }
    }
  }

  /** The host's sessions are the live ones. */
  ghost predicate Agree(sessions: set<Sid>, frames: seq<HostFrame>) {
    forall sid: Sid :: sid in sessions <==> Live(frames, sid)
  }

  lemma AgreeQuiet(sessions: set<Sid>, frames: seq<HostFrame>, f: HostFrame)
    requires Agree(sessions, frames)
    requires f.Data? ==> !f.msg.SessionCreated? && !f.msg.SessionKilled? && !f.msg.SessionExited?
    ensures Agree(sessions, frames + [f])
  {
    forall sid: Sid ensures sid in sessions <==> Live(frames + [f], sid) { LiveSnoc(frames, f, sid); }
  }

  lemma AgreeStart(sessions: set<Sid>, frames: seq<HostFrame>, id: nat, x: Sid)
    requires Agree(sessions, frames)
    ensures Agree(sessions + {x}, frames + [Data(SessionCreated(id, x))])
  {
    var f := Data(SessionCreated(id, x));
    forall sid: Sid ensures sid in sessions + {x} <==> Live(frames + [f], sid) { LiveSnoc(frames, f, sid); }
  }

  lemma AgreeEnd(sessions: set<Sid>, frames: seq<HostFrame>, m: DaemonMsg)
    requires Agree(sessions, frames) && (m.SessionKilled? || m.SessionExited?)
    ensures Agree(sessions - {m.sid}, frames + [Data(m)])
  {
    forall sid: Sid ensures sid in sessions - {m.sid} <==> Live(frames + [Data(m)], sid) {
      LiveSnoc(frames, Data(m), sid);
    }
  }

  /** One answer of one message. */
  lemma AgreeOne(sessions: set<Sid>, frames: seq<HostFrame>, m: DaemonMsg, sessions': set<Sid>)
    requires Agree(sessions, frames) && !m.SessionExited?
    requires sessions' == if m.SessionCreated? then sessions + {m.sid}
                          else if m.SessionKilled? then sessions - {m.sid} else sessions
    ensures Agree(sessions', frames + DataAll([m]) + [ReplyEnd])
  {
    assert [m][1..] == [] && DataAll([m]) == [Data(m)];
    if m.SessionCreated? {
      AgreeStart(sessions, frames, m.reqId, m.sid);
    } else if m.SessionKilled? {
      AgreeEnd(sessions, frames, m);
    } else {
      AgreeQuiet(sessions, frames, Data(m));
    }
    AgreeQuiet(sessions', frames + [Data(m)], ReplyEnd);
  }

  lemma AgreeAttach(sessions: set<Sid>, frames: seq<HostFrame>, a: DaemonMsg, b: DaemonMsg)
    requires Agree(sessions, frames) && a.SessionAttached? && b.Snapshot?
    ensures Agree(sessions, frames + DataAll([a, b]) + [ReplyEnd])
  {
    assert [b][1..] == [] && DataAll([b]) == [Data(b)];
    assert [a, b][1..] == [b] && DataAll([a, b]) == [Data(a)] + [Data(b)];
    AgreeQuiet(sessions, frames, Data(a));
    AgreeQuiet(sessions, frames + [Data(a)], Data(b));
    AgreeQuiet(sessions, frames + [Data(a)] + [Data(b)], ReplyEnd);
    assert frames + ([Data(a)] + [Data(b)]) == frames + [Data(a)] + [Data(b)];
  }

  lemma AgreeHandled(sessions: set<Sid>, frames: seq<HostFrame>, m: ClientMsg, w: World)
    requires Agree(sessions, frames)
    ensures var (left, ms) := HandleMsg(sessions, m, w); Agree(left, frames + DataAll(ms) + [ReplyEnd])
  {
    var (left, ms) := HandleMsg(sessions, m, w);
    if |ms| == 1 {
      assert ms == [ms[0]];
      AgreeOne(sessions, frames, ms[0], left);
    } else if ms == [] {
      assert frames + [] == frames;
      AgreeQuiet(sessions, frames, ReplyEnd);
    } else {
      assert ms == [ms[0], ms[1]];
      AgreeAttach(sessions, frames, ms[0], ms[1]);
    }
  }

  predicate OnlyEvents(events: seq<DaemonMsg>) {
    forall i :: 0 <= i < |events| ==> events[i].Output? || events[i].SessionExited? || events[i].AgentStatus?
  }

  lemma AgreeStep(s: State, a: Action)
    requires Agree(s.sessions, s.written) && OnlyEvents(s.events)
    ensures Agree(Step(s, a).sessions, Step(s, a).written) && OnlyEvents(Step(s, a).events)
  {
    if Enabled(s, a) && a.PushEvent? {
      var e := s.events[0];
      if e.SessionExited? { AgreeEnd(s.sessions, s.written, e); } else { AgreeQuiet(s.sessions, s.written, Data(e)); }
    } else if Enabled(s, a) && a.Serve? {
      var l := s.up[0];
      if MentionsPing(l) {
        AgreeQuiet(s.sessions, s.written, HostPong);
      } else {
        AgreeHandled(s.sessions, s.written, l, a.w);
        Assoc(s.written, DataAll(HandleMsg(s.sessions, l, a.w).1), [ReplyEnd]);
      }
    }
  }

  /** For every run, the host's sessions are exactly those created and not killed or exited since, as
      its own frames tell. */
  lemma {:induction false} SessionsAreLive(acts: seq<Action>)
    ensures Agree(Exec(acts).sessions, Exec(acts).written) && OnlyEvents(Exec(acts).events)
    decreases |acts|
  {
    if acts == [] {
      assert forall sid: Sid :: !Live([], sid);
    } else {
      SessionsAreLive(acts[..|acts| - 1]);
      AgreeStep(Exec(acts[..|acts| - 1]), acts[|acts| - 1]);
    }
  }

  // ---- Every answer is right ----

  lemma HandledIsRight(sessions: set<Sid>, before: seq<HostFrame>, m: ClientMsg, w: World)
    requires Agree(sessions, before)
    ensures RightAnswer(before, m, w, HandleMsg(sessions, m, w).1)
  {
  }

  lemma {:induction false} DataAllIs(ms: seq<DaemonMsg>)
    ensures |DataAll(ms)| == |ms| && forall i :: 0 <= i < |ms| ==> DataAll(ms)[i] == Data(ms[i])
    decreases |ms|
  {
    if ms != [] { DataAllIs(ms[1..]); }
  }

  lemma ServedIsBlock(sessions: set<Sid>, l: ClientMsg, w: World)
    ensures Block(Served(sessions, l, w), l, if MentionsPing(l) then [] else HandleMsg(sessions, l, w).1)
  {
    DataAllIs(HandleMsg(sessions, l, w).1);
  }

  /** The k-th answer: written as one block where the request was taken, and the right one there. */
  ghost predicate AnswerOk(
      written: seq<HostFrame>, served: seq<ClientMsg>, produced: seq<seq<DaemonMsg>>, at: seq<Moment>, k: nat)
  {
    && k < |served| && k < |produced| && k < |at| && at[k].p <= |written|
    && (exists n: nat :: BlockAt(written, at[k].p, n, served[k], produced[k]))
    && (!MentionsPing(served[k]) ==> RightAnswer(written[..at[k].p], served[k], at[k].w, produced[k]))
  }

  lemma AnswerKept(written: seq<HostFrame>, lines: seq<HostFrame>, served: seq<ClientMsg>, l: seq<ClientMsg>,
                   produced: seq<seq<DaemonMsg>>, p: seq<seq<DaemonMsg>>, at: seq<Moment>, t: seq<Moment>, k: nat)
    requires AnswerOk(written, served, produced, at, k)
    ensures AnswerOk(written + lines, served + l, produced + p, at + t, k)
  {
    var n: nat :| BlockAt(written, at[k].p, n, served[k], produced[k]);
    assert (written + lines)[at[k].p..at[k].p + n] == written[at[k].p..at[k].p + n];
    assert BlockAt(written + lines, (at + t)[k].p, n, (served + l)[k], (produced + p)[k]);
    assert (written + lines)[..at[k].p] == written[..at[k].p];
  }

  lemma AnswerNew(s: State, w: World, at: seq<Moment>)
    requires s.up != [] && Agree(s.sessions, s.written)
    requires |s.served| == |s.produced| == |at|
    ensures var s', now := Step(s, Serve(w)), Moment(|s.written|, w);
            AnswerOk(s'.written, s'.served, s'.produced, at + [now], |s.served|)
  {
    var l, lines := s.up[0], Served(s.sessions, s.up[0], w);
    var s', p, k := Step(s, Serve(w)), |s.written|, |s.served|;
    ServedIsBlock(s.sessions, l, w);
    HandledIsRight(s.sessions, s.written, l, w);
    assert s'.written[p..p + |lines|] == lines && s'.written[..p] == s.written;
    assert BlockAt(s'.written, p, |lines|, s'.served[k], s'.produced[k]);
  }

  ghost predicate AnswersOk(s: State, at: seq<Moment>) {
    && |s.served| == |s.produced| == |at|
    && forall k :: 0 <= k < |s.served| ==> AnswerOk(s.written, s.served, s.produced, at, k)
  }

  lemma AnswersKept(s: State, s': State, at: seq<Moment>, k: nat)
    requires s.written <= s'.written && s.served <= s'.served && s.produced <= s'.produced
    requires AnswerOk(s.written, s.served, s.produced, at, k)
    ensures AnswerOk(s'.written, s'.served, s'.produced, at, k)
    ensures forall t: Moment :: AnswerOk(s'.written, s'.served, s'.produced, at + [t], k)
  {
    AnswerKept(s.written, s'.written[|s.written|..], s.served, s'.served[|s.served|..],
               s.produced, s'.produced[|s.produced|..], at, [], k);
    assert at + [] == at;
    assert s'.written == s.written + s'.written[|s.written|..];
    assert s'.served == s.served + s'.served[|s.served|..];
    assert s'.produced == s.produced + s'.produced[|s.produced|..];
    forall t: Moment ensures AnswerOk(s'.written, s'.served, s'.produced, at + [t], k) {
      AnswerKept(s'.written, [], s'.served, [], s'.produced, [], at, [t], k);
      assert s'.written + [] == s'.written && s'.served + [] == s'.served && s'.produced + [] == s'.produced;
    }
  }

  lemma AnswersStep(s: State, a: Action, at: seq<Moment>)
    requires AnswersOk(s, at) && Agree(s.sessions, s.written)
    ensures AnswersOk(Step(s, a), at + if a.Serve? && Enabled(s, a) then [Moment(|s.written|, a.w)] else [])
  {
    var s' := Step(s, a);
    StepExtends(s, a);
    if a.Serve? && Enabled(s, a) {
      AnswerNew(s, a.w, at);
      var now := Moment(|s.written|, a.w);
      forall k | 0 <= k < |s.served| ensures AnswerOk(s'.written, s'.served, s'.produced, at + [now], k) {
        AnswersKept(s, s', at, k);
      }
    } else {
      assert at + [] == at;
      forall k | 0 <= k < |s.served| ensures AnswerOk(s'.written, s'.served, s'.produced, at, k) {
        AnswersKept(s, s', at, k);
      }
    }
  }

  lemma {:induction false} RunAnswers(acts: seq<Action>)
    ensures AnswersOk(Exec(acts), TakenAt(acts))
    decreases |acts|
  {
    if acts != [] {
      RunAnswers(acts[..|acts| - 1]);
      SessionsAreLive(acts[..|acts| - 1]);
      AnswersStep(Exec(acts[..|acts| - 1]), acts[|acts| - 1], TakenAt(acts[..|acts| - 1]));
    }
  }

  lemma StepExtends(s: State, a: Action)
    ensures s.written <= Step(s, a).written && s.served <= Step(s, a).served && s.produced <= Step(s, a).produced
    ensures !(a.Serve? && Enabled(s, a)) ==> Step(s, a).served == s.served && Step(s, a).produced == s.produced
  {
  }

  /** For every run and every request the host took, unless it took it for a keep-alive: the answer is
      the right one for the sessions its frames show as live at that moment, and it was written there
      as one block with its end. */
  lemma {:induction false} EveryAnswerIsRight(acts: seq<Action>, k: nat)
    requires k < |Exec(acts).served|
    ensures var s := Exec(acts); AnswerOk(s.written, s.served, s.produced, TakenAt(acts), k)
  {
    RunAnswers(acts);
  }

  /** A redraw is answered to attaches of live sessions, to all of them and to nothing else. */
  lemma {:induction false} OnlyLiveAttachesRedraw(acts: seq<Action>, k: nat)
    requires k < |Exec(acts).served|
    ensures var s := Exec(acts);
            && k < |s.produced| && k < |TakenAt(acts)| && TakenAt(acts)[k].p <= |s.written|
            && ((exists i :: 0 <= i < |s.produced[k]| && s.produced[k][i].Snapshot?) <==>
                !MentionsPing(s.served[k]) && s.served[k].SessionAttach?
                && Live(s.written[..TakenAt(acts)[k].p], s.served[k].sid))
  {
    var s := Exec(acts);
    RunAnswers(acts);
    assert AnswerOk(s.written, s.served, s.produced, TakenAt(acts), k);
    var n: nat :| BlockAt(s.written, TakenAt(acts)[k].p, n, s.served[k], s.produced[k]);
    if !MentionsPing(s.served[k]) {
      RedrawInAnswer(s.written[..TakenAt(acts)[k].p], s.served[k], TakenAt(acts)[k].w, s.produced[k]);
    }
  }

  lemma RedrawInAnswer(before: seq<HostFrame>, m: ClientMsg, w: World, ms: seq<DaemonMsg>)
    requires RightAnswer(before, m, w, ms)
    ensures (exists i :: 0 <= i < |ms| && ms[i].Snapshot?) <==> m.SessionAttach? && Live(before, m.sid)
  {
    if m.SessionAttach? && Live(before, m.sid) { assert ms[1].Snapshot?; }
  }
}
