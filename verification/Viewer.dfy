/** The browser's connection object (web/src/lib/daemon.ts): numbered requests whose promises are
    resolved by the messages `dispatch` lets through, and sealing of what it sends. */
module Viewer {
  import opened Common
  import opened Crypto
  import opened Protocol
  import H = Handshake
  import R = RelayClient
  import M = HostMux

  /** A request before its id is drawn. */
  datatype Ask =
    | AskList
    | AskCreate(cols: nat, rows: nat, cwd: Option<string>, cmd: Option<string>)
    | AskAttach(sid: Sid)
    | AskKill(sid: Sid)

  function WithId(ask: Ask, id: nat): (m: ClientMsg)
    ensures RequestId(m) == Some(id) && AskOf(m) == Some(ask)
    ensures !m.Hello? && !m.Ping? && !m.AuthProof?
  {
    match ask
    case AskList => SessionList(id)
    case AskCreate(cols, rows, cwd, cmd) => SessionCreate(id, cols, rows, cwd, cmd)
    case AskAttach(sid) => SessionAttach(id, sid)
    case AskKill(sid) => SessionKill(id, sid)
  }

  /** What a message asks for. */
  function AskOf(m: ClientMsg): Option<Ask> {
    match m
    case SessionList(_) => Some(AskList)
    case SessionCreate(_, cols, rows, cwd, cmd) => Some(AskCreate(cols, rows, cwd, cmd))
    case SessionAttach(_, sid) => Some(AskAttach(sid))
    case SessionKill(_, sid) => Some(AskKill(sid))
    case _ => None
  }

  datatype Resolution = Resolution(id: nat, msg: DaemonMsg)

  /** `open` says that the current socket may send. `sent` and `resolved` are what was handed to
      the socket and which promises were resolved, in order. */
  datatype Conn = Conn(
    keys: ClientKeys, reqId: nat, pending: set<nat>, open: bool, sent: seq<R.Doc>, resolved: seq<Resolution>)

  const NEW_CONN := Conn(ClientKeys(None, None), 0, {}, false, [], [])

  /** `Lost` is the close of the current socket, `Replaced` a reconnect that abandons it. A frame
      may still arrive from an abandoned socket. */
  datatype Action =
    | Opened(hello: ClientMsg)
    | KeepAlive
    | Request(ask: Ask)
    | Send(msg: ClientMsg)
    | Receive(wire: R.Wire, drawn: Secret)
    | Lost
    | Replaced

  function Put(v: Conn, d: R.Doc): Conn { if v.open then v.(sent := v.sent + [d]) else v }

  function Requested(v: Conn, ask: Ask): Conn {
    var id := v.reqId + 1;
    Put(v.(reqId := id, pending := v.pending + {id}), H.Outgoing(v.keys, WithId(ask, id)))
  }

  /** The message an incoming frame is dispatched as: opened, or in the clear. */
  function Heard(k: ClientKeys, token: Token, w: R.Wire): Option<DaemonMsg> {
    match w
    case Frame(m) => Some(m)
    case SealedFrame(_) => if H.Dispatch(k, token, w).1.Opened? then Some(H.Dispatch(k, token, w).1.msg) else None
    case _ => None
  }

  /** A client without a token talks to a local daemon and never proves anything. */
  function Proves(token: Token, m: DaemonMsg): bool { m.HelloAck? && token != "" }

  function OnMessage(v: Conn, token: Token, m: DaemonMsg, drawn: Secret): Conn {
    if Proves(token, m) then
      Put(v.(keys := WithProof(v.keys, drawn)), R.Message(AuthProof(Good(Pub(drawn)), Good(Mac(token, Pub(drawn))))))
    else if ReplyId(m).Some? && ReplyId(m).value in v.pending then
      v.(pending := v.pending - {ReplyId(m).value}, resolved := v.resolved + [Resolution(ReplyId(m).value, m)])
    else v
  }

  function Received(v: Conn, token: Token, w: R.Wire, drawn: Secret): Conn {
    match Heard(v.keys, token, w)
    case Some(m) => OnMessage(v, token, m, drawn)
    case None =>
      if !w.AuthOk? then v
      else v.(keys := H.Dispatch(v.keys, token, w).0, open := v.open && H.Dispatch(v.keys, token, w).1.Ready?)
  }

  function Step(v: Conn, token: Token, a: Action): Conn {
    match a
    case Opened(hello) => Put(v.(open := true), H.Outgoing(v.keys, hello))
    case KeepAlive => Put(v, R.Message(Ping))
    case Request(ask) => Requested(v, ask)
    case Send(m) => Put(v, H.Outgoing(v.keys, m))
    case Receive(w, drawn) => Received(v, token, w, drawn)
    case Lost => v.(open := false, pending := {})
    case Replaced => v.(open := false)
  }

  function Exec(token: Token, acts: seq<Action>): Conn {
    if acts == [] then NEW_CONN else Step(Exec(token, acts[..|acts| - 1]), token, acts[|acts| - 1])
  }

  /** The connection object with its fields and its key store updated in place. */
  class DaemonConnection {
    const token: Token
    const e2e: E2EClient
    var reqId: nat
    var pending: set<nat>
    var open: bool
    var sent: seq<R.Doc>
    var resolved: seq<Resolution>

    ghost function View(): Conn reads this, e2e { Conn(e2e.View(), reqId, pending, open, sent, resolved) }

    constructor (token: Token)
      ensures View() == NEW_CONN && fresh(e2e) && this.token == token
    {
      this.token := token;
      e2e := new E2EClient();
      reqId, pending, open, sent, resolved := 0, {}, false, [], [];
    }

    method SendMessage(m: ClientMsg)
      modifies this`sent
      ensures View() == Put(old(View()), H.Outgoing(old(View()).keys, m))
    {
      if !open {
        return;
      }
      if e2e.key.Some? && !m.Hello? && !m.Ping? && !m.AuthProof? {
        var sealed := e2e.SealText(R.Message(m));
        sent := sent + [R.Enc(sealed)];
      } else {
        sent := sent + [R.Message(m)];
      }
    }

    method RequestReply(ask: Ask)
      modifies this
      ensures View() == Step(old(View()), token, Request(ask))
    {
      reqId := reqId + 1;
      pending := pending + {reqId};
      SendMessage(WithId(ask, reqId));
    }

    method DispatchMessage(m: DaemonMsg, drawn: Secret)
      modifies this, e2e
      ensures View() == OnMessage(old(View()), token, m, drawn)
    {
      if m.HelloAck? {
        if token != "" {
          var pub, mac := e2e.ProofMessage(token, drawn);
          if open { sent := sent + [R.Message(AuthProof(Good(pub), Good(mac)))]; }
        }
        return;
      }
      var id := ReplyId(m);
      if id.Some? && id.value in pending {
        pending := pending - {id.value};
        resolved := resolved + [Resolution(id.value, m)];
      }
    }

    method Dispatch(w: R.Wire, drawn: Secret)
      modifies this, e2e
      ensures View() == Step(old(View()), token, Receive(w, drawn))
    {
      match w
      case SealedFrame(s) =>
        var text := e2e.OpenText(s);
        if text.Some? { DispatchMessage(text.value, drawn); }
      case AuthOk(pub, mac) =>
        var ok := e2e.Finish(token, Some(pub), Some(mac));
        if !ok { open := false; }
      case Frame(m) => DispatchMessage(m, drawn);
      case _ =>
    }

    method OnOpen(hello: ClientMsg)
      modifies this
      ensures View() == Step(old(View()), token, Opened(hello))
    {
      open := true;
      SendMessage(hello);
    }

    method OnClose()
      modifies this
      ensures View() == Step(old(View()), token, Lost)
    {
      open := false;
      pending := {};
    }
  }

  // ---- One request's fate, told without the map ----

  datatype Fate = Unasked | Waiting | Answered(msg: DaemonMsg) | Dropped

  function KeysOf(token: Token, acts: seq<Action>): ClientKeys {
    if acts == [] then ClientKeys(None, None)
    else
      var k, a := KeysOf(token, acts[..|acts| - 1]), acts[|acts| - 1];
      if !a.Receive? then k
      else if a.wire.AuthOk? then H.Dispatch(k, token, a.wire).0
      else if Heard(k, token, a.wire).Some? && Proves(token, Heard(k, token, a.wire).value) then WithProof(k, a.drawn)
      else k
  }

  function Asked(acts: seq<Action>): nat {
    if acts == [] then 0 else Asked(acts[..|acts| - 1]) + if acts[|acts| - 1].Request? then 1 else 0
  }

  /** The id-th request waits for the first message let through that carries its id; a close of the
      current socket before that drops it. */
  function FateOf(token: Token, acts: seq<Action>, id: nat): Fate {
    if acts == [] then Unasked
    else
      var pre, a := acts[..|acts| - 1], acts[|acts| - 1];
      NextFate(FateOf(token, pre, id), KeysOf(token, pre), token, a, id, Asked(pre))
  }

  function NextFate(f: Fate, k: ClientKeys, token: Token, a: Action, id: nat, asked: nat): Fate {
    if f.Unasked? && a.Request? && id == asked + 1 then Waiting
    else if f.Waiting? && a.Lost? then Dropped
    else if f.Waiting? && a.Receive? && Heard(k, token, a.wire).Some?
            && ReplyId(Heard(k, token, a.wire).value) == Some(id)
    then Answered(Heard(k, token, a.wire).value)
    else f
  }

  /** What the map and the resolutions say of one id. */
  predicate Agrees(v: Conn, id: nat, f: Fate) {
    && (id in v.pending <==> f.Waiting?)
    && (f.Unasked? <==> id == 0 || v.reqId < id)
    && Of(v.resolved, id) == if f.Answered? then [f.msg] else []
  }

  /** The messages that resolved `id`. */
  function Of(rs: seq<Resolution>, id: nat): seq<DaemonMsg> {
    if rs == [] then []
    else Of(rs[..|rs| - 1], id) + if rs[|rs| - 1].id == id then [rs[|rs| - 1].msg] else []
  }

  lemma OfSnoc(rs: seq<Resolution>, r: Resolution, id: nat)
    ensures Of(rs + [r], id) == Of(rs, id) + if r.id == id then [r.msg] else []
  {
    assert (rs + [r])[..|rs|] == rs;
  }

  lemma AgreesStep(v: Conn, token: Token, a: Action, id: nat, f: Fate)
    requires Agrees(v, id, f)
    ensures Agrees(Step(v, token, a), id, NextFate(f, v.keys, token, a, id, v.reqId))
  {
    if a.Receive? { AgreesReceive(v, token, a.wire, a.drawn, id, f); }
  }

  lemma AgreesMessage(v: Conn, token: Token, m: DaemonMsg, drawn: Secret, id: nat, f: Fate)
    requires Agrees(v, id, f)
    ensures Agrees(OnMessage(v, token, m, drawn), id, if f.Waiting? && ReplyId(m) == Some(id) then Answered(m) else f)
  {
    if ReplyId(m).Some? { OfSnoc(v.resolved, Resolution(ReplyId(m).value, m), id); }
  }

  lemma AgreesReceive(v: Conn, token: Token, w: R.Wire, drawn: Secret, id: nat, f: Fate)
    requires Agrees(v, id, f)
    ensures Agrees(Received(v, token, w, drawn), id, NextFate(f, v.keys, token, Receive(w, drawn), id, v.reqId))
  {
    if Heard(v.keys, token, w).Some? { AgreesMessage(v, token, Heard(v.keys, token, w).value, drawn, id, f); }
  }

  lemma KeysStep(v: Conn, token: Token, a: Action)
    ensures Step(v, token, a).keys ==
            if !a.Receive? then v.keys
            else if a.wire.AuthOk? then H.Dispatch(v.keys, token, a.wire).0
            else if Heard(v.keys, token, a.wire).Some? && Proves(token, Heard(v.keys, token, a.wire).value)
            then WithProof(v.keys, a.drawn) else v.keys
    ensures Step(v, token, a).reqId == v.reqId + if a.Request? then 1 else 0
  {
  }

  lemma {:induction false} RunCounts(token: Token, acts: seq<Action>)
    ensures Exec(token, acts).keys == KeysOf(token, acts) && Exec(token, acts).reqId == Asked(acts)
    decreases |acts|
  {
    if acts != [] {
      RunCounts(token, acts[..|acts| - 1]);
      KeysStep(Exec(token, acts[..|acts| - 1]), token, acts[|acts| - 1]);
    }
  }

  /** For every run and every id, whatever arrives and however often the socket is lost or
      replaced: the promise is resolved at most once, by the first message let through that
      carries its id after it was asked, and waits exactly until then or until a close drops it. */
  lemma {:induction false} EachRequestHasOneFate(token: Token, acts: seq<Action>, id: nat)
    ensures Agrees(Exec(token, acts), id, FateOf(token, acts, id))
    decreases |acts|
  {
    if acts != [] {
      var pre, a := acts[..|acts| - 1], acts[|acts| - 1];
      EachRequestHasOneFate(token, pre, id);
      RunCounts(token, pre);
      AgreesStep(Exec(token, pre), token, a, id, FateOf(token, pre, id));
    }
  }

  // ---- What goes out ----

  /** In the clear only what the relay reads and proofs; all else under `k`. */
  predicate ClearOrSealed(k: Key, d: R.Doc) {
    || (d.Message? && (d.msg.Hello? || d.msg.Ping? || d.msg.AuthProof?))
    || (d.Enc? && d.sealed.Some? && d.sealed.value.key == k)
  }

  lemma SentStep(v: Conn, token: Token, a: Action)
    requires v.keys.key.Some?
    ensures Step(v, token, a).keys.key.Some?
    ensures v.sent <= Step(v, token, a).sent
    ensures forall i :: |v.sent| <= i < |Step(v, token, a).sent| ==>
              ClearOrSealed(v.keys.key.value, Step(v, token, a).sent[i])
  {
  }

  /** Something sent under the key held after the first `n` actions. */
  predicate SentUnder(token: Token, acts: seq<Action>, n: nat, d: R.Doc)
    requires n <= |acts|
  {
    var key := Exec(token, acts[..n]).keys.key;
    key.Some? && ClearOrSealed(key.value, d)
  }

  /** Sent under a key held at some moment from the first `from` actions on. */
  ghost predicate SentSince(token: Token, acts: seq<Action>, from: nat, d: R.Doc) {
    exists n: nat :: from <= n < |acts| && SentUnder(token, acts, n, d)
  }

  lemma SentSinceExtends(token: Token, acts: seq<Action>, a: Action, from: nat, d: R.Doc)
    requires SentSince(token, acts, from, d)
    ensures SentSince(token, acts + [a], from, d)
  {
    var n: nat :| from <= n < |acts| && SentUnder(token, acts, n, d);
    assert (acts + [a])[..n] == acts[..n];
    assert SentUnder(token, acts + [a], n, d);
  }

  lemma SentSinceLast(token: Token, acts: seq<Action>, a: Action, from: nat, i: nat)
    requires from <= |acts| && Exec(token, acts).keys.key.Some?
    requires |Exec(token, acts).sent| <= i < |Step(Exec(token, acts), token, a).sent|
    ensures SentSince(token, acts + [a], from, Step(Exec(token, acts), token, a).sent[i])
  {
    assert (acts + [a])[..|acts|] == acts;
    SentStep(Exec(token, acts), token, a);
    assert SentUnder(token, acts + [a], |acts|, Step(Exec(token, acts), token, a).sent[i]);
  }

  /** Once a key is established it is never unset, and whatever is sent from then on is sealed under
      the key held at that moment, but for hellos, pings and proofs. */
  lemma {:induction false} SealedEverAfter(token: Token, acts: seq<Action>, more: seq<Action>)
    requires Exec(token, acts).keys.key.Some?
    ensures Exec(token, acts + more).keys.key.Some?
    ensures Exec(token, acts).sent <= Exec(token, acts + more).sent
    ensures forall i :: |Exec(token, acts).sent| <= i < |Exec(token, acts + more).sent| ==>
              SentSince(token, acts + more, |acts|, Exec(token, acts + more).sent[i])
    decreases |more|
  {
    if more == [] {
      assert acts + more == acts;
    } else {
      var pre, a := acts + more[..|more| - 1], more[|more| - 1];
      SealedEverAfter(token, acts, more[..|more| - 1]);
      assert acts + more == pre + [a] && (pre + [a])[..|pre|] == pre;
      var w, w' := Exec(token, pre), Exec(token, pre + [a]);
      SentStep(w, token, a);
      assert w' == Step(w, token, a);
      forall i | |Exec(token, acts).sent| <= i < |w'.sent| ensures SentSince(token, pre + [a], |acts|, w'.sent[i]) {
        if i < |w.sent| {
          SentSinceExtends(token, pre, a, |acts|, w.sent[i]);
        } else {
          SentSinceLast(token, pre, a, |acts|, i);
        }
      }
    }
  }

  // ---- A request answered by the host ----

  function ReceiveAll(v: Conn, token: Token, ms: seq<DaemonMsg>): Conn
    requires v.keys.key.Some?
    decreases |ms|
  {
    if ms == [] then v
    else
      var v1 := Received(v, token, R.SealedFrame(Seal(v.keys.key.value, ms[0])), 0);
      ReceiveAll(v1, token, ms[1..])
  }

  lemma {:induction false} OnlyRepliesResolve(v: Conn, token: Token, ms: seq<DaemonMsg>)
    requires v.keys.key.Some? && forall i :: 0 <= i < |ms| ==> !ms[i].HelloAck?
    requires M.Replies(ms) != [] ==>
               |M.Replies(ms)| == 1 && ReplyId(M.Replies(ms)[0]).Some? && ReplyId(M.Replies(ms)[0]).value in v.pending
    ensures ReceiveAll(v, token, ms) ==
            if M.Replies(ms) == [] then v
            else var r := M.Replies(ms)[0];
                 v.(pending := v.pending - {ReplyId(r).value},
                    resolved := v.resolved + [Resolution(ReplyId(r).value, r)])
    decreases |ms|
  {
    if ms != [] {
      OnlyRepliesResolve(Received(v, token, R.SealedFrame(Seal(v.keys.key.value, ms[0])), 0), token, ms[1..]);
    }
  }

  /** On an established connection the host's answer to a request, sealed under the shared key,
      resolves that request and no other, whatever the request and the host's sessions. */
  lemma HostAnswerResolvesItsRequest(v: Conn, token: Token, ask: Ask, sessions: set<Sid>, w: M.World)
    requires v.keys.key.Some? && forall id :: id in v.pending ==> id <= v.reqId
    ensures var id, ms := v.reqId + 1, M.HandleMsg(sessions, WithId(ask, v.reqId + 1), w).1;
            var asked := Step(v, token, Request(ask));
            && |M.Replies(ms)| == 1
            && ReceiveAll(asked, token, ms) ==
               asked.(pending := v.pending, resolved := v.resolved + [Resolution(id, M.Replies(ms)[0])])
  {
    var m := WithId(ask, v.reqId + 1);
    M.RepliesCarryOwnId(sessions, m, w);
    OnlyRepliesResolve(Step(v, token, Request(ask)), token, M.HandleMsg(sessions, m, w).1);
  }
}
