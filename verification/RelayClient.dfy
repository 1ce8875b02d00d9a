/** The daemon's connection to the relay (daemon/src/relay_client.rs): the authentication gate,
    sealing, re-handshake and the timer that asks for unauthenticated viewers to be kicked. */
module RelayClient {
  import opened Common
  import opened Crypto
  import opened Protocol

  const AUTH_WINDOW := 30.0
  const AUTH_CHECK := 5.0

  /** A text frame after JSON parsing. `sealed` is None when the envelope is malformed. */
  datatype Doc =
    | NotJson
    | Enc(sealed: Option<Sealed<Doc>>)
    | Message(msg: ClientMsg)
    | Unparsed(isProof: bool)

  datatype Wire =
    | AuthOk(pub: Pub, mac: Mac)
    | PongText
    | ErrorText(code: string)
    | Frame(msg: DaemonMsg)
    | SealedFrame(sealed: Sealed<DaemonMsg>)
    | KickRequest
    | WsPing

  /** The loop's variables. `sink`, `requests` (what reached `host.request`) and `kicks` (when a
      kick was sent) are its outputs so far. */
  datatype Loop = Loop(crypto: Option<Key>, deadline: real, sink: seq<Wire>, requests: seq<ClientMsg>, kicks: seq<Kick>)

  /** When a kick was decided, and when, after it was sent, the next window opened. */
  datatype Kick = Kick(at: real, reopened: real)

  /** A check reads the clock, and again after the kick it may send. */
  datatype Event =
    | PingTick
    | AuthTick(now: real, later: real)
    | HostEvent(msg: DaemonMsg)
    | Inbound(doc: Doc, token: Token, drawn: Secret, replies: seq<DaemonMsg>)

  function Begin(now: real): Loop { Loop(None, now + AUTH_WINDOW, [], [], []) }

  function Wrapped(crypto: Option<Key>, m: DaemonMsg): Wire {
    if crypto.Some? then SealedFrame(Seal(crypto.value, m)) else Frame(m)
  }

  function WrappedAll(crypto: Option<Key>, ms: seq<DaemonMsg>): (ws: seq<Wire>)
    ensures |ws| == |ms| && forall i :: 0 <= i < |ms| ==> ws[i] == Wrapped(crypto, ms[i])
  {
    if ms == [] then [] else WrappedAll(crypto, ms[..|ms| - 1]) + [Wrapped(crypto, ms[|ms| - 1])]
  }

  /** The text to act on: the opened plaintext of an envelope, or a plain text that is still
      acceptable; None when the frame is dropped. */
  function Admitted(crypto: Option<Key>, doc: Doc): Option<Doc> {
    match doc
    case NotJson => None
    case Enc(sealed) => if crypto.Some? && sealed.Some? then Open(crypto.value, sealed.value) else None
    case Message(m) => if crypto.Some? && !m.AuthProof? then None else Some(doc)
    case Unparsed(isProof) => if crypto.Some? && !isProof then None else Some(doc)
  }

  /** The key an admitted text installs, with the answer that is sent first. */
  function Proven(text: Doc, token: Token, drawn: Secret): Option<(Wire, Key)> {
    if text.Message? && text.msg.AuthProof?
       && VerifyClient(token, Decode(text.msg.pub), Decode(text.msg.mac), drawn).Some? then
      Some((AuthOk(Pub(drawn), Mac(token, Pub(drawn))), DaemonKey(drawn, text.msg.pub.value)))
    else None
  }

  function OnText(l: Loop, text: Doc, token: Token, drawn: Secret, replies: seq<DaemonMsg>): Loop {
    if !text.Message? then l.(sink := l.sink + [ErrorText("protocol_error")])
    else if text.msg.AuthProof? then
      match Proven(text, token, drawn)
      case Some((reply, key)) => l.(sink := l.sink + [reply], crypto := Some(key))
      case None => l.(sink := l.sink + [ErrorText("auth_failed")])
    else if text.msg.Ping? then l.(sink := l.sink + [PongText])
    else if l.crypto.None? then l.(sink := l.sink + [ErrorText("auth_required")])
    else l.(requests := l.requests + [text.msg], sink := l.sink + WrappedAll(l.crypto, replies))
  }

  function Step(l: Loop, e: Event): Loop {
    match e
    case PingTick => l.(sink := l.sink + [WsPing])
    case AuthTick(now, later) =>
      if l.crypto.None? && now > l.deadline
      then l.(sink := l.sink + [KickRequest], deadline := later + AUTH_WINDOW, kicks := l.kicks + [Kick(now, later)])
      else l
    case HostEvent(m) => l.(sink := l.sink + [Wrapped(l.crypto, m)])
    case Inbound(doc, token, drawn, replies) =>
      match Admitted(l.crypto, doc)
      case Some(text) => OnText(l, text, token, drawn, replies)
      case None => l
  }

  function Exec(l: Loop, evs: seq<Event>): Loop {
    if evs == [] then l else Step(Exec(l, evs[..|evs| - 1]), evs[|evs| - 1])
  }

  // ---- The gate ----

  /** The event carries a proof that verifies: in the clear, or sealed under the current key. */
  predicate AcceptsProof(key: Option<Key>, e: Event) {
    e.Inbound? && Admitted(key, e.doc).Some? && Proven(Admitted(key, e.doc).value, e.token, e.drawn).Some?
  }

  /** The key after a history: that of the last accepted proof. */
  function KeyOf(evs: seq<Event>): Option<Key> {
    if evs == [] then None
    else
      var key, e := KeyOf(evs[..|evs| - 1]), evs[|evs| - 1];
      if AcceptsProof(key, e) then Some(Proven(Admitted(key, e.doc).value, e.token, e.drawn).value.1) else key
  }

  /** The requests a history may let through: texts of envelopes sealed under the key current
      when they arrived, other than proofs and pings. */
  function Opened(evs: seq<Event>): seq<ClientMsg> {
    if evs == [] then []
    else
      var pre, e := evs[..|evs| - 1], evs[|evs| - 1];
      if && e.Inbound? && e.doc.Enc? && e.doc.sealed.Some?
         && KeyOf(pre) == Some(e.doc.sealed.value.key)
         && e.doc.sealed.value.plaintext.Message?
         && !e.doc.sealed.value.plaintext.msg.AuthProof? && !e.doc.sealed.value.plaintext.msg.Ping?
      then Opened(pre) + [e.doc.sealed.value.plaintext.msg] else Opened(pre)
  }

  /** For every history, `host.request` is given exactly the opened requests, in order. */
  lemma {:induction false} GateLetsThroughExactlyOpened(start: real, evs: seq<Event>)
    ensures Exec(Begin(start), evs).crypto == KeyOf(evs)
    ensures Exec(Begin(start), evs).requests == Opened(evs)
    decreases |evs|
  {
    if evs != [] {
      GateLetsThroughExactlyOpened(start, evs[..|evs| - 1]);
    }
  }

  /** Before a proof is accepted no key exists and nothing reaches the host. */
  lemma {:induction false} NothingBeforeProof(start: real, evs: seq<Event>)
    requires forall i :: 0 <= i < |evs| ==> !AcceptsProof(None, evs[i])
    ensures Exec(Begin(start), evs).crypto == None && Exec(Begin(start), evs).requests == []
    decreases |evs|
  {
    if evs != [] {
      NothingBeforeProof(start, evs[..|evs| - 1]);
    }
  }

  // ---- What each inbound text is answered ----

  /** The loop passes over the frame: not JSON, an envelope that does not open under the key, or anything
      but a proof in the clear once there is a key. */
  predicate PassedOver(key: Option<Key>, doc: Doc) {
    match doc
    case NotJson => true
    case Enc(sealed) => sealed.None? || key != Some(sealed.value.key)
    case Message(m) => key.Some? && !m.AuthProof?
    case Unparsed(isProof) => key.Some? && !isProof
  }

  function TextOf(doc: Doc): Doc { if doc.Enc? && doc.sealed.Some? then doc.sealed.value.plaintext else doc }

  predicate GoodProof(m: ClientMsg, token: Token) {
    m.AuthProof? && m.pub.Good? && m.mac.Good? && m.mac.value == Mac(token, m.pub.value)
  }

  /** The sink, the key and the requests after a text that is not passed over. */
  predicate Answered(
      l: Loop, l': Loop, key: Option<Key>, text: Doc, token: Token, drawn: Secret, replies: seq<DaemonMsg>)
  {
    if !text.Message? then l' == l.(sink := l.sink + [ErrorText("protocol_error")])
    else if GoodProof(text.msg, token) then
      var pub := text.msg.pub.value;
      l' == l.(sink := l.sink + [AuthOk(Pub(drawn), Mac(token, Pub(drawn)))],
               crypto := Some(Key(multiset{drawn, pub.secret}, [Pub(drawn), pub])))
    else if text.msg.AuthProof? then l' == l.(sink := l.sink + [ErrorText("auth_failed")])
    else if text.msg.Ping? then l' == l.(sink := l.sink + [PongText])
    else if key.None? then l' == l.(sink := l.sink + [ErrorText("auth_required")])
    else
      && l'.requests == l.requests + [text.msg] && l'.crypto == l.crypto
      && l'.kicks == l.kicks && l'.deadline == l.deadline
      && |l'.sink| == |l.sink| + |replies| && l.sink <= l'.sink
      && forall i :: 0 <= i < |replies| ==> l'.sink[|l.sink| + i] == SealedFrame(Sealed(key.value, replies[i]))
  }

  /** After any history, with or without a key: a frame that is passed over changes nothing, and any other
      is answered as its text and the key demand. */
  lemma InboundExactly(
      start: real, evs: seq<Event>, doc: Doc, token: Token, drawn: Secret, replies: seq<DaemonMsg>)
    ensures var l, l' := Exec(Begin(start), evs), Exec(Begin(start), evs + [Inbound(doc, token, drawn, replies)]);
            if PassedOver(KeyOf(evs), doc) then l' == l
            else Answered(l, l', KeyOf(evs), TextOf(doc), token, drawn, replies)
  {
    var e := Inbound(doc, token, drawn, replies);
    assert (evs + [e])[..|evs|] == evs;
    GateLetsThroughExactlyOpened(start, evs);
  }

  /** An event goes out in the clear before there is a key, and sealed under it afterwards. */
  lemma EventExactly(start: real, evs: seq<Event>, m: DaemonMsg)
    ensures var l, l' := Exec(Begin(start), evs), Exec(Begin(start), evs + [HostEvent(m)]);
            l' == l.(sink := l.sink + [if KeyOf(evs).Some? then SealedFrame(Sealed(KeyOf(evs).value, m)) else Frame(m)])
  {
    assert (evs + [HostEvent(m)])[..|evs|] == evs;
    GateLetsThroughExactlyOpened(start, evs);
  }

  lemma KeyStays(l: Loop, e: Event)
    ensures l.crypto.Some? ==> Step(l, e).crypto.Some?
  {
  }

  /** Once a key exists nothing removes it, failed proofs included; only an accepted proof
      replaces it. */
  lemma {:induction false} KeyIsNeverRemoved(l: Loop, evs: seq<Event>)
    requires l.crypto.Some?
    ensures Exec(l, evs).crypto.Some?
    ensures evs != [] && !AcceptsProof(Exec(l, evs[..|evs| - 1]).crypto, evs[|evs| - 1]) ==>
              Exec(l, evs).crypto == Exec(l, evs[..|evs| - 1]).crypto
    decreases |evs|
  {
    if evs != [] {
      KeyIsNeverRemoved(l, evs[..|evs| - 1]);
    }
  }

  /** After any history in which a proof was accepted, whatever the next event adds to the sink:
      session frames are sealed under the key of the last accepted proof, and no kick is asked for. */
  lemma SealedUnderKey(start: real, evs: seq<Event>, e: Event, i: nat)
    requires KeyOf(evs).Some? && |Exec(Begin(start), evs).sink| <= i < |Exec(Begin(start), evs + [e]).sink|
    ensures var w := Exec(Begin(start), evs + [e]).sink[i];
            && !w.Frame? && !w.KickRequest?
            && (w.SealedFrame? ==> Some(w.sealed.key) == KeyOf(evs) && (e.HostEvent? ==> w.sealed.plaintext == e.msg))
            && (w.AuthOk? <==> AcceptsProof(KeyOf(evs), e))
    ensures Exec(Begin(start), evs).sink <= Exec(Begin(start), evs + [e]).sink
  {
    assert (evs + [e])[..|evs|] == evs;
    GateLetsThroughExactlyOpened(start, evs);
  }

  // ---- The kick timer ----

  /** When the check last ran, counting the opening of the window as a run. */
  function LastTick(start: real, evs: seq<Event>): real {
    if evs == [] then start
    else if evs[|evs| - 1].AuthTick? then evs[|evs| - 1].now
    else LastTick(start, evs[..|evs| - 1])
  }

  /** Checks run in time order, at most five seconds apart, and the clock does not go back. */
  predicate Regular(start: real, evs: seq<Event>) {
    evs == [] ||
    var pre, e := evs[..|evs| - 1], evs[|evs| - 1];
    Regular(start, pre) &&
    (e.AuthTick? ==> LastTick(start, pre) <= e.now <= LastTick(start, pre) + AUTH_CHECK && e.now <= e.later)
  }

  /** The start of the current window: when the last kick had been sent, or the opening. */
  function WindowStart(start: real, kicks: seq<Kick>): real {
    if kicks == [] then start else kicks[|kicks| - 1].reopened
  }

  /** Each kick comes more than 30 s and at most 35 s after its window started. */
  predicate Spaced(start: real, kicks: seq<Kick>) {
    kicks == [] ||
    var pre, kick := kicks[..|kicks| - 1], kicks[|kicks| - 1];
    && Spaced(start, pre)
    && WindowStart(start, pre) + AUTH_WINDOW < kick.at <= WindowStart(start, pre) + AUTH_WINDOW + AUTH_CHECK
    && kick.at <= kick.reopened
  }

  predicate TimerOk(start: real, l: Loop, last: real) {
    Spaced(start, l.kicks) && l.deadline == WindowStart(start, l.kicks) + AUTH_WINDOW && last <= l.deadline
  }

  lemma KickStep(start: real, l: Loop, e: Event, last: real)
    requires TimerOk(start, l, last) && l.crypto.None?
    requires e.AuthTick? ==> last <= e.now <= last + AUTH_CHECK && e.now <= e.later
    ensures TimerOk(start, Step(l, e), if e.AuthTick? then e.now else last)
  {
    if e.AuthTick? && e.now > l.deadline { SpacedSnoc(start, l.kicks, Kick(e.now, e.later)); }
  }

  lemma SpacedSnoc(start: real, kicks: seq<Kick>, kick: Kick)
    requires Spaced(start, kicks) && kick.at <= kick.reopened
    requires WindowStart(start, kicks) + AUTH_WINDOW < kick.at <= WindowStart(start, kicks) + AUTH_WINDOW + AUTH_CHECK
    ensures Spaced(start, kicks + [kick])
  {
    assert (kicks + [kick])[..|kicks|] == kicks;
  }

  /** With no proof accepted and regular checks, kicks are spaced as promised and none is overdue:
      the last check ran at most 30 s into the current window. */
  lemma {:induction false} KicksAreTimely(start: real, evs: seq<Event>)
    requires Regular(start, evs) && Exec(Begin(start), evs).crypto.None?
    ensures TimerOk(start, Exec(Begin(start), evs), LastTick(start, evs))
    decreases |evs|
  {
    if evs != [] {
      var pre, e := evs[..|evs| - 1], evs[|evs| - 1];
      var l := Exec(Begin(start), pre);
      KeyStays(l, e);
      KicksAreTimely(start, pre);
      KickStep(start, l, e, LastTick(start, pre));
    }
  }

  function Ticks(evs: seq<Event>): seq<Event> {
    if evs == [] then []
    else
      var rest, e := Ticks(evs[..|evs| - 1]), evs[|evs| - 1];
      if e.AuthTick? then rest + [e] else rest
  }

  /** While no proof is accepted, no traffic in either direction moves a kick or the deadline. */
  lemma {:induction false} TrafficDoesNotMoveKicks(start: real, evs: seq<Event>)
    requires Exec(Begin(start), evs).crypto.None?
    ensures Exec(Begin(start), evs).kicks == Exec(Begin(start), Ticks(evs)).kicks
    ensures Exec(Begin(start), evs).deadline == Exec(Begin(start), Ticks(evs)).deadline
    ensures Exec(Begin(start), Ticks(evs)).crypto.None?
    decreases |evs|
  {
    if evs != [] {
      var pre, e := evs[..|evs| - 1], evs[|evs| - 1];
      var l := Exec(Begin(start), pre);
      KeyStays(l, e);
      TrafficDoesNotMoveKicks(start, pre);
      if e.AuthTick? { assert Ticks(evs)[..|Ticks(pre)|] == Ticks(pre); }
    }
  }

  // ---- The loop's branches as the daemon runs them ----

  class Connection {
    var crypto: Option<Key>
    var authDeadline: real
    var sink: seq<Wire>
    ghost var requests: seq<ClientMsg>
    ghost var kicks: seq<Kick>

    ghost function View(): Loop reads this { Loop(crypto, authDeadline, sink, requests, kicks) }

    constructor (now: real)
      ensures View() == Begin(now)
    {
      crypto, authDeadline, sink, requests, kicks := None, now + AUTH_WINDOW, [], [], [];
    }

    /** `later` is the clock's reading after the kick, if one is sent. */
    method OnAuthCheck(now: real, later: real)
      modifies this
      ensures View() == Step(old(View()), AuthTick(now, later))
    {
      if crypto.None? && now > authDeadline {
        sink := sink + [KickRequest];
        kicks := kicks + [Kick(now, later)];
        authDeadline := later + AUTH_WINDOW;
      }
    }

    method OnHostEvent(m: DaemonMsg)
      modifies this
      ensures View() == Step(old(View()), HostEvent(m))
    {
      var wire := if crypto.Some? then SealedFrame(Seal(crypto.value, m)) else Frame(m);
      sink := sink + [wire];
    }

    /** A proof: the answer goes out before the new key is installed. */
    method OnProof(pub: Field<Pub>, mac: Field<Mac>, token: Token, drawn: Secret)
      modifies this
      ensures View() == OnText(old(View()), Message(AuthProof(pub, mac)), token, drawn, [])
    {
      var hs := VerifyClient(token, Decode(pub), Decode(mac), drawn);
      if hs.Some? {
        sink := sink + [AuthOk(Pub(hs.value), Mac(token, Pub(hs.value)))];
        crypto := Some(DaemonKey(hs.value, pub.value));
      } else {
        sink := sink + [ErrorText("auth_failed")];
      }
    }

    method SendReplies(replies: seq<DaemonMsg>)
      modifies this`sink
      ensures sink == old(sink) + WrappedAll(crypto, replies)
    {
      for i := 0 to |replies|
        invariant sink == old(sink) + WrappedAll(crypto, replies[..i])
      {
        assert replies[..i + 1][..i] == replies[..i];
        var wire := if crypto.Some? then SealedFrame(Seal(crypto.value, replies[i])) else Frame(replies[i]);
        sink := sink + [wire];
      }
      assert replies[..|replies|] == replies;
    }

    /** `replies` is what the host answers if it is asked. */
    method OnInbound(doc: Doc, token: Token, drawn: Secret, replies: seq<DaemonMsg>)
      modifies this
      ensures View() == Step(old(View()), Inbound(doc, token, drawn, replies))
    {
      if doc.NotJson? {
        return;
      }
      var isProof := (doc.Message? && doc.msg.AuthProof?) || (doc.Unparsed? && doc.isProof);
      var text := doc;
      if doc.Enc? {
        if crypto.None? || doc.sealed.None? || doc.sealed.value.key != crypto.value {
          return;
        }
        text := doc.sealed.value.plaintext;
      } else if crypto.Some? && !isProof {
        return;
      }
      if !text.Message? {
        sink := sink + [ErrorText("protocol_error")];
      } else if text.msg.AuthProof? {
        OnProof(text.msg.pub, text.msg.mac, token, drawn);
      } else if text.msg.Ping? {
        sink := sink + [PongText];
      } else if crypto.None? {
        sink := sink + [ErrorText("auth_required")];
      } else {
        requests := requests + [text.msg];
        SendReplies(replies);
      }
    }
  }
}
