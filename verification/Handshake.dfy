/** One viewer connection (web/src/lib/daemon.ts, web/src/lib/e2e.ts) talking to the daemon's relay
    loop over two FIFO channels, in any interleaving. Either end may still hold a key of an
    earlier connection when this one starts. */
module Handshake {
  import opened Common
  import opened Crypto
  import opened Protocol
  import R = RelayClient

  /** What `dispatch` did with one frame. */
  datatype Dispatched = Opened(msg: DaemonMsg) | Plain | Ready | AuthFailed | EarlyEnvelope | BadEnvelope

  function Dispatch(k: ClientKeys, token: Token, w: R.Wire): (ClientKeys, Dispatched) {
    match w
    case SealedFrame(s) =>
      if k.key.None? then (k, EarlyEnvelope)
      else if Open(k.key.value, s).Some? then (k, Opened(Open(k.key.value, s).value))
      else (k, BadEnvelope)
    case AuthOk(pub, mac) =>
      var r := Finished(k, token, Some(pub), Some(mac));
      if r.Some? then (r.value, Ready) else (k, AuthFailed)
    case _ => (k, Plain)
  }

  /** `send`: sealed once a key is established, except for the types the relay reads. */
  function Outgoing(k: ClientKeys, m: ClientMsg): R.Doc {
    if k.key.Some? && !m.Hello? && !m.Ping? && !m.AuthProof?
    then R.Enc(Some(Seal(k.key.value, R.Message(m)))) else R.Message(m)
  }

  /** `sent` is all the viewer sent and `daemon.sink` all the daemon sent; `taken` and `delivered`
      say how much of each has been received. `shown` and `read` record what the viewer and the
      daemon made of each frame they received, the other fields where the handshake took place. */
  datatype State = State(
    client: ClientKeys, sent: seq<R.Doc>, delivered: nat, shown: seq<Dispatched>,
    daemon: R.Loop, taken: nat, read: seq<Option<R.Doc>>,
    proofAt: Option<nat>, own: Secret, okAt: Option<nat>, other: Secret, sealedFrom: nat)

  datatype Action =
    | Acked(drawn: Secret)
    | Send(msg: ClientMsg)
    | Deliver
    | DaemonEvent(event: DaemonMsg)
    | Take(drawn: Secret, replies: seq<DaemonMsg>)
    | Inject(wire: R.Wire)

  /** The frame carries no MAC of `token` over the public key it names. */
  predicate Forged(w: R.Wire, token: Token) { w.AuthOk? ==> w.mac.token != token || w.mac.pub != w.pub }

  function Start(clientKey: Option<Key>, daemonKey: Option<Key>): State {
    State(ClientKeys(None, clientKey), [], 0, [], R.Loop(daemonKey, 0.0, [], [], []), 0, [], None, 0, None, 0, 0)
  }

  predicate Enabled(s: State, a: Action) {
    match a
    case Acked(_) => s.proofAt.None?
    case Send(m) => !m.AuthProof?
    case Deliver => s.delivered < |s.daemon.sink|
    case DaemonEvent(_) => true
    case Take(_, _) => s.taken < |s.sent|
    case Inject(_) => true
  }

  /** The viewer pairs with `clientToken`; the daemon checks proofs against `daemonToken`. Between them
      the relay may hand the viewer any forged frame at any time. */
  function Step(s: State, clientToken: Token, daemonToken: Token, a: Action): State {
    if !Enabled(s, a) then s
    else
      match a
      case Acked(drawn) =>
        s.(client := WithProof(s.client, drawn), proofAt := Some(|s.sent|), own := drawn,
           sent := s.sent + [R.Message(AuthProof(Good(Pub(drawn)), Good(Mac(clientToken, Pub(drawn)))))])
      case Send(m) => s.(sent := s.sent + [Outgoing(s.client, m)])
      case Deliver =>
        var (k, d) := Dispatch(s.client, clientToken, s.daemon.sink[s.delivered]);
        s.(client := k, delivered := s.delivered + 1, shown := s.shown + [d],
           sealedFrom := if d.Ready? then |s.sent| else s.sealedFrom)
      case DaemonEvent(m) => s.(daemon := R.Step(s.daemon, R.HostEvent(m)))
      case Take(drawn, replies) =>
        var doc := s.sent[s.taken];
        var e := R.Inbound(doc, daemonToken, drawn, replies);
        var accepted := R.AcceptsProof(s.daemon.crypto, e);
        s.(daemon := R.Step(s.daemon, e), taken := s.taken + 1, read := s.read + [R.Admitted(s.daemon.crypto, doc)],
           okAt := if accepted then Some(|s.daemon.sink|) else s.okAt, other := if accepted then drawn else s.other)
      case Inject(w) => if Forged(w, clientToken) then s.(client := Dispatch(s.client, clientToken, w).0) else s
  }

  function Exec(s: State, clientToken: Token, daemonToken: Token, acts: seq<Action>): State {
    if acts == [] then s
    else Step(Exec(s, clientToken, daemonToken, acts[..|acts| - 1]), clientToken, daemonToken, acts[|acts| - 1])
  }

  /** The keys the viewer will hold after consuming frames. */
  function Consume(k: ClientKeys, token: Token, ws: seq<R.Wire>): ClientKeys
    decreases |ws|
  {
    if ws == [] then k else Consume(Dispatch(k, token, ws[0]).0, token, ws[1..])
  }

  // ---- The in-flight invariant ----

  /** The key of this connection's handshake. */
  function SharedKey(s: State): Key { DaemonKey(s.other, Pub(s.own)) }

  predicate NoProof(d: R.Doc) {
    && !(d.Message? && d.msg.AuthProof?)
    && (d.Enc? && d.sealed.Some? ==> !(d.sealed.value.plaintext.Message? && d.sealed.value.plaintext.msg.AuthProof?))
  }

  /** Up to where the handshake has come. */
  predicate PhaseOk(s: State, ck: Option<Key>, dk: Option<Key>) {
    && s.delivered == |s.shown| <= |s.daemon.sink| && s.taken == |s.read| <= |s.sent|
    && (s.proofAt.None? ==> s.client == ClientKeys(None, ck))
    && (s.proofAt.Some? ==> s.proofAt.value < |s.sent|)
    && (s.okAt.None? ==> s.daemon.crypto == dk && (s.proofAt.Some? ==> s.taken <= s.proofAt.value))
    && (s.okAt.Some? ==>
          && s.proofAt.Some? && s.taken > s.proofAt.value && s.okAt.value < |s.daemon.sink|
          && s.daemon.crypto == Some(SharedKey(s)))
    && (s.proofAt.Some? && !(s.okAt.Some? && s.okAt.value < s.delivered) ==>
          s.client == ClientKeys(Some(s.own), ck))
    && (s.okAt.Some? && s.okAt.value < s.delivered ==>
          s.client == ClientKeys(None, Some(SharedKey(s))) && s.proofAt.value < s.sealedFrom <= |s.sent|)
  }

  /** The viewer's one proof, and its sealing once it holds the key. */
  predicate SentOk(s: State, token: Token, i: nat)
    requires i < |s.sent|
  {
    if s.proofAt == Some(i) then s.sent[i] == R.Message(AuthProof(Good(Pub(s.own)), Good(Mac(token, Pub(s.own)))))
    else
      && NoProof(s.sent[i])
      && (s.okAt.Some? && s.okAt.value < s.delivered && s.sealedFrom <= i && s.sent[i].Enc? ==>
            && s.sent[i].sealed.Some? && s.sent[i].sealed.value.key == SharedKey(s)
            && (i < s.taken <= |s.read| ==> s.read[i] == Some(s.sent[i].sealed.value.plaintext)))
  }

  /** The daemon's one answer, and its sealing from then on. */
  predicate SinkOk(s: State, token: Token, i: nat)
    requires i < |s.daemon.sink|
  {
    var w := s.daemon.sink[i];
    if s.okAt == Some(i) then w == R.AuthOk(Pub(s.other), Mac(token, Pub(s.other)))
    else
      && !w.AuthOk?
      && (s.okAt.Some? && s.okAt.value < i && w.SealedFrame? ==>
            && w.sealed.key == SharedKey(s)
            && (i < s.delivered <= |s.shown| ==> s.shown[i] == Opened(w.sealed.plaintext)))
  }

  ghost predicate Inv(s: State, token: Token, ck: Option<Key>, dk: Option<Key>) {
    && PhaseOk(s, ck, dk)
    && (forall i :: 0 <= i < |s.sent| ==> SentOk(s, token, i))
    && (forall i :: 0 <= i < |s.daemon.sink| ==> SinkOk(s, token, i))
  }

  /** What a daemon step adds to the sink, and when it installs a key. */
  lemma DaemonStep(l: R.Loop, e: R.Event, i: nat)
    requires e.HostEvent? || e.Inbound?
    requires |l.sink| <= i < |R.Step(l, e).sink|
    ensures var w := R.Step(l, e).sink[i];
            && (w.AuthOk? ==> R.AcceptsProof(l.crypto, e) && i == |l.sink|)
            && (w.SealedFrame? ==> Some(w.sealed.key) == l.crypto)
            && (R.AcceptsProof(l.crypto, e) ==> w.AuthOk?)
  {
  }

  lemma DaemonKeeps(l: R.Loop, e: R.Event)
    requires e.HostEvent? || e.Inbound?
    ensures l.sink <= R.Step(l, e).sink
    ensures R.AcceptsProof(l.crypto, e) ==> |R.Step(l, e).sink| == |l.sink| + 1
    ensures !R.AcceptsProof(l.crypto, e) ==> R.Step(l, e).crypto == l.crypto
  {
  }

  /** Only the viewer's proof is accepted, and it installs the shared key. */
  lemma OnlyTheProof(s: State, token: Token, drawn: Secret, replies: seq<DaemonMsg>)
    requires s.taken < |s.sent| && SentOk(s, token, s.taken)
    ensures var e := R.Inbound(s.sent[s.taken], token, drawn, replies);
            && (R.AcceptsProof(s.daemon.crypto, e) <==> s.proofAt == Some(s.taken))
            && (s.proofAt == Some(s.taken) ==>
                  && R.Step(s.daemon, e).crypto == Some(DaemonKey(drawn, Pub(s.own)))
                  && R.Step(s.daemon, e).sink == s.daemon.sink + [R.AuthOk(Pub(drawn), Mac(token, Pub(drawn)))])
  {
  }

  lemma HelloKeeps(s: State, token: Token, ck: Option<Key>, dk: Option<Key>, drawn: Secret)
    requires Inv(s, token, ck, dk) && s.proofAt.None?
    ensures Inv(Step(s, token, token, Acked(drawn)), token, ck, dk)
  {
    var s' := Step(s, token, token, Acked(drawn));
    forall i | 0 <= i < |s'.sent| ensures SentOk(s', token, i) { if i < |s.sent| { assert SentOk(s, token, i); } }
    forall i | 0 <= i < |s'.daemon.sink| ensures SinkOk(s', token, i) { assert SinkOk(s, token, i); }
  }

  lemma SendKeeps(s: State, token: Token, ck: Option<Key>, dk: Option<Key>, m: ClientMsg)
    requires Inv(s, token, ck, dk) && !m.AuthProof?
    ensures Inv(Step(s, token, token, Send(m)), token, ck, dk)
  {
    var s' := Step(s, token, token, Send(m));
    forall i | 0 <= i < |s'.sent| ensures SentOk(s', token, i) { if i < |s.sent| { assert SentOk(s, token, i); } }
    forall i | 0 <= i < |s'.daemon.sink| ensures SinkOk(s', token, i) { assert SinkOk(s, token, i); }
  }

  lemma EventKeeps(s: State, token: Token, ck: Option<Key>, dk: Option<Key>, m: DaemonMsg)
    requires Inv(s, token, ck, dk)
    ensures Inv(Step(s, token, token, DaemonEvent(m)), token, ck, dk)
  {
    var s' := Step(s, token, token, DaemonEvent(m));
    forall i | 0 <= i < |s'.sent| ensures SentOk(s', token, i) { assert SentOk(s, token, i); }
    forall i | 0 <= i < |s'.daemon.sink| ensures SinkOk(s', token, i) {
      if i < |s.daemon.sink| { assert SinkOk(s, token, i); }
    }
  }

  lemma DeliverKeeps(s: State, token: Token, ck: Option<Key>, dk: Option<Key>)
    requires Inv(s, token, ck, dk) && s.delivered < |s.daemon.sink|
    ensures Inv(Step(s, token, token, Deliver), token, ck, dk)
  {
    var s' := Step(s, token, token, Deliver);
    assert SinkOk(s, token, s.delivered);
    if s.okAt == Some(s.delivered) {
      BothEndsAgree(s.other, s.own);
      assert s'.client == ClientKeys(None, Some(SharedKey(s)));
    }
    forall i | 0 <= i < |s'.sent| ensures SentOk(s', token, i) { assert SentOk(s, token, i); }
    forall i | 0 <= i < |s'.daemon.sink| ensures SinkOk(s', token, i) { assert SinkOk(s, token, i); }
  }

  lemma TakeKeeps(s: State, token: Token, ck: Option<Key>, dk: Option<Key>, drawn: Secret, replies: seq<DaemonMsg>)
    requires Inv(s, token, ck, dk) && s.taken < |s.sent|
    ensures Inv(Step(s, token, token, Take(drawn, replies)), token, ck, dk)
  {
    var s' := Step(s, token, token, Take(drawn, replies));
    var e := R.Inbound(s.sent[s.taken], token, drawn, replies);
    assert SentOk(s, token, s.taken);
    OnlyTheProof(s, token, drawn, replies);
    DaemonKeeps(s.daemon, e);
    forall i | 0 <= i < |s'.sent| ensures SentOk(s', token, i) { assert SentOk(s, token, i); }
    forall i | 0 <= i < |s'.daemon.sink| ensures SinkOk(s', token, i) {
      if i < |s.daemon.sink| { assert SinkOk(s, token, i); } else { DaemonStep(s.daemon, e, i); }
    }
  }

  lemma {:induction false} RunInv(ck: Option<Key>, dk: Option<Key>, token: Token, acts: seq<Action>)
    ensures Inv(Exec(Start(ck, dk), token, token, acts), token, ck, dk)
    decreases |acts|
  {
    if acts != [] {
      var s, a := Exec(Start(ck, dk), token, token, acts[..|acts| - 1]), acts[|acts| - 1];
      RunInv(ck, dk, token, acts[..|acts| - 1]);
      if Enabled(s, a) {
        match a
        case Acked(drawn) => HelloKeeps(s, token, ck, dk, drawn);
        case Send(m) => SendKeeps(s, token, ck, dk, m);
        case Deliver => DeliverKeeps(s, token, ck, dk);
        case DaemonEvent(m) => EventKeeps(s, token, ck, dk, m);
        case Take(drawn, replies) => TakeKeeps(s, token, ck, dk, drawn, replies);
        case Inject(w) => InjectChangesNothing(s, token, token, w);
      }
    }
  }

  // ---- Agreement ----

  lemma {:induction false} ConsumeWithoutAnswer(k: ClientKeys, token: Token, ws: seq<R.Wire>)
    requires forall i :: 0 <= i < |ws| ==> !ws[i].AuthOk?
    ensures Consume(k, token, ws) == k
    decreases |ws|
  {
    if ws != [] {
      ConsumeWithoutAnswer(Dispatch(k, token, ws[0]).0, token, ws[1..]);
    }
  }

  lemma {:induction false} ConsumeConcat(k: ClientKeys, token: Token, a: seq<R.Wire>, b: seq<R.Wire>)
    ensures Consume(k, token, a + b) == Consume(Consume(k, token, a), token, b)
    decreases |a|
  {
    if a == [] {
      assert a + b == b;
    } else {
      assert (a + b)[1..] == a[1..] + b;
      ConsumeConcat(Dispatch(k, token, a[0]).0, token, a[1..], b);
    }
  }

  /** With equal tokens, in every reachable state from any leftover keys: once the daemon has
      accepted the proof, the key the viewer will hold after everything in flight is the key the
      daemon holds. */
  lemma KeyAgreement(ck: Option<Key>, dk: Option<Key>, token: Token, acts: seq<Action>)
    requires Exec(Start(ck, dk), token, token, acts).okAt.Some?
    ensures var s := Exec(Start(ck, dk), token, token, acts);
            && s.delivered <= |s.daemon.sink|
            && s.daemon.crypto.Some?
            && Consume(s.client, token, s.daemon.sink[s.delivered..]).key == s.daemon.crypto
  {
    var s := Exec(Start(ck, dk), token, token, acts);
    RunInv(ck, dk, token, acts);
    var flight, q := s.daemon.sink[s.delivered..], s.okAt.value;
    assert SinkOk(s, token, q);
    if q < s.delivered {
      forall i | 0 <= i < |flight| ensures !flight[i].AuthOk? { assert SinkOk(s, token, s.delivered + i); }
      ConsumeWithoutAnswer(s.client, token, flight);
    } else {
      forall i | 0 <= i < |flight| && i != q - s.delivered ensures !flight[i].AuthOk? {
        assert SinkOk(s, token, s.delivered + i);
      }
      BothEndsAgree(s.other, s.own);
      ConsumeAnswer(s.client, token, flight, q - s.delivered);
    }
  }

  /** Of frames with one answer among them, only the answer matters. */
  lemma ConsumeAnswer(k: ClientKeys, token: Token, ws: seq<R.Wire>, q: nat)
    requires q < |ws| && forall i :: 0 <= i < |ws| && i != q ==> !ws[i].AuthOk?
    ensures Consume(k, token, ws) == Dispatch(k, token, ws[q]).0
  {
    var a, b := ws[..q], ws[q + 1..];
    assert ws == a + ([ws[q]] + b);
    ConsumeConcat(k, token, a, [ws[q]] + b);
    ConsumeWithoutAnswer(k, token, a);
    assert ([ws[q]] + b)[1..] == b;
    ConsumeWithoutAnswer(Dispatch(k, token, ws[q]).0, token, b);
  }

  /** Every frame the daemon seals after its answer opens at the viewer to its own text, and every
      frame the viewer seals after becoming ready opens at the daemon to its own text. */
  lemma SealedFramesOpen(ck: Option<Key>, dk: Option<Key>, token: Token, acts: seq<Action>, i: nat)
    ensures var s := Exec(Start(ck, dk), token, token, acts);
            && |s.shown| == s.delivered <= |s.daemon.sink| && |s.read| == s.taken <= |s.sent|
            && (s.okAt.Some? && s.okAt.value < i < s.delivered && s.daemon.sink[i].SealedFrame? ==>
                  s.shown[i] == Opened(s.daemon.sink[i].sealed.plaintext))
            && (s.okAt.Some? && s.okAt.value < s.delivered && s.sealedFrom <= i < s.taken && s.sent[i].Enc? ==>
                  s.sent[i].sealed.Some? && s.read[i] == Some(s.sent[i].sealed.value.plaintext))
  {
    var s := Exec(Start(ck, dk), token, token, acts);
    RunInv(ck, dk, token, acts);
    if i < |s.daemon.sink| { assert SinkOk(s, token, i); }
    if i < |s.sent| { assert SentOk(s, token, i); }
  }

  /** Once everything sent has been received on both sides, the viewer is ready with the daemon's
      key exactly when it has sent its proof. */
  lemma HandshakeCompletes(ck: Option<Key>, dk: Option<Key>, token: Token, acts: seq<Action>)
    requires var s := Exec(Start(ck, dk), token, token, acts); s.taken == |s.sent| && s.delivered == |s.daemon.sink|
    ensures var s := Exec(Start(ck, dk), token, token, acts);
            if s.proofAt.Some? then s.client == ClientKeys(None, s.daemon.crypto) && s.okAt.Some?
            else s.client == ClientKeys(None, ck) && s.daemon.crypto == dk
  {
    RunInv(ck, dk, token, acts);
  }

  /** With different tokens neither end ever installs a key. */
  lemma {:induction false} DifferentTokensInstallNothing(
      ck: Option<Key>, dk: Option<Key>, clientToken: Token, daemonToken: Token, acts: seq<Action>)
    requires clientToken != daemonToken
    ensures var s := Exec(Start(ck, dk), clientToken, daemonToken, acts);
            && s.client.key == ck && s.daemon.crypto == dk && s.okAt.None?
            && (forall i :: 0 <= i < |s.sent| ==> Harmless(s.sent[i], clientToken))
            && (forall i :: 0 <= i < |s.daemon.sink| ==> !s.daemon.sink[i].AuthOk?)
    decreases |acts|
  {
    if acts != [] {
      var s, a := Exec(Start(ck, dk), clientToken, daemonToken, acts[..|acts| - 1]), acts[|acts| - 1];
      DifferentTokensInstallNothing(ck, dk, clientToken, daemonToken, acts[..|acts| - 1]);
      if a.Take? && Enabled(s, a) {
        assert Harmless(s.sent[s.taken], clientToken);
        RefusesOthers(s.daemon, s.sent[s.taken], clientToken, daemonToken, a.drawn, a.replies);
      }
      if a.DaemonEvent? { RefusesEvent(s.daemon, a.event); }
      if a.Inject? { InjectChangesNothing(s, clientToken, daemonToken, a.wire); }
    }
  }

  /** A text whose proof, if any, was made with `token`. */
  predicate Harmless(d: R.Doc, token: Token) {
    NoProof(d) || (d.Message? && d.msg.AuthProof? && d.msg.mac.Good? && d.msg.mac.value.token == token)
  }

  lemma RefusesOthers(l: R.Loop, d: R.Doc, made: Token, token: Token, drawn: Secret, replies: seq<DaemonMsg>)
    requires Harmless(d, made) && made != token
    ensures var e := R.Inbound(d, token, drawn, replies);
            && !R.AcceptsProof(l.crypto, e) && R.Step(l, e).crypto == l.crypto && l.sink <= R.Step(l, e).sink
            && forall i :: |l.sink| <= i < |R.Step(l, e).sink| ==> !R.Step(l, e).sink[i].AuthOk?
  {
    var e := R.Inbound(d, token, drawn, replies);
    DaemonKeeps(l, e);
    forall i | |l.sink| <= i < |R.Step(l, e).sink| ensures !R.Step(l, e).sink[i].AuthOk? { DaemonStep(l, e, i); }
  }

  lemma RefusesEvent(l: R.Loop, m: DaemonMsg)
    ensures R.Step(l, R.HostEvent(m)).crypto == l.crypto
    ensures R.Step(l, R.HostEvent(m)).sink == l.sink + [R.Wrapped(l.crypto, m)]
  {
  }

  // ---- What the viewer believes ----

  /** What the viewer makes of the next frame in any reachable state: early envelopes and envelopes under
      another key are told apart, and an answer makes it ready exactly when it is its own token's. */
  lemma {:induction false} DeliveredExactly(
      ck: Option<Key>, dk: Option<Key>, clientToken: Token, daemonToken: Token, acts: seq<Action>)
    requires Enabled(Exec(Start(ck, dk), clientToken, daemonToken, acts), Deliver)
    ensures var s, s' := Exec(Start(ck, dk), clientToken, daemonToken, acts),
                         Exec(Start(ck, dk), clientToken, daemonToken, acts + [Deliver]);
            |s'.shown| == |s.shown| + 1 &&
            var w, d := s.daemon.sink[s.delivered], s'.shown[|s.shown|];
            match w
            case SealedFrame(sealed) =>
              && (d == EarlyEnvelope <==> s.client.key.None?)
              && (d == BadEnvelope <==> s.client.key.Some? && s.client.key.value != sealed.key)
              && (d.Opened? <==> s.client.key == Some(sealed.key)) && (d.Opened? ==> d.msg == sealed.plaintext)
            case AuthOk(pub, mac) =>
              && (d.Ready? <==> s.client.priv.Some? && mac == Mac(clientToken, pub)) && (d.Ready? || d.AuthFailed?)
            case _ => d.Plain?
  {
    assert (acts + [Deliver])[..|acts|] == acts;
  }

  /** A forged frame changes neither the viewer's key nor its pending secret. */
  lemma ForgedIsRefused(k: ClientKeys, token: Token, w: R.Wire)
    requires Forged(w, token)
    ensures Dispatch(k, token, w).0 == k && !Dispatch(k, token, w).1.Ready?
    ensures w.AuthOk? ==> Dispatch(k, token, w).1.AuthFailed?
  {
  }

  lemma InjectChangesNothing(s: State, clientToken: Token, daemonToken: Token, w: R.Wire)
    ensures Step(s, clientToken, daemonToken, Inject(w)) == s
  {
    if Forged(w, clientToken) { ForgedIsRefused(s.client, clientToken, w); }
  }

  /** The i-th frame of the daemon is an answer made with the viewer's token, and the viewer's key comes
      from it and the viewer's own secret. */
  predicate KeyFrom(s: State, token: Token, i: nat) {
    && i < s.delivered <= |s.daemon.sink| && s.daemon.sink[i].AuthOk?
    && s.daemon.sink[i].mac == Mac(token, s.daemon.sink[i].pub)
    && s.client.key.Some? && s.client.key.value.shared == multiset{s.own, s.daemon.sink[i].pub.secret}
    && s.client.key.value.salt == [s.daemon.sink[i].pub, Pub(s.own)]
  }

  ghost predicate KeyIsGenuine(s: State, token: Token, ck: Option<Key>) {
    && s.delivered <= |s.daemon.sink|
    && (s.client.priv.Some? ==> s.proofAt.Some? && s.client.priv == Some(s.own) && s.client.key == ck)
    && (s.client.key == ck || (s.client.priv.None? && s.proofAt.Some? && exists i: nat :: KeyFrom(s, token, i)))
  }

  lemma GenuineStep(s: State, clientToken: Token, daemonToken: Token, ck: Option<Key>, a: Action)
    requires KeyIsGenuine(s, clientToken, ck)
    ensures KeyIsGenuine(Step(s, clientToken, daemonToken, a), clientToken, ck)
  {
    var s' := Step(s, clientToken, daemonToken, a);
    if a.Inject? {
      InjectChangesNothing(s, clientToken, daemonToken, a.wire);
    } else if Enabled(s, a) {
      match a
      case Acked(_) => assert s.client.key == ck;
      case Deliver => GenuineDeliver(s, clientToken, daemonToken, ck);
      case Take(drawn, replies) =>
        DaemonKeeps(s.daemon, R.Inbound(s.sent[s.taken], daemonToken, drawn, replies));
        GenuineStays(s, s', clientToken, ck);
      case _ => GenuineStays(s, s', clientToken, ck);
    }
  }

  lemma GenuineStays(s: State, s': State, token: Token, ck: Option<Key>)
    requires KeyIsGenuine(s, token, ck) && s.daemon.sink <= s'.daemon.sink
    requires s'.delivered == s.delivered && s'.client == s.client && s'.own == s.own && s'.proofAt == s.proofAt
    ensures KeyIsGenuine(s', token, ck)
  {
    if i: nat :| KeyFrom(s, token, i) { assert KeyFrom(s', token, i); }
  }

  lemma GenuineDeliver(s: State, clientToken: Token, daemonToken: Token, ck: Option<Key>)
    requires KeyIsGenuine(s, clientToken, ck) && s.delivered < |s.daemon.sink|
    ensures KeyIsGenuine(Step(s, clientToken, daemonToken, Deliver), clientToken, ck)
  {
    var s', w := Step(s, clientToken, daemonToken, Deliver), s.daemon.sink[s.delivered];
    if Forged(w, clientToken) {
      ForgedIsRefused(s.client, clientToken, w);
    }
    if s'.client == s.client {
      if i: nat :| KeyFrom(s, clientToken, i) { assert KeyFrom(s', clientToken, i); }
    } else {
      assert KeyFrom(s', clientToken, s.delivered);
    }
  }

  /** For every run, with equal tokens or not and whatever the relay injects: the viewer's key is the one
      left over, or comes from its own secret and an answer of the daemon made with the viewer's token. */
  lemma {:induction false} ViewerKeyIsGenuine(
      ck: Option<Key>, dk: Option<Key>, clientToken: Token, daemonToken: Token, acts: seq<Action>)
    ensures KeyIsGenuine(Exec(Start(ck, dk), clientToken, daemonToken, acts), clientToken, ck)
    decreases |acts|
  {
    if acts != [] {
      ViewerKeyIsGenuine(ck, dk, clientToken, daemonToken, acts[..|acts| - 1]);
      GenuineStep(Exec(Start(ck, dk), clientToken, daemonToken, acts[..|acts| - 1]), clientToken, daemonToken, ck,
                  acts[|acts| - 1]);
    }
  }
}
