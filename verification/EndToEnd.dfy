/** One session from the host to the screen, through every link at once: the host connection, the
    daemon's broadcast and relay loop, the relay's hub, the viewer's connection and its terminal. */
module EndToEnd {
  import opened Common
  import opened P = Protocol
  import opened Crypto
  import H = Hub
  import K = Handshake
  import M = HostMux
  import R = RelayClient
  import S = SessionStream
  import T = Terminal
  import V = Viewer

  // ---- The daemon's relay loop ----

  /** The messages the loop took from the broadcast. */
  function Taken(evs: seq<R.Event>): seq<DaemonMsg> {
    if evs == [] then []
    else
      var rest, e := Taken(evs[..|evs| - 1]), evs[|evs| - 1];
      if e.HostEvent? then rest + [e.msg] else rest
  }

  /** What frames sealed under `k` open to, in order. */
  function Opens(k: Key, ws: seq<R.Wire>): seq<DaemonMsg> {
    if ws == [] then []
    else
      var rest, w := Opens(k, ws[..|ws| - 1]), ws[|ws| - 1];
      if w.SealedFrame? && w.sealed.key == k then rest + [w.sealed.plaintext] else rest
  }

  /** No proof is accepted among the later events, and whatever the host answers carries ids. */
  predicate Steady(l: R.Loop, evs: seq<R.Event>) {
    evs == [] ||
    var pre, e := evs[..|evs| - 1], evs[|evs| - 1];
    && Steady(l, pre) && !R.AcceptsProof(R.Exec(l, pre).crypto, e)
    && (e.Inbound? ==> AllIds(e.replies))
  }

  predicate AllIds(ms: seq<DaemonMsg>) { forall i :: 0 <= i < |ms| ==> ReplyId(ms[i]).Some? }

  /** Neither a plain session frame nor an answer to a proof. */
  predicate Covered(w: R.Wire) { !w.Frame? && !w.AuthOk? }

  lemma OpensSnoc(k: Key, ws: seq<R.Wire>, w: R.Wire)
    ensures Opens(k, ws + [w])
            == Opens(k, ws) + if w.SealedFrame? && w.sealed.key == k then [w.sealed.plaintext] else []
  {
    assert (ws + [w])[..|ws|] == ws;
  }

  lemma {:induction false} OpensConcat(k: Key, a: seq<R.Wire>, b: seq<R.Wire>)
    ensures Opens(k, a + b) == Opens(k, a) + Opens(k, b)
    decreases |b|
  {
    if b == [] {
      assert a + b == a;
    } else {
      var init, w := b[..|b| - 1], b[|b| - 1];
      OpensConcat(k, a, init);
      OpensSnoc(k, init, w);
      OpensSnoc(k, a + init, w);
      assert b == init + [w];
      Assoc(a, init, [w]);
      Assoc(Opens(k, a), Opens(k, init), if w.SealedFrame? && w.sealed.key == k then [w.sealed.plaintext] else []);
    }
  }

  lemma {:induction false} OpensReplies(k: Key, ms: seq<DaemonMsg>)
    ensures Opens(k, R.WrappedAll(Some(k), ms)) == ms
    decreases |ms|
  {
    if ms != [] {
      OpensReplies(k, ms[..|ms| - 1]);
      OpensSnoc(k, R.WrappedAll(Some(k), ms[..|ms| - 1]), R.Wrapped(Some(k), ms[|ms| - 1]));
      assert ms == ms[..|ms| - 1] + [ms[|ms| - 1]];
    }
  }

  lemma OpensOne(k: Key, w: R.Wire)
    ensures Opens(k, [w]) == if w.SealedFrame? && w.sealed.key == k then [w.sealed.plaintext] else []
  {
    assert [w][..0] == [];
  }

  /** What a text adds to the sink when it is no accepted proof. */
  function Replied(text: R.Doc, replies: seq<DaemonMsg>, k: Key): seq<R.Wire> {
    if !text.Message? then [R.ErrorText("protocol_error")]
    else if text.msg.AuthProof? then [R.ErrorText("auth_failed")]
    else if text.msg.Ping? then [R.PongText]
    else R.WrappedAll(Some(k), replies)
  }

  lemma RepliedOpens(text: R.Doc, replies: seq<DaemonMsg>, k: Key)
    ensures forall i :: 0 <= i < |Replied(text, replies, k)| ==> Covered(Replied(text, replies, k)[i])
    ensures Opens(k, Replied(text, replies, k)) == [] || Opens(k, Replied(text, replies, k)) == replies
  {
    if text.Message? && !text.msg.AuthProof? && !text.msg.Ping? {
      OpensReplies(k, replies);
    } else {
      OpensOne(k, Replied(text, replies, k)[0]);
    }
  }

  lemma TextStep(l: R.Loop, text: R.Doc, token: Token, drawn: Secret, replies: seq<DaemonMsg>, k: Key)
    requires l.crypto == Some(k) && R.Proven(text, token, drawn).None?
    ensures R.OnText(l, text, token, drawn, replies).sink == l.sink + Replied(text, replies, k)
    ensures R.OnText(l, text, token, drawn, replies).crypto == Some(k)
  {
  }

  lemma InboundStep(l: R.Loop, e: R.Event, k: Key) returns (more: seq<R.Wire>)
    requires l.crypto == Some(k) && e.Inbound? && !R.AcceptsProof(l.crypto, e)
    ensures R.Step(l, e).sink == l.sink + more && R.Step(l, e).crypto == Some(k)
    ensures forall i :: 0 <= i < |more| ==> Covered(more[i])
    ensures Opens(k, more) == [] || Opens(k, more) == e.replies
  {
    var text := R.Admitted(l.crypto, e.doc);
    if text.Some? {
      more := Replied(text.value, e.replies, k);
      TextStep(l, text.value, e.token, e.drawn, e.replies, k);
      RepliedOpens(text.value, e.replies, k);
    } else {
      more := [];
    }
  }

  /** What one event adds to the sink under a key that stays. */
  lemma SinkStep(l: R.Loop, e: R.Event, k: Key) returns (more: seq<R.Wire>)
    requires l.crypto == Some(k) && !R.AcceptsProof(l.crypto, e)
    ensures R.Step(l, e).sink == l.sink + more && R.Step(l, e).crypto == Some(k)
    ensures forall i :: 0 <= i < |more| ==> Covered(more[i])
    ensures if e.HostEvent? then Opens(k, more) == [e.msg]
            else Opens(k, more) == [] || (e.Inbound? && Opens(k, more) == e.replies)
  {
    if e.Inbound? {
      more := InboundStep(l, e, k);
    } else if e.AuthTick? {
      more := [];
    } else {
      more := [if e.HostEvent? then R.Wrapped(Some(k), e.msg) else R.WsPing];
      OpensOne(k, more[0]);
    }
  }

  lemma MineSnoc(fs: seq<DaemonMsg>, f: DaemonMsg, me: Sid)
    ensures S.Mine(fs + [f], me) == S.Mine(fs, me) + if S.OfSession(f, me) then [f] else []
  {
    assert (fs + [f])[..|fs|] == fs;
  }

  lemma {:induction false} MineConcat(a: seq<DaemonMsg>, b: seq<DaemonMsg>, me: Sid)
    ensures S.Mine(a + b, me) == S.Mine(a, me) + S.Mine(b, me)
    decreases |b|
  {
    if b == [] {
      assert a + b == a;
    } else {
      var init, f := b[..|b| - 1], b[|b| - 1];
      MineConcat(a, init, me);
      MineSnoc(init, f, me);
      MineSnoc(a + init, f, me);
      assert b == init + [f];
      Assoc(a, init, [f]);
      Assoc(S.Mine(a, me), S.Mine(init, me), if S.OfSession(f, me) then [f] else []);
    }
  }

  lemma {:induction false} RepliesAreNotMine(ms: seq<DaemonMsg>, me: Sid)
    requires AllIds(ms)
    ensures S.Mine(ms, me) == []
    decreases |ms|
  {
    if ms != [] {
      RepliesAreNotMine(ms[..|ms| - 1], me);
      assert ReplyId(ms[|ms| - 1]).Some?;
    }
  }

  /** Under a key that stays, what the loop sends opens to exactly the session's messages it took
      from the broadcast, in order, among others; nothing else of the session goes out. */
  lemma {:induction false} SinkCarriesSession(l: R.Loop, evs: seq<R.Event>, k: Key, me: Sid) returns (more: seq<R.Wire>)
    requires l.crypto == Some(k) && Steady(l, evs)
    ensures R.Exec(l, evs).sink == l.sink + more && R.Exec(l, evs).crypto == Some(k)
    ensures forall i :: 0 <= i < |more| ==> Covered(more[i])
    ensures S.Mine(Opens(k, more), me) == S.Mine(Taken(evs), me)
    decreases |evs|
  {
    if evs == [] {
      more := [];
    } else {
      var pre, e := evs[..|evs| - 1], evs[|evs| - 1];
      var before := SinkCarriesSession(l, pre, k, me);
      var added := SinkStep(R.Exec(l, pre), e, k);
      more := before + added;
      Assoc(l.sink, before, added);
      OpensConcat(k, before, added);
      MineConcat(Opens(k, before), Opens(k, added), me);
      if e.HostEvent? {
        MineSnoc(Taken(pre), e.msg, me);
        MineSnoc([], e.msg, me);
        assert [] + [e.msg] == [e.msg];
      } else if Opens(k, added) != [] {
        RepliesAreNotMine(e.replies, me);
      }
    }
  }

  // ---- The viewer's connection ----

  /** The frames a viewer's run received, and the messages it heard in them. */
  function ReceivedIn(acts: seq<V.Action>): seq<R.Wire> {
    if acts == [] then [] else ReceivedIn(acts[..|acts| - 1]) + WireOf(acts[|acts| - 1])
  }

  function WireOf(a: V.Action): seq<R.Wire> { if a.Receive? then [a.wire] else [] }

  function HeardIn(token: Token, before: seq<V.Action>, acts: seq<V.Action>): seq<DaemonMsg> {
    if acts == [] then []
    else
      var pre := acts[..|acts| - 1];
      HeardIn(token, before, pre) + HeardOf(V.Exec(token, before + pre).keys, token, acts[|acts| - 1])
  }

  function HeardOf(k: ClientKeys, token: Token, a: V.Action): seq<DaemonMsg> {
    if a.Receive? && V.Heard(k, token, a.wire).Some? then [V.Heard(k, token, a.wire).value] else []
  }

  /** What reaches the viewer in the clear leaves its key and its sessions alone. */
  predicate Harmless(w: R.Wire) { !w.AuthOk? && (w.Frame? ==> w.msg.HelloAck?) }

  predicate AllHarmless(ws: seq<R.Wire>) { forall i :: 0 <= i < |ws| ==> Harmless(ws[i]) }

  lemma KeyHeld(v: V.Conn, token: Token, a: V.Action, k: Key)
    requires v.keys.key == Some(k) && AllHarmless(WireOf(a))
    ensures V.Step(v, token, a).keys.key == Some(k)
    ensures HeardOf(v.keys, token, a) ==
            (if a.Receive? && a.wire.SealedFrame? && a.wire.sealed.key == k then [a.wire.sealed.plaintext]
             else if a.Receive? && a.wire.Frame? then [a.wire.msg] else [])
  {
    assert a.Receive? ==> Harmless(WireOf(a)[0]);
  }

  /** One action adds to what was heard of the session what its frame opens to. */
  lemma HearStep(v: V.Conn, token: Token, a: V.Action, k: Key, heard: seq<DaemonMsg>, ws: seq<R.Wire>, me: Sid)
    requires v.keys.key == Some(k) && AllHarmless(WireOf(a))
    requires S.Mine(heard, me) == S.Mine(Opens(k, ws), me)
    ensures S.Mine(heard + HeardOf(v.keys, token, a), me) == S.Mine(Opens(k, ws + WireOf(a)), me)
  {
    KeyHeld(v, token, a, k);
    MineConcat(heard, HeardOf(v.keys, token, a), me);
    OpensConcat(k, ws, WireOf(a));
    MineConcat(Opens(k, ws), Opens(k, WireOf(a)), me);
    if a.Receive? {
      OpensOne(k, a.wire);
      assert Harmless(WireOf(a)[0]);
      if a.wire.Frame? { MineOne(a.wire.msg, me); }
    }
  }

  lemma MineOne(f: DaemonMsg, me: Sid)
    ensures S.Mine([f], me) == if S.OfSession(f, me) then [f] else []
  {
    assert [f][..0] == [];
  }

  lemma HarmlessParts(a: seq<R.Wire>, b: seq<R.Wire>)
    requires AllHarmless(a + b)
    ensures AllHarmless(a) && AllHarmless(b)
  {
    forall i | 0 <= i < |a| ensures Harmless(a[i]) { assert (a + b)[i] == a[i]; }
    forall i | 0 <= i < |b| ensures Harmless(b[i]) { assert (a + b)[|a| + i] == b[i]; }
  }

  /** A viewer that holds the key hears of a session what the frames open to, whatever it does in
      between. */
  lemma {:induction false} ViewerHears(token: Token, before: seq<V.Action>, acts: seq<V.Action>, k: Key, me: Sid)
    requires V.Exec(token, before).keys.key == Some(k) && AllHarmless(ReceivedIn(acts))
    ensures S.Mine(HeardIn(token, before, acts), me) == S.Mine(Opens(k, ReceivedIn(acts)), me)
    ensures V.Exec(token, before + acts).keys.key == Some(k)
    decreases |acts|
  {
    if acts == [] {
      assert before + acts == before;
    } else {
      var pre, a := acts[..|acts| - 1], acts[|acts| - 1];
      ActsSnoc(token, before, acts);
      HarmlessParts(ReceivedIn(pre), WireOf(a));
      ViewerHears(token, before, pre, k, me);
      var v := V.Exec(token, before + pre);
      KeyHeld(v, token, a, k);
      HearStep(v, token, a, k, HeardIn(token, before, pre), ReceivedIn(pre), me);
    }
  }

  lemma ActsSnoc(token: Token, before: seq<V.Action>, acts: seq<V.Action>)
    requires acts != []
    ensures var pre, a := acts[..|acts| - 1], acts[|acts| - 1];
            var v := V.Exec(token, before + pre);
            && HeardIn(token, before, acts) == HeardIn(token, before, pre) + HeardOf(v.keys, token, a)
            && ReceivedIn(acts) == ReceivedIn(pre) + WireOf(a)
            && V.Exec(token, before + acts) == V.Step(v, token, a)
  {
    assert (before + acts)[..|before + acts| - 1] == before + acts[..|acts| - 1];
  }

  // ---- The relay ----

  /** The frames that reach the relay as payloads: not its own control frames. */
  function Texts(ws: seq<R.Wire>): seq<R.Wire> {
    if ws == [] then []
    else
      var rest, w := Texts(ws[..|ws| - 1]), ws[|ws| - 1];
      if w.WsPing? || w.KickRequest? then rest else rest + [w]
  }

  lemma {:induction false} OpensTexts(k: Key, ws: seq<R.Wire>)
    ensures Opens(k, Texts(ws)) == Opens(k, ws)
    decreases |ws|
  {
    if ws != [] {
      OpensTexts(k, ws[..|ws| - 1]);
      OpensSnoc(k, Texts(ws[..|ws| - 1]), ws[|ws| - 1]);
    }
  }

  /** Frames as the daemon's connection `d` hands them to the hub, `enc` being their text. */
  function Sent(d: H.ConnId, enc: R.Wire -> Bytes, ws: seq<R.Wire>): seq<H.Msg> {
    seq(|ws|, i requires 0 <= i < |ws| => H.Payload(d, enc(ws[i])))
  }

  /** A viewer that decodes what the relay gave it receives a prefix of the daemon's frames, and all
      of them unless it was shut down. */
  lemma PipeCarriesFrames(relayKey: string, acts: seq<H.Action>, c: H.ConnId, d: H.ConnId, enc: R.Wire -> Bytes,
                          earlier: seq<H.Msg>, ws: seq<R.Wire>) returns (n: nat)
    requires c in H.Exec(relayKey, acts).conns
    requires H.Forwarded(relayKey, acts, c) == earlier + Sent(d, enc, ws)
    requires |earlier| <= |H.Payloads(H.All(H.Exec(relayKey, acts).conns[c]))|
    ensures n <= |ws|
    ensures H.Payloads(H.All(H.Exec(relayKey, acts).conns[c])) == earlier + Sent(d, enc, ws[..n])
    ensures !H.Exec(relayKey, acts).conns[c].closed ==> n == |ws|
  {
    H.FifoPipe(relayKey, acts, c);
    var got, all := H.Payloads(H.All(H.Exec(relayKey, acts).conns[c])), H.Forwarded(relayKey, acts, c);
    n := |got| - |earlier|;
    assert got == all[..|got|] == earlier + Sent(d, enc, ws)[..n];
    assert Sent(d, enc, ws)[..n] == Sent(d, enc, ws[..n]);
  }

  // ---- Back to the host's wire ----

  /** A shortest part of the wire that holds the given messages of the session. */
  lemma {:induction false} PartWith(wire: seq<DaemonMsg>, me: Sid, part: seq<DaemonMsg>) returns (j: nat)
    requires part <= S.Mine(wire, me)
    ensures j <= |wire| && S.Mine(wire[..j], me) == part
    ensures part != [] ==> j > 0 && S.OfSession(wire[j - 1], me)
    decreases |wire|
  {
    var n := |wire|;
    if part == [] {
      j := 0;
    } else if part == S.Mine(wire, me) && S.OfSession(wire[n - 1], me) {
      j := n;
      assert wire[..n] == wire;
    } else {
      assert part <= S.Mine(wire[..n - 1], me);
      j := PartWith(wire[..n - 1], me, part);
      assert wire[..n - 1][..j] == wire[..j];
    }
  }

  /** Where a message of the session stands on the wire, and what is left of the session after it. */
  lemma FirstPlace(wire: seq<DaemonMsg>, me: Sid, a: seq<DaemonMsg>, x: DaemonMsg, b: seq<DaemonMsg>)
      returns (i: nat)
    requires a + [x] + b <= S.Mine(wire, me)
    ensures i < |wire| && wire[i] == x && b <= S.Mine(wire[i + 1..], me)
  {
    assert (a + [x] + b)[..|a| + 1] == a + [x];
    var first := PartWith(wire, me, a + [x]);
    i := first - 1;
    LastPlace(wire[..first], me, a, x);
    assert wire == wire[..first] + wire[first..];
    MineConcat(wire[..first], wire[first..], me);
    EndIsPrefix(a + [x], b, S.Mine(wire[first..], me));
  }

  lemma LastPlace(part: seq<DaemonMsg>, me: Sid, a: seq<DaemonMsg>, x: DaemonMsg)
    requires part != [] && S.Mine(part, me) == a + [x] && S.OfSession(part[|part| - 1], me)
    ensures part[|part| - 1] == x
  {
    var n := |part| - 1;
    assert part == part[..n] + [part[n]];
    MineSnoc(part[..n], part[n], me);
    assert (a + [x])[|a|] == x;
  }

  /** Where a message of the session and those after it stand on the wire. */
  lemma PlaceOnWire(wire: seq<DaemonMsg>, me: Sid, a: seq<DaemonMsg>, x: DaemonMsg, b: seq<DaemonMsg>)
      returns (i: nat, j: nat)
    requires a + [x] + b <= S.Mine(wire, me)
    ensures i < j <= |wire| && wire[i] == x && S.Mine(wire[i + 1..j], me) == b
  {
    i := FirstPlace(wire, me, a, x, b);
    var n := PartWith(wire[i + 1..], me, b);
    j := i + 1 + n;
    assert wire[i + 1..j] == wire[i + 1..][..n];
  }

  lemma EndIsPrefix(a: seq<DaemonMsg>, b: seq<DaemonMsg>, rest: seq<DaemonMsg>)
    requires a + b <= a + rest
    ensures b <= rest
  {
    assert b == (a + b)[|a|..] && rest == (a + rest)[|a|..];
    assert (a + b)[|a|..] == (a + rest)[..|a + b|][|a|..];
  }

  /** What the relay hands a viewer, as the viewer reads it: payloads, and frames of the relay's own.
      Presence goes to a handler of its own. */
  function FromRelay(dec: Bytes -> R.Wire, ms: seq<H.Msg>): seq<R.Wire> {
    if ms == [] then []
    else
      var rest := FromRelay(dec, ms[..|ms| - 1]);
      match ms[|ms| - 1]
      case Payload(_, raw) => rest + [dec(raw)]
      case HelloAck(dev) => rest + [R.Frame(P.HelloAck(dev))]
      case Error(code) => rest + [R.ErrorText(code)]
      case Pong => rest + [R.PongText]
      case Presence(_, _) => rest
  }

  function Decoded(dec: Bytes -> R.Wire, ms: seq<H.Msg>): seq<R.Wire> {
    seq(|ms|, i requires 0 <= i < |ms| => if ms[i].Payload? then dec(ms[i].raw) else R.WsPing)
  }

  lemma DecodedSnoc(dec: Bytes -> R.Wire, ms: seq<H.Msg>, m: H.Msg)
    ensures Decoded(dec, ms + [m]) == Decoded(dec, ms) + [if m.Payload? then dec(m.raw) else R.WsPing]
  {
  }

  /** Only payloads open to anything. */
  lemma {:induction false} PayloadsOpen(dec: Bytes -> R.Wire, ms: seq<H.Msg>, k: Key)
    ensures Opens(k, FromRelay(dec, ms)) == Opens(k, Decoded(dec, H.Payloads(ms)))
    decreases |ms|
  {
    if ms != [] {
      var pre, m := ms[..|ms| - 1], ms[|ms| - 1];
      PayloadsOpen(dec, pre, k);
      match m
      case Payload(_, raw) =>
        DecodedSnoc(dec, H.Payloads(pre), m);
        OpensSnoc(k, FromRelay(dec, pre), dec(raw));
        OpensSnoc(k, Decoded(dec, H.Payloads(pre)), dec(raw));
      case HelloAck(dev) => OpensSnoc(k, FromRelay(dec, pre), R.Frame(P.HelloAck(dev)));
      case Error(code) => OpensSnoc(k, FromRelay(dec, pre), R.ErrorText(code));
      case Pong => OpensSnoc(k, FromRelay(dec, pre), R.PongText);
      case Presence(_, _) =>
    }
  }

  lemma {:induction false} RelayIsHarmless(dec: Bytes -> R.Wire, ms: seq<H.Msg>)
    requires forall w :: w in Decoded(dec, H.Payloads(ms)) ==> Harmless(w)
    ensures forall i :: 0 <= i < |FromRelay(dec, ms)| ==> Harmless(FromRelay(dec, ms)[i])
    decreases |ms|
  {
    if ms != [] {
      var pre, m := ms[..|ms| - 1], ms[|ms| - 1];
      if m.Payload? {
        DecodedSnoc(dec, H.Payloads(pre), m);
        var all := Decoded(dec, H.Payloads(ms));
        assert all[|all| - 1] == dec(m.raw);
        forall w | w in Decoded(dec, H.Payloads(pre)) ensures Harmless(w) { assert w in all; }
      }
      RelayIsHarmless(dec, pre);
    }
  }

  lemma {:induction false} PayloadsConcat(a: seq<H.Msg>, b: seq<H.Msg>)
    ensures H.Payloads(a + b) == H.Payloads(a) + H.Payloads(b)
    decreases |b|
  {
    if b == [] {
      assert a + b == a;
    } else {
      var init, m := b[..|b| - 1], b[|b| - 1];
      PayloadsConcat(a, init);
      H.PayloadsSnoc(init, m);
      H.PayloadsSnoc(a + init, m);
      assert b == init + [m];
      Assoc(a, init, [m]);
      Assoc(H.Payloads(a), H.Payloads(init), if m.Payload? then [m] else []);
    }
  }

  // ---- All links at once ----

  /** One run of each link. `shake` is a run of the handshake, from any keys left over, up to some
      moment after its proof was accepted; `after` is what the daemon's loop does from then on.
      `seen` is what the viewer did up to and including the frames in flight at that moment,
      `viewing` what it does from then on. `d` and `c` are the daemon's and the viewer's connections
      at the relay; of everything queued to `c` the first `read` messages were read in `seen`. */
  datatype Links = Links(
    me: Sid, host: seq<S.Action>, mux: seq<M.Action>, from: nat,
    clientKey: Option<Key>, daemonKey: Option<Key>, token: Token, shake: seq<K.Action>, after: seq<R.Event>,
    relayKey: string, relay: seq<H.Action>, c: H.ConnId, d: H.ConnId, read: nat,
    seen: seq<V.Action>, viewing: seq<V.Action>)

  function Wire(x: Links): seq<DaemonMsg> { S.Exec(x.me, x.host).wire }

  function Broadcast(x: Links): seq<DaemonMsg> { M.Exec(x.mux).client.broadcast }

  function Shaken(x: Links): K.State { K.Exec(K.Start(x.clientKey, x.daemonKey), x.token, x.token, x.shake) }

  function Heard(x: Links): seq<DaemonMsg> { HeardIn(x.token, x.seen, x.viewing) }

  function Queued(x: Links): seq<H.Msg>
    requires x.c in H.Exec(x.relayKey, x.relay).conns
  {
    H.All(H.Exec(x.relayKey, x.relay).conns[x.c])
  }

  /** No proof is accepted, and every answer is one that `request` returned. */
  predicate Unproven(l: R.Loop, evs: seq<R.Event>, results: seq<seq<DaemonMsg>>) {
    evs == [] ||
    var pre, e := evs[..|evs| - 1], evs[|evs| - 1];
    && Unproven(l, pre, results) && !R.AcceptsProof(R.Exec(l, pre).crypto, e)
    && (e.Inbound? ==> e.replies == [] || e.replies in results)
  }

  /** The daemon's ends agree: the host connection carries what the host wrote, and the loop, its
      proof accepted and no other accepted since, takes a stretch of the broadcast in order. */
  ghost predicate DaemonJoined(x: Links) {
    && M.Pushed(M.Exec(x.mux).written) == Wire(x)
    && x.from + |Taken(x.after)| <= |Broadcast(x)|
    && Taken(x.after) == Broadcast(x)[x.from..x.from + |Taken(x.after)|]
    && Shaken(x).okAt.Some?
    && Unproven(Shaken(x).daemon, x.after, M.Exec(x.mux).results)
  }

  /** The viewer's ends agree: the relay is handed the frames the loop sends from that moment on; the
      viewer has consumed what was in flight before, and has since received some of what the relay
      queued to it. */
  ghost predicate ViewerJoined(x: Links, enc: R.Wire -> Bytes, dec: Bytes -> R.Wire) {
    && x.c in H.Exec(x.relayKey, x.relay).conns
    && x.read <= |Queued(x)|
    && (exists more :: LoopSends(x, more)
                       && H.Forwarded(x.relayKey, x.relay, x.c)
                          == H.Payloads(Queued(x)[..x.read]) + Sent(x.d, enc, Texts(more)))
    && Shaken(x).delivered <= |Shaken(x).daemon.sink|
    && V.Exec(x.token, x.seen).keys
       == K.Consume(Shaken(x).client, x.token, Shaken(x).daemon.sink[Shaken(x).delivered..])
    && ReceivedIn(x.viewing) <= FromRelay(dec, Queued(x)[x.read..])
  }

  predicate LoopSends(x: Links, more: seq<R.Wire>) {
    R.Exec(Shaken(x).daemon, x.after).sink == Shaken(x).daemon.sink + more
  }

  lemma ResultsHaveIds(acts: seq<M.Action>, ms: seq<DaemonMsg>)
    requires ms in M.Exec(acts).results
    ensures AllIds(ms)
  {
    var k: nat :| k < |M.Exec(acts).results| && M.Exec(acts).results[k] == ms;
    M.RequestsGetTheirOwnReplies(acts, k);
  }

  lemma {:induction false} UnprovenIsSteady(l: R.Loop, evs: seq<R.Event>, mux: seq<M.Action>)
    requires Unproven(l, evs, M.Exec(mux).results)
    ensures Steady(l, evs)
    decreases |evs|
  {
    if evs != [] {
      var e := evs[|evs| - 1];
      UnprovenIsSteady(l, evs[..|evs| - 1], mux);
      if e.Inbound? && e.replies != [] { ResultsHaveIds(mux, e.replies); }
    }
  }

  lemma DecodedSent(d: H.ConnId, enc: R.Wire -> Bytes, dec: Bytes -> R.Wire, ws: seq<R.Wire>)
    requires forall w :: dec(enc(w)) == w
    ensures Decoded(dec, Sent(d, enc, ws)) == ws
  {
  }

  lemma OpensPrefix(k: Key, a: seq<R.Wire>, all: seq<R.Wire>, me: Sid)
    requires a <= all
    ensures S.Mine(Opens(k, a), me) <= S.Mine(Opens(k, all), me)
  {
    assert all == a + all[|a|..];
    OpensConcat(k, a, all[|a|..]);
    MineConcat(Opens(k, a), Opens(k, all[|a|..]), me);
  }

  /** What a message of the session's part is. */
  lemma {:induction false} MineHolds(fs: seq<DaemonMsg>, me: Sid, f: DaemonMsg)
    ensures f in S.Mine(fs, me) <==> f in fs && S.OfSession(f, me)
    decreases |fs|
  {
    if fs != [] {
      MineHolds(fs[..|fs| - 1], me, f);
      assert fs == fs[..|fs| - 1] + [fs[|fs| - 1]];
    }
  }

  /** The handshake has left both ends with one key. */
  lemma OneKey(x: Links) returns (k: Key)
    requires Shaken(x).okAt.Some?
    requires Shaken(x).delivered <= |Shaken(x).daemon.sink|
    requires V.Exec(x.token, x.seen).keys
             == K.Consume(Shaken(x).client, x.token, Shaken(x).daemon.sink[Shaken(x).delivered..])
    ensures Shaken(x).daemon.crypto == Some(k) && V.Exec(x.token, x.seen).keys.key == Some(k)
  {
    K.KeyAgreement(x.clientKey, x.daemonKey, x.token, x.shake);
    k := Shaken(x).daemon.crypto.value;
  }

  /** Of the loop's frames, those the relay has queued to the viewer. */
  lemma FramesQueued(x: Links, enc: R.Wire -> Bytes, dec: Bytes -> R.Wire, more: seq<R.Wire>) returns (n: nat)
    requires forall w :: dec(enc(w)) == w
    requires x.c in H.Exec(x.relayKey, x.relay).conns && x.read <= |Queued(x)|
    requires H.Forwarded(x.relayKey, x.relay, x.c)
             == H.Payloads(Queued(x)[..x.read]) + Sent(x.d, enc, Texts(more))
    ensures n <= |Texts(more)| && Decoded(dec, H.Payloads(Queued(x)[x.read..])) == Texts(more)[..n]
  {
    var earlier, later := H.Payloads(Queued(x)[..x.read]), H.Payloads(Queued(x)[x.read..]);
    assert Queued(x) == Queued(x)[..x.read] + Queued(x)[x.read..];
    PayloadsConcat(Queued(x)[..x.read], Queued(x)[x.read..]);
    n := PipeCarriesFrames(x.relayKey, x.relay, x.c, x.d, enc, earlier, Texts(more));
    SameTail(earlier, later, Sent(x.d, enc, Texts(more)[..n]));
    DecodedSent(x.d, enc, dec, Texts(more)[..n]);
  }

  lemma SameTail<A>(s: seq<A>, a: seq<A>, b: seq<A>)
    requires s + a == s + b
    ensures a == b
  {
    assert a == (s + a)[|s|..] && b == (s + b)[|s|..];
  }

  /** What the viewer received opens to a beginning of what the loop sent, and is otherwise harmless. */
  lemma ReceivedOpens(received: seq<R.Wire>, dec: Bytes -> R.Wire, queued: seq<H.Msg>, more: seq<R.Wire>, n: nat,
                      k: Key, me: Sid)
    requires received <= FromRelay(dec, queued) && n <= |Texts(more)|
    requires Decoded(dec, H.Payloads(queued)) == Texts(more)[..n]
    requires forall i :: 0 <= i < |more| ==> Covered(more[i])
    ensures S.Mine(Opens(k, received), me) <= S.Mine(Opens(k, more), me)
    ensures AllHarmless(received)
  {
    OpensTexts(k, more);
    forall w | w in Texts(more)[..n] ensures Harmless(w) { TextIsCovered(more, w); }
    RelayIsHarmless(dec, queued);
    PayloadsOpen(dec, queued, k);
    OpensPrefix(k, received, FromRelay(dec, queued), me);
    OpensPrefix(k, Texts(more)[..n], Texts(more), me);
  }

  lemma TextIsCovered(more: seq<R.Wire>, w: R.Wire)
    requires w in Texts(more) && forall i :: 0 <= i < |more| ==> Covered(more[i])
    ensures Covered(w)
  {
    TextsAreSent(more, w);
  }

  lemma {:induction false} TextsAreSent(ws: seq<R.Wire>, w: R.Wire)
    requires w in Texts(ws)
    ensures w in ws
    decreases |ws|
  {
    if w !in Texts(ws[..|ws| - 1]) { assert w == ws[|ws| - 1]; } else { TextsAreSent(ws[..|ws| - 1], w); }
  }

  /** What the viewer heard of the session is a prefix of what the loop took from the broadcast. */
  lemma HeardIsTaken(x: Links, enc: R.Wire -> Bytes, dec: Bytes -> R.Wire)
    requires forall w :: dec(enc(w)) == w
    requires DaemonJoined(x) && ViewerJoined(x, enc, dec)
    ensures S.Mine(Heard(x), x.me) <= S.Mine(Taken(x.after), x.me)
  {
    var k := OneKey(x);
    UnprovenIsSteady(Shaken(x).daemon, x.after, x.mux);
    var more := SinkCarriesSession(Shaken(x).daemon, x.after, k, x.me);
    var same :| LoopSends(x, same)
                && H.Forwarded(x.relayKey, x.relay, x.c)
                   == H.Payloads(Queued(x)[..x.read]) + Sent(x.d, enc, Texts(same));
    SameTail(Shaken(x).daemon.sink, more, same);
    var n := FramesQueued(x, enc, dec, more);
    ReceivedOpens(ReceivedIn(x.viewing), dec, Queued(x)[x.read..], more, n, k, x.me);
    ViewerHears(x.token, x.seen, x.viewing, k, x.me);
  }

  /** The loop took a stretch of the host's wire. */
  lemma TakenIsWire(x: Links)
    requires DaemonJoined(x)
    ensures x.from + |Taken(x.after)| <= |Wire(x)|
    ensures Taken(x.after) == Wire(x)[x.from..x.from + |Taken(x.after)|]
  {
    M.BroadcastIsWireOrder(x.mux);
    var n := x.from + |Taken(x.after)|;
    assert Broadcast(x) == Wire(x)[..|Broadcast(x)|];
    assert Broadcast(x)[x.from..n] == Wire(x)[x.from..n];
  }

  /** End to end, on an established connection, for every run of every link: from any snapshot the
      viewer hears on, whatever it showed before and wherever its terminals are mounted, its screen
      is the host's text without a gap. That snapshot is one the host wrote, at place i; q is its
      number and m the chunks pushed when it was taken, m = q or q + 1. The screen is the ring's window
      over chunks 1..m and then chunks q+1..n, n being the last chunk that reached the viewer. */
  lemma SessionEndToEnd(x: Links, enc: R.Wire -> Bytes, dec: Bytes -> R.Wire, p: nat, a: T.App, evs: seq<T.Event>)
      returns (i: nat, j: nat)
    requires forall w :: dec(enc(w)) == w
    requires DaemonJoined(x) && ViewerJoined(x, enc, dec)
    requires p < |Heard(x)| && Heard(x)[p].Snapshot? && Heard(x)[p].sid == x.me
    requires forall k :: p < k < |Heard(x)| ==> !(Heard(x)[k].Snapshot? && Heard(x)[k].sid == x.me)
    requires S.Frames(evs) == Heard(x)[p + 1..]
    ensures i < j <= |Wire(x)| && Wire(x)[i] == Heard(x)[p]
    ensures var s := S.Exec(x.me, x.host);
            S.Seamless(s, x.me, i, S.Shown(s, x.me, i, j), T.Run(T.Handle(a, T.Recv(Heard(x)[p])), evs))
  {
    HeardIsTaken(x, enc, dec);
    TakenIsWire(x);
    i, j := PlaceHeard(Wire(x), x.from, Taken(x.after), Heard(x), p, x.me);
    ScreenHeard(x.me, x.host, Heard(x)[p], i, j, a, evs, Heard(x)[p + 1..]);
  }

  lemma ScreenHeard(me: Sid, host: seq<S.Action>, first: DaemonMsg, i: nat, j: nat, a: T.App, evs: seq<T.Event>,
                    rest: seq<DaemonMsg>)
    requires i < j <= |S.Exec(me, host).wire| && S.Exec(me, host).wire[i] == first
    requires first.Snapshot? && first.sid == me && S.Frames(evs) == rest
    requires S.Mine(S.Exec(me, host).wire[i + 1..j], me) == S.Mine(rest, me)
    requires forall k :: i < k < j ==> !(S.Exec(me, host).wire[k].Snapshot? && S.Exec(me, host).wire[k].sid == me)
    ensures var s := S.Exec(me, host);
            S.Seamless(s, me, i, S.Shown(s, me, i, j), T.Run(T.Handle(a, T.Recv(first)), evs))
  {
    S.ScreenFromSnapshot(me, host, i, j, a, evs);
  }

  /** A snapshot heard, and what was heard after it, in their place on the wire. */
  lemma PlaceHeard(wire: seq<DaemonMsg>, from: nat, taken: seq<DaemonMsg>, heard: seq<DaemonMsg>, p: nat, me: Sid)
      returns (i: nat, j: nat)
    requires from + |taken| <= |wire| && taken == wire[from..from + |taken|]
    requires S.Mine(heard, me) <= S.Mine(taken, me)
    requires p < |heard| && S.OfSession(heard[p], me)
    requires forall k :: p < k < |heard| ==> !(heard[k].Snapshot? && heard[k].sid == me)
    ensures i < j <= |wire| && wire[i] == heard[p] && S.Mine(wire[i + 1..j], me) == S.Mine(heard[p + 1..], me)
    ensures forall k :: i < k < j ==> !(wire[k].Snapshot? && wire[k].sid == me)
  {
    HeardInParts(heard, p, me);
    var i0, j0 := PlaceOnWire(taken, me, S.Mine(heard[..p], me), heard[p], S.Mine(heard[p + 1..], me));
    i, j := from + i0, from + j0;
    assert taken[i0 + 1..j0] == wire[i + 1..j];
    NoLaterSnapshot(wire[i + 1..j], heard[p + 1..], me);
    forall k | i < k < j ensures !(wire[k].Snapshot? && wire[k].sid == me) {
      assert wire[k] == wire[i + 1..j][k - i - 1];
    }
  }

  lemma NoLaterSnapshot(fs: seq<DaemonMsg>, post: seq<DaemonMsg>, me: Sid)
    requires S.Mine(fs, me) == S.Mine(post, me)
    requires forall k :: 0 <= k < |post| ==> !(post[k].Snapshot? && post[k].sid == me)
    ensures forall k :: 0 <= k < |fs| ==> !(fs[k].Snapshot? && fs[k].sid == me)
  {
    forall k | 0 <= k < |fs| ensures !(fs[k].Snapshot? && fs[k].sid == me) {
      MineHolds(fs, me, fs[k]);
      MineHolds(post, me, fs[k]);
    }
  }

  lemma HeardInParts(heard: seq<DaemonMsg>, p: nat, me: Sid)
    requires p < |heard| && S.OfSession(heard[p], me)
    ensures S.Mine(heard, me) == S.Mine(heard[..p], me) + [heard[p]] + S.Mine(heard[p + 1..], me)
  {
    assert heard == heard[..p] + [heard[p]] + heard[p + 1..];
    MineConcat(heard[..p] + [heard[p]], heard[p + 1..], me);
    MineSnoc(heard[..p], heard[p], me);
  }
}
