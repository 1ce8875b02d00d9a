/** What the browser's connection hands to its socket (web/src/lib/daemon.ts), told by what the page
    asked of it and what it received. */
module ViewerSends {
  import opened Common
  import opened Crypto
  import opened Protocol
  import R = RelayClient
  import opened V = Viewer

  /** A message to be sent, and the key held at that moment. */
  datatype Saying = Saying(msg: ClientMsg, key: Option<Key>)

  /** The answer completes the pending proof under the viewer's token. */
  predicate Completes(k: ClientKeys, token: Token, w: R.Wire) {
    w.AuthOk? && w.mac == Mac(token, w.pub) && k.priv.Some?
  }

  /** The socket may send: opened, and neither lost, replaced nor given up for a bad answer since. */
  predicate IsOpen(token: Token, acts: seq<Action>) {
    acts != [] &&
    var pre, a := acts[..|acts| - 1], acts[|acts| - 1];
    match a
    case Opened(_) => true
    case Lost => false
    case Replaced => false
    case Receive(w, _) => IsOpen(token, pre) && (w.AuthOk? ==> Completes(KeysOf(token, pre), token, w))
    case _ => IsOpen(token, pre)
  }

  /** The relay's or the daemon's greeting, heard by a viewer with a token: it answers with a proof. */
  predicate Greeted(k: ClientKeys, token: Token, w: R.Wire) {
    token != "" && Heard(k, token, w).Some? && Heard(k, token, w).value.HelloAck?
  }

  /** What one action has to say on an open socket; `n` requests were made before. */
  function Says(k: ClientKeys, token: Token, a: Action, n: nat): seq<ClientMsg> {
    match a
    case Opened(hello) => [hello]
    case KeepAlive => [Ping]
    case Request(ask) => [WithId(ask, n + 1)]
    case Send(m) => [m]
    case Receive(w, drawn) =>
      if Greeted(k, token, w) then [AuthProof(Good(Pub(drawn)), Good(Mac(token, Pub(drawn))))] else []
    case _ => []
  }

  /** Everything said while the socket was open, in order. */
  function Said(token: Token, acts: seq<Action>): seq<Saying> {
    if acts == [] then []
    else
      var pre, a := acts[..|acts| - 1], acts[|acts| - 1];
      var k := KeysOf(token, pre);
      Said(token, pre) +
      if IsOpen(token, pre) || a.Opened? then Keyed(Says(k, token, a, Asked(pre)), k.key) else []
  }

  function Keyed(ms: seq<ClientMsg>, key: Option<Key>): seq<Saying> {
    if ms == [] then [] else [Saying(ms[0], key)] + Keyed(ms[1..], key)
  }

  /** Hellos, pings and proofs go out in the clear, and everything does before there is a key; all else
      is the plaintext of an envelope sealed under the key held. */
  predicate Carries(d: R.Doc, s: Saying) {
    if s.key.Some? && !s.msg.Hello? && !s.msg.Ping? && !s.msg.AuthProof? then
      && d.Enc? && d.sealed.Some? && d.sealed.value.key == s.key.value
      && d.sealed.value.plaintext == R.Message(s.msg)
    else d == R.Message(s.msg)
  }

  predicate CarriesAll(ds: seq<R.Doc>, ss: seq<Saying>) {
    |ds| == |ss| && forall i :: 0 <= i < |ds| ==> Carries(ds[i], ss[i])
  }

  lemma CarriesConcat(a: seq<R.Doc>, b: seq<R.Doc>, s: seq<Saying>, t: seq<Saying>)
    requires CarriesAll(a, s) && CarriesAll(b, t)
    ensures CarriesAll(a + b, s + t)
  {
  }

  lemma KeyedOne(m: ClientMsg, key: Option<Key>)
    ensures Keyed([m], key) == [Saying(m, key)]
  {
    assert [m][1..] == [];
  }

  /** One action: what it sends, and whether the socket is open afterwards. */
  lemma SendStep(v: Conn, token: Token, a: Action) returns (more: seq<R.Doc>)
    ensures Step(v, token, a).sent == v.sent + more
    ensures CarriesAll(more, if v.open || a.Opened? then Keyed(Says(v.keys, token, a, v.reqId), v.keys.key) else [])
  {
    more := Step(v, token, a).sent[|v.sent|..];
    var ms := Says(v.keys, token, a, v.reqId);
    if ms != [] { KeyedOne(ms[0], v.keys.key); }
  }

  lemma OpenStep(v: Conn, token: Token, a: Action)
    ensures Step(v, token, a).open ==
            match a
            case Opened(_) => true
            case Lost => false
            case Replaced => false
            case Receive(w, _) => v.open && (w.AuthOk? ==> Completes(v.keys, token, w))
            case _ => v.open
  {
  }

  /** For every run: what went to the socket is exactly what was said while it was open, in order and
      once each, every request with the id it drew, in the clear or sealed as it should be. */
  lemma {:induction false} EverythingSaidIsSent(token: Token, acts: seq<Action>)
    ensures CarriesAll(Exec(token, acts).sent, Said(token, acts))
    ensures Exec(token, acts).open == IsOpen(token, acts)
    decreases |acts|
  {
    if acts != [] {
      var pre, a := acts[..|acts| - 1], acts[|acts| - 1];
      var v := Exec(token, pre);
      EverythingSaidIsSent(token, pre);
      RunCounts(token, pre);
      OpenStep(v, token, a);
      var more := SendStep(v, token, a);
      CarriesConcat(v.sent, more, Said(token, pre),
                    if v.open || a.Opened? then Keyed(Says(v.keys, token, a, v.reqId), v.keys.key) else []);
    }
  }
}
