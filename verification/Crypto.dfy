/** Both ends of the end-to-end layer (daemon/src/crypto.rs, web/src/lib/e2e.ts), symbolically: a
    public key names its secret, a derived key names the inputs of its derivation, a sealed frame
    holds its key. Agreement only; nothing here speaks of secrecy. */
module Crypto {
  import opened Common

  type Token = string
  type Secret = nat

  datatype Pub = Pub(secret: Secret)
  datatype Mac = Mac(token: Token, pub: Pub)

  /** HKDF's output, named by the shared secret and the salt it was derived from. */
  datatype Key = Key(shared: multiset<Secret>, salt: seq<Pub>)

  datatype Sealed<+P> = Sealed(key: Key, plaintext: P)

  /** X25519: what either end computes from its own secret and the other's public key. */
  function DiffieHellman(own: Secret, peer: Pub): multiset<Secret> { multiset{own, peer.secret} }

  function Seal<P>(k: Key, p: P): Sealed<P> { Sealed(k, p) }

  function Open<P>(k: Key, s: Sealed<P>): Option<P> {
    if s.key == k then Some(s.plaintext) else None
  }

  // ---- The daemon's handshake ----

  /** The daemon's key pair after a proof verifies; None when a field does not decode or the MAC
      does not match. `drawn` is the new secret. */
  function VerifyClient(token: Token, pub: Option<Pub>, mac: Option<Mac>, drawn: Secret): Option<Secret> {
    if pub.Some? && mac == Some(Mac(token, pub.value)) then Some(drawn) else None
  }

  /** The daemon's salt order: its own key first. */
  function DaemonKey(own: Secret, peer: Pub): Key {
    Key(DiffieHellman(own, peer), [Pub(own), peer])
  }

  // ---- The browser's handshake ----

  datatype ClientKeys = ClientKeys(priv: Option<Secret>, key: Option<Key>)

  function WithProof(k: ClientKeys, drawn: Secret): ClientKeys { k.(priv := Some(drawn)) }

  function ClientKey(own: Secret, peer: Pub): Key {
    Key(DiffieHellman(own, peer), [peer, Pub(own)])
  }

  /** None when `finish` throws: undecodable field, wrong MAC, or no proof pending. */
  function Finished(k: ClientKeys, token: Token, pub: Option<Pub>, mac: Option<Mac>): Option<ClientKeys> {
    if pub.Some? && mac == Some(Mac(token, pub.value)) && k.priv.Some?
    then Some(ClientKeys(None, Some(ClientKey(k.priv.value, pub.value)))) else None
  }

  class E2EClient {
    var priv: Option<Secret>
    var key: Option<Key>

    ghost function View(): ClientKeys reads this { ClientKeys(priv, key) }

    constructor ()
      ensures View() == ClientKeys(None, None)
    {
      priv, key := None, None;
    }

    method ProofMessage(token: Token, drawn: Secret) returns (pub: Pub, mac: Mac)
      modifies this
      ensures View() == WithProof(old(View()), drawn)
      ensures VerifyClient(token, Some(pub), Some(mac), drawn).Some? && pub == Pub(drawn)
    {
      pub := Pub(drawn);
      priv := Some(drawn);
      mac := Mac(token, pub);
    }

    /** `ok` is false when the browser throws; nothing changes then. It is true exactly when a proof is
        pending and the MAC is the token's over that public key, and then the pending secret is used
        up and the key is the shared one, salted with the daemon's public key and then the own. */
    method Finish(token: Token, pub: Option<Pub>, mac: Option<Mac>) returns (ok: bool)
      modifies this
      ensures ok <==> old(priv).Some? && pub.Some? && mac == Some(Mac(token, pub.value))
      ensures !ok ==> priv == old(priv) && key == old(key)
      ensures ok ==> priv == None && key.Some? && key.value.shared == multiset{old(priv).value, pub.value.secret}
      ensures ok ==> key.value.salt == [pub.value, Pub(old(priv).value)]
      ensures var r := Finished(old(View()), token, pub, mac);
              ok == r.Some? && View() == if ok then r.value else old(View())
    {
      if pub.None? || mac.None? || mac.value != Mac(token, pub.value) || priv.None? {
        return false;
      }
      var shared := DiffieHellman(priv.value, pub.value);
      key := Some(Key(shared, [pub.value, Pub(priv.value)]));
      priv := None;
      ok := true;
    }

    /** What is sealed opens again to the same text, and under no key but the established one;
        without a key nothing is sealed. */
    method SealText<P>(p: P) returns (s: Option<Sealed<P>>)
      ensures s.Some? <==> key.Some?
      ensures s.Some? ==> Open(key.value, s.value) == Some(p)
      ensures s.Some? ==> forall k :: Open(k, s.value).Some? ==> key == Some(k)
    {
      s := if key.None? then None else Some(Seal(key.value, p));
    }

    /** A frame opens exactly when it was sealed under the established key, and sealing the result
        again gives the frame. */
    method OpenText<P>(s: Sealed<P>) returns (p: Option<P>)
      ensures p.Some? <==> key == Some(s.key)
      ensures p.Some? ==> Seal(key.value, p.value) == s
    {
      p := if key.None? then None else Open(key.value, s);
    }
  }

  /** The two derivations agree: the shared secret is symmetric and both put the daemon's public
      key first in the salt. */
  lemma BothEndsAgree(daemon: Secret, client: Secret)
    ensures DaemonKey(daemon, Pub(client)) == ClientKey(client, Pub(daemon))
  {
  }

  /** What one end seals opens at the other end to the same text, and under no other key. */
  lemma SealOpens<P>(daemon: Secret, client: Secret, k: Key, p: P)
    ensures Open(ClientKey(client, Pub(daemon)), Seal(DaemonKey(daemon, Pub(client)), p)) == Some(p)
    ensures Open(DaemonKey(daemon, Pub(client)), Seal(ClientKey(client, Pub(daemon)), p)) == Some(p)
    ensures Open(k, Seal(DaemonKey(daemon, Pub(client)), p)).Some? ==> k == ClientKey(client, Pub(daemon))
  {
    BothEndsAgree(daemon, client);
  }

  /** Salting each end's own key first would not do: the ends agree then only when they are the
      same key pair. */
  lemma OwnKeyFirstDisagrees(daemon: Secret, client: Secret)
    ensures DaemonKey(daemon, Pub(client)) == DaemonKey(client, Pub(daemon)) <==> daemon == client
  {
    assert DaemonKey(daemon, Pub(client)).salt[0] == Pub(daemon);
    assert DaemonKey(client, Pub(daemon)).salt[0] == Pub(client);
  }
}
