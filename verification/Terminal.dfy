/** The browser side of a session (web/src/TerminalApp.tsx): sequence-number filter, buffering
    until the terminal is mounted, replay at mount. A terminal is the bytes written since its
    last reset. */
module Terminal {
  import opened Common
  import opened Protocol

  datatype Event = Recv(frame: DaemonMsg) | Mount(sid: Sid)

  /** `lastSeqRef`, `pendingRef` and `termsRef`. */
  datatype App = App(lastSeq: map<Sid, nat>, pending: map<Sid, seq<Bytes>>, terms: map<Sid, Bytes>)

  const NEW_APP := App(map[], map[], map[])

  function OnSnapshot(a: App, sid: Sid, data: Bytes, n: nat): App {
    var b := a.(lastSeq := a.lastSeq[sid := n]);
    if sid in a.terms then b.(terms := a.terms[sid := data])
    else b.(pending := a.pending[sid := [data]])
  }

  function OnOutput(a: App, sid: Sid, data: Bytes, n: nat): App {
    if sid in a.lastSeq && n <= a.lastSeq[sid] then a
    else
      var b := a.(lastSeq := a.lastSeq[sid := n]);
      if sid in a.terms then b.(terms := a.terms[sid := a.terms[sid] + data])
      else b.(pending := a.pending[sid := Buffered(a, sid) + [data]])
  }

  function OnExited(a: App, sid: Sid): App {
    a.(pending := a.pending - {sid})
  }

  function MountTerm(a: App, sid: Sid): App {
    if sid in a.terms then a
    else a.(terms := a.terms[sid := Flatten(Buffered(a, sid))], pending := a.pending - {sid})
  }

  function Buffered(a: App, sid: Sid): seq<Bytes> {
    if sid in a.pending then a.pending[sid] else []
  }

  function Handle(a: App, e: Event): App {
    match e
    case Mount(sid) => MountTerm(a, sid)
    case Recv(Snapshot(sid, n, data)) => OnSnapshot(a, sid, data, n)
    case Recv(Output(sid, n, data)) => OnOutput(a, sid, data, n)
    case Recv(SessionExited(sid, _)) => OnExited(a, sid)
    case _ => a
  }

  function Run(a: App, evs: seq<Event>): App {
    if evs == [] then a else Handle(Run(a, evs[..|evs| - 1]), evs[|evs| - 1])
  }

  /** What a terminal shows, or would show if it were mounted now. */
  function View(a: App, sid: Sid): Bytes {
    if sid in a.terms then a.terms[sid] else Flatten(Buffered(a, sid))
  }

  /** The callbacks as the page runs them, on its three mutable maps. */
  class TerminalApp {
    var lastSeq: map<Sid, nat>
    var pending: map<Sid, seq<Bytes>>
    var terms: map<Sid, Bytes>

    ghost function State(): App reads this { App(lastSeq, pending, terms) }

    constructor ()
      ensures State() == NEW_APP
    {
      lastSeq, pending, terms := map[], map[], map[];
    }

    method Snapshot(sid: Sid, data: Bytes, n: nat)
      modifies this
      ensures State() == OnSnapshot(old(State()), sid, data, n)
    {
      lastSeq := lastSeq[sid := n];
      if sid !in terms {
        pending := pending[sid := [data]];
        return;
      }
      terms := terms[sid := []];
      assert [] + data == data;
      terms := terms[sid := terms[sid] + data];
    }

    method Output(sid: Sid, data: Bytes, n: nat)
      modifies this
      ensures State() == OnOutput(old(State()), sid, data, n)
    {
      if sid in lastSeq && n <= lastSeq[sid] {
        return;
      }
      lastSeq := lastSeq[sid := n];
      if sid !in terms {
        var buf := if sid in pending then pending[sid] else [];
        buf := buf + [data];
        pending := pending[sid := buf];
        return;
      }
      terms := terms[sid := terms[sid] + data];
    }

    method Exited(sid: Sid)
      modifies this
      ensures State() == OnExited(old(State()), sid)
    {
      pending := pending - {sid};
    }

    /** The host callback: a fresh terminal, then the buffered chunks one write at a time. */
    method HostCallback(sid: Sid)
      modifies this
      ensures State() == MountTerm(old(State()), sid)
    {
      if sid !in terms {
        terms := terms[sid := []];
        if sid in pending {
          var chunks := pending[sid];
          pending := pending - {sid};
          ghost var before := terms;
          for i := 0 to |chunks|
            invariant lastSeq == old(lastSeq) && pending == old(pending) - {sid}
            invariant terms == before[sid := Flatten(chunks[..i])]
          {
            assert chunks[..i + 1] == chunks[..i] + [chunks[i]];
            FlattenSnoc(chunks[..i], chunks[i]);
            terms := terms[sid := terms[sid] + chunks[i]];
          }
          assert chunks[..|chunks|] == chunks;
        } else {
          assert pending - {sid} == pending;
        }
      }
    }
  }

  // ---- What is accepted, told by the events alone ----

  predicate IsSnapshot(e: Event, sid: Sid) { e.Recv? && e.frame.Snapshot? && e.frame.sid == sid }

  predicate IsExit(e: Event, sid: Sid) { e.Recv? && e.frame.SessionExited? && e.frame.sid == sid }

  /** What `view` becomes with one event: the only dependence on mounting is that an exit
      discards an unmounted buffer. */
  function NextView(view: Bytes, mounted: bool, lastSeq: map<Sid, nat>, e: Event, sid: Sid): Bytes {
    match e
    case Recv(Snapshot(x, _, data)) => if x == sid then data else view
    case Recv(Output(x, n, data)) => if x == sid && !(sid in lastSeq && n <= lastSeq[sid]) then view + data else view
    case Recv(SessionExited(x, _)) => if x == sid && !mounted then [] else view
    case _ => view
  }

  function NextLastSeq(last: map<Sid, nat>, e: Event): map<Sid, nat> {
    match e
    case Recv(Snapshot(sid, n, _)) => last[sid := n]
    case Recv(Output(sid, n, _)) => if sid in last && n <= last[sid] then last else last[sid := n]
    case _ => last
  }

  function LastSeqs(evs: seq<Event>): map<Sid, nat> {
    if evs == [] then map[] else NextLastSeq(LastSeqs(evs[..|evs| - 1]), evs[|evs| - 1])
  }

  /** The bytes of the last snapshot and of the outputs accepted since. */
  function Accepted(evs: seq<Event>, sid: Sid): Bytes {
    if evs == [] then []
    else
      var pre := evs[..|evs| - 1];
      NextView(Accepted(pre, sid), true, LastSeqs(pre), evs[|evs| - 1], sid)
  }

  /** The accepted bytes an exit before the first mount discards, unless a snapshot follows. */
  function Lost(evs: seq<Event>, sid: Sid): Bytes {
    if evs == [] then []
    else
      var pre, e := evs[..|evs| - 1], evs[|evs| - 1];
      if IsSnapshot(e, sid) then []
      else if IsExit(e, sid) && Mount(sid) !in pre then Accepted(pre, sid)
      else Lost(pre, sid)
  }

  /** Some exit comes before the first mount while accepted bytes are buffered, and no later event
      is a snapshot. */
  predicate Discards(evs: seq<Event>, sid: Sid) {
    exists k :: 0 <= k < |evs| && DiscardsAt(evs, sid, k)
  }

  predicate DiscardsAt(evs: seq<Event>, sid: Sid, k: nat)
    requires k < |evs|
  {
    && IsExit(evs[k], sid) && Mount(sid) !in evs[..k] && Accepted(evs[..k], sid) != []
    && forall j :: k < j < |evs| ==> !IsSnapshot(evs[j], sid)
  }

  lemma SnapshotView(a: App, x: Sid, data: Bytes, n: nat, sid: Sid)
    ensures View(OnSnapshot(a, x, data, n), sid) == if x == sid then data else View(a, sid)
    ensures sid in OnSnapshot(a, x, data, n).terms <==> sid in a.terms
  {
    FlattenSnoc([], data);
    assert [] + [data] == [data] && Flatten<byte>([]) + data == data;
  }

  lemma OutputView(a: App, x: Sid, data: Bytes, n: nat, sid: Sid)
    ensures View(OnOutput(a, x, data, n), sid) ==
            if x == sid && !(sid in a.lastSeq && n <= a.lastSeq[sid]) then View(a, sid) + data else View(a, sid)
    ensures sid in OnOutput(a, x, data, n).terms <==> sid in a.terms
  {
    FlattenSnoc(Buffered(a, sid), data);
  }

  lemma QuietView(a: App, x: Sid, sid: Sid)
    ensures View(OnExited(a, x), sid) == if x == sid && sid !in a.terms then [] else View(a, sid)
    ensures sid in OnExited(a, x).terms <==> sid in a.terms
    ensures View(MountTerm(a, x), sid) == View(a, sid)
    ensures sid in MountTerm(a, x).terms <==> sid in a.terms || x == sid
  {
  }

  /** How one event changes what session `sid` shows. */
  lemma ViewStep(a: App, e: Event, sid: Sid)
    ensures View(Handle(a, e), sid) == NextView(View(a, sid), sid in a.terms, a.lastSeq, e, sid)
    ensures sid in Handle(a, e).terms <==> sid in a.terms || e == Mount(sid)
  {
    match e
    case Mount(x) => QuietView(a, x, sid);
    case Recv(Snapshot(x, n, data)) => SnapshotView(a, x, data, n, sid);
    case Recv(Output(x, n, data)) => OutputView(a, x, data, n, sid);
    case Recv(SessionExited(x, _)) => QuietView(a, x, sid);
    case _ =>
  }

  lemma LastSeqStep(a: App, e: Event)
    ensures Handle(a, e).lastSeq == NextLastSeq(a.lastSeq, e)
  {
  }

  // ---- Deferred and immediate mounting ----

  /** A terminal that existed from the start shows exactly the accepted bytes. */
  lemma {:induction false} ImmediateShowsAccepted(evs: seq<Event>, sid: Sid)
    ensures sid in Run(MountTerm(NEW_APP, sid), evs).terms
    ensures View(Run(MountTerm(NEW_APP, sid), evs), sid) == Accepted(evs, sid)
    ensures Run(MountTerm(NEW_APP, sid), evs).lastSeq == LastSeqs(evs)
    decreases |evs|
  {
    if evs != [] {
      var pre, e := evs[..|evs| - 1], evs[|evs| - 1];
      ImmediateShowsAccepted(pre, sid);
      ViewStep(Run(MountTerm(NEW_APP, sid), pre), e, sid);
      LastSeqStep(Run(MountTerm(NEW_APP, sid), pre), e);
    }
  }

  /** Bytes lost so far stay in front of what is shown, until a snapshot replaces both. */
  lemma LostStep(lost: Bytes, view: Bytes, mounted: bool, lastSeq: map<Sid, nat>, e: Event, sid: Sid)
    ensures NextView(lost + view, true, lastSeq, e, sid) ==
            (if IsSnapshot(e, sid) then [] else if IsExit(e, sid) && !mounted then lost + view else lost)
            + NextView(view, mounted, lastSeq, e, sid)
  {
  }

  lemma {:induction false} BufferedShowsRest(evs: seq<Event>, sid: Sid)
    ensures Accepted(evs, sid) == Lost(evs, sid) + View(Run(NEW_APP, evs), sid)
    ensures Run(NEW_APP, evs).lastSeq == LastSeqs(evs)
    ensures sid in Run(NEW_APP, evs).terms <==> Mount(sid) in evs
    decreases |evs|
  {
    if evs != [] {
      var pre, e := evs[..|evs| - 1], evs[|evs| - 1];
      var b := Run(NEW_APP, pre);
      BufferedShowsRest(pre, sid);
      ViewStep(b, e, sid);
      LastSeqStep(b, e);
      LostStep(Lost(pre, sid), View(b, sid), sid in b.terms, b.lastSeq, e, sid);
      assert evs == pre + [e];
    }
  }

  /** Over any history of any frames and mounts of any sessions, a terminal that existed from the
      start shows the bytes lost to early exits and then what the buffered one shows. */
  lemma {:induction false} DeferredMountLaw(evs: seq<Event>, sid: Sid)
    ensures View(Run(MountTerm(NEW_APP, sid), evs), sid) == Lost(evs, sid) + View(Run(NEW_APP, evs), sid)
    ensures Run(MountTerm(NEW_APP, sid), evs).lastSeq == Run(NEW_APP, evs).lastSeq
  {
    ImmediateShowsAccepted(evs, sid);
    BufferedShowsRest(evs, sid);
  }

  /** What is lost is still accepted, so a discard with nothing buffered loses nothing more. */
  lemma LostIsAccepted(evs: seq<Event>, sid: Sid)
    ensures Accepted(evs, sid) == [] ==> Lost(evs, sid) == []
  {
    BufferedShowsRest(evs, sid);
  }

  lemma {:induction false} LostIffDiscards(evs: seq<Event>, sid: Sid)
    ensures Lost(evs, sid) != [] <==> Discards(evs, sid)
    decreases |evs|
  {
    if evs != [] {
      var n := |evs| - 1;
      var pre, e := evs[..n], evs[n];
      LostIffDiscards(pre, sid);
      LostIsAccepted(pre, sid);
      forall k | 0 <= k < n ensures DiscardsAt(evs, sid, k) <==> DiscardsAt(pre, sid, k) && !IsSnapshot(e, sid) {
        DiscardsInLonger(pre, e, sid, k);
        assert evs == pre + [e];
      }
      assert DiscardsAt(evs, sid, n) <==> IsExit(e, sid) && Mount(sid) !in pre && Accepted(pre, sid) != [];
    }
  }

  lemma DiscardsInLonger(pre: seq<Event>, e: Event, sid: Sid, k: nat)
    requires k < |pre|
    ensures DiscardsAt(pre + [e], sid, k) <==> DiscardsAt(pre, sid, k) && !IsSnapshot(e, sid)
  {
    assert (pre + [e])[..k] == pre[..k];
    var all := pre + [e];
    assert all[|pre|] == e && all[k] == pre[k];
    if DiscardsAt(all, sid, k) {
      forall j | k < j < |pre| ensures !IsSnapshot(pre[j], sid) { assert all[j] == pre[j]; }
    }
  }

  /** Deferred mounting gives the text immediate mounting would if and only if no exit discarded
      accepted bytes for good. */
  lemma {:induction false} DeferredMountRefinesImmediate(evs: seq<Event>, sid: Sid)
    requires Mount(sid) in evs
    ensures sid in Run(NEW_APP, evs).terms && sid in Run(MountTerm(NEW_APP, sid), evs).terms
    ensures Run(NEW_APP, evs).terms[sid] == Run(MountTerm(NEW_APP, sid), evs).terms[sid] <==> !Discards(evs, sid)
  {
    ImmediateShowsAccepted(evs, sid);
    BufferedShowsRest(evs, sid);
    LostIffDiscards(evs, sid);
    var shown := Run(NEW_APP, evs).terms[sid];
    assert Lost(evs, sid) == [] ==> Lost(evs, sid) + shown == shown;
    assert |Lost(evs, sid) + shown| == |Lost(evs, sid)| + |shown|;
  }

  /** No exit of `sid` comes before its first mount. */
  predicate NoEarlyExit(evs: seq<Event>, sid: Sid) {
    forall k :: 0 <= k < |evs| && IsExit(evs[k], sid) ==> Mount(sid) in evs[..k]
  }

  /** With no exit before the first mount nothing is lost, whatever else happens. */
  lemma {:induction false} NothingLost(evs: seq<Event>, sid: Sid)
    requires Mount(sid) in evs && NoEarlyExit(evs, sid)
    ensures sid in Run(NEW_APP, evs).terms && sid in Run(MountTerm(NEW_APP, sid), evs).terms
    ensures Run(NEW_APP, evs).terms[sid] == Run(MountTerm(NEW_APP, sid), evs).terms[sid]
  {
    DeferredMountRefinesImmediate(evs, sid);
  }

  /** An exit before the mount can lose text. */
  lemma {:induction false} ExitBeforeMountLosesText(sid: Sid)
    ensures var evs := [Recv(Output(sid, 1, [65])), Recv(SessionExited(sid, None)), Mount(sid)];
            && Discards(evs, sid)
            && sid in Run(NEW_APP, evs).terms && Run(NEW_APP, evs).terms[sid] == []
            && View(Run(MountTerm(NEW_APP, sid), evs), sid) == [65]
  {
    var evs := [Recv(Output(sid, 1, [65])), Recv(SessionExited(sid, None)), Mount(sid)];
    assert evs[..1][..0] == [] && evs[..2][..1] == evs[..1];
    assert Accepted(evs[..1], sid) == [65];
    assert DiscardsAt(evs, sid, 1);
    assert Lost(evs[..2], sid) == [65] && Accepted(evs, sid) == [65];
    ImmediateShowsAccepted(evs, sid);
    BufferedShowsRest(evs, sid);
  }

  /** A mounted session has no buffer left, whatever happens. */
  lemma {:induction false} MountedHasNoBuffer(evs: seq<Event>, sid: Sid)
    ensures sid in Run(NEW_APP, evs).terms ==> sid !in Run(NEW_APP, evs).pending
    decreases |evs|
  {
    if evs != [] { MountedHasNoBuffer(evs[..|evs| - 1], sid); }
  }
}
