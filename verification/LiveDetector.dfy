/** The detector of daemon/src/detector.rs with its fields updated in place, every slice of its
    window checked. */
module LiveDetector {
  import opened Common
  import opened Utf8
  import opened D = Detector
  import opened R = DetectorRuns
  import A = Ansi

  datatype Outcome = Panicked | Reported(snap: Option<Snapshot>)

  class AgentDetector {
    const codex: bool
    var status: Option<Status>
    var detail: Bytes
    var tail: Bytes
    var phase: A.Phase
    var oscDepth: nat
    var cursors: seq<nat>

    ghost function View(): Det reads this {
      Det(codex, status, detail, tail, A.Auto(phase, oscDepth), cursors)
    }

    constructor (codex: bool)
      ensures View() == New(codex) && Valid(View())
    {
      this.codex := codex;
      status, detail, tail, phase, oscDepth, cursors := None, [], [], A.Plain, 0, [];
    }

    /** `ok` is false when the cut panics. */
    method AppendText(chunk: Bytes) returns (ok: bool)
      modifies this
      ensures ok <==> CutOk(old(View()), chunk)
      ensures View() == if ok then Slide(old(View()), chunk) else Appended(old(View()), chunk)
    {
      var out;
      phase, oscDepth, out := A.StripAnsi(phase, oscDepth, chunk);
      tail := tail + Lossy(out);
      ok := true;
      if |tail| > TAIL_CAP {
        var cut := |tail| - TAIL_CAP;
        if !Boundary(tail, cut) {
          return false;
        }
        tail := tail[cut..];
        MoveCursors(cut);
      } else {
        assert tail[0..] == tail && cursors == Back(cursors, 0);
      }
    }

    method MoveCursors(cut: nat)
      modifies this`cursors
      ensures cursors == Back(old(cursors), cut)
    {
      for i := 0 to |cursors|
        invariant |cursors| == |old(cursors)|
        invariant forall k :: 0 <= k < i ==> cursors[k] == Back(old(cursors), cut)[k]
        invariant forall k :: i <= k < |cursors| ==> cursors[k] == old(cursors)[k]
      {
        cursors := cursors[i := if cursors[i] < cut then 0 else cursors[i] - cut];
      }
    }

    /** Collects this round's hits and moves the cursors past them. Every search starts at a place
        where the window may be sliced. */
    method TakeHits() returns (hits: seq<Hit>)
      requires |cursors| == |Markers(codex)| && !CursorPanics(View())
      modifies this`cursors
      ensures hits == Hits(old(View()), |Markers(codex)|)
      ensures cursors == Advanced(old(View()))
    {
      hits := [];
      ghost var d := View();
      var markers := Markers(codex);
      for i := 0 to |markers|
        invariant |cursors| == |markers| && hits == Hits(d, i)
        invariant forall k :: 0 <= k < i ==> cursors[k] == Advanced(d)[k]
        invariant forall k :: i <= k < |markers| ==> cursors[k] == d.cursors[k]
      {
        assert SliceOk(tail, cursors[i]);
        var found := Find(tail, markers[i].needle, cursors[i]);
        assert found == HitOf(d, i);
        if found.Some? {
          hits := hits + [Hit(found.value, i)];
          cursors := cursors[i := found.value + |markers[i].needle|];
        }
      }
    }

    /** A feed panics exactly when its cut lands inside a character; no other slice can. */
    method Feed(chunk: Bytes) returns (r: Outcome)
      requires Valid(View())
      modifies this
      ensures r.Panicked? <==> Panics(old(View()), chunk)
      ensures r.Panicked? <==> !CutOk(old(View()), chunk)
      ensures r.Panicked? ==> View() == Appended(old(View()), chunk)
      ensures r.Reported? ==> (View(), r.snap) == Fed(old(View()), chunk) && Valid(View())
    {
      PanicsExactly(View(), chunk);
      ghost var d := View();
      var ok := AppendText(chunk);
      if !ok {
        return Panicked;
      }
      FeedKeepsValid(d, chunk);
      if !codex {
        return Reported(None);
      }
      if |cursors| != |Markers(codex)| {
        cursors := Zeros(|Markers(codex)|);
      }
      var hits := TakeHits();
      var changed := ApplyHits(d, chunk, hits);
      r := Reported(if changed then Some(Snapshot(if status.Some? then status.value else Starting, detail)) else None);
    }

    /** The hits in order of position, each with a detail cut from the window. */
    method ApplyHits(ghost d: Det, ghost chunk: Bytes, found: seq<Hit>) returns (changed: bool)
      requires d.codex && !Panics(d, chunk)
      requires var w := Ready(Slide(d, chunk));
               found == Hits(w, |Markers(true)|) && View() == w.(cursors := Advanced(w))
      modifies this`status, this`detail
      ensures View() == Fed(d, chunk).0
      ensures Fed(d, chunk).1 == if changed then Snap(View()) else None
    {
      ghost var w := Ready(Slide(d, chunk));
      HitsAreIn(w, |Markers(codex)|);
      SortedAreIn(w, found);
      var hits := Sorted(found);
      assert hits == Ordered(w);
      changed := false;
      for k := 0 to |hits|
        invariant View() == w.(cursors := Advanced(w), status := status, detail := detail)
        invariant Report(status, detail, changed) == ApplyAll(Report(w.status, w.detail, false), w, hits[..k])
      {
        assert hits[..k + 1][..k] == hits[..k];
        var m := Markers(codex)[hits[k].marker];
        if !(status == Some(m.status) && m.status != Working) {
          assert !DetailPanics(w, Ordered(w)[k]);
          assert SliceOk(tail, hits[k].pos) && SliceOk(tail, DetailEnd(tail, hits[k].pos, |m.needle|));
          status := Some(m.status);
          detail := Detail(tail, hits[k], |m.needle|);
          changed := true;
        }
      }
      assert hits[..|hits|] == hits;
    }
  }
}
