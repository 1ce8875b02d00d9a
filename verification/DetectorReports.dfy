/** When a feed of the detector reports, and from which marker (daemon/src/detector.rs:137-161), told
    by the markers found in the window and the status before. */
module DetectorReports {
  import opened Common
  import opened Utf8
  import opened D = Detector
  import opened R = DetectorRuns

  // ---- The markers found, in order of position ----

  predicate Ready5(w: Det) { w.codex && |w.cursors| == |Markers(true)| }

  predicate Found(w: Det, i: nat)
    requires Ready5(w)
  {
    i < |w.cursors| && HitOf(w, i).Some?
  }

  function HitAt(w: Det, i: nat): Hit
    requires Ready5(w) && Found(w, i)
  {
    Hit(HitOf(w, i).value, i)
  }

  function StatusOf(i: nat): Status
    requires i < |Markers(true)|
  {
    Markers(true)[i].status
  }

  /** No marker is found before `i`. */
  ghost predicate First(w: Det, i: nat)
    requires Ready5(w) && Found(w, i)
  {
    forall k: nat :: Found(w, k) && k != i ==> !Before(HitAt(w, k), HitAt(w, i))
  }

  /** `j` is the marker found next before `i`. */
  ghost predicate Precedes(w: Det, j: nat, i: nat)
    requires Ready5(w) && Found(w, i)
  {
    && Found(w, j) && j != i && Before(HitAt(w, j), HitAt(w, i))
    && forall k: nat :: Found(w, k) && k != i && Before(HitAt(w, k), HitAt(w, i)) ==> Before(HitAt(w, k), HitAt(w, j))
  }

  /** The marker only says again what the one before it said, or, being the first, the status before
      the feed; working is news every time. */
  ghost predicate Repeats(w: Det, before: Option<Status>, i: nat)
    requires Ready5(w) && Found(w, i)
  {
    && StatusOf(i) != Working
    && ((First(w, i) && before == Some(StatusOf(i)))
        || (exists j: nat :: j < |w.cursors| && Precedes(w, j, i) && StatusOf(j) == StatusOf(i)))
  }

  /** The last marker found that does not repeat. */
  ghost predicate LastNews(w: Det, before: Option<Status>, i: nat)
    requires Ready5(w)
  {
    && Found(w, i) && !Repeats(w, before, i)
    && forall k: nat :: Found(w, k) && !Repeats(w, before, k) ==> Before(HitAt(w, k), HitAt(w, i))
  }

  // ---- The list of hits ----

  lemma {:induction false} HitsByMarker(d: Det, n: nat)
    requires n <= |Markers(d.codex)| == |d.cursors|
    ensures forall i :: 0 <= i < |Hits(d, n)| ==> Hits(d, n)[i].marker < n
    ensures forall i, j :: 0 <= i < j < |Hits(d, n)| ==> Hits(d, n)[i].marker < Hits(d, n)[j].marker
    decreases n
  {
    if n > 0 { HitsByMarker(d, n - 1); }
  }

  lemma {:induction false} CountOnce(s: seq<Hit>, x: Hit)
    requires forall i, j :: 0 <= i < j < |s| ==> s[i] != s[j]
    ensures multiset(s)[x] <= 1
    decreases |s|
  {
    if s != [] {
      var n := |s| - 1;
      assert s == s[..n] + [s[n]];
      CountOnce(s[..n], x);
      if x == s[n] { assert x !in s[..n]; }
    }
  }

  lemma TwiceCounts(s: seq<Hit>, i: nat, j: nat)
    requires i < j < |s| && s[i] == s[j]
    ensures multiset(s)[s[i]] >= 2
  {
    assert s == s[..j] + [s[j]] + s[j + 1..];
    assert s[i] in s[..j];
  }

  /** No hit is listed twice. */
  lemma OrderedOnce(w: Det, i: nat, j: nat)
    requires Ready5(w) && i < j < |Ordered(w)|
    ensures Ordered(w)[i] != Ordered(w)[j]
  {
    var hits := Hits(w, |w.cursors|);
    OrderedAreReal(w);
    HitsByMarker(w, |w.cursors|);
    CountOnce(hits, Ordered(w)[i]);
    if Ordered(w)[i] == Ordered(w)[j] { TwiceCounts(Ordered(w), i, j); }
  }

  /** The list holds the markers found, each at its place. */
  lemma PlaceOf(w: Det, i: nat) returns (n: nat)
    requires Ready5(w) && Found(w, i)
    ensures n < |Ordered(w)| && Ordered(w)[n] == HitAt(w, i)
  {
    OrderedAreAll(w, HitAt(w, i));
    n :| 0 <= n < |Ordered(w)| && Ordered(w)[n] == HitAt(w, i);
  }

  lemma MarkerAt(w: Det, n: nat)
    requires Ready5(w) && n < |Ordered(w)|
    ensures Found(w, Ordered(w)[n].marker) && Ordered(w)[n] == HitAt(w, Ordered(w)[n].marker)
  {
    OrderedAreAll(w, Ordered(w)[n]);
  }

  lemma BeforeBoth(a: Hit, b: Hit)
    requires Before(a, b) && Before(b, a)
    ensures a == b
  {
  }

  /** Found before the n-th hit means listed before it. */
  lemma EarlierPlace(w: Det, k: nat, n: nat) returns (m: nat)
    requires Ready5(w) && n < |Ordered(w)| && Found(w, k) && k != Ordered(w)[n].marker
    requires Before(HitAt(w, k), Ordered(w)[n])
    ensures m < n && Ordered(w)[m] == HitAt(w, k)
  {
    m := PlaceOf(w, k);
    OrderedAreReal(w);
    if m > n { BeforeBoth(Ordered(w)[m], Ordered(w)[n]); }
  }

  lemma FirstPlace(w: Det)
    requires Ready5(w) && Ordered(w) != []
    ensures Found(w, Ordered(w)[0].marker) && First(w, Ordered(w)[0].marker)
  {
    MarkerAt(w, 0);
    var i := Ordered(w)[0].marker;
    forall k: nat | Found(w, k) && k != i ensures !Before(HitAt(w, k), HitAt(w, i)) {
      if Before(HitAt(w, k), HitAt(w, i)) { var m := EarlierPlace(w, k, 0); }
    }
  }

  lemma DistinctNext(w: Det, n: nat)
    requires Ready5(w) && 0 < n < |Ordered(w)|
    ensures Ordered(w)[n - 1] != Ordered(w)[n] && Before(Ordered(w)[n - 1], Ordered(w)[n])
  {
    OrderedOnce(w, n - 1, n);
    OrderedAreReal(w);
  }

  lemma NextPlace(w: Det, n: nat)
    requires Ready5(w) && 0 < n < |Ordered(w)|
    ensures Found(w, Ordered(w)[n].marker)
    ensures Precedes(w, Ordered(w)[n - 1].marker, Ordered(w)[n].marker)
  {
    MarkerAt(w, n);
    MarkerAt(w, n - 1);
    DistinctNext(w, n);
    var j, i := Ordered(w)[n - 1].marker, Ordered(w)[n].marker;
    forall k: nat | Found(w, k) && k != i && Before(HitAt(w, k), HitAt(w, i)) ensures Before(HitAt(w, k), HitAt(w, j)) {
      NotBetween(w, n, k);
    }
  }

  lemma NotBetween(w: Det, n: nat, k: nat)
    requires Ready5(w) && 0 < n < |Ordered(w)| && Found(w, k) && k != Ordered(w)[n].marker
    requires Before(HitAt(w, k), Ordered(w)[n])
    ensures Before(HitAt(w, k), Ordered(w)[n - 1])
  {
    var m := EarlierPlace(w, k, n);
    OrderedAreReal(w);
    if m < n - 1 { assert Before(Ordered(w)[m], Ordered(w)[n - 1]); }
  }

  lemma OnePrecedes(w: Det, j: nat, k: nat, i: nat)
    requires Ready5(w) && Found(w, i) && Precedes(w, j, i) && Precedes(w, k, i)
    ensures j == k
  {
    BeforeBoth(HitAt(w, j), HitAt(w, k));
  }

  // ---- Applying the hits ----

  /** The n-th hit is news after the one before it. */
  predicate NewsAt(hits: seq<Hit>, before: Option<Status>, n: nat)
    requires n < |hits| && forall i :: 0 <= i < |hits| ==> hits[i].marker < |Markers(true)|
  {
    StatusOf(hits[n].marker) == Working ||
    Some(StatusOf(hits[n].marker)) != (if n == 0 then before else Some(StatusOf(hits[n - 1].marker)))
  }

  predicate LastNewsAt(hits: seq<Hit>, before: Option<Status>, n: nat)
    requires n < |hits| && forall i :: 0 <= i < |hits| ==> hits[i].marker < |Markers(true)|
  {
    NewsAt(hits, before, n) && forall m :: n < m < |hits| ==> !NewsAt(hits, before, m)
  }

  function TextOf(w: Det, h: Hit): Bytes
    requires w.codex && HitIn(w, h)
  {
    Detail(w.tail, h, |Markers(true)[h.marker].needle|)
  }

  predicate AllIn(w: Det, hits: seq<Hit>) { forall i :: 0 <= i < |hits| ==> HitIn(w, hits[i]) }

  /** What the hits make of a report: the status of the last, and the detail of the last news. */
  ghost predicate AppliedOk(r: Report, w: Det, hits: seq<Hit>, e: Report)
    requires w.codex && AllIn(w, hits)
  {
    && e.status == (if hits == [] then r.status else Some(StatusOf(hits[|hits| - 1].marker)))
    && (if e.changed then exists n: nat :: n < |hits| && NewsDetail(w, hits, r.status, n, e.detail)
        else e.detail == r.detail && forall n :: 0 <= n < |hits| ==> !NewsAt(hits, r.status, n))
  }

  predicate NewsDetail(w: Det, hits: seq<Hit>, before: Option<Status>, n: nat, detail: Bytes)
    requires w.codex && AllIn(w, hits) && n < |hits|
  {
    LastNewsAt(hits, before, n) && detail == TextOf(w, hits[n])
  }

  lemma NewsPrefix(pre: seq<Hit>, h: Hit, before: Option<Status>, n: nat)
    requires n < |pre| && forall i :: 0 <= i < |pre + [h]| ==> (pre + [h])[i].marker < |Markers(true)|
    ensures forall i :: 0 <= i < |pre| ==> pre[i].marker < |Markers(true)|
    ensures NewsAt(pre + [h], before, n) <==> NewsAt(pre, before, n)
  {
    assert forall i :: 0 <= i < |pre| ==> (pre + [h])[i] == pre[i];
  }

  lemma SkippedSnoc(r: Report, w: Det, pre: seq<Hit>, h: Hit, b: Report)
    requires w.codex && AllIn(w, pre) && AllIn(w, pre + [h]) && AppliedOk(r, w, pre, b)
    requires !NewsAt(pre + [h], r.status, |pre|)
    ensures AppliedOk(r, w, pre + [h], b)
  {
    var hits := pre + [h];
    forall n | 0 <= n < |pre| ensures NewsAt(hits, r.status, n) <==> NewsAt(pre, r.status, n) {
      NewsPrefix(pre, h, r.status, n);
    }
    if b.changed {
      var n: nat :| n < |pre| && NewsDetail(w, pre, r.status, n, b.detail);
      assert NewsDetail(w, hits, r.status, n, b.detail);
    }
  }

  lemma TakenSnoc(r: Report, w: Det, pre: seq<Hit>, h: Hit)
    requires w.codex && AllIn(w, pre) && AllIn(w, pre + [h]) && NewsAt(pre + [h], r.status, |pre|)
    ensures HitIn(w, h)
    ensures AppliedOk(r, w, pre + [h], Report(Some(StatusOf(h.marker)), TextOf(w, h), true))
  {
    var hits := pre + [h];
    assert hits[|pre|] == h;
    assert NewsDetail(w, hits, r.status, |pre|, TextOf(w, h));
  }

  /** One more hit is applied exactly when it is news. */
  lemma AppliesNews(r: Report, w: Det, pre: seq<Hit>, h: Hit, b: Report)
    requires w.codex && AllIn(w, pre) && AllIn(w, pre + [h]) && AppliedOk(r, w, pre, b)
    ensures HitIn(w, h)
    ensures Apply(b, w, h) == if NewsAt(pre + [h], r.status, |pre|)
                              then Report(Some(StatusOf(h.marker)), TextOf(w, h), true) else b
  {
    assert (pre + [h])[|pre|] == h;
    assert pre != [] ==> (pre + [h])[|pre| - 1] == pre[|pre| - 1];
  }

  lemma {:induction false} AppliedExactly(r: Report, w: Det, hits: seq<Hit>)
    requires w.codex && !r.changed && AllIn(w, hits)
    ensures AppliedOk(r, w, hits, ApplyAll(r, w, hits))
    decreases |hits|
  {
    if hits != [] {
      var l := |hits| - 1;
      var pre, h := hits[..l], hits[l];
      InitLast(hits);
      AppliedExactly(r, w, pre);
      AppliesNews(r, w, pre, h, ApplyAll(r, w, pre));
      if NewsAt(pre + [h], r.status, l) {
        TakenSnoc(r, w, pre, h);
      } else {
        SkippedSnoc(r, w, pre, h, ApplyAll(r, w, pre));
      }
    }
  }

  /** News in the list is news among the markers. */
  lemma NewsIsNoRepeat(w: Det, before: Option<Status>, n: nat)
    requires Ready5(w) && n < |Ordered(w)|
    ensures Found(w, Ordered(w)[n].marker)
    ensures NewsAt(Ordered(w), before, n) <==> !Repeats(w, before, Ordered(w)[n].marker)
  {
    var i := Ordered(w)[n].marker;
    MarkerAt(w, n);
    if n == 0 {
      FirstPlace(w);
      forall j: nat ensures !Precedes(w, j, i) {}
    } else {
      var j := Ordered(w)[n - 1].marker;
      NextPlace(w, n);
      forall k: nat | Precedes(w, k, i) ensures k == j { OnePrecedes(w, j, k, i); }
      assert !First(w, i);
    }
  }

  lemma LastNewsIsLast(w: Det, before: Option<Status>, n: nat)
    requires Ready5(w) && n < |Ordered(w)| && LastNewsAt(Ordered(w), before, n)
    ensures LastNews(w, before, Ordered(w)[n].marker)
  {
    var i := Ordered(w)[n].marker;
    MarkerAt(w, n);
    NewsIsNoRepeat(w, before, n);
    OrderedAreReal(w);
    forall k: nat | Found(w, k) && !Repeats(w, before, k) ensures Before(HitAt(w, k), HitAt(w, i)) {
      var m := PlaceOf(w, k);
      NewsIsNoRepeat(w, before, m);
    }
  }

  /** A feed reports if and only if some marker found is news. The detail is then the text of the last
      such marker, and the report carries it with the final status; otherwise the detail stays. */
  lemma {:induction false} FeedReportsExactly(d: Det, chunk: Bytes)
    requires Valid(d) && CutOk(d, chunk) && d.codex
    ensures var w, (d', snap) := Ready(Slide(d, chunk)), Fed(d, chunk);
            && Ready5(w)
            && (snap.Some? <==> exists i: nat :: Found(w, i) && !Repeats(w, d.status, i))
            && (snap.None? ==> d'.detail == d.detail)
            && (snap.Some? ==>
                  && d'.status.Some? && snap == Some(Snapshot(d'.status.value, d'.detail))
                  && exists i: nat :: LastNews(w, d.status, i) && IsDetail(w, i, d'.detail))
  {
    var w := Ready(Slide(d, chunk));
    var r, hits := Report(w.status, w.detail, false), Ordered(w);
    SlideValid(d, chunk);
    ReadyValid(Slide(d, chunk));
    OrderedAreReal(w);
    AppliedExactly(r, w, hits);
    var e := ApplyAll(r, w, hits);
    if e.changed {
      var n: nat :| n < |hits| && NewsDetail(w, hits, r.status, n, e.detail);
      LastNewsIsLast(w, r.status, n);
      DetailOf(w, n, e.detail);
    } else {
      forall i: nat | Found(w, i) ensures Repeats(w, d.status, i) {
        var n := PlaceOf(w, i);
        NewsIsNoRepeat(w, d.status, n);
      }
    }
  }

  /** The detail is the window's text at marker `i`. */
  predicate IsDetail(w: Det, i: nat, detail: Bytes)
    requires Ready5(w)
  {
    && Found(w, i) && DetailOk(Markers(true)[i].needle, detail)
    && DetailAt(w.tail, HitOf(w, i).value, Markers(true)[i].needle, detail)
  }

  lemma DetailOf(w: Det, n: nat, detail: Bytes)
    requires Ready5(w) && WellFormed(w.tail) && n < |Ordered(w)|
    requires detail == TextOf(w, Ordered(w)[n])
    ensures IsDetail(w, Ordered(w)[n].marker, detail)
  {
    var i := Ordered(w)[n].marker;
    MarkerAt(w, n);
    MarkersAreAscii(true, i);
    DetailIsOk(w.tail, Markers(true)[i].needle, Ordered(w)[n]);
  }
}
