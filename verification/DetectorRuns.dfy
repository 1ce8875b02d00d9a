/** What the detector keeps over whole runs: the window, the fired occurrences of each marker, and
    what a feed reports. */
module DetectorRuns {
  import opened Common
  import opened Utf8
  import opened D = Detector
  import A = Ansi

  // ---- Slices land on character boundaries ----

  /** The window is a Rust string and every cursor is a place in it. */
  predicate Valid(d: Det) {
    && WellFormed(d.tail) && |d.tail| <= TAIL_CAP
    && (|d.cursors| == 0 || |d.cursors| == |Markers(d.codex)|)
    && forall i :: 0 <= i < |d.cursors| ==> d.cursors[i] <= |d.tail| && Boundary(d.tail, d.cursors[i])
  }

  lemma BoundaryInLonger(s: Bytes, t: Bytes, c: nat)
    requires WellFormed(t) && c <= |s| && Boundary(s, c)
    ensures Boundary(s + t, c)
  {
    if c == |s| && t != [] { assert (s + t)[c] == t[0]; }
  }

  lemma SlideValid(d: Det, chunk: Bytes)
    requires Valid(d) && CutOk(d, chunk)
    ensures Valid(Slide(d, chunk)) && WellFormed(d.tail + Text(d, chunk))
  {
    var text := Text(d, chunk);
    var longer := d.tail + text;
    var cut := Cut(longer);
    LossyIsWellFormed(A.Strip(d.auto, chunk).1);
    WellFormedConcat(d.tail, text);
    SplitAtBoundary(longer, cut);
    var s := Slide(d, chunk);
    forall i | 0 <= i < |s.cursors| ensures s.cursors[i] <= |s.tail| && Boundary(s.tail, s.cursors[i]) {
      BoundaryInLonger(d.tail, text, d.cursors[i]);
    }
  }

  lemma ReadyValid(d: Det)
    requires Valid(d)
    ensures Valid(Ready(d)) && |Ready(d).cursors| == |Markers(d.codex)|
  {
  }

  /** A marker's occurrence begins and ends on a boundary. */
  lemma OccurrenceBoundaries(s: Bytes, needle: Bytes, p: nat)
    requires WellFormed(s) && Occurs(s, needle, p) && needle != [] && IsAscii(needle)
    ensures Boundary(s, p) && Boundary(s, p + |needle|)
  {
    assert s[p] == s[p..p + |needle|][0];
    assert s[p + |needle| - 1] == s[p..p + |needle|][|needle| - 1];
    BoundaryAfterAscii(s, p + |needle|);
  }

  lemma AdvancedValid(d: Det)
    requires Valid(d) && |d.cursors| == |Markers(d.codex)|
    ensures Valid(d.(cursors := Advanced(d)))
  {
    forall i | 0 <= i < |Advanced(d)| ensures Advanced(d)[i] <= |d.tail| && Boundary(d.tail, Advanced(d)[i]) {
      AdvancedBoundary(d, i);
    }
  }

  lemma AdvancedBoundary(d: Det, i: nat)
    requires Valid(d) && i < |d.cursors| == |Markers(d.codex)|
    ensures Advanced(d)[i] <= |d.tail| && Boundary(d.tail, Advanced(d)[i])
  {
    AdvancedIs(d, i);
    MarkersAreAscii(d.codex, i);
    SearchedBoundary(d, d.tail, Markers(d.codex)[i].needle, i);
  }

  lemma AdvancedIs(d: Det, i: nat)
    requires i < |d.cursors| == |Markers(d.codex)|
    ensures var needle, c := Markers(d.codex)[i].needle, d.cursors[i];
            Advanced(d)[i] == CursorPast(d.tail, needle, c)
  {
  }

  /** Where a search of the window leaves a cursor. */
  function CursorPast(tail: Bytes, needle: Bytes, c: nat): nat {
    if Find(tail, needle, c).Some? then Find(tail, needle, c).value + |needle| else c
  }

  lemma SearchedBoundary(d: Det, tail: Bytes, needle: Bytes, i: nat)
    requires Valid(d) && i < |d.cursors| && tail == d.tail && needle != [] && IsAscii(needle)
    ensures CursorPast(tail, needle, d.cursors[i]) <= |tail| && Boundary(tail, CursorPast(tail, needle, d.cursors[i]))
  {
    SearchBoundary(tail, needle, d.cursors[i]);
  }

  lemma SearchBoundary(tail: Bytes, needle: Bytes, c: nat)
    requires WellFormed(tail) && needle != [] && IsAscii(needle) && c <= |tail| && Boundary(tail, c)
    ensures var r := Find(tail, needle, c);
            var c' := if r.Some? then r.value + |needle| else c;
            c' <= |tail| && Boundary(tail, c')
  {
    var r := Find(tail, needle, c);
    if r.Some? { OccurrenceBoundaries(tail, needle, r.value); }
  }

  /** A feed whose cut lands on a boundary leaves a valid detector. */
  lemma FeedKeepsValid(d: Det, chunk: Bytes)
    requires Valid(d) && CutOk(d, chunk)
    ensures Valid(Fed(d, chunk).0)
  {
    SlideValid(d, chunk);
    if d.codex {
      var w := Ready(Slide(d, chunk));
      ReadyValid(Slide(d, chunk));
      AdvancedValid(w);
    }
  }

  // ---- What a feed reports ----

  /** The text on one line: spaces for its newlines, all else as it is. */
  predicate OnOneLine(line: Bytes, text: Bytes) {
    && |line| == |text| && 0x0A !in line
    && forall i :: 0 <= i < |text| ==> line[i] == text[i] || (text[i] == 0x0A && line[i] == 0x20)
  }

  /** A well-formed detail that starts with the whole marker and runs at most 60 bytes past it. */
  predicate DetailOk(needle: Bytes, detail: Bytes) {
    && WellFormed(detail)
    && |needle| <= |detail| <= |needle| + DETAIL_EXTRA
    && OnOneLine(detail[..|needle|], needle)
  }

  /** The detail is the window's text from `p` on, to the last boundary within 60 bytes of the
      marker's end. */
  predicate DetailAt(tail: Bytes, p: nat, needle: Bytes, detail: Bytes) {
    && p + |detail| <= |tail| && OnOneLine(detail, tail[p..p + |detail|])
    && Boundary(tail, p + |detail|)
    && forall e :: p + |detail| < e <= p + |needle| + DETAIL_EXTRA && e <= |tail| ==> !Boundary(tail, e)
  }

  lemma {:induction false} SpacedWellFormed(s: Bytes)
    requires WellFormed(s)
    ensures WellFormed(Spaced(s))
    decreases |s|
  {
    if s != [] {
      var w := Width(s[0]);
      SpacedWellFormed(s[w..]);
      assert Spaced(s)[w..] == Spaced(s[w..]);
    }
  }

  lemma {:induction false} BackUpStops(s: Bytes, low: nat, mark: nat, end: nat)
    requires low <= mark <= end <= |s| && Boundary(s, mark)
    ensures mark <= BackUp(s, low, end) && Boundary(s, BackUp(s, low, end))
    ensures forall e :: BackUp(s, low, end) < e <= end ==> !Boundary(s, e)
    decreases end
  {
    if end > low && !Boundary(s, end) { BackUpStops(s, low, mark, end - 1); }
  }

  lemma SpacedPrefix(s: Bytes, n: nat)
    requires n <= |s|
    ensures Spaced(s)[..n] == Spaced(s[..n])
  {
  }

  lemma PrefixOfSlice(s: Bytes, p: nat, n: nat, e: nat)
    requires p + n <= e <= |s|
    ensures s[p..e][..n] == s[p..p + n]
  {
  }

  /** A slice that starts with the marker and ends on a boundary. */
  lemma SliceIsOk(tail: Bytes, needle: Bytes, p: nat, e: nat)
    requires WellFormed(tail) && Occurs(tail, needle, p) && Boundary(tail, p)
    requires p + |needle| <= e <= |tail| && e <= p + |needle| + DETAIL_EXTRA && Boundary(tail, e)
    ensures DetailOk(needle, Spaced(tail[p..e]))
  {
    SliceWellFormed(tail, p, e);
    SpacedWellFormed(tail[p..e]);
    SpacedPrefix(tail[p..e], |needle|);
    PrefixOfSlice(tail, p, |needle|, e);
    SpacedIsOneLine(needle);
  }

  lemma SpacedIsOneLine(s: Bytes)
    ensures OnOneLine(Spaced(s), s)
  {
  }

  lemma SliceEnds(tail: Bytes, needle: Bytes, p: nat, e: nat)
    requires p <= e <= |tail| && Boundary(tail, e)
    requires forall x :: e < x <= p + |needle| + DETAIL_EXTRA && x <= |tail| ==> !Boundary(tail, x)
    ensures DetailAt(tail, p, needle, Spaced(tail[p..e]))
  {
    SpacedIsOneLine(tail[p..e]);
  }

  /** The loop that backs up to a boundary never cuts into the marker. */
  lemma DetailIsOk(tail: Bytes, needle: Bytes, h: Hit)
    requires WellFormed(tail) && Occurs(tail, needle, h.pos) && needle != [] && IsAscii(needle)
    ensures DetailOk(needle, Detail(tail, h, |needle|)) && DetailAt(tail, h.pos, needle, Detail(tail, h, |needle|))
  {
    OccurrenceBoundaries(tail, needle, h.pos);
    var far := h.pos + |needle| + DETAIL_EXTRA;
    var end := if far < |tail| then far else |tail|;
    BackUpStops(tail, h.pos, h.pos + |needle|, end);
    var e := BackUp(tail, h.pos, end);
    SliceIsOk(tail, needle, h.pos, e);
    SliceEnds(tail, needle, h.pos, e);
    assert e == DetailEnd(tail, h.pos, |needle|);
  }

  predicate HitReal(d: Det, h: Hit) {
    h.marker < |Markers(d.codex)| && Occurs(d.tail, Markers(d.codex)[h.marker].needle, h.pos)
  }

  lemma {:induction false} HitsAreReal(d: Det, n: nat)
    requires n <= |Markers(d.codex)| == |d.cursors|
    ensures forall i :: 0 <= i < |Hits(d, n)| ==> HitReal(d, Hits(d, n)[i])
    decreases n
  {
    if n > 0 { HitsAreReal(d, n - 1); }
  }

  lemma OrderedAreReal(d: Det)
    requires |Markers(d.codex)| == |d.cursors|
    ensures forall i :: 0 <= i < |Ordered(d)| ==> HitReal(d, Ordered(d)[i])
    ensures InOrder(Ordered(d)) && multiset(Ordered(d)) == multiset(Hits(d, |d.cursors|))
  {
    HitsAreReal(d, |d.cursors|);
    SortedIsSort(Hits(d, |d.cursors|));
    forall i | 0 <= i < |Ordered(d)| ensures HitReal(d, Ordered(d)[i]) {
      assert Ordered(d)[i] in multiset(Hits(d, |d.cursors|));
    }
  }

  /** The report's detail is that of one of the hits, whose status is the final one. */
  predicate FromAHit(d: Det, hits: seq<Hit>, r: Report, i: nat) {
    && i < |hits| && HitIn(d, hits[i])
    && r.status == Some(Markers(d.codex)[hits[i].marker].status)
    && r.detail == Detail(d.tail, hits[i], |Markers(d.codex)[hits[i].marker].needle|)
  }

  lemma {:induction false} ReportOfHits(r: Report, d: Det, hits: seq<Hit>)
    requires !r.changed && forall i :: 0 <= i < |hits| ==> HitIn(d, hits[i])
    ensures var e := ApplyAll(r, d, hits);
            && (hits != [] ==> e.status == Some(Markers(d.codex)[hits[|hits| - 1].marker].status))
            && (e.changed ==> exists i: nat :: FromAHit(d, hits, e, i))
            && (!e.changed ==> e.detail == r.detail && e.status == r.status)
    decreases |hits|
  {
    if hits != [] {
      var pre, h := hits[..|hits| - 1], hits[|hits| - 1];
      ReportOfHits(r, d, pre);
      var before, e := ApplyAll(r, d, pre), ApplyAll(r, d, hits);
      if e.changed {
        if e == before {
          var i: nat :| FromAHit(d, pre, before, i);
          assert FromAHit(d, hits, e, i);
        } else {
          assert FromAHit(d, hits, e, |hits| - 1);
        }
      }
    }
  }

  lemma {:induction false} HitsAreAll(d: Det, n: nat, h: Hit)
    requires n <= |Markers(d.codex)| == |d.cursors|
    ensures h in Hits(d, n) <==> h.marker < n && HitOf(d, h.marker) == Some(h.pos)
    decreases n
  {
    if n > 0 { HitsAreAll(d, n - 1, h); }
  }

  /** Marker `i` is found, and no marker is found later in the window (nor at the same place with
      a higher index). */
  predicate FoundLast(w: Det, i: nat)
    requires |Markers(w.codex)| == |w.cursors|
  {
    && i < |w.cursors| && HitOf(w, i).Some?
    && forall j :: 0 <= j < |w.cursors| && HitOf(w, j).Some? ==>
         Before(Hit(HitOf(w, j).value, j), Hit(HitOf(w, i).value, i))
  }

  lemma OrderedAreAll(w: Det, h: Hit)
    requires |Markers(w.codex)| == |w.cursors|
    ensures h in Ordered(w) <==> h.marker < |w.cursors| && HitOf(w, h.marker) == Some(h.pos)
  {
    HitsAreAll(w, |w.cursors|, h);
    OrderedAreReal(w);
    assert h in Ordered(w) <==> h in multiset(Ordered(w));
  }

  lemma LastComesLast(hits: seq<Hit>, h: Hit)
    requires InOrder(hits) && h in hits
    ensures Before(h, hits[|hits| - 1])
  {
  }

  lemma LastIsFoundLast(w: Det)
    requires |Markers(w.codex)| == |w.cursors|
    ensures Ordered(w) == [] <==> forall i :: 0 <= i < |w.cursors| ==> HitOf(w, i).None?
    ensures Ordered(w) != [] ==> FoundLast(w, Ordered(w)[|Ordered(w)| - 1].marker)
  {
    var hits := Ordered(w);
    forall j | 0 <= j < |w.cursors| && HitOf(w, j).Some?
      ensures hits != [] && Before(Hit(HitOf(w, j).value, j), hits[|hits| - 1])
    {
      OrderedAreAll(w, Hit(HitOf(w, j).value, j));
      OrderedAreReal(w);
      LastComesLast(hits, Hit(HitOf(w, j).value, j));
    }
    if hits != [] { OrderedAreAll(w, hits[|hits| - 1]); }
  }

  /** After a feed in which some marker is found the status is that of the marker found last;
      otherwise nothing changes and nothing is reported. */
  lemma {:induction false} FeedStatus(d: Det, chunk: Bytes)
    requires d.codex
    ensures var w, (d', snap) := Ready(Slide(d, chunk)), Fed(d, chunk);
            if forall i :: 0 <= i < |w.cursors| ==> HitOf(w, i).None? then
              d'.status == d.status && d'.detail == d.detail && snap.None?
            else exists i: nat :: FoundLast(w, i) && d'.status == Some(Markers(true)[i].status)
  {
    var w := Ready(Slide(d, chunk));
    OrderedAreReal(w);
    LastIsFoundLast(w);
    ReportOfHits(Report(w.status, w.detail, false), w, Ordered(w));
  }

  /** Marker `i`, found in this feed, has the status, and the detail is its text. */
  predicate Explains(w: Det, i: nat, status: Option<Status>, detail: Bytes)
    requires |Markers(w.codex)| == |w.cursors|
  {
    && i < |w.cursors| && HitOf(w, i).Some?
    && status == Some(Markers(w.codex)[i].status)
    && DetailOk(Markers(w.codex)[i].needle, detail)
    && DetailAt(w.tail, HitOf(w, i).value, Markers(w.codex)[i].needle, detail)
  }

  lemma HitExplains(w: Det, h: Hit, r: Report)
    requires w.codex && WellFormed(w.tail) && |w.cursors| == |Markers(true)| && h in Ordered(w) && HitIn(w, h)
    requires r.status == Some(Markers(true)[h.marker].status)
    requires r.detail == Detail(w.tail, h, |Markers(true)[h.marker].needle|)
    ensures Explains(w, h.marker, r.status, r.detail)
  {
    OrderedAreAll(w, h);
    MarkersAreAscii(true, h.marker);
    DetailIsOk(w.tail, Markers(true)[h.marker].needle, h);
  }

  lemma ReportIsExplained(w: Det, r: Report)
    requires w.codex && WellFormed(w.tail) && |w.cursors| == |Markers(true)| && !r.changed
    ensures var e := ApplyAll(r, w, Ordered(w)); e.changed ==> exists i: nat :: Explains(w, i, e.status, e.detail)
  {
    var hits := Ordered(w);
    ReportOfHits(r, w, hits);
    var e := ApplyAll(r, w, hits);
    if e.changed {
      var i: nat :| FromAHit(w, hits, e, i);
      HitExplains(w, hits[i], e);
    }
  }

  /** A snapshot is reported exactly when a detail was written. That detail is the text of a marker
      found in this feed whose status is the final one: well-formed, the whole marker first, and up
      to the last boundary at most 60 bytes on. */
  lemma FeedDetail(d: Det, chunk: Bytes)
    requires Valid(d) && CutOk(d, chunk) && d.codex
    ensures var w, (d', snap) := Ready(Slide(d, chunk)), Fed(d, chunk);
            if snap.None? then d'.detail == d.detail && d'.status == d.status
            else snap == Snap(d') && exists i: nat :: Explains(w, i, d'.status, d'.detail)
  {
    SlideValid(d, chunk);
    var w := Ready(Slide(d, chunk));
    var r := Report(w.status, w.detail, false);
    ReportOfHits(r, w, Ordered(w));
    ReportIsExplained(w, r);
  }

  // ---- Runs ----

  /** The detector with what a run has seen: the whole stripped text and, for each marker, the
      positions in it that fired. */
  datatype Log = Log(d: Det, stream: Bytes, fired: seq<seq<int>>)

  predicate Shape(l: Log) { |l.fired| == |Markers(l.d.codex)| }

  /** Bytes that have left the window. */
  function Base(l: Log): int { |l.stream| - |l.d.tail| }

  function FeedLog(l: Log, chunk: Bytes): (l': Log)
    requires Shape(l)
    ensures Shape(l') && l'.d == Fed(l.d, chunk).0 && l'.d.codex == l.d.codex
  {
    var stream := l.stream + Text(l.d, chunk);
    if !l.d.codex then Log(Fed(l.d, chunk).0, stream, l.fired)
    else
      var w := Ready(Slide(l.d, chunk));
      Log(Fed(l.d, chunk).0, stream,
          seq(|l.fired|, i requires 0 <= i < |l.fired| =>
            if HitOf(w, i).Some? then l.fired[i] + [|stream| - |w.tail| + HitOf(w, i).value] else l.fired[i]))
  }

  function Run(codex: bool, chunks: seq<Bytes>): (l: Log)
    ensures Shape(l) && l.d.codex == codex
  {
    if chunks == [] then Log(New(codex), [], seq(|Markers(codex)|, _ => []))
    else FeedLog(Run(codex, chunks[..|chunks| - 1]), chunks[|chunks| - 1])
  }

  /** No cut of the run splits a character. */
  predicate Smooth(codex: bool, chunks: seq<Bytes>) {
    chunks == [] ||
    var pre := chunks[..|chunks| - 1];
    Smooth(codex, pre) && CutOk(Run(codex, pre).d, chunks[|chunks| - 1])
  }

  lemma {:induction false} RunValid(codex: bool, chunks: seq<Bytes>)
    requires Smooth(codex, chunks)
    ensures Valid(Run(codex, chunks).d)
    decreases |chunks|
  {
    if chunks != [] {
      var pre := chunks[..|chunks| - 1];
      RunValid(codex, pre);
      FeedKeepsValid(Run(codex, pre).d, chunks[|chunks| - 1]);
    }
  }

  // ---- When a feed panics ----

  /** A place where a Rust string may be sliced. */
  predicate SliceOk(s: Bytes, i: nat) { i <= |s| && Boundary(s, i) }

  /** A search starts inside a character or past the end. */
  predicate CursorPanics(w: Det) { exists i :: 0 <= i < |w.cursors| && !SliceOk(w.tail, w.cursors[i]) }

  predicate DetailPanics(w: Det, h: Hit)
    requires HitIn(w, h)
  {
    || !SliceOk(w.tail, h.pos)
    || !SliceOk(w.tail, DetailEnd(w.tail, h.pos, |Markers(w.codex)[h.marker].needle|))
  }

  /** One of the slices of a feed is off a boundary: the cut, the start of a search, or an end of a
      detail. */
  predicate Panics(d: Det, chunk: Bytes) {
    || !CutOk(d, chunk)
    || (d.codex &&
        var w := Ready(Slide(d, chunk));
        || CursorPanics(w)
        || exists i :: 0 <= i < |Ordered(w)| && DetailPanics(w, Ordered(w)[i]))
  }

  lemma DetailIsSliced(tail: Bytes, needle: Bytes, pos: nat)
    requires WellFormed(tail) && Occurs(tail, needle, pos) && needle != [] && IsAscii(needle)
    ensures SliceOk(tail, pos) && SliceOk(tail, DetailEnd(tail, pos, |needle|))
  {
    OccurrenceBoundaries(tail, needle, pos);
    var far := pos + |needle| + DETAIL_EXTRA;
    BackUpStops(tail, pos, pos + |needle|, if far < |tail| then far else |tail|);
  }

  lemma DetailsAreSliced(w: Det, i: nat)
    requires Valid(w) && |w.cursors| == |Markers(w.codex)| && i < |Ordered(w)|
    ensures !DetailPanics(w, Ordered(w)[i])
  {
    var h := Ordered(w)[i];
    OrderedAreReal(w);
    assert HitReal(w, h);
    MarkersAreAscii(w.codex, h.marker);
    DetailIsSliced(w.tail, Markers(w.codex)[h.marker].needle, h.pos);
  }

  /** A valid detector panics exactly when the cut lands inside a character. */
  lemma PanicsExactly(d: Det, chunk: Bytes)
    requires Valid(d)
    ensures Panics(d, chunk) <==> !CutOk(d, chunk)
  {
    if CutOk(d, chunk) && d.codex {
      var w := Ready(Slide(d, chunk));
      SlideValid(d, chunk);
      ReadyValid(Slide(d, chunk));
      forall i | 0 <= i < |Ordered(w)| ensures !DetailPanics(w, Ordered(w)[i]) { DetailsAreSliced(w, i); }
    }
  }

  // ---- The window is the end of the stream ----

  lemma SlideWindow(l: Log, chunk: Bytes)
    requires Shape(l) && l.d.tail == TakeLast(l.stream, TAIL_CAP)
    ensures FeedLog(l, chunk).d.tail == TakeLast(FeedLog(l, chunk).stream, TAIL_CAP)
    ensures FeedLog(l, chunk).d.tail == Slide(l.d, chunk).tail && FeedLog(l, chunk).d.auto == A.Strip(l.d.auto, chunk).0
  {
    var longer := l.d.tail + Text(l.d, chunk);
    assert longer[Cut(longer)..] == TakeLast(longer, TAIL_CAP);
    TakeLastAppend(l.stream, Text(l.d, chunk), TAIL_CAP);
  }

  /** For every run the window is the last 16 KiB of everything appended to it, and the automaton
      is where stripping the whole output leaves it. */
  lemma {:induction false} WindowIsEndOfStream(codex: bool, chunks: seq<Bytes>)
    ensures Run(codex, chunks).d.tail == TakeLast(Run(codex, chunks).stream, TAIL_CAP)
    ensures Run(codex, chunks).d.auto == A.Strip(A.START, Flatten(chunks)).0
    decreases |chunks|
  {
    if chunks != [] {
      var pre, chunk := chunks[..|chunks| - 1], chunks[|chunks| - 1];
      WindowIsEndOfStream(codex, pre);
      SlideWindow(Run(codex, pre), chunk);
      A.StripConcat(A.START, Flatten(pre), chunk);
    }
  }

  // ---- When a run panics ----

  /** The edge of the window, as a place in the whole text, is not inside a character. */
  predicate EdgeOk(stream: Bytes) { |stream| > TAIL_CAP ==> Boundary(stream, |stream| - TAIL_CAP) }

  predicate EdgeAt(codex: bool, chunks: seq<Bytes>, k: nat)
    requires k <= |chunks|
  {
    EdgeOk(Run(codex, chunks[..k]).stream)
  }

  predicate PanicsAt(codex: bool, chunks: seq<Bytes>, k: nat)
    requires k < |chunks|
  {
    Panics(Run(codex, chunks[..k]).d, chunks[k])
  }

  predicate EdgesOk(codex: bool, chunks: seq<Bytes>) {
    forall k :: 0 <= k <= |chunks| ==> EdgeAt(codex, chunks, k)
  }

  /** No feed of the run panics. */
  predicate PanicFree(codex: bool, chunks: seq<Bytes>) {
    forall k :: 0 <= k < |chunks| ==> !PanicsAt(codex, chunks, k)
  }

  lemma EdgeStep(tail: Bytes, stream: Bytes, text: Bytes)
    requires tail == TakeLast(stream, TAIL_CAP) && EdgeOk(stream)
    ensures Boundary(tail + text, Cut(tail + text)) <==> EdgeOk(stream + text)
  {
    if |stream| > TAIL_CAP {
      var e := |stream + text| - TAIL_CAP;
      assert Cut(tail + text) == |text|;
      if text != [] { assert (tail + text)[|text|] == (stream + text)[e]; } else { assert stream + text == stream; }
    }
  }

  lemma PrefixAt(codex: bool, chunks: seq<Bytes>, n: nat, k: nat)
    requires k <= n <= |chunks|
    ensures EdgeAt(codex, chunks[..n], k) <==> EdgeAt(codex, chunks, k)
    ensures k < n ==> (PanicsAt(codex, chunks[..n], k) <==> PanicsAt(codex, chunks, k))
  {
    assert chunks[..n][..k] == chunks[..k];
  }

  lemma EdgesDown(codex: bool, chunks: seq<Bytes>)
    requires chunks != [] && EdgesOk(codex, chunks)
    ensures EdgesOk(codex, chunks[..|chunks| - 1]) && EdgeAt(codex, chunks, |chunks|)
  {
    var pre := chunks[..|chunks| - 1];
    forall k | 0 <= k <= |pre| ensures EdgeAt(codex, pre, k) {
      PrefixAt(codex, chunks, |pre|, k);
      assert EdgeAt(codex, chunks, k);
    }
  }

  lemma EdgesUp(codex: bool, chunks: seq<Bytes>)
    requires chunks != [] && EdgesOk(codex, chunks[..|chunks| - 1]) && EdgeAt(codex, chunks, |chunks|)
    ensures EdgesOk(codex, chunks)
  {
    var pre := chunks[..|chunks| - 1];
    forall k | 0 <= k <= |chunks| ensures EdgeAt(codex, chunks, k) {
      if k <= |pre| {
        PrefixAt(codex, chunks, |pre|, k);
        assert EdgeAt(codex, pre, k);
      }
    }
  }

  lemma PanicFreeSnoc(codex: bool, chunks: seq<Bytes>)
    requires chunks != []
    ensures PanicFree(codex, chunks) <==>
            PanicFree(codex, chunks[..|chunks| - 1]) && !PanicsAt(codex, chunks, |chunks| - 1)
  {
    var n := |chunks| - 1;
    forall k | 0 <= k < n ensures PanicsAt(codex, chunks[..n], k) <==> PanicsAt(codex, chunks, k) {
      PrefixAt(codex, chunks, n, k);
    }
  }

  lemma LastEdge(codex: bool, chunks: seq<Bytes>)
    requires chunks != [] && EdgeAt(codex, chunks, |chunks| - 1)
    ensures CutOk(Run(codex, chunks[..|chunks| - 1]).d, chunks[|chunks| - 1]) <==> EdgeAt(codex, chunks, |chunks|)
  {
    var pre, chunk := chunks[..|chunks| - 1], chunks[|chunks| - 1];
    var l := Run(codex, pre);
    WindowIsEndOfStream(codex, pre);
    EdgeStep(l.d.tail, l.stream, Text(l.d, chunk));
    assert chunks[..|chunks|] == chunks;
  }

  lemma {:induction false} SmoothExactly(codex: bool, chunks: seq<Bytes>)
    ensures Smooth(codex, chunks) <==> EdgesOk(codex, chunks)
    decreases |chunks|
  {
    if chunks == [] {
      assert chunks[..0] == [];
    } else {
      var pre := chunks[..|chunks| - 1];
      SmoothExactly(codex, pre);
      if EdgesOk(codex, chunks) { EdgesDown(codex, chunks); }
      if EdgesOk(codex, pre) {
        assert EdgeAt(codex, pre, |pre|);
        PrefixAt(codex, chunks, |pre|, |pre|);
        LastEdge(codex, chunks);
        if EdgeAt(codex, chunks, |chunks|) { EdgesUp(codex, chunks); }
      }
    }
  }

  lemma {:induction false} PanicFreeIsSmooth(codex: bool, chunks: seq<Bytes>)
    ensures PanicFree(codex, chunks) <==> Smooth(codex, chunks)
    decreases |chunks|
  {
    if chunks != [] {
      var pre := chunks[..|chunks| - 1];
      PanicFreeIsSmooth(codex, pre);
      PanicFreeSnoc(codex, chunks);
      if Smooth(codex, pre) {
        RunValid(codex, pre);
        PanicsExactly(Run(codex, pre).d, chunks[|chunks| - 1]);
      }
    }
  }

  /** For every run, with or without an agent: no feed panics if and only if at no time the byte 16 KiB
      before the end of the text so far is inside a character. */
  lemma {:induction false} RunPanicsExactly(codex: bool, chunks: seq<Bytes>)
    ensures PanicFree(codex, chunks) <==> EdgesOk(codex, chunks)
  {
    SmoothExactly(codex, chunks);
    PanicFreeIsSmooth(codex, chunks);
  }

  /** Every chunk strips to complete characters. */
  predicate WholeCharacters(a: A.Auto, chunks: seq<Bytes>)
    decreases |chunks|
  {
    chunks == [] || (WellFormed(A.Strip(a, chunks[0]).1) && WholeCharacters(A.Strip(a, chunks[0]).0, chunks[1..]))
  }

  lemma {:induction false} WholeCharactersSnoc(a: A.Auto, pre: seq<Bytes>, chunk: Bytes)
    ensures WholeCharacters(a, pre + [chunk]) <==>
            WholeCharacters(a, pre) && WellFormed(A.Strip(A.Strip(a, Flatten(pre)).0, chunk).1)
    decreases |pre|
  {
    if pre == [] {
      assert pre + [chunk] == [chunk] && [chunk][1..] == [];
    } else {
      assert (pre + [chunk])[1..] == pre[1..] + [chunk];
      var a1 := A.Strip(a, pre[0]).0;
      WholeCharactersSnoc(a1, pre[1..], chunk);
      assert pre == [pre[0]] + pre[1..] && Flatten([pre[0]]) == pre[0] by { FlattenSnoc([], pre[0]); }
      FlattenConcat([pre[0]], pre[1..]);
      A.StripConcat(a, pre[0], Flatten(pre[1..]));
    }
  }

  /** Appending pieces that are no shorter than meant gives what is meant only piece by piece. */
  lemma SamePieces(s: Bytes, l: Bytes, t: Bytes, u: Bytes)
    requires |s| >= |t| && |l| >= |u|
    ensures s + l == t + u <==> s == t && l == u
  {
    if s + l == t + u {
      assert |s + l| == |t + u|;
      assert s == (s + l)[..|s|] && t == (t + u)[..|s|];
      assert l == (s + l)[|s|..] && u == (t + u)[|s|..];
    }
  }

  /** The text appended over a run is the stripped output of the run, however it was chunked, if
      and only if every chunk strips to well-formed text. */
  lemma {:induction false} ChunkingDoesNotMatter(codex: bool, chunks: seq<Bytes>)
    ensures Run(codex, chunks).stream == A.Strip(A.START, Flatten(chunks)).1 <==> WholeCharacters(A.START, chunks)
    ensures |Run(codex, chunks).stream| >= |A.Strip(A.START, Flatten(chunks)).1|
    decreases |chunks|
  {
    if chunks != [] {
      var pre, chunk := chunks[..|chunks| - 1], chunks[|chunks| - 1];
      assert chunks == pre + [chunk];
      ChunkingDoesNotMatter(codex, pre);
      WholeCharactersSnoc(A.START, pre, chunk);
      WindowIsEndOfStream(codex, pre);
      A.StripConcat(A.START, Flatten(pre), chunk);
      var text := A.Strip(Run(codex, pre).d.auto, chunk).1;
      LossyGrows(text);
      LossyIsWellFormed(text);
      SamePieces(Run(codex, pre).stream, Lossy(text), A.Strip(A.START, Flatten(pre)).1, text);
    }
  }

  lemma AsciiParts(x: Bytes, y: Bytes)
    requires IsAscii(x + y)
    ensures IsAscii(x) && IsAscii(y)
  {
    forall i | 0 <= i < |x| ensures x[i] <= 0x7F { assert (x + y)[i] == x[i]; }
    forall i | 0 <= i < |y| ensures y[i] <= 0x7F { assert (x + y)[|x| + i] == y[i]; }
  }

  lemma {:induction false} AsciiWholeCharacters(a: A.Auto, chunks: seq<Bytes>)
    requires IsAscii(A.Strip(a, Flatten(chunks)).1)
    ensures WholeCharacters(a, chunks)
    decreases |chunks|
  {
    if chunks != [] {
      var first, rest := chunks[0], chunks[1..];
      assert chunks == [first] + rest && Flatten([first]) == first by { FlattenSnoc([], first); }
      FlattenConcat([first], rest);
      A.StripConcat(a, first, Flatten(rest));
      var x := A.Strip(a, first).1;
      AsciiParts(x, A.Strip(A.Strip(a, first).0, Flatten(rest)).1);
      AsciiWellFormed(x);
      AsciiWholeCharacters(A.Strip(a, first).0, rest);
    }
  }

  /** Single-byte output: no feed panics, and the window never depends on chunk boundaries. */
  lemma {:induction false} SingleByteOutput(codex: bool, chunks: seq<Bytes>)
    requires IsAscii(A.Strip(A.START, Flatten(chunks)).1)
    ensures Run(codex, chunks).d.tail == TakeLast(A.Strip(A.START, Flatten(chunks)).1, TAIL_CAP)
    ensures Smooth(codex, chunks)
    decreases |chunks|
  {
    AsciiWholeCharacters(A.START, chunks);
    ChunkingDoesNotMatter(codex, chunks);
    WindowIsEndOfStream(codex, chunks);
    if chunks != [] {
      var pre, chunk := chunks[..|chunks| - 1], chunks[|chunks| - 1];
      A.StripConcat(A.START, Flatten(pre), chunk);
      WindowIsEndOfStream(codex, pre);
      AsciiParts(A.Strip(A.START, Flatten(pre)).1, A.Strip(Run(codex, pre).d.auto, chunk).1);
      SingleByteOutput(codex, pre);
      AsciiStep(Run(codex, pre).d, A.Strip(A.START, Flatten(pre)).1, chunk);
    }
  }

  lemma AsciiStep(d: Det, stream: Bytes, chunk: Bytes)
    requires d.tail == TakeLast(stream, TAIL_CAP) && IsAscii(stream) && IsAscii(A.Strip(d.auto, chunk).1)
    ensures CutOk(d, chunk)
  {
    var text := A.Strip(d.auto, chunk).1;
    AsciiWellFormed(text);
    LossyIsWellFormed(text);
    var longer := d.tail + text;
    assert IsAscii(longer);
  }

  /** A character split between two chunks is lost, so the window then does depend on chunking. */
  lemma {:induction false} SplitCharacterIsLost()
    ensures A.Strip(A.START, [0xC3, 0xA9]).1 == [0xC3, 0xA9]
    ensures Run(false, [[0xC3, 0xA9]]).d.tail == [0xC3, 0xA9]
    ensures Run(false, [[0xC3], [0xA9]]).d.tail == REPLACEMENT + REPLACEMENT
  {
    A.PlainTextPasses(A.START, [0xC3, 0xA9]);
    A.PlainTextPasses(A.START, [0xC3]);
    A.PlainTextPasses(A.START, [0xA9]);
    assert Lossy([0xC3, 0xA9]) == [0xC3, 0xA9] by { CharWellFormed([0xC3, 0xA9]); LossyIsWellFormed([0xC3, 0xA9]); }
    assert [0xC3][1..] == [] && [0xA9][1..] == [];
    assert Lossy([0xC3]) == REPLACEMENT && Lossy([0xA9]) == REPLACEMENT;
    assert [[0xC3, 0xA9]][..0] == [] && [[0xC3], [0xA9]][..1] == [[0xC3]] && [[0xC3]][..0] == [];
    assert Run(false, [[0xC3]]).d.tail == REPLACEMENT && Run(false, [[0xC3]]).d.auto == A.START;
  }

  /** The cut can split a character: a two-byte character followed by one byte less than the
      window holds. */
  lemma CutCanSplitACharacter(codex: bool, fill: Bytes)
    requires |fill| == TAIL_CAP - 1 && IsAscii(fill) && A.ESC !in fill && A.CR !in fill
    ensures !CutOk(New(codex), [0xC3, 0xA9] + fill) && Panics(New(codex), [0xC3, 0xA9] + fill)
  {
    var chunk: Bytes := [0xC3, 0xA9] + fill;
    A.PlainTextPasses(A.START, chunk);
    CharWellFormed([0xC3, 0xA9]);
    AsciiWellFormed(fill);
    WellFormedConcat([0xC3, 0xA9], fill);
    LossyIsWellFormed(chunk);
    assert New(codex).tail + Text(New(codex), chunk) == chunk && chunk[1] == 0xA9;
  }
}
