/** The detector's fired occurrences over whole runs (daemon/src/detector.rs), as positions in the
    whole stripped text: the window's base plus the position in the window. */
module DetectorOccurrences {
  import opened Common
  import opened D = Detector
  import opened R = DetectorRuns

  function Cursor(l: Log, i: nat): nat
    requires i < |Markers(l.d.codex)|
  {
    if |l.d.cursors| == |Markers(l.d.codex)| then l.d.cursors[i] else 0
  }

  /** Where the greedy search goes on after the fired occurrences. */
  function End(needle: Bytes, fired: seq<int>): int {
    if fired == [] then 0 else fired[|fired| - 1] + |needle|
  }

  /** Each fired position is the first occurrence past the previous one. */
  predicate Chain(s: Bytes, needle: Bytes, fired: seq<int>) {
    fired == [] ||
    var pre := fired[..|fired| - 1];
    Chain(s, needle, pre) && End(needle, pre) >= 0 && Find(s, needle, End(needle, pre)) == Some(fired[|fired| - 1])
  }

  /** The greedy left-to-right occurrences from `from` on. */
  function Greedy(s: Bytes, needle: Bytes, from: nat): seq<int>
    requires needle != []
    decreases if from <= |s| then |s| - from + 1 else 0
  {
    match Find(s, needle, from)
    case None => []
    case Some(p) => [p] + Greedy(s, needle, p + |needle|)
  }

  predicate Real(stream: Bytes, needle: Bytes, fired: seq<int>) {
    forall k :: 0 <= k < |fired| ==> 0 <= fired[k] && Occurs(stream, needle, fired[k])
  }

  predicate Apart(width: nat, fired: seq<int>) {
    forall j, k :: 0 <= j < k < |fired| ==> fired[j] + width <= fired[k]
  }

  /** What one marker's history satisfies; `base` bytes have left the window. */
  predicate MarkerOk(stream: Bytes, base: int, cursor: nat, needle: Bytes, fired: seq<int>) {
    && Real(stream, needle, fired)
    && Apart(|needle|, fired)
    && End(needle, fired) <= base + cursor
    && (base == 0 ==> Chain(stream, needle, fired) && cursor == End(needle, fired))
  }

  lemma OccursInLonger(s: Bytes, t: Bytes, needle: Bytes, q: nat)
    requires q + |needle| <= |s|
    ensures Occurs(s + t, needle, q) <==> Occurs(s, needle, q)
  {
    assert (s + t)[q..q + |needle|] == s[q..q + |needle|];
  }

  lemma FindInLonger(s: Bytes, t: Bytes, needle: Bytes, from: nat)
    requires Find(s, needle, from).Some?
    ensures Find(s + t, needle, from) == Find(s, needle, from)
  {
    var p := Find(s, needle, from).value;
    forall q: nat | from <= q <= p ensures Occurs(s + t, needle, q) <==> q == p {
      OccursInLonger(s, t, needle, q);
    }
    assert Occurs(s + t, needle, p);
    assert p >= Find(s + t, needle, from).value >= from;
  }

  lemma {:induction false} ChainInLonger(s: Bytes, t: Bytes, needle: Bytes, fired: seq<int>)
    requires Chain(s, needle, fired)
    ensures Chain(s + t, needle, fired)
    decreases |fired|
  {
    if fired != [] {
      var pre := fired[..|fired| - 1];
      ChainInLonger(s, t, needle, pre);
      FindInLonger(s, t, needle, End(needle, pre));
    }
  }

  /** More text, and a window moved right by no more than its cursor is moved left. */
  lemma Grow(s: Bytes, t: Bytes, base: int, cursor: nat, base': int, cursor': nat, needle: Bytes, fired: seq<int>)
    requires MarkerOk(s, base, cursor, needle, fired) && 0 <= base
    requires base + cursor <= base' + cursor' && (base' == 0 ==> base == 0 && cursor' == cursor)
    ensures MarkerOk(s + t, base', cursor', needle, fired)
  {
    forall k | 0 <= k < |fired| ensures 0 <= fired[k] && Occurs(s + t, needle, fired[k]) {
      assert (s + t)[fired[k]..fired[k] + |needle|] == s[fired[k]..fired[k] + |needle|];
    }
    if base' == 0 { ChainInLonger(s, t, needle, fired); }
  }

  lemma OccursInStream(stream: Bytes, tail: Bytes, needle: Bytes, q: nat)
    requires |tail| <= |stream| && tail == stream[|stream| - |tail|..] && Occurs(tail, needle, q)
    ensures Occurs(stream, needle, |stream| - |tail| + q)
  {
    var p := |stream| - |tail| + q;
    assert tail[q..q + |needle|] == stream[p..p + |needle|];
  }

  lemma ApartSnoc(width: nat, fired: seq<int>, p: int)
    requires Apart(width, fired) && (fired != [] ==> fired[|fired| - 1] + width <= p)
    ensures Apart(width, fired + [p])
  {
    forall j, k | 0 <= j < k < |fired + [p]| ensures (fired + [p])[j] + width <= (fired + [p])[k] {
      assert k == |fired| && j < k - 1 ==> fired[j] + width <= fired[k - 1];
    }
  }

  lemma HitInStream(stream: Bytes, tail: Bytes, base: int, needle: Bytes, c: nat, q: nat)
    requires base == |stream| - |tail| >= 0 && tail == stream[base..] && Find(tail, needle, c) == Some(q)
    ensures Occurs(stream, needle, base + q)
    ensures base == 0 ==> Find(stream, needle, c) == Some(q)
  {
    assert Occurs(tail, needle, q);
    OccursInStream(stream, tail, needle, q);
    WholeWindow(stream, tail, base);
  }

  lemma WholeWindow(stream: Bytes, tail: Bytes, base: int)
    requires base == |stream| - |tail| >= 0 && tail == stream[base..]
    ensures base == 0 ==> tail == stream
  {
  }

  /** A hit past the cursor. */
  lemma Fire(stream: Bytes, base: int, cursor: nat, needle: Bytes, fired: seq<int>, q: nat)
    requires 0 <= base && cursor <= q && MarkerOk(stream, base, cursor, needle, fired)
    requires Occurs(stream, needle, base + q)
    requires base == 0 ==> Find(stream, needle, cursor) == Some(q)
    ensures MarkerOk(stream, base, q + |needle|, needle, fired + [base + q])
  {
    assert (fired + [base + q])[..|fired|] == fired;
    ApartSnoc(|needle|, fired, base + q);
  }

  /** The base and the cursors after the window has moved: their sum never decreases. */
  lemma WindowMoves(l: Log, chunk: Bytes, i: nat)
    requires Shape(l) && l.d.codex && i < |Markers(true)| && l.d.tail == TakeLast(l.stream, TAIL_CAP)
    ensures var w := Ready(Slide(l.d, chunk));
            var base' := |l.stream + Text(l.d, chunk)| - |w.tail|;
            && 0 <= Base(l) <= base'
            && Base(l) + Cursor(l, i) <= base' + w.cursors[i]
            && (base' == 0 ==> w.cursors[i] == Cursor(l, i))
  {
  }

  /** One marker searched once, on plain values: its cursor and fired list afterwards. */
  predicate Searched(tail: Bytes, base: int, needle: Bytes, c: nat, fired: seq<int>, cursor': nat, fired': seq<int>) {
    var hit := Find(tail, needle, c);
    if hit.Some? then cursor' == hit.value + |needle| && fired' == fired + [base + hit.value]
    else cursor' == c && fired' == fired
  }

  /** One search in a window that is the end of `stream`. */
  lemma SearchOnce(
      stream: Bytes, tail: Bytes, base: int, c: nat, needle: Bytes, fired: seq<int>, cursor': nat, fired': seq<int>)
    requires base == |stream| - |tail| >= 0 && tail == stream[base..]
    requires MarkerOk(stream, base, c, needle, fired)
    requires Searched(tail, base, needle, c, fired, cursor', fired')
    ensures MarkerOk(stream, base, cursor', needle, fired')
  {
    var hit := Find(tail, needle, c);
    if hit.Some? {
      HitInStream(stream, tail, base, needle, c, hit.value);
      Fire(stream, base, c, needle, fired, hit.value);
    }
  }

  lemma CursorAfter(l: Log, chunk: Bytes, i: nat)
    requires Shape(l) && l.d.codex && i < |Markers(true)|
    ensures Cursor(FeedLog(l, chunk), i) == Advanced(Ready(Slide(l.d, chunk)))[i]
  {
  }

  lemma FiredAfter(l: Log, chunk: Bytes, i: nat)
    requires Shape(l) && l.d.codex && i < |Markers(true)|
    ensures var l', w := FeedLog(l, chunk), Ready(Slide(l.d, chunk));
            && l'.stream == l.stream + Text(l.d, chunk) && l'.d.tail == w.tail
            && l'.fired[i] == if HitOf(w, i).Some? then l.fired[i] + [Base(l') + HitOf(w, i).value] else l.fired[i]
  {
  }

  /** What a feed does to marker `i`, with `w` the moved window. */
  lemma FeedOne(l: Log, chunk: Bytes, i: nat)
    requires Shape(l) && l.d.codex && i < |Markers(true)|
    ensures var l', w := FeedLog(l, chunk), Ready(Slide(l.d, chunk));
            && l'.stream == l.stream + Text(l.d, chunk) && l'.d.tail == w.tail
            && Searched(w.tail, Base(l'), Markers(true)[i].needle, w.cursors[i], l.fired[i], Cursor(l', i), l'.fired[i])
  {
    var w := Ready(Slide(l.d, chunk));
    CursorAfter(l, chunk, i);
    FiredAfter(l, chunk, i);
    var hit := HitOf(w, i);
    assert hit == Find(w.tail, Markers(true)[i].needle, w.cursors[i]);
  }

  predicate LogOk(l: Log, i: nat)
    requires Shape(l) && l.d.codex && i < |Markers(true)|
  {
    MarkerOk(l.stream, Base(l), Cursor(l, i), Markers(true)[i].needle, l.fired[i])
  }

  lemma MarkerStep(l: Log, chunk: Bytes, i: nat)
    requires Shape(l) && l.d.codex && i < |Markers(true)| && l.d.tail == TakeLast(l.stream, TAIL_CAP)
    requires LogOk(l, i)
    ensures LogOk(FeedLog(l, chunk), i)
  {
    var w, l', t := Ready(Slide(l.d, chunk)), FeedLog(l, chunk), Text(l.d, chunk);
    WindowMoves(l, chunk, i);
    SlideWindow(l, chunk);
    FeedOne(l, chunk, i);
    Grow(l.stream, t, Base(l), Cursor(l, i), Base(l'), w.cursors[i], Markers(true)[i].needle, l.fired[i]);
    SearchOnce(l'.stream, w.tail, Base(l'), w.cursors[i], Markers(true)[i].needle, l.fired[i],
               Cursor(l', i), l'.fired[i]);
  }

  lemma CursorStep(l: Log, chunk: Bytes, i: nat)
    requires Shape(l) && l.d.codex && i < |Markers(true)| && l.d.tail == TakeLast(l.stream, TAIL_CAP)
    ensures var l' := FeedLog(l, chunk);
            l.fired[i] <= l'.fired[i] && Base(l) + Cursor(l, i) <= Base(l') + Cursor(l', i)
  {
    WindowMoves(l, chunk, i);
    FeedOne(l, chunk, i);
  }

  lemma {:induction false} RunMarkers(chunks: seq<Bytes>, i: nat)
    requires i < |Markers(true)|
    ensures LogOk(Run(true, chunks), i)
    decreases |chunks|
  {
    if chunks != [] {
      var pre := chunks[..|chunks| - 1];
      RunMarkers(pre, i);
      WindowIsEndOfStream(true, pre);
      MarkerStep(Run(true, pre), chunks[|chunks| - 1], i);
    }
  }

  /** For every run: the positions fired for one marker are real occurrences in the whole stripped
      text, strictly increasing and disjoint, so none fires twice. */
  lemma {:induction false} FiredAreDistinctOccurrences(chunks: seq<Bytes>, i: nat)
    requires i < |Markers(true)|
    ensures var l := Run(true, chunks);
            var needle, fired := Markers(true)[i].needle, l.fired[i];
            && (forall k :: 0 <= k < |fired| ==> 0 <= fired[k] && Occurs(l.stream, needle, fired[k]))
            && (forall j, k :: 0 <= j < k < |fired| ==> fired[j] + |needle| <= fired[k] && fired[j] != fired[k])
  {
    RunMarkers(chunks, i);
    MarkersAreAscii(true, i);
  }

  /** No continuation of a run moves base plus cursor back or takes back what fired. */
  lemma {:induction false} CursorsNeverRetreat(chunks: seq<Bytes>, more: seq<Bytes>, i: nat)
    requires i < |Markers(true)|
    ensures var l, l' := Run(true, chunks), Run(true, chunks + more);
            Base(l) + Cursor(l, i) <= Base(l') + Cursor(l', i) && l.fired[i] <= l'.fired[i]
    decreases |more|
  {
    if more == [] {
      assert chunks + more == chunks;
    } else {
      var pre := chunks + more[..|more| - 1];
      assert (chunks + more)[..|chunks + more| - 1] == pre;
      CursorsNeverRetreat(chunks, more[..|more| - 1], i);
      WindowIsEndOfStream(true, pre);
      CursorStep(Run(true, pre), more[|more| - 1], i);
    }
  }

  /** The greedy search from the end of `fired`, one occurrence earlier. */
  lemma GreedyFrom(s: Bytes, needle: Bytes, fired: seq<int>)
    requires needle != [] && Chain(s, needle, fired) && fired != []
    ensures var pre := fired[..|fired| - 1];
            && Chain(s, needle, pre) && 0 <= End(needle, pre) && 0 <= End(needle, fired)
            && Greedy(s, needle, End(needle, pre)) == [fired[|fired| - 1]] + Greedy(s, needle, End(needle, fired))
  {
  }

  lemma {:induction false} ChainIsGreedy(s: Bytes, needle: Bytes, fired: seq<int>)
    requires needle != [] && Chain(s, needle, fired)
    ensures End(needle, fired) >= 0
    ensures Greedy(s, needle, 0) == fired + Greedy(s, needle, End(needle, fired))
    decreases |fired|
  {
    if fired == [] {
      assert Greedy(s, needle, 0) == [] + Greedy(s, needle, 0);
    } else {
      var pre, p := fired[..|fired| - 1], fired[|fired| - 1];
      GreedyFrom(s, needle, fired);
      ChainIsGreedy(s, needle, pre);
      InitLast(fired);
      Regroup(pre, p, Greedy(s, needle, End(needle, fired)), Greedy(s, needle, End(needle, pre)), Greedy(s, needle, 0));
    }
  }

  lemma Regroup(pre: seq<int>, p: int, after: seq<int>, from: seq<int>, all: seq<int>)
    requires all == pre + from && from == [p] + after
    ensures all == pre + [p] + after
  {
  }

  /** Until the window first slides, what fired is a prefix of the greedy left-to-right occurrences
      in the whole stripped text, however the output was chunked. */
  lemma {:induction false} GreedyUntilFirstSlide(chunks: seq<Bytes>, i: nat)
    requires i < |Markers(true)| && |Run(true, chunks).stream| <= TAIL_CAP
    ensures var l, needle := Run(true, chunks), Markers(true)[i].needle;
            && needle != []
            && l.fired[i] <= Greedy(l.stream, needle, 0)
            && Greedy(l.stream, needle, 0)[|l.fired[i]|..] == Greedy(l.stream, needle, Cursor(l, i))
  {
    RunMarkers(chunks, i);
    WindowIsEndOfStream(true, chunks);
    MarkersAreAscii(true, i);
    ChainIsGreedy(Run(true, chunks).stream, Markers(true)[i].needle, Run(true, chunks).fired[i]);
  }
}
