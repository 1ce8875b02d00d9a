/** Positions the detector fires below one already fired (daemon/src/detector.rs): when a later feed
    finds an older occurrence, and a run in which the status goes back. */
module DetectorOlder {
  import opened Common
  import opened Utf8
  import opened D = Detector
  import opened R = DetectorRuns
  import opened O = DetectorOccurrences
  import A = Ansi

  /** The next feed finds marker `i` at this place in the whole text, if at all. */
  function NextFired(l: Log, chunk: Bytes, i: nat): Option<int>
    requires Shape(l) && l.d.codex && i < |Markers(true)|
  {
    var w := Ready(Slide(l.d, chunk));
    match HitOf(w, i)
    case Some(p) => Some(|l.stream + Text(l.d, chunk)| - |w.tail| + p)
    case None => None
  }

  /** No marker begins inside another and ends before it. */
  lemma NoMarkerInside(i: nat, j: nat, t: nat)
    requires i < |Markers(true)| && j < |Markers(true)|
    requires 0 < t && t + |Markers(true)[j].needle| < |Markers(true)[i].needle|
    ensures Markers(true)[i].needle[t] != Markers(true)[j].needle[0]
  {
    var a, b := Markers(true)[i].needle, Markers(true)[j].needle;
    FirstByte(j);
    match i
    case 0 => assert |b| >= 5 && t <= 6; CodexBanner(t);
    case 3 => assert |b| >= 5 && t <= 5; TokensUsed(t);
    case 2 => assert |b| >= 5 && t == 1;
    case _ =>
  }

  lemma FirstByte(j: nat)
    requires j < |Markers(true)|
    ensures |Markers(true)[j].needle| >= 5
    ensures Markers(true)[j].needle[0] in {0x4F, 0x0A, 0x74, 0x45}
  {
  }

  lemma CodexBanner(t: nat)
    requires 0 < t <= 6
    ensures Ascii("OpenAI Codex")[t] !in {0x4F, 0x0A, 0x74, 0x45}
  {
    var s := "OpenAI Codex";
    assert s[t] == "penAI "[t - 1];
  }

  lemma TokensUsed(t: nat)
    requires 0 < t <= 5
    ensures Ascii("tokens used")[t] !in {0x4F, 0x0A, 0x74, 0x45}
  {
    var s := "tokens used";
    assert s[t] == "okens"[t - 1];
  }

  lemma SameByte(s: Bytes, a: Bytes, b: Bytes, p: nat, f: nat)
    requires Occurs(s, a, p) && Occurs(s, b, f) && p <= f < p + |a| && b != []
    ensures a[f - p] == b[0]
  {
    assert s[p..p + |a|][f - p] == s[f] && s[f..f + |b|][0] == s[f];
  }

  /** Of two occurrences in one text, the one that begins first ends first. */
  lemma OccurrencesNest(s: Bytes, i: nat, j: nat, p: nat, f: nat)
    requires i < |Markers(true)| && j < |Markers(true)| && p < f
    requires Occurs(s, Markers(true)[i].needle, p) && Occurs(s, Markers(true)[j].needle, f)
    ensures p + |Markers(true)[i].needle| <= f + |Markers(true)[j].needle|
  {
    var a, b := Markers(true)[i].needle, Markers(true)[j].needle;
    MarkersAreAscii(true, j);
    if p + |a| > f + |b| {
      SameByte(s, a, b, p, f);
      NoMarkerInside(i, j, f - p);
    }
  }

  /** An occurrence of `needle` in the old window, past the cursor, kept by the slide, and in the whole
      text before `f`. */
  predicate Leftover(tail: Bytes, needle: Bytes, cursor: nat, cut: nat, base: int, f: int, q: nat) {
    cursor <= q && cut <= q && base + q < f && Occurs(tail, needle, q)
  }

  lemma LeftoverFires(tail: Bytes, text: Bytes, needle: Bytes, cursor: nat, cut: nat, base: int, f: int, q: nat)
    requires Leftover(tail, needle, cursor, cut, base, f, q) && cut <= |tail + text|
    ensures var c' := if cursor < cut then 0 else cursor - cut;
            var r := Find((tail + text)[cut..], needle, c');
            r.Some? && base + cut + r.value < f
  {
    OccursInLonger(tail, text, needle, q);
    var w := (tail + text)[cut..];
    assert w[q - cut..q - cut + |needle|] == (tail + text)[q..q + |needle|];
    assert Occurs(w, needle, q - cut);
  }

  lemma FiringWasLeft(tail: Bytes, text: Bytes, needle: Bytes, cursor: nat, cut: nat, base: int, f: int, h: nat)
    requires cut <= |tail + text|
    requires Occurs((tail + text)[cut..], needle, h) && (if cursor < cut then 0 else cursor - cut) <= h
    requires base + cut + h < f && cut + h + |needle| <= |tail|
    ensures Leftover(tail, needle, cursor, cut, base, f, cut + h)
  {
    var w := (tail + text)[cut..];
    assert w[h..h + |needle|] == (tail + text)[cut + h..cut + h + |needle|];
    OccursInLonger(tail, text, needle, cut + h);
  }

  /** The moved window in terms of the old one. */
  lemma WindowFacts(l: Log, chunk: Bytes, i: nat)
    requires Shape(l) && l.d.codex && i < |Markers(true)| && l.d.tail == TakeLast(l.stream, TAIL_CAP)
    ensures var w, text := Ready(Slide(l.d, chunk)), Text(l.d, chunk);
            var cut := Cut(l.d.tail + text);
            && cut <= |l.d.tail + text| && w.tail == (l.d.tail + text)[cut..]
            && w.cursors[i] == (if Cursor(l, i) < cut then 0 else Cursor(l, i) - cut)
            && |l.stream + text| - |w.tail| == Base(l) + cut >= 0
  {
  }

  /** What fired for a marker lies in the text so far. */
  lemma FiredInside(chunks: seq<Bytes>, j: nat, f: int)
    requires j < |Markers(true)|
    ensures f in Run(true, chunks).fired[j] ==> 0 <= f && Occurs(Run(true, chunks).stream, Markers(true)[j].needle, f)
  {
    RunMarkers(chunks, j);
    var fired := Run(true, chunks).fired[j];
    if f in fired { var k :| 0 <= k < |fired| && fired[k] == f; }
  }

  lemma OlderFires(l: Log, chunk: Bytes, i: nat, f: int, q: nat)
    requires Shape(l) && l.d.codex && i < |Markers(true)| && l.d.tail == TakeLast(l.stream, TAIL_CAP)
    requires Leftover(l.d.tail, Markers(true)[i].needle, Cursor(l, i), Cut(l.d.tail + Text(l.d, chunk)), Base(l), f, q)
    ensures NextFired(l, chunk, i).Some? && NextFired(l, chunk, i).value < f
  {
    var text := Text(l.d, chunk);
    WindowFacts(l, chunk, i);
    LeftoverFires(l.d.tail, text, Markers(true)[i].needle, Cursor(l, i), Cut(l.d.tail + text), Base(l), f, q);
  }

  lemma WindowEnds(l: Log, chunk: Bytes)
    requires Shape(l) && l.d.codex && l.d.tail == TakeLast(l.stream, TAIL_CAP)
    ensures var s, w := l.stream + Text(l.d, chunk), Ready(Slide(l.d, chunk));
            |w.tail| <= |s| && w.tail == s[|s| - |w.tail|..]
  {
    SlideWindow(l, chunk);
    FiredAfter(l, chunk, 0);
  }

  /** Found in the moved window means found in the whole text. */
  lemma NextOccurs(l: Log, chunk: Bytes, i: nat)
    requires Shape(l) && l.d.codex && i < |Markers(true)| && l.d.tail == TakeLast(l.stream, TAIL_CAP)
    requires NextFired(l, chunk, i).Some?
    ensures var p := NextFired(l, chunk, i).value;
            p >= 0 && Occurs(l.stream + Text(l.d, chunk), Markers(true)[i].needle, p)
  {
    var s, w := l.stream + Text(l.d, chunk), Ready(Slide(l.d, chunk));
    WindowEnds(l, chunk);
    var h, needle := HitOf(w, i).value, Markers(true)[i].needle;
    assert Occurs(w.tail, needle, h);
    OccursInStream(s, w.tail, needle, h);
  }

  lemma OlderWasLeft(l: Log, chunk: Bytes, i: nat, j: nat, f: nat) returns (q: nat)
    requires Shape(l) && l.d.codex && i < |Markers(true)| && l.d.tail == TakeLast(l.stream, TAIL_CAP)
    requires j < |Markers(true)| && Occurs(l.stream, Markers(true)[j].needle, f)
    requires NextFired(l, chunk, i).Some? && NextFired(l, chunk, i).value < f
    ensures Leftover(l.d.tail, Markers(true)[i].needle, Cursor(l, i), Cut(l.d.tail + Text(l.d, chunk)), Base(l), f, q)
  {
    var w, text, p := Ready(Slide(l.d, chunk)), Text(l.d, chunk), NextFired(l, chunk, i).value;
    var a, b, h := Markers(true)[i].needle, Markers(true)[j].needle, HitOf(w, i).value;
    WindowFacts(l, chunk, i);
    NextOccurs(l, chunk, i);
    OccursInLonger(l.stream, text, b, f);
    OccurrencesNest(l.stream + text, i, j, p, f);
    FiringWasLeft(l.d.tail, text, a, Cursor(l, i), Cut(l.d.tail + text), Base(l), f, h);
    q := Cut(l.d.tail + text) + h;
  }

  /** The window before a feed holds, past the cursor of marker `i` and not cut away by the feed, an
      occurrence of `i` that begins below `f`. */
  ghost predicate HasLeftover(l: Log, chunk: Bytes, i: nat, f: int)
    requires Shape(l) && l.d.codex && i < |Markers(true)|
  {
    exists q: nat ::
      Leftover(l.d.tail, Markers(true)[i].needle, Cursor(l, i), Cut(l.d.tail + Text(l.d, chunk)), Base(l), f, q)
  }

  predicate FiresBelow(l: Log, chunk: Bytes, i: nat, f: int)
    requires Shape(l) && l.d.codex && i < |Markers(true)|
  {
    NextFired(l, chunk, i).Some? && NextFired(l, chunk, i).value < f
  }

  lemma OlderExactly(l: Log, chunk: Bytes, i: nat, j: nat, f: nat)
    requires Shape(l) && l.d.codex && i < |Markers(true)| && l.d.tail == TakeLast(l.stream, TAIL_CAP)
    requires j < |Markers(true)| && Occurs(l.stream, Markers(true)[j].needle, f)
    ensures FiresBelow(l, chunk, i, f) <==> HasLeftover(l, chunk, i, f)
  {
    if FiresBelow(l, chunk, i, f) {
      var q := OlderWasLeft(l, chunk, i, j, f);
    }
    if HasLeftover(l, chunk, i, f) {
      var q: nat :|
        Leftover(l.d.tail, Markers(true)[i].needle, Cursor(l, i), Cut(l.d.tail + Text(l.d, chunk)), Base(l), f, q);
      OlderFires(l, chunk, i, f, q);
    }
  }

  /** For every run, next chunk and pair of markers: the next feed fires marker `i` below a position
      already fired for `j` if and only if the window before it holds, past `i`'s cursor and not cut away,
      an occurrence of `i` that begins below that position. */
  lemma {:induction false} OlderPositionExactly(chunks: seq<Bytes>, chunk: Bytes, i: nat, j: nat, f: int)
    requires i < |Markers(true)| && j < |Markers(true)|
    ensures f in Run(true, chunks).fired[j] ==>
              (FiresBelow(Run(true, chunks), chunk, i, f) <==> HasLeftover(Run(true, chunks), chunk, i, f))
  {
    WindowIsEndOfStream(true, chunks);
    FiredInside(chunks, j, f);
    if f in Run(true, chunks).fired[j] { OlderExactly(Run(true, chunks), chunk, i, j, f); }
  }

  /** `NextFired` is what the feed adds to a marker's positions. */
  lemma {:induction false} NextIsFired(chunks: seq<Bytes>, chunk: Bytes, i: nat)
    requires i < |Markers(true)|
    ensures var next := NextFired(Run(true, chunks), chunk, i);
            Run(true, chunks + [chunk]).fired[i]
            == Run(true, chunks).fired[i] + (if next.Some? then [next.value] else [])
  {
    RunSnoc(true, chunks, chunk);
    NextOne(Run(true, chunks), chunk, i);
  }

  lemma RunSnoc(codex: bool, chunks: seq<Bytes>, chunk: Bytes)
    ensures Run(codex, chunks + [chunk]) == FeedLog(Run(codex, chunks), chunk)
  {
    assert (chunks + [chunk])[..|chunks|] == chunks;
  }

  lemma NextOne(l: Log, chunk: Bytes, i: nat)
    requires Shape(l) && l.d.codex && i < |Markers(true)|
    ensures var next := NextFired(l, chunk, i);
            FeedLog(l, chunk).fired[i] == l.fired[i] + (if next.Some? then [next.value] else [])
  {
    var w := Ready(Slide(l.d, chunk));
    FiredAfter(l, chunk, i);
    if HitOf(w, i).Some? {
      assert NextFired(l, chunk, i) == Some(Base(FeedLog(l, chunk)) + HitOf(w, i).value);
    } else {
      assert NextFired(l, chunk, i) == None && l.fired[i] + [] == l.fired[i];
    }
  }

  // ---- An older position that fires later ----

  const ERROR_WORD: Bytes := Ascii("ERROR")
  const END_WORD: Bytes := Ascii("tokens used")
  const AGAIN: Bytes := ERROR_WORD + [0x20] + ERROR_WORD + [0x20] + END_WORD

  /** The window after single-byte text without escapes is that text added. */
  lemma PlainFeed(d: Det, chunk: Bytes)
    requires d.auto == A.START && IsAscii(chunk) && A.ESC !in chunk && A.CR !in chunk
    requires |d.tail| + |chunk| <= TAIL_CAP && d.codex
    ensures var w := Ready(Slide(d, chunk));
            && Text(d, chunk) == chunk && w.tail == d.tail + chunk && w.auto == A.START
            && (|d.cursors| == 5 ==> w.cursors == d.cursors)
            && (|d.cursors| == 0 ==> w.cursors == Zeros(5))
  {
    A.PlainTextPasses(A.START, chunk);
    AsciiWellFormed(chunk);
    LossyIsWellFormed(chunk);
    assert (d.tail + chunk)[0..] == d.tail + chunk;
    if |d.cursors| == 5 { assert Back(d.cursors, 0) == d.cursors; }
  }

  lemma Words()
    ensures |ERROR_WORD| == 5 && |END_WORD| == 11 && |AGAIN| == 23
    ensures ERROR_WORD[0] == 0x45 && END_WORD[0] == 0x74
    ensures forall b :: b in ERROR_WORD ==> b in {0x45, 0x52, 0x4F}
    ensures forall b :: b in END_WORD ==> b in {0x74, 0x6F, 0x6B, 0x65, 0x6E, 0x73, 0x20, 0x75, 0x64}
  {
  }

  /** The bytes of the text and the dot. */
  predicate Usual(b: byte) { b in {0x45, 0x52, 0x4F, 0x20, 0x2E, 0x74, 0x6F, 0x6B, 0x65, 0x6E, 0x73, 0x75, 0x64} }

  lemma AgainIsUsual(b: byte)
    requires b in AGAIN
    ensures Usual(b)
  {
    Words();
    assert b in ERROR_WORD || b == 0x20 || b in END_WORD;
  }

  lemma UsualIsPlain(s: Bytes)
    requires forall b :: b in s ==> Usual(b)
    ensures IsAscii(s) && A.ESC !in s && A.CR !in s && 0x70 !in s && 0x0A !in s
  {
    forall i | 0 <= i < |s| ensures s[i] <= 0x7F { assert Usual(s[i]); }
    assert !Usual(A.ESC) && !Usual(A.CR) && !Usual(0x70) && !Usual(0x0A);
  }

  lemma AgainIsPlain(last: Bytes)
    requires last == [] || last == [0x2E]
    ensures IsAscii(AGAIN + last) && A.ESC !in AGAIN + last && A.CR !in AGAIN + last && |AGAIN| == 23
    ensures IsAscii(last) && A.ESC !in last && A.CR !in last
    ensures 0x70 !in AGAIN + last && 0x0A !in AGAIN + last
  {
    Words();
    forall b | b in AGAIN + last ensures Usual(b) {
      if b in AGAIN { AgainIsUsual(b); } else { assert b in last; }
    }
    UsualIsPlain(AGAIN + last);
    UsualIsPlain(last);
  }

  /** A marker with a byte that the text does not have is not found. */
  lemma AbsentByte(s: Bytes, needle: Bytes, from: nat, t: nat)
    requires t < |needle| && needle[t] !in s
    ensures Find(s, needle, from).None?
  {
    var r := Find(s, needle, from);
    HoldsItsBytes(s, needle, if r.Some? then r.value else 0, t);
  }

  lemma HoldsItsBytes(s: Bytes, needle: Bytes, p: nat, t: nat)
    requires t < |needle|
    ensures Occurs(s, needle, p) ==> needle[t] in s
  {
    if Occurs(s, needle, p) { assert s[p..p + |needle|][t] == s[p + t]; }
  }

  /** The banner, the user and the codex marker are not in this text. */
  lemma OthersAbsent(w: Det, i: nat)
    requires w.codex && |w.cursors| == |Markers(true)| && i < 3
    requires 0x70 !in w.tail && 0x0A !in w.tail
    ensures HitOf(w, i).None?
  {
    var needle := Markers(true)[i].needle;
    var t := if i == 0 then 1 else 0;
    assert needle[t] == if i == 0 then 0x70 else 0x0A;
    AbsentByte(w.tail, needle, w.cursors[i], t);
  }

  /** Found where it occurs, when its first byte is nowhere between. */
  lemma FoundAt(s: Bytes, needle: Bytes, from: nat, p: nat)
    requires needle != [] && from <= p && Occurs(s, needle, p)
    requires forall k :: from <= k < p ==> s[k] != needle[0]
    ensures Find(s, needle, from) == Some(p)
  {
    var r := Find(s, needle, from).value;
    assert s[r..r + |needle|][0] == s[r];
  }

  lemma OccursAtEnd(a: Bytes, needle: Bytes)
    ensures Occurs(a + needle, needle, |a|)
  {
    assert (a + needle)[|a|..|a| + |needle|] == needle;
  }

  lemma OccursOn(a: Bytes, b: Bytes, needle: Bytes, p: nat)
    requires Occurs(a, needle, p)
    ensures Occurs(a + b, needle, p)
  {
    OccursInLonger(a, b, needle, p);
  }

  lemma Layout(e: Bytes, sp: Bytes, k: Bytes, last: Bytes)
    ensures var s := e + sp + e + sp + k + last;
            Occurs(s, e, 0) && Occurs(s, e, |e + sp|) && Occurs(s, k, |e + sp + e + sp|)
  {
    var a, b, c, d := e + sp, e + sp + e, e + sp + e + sp, e + sp + e + sp + k;
    OccursAtEnd([], e);
    assert [] + e == e;
    OccursOn(e, sp, e, 0);
    OccursOn(a, e, e, 0);
    OccursOn(b, sp, e, 0);
    OccursOn(c, k, e, 0);
    OccursOn(d, last, e, 0);
    OccursAtEnd(a, e);
    OccursOn(b, sp, e, |a|);
    OccursOn(c, k, e, |a|);
    OccursOn(d, last, e, |a|);
    OccursAtEnd(c, k);
    OccursOn(d, last, k, |c|);
  }

  lemma AgainHolds(last: Bytes)
    ensures var s := AGAIN + last;
            && Occurs(s, ERROR_WORD, 0) && Occurs(s, ERROR_WORD, 6) && Occurs(s, END_WORD, 12)
  {
    Words();
    Layout(ERROR_WORD, [0x20], END_WORD, last);
  }

  lemma AgainBytes(last: Bytes, i: nat)
    requires i < 12
    ensures |AGAIN| == 23 && (AGAIN + last)[i] != 0x74 && (i == 5 ==> (AGAIN + last)[i] == 0x20)
  {
    Words();
    var head := ERROR_WORD + [0x20] + ERROR_WORD + [0x20];
    assert AGAIN == head + END_WORD && (AGAIN + last)[i] == head[i];
    assert head[i] in head;
    assert forall b :: b in head ==> b in ERROR_WORD || b == 0x20;
  }

  lemma WordsAreMarkers()
    ensures Markers(true)[4].needle == ERROR_WORD && Markers(true)[3].needle == END_WORD
  {
  }

  /** The first feed finds the error at 0 and the end at 12. */
  lemma FirstFeed(w: Det)
    requires w.codex && w.tail == AGAIN && w.cursors == Zeros(5)
    ensures HitOf(w, 4) == Some(0) && HitOf(w, 3) == Some(12)
    ensures forall i :: 0 <= i < 3 ==> HitOf(w, i).None?
  {
    assert AGAIN + [] == AGAIN;
    Words();
    WordsAreMarkers();
    AgainHolds([]);
    AgainIsPlain([]);
    FoundAt(AGAIN, ERROR_WORD, 0, 0);
    forall k | 0 <= k < 12 ensures AGAIN[k] != END_WORD[0] { AgainBytes([], k); }
    FoundAt(AGAIN, END_WORD, 0, 12);
    forall i | 0 <= i < 3 ensures HitOf(w, i).None? { OthersAbsent(w, i); }
  }

  /** The second finds the error at 6 and nothing else. */
  lemma SecondFeed(w: Det)
    requires w.codex && w.tail == AGAIN + [0x2E] && w.cursors == [0, 0, 0, 23, 5]
    ensures HitOf(w, 4) == Some(6) && forall i :: 0 <= i < 4 ==> HitOf(w, i).None?
  {
    Words();
    WordsAreMarkers();
    AgainHolds([0x2E]);
    AgainIsPlain([0x2E]);
    AgainBytes([0x2E], 5);
    FoundAt(w.tail, ERROR_WORD, 5, 6);
    forall i | 0 <= i < 4 ensures HitOf(w, i).None? {
      if i < 3 { OthersAbsent(w, i); }
    }
  }

  lemma StatusOfLast(d: Det, chunk: Bytes, i: nat)
    requires d.codex && i < |Markers(true)| && FoundLast(Ready(Slide(d, chunk)), i)
    ensures Fed(d, chunk).0.status == Some(Markers(true)[i].status)
  {
    var w := Ready(Slide(d, chunk));
    FeedStatus(d, chunk);
    var k: nat :| FoundLast(w, k) && Fed(d, chunk).0.status == Some(Markers(true)[k].status);
    assert Before(Hit(HitOf(w, k).value, k), Hit(HitOf(w, i).value, i));
    assert Before(Hit(HitOf(w, i).value, i), Hit(HitOf(w, k).value, k));
  }

  lemma AdvancedAt(w: Det, i: nat)
    requires w.codex && |w.cursors| == |Markers(true)| && i < |Markers(true)|
    ensures |Advanced(w)| == 5
    ensures Advanced(w)[i] ==
            (if HitOf(w, i).Some? then HitOf(w, i).value + |Markers(true)[i].needle| else w.cursors[i])
  {
  }

  lemma FirstAdvance(w: Det)
    requires w.codex && w.tail == AGAIN && w.cursors == Zeros(5)
    ensures Advanced(w) == [0, 0, 0, 23, 5]
  {
    FirstFeed(w);
    forall i | 0 <= i < 5 ensures Advanced(w)[i] == [0, 0, 0, 23, 5][i] { AdvancedAt(w, i); }
    AdvancedAt(w, 0);
  }

  /** With two markers found, the one further on is found last. */
  lemma FirstLast(w: Det)
    requires w.codex && |w.cursors| == |Markers(true)| && HitOf(w, 4) == Some(0) && HitOf(w, 3) == Some(12)
    requires forall i :: 0 <= i < 3 ==> HitOf(w, i).None?
    ensures FoundLast(w, 3)
  {
    forall j | 0 <= j < |w.cursors| && HitOf(w, j).Some?
      ensures Before(Hit(HitOf(w, j).value, j), Hit(HitOf(w, 3).value, 3))
    {
      assert j == 3 || j == 4;
    }
  }

  lemma FirstStatus(d: Det)
    requires d == New(true)
    ensures var d' := Fed(d, AGAIN).0;
            && d'.status == Some(Finished) && d'.codex && d'.auto == A.START
            && d'.tail == AGAIN && d'.cursors == [0, 0, 0, 23, 5]
  {
    var w := Ready(Slide(d, AGAIN));
    FirstWindow(d);
    FirstAdvance(w);
    FirstFeed(w);
    FirstLast(w);
    StatusOfLast(d, AGAIN, 3);
  }

  lemma FirstWindow(d: Det)
    requires d == New(true)
    ensures var w := Ready(Slide(d, AGAIN));
            w.codex && w.tail == AGAIN && w.cursors == Zeros(5) && w.auto == A.START
  {
    assert AGAIN + [] == AGAIN && [] + AGAIN == AGAIN;
    AgainIsPlain([]);
    PlainFeed(d, AGAIN);
  }

  /** "ERROR ERROR tokens used", then a dot: the first feed ends in finished, and the
      second puts the status back to the error it left at 6, below the 12 already fired. */
  lemma {:induction false} OlderPositionApplied()
    ensures Run(true, [AGAIN]).d.status == Some(Finished)
    ensures Run(true, [AGAIN, [0x2E]]).d.status == Some(Error)
  {
    var none: seq<Bytes> := [];
    RunSnoc(true, none, AGAIN);
    RunSnoc(true, [AGAIN], [0x2E]);
    assert none + [AGAIN] == [AGAIN] && [AGAIN] + [[0x2E]] == [AGAIN, [0x2E]];
    FirstStatus(New(true));
    var d := Run(true, [AGAIN]).d;
    SecondStatus(d);
  }

  lemma SecondWindow(d: Det)
    requires d.codex && d.auto == A.START && d.tail == AGAIN && d.cursors == [0, 0, 0, 23, 5]
    ensures var w := Ready(Slide(d, [0x2E]));
            w.codex && w.tail == AGAIN + [0x2E] && w.cursors == [0, 0, 0, 23, 5]
  {
    AgainIsPlain([0x2E]);
    PlainFeed(d, [0x2E]);
  }

  lemma OnlyOneIsLast(w: Det)
    requires w.codex && |w.cursors| == |Markers(true)| && HitOf(w, 4).Some?
    requires forall i :: 0 <= i < 4 ==> HitOf(w, i).None?
    ensures FoundLast(w, 4)
  {
  }

  lemma SecondStatus(d: Det)
    requires d.codex && d.auto == A.START && d.tail == AGAIN && d.cursors == [0, 0, 0, 23, 5]
    ensures Fed(d, [0x2E]).0.status == Some(Error)
  {
    var w := Ready(Slide(d, [0x2E]));
    SecondWindow(d);
    SecondFeed(w);
    OnlyOneIsLast(w);
    StatusOfLast(d, [0x2E], 4);
  }
}
