/** The agent detector (daemon/src/detector.rs): a window over the stripped output, one monotonic
    cursor for each marker, the hits of a feed applied in order of position. */
module Detector {
  import opened Common
  import opened Utf8
  import A = Ansi

  const TAIL_CAP: nat := 16 * 1024
  const DETAIL_EXTRA: nat := 60

  datatype Status = Starting | Working | Error | Finished
  datatype Marker = Marker(needle: Bytes, status: Status)
  datatype Snapshot = Snapshot(status: Status, detail: Bytes)

  function Ascii(s: string): (b: Bytes)
    requires forall i :: 0 <= i < |s| ==> s[i] as int <= 0x7F
    ensures |b| == |s| && IsAscii(b)
  {
    seq(|s|, i requires 0 <= i < |s| => s[i] as int)
  }

  const CODEX_MARKERS: seq<Marker> := [
    Marker(Ascii("OpenAI Codex"), Starting),
    Marker(Ascii("\nuser\n"), Working),
    Marker(Ascii("\ncodex\n"), Working),
    Marker(Ascii("tokens used"), Finished),
    Marker(Ascii("ERROR"), Error)
  ]

  /** `codex` says that an agent was recognised from the command. */
  datatype Det = Det(
    codex: bool, status: Option<Status>, detail: Bytes, tail: Bytes, auto: A.Auto, cursors: seq<nat>)

  function New(codex: bool): Det { Det(codex, None, [], [], A.START, []) }

  function Markers(codex: bool): seq<Marker> { if codex then CODEX_MARKERS else [] }

  lemma MarkersAreAscii(codex: bool, i: nat)
    requires i < |Markers(codex)|
    ensures Markers(codex)[i].needle != [] && IsAscii(Markers(codex)[i].needle)
  {
  }

  // ---- Finding ----

  predicate Occurs(s: Bytes, needle: Bytes, p: nat) {
    p + |needle| <= |s| && s[p..p + |needle|] == needle
  }

  /** The first occurrence at or after `from`. */
  function Find(s: Bytes, needle: Bytes, from: nat): (r: Option<nat>)
    ensures r.Some? ==> from <= r.value && Occurs(s, needle, r.value)
    ensures r.Some? ==> forall p :: from <= p < r.value ==> !Occurs(s, needle, p)
    ensures r.None? ==> forall p :: from <= p ==> !Occurs(s, needle, p)
    decreases if from <= |s| then |s| - from + 1 else 0
  {
    if from + |needle| > |s| then None
    else if s[from..from + |needle|] == needle then Some(from)
    else Find(s, needle, from + 1)
  }

  // ---- One feed ----

  /** The stripped text a chunk contributes. */
  function Text(d: Det, chunk: Bytes): Bytes { Lossy(A.Strip(d.auto, chunk).1) }

  function Cut(tail: Bytes): nat { if |tail| > TAIL_CAP then |tail| - TAIL_CAP else 0 }

  /** The cut lands on a character boundary; the daemon panics otherwise. */
  predicate CutOk(d: Det, chunk: Bytes) {
    var longer := d.tail + Text(d, chunk);
    Boundary(longer, Cut(longer))
  }

  function Back(cursors: seq<nat>, cut: nat): seq<nat> {
    seq(|cursors|, i requires 0 <= i < |cursors| => if cursors[i] < cut then 0 else cursors[i] - cut)
  }

  function Zeros(n: nat): seq<nat> { seq(n, _ => 0) }

  /** The window after a chunk: text appended, cut on the left, cursors moved with it. */
  function Slide(d: Det, chunk: Bytes): Det {
    var longer := d.tail + Text(d, chunk);
    var cut := Cut(longer);
    d.(auto := A.Strip(d.auto, chunk).0, tail := longer[cut..], cursors := Back(d.cursors, cut))
  }

  /** Where a cut that panics leaves the detector: the text appended, nothing moved. */
  function Appended(d: Det, chunk: Bytes): Det {
    d.(auto := A.Strip(d.auto, chunk).0, tail := d.tail + Text(d, chunk))
  }

  function Ready(d: Det): Det {
    if |d.cursors| != |Markers(d.codex)| then d.(cursors := Zeros(|Markers(d.codex)|)) else d
  }

  /** Where marker `i` is found past its cursor. */
  function HitOf(d: Det, i: nat): Option<nat>
    requires i < |Markers(d.codex)| == |d.cursors|
  {
    Find(d.tail, Markers(d.codex)[i].needle, d.cursors[i])
  }

  datatype Hit = Hit(pos: nat, marker: nat)

  /** The hits of the first `n` markers, in table order. */
  function Hits(d: Det, n: nat): seq<Hit>
    requires n <= |Markers(d.codex)| == |d.cursors|
  {
    if n == 0 then []
    else if HitOf(d, n - 1).Some? then Hits(d, n - 1) + [Hit(HitOf(d, n - 1).value, n - 1)]
    else Hits(d, n - 1)
  }

  function Advanced(d: Det): seq<nat>
    requires |Markers(d.codex)| == |d.cursors|
  {
    seq(|d.cursors|, i requires 0 <= i < |d.cursors| =>
      if HitOf(d, i).Some? then HitOf(d, i).value + |Markers(d.codex)[i].needle| else d.cursors[i])
  }

  predicate Before(a: Hit, b: Hit) { a.pos < b.pos || (a.pos == b.pos && a.marker <= b.marker) }

  function Insert(h: Hit, sorted: seq<Hit>): seq<Hit> {
    if sorted == [] || Before(h, sorted[0]) then [h] + sorted else [sorted[0]] + Insert(h, sorted[1..])
  }

  function Sorted(hits: seq<Hit>): seq<Hit> {
    if hits == [] then [] else Insert(hits[0], Sorted(hits[1..]))
  }

  /** The largest character boundary up to `end`, but not below `low`. */
  function BackUp(s: Bytes, low: nat, end: nat): (e: nat)
    requires low <= end
    ensures low <= e <= end
    decreases end
  {
    if end > low && !Boundary(s, end) then BackUp(s, low, end - 1) else end
  }

  /** `replace('\n', " ")`. */
  function Spaced(s: Bytes): (r: Bytes)
    ensures |r| == |s|
  {
    seq(|s|, i requires 0 <= i < |s| => if s[i] == 0x0A then 0x20 else s[i])
  }

  function DetailEnd(tail: Bytes, pos: nat, len: nat): nat
    requires pos + len <= |tail|
  {
    var far := pos + len + DETAIL_EXTRA;
    BackUp(tail, pos, if far < |tail| then far else |tail|)
  }

  function Detail(tail: Bytes, h: Hit, len: nat): Bytes
    requires h.pos + len <= |tail|
  {
    Spaced(tail[h.pos..DetailEnd(tail, h.pos, len)])
  }

  datatype Report = Report(status: Option<Status>, detail: Bytes, changed: bool)

  predicate HitIn(d: Det, h: Hit) {
    h.marker < |Markers(d.codex)| && h.pos + |Markers(d.codex)[h.marker].needle| <= |d.tail|
  }

  function Apply(r: Report, d: Det, h: Hit): Report
    requires HitIn(d, h)
  {
    var m := Markers(d.codex)[h.marker];
    if r.status == Some(m.status) && m.status != Working then r
    else Report(Some(m.status), Detail(d.tail, h, |m.needle|), true)
  }

  function ApplyAll(r: Report, d: Det, hits: seq<Hit>): Report
    requires forall i :: 0 <= i < |hits| ==> HitIn(d, hits[i])
  {
    if hits == [] then r else Apply(ApplyAll(r, d, hits[..|hits| - 1]), d, hits[|hits| - 1])
  }

  function Snap(d: Det): Option<Snapshot> {
    if d.codex then Some(Snapshot(if d.status.Some? then d.status.value else Starting, d.detail)) else None
  }

  lemma HitsAreIn(d: Det, n: nat)
    requires n <= |Markers(d.codex)| == |d.cursors|
    ensures forall i :: 0 <= i < |Hits(d, n)| ==> HitIn(d, Hits(d, n)[i])
  {
    if n > 0 { HitsAreIn(d, n - 1); }
  }

  lemma {:induction false} InsertMembers(h: Hit, s: seq<Hit>)
    ensures multiset(Insert(h, s)) == multiset(s) + multiset{h}
    ensures |Insert(h, s)| == |s| + 1
    decreases |s|
  {
    if s != [] && !Before(h, s[0]) {
      InsertMembers(h, s[1..]);
      assert s == [s[0]] + s[1..];
    }
  }

  predicate InOrder(s: seq<Hit>) { forall i, j :: 0 <= i < j < |s| ==> Before(s[i], s[j]) }

  lemma {:induction false} InsertOrders(h: Hit, s: seq<Hit>)
    requires InOrder(s)
    ensures InOrder(Insert(h, s))
    decreases |s|
  {
    if s != [] && !Before(h, s[0]) {
      var rest := Insert(h, s[1..]);
      InsertOrders(h, s[1..]);
      InsertMembers(h, s[1..]);
      forall j | 0 <= j < |rest| ensures Before(s[0], rest[j]) {
        assert rest[j] in multiset(rest);
        assert rest[j] == h || rest[j] in multiset(s[1..]);
      }
    }
  }

  /** `sort_unstable`: ordered by position, and a permutation. */
  lemma {:induction false} SortedIsSort(s: seq<Hit>)
    ensures InOrder(Sorted(s)) && multiset(Sorted(s)) == multiset(s) && |Sorted(s)| == |s|
    decreases |s|
  {
    if s != [] {
      SortedIsSort(s[1..]);
      InsertOrders(s[0], Sorted(s[1..]));
      InsertMembers(s[0], Sorted(s[1..]));
      assert s == [s[0]] + s[1..];
    }
  }

  lemma SortedAreIn(d: Det, hits: seq<Hit>)
    requires forall i :: 0 <= i < |hits| ==> HitIn(d, hits[i])
    ensures forall i :: 0 <= i < |Sorted(hits)| ==> HitIn(d, Sorted(hits)[i])
  {
    SortedIsSort(hits);
    forall i | 0 <= i < |Sorted(hits)| ensures HitIn(d, Sorted(hits)[i]) {
      assert Sorted(hits)[i] in multiset(hits);
    }
  }

  /** The hits of a feed in the order they are applied. */
  function Ordered(d: Det): (hits: seq<Hit>)
    requires |Markers(d.codex)| == |d.cursors|
    ensures forall i :: 0 <= i < |hits| ==> HitIn(d, hits[i])
  {
    HitsAreIn(d, |d.cursors|);
    SortedAreIn(d, Hits(d, |d.cursors|));
    Sorted(Hits(d, |d.cursors|))
  }

  /** The detector after a chunk, and the snapshot it reports. */
  function Fed(d: Det, chunk: Bytes): (Det, Option<Snapshot>) {
    var slid := Slide(d, chunk);
    if !d.codex then (slid, None)
    else
      var w := Ready(slid);
      var r := ApplyAll(Report(w.status, w.detail, false), w, Ordered(w));
      var d' := w.(cursors := Advanced(w), status := r.status, detail := r.detail);
      (d', if r.changed then Snap(d') else None)
  }
}
