/** UTF-8 (RFC 3629, section 4) and what Rust strings do with it: lossy decoding and character
    boundaries. */
module Utf8 {
  import opened Common

  predicate IsTail(b: byte) { 0x80 <= b <= 0xBF }

  /** The second byte a lead byte allows. */
  predicate SecondOk(lead: byte, b: byte) {
    if lead == 0xE0 then 0xA0 <= b <= 0xBF
    else if lead == 0xED then 0x80 <= b <= 0x9F
    else if lead == 0xF0 then 0x90 <= b <= 0xBF
    else if lead == 0xF4 then 0x80 <= b <= 0x8F
    else IsTail(b)
  }

  /** How many bytes a character with this lead byte has; 0 when no character starts with it. */
  function Width(lead: byte): nat {
    if lead <= 0x7F then 1
    else if 0xC2 <= lead <= 0xDF then 2
    else if 0xE0 <= lead <= 0xEF then 3
    else if 0xF0 <= lead <= 0xF4 then 4
    else 0
  }

  /** How many leading bytes of `s` agree with the character its first byte announces. */
  function Agreeing(s: Bytes): (n: nat)
    requires s != [] && Width(s[0]) > 0
    ensures 1 <= n <= |s| && n <= Width(s[0])
  {
    var w := Width(s[0]);
    if w == 1 || |s| < 2 || !SecondOk(s[0], s[1]) then 1
    else if w == 2 || |s| < 3 || !IsTail(s[2]) then 2
    else if w == 3 || |s| < 4 || !IsTail(s[3]) then 3
    else 4
  }

  /** `s` starts with a complete character. */
  predicate StartsChar(s: Bytes) {
    s != [] && Width(s[0]) > 0 && Agreeing(s) == Width(s[0])
  }

  predicate WellFormed(s: Bytes)
    decreases |s|
  {
    s == [] || (StartsChar(s) && WellFormed(s[Width(s[0])..]))
  }

  const REPLACEMENT: Bytes := [0xEF, 0xBF, 0xBD]

  /** `String::from_utf8_lossy`: each maximal broken piece becomes one U+FFFD. */
  function Lossy(s: Bytes): Bytes
    decreases |s|
  {
    if s == [] then []
    else if StartsChar(s) then s[..Width(s[0])] + Lossy(s[Width(s[0])..])
    else if Width(s[0]) == 0 then REPLACEMENT + Lossy(s[1..])
    else REPLACEMENT + Lossy(s[Agreeing(s)..])
  }

  /** `str::is_char_boundary`. */
  predicate Boundary(s: Bytes, i: nat) {
    i == 0 || i == |s| || (i < |s| && !IsTail(s[i]))
  }

  predicate IsAscii(s: Bytes) { forall i :: 0 <= i < |s| ==> s[i] <= 0x7F }

  lemma {:induction false} WellFormedConcat(a: Bytes, b: Bytes)
    requires WellFormed(a) && WellFormed(b)
    ensures WellFormed(a + b)
    decreases |a|
  {
    if a == [] {
      assert a + b == b;
    } else {
      var w := Width(a[0]);
      assert (a + b)[w..] == a[w..] + b;
      WellFormedConcat(a[w..], b);
    }
  }

  lemma {:induction false} AsciiWellFormed(s: Bytes)
    requires IsAscii(s)
    ensures WellFormed(s)
    decreases |s|
  {
    if s != [] { AsciiWellFormed(s[1..]); }
  }

  lemma CharWellFormed(s: Bytes)
    requires StartsChar(s)
    ensures WellFormed(s[..Width(s[0])])
  {
    var c := s[..Width(s[0])];
    assert c[Width(s[0])..] == [];
  }

  /** Lossy decoding always gives well-formed text, and changes nothing exactly when the input
      already is. */
  lemma {:induction false} LossyIsWellFormed(s: Bytes)
    ensures WellFormed(Lossy(s))
    ensures WellFormed(s) <==> Lossy(s) == s
    decreases |s|
  {
    if s != [] {
      if StartsChar(s) {
        var w := Width(s[0]);
        LossyIsWellFormed(s[w..]);
        CharWellFormed(s);
        WellFormedConcat(s[..w], Lossy(s[w..]));
        assert s == s[..w] + s[w..];
      } else {
        var n := if Width(s[0]) == 0 then 1 else Agreeing(s);
        LossyIsWellFormed(s[n..]);
        assert WellFormed(REPLACEMENT) by { assert REPLACEMENT[3..] == []; }
        WellFormedConcat(REPLACEMENT, Lossy(s[n..]));
      }
    }
  }

  lemma {:induction false} LossyGrows(s: Bytes)
    ensures |Lossy(s)| >= |s|
    decreases |s|
  {
    if s != [] {
      LossyGrows(s[if StartsChar(s) then Width(s[0]) else if Width(s[0]) == 0 then 1 else Agreeing(s)..]);
    }
  }

  /** Well-formed text splits into well-formed parts at every character boundary. */
  lemma {:induction false} SplitAtBoundary(s: Bytes, i: nat)
    requires WellFormed(s) && i <= |s| && Boundary(s, i)
    ensures WellFormed(s[..i]) && WellFormed(s[i..])
    decreases |s|
  {
    if i == 0 {
      assert s[0..] == s;
    } else {
      var w := Width(s[0]);
      assert i >= w;
      assert s[w..][i - w..] == s[i..];
      SplitAtBoundary(s[w..], i - w);
      CharWellFormed(s);
      WellFormedConcat(s[..w], s[w..][..i - w]);
      assert s[..i] == s[..w] + s[w..][..i - w];
    }
  }

  /** A character boundary follows every ASCII byte. */
  lemma {:induction false} BoundaryAfterAscii(s: Bytes, i: nat)
    requires WellFormed(s) && 0 < i <= |s| && s[i - 1] <= 0x7F
    ensures Boundary(s, i)
    decreases |s|
  {
    var w := Width(s[0]);
    if i > w {
      BoundaryAfterAscii(s[w..], i - w);
    } else if i == w < |s| {
      assert StartsChar(s[w..]);
    }
  }

  /** Slices between boundaries. */
  lemma SliceWellFormed(s: Bytes, i: nat, j: nat)
    requires WellFormed(s) && i <= j <= |s| && Boundary(s, i) && Boundary(s, j)
    ensures WellFormed(s[i..j])
  {
    SplitAtBoundary(s, i);
    assert i < j < |s| ==> s[i..][j - i] == s[j];
    SplitAtBoundary(s[i..], j - i);
    assert s[i..][..j - i] == s[i..j];
  }

  // ---- Broken characters ----

  /** One complete character. */
  predicate OneChar(c: Bytes) { StartsChar(c) && |c| == Width(c[0]) }

  /** More bytes can make these one character. */
  ghost predicate Unfinished(p: Bytes) { exists more: Bytes :: more != [] && OneChar(p + more) }

  /** A byte that may come second after this lead byte. */
  function SomeSecond(lead: byte): byte {
    if lead == 0xE0 then 0xA0 else if lead == 0xF0 then 0x90 else 0x80
  }

  /** The bytes agree with a character as far as they go, and it has more. */
  lemma UnfinishedExactly(s: Bytes, n: nat)
    requires 0 < n <= |s| && Width(s[0]) > 0
    ensures Unfinished(s[..n]) <==> n <= Agreeing(s) && n < Width(s[0])
  {
    var p, w := s[..n], Width(s[0]);
    if n <= Agreeing(s) && n < w {
      var more: Bytes := if n > 1 then [0x80, 0x80][..w - n]
                         else if w == 2 then [SomeSecond(s[0])]
                         else if w == 3 then [SomeSecond(s[0]), 0x80] else [SomeSecond(s[0]), 0x80, 0x80];
      assert OneChar(p + more);
    }
    if more: Bytes :| more != [] && OneChar(p + more) {
      var c := p + more;
      assert c[0] == s[0] && (n > 1 ==> c[1] == s[1]) && (n > 2 ==> c[2] == s[2]);
    }
  }

  /** Lossy decoding puts one replacement character for each longest piece that begins a character
      without completing it, and for each byte that begins none. */
  lemma {:induction false} LossyReplaces(s: Bytes, n: nat)
    requires s != [] && !StartsChar(s) && 0 < n <= |s|
    requires if Unfinished(s[..1]) then Unfinished(s[..n]) && (n == |s| || !Unfinished(s[..n + 1])) else n == 1
    ensures Lossy(s) == REPLACEMENT + Lossy(s[n..])
  {
    if Width(s[0]) == 0 {
      NothingBegins(s);
    } else {
      UnfinishedExactly(s, 1);
      UnfinishedExactly(s, n);
      if n < |s| { UnfinishedExactly(s, n + 1); }
    }
  }

  lemma NothingBegins(s: Bytes)
    requires s != [] && Width(s[0]) == 0
    ensures !Unfinished(s[..1])
  {
    forall more: Bytes ensures !OneChar(s[..1] + more) { assert (s[..1] + more)[0] == s[0]; }
  }
}
