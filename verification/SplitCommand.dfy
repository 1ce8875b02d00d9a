/** The quote-aware command splitter of daemon/src/session.rs. */
module SplitCommand {
  import opened Common

  /** Rust's `char::is_whitespace`: the White_Space property. */
  predicate IsWhitespace(c: char) {
    var n := c as int;
    9 <= n <= 13 || n == 0x20 || n == 0x85 || n == 0xA0 || n == 0x1680 || 0x2000 <= n <= 0x200A
    || n == 0x2028 || n == 0x2029 || n == 0x202F || n == 0x205F || n == 0x3000
  }

  /** The loop's variables. */
  datatype Scan = Scan(out: seq<string>, cur: string, inQuote: bool)

  function Next(s: Scan, c: char): Scan {
    if c == '"' then s.(inQuote := !s.inQuote)
    else if IsWhitespace(c) && !s.inQuote then (if s.cur != "" then Scan(s.out + [s.cur], "", s.inQuote) else s)
    else s.(cur := s.cur + [c])
  }

  function ScanAll(s: Scan, text: string): Scan {
    if text == "" then s else Next(ScanAll(s, text[..|text| - 1]), text[|text| - 1])
  }

  function Finish(s: Scan): seq<string> {
    if s.cur != "" then s.out + [s.cur] else s.out
  }

  function Split(text: string): seq<string> { Finish(ScanAll(Scan([], "", false), text)) }

  /** The characters that survive: no quotes, no whitespace outside quotes. */
  function Kept(text: string, inQuote: bool): string {
    if text == "" then ""
    else if text[0] == '"' then Kept(text[1..], !inQuote)
    else if IsWhitespace(text[0]) && !inQuote then Kept(text[1..], inQuote)
    else [text[0]] + Kept(text[1..], inQuote)
  }

  predicate NoneEmpty(words: seq<string>) { forall i :: 0 <= i < |words| ==> words[i] != "" }

  method SplitWords(text: string) returns (words: seq<string>)
    ensures words == Split(text)
    ensures NoneEmpty(words)
    ensures Flatten(words) == Kept(text, false)
  {
    var out: seq<string>, cur, inQuote := [], "", false;
    for i := 0 to |text|
      invariant Scan(out, cur, inQuote) == ScanAll(Scan([], "", false), text[..i])
    {
      assert text[..i + 1][..i] == text[..i];
      var c := text[i];
      if c == '"' {
        inQuote := !inQuote;
      } else if IsWhitespace(c) && !inQuote {
        if cur != "" {
          out := out + [cur];
          cur := "";
        }
      } else {
        cur := cur + [c];
      }
    }
    assert text[..|text|] == text;
    words := if cur != "" then out + [cur] else out;
    SplitKeepsText(text);
  }

  /** What a scan has collected so far. */
  function Collected(s: Scan): string { Flatten(s.out) + s.cur }

  lemma {:induction false} ScanFromTheLeft(s: Scan, text: string)
    requires text != ""
    ensures ScanAll(s, text) == ScanAll(Next(s, text[0]), text[1..])
    decreases |text|
  {
    var n := |text| - 1;
    if n == 0 {
      assert text[..0] == "" && text[1..] == "";
    } else {
      ScanFromTheLeft(s, text[..n]);
      assert text[..n][1..] == text[1..][..n - 1];
    }
  }

  lemma NextCollects(s: Scan, c: char)
    requires NoneEmpty(s.out)
    ensures NoneEmpty(Next(s, c).out)
    ensures Collected(Next(s, c)) == Collected(s) + if c == '"' || (IsWhitespace(c) && !s.inQuote) then "" else [c]
  {
    if c != '"' && IsWhitespace(c) && !s.inQuote && s.cur != "" { FlattenSnoc(s.out, s.cur); }
    assert Collected(s) + "" == Collected(s);
  }

  lemma {:induction false} ScanCollects(s: Scan, text: string)
    requires NoneEmpty(s.out)
    ensures NoneEmpty(ScanAll(s, text).out) && Collected(ScanAll(s, text)) == Collected(s) + Kept(text, s.inQuote)
    decreases |text|
  {
    if text != "" {
      ScanFromTheLeft(s, text);
      NextCollects(s, text[0]);
      ScanCollects(Next(s, text[0]), text[1..]);
    }
  }

  /** For every input the words hold exactly the input minus quotes and unquoted whitespace, and
      no word is empty. */
  lemma SplitKeepsText(text: string)
    ensures NoneEmpty(Split(text)) && Flatten(Split(text)) == Kept(text, false)
  {
    var s := ScanAll(Scan([], "", false), text);
    ScanCollects(Scan([], "", false), text);
    assert "" + "" + Kept(text, false) == Kept(text, false) && Flatten(s.out) + "" == Flatten(s.out);
    if s.cur != "" { FlattenSnoc(s.out, s.cur); }
  }

  // ---- Quoting is undone ----

  /** Each word in double quotes, separated by single spaces. */
  function Quoted(words: seq<string>): string {
    if words == [] then ""
    else "\"" + words[0] + "\"" + (if |words| == 1 then "" else " " + Quoted(words[1..]))
  }

  predicate QuoteFree(w: string) { '"' !in w }

  /** The words that are not empty. */
  function Nonempty(words: seq<string>): seq<string> {
    if words == [] then [] else (if words[0] == "" then [] else [words[0]]) + Nonempty(words[1..])
  }

  lemma {:induction false} ScanConcat(s: Scan, a: string, b: string)
    ensures ScanAll(s, a + b) == ScanAll(ScanAll(s, a), b)
    decreases |b|
  {
    if b == "" {
      assert a + b == a;
    } else {
      assert (a + b)[..|a + b| - 1] == a + b[..|b| - 1];
      ScanConcat(s, a, b[..|b| - 1]);
    }
  }

  lemma {:induction false} ScanQuotedText(out: seq<string>, cur: string, w: string)
    requires QuoteFree(w)
    ensures ScanAll(Scan(out, cur, true), w) == Scan(out, cur + w, true)
    decreases |w|
  {
    if w != "" {
      assert w == w[..|w| - 1] + [w[|w| - 1]];
      ScanQuotedText(out, cur, w[..|w| - 1]);
    } else {
      assert cur + w == cur;
    }
  }

  lemma ScanOne(s: Scan, c: char)
    ensures ScanAll(s, [c]) == Next(s, c)
  {
    assert [c][..0] == "";
  }

  lemma ScanQuotedWord(out: seq<string>, w: string)
    requires QuoteFree(w)
    ensures ScanAll(Scan(out, "", false), "\"" + w + "\"") == Scan(out, w, false)
  {
    ScanConcat(Scan(out, "", false), "\"" + w, "\"");
    ScanConcat(Scan(out, "", false), "\"", w);
    ScanOne(Scan(out, "", false), '"');
    ScanQuotedText(out, "", w);
    ScanOne(Scan(out, w, true), '"');
  }

  /** A quoted word and the space after it. */
  lemma ScanQuotedSpace(out: seq<string>, w: string, rest: string)
    requires QuoteFree(w)
    ensures ScanAll(Scan(out, "", false), "\"" + w + "\"" + (" " + rest)) ==
            ScanAll(Scan(out + (if w == "" then [] else [w]), "", false), rest)
  {
    ScanQuotedWord(out, w);
    ScanConcat(Scan(out, "", false), "\"" + w + "\"", " " + rest);
    ScanConcat(Scan(out, w, false), " ", rest);
    ScanOne(Scan(out, w, false), ' ');
    assert out + [] == out;
  }

  lemma {:induction false} ScanQuotedList(out: seq<string>, words: seq<string>)
    requires forall i :: 0 <= i < |words| ==> QuoteFree(words[i])
    ensures Finish(ScanAll(Scan(out, "", false), Quoted(words))) == out + Nonempty(words)
    decreases |words|
  {
    if words != [] {
      var w := words[0];
      var kept := if w == "" then [] else [w];
      if |words| == 1 {
        ScanQuotedWord(out, w);
        assert Quoted(words) == "\"" + w + "\"" && Nonempty(words) == kept;
      } else {
        ScanQuotedSpace(out, w, Quoted(words[1..]));
        ScanQuotedList(out + kept, words[1..]);
        assert out + kept + Nonempty(words[1..]) == out + (kept + Nonempty(words[1..]));
      }
    }
  }

  lemma {:induction false} NonemptyIsShorter(words: seq<string>)
    ensures |Nonempty(words)| <= |words|
    ensures Nonempty(words) == words <==> NoneEmpty(words)
    decreases |words|
  {
    if words != [] {
      NonemptyIsShorter(words[1..]);
      if words[0] != "" { assert words == [words[0]] + words[1..]; }
    }
  }

  lemma {:induction false} KeptHasNoQuotes(text: string, inQuote: bool)
    ensures '"' !in Kept(text, inQuote)
    decreases |text|
  {
    if text != "" { KeptHasNoQuotes(text[1..], if text[0] == '"' then !inQuote else inQuote); }
  }

  lemma {:induction false} FlattenHolds(words: seq<string>, i: nat, c: char)
    requires i < |words| && c in words[i]
    ensures c in Flatten(words)
    decreases |words|
  {
    if i < |words| - 1 { FlattenHolds(words[..|words| - 1], i, c); }
  }

  /** Quoting and splitting are inverse exactly on lists of non-empty, quote-free words. */
  lemma {:induction false} SplitUndoesQuoting(words: seq<string>)
    ensures Split(Quoted(words)) == words <==> NoneEmpty(words) && forall i :: 0 <= i < |words| ==> QuoteFree(words[i])
  {
    if forall i :: 0 <= i < |words| ==> QuoteFree(words[i]) {
      ScanQuotedList([], words);
      NonemptyIsShorter(words);
      assert [] + Nonempty(words) == Nonempty(words);
    } else if Split(Quoted(words)) == words {
      var i :| 0 <= i < |words| && !QuoteFree(words[i]);
      FlattenHolds(words, i, '"');
      SplitKeepsText(Quoted(words));
      KeptHasNoQuotes(Quoted(words), false);
      assert false;
    }
  }

  // ---- Where words begin and end ----

  /** An odd number of quotes stands before position `i`. */
  predicate InsideQuotes(text: string, i: nat)
    requires i <= |text|
    decreases i
  {
    i > 0 && (InsideQuotes(text, i - 1) <==> text[i - 1] != '"')
  }

  /** Whitespace outside quotes. */
  predicate Break(text: string, i: nat) {
    i < |text| && IsWhitespace(text[i]) && !InsideQuotes(text, i)
  }

  /** A longest part of the text without a break. */
  predicate Stretch(text: string, a: nat, b: nat) {
    && a <= b <= |text|
    && (a == 0 || Break(text, a - 1)) && (b == |text| || Break(text, b))
    && forall i :: a <= i < b ==> !Break(text, i)
  }

  function Unquoted(s: string): string {
    if s == "" then "" else Unquoted(s[..|s| - 1]) + if s[|s| - 1] == '"' then "" else [s[|s| - 1]]
  }

  datatype Part = Part(a: nat, b: nat)

  /** The parts are stretches, in order, and hold the words without their quotes; every stretch with
      anything in it but quotes is among them. */
  ghost predicate AreWords(text: string, parts: seq<Part>, words: seq<string>) {
    && |parts| == |words|
    && (forall k :: 0 <= k < |parts| ==> IsWord(text, parts[k], words[k]))
    && (forall j, k :: 0 <= j < k < |parts| ==> parts[j].b < parts[k].a)
    && (forall a: nat, b: nat :: Stretch(text, a, b) && Unquoted(text[a..b]) != "" ==> Part(a, b) in parts)
  }

  predicate IsWord(text: string, p: Part, w: string) {
    Stretch(text, p.a, p.b) && w == Unquoted(text[p.a..p.b]) && w != ""
  }

  /** What the scan knows after `text`: the closed stretches hold the words out, the open one begins at
      `start` and holds the current word. */
  ghost predicate Open(text: string, s: Scan, parts: seq<Part>, start: nat) {
    && start <= |text| && (start == 0 || Break(text, start - 1))
    && (forall i :: start <= i < |text| ==> !Break(text, i))
    && s.inQuote == InsideQuotes(text, |text|) && s.cur == Unquoted(text[start..])
    && Listed(text, s.out, parts, start)
  }

  /** The words out are those of the stretches closed before `start`. */
  ghost predicate Listed(text: string, out: seq<string>, parts: seq<Part>, start: nat) {
    && |parts| == |out|
    && (forall k :: 0 <= k < |parts| ==> Closed(text, parts[k], out[k]) && parts[k].b < start)
    && (forall j, k :: 0 <= j < k < |parts| ==> parts[j].b < parts[k].a)
    && (forall a: nat, b: nat :: Closes(text, a, b) && Unquoted(text[a..b]) != "" && b < start ==> Part(a, b) in parts)
  }

  /** A stretch that ends at a break. */
  predicate Closes(text: string, a: nat, b: nat) { Stretch(text, a, b) && b < |text| }

  predicate Closed(text: string, p: Part, w: string) { IsWord(text, p, w) && p.b < |text| }

  lemma {:induction false} QuotedFrame(text: string, c: char, i: nat)
    requires i <= |text|
    ensures InsideQuotes(text + [c], i) == InsideQuotes(text, i)
    decreases i
  {
    if i > 0 { QuotedFrame(text, c, i - 1); }
  }

  lemma BreakFrame(text: string, c: char, i: nat)
    requires i < |text|
    ensures Break(text + [c], i) == Break(text, i)
  {
    QuotedFrame(text, c, i);
  }

  /** More text leaves closed stretches as they are. */
  lemma ClosesFrame(text: string, c: char, a: nat, b: nat)
    requires b < |text|
    ensures Closes(text + [c], a, b) <==> Closes(text, a, b)
    ensures a <= b ==> (text + [c])[a..b] == text[a..b]
  {
    forall i | 0 <= i < |text| ensures Break(text + [c], i) == Break(text, i) { BreakFrame(text, c, i); }
    if a <= b { assert (text + [c])[a..b] == text[a..b]; }
  }

  lemma UnquotedSnoc(s: string, c: char)
    ensures Unquoted(s + [c]) == Unquoted(s) + if c == '"' then "" else [c]
  {
    assert (s + [c])[..|s|] == s;
  }

  /** A character that does not break. */
  lemma OpenGoesOn(text: string, c: char, s: Scan, parts: seq<Part>, start: nat)
    requires Open(text, s, parts, start) && !(IsWhitespace(c) && !s.inQuote && c != '"')
    requires !Break(text + [c], |text|)
    ensures Open(text + [c], Next(s, c), parts, start)
  {
    var more := text + [c];
    forall i | 0 <= i < |text| ensures Break(more, i) == Break(text, i) { BreakFrame(text, c, i); }
    QuotedFrame(text, c, |text|);
    assert more[start..] == text[start..] + [c];
    UnquotedSnoc(text[start..], c);
    KeepClosed(text, c, s.out, parts, start);
  }

  lemma KeepClosed(text: string, c: char, out: seq<string>, parts: seq<Part>, start: nat)
    requires start <= |text| && |parts| == |out|
    requires forall k :: 0 <= k < |parts| ==> Closed(text, parts[k], out[k]) && parts[k].b < start
    ensures forall k :: 0 <= k < |parts| ==> Closed(text + [c], parts[k], out[k])
    ensures forall a: nat, b: nat :: b < start ==> (Closes(text + [c], a, b) <==> Closes(text, a, b))
    ensures forall a: nat, b: nat :: a <= b < start ==> (text + [c])[a..b] == text[a..b]
  {
    forall a: nat, b: nat | b < start
      ensures Closes(text + [c], a, b) <==> Closes(text, a, b)
      ensures a <= b ==> (text + [c])[a..b] == text[a..b]
    {
      ClosesFrame(text, c, a, b);
    }
    forall k | 0 <= k < |parts| ensures Closed(text + [c], parts[k], out[k]) {
      ClosesFrame(text, c, parts[k].a, parts[k].b);
      assert Closes(text, parts[k].a, parts[k].b);
    }
  }

  /** A break closes the open stretch. */
  lemma OpenCloses(text: string, c: char, s: Scan, parts: seq<Part>, start: nat) returns (parts': seq<Part>)
    requires Open(text, s, parts, start) && Break(text + [c], |text|)
    ensures Open(text + [c], Next(s, c), parts', |text| + 1)
  {
    var more, n := text + [c], |text|;
    QuotedFrame(text, c, n);
    assert more[n + 1..] == "";
    if s.cur == "" {
      parts' := parts;
      ListedSame(text, c, s, parts, start);
    } else {
      parts' := parts + [Part(start, n)];
      ListedMore(text, c, s, parts, start);
    }
  }

  lemma ListedSame(text: string, c: char, s: Scan, parts: seq<Part>, start: nat)
    requires Open(text, s, parts, start) && Break(text + [c], |text|) && s.cur == ""
    ensures Listed(text + [c], s.out, parts, |text| + 1)
  {
    var more := text + [c];
    KeepClosed(text, c, s.out, parts, start);
    forall a: nat, b: nat | Closes(more, a, b) && Unquoted(more[a..b]) != "" && b < |text| + 1
      ensures Part(a, b) in parts
    {
      ClosedListed(text, c, s, parts, start, a, b);
    }
  }

  lemma ListedMore(text: string, c: char, s: Scan, parts: seq<Part>, start: nat)
    requires Open(text, s, parts, start) && Break(text + [c], |text|) && s.cur != ""
    ensures Listed(text + [c], s.out + [s.cur], parts + [Part(start, |text|)], |text| + 1)
  {
    var more, n := text + [c], |text|;
    KeepClosed(text, c, s.out, parts, start);
    NewClosed(text, c, s, parts, start);
    forall a: nat, b: nat | Closes(more, a, b) && Unquoted(more[a..b]) != "" && b < n + 1
      ensures Part(a, b) in parts + [Part(start, n)]
    {
      ClosedListed(text, c, s, parts, start, a, b);
    }
  }

  lemma NewClosed(text: string, c: char, s: Scan, parts: seq<Part>, start: nat)
    requires Open(text, s, parts, start) && Break(text + [c], |text|) && s.cur != ""
    ensures Closed(text + [c], Part(start, |text|), s.cur)
  {
    var more, n := text + [c], |text|;
    forall i | 0 <= i < n ensures Break(more, i) == Break(text, i) { BreakFrame(text, c, i); }
    assert more[start..n] == text[start..];
  }

  lemma ClosedListed(text: string, c: char, s: Scan, parts: seq<Part>, start: nat, a: nat, b: nat)
    requires Open(text, s, parts, start) && Break(text + [c], |text|)
    requires Closes(text + [c], a, b) && Unquoted((text + [c])[a..b]) != "" && b <= |text|
    ensures Part(a, b) in parts || (a == start && b == |text| && s.cur != "")
  {
    var more, n := text + [c], |text|;
    if b < start {
      ClosesFrame(text, c, a, b);
    } else {
      forall i | 0 <= i < n ensures Break(more, i) == Break(text, i) { BreakFrame(text, c, i); }
      EndsHere(more, start, n, a, b);
      assert more[start..n] == text[start..];
    }
  }

  /** The only stretch that ends between `start` and the break at `n` is the open one. */
  lemma EndsHere(text: string, start: nat, n: nat, a: nat, b: nat)
    requires Stretch(text, start, n) && n < |text| && Closes(text, a, b) && start <= b <= n
    ensures a == start && b == n
  {
  }

  lemma {:induction false} ScanOpens(text: string) returns (parts: seq<Part>, start: nat)
    ensures Open(text, ScanAll(Scan([], "", false), text), parts, start)
    decreases |text|
  {
    if text == "" {
      parts, start := [], 0;
    } else {
      var n := |text| - 1;
      var init, c := text[..n], text[n];
      InitLast(text);
      parts, start := ScanOpens(init);
      var s := ScanAll(Scan([], "", false), init);
      QuotedFrame(init, c, n);
      if Break(init + [c], n) {
        parts := OpenCloses(init, c, s, parts, start);
        start := n + 1;
      } else {
        OpenGoesOn(init, c, s, parts, start);
      }
    }
  }

  /** For every input: the words are the longest parts without unquoted whitespace, in order, without
      their quotes, and those parts only that hold more than quotes. */
  lemma {:induction false} WordsAreStretches(text: string) returns (parts: seq<Part>)
    ensures AreWords(text, parts, Split(text))
  {
    var start;
    parts, start := ScanOpens(text);
    var s, n := ScanAll(Scan([], "", false), text), |text|;
    assert text[start..] == text[start..n] && Stretch(text, start, n);
    forall a: nat, b: nat | Stretch(text, a, b) && Unquoted(text[a..b]) != ""
      ensures Part(a, b) in parts || (a == start && b == n && s.cur != "")
    {
      assert b < start ==> Closes(text, a, b);
    }
    if s.cur != "" { parts := parts + [Part(start, n)]; }
  }
}
