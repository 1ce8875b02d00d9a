/** Which request lines the host takes for its keep-alive (daemon/src/host_server.rs:127): those
    whose text contains "host.ping" in quotes, wherever it stands. */
module PingText {
  import opened Common
  import opened Protocol

  const WORD := "host.ping"

  function InQuotes(word: string): string { "\"" + word + "\"" }

  function Hex(n: nat): (c: char)
    requires n < 16
    ensures '0' <= c <= '9' || 'a' <= c <= 'f'
  {
    if n < 10 then '0' + n as char else 'a' + (n - 10) as char
  }

  /** The letter of a short escape; a quote when there is none. */
  function Letter(n: nat): char {
    if n == 8 then 'b'
    else if n == 9 then 't'
    else if n == 10 then 'n'
    else if n == 12 then 'f'
    else if n == 13 then 'r'
    else '"'
  }

  /** One character as it stands inside a JSON string. */
  function Escape(c: char): string {
    var n := c as int;
    if c == '"' || c == '\\' then ['\\', c]
    else if n >= 0x20 then [c]
    else if Letter(n) != '"' then ['\\', Letter(n)]
    else ['\\', 'u', '0', '0', Hex(n / 16), Hex(n % 16)]
  }

  function Escaped(s: string): string {
    if s == "" then "" else Escaped(s[..|s| - 1]) + Escape(s[|s| - 1])
  }

  function JsonString(s: string): string { InQuotes(Escaped(s)) }

  predicate Holds(text: string, word: string, i: nat) {
    i + |word| <= |text| && text[i..i + |word|] == word
  }

  predicate Contains(text: string, word: string) {
    exists i: nat :: i + |word| <= |text| && Holds(text, word, i)
  }

  /** The texts of a message's string fields. Valid base64 has no dot, so a field that decodes is
      not among them; keys, numbers and punctuation never put the word between quotes. */
  function Texts(m: ClientMsg): seq<string> {
    match m
    case Hello(_, role, dev) => [role] + (if dev.Some? then [dev.value] else [])
    case SessionCreate(_, _, _, cwd, cmd) =>
      (if cwd.Some? then [cwd.value] else []) + (if cmd.Some? then [cmd.value] else [])
    case SessionAttach(_, sid) => [sid]
    case SessionKill(_, sid) => [sid]
    case Input(sid, data) => [sid] + Undecoded(data)
    case Resize(sid, _, _) => [sid]
    case AuthProof(pub, mac) => Undecoded(pub) + Undecoded(mac)
    case _ => []
  }

  function Undecoded<T>(f: Field<T>): seq<string> {
    if f.Garbled? then [f.text] else []
  }

  /** The host answers the line of this message as a keep-alive. */
  predicate MentionsPing(m: ClientMsg) {
    exists i :: 0 <= i < |Texts(m)| && Contains(JsonString(Texts(m)[i]), InQuotes(WORD))
  }

  /** The word itself, or the word after a quote of its own. */
  predicate Names(s: string, word: string) {
    || s == word
    || (|s| > |word| && s[|s| - |word|..] == word && s[|s| - |word| - 1] == '"')
  }

  // ---- Escaping and the word ----

  /** A character that is not escaped, nor the last digit of an escape. */
  predicate PlainChar(c: char) { Escape(c) == [c] && !('0' <= c <= '9') && !('a' <= c <= 'f') }

  predicate Plain(w: string) { forall i :: 0 <= i < |w| ==> PlainChar(w[i]) }

  lemma EscapeShape(c: char)
    ensures var e := Escape(c);
            && |e| > 0 && (PlainChar(e[|e| - 1]) && (|e| == 1 || e[|e| - 2] != '\\') ==> e == [c])
            && (e[|e| - 1] == '"' ==> c == '"')
            && (forall j :: 0 <= j < |e| && e[j] == '"' ==> j > 0 && e[j - 1] == '\\')
  {
  }

  lemma {:induction false} QuotesAreEscaped(s: string, j: nat)
    requires j < |Escaped(s)| && Escaped(s)[j] == '"'
    ensures j > 0 && Escaped(s)[j - 1] == '\\'
    decreases |s|
  {
    var init := Escaped(s[..|s| - 1]);
    if j < |init| {
      QuotesAreEscaped(s[..|s| - 1], j);
    } else {
      EscapeShape(s[|s| - 1]);
      assert Escape(s[|s| - 1])[j - |init|] == '"';
    }
  }

  lemma LastOfConcat(a: string, b: string)
    requires b != ""
    ensures (a + b)[|a + b| - 1] == b[|b| - 1]
    ensures |b| >= 2 ==> (a + b)[|a + b| - 2] == b[|b| - 2]
    ensures |b| == 1 && a != "" ==> (a + b)[|a + b| - 2] == a[|a| - 1]
  {
  }

  lemma LastEscape(before: string, x: char, init: string, c: char)
    requires before + Escape(x) == init + [c]
    requires PlainChar(c) && (init == "" || init[|init| - 1] != '\\')
    ensures x == c && before == init
  {
    EscapeShape(x);
    LastOfConcat(before, Escape(x));
    LastOfConcat(init, [c]);
    assert (before + Escape(x))[..|init|] == init;
    assert |Escape(x)| == 1 ==> (before + Escape(x))[..|before|] == before;
  }

  lemma PlainEndStep(s: string, head: string, w: string, c: char) returns (t: string)
    requires Escaped(s) == head + w + [c] && Plain(w) && PlainChar(c) && (head == "" || head[|head| - 1] == '"')
    ensures s == t + [c] && Escaped(t) == head + w
  {
    if w != "" {
      LastOfConcat(head, w);
      assert PlainChar(w[|w| - 1]);
    } else {
      assert head + w == head;
    }
    var text := head + w + [c];
    assert |text| > 0 && s != "";
    t := s[..|s| - 1];
    var x := s[|s| - 1];
    assert s == t + [x];
    LastEscape(Escaped(t), x, head + w, c);
  }

  lemma PlainSnoc(w: string, c: char)
    ensures Plain(w + [c]) <==> Plain(w) && PlainChar(c)
  {
    assert Plain(w + [c]) ==> forall i :: 0 <= i < |w| ==> PlainChar(w[i]) by {
      forall i | Plain(w + [c]) && 0 <= i < |w| ensures PlainChar(w[i]) { assert (w + [c])[i] == w[i]; }
    }
    assert Plain(w + [c]) ==> PlainChar((w + [c])[|w|]);
  }

  /** Plain text after a quote, or after nothing, was not escaped. */
  lemma {:induction false} PlainEnd(s: string, head: string, w: string) returns (rest: string)
    requires Escaped(s) == head + w && Plain(w) && (head == "" || head[|head| - 1] == '"')
    ensures s == rest + w && Escaped(rest) == head
    decreases |w|
  {
    if w == "" {
      rest := s;
      assert s == s + w && head + w == head;
    } else {
      var init, c := w[..|w| - 1], w[|w| - 1];
      assert w == init + [c];
      PlainSnoc(init, c);
      Assoc(head, init, [c]);
      var t := PlainEndStep(s, head, init, c);
      rest := PlainEnd(t, head, init);
      Assoc(rest, init, [c]);
    }
  }

  /** Where the word can stand in quotes inside a JSON string: at its end. */
  lemma WordIsLast(s: string, word: string, i: nat) returns (head: string)
    requires Plain(word) && word != "" && Holds(JsonString(s), InQuotes(word), i)
    ensures Escaped(s) == head + word && (head == "" || head[|head| - 1] == '"')
  {
    var e, n := Escaped(s), |word|;
    QuotedAt(e, word, i);
    PlainIsNoBackslash(word, n - 1);
    if i + n < |e| { QuotesAreEscaped(s, i + n); }
    head := e[..i];
    assert e == head + e[i..i + n];
    LastIs(e, i);
  }

  lemma PlainIsNoBackslash(word: string, i: nat)
    requires Plain(word) && i < |word|
    ensures word[i] != '\\'
  {
    assert PlainChar(word[i]);
  }

  lemma LastIs(e: string, i: nat)
    requires i <= |e|
    ensures i > 0 ==> e[..i][|e[..i]| - 1] == e[i - 1]
  {
  }

  /** What `word` in quotes at `i` of `e` in quotes says about `e`. */
  lemma QuotedAt(e: string, word: string, i: nat)
    requires word != "" && Holds(InQuotes(e), InQuotes(word), i)
    ensures i + |word| <= |e| && e[i..i + |word|] == word && (i > 0 ==> e[i - 1] == '"')
    ensures e[i + |word| - 1] == word[|word| - 1]
    ensures i + |word| < |e| ==> e[i + |word|] == '"'
  {
    var text, n := InQuotes(e), |word|;
    assert |text| == |e| + 2 && forall k :: 0 <= k < |e| ==> text[k + 1] == e[k];
    assert |InQuotes(word)| == n + 2 && forall k :: 0 <= k < n ==> InQuotes(word)[k + 1] == word[k];
    var part := text[i..i + n + 2];
    forall k | 0 <= k < n ensures e[i..i + n][k] == word[k] {
      assert part[k + 1] == InQuotes(word)[k + 1] && text[i + k + 1] == part[k + 1];
    }
    assert part[0] == InQuotes(word)[0] == '"' && part[n + 1] == InQuotes(word)[n + 1] == '"';
  }

  lemma LastEscapeIsQuote(s: string)
    requires s != "" && Escaped(s)[|Escaped(s)| - 1] == '"'
    ensures s[|s| - 1] == '"'
  {
    EscapeShape(s[|s| - 1]);
  }

  lemma EscapedIsEmpty(s: string)
    ensures Escaped(s) == "" <==> s == ""
  {
    if s != "" { EscapeShape(s[|s| - 1]); }
  }

  lemma {:induction false} PlainEscapes(head: string, w: string)
    requires Plain(w)
    ensures Escaped(head + w) == Escaped(head) + w
    decreases |w|
  {
    if w == "" {
      assert head + w == head;
    } else {
      assert (head + w)[..|head + w| - 1] == head + w[..|w| - 1];
      PlainEscapes(head, w[..|w| - 1]);
      assert PlainChar(w[|w| - 1]);
    }
  }

  lemma WholeIsContained(text: string)
    ensures Contains(text, text)
  {
    assert text[0..0 + |text|] == text;
    assert Holds(text, text, 0);
  }

  lemma EndIsContained(a: string, w: string)
    ensures Contains(a + w, w)
  {
    assert (a + w)[|a|..|a| + |w|] == w;
    assert Holds(a + w, w, |a|);
  }

  lemma Requote(q: string, a: string, w: string)
    ensures q + (a + q + w) + q == q + a + (q + w + q)
  {
  }

  lemma NamedIsContained(s: string, word: string)
    requires Plain(word) && Names(s, word)
    ensures Contains(JsonString(s), InQuotes(word))
  {
    if s == word {
      PlainEscapes("", word);
      assert "" + word == word;
      WholeIsContained(InQuotes(word));
    } else {
      var head := s[..|s| - |word| - 1];
      assert s == head + "\"" + word;
      PlainEscapes(head + "\"", word);
      assert (head + "\"")[..|head|] == head;
      var a := Escaped(head) + "\\";
      assert Escaped(head + "\"") == a + "\"";
      Requote("\"", a, word);
      EndIsContained("\"" + a, InQuotes(word));
    }
  }

  /** The JSON text of a string contains a plain word in quotes if and only if the string is that
      word, or ends with it after a quote. */
  lemma {:induction false} ContainsExactly(s: string, word: string)
    requires Plain(word) && word != ""
    ensures Contains(JsonString(s), InQuotes(word)) <==> Names(s, word)
  {
    if Contains(JsonString(s), InQuotes(word)) {
      var i: nat :| i + |InQuotes(word)| <= |JsonString(s)| && Holds(JsonString(s), InQuotes(word), i);
      var head := WordIsLast(s, word, i);
      var rest := PlainEnd(s, head, word);
      EscapedIsEmpty(rest);
      if rest != "" { LastEscapeIsQuote(rest); }
    } else if Names(s, word) {
      NamedIsContained(s, word);
    }
  }

  /** A message is taken for a keep-alive if and only if one of its texts is the word, or ends with
      it after a quote. */
  lemma {:induction false} MentionsPingExactly(m: ClientMsg)
    ensures MentionsPing(m) <==> exists i :: 0 <= i < |Texts(m)| && Names(Texts(m)[i], WORD)
  {
    forall i | 0 <= i < |Texts(m)|
      ensures Contains(JsonString(Texts(m)[i]), InQuotes(WORD)) <==> Names(Texts(m)[i], WORD)
    {
      ContainsExactly(Texts(m)[i], WORD);
    }
  }

  /** Field by field. */
  lemma {:induction false} FieldsExactly(m: ClientMsg)
    ensures match m
            case Hello(_, role, dev) => MentionsPing(m) <==> NamesPing(role) || (dev.Some? && NamesPing(dev.value))
            case SessionCreate(_, _, _, cwd, cmd) =>
              MentionsPing(m) <==> (cwd.Some? && NamesPing(cwd.value)) || (cmd.Some? && NamesPing(cmd.value))
            case SessionAttach(_, sid) => MentionsPing(m) <==> NamesPing(sid)
            case SessionKill(_, sid) => MentionsPing(m) <==> NamesPing(sid)
            case Input(sid, data) => MentionsPing(m) <==> NamesPing(sid) || (data.Garbled? && NamesPing(data.text))
            case Resize(sid, _, _) => MentionsPing(m) <==> NamesPing(sid)
            case AuthProof(pub, mac) =>
              MentionsPing(m) <==> (pub.Garbled? && NamesPing(pub.text)) || (mac.Garbled? && NamesPing(mac.text))
            case _ => !MentionsPing(m)
  {
    MentionsPingExactly(m);
    var ts := Texts(m);
    assert |ts| <= 2;
    assert (exists i :: 0 <= i < |ts| && Names(ts[i], WORD)) <==>
           (|ts| > 0 && NamesPing(ts[0])) || (|ts| > 1 && NamesPing(ts[1]));
  }

  predicate NamesPing(s: string) { Names(s, WORD) }
}
