/** The two stored most-recently-used lists of the browser (web/src/lib/relays.ts,
    web/src/Connect.tsx). */
module RecentList {
  import opened Common

  const MAX_SAVED: nat := 8

  /** A record is stored under its url. */
  datatype Rec<+D> = Rec(url: string, data: D)

  function Take<T>(s: seq<T>, n: nat): seq<T> { if |s| <= n then s else s[..n] }

  function Without<D>(list: seq<Rec<D>>, url: string): seq<Rec<D>> {
    if list == [] then []
    else if list[0].url == url then Without(list[1..], url)
    else [list[0]] + Without(list[1..], url)
  }

  /** One add: the record moves to the front, older records of its url go. */
  function Added<D>(list: seq<Rec<D>>, r: Rec<D>): seq<Rec<D>> { [r] + Without(list, r.url) }

  /** The stored list after a history of adds, cut at every write. */
  function Stored<D>(history: seq<Rec<D>>): seq<Rec<D>> {
    if history == [] then [] else Take(Added(Stored(history[..|history| - 1]), history[|history| - 1]), MAX_SAVED)
  }

  /** The same without the cut. */
  function Unbounded<D>(history: seq<Rec<D>>): seq<Rec<D>> {
    if history == [] then [] else Added(Unbounded(history[..|history| - 1]), history[|history| - 1])
  }

  function Reversed<D>(s: seq<Rec<D>>): seq<Rec<D>> {
    if s == [] then [] else [s[|s| - 1]] + Reversed(s[..|s| - 1])
  }

  /** The first record of each url, in order. */
  function FirstOfEachUrl<D>(s: seq<Rec<D>>): seq<Rec<D>> {
    if s == [] then []
    else
      var before := FirstOfEachUrl(s[..|s| - 1]);
      if exists i :: 0 <= i < |s| - 1 && s[i].url == s[|s| - 1].url then before else before + [s[|s| - 1]]
  }

  predicate DistinctUrls<D>(list: seq<Rec<D>>) {
    forall i, j :: 0 <= i < j < |list| ==> list[i].url != list[j].url
  }

  lemma {:induction false} WithoutMembers<D>(list: seq<Rec<D>>, url: string, i: nat)
    requires i < |Without(list, url)|
    ensures Without(list, url)[i] in list && Without(list, url)[i].url != url
    decreases |list|
  {
    if list[0].url == url {
      WithoutMembers(list[1..], url, i);
    } else if i > 0 {
      WithoutMembers(list[1..], url, i - 1);
    }
  }

  lemma PrependDistinct<D>(r: Rec<D>, list: seq<Rec<D>>)
    requires DistinctUrls(list) && forall i :: 0 <= i < |list| ==> list[i].url != r.url
    ensures DistinctUrls([r] + list)
  {
  }

  lemma TailDistinct<D>(list: seq<Rec<D>>)
    requires DistinctUrls(list) && list != []
    ensures DistinctUrls(list[1..]) && forall i :: 0 <= i < |list[1..]| ==> list[1..][i].url != list[0].url
  {
  }

  lemma {:induction false} WithoutAbsent<D>(list: seq<Rec<D>>, url: string)
    requires forall i :: 0 <= i < |list| ==> list[i].url != url
    ensures Without(list, url) == list
    decreases |list|
  {
    if list != [] { WithoutAbsent(list[1..], url); }
  }

  /** Removing a url keeps urls distinct and removes at most one record. */
  lemma {:induction false} WithoutDistinct<D>(list: seq<Rec<D>>, url: string)
    requires DistinctUrls(list)
    ensures DistinctUrls(Without(list, url)) && |Without(list, url)| >= |list| - 1
    decreases |list|
  {
    if list != [] {
      TailDistinct(list);
      if list[0].url == url {
        WithoutAbsent(list[1..], url);
      } else {
        WithoutDistinct(list[1..], url);
        var w := Without(list[1..], url);
        forall i | 0 <= i < |w| ensures w[i].url != list[0].url { WithoutMembers(list[1..], url, i); }
        PrependDistinct(list[0], w);
      }
    }
  }

  lemma {:induction false} WithoutConcat<D>(a: seq<Rec<D>>, b: seq<Rec<D>>, url: string)
    ensures Without(a + b, url) == Without(a, url) + Without(b, url)
    decreases |a|
  {
    if a == [] {
      assert a + b == b;
    } else {
      assert (a + b)[1..] == a[1..] + b;
      WithoutConcat(a[1..], b, url);
    }
  }

  /** Cutting before an add loses nothing of the cut list after it. */
  lemma CutBeforeAdd<D>(list: seq<Rec<D>>, r: Rec<D>, n: nat)
    requires DistinctUrls(list)
    ensures Take(Added(Take(list, n), r), n) == Take(Added(list, r), n)
  {
    if |list| > n {
      assert list == list[..n] + list[n..];
      WithoutConcat(list[..n], list[n..], r.url);
      WithoutDistinct(list[..n], r.url);
    }
  }

  lemma {:induction false} UnboundedDistinct<D>(history: seq<Rec<D>>)
    ensures DistinctUrls(Unbounded(history))
    decreases |history|
  {
    if history != [] {
      var pre, r := Unbounded(history[..|history| - 1]), history[|history| - 1];
      UnboundedDistinct(history[..|history| - 1]);
      WithoutDistinct(pre, r.url);
      var w := Without(pre, r.url);
      forall i | 0 <= i < |w| ensures w[i].url != r.url { WithoutMembers(pre, r.url, i); }
      PrependDistinct(r, w);
    }
  }

  /** The stored list is the unbounded list, cut. */
  lemma {:induction false} StoredIsCut<D>(history: seq<Rec<D>>)
    ensures Stored(history) == Take(Unbounded(history), MAX_SAVED)
    decreases |history|
  {
    if history != [] {
      StoredIsCut(history[..|history| - 1]);
      UnboundedDistinct(history[..|history| - 1]);
      CutBeforeAdd(Unbounded(history[..|history| - 1]), history[|history| - 1], MAX_SAVED);
    }
  }

  /** Prepending a record: it stays, and its url is dropped from the rest. */
  lemma {:induction false} FirstOfEachPrepended<D>(r: Rec<D>, s: seq<Rec<D>>)
    ensures FirstOfEachUrl([r] + s) == [r] + Without(FirstOfEachUrl(s), r.url)
    decreases |s|
  {
    var all := [r] + s;
    if s == [] {
      assert all == [r] && all[..0] == [];
    } else {
      var pre, last := s[..|s| - 1], s[|s| - 1];
      assert all[..|all| - 1] == [r] + pre;
      FirstOfEachPrepended(r, pre);
      WithoutConcat(FirstOfEachUrl(pre), [last], r.url);
      assert Without([last], r.url) == if last.url == r.url then [] else [last] by { assert [last][1..] == []; }
      if last.url == r.url {
        assert all[0].url == last.url;
        assert Without(FirstOfEachUrl(pre), r.url) + [] == Without(FirstOfEachUrl(pre), r.url);
      } else if exists i :: 0 <= i < |s| - 1 && s[i].url == last.url {
        var i :| 0 <= i < |s| - 1 && s[i].url == last.url;
        assert all[i + 1].url == last.url;
      } else {
        forall i | 0 <= i < |all| - 1 ensures all[i].url != last.url {
          assert i > 0 ==> all[i] == s[i - 1];
        }
        assert FirstOfEachUrl(s) == FirstOfEachUrl(pre) + [last];
      }
    }
  }

  lemma {:induction false} UnboundedIsFirstOfEach<D>(history: seq<Rec<D>>)
    ensures Unbounded(history) == FirstOfEachUrl(Reversed(history))
    decreases |history|
  {
    if history != [] {
      UnboundedIsFirstOfEach(history[..|history| - 1]);
      FirstOfEachPrepended(history[|history| - 1], Reversed(history[..|history| - 1]));
    }
  }

  /** After any add-only history the stored list is the first eight distinct urls of the reversed
      history, each with its latest record. */
  lemma StoredIsLatestEight<D>(history: seq<Rec<D>>)
    ensures Stored(history) == Take(FirstOfEachUrl(Reversed(history)), MAX_SAVED)
  {
    StoredIsCut(history);
    UnboundedIsFirstOfEach(history);
  }

  // ---- The stores ----

  /** JavaScript's `trim`: white space and line terminators. */
  predicate IsTrimmed(c: char) {
    var n := c as int;
    9 <= n <= 13 || n == 0x20 || n == 0xA0 || n == 0x1680 || 0x2000 <= n <= 0x200A
    || n == 0x2028 || n == 0x2029 || n == 0x202F || n == 0x205F || n == 0x3000 || n == 0xFEFF
  }

  function Trim(s: string): string
    decreases |s|
  {
    if s == "" then ""
    else if IsTrimmed(s[0]) then Trim(s[1..])
    else if IsTrimmed(s[|s| - 1]) then Trim(s[..|s| - 1])
    else s
  }

  function NameOf(name: Option<string>): Option<string> {
    if name.Some? && Trim(name.value) != "" then Some(Trim(name.value)) else None
  }

  predicate Blank(s: string) { forall i :: 0 <= i < |s| ==> IsTrimmed(s[i]) }

  /** `t` is `s` from its first to its last character that is not blank, at `a` and before `b`. */
  predicate IsTrim(s: string, t: string, a: nat, b: nat) {
    && a <= b <= |s| && t == s[a..b] && Blank(s[..a]) && Blank(s[b..])
    && (a < b ==> !IsTrimmed(s[a]) && !IsTrimmed(s[b - 1]))
  }

  lemma TrimLeft(s: string, t: string, a: nat, b: nat)
    requires s != "" && IsTrimmed(s[0]) && IsTrim(s[1..], t, a, b)
    ensures IsTrim(s, t, a + 1, b + 1)
  {
    assert s[1..][a..b] == s[a + 1..b + 1] && s[1..][b..] == s[b + 1..];
    var head := s[..a + 1];
    forall i | 0 <= i < |head| ensures IsTrimmed(head[i]) { assert i > 0 ==> IsTrimmed(s[1..][..a][i - 1]); }
  }

  lemma TrimRight(s: string, t: string, a: nat, b: nat)
    requires s != "" && IsTrimmed(s[|s| - 1]) && IsTrim(s[..|s| - 1], t, a, b)
    ensures IsTrim(s, t, a, b)
  {
    var n := |s| - 1;
    assert s[..n][a..b] == s[a..b] && s[..n][..a] == s[..a];
    forall i | 0 <= i < |s[b..]| ensures IsTrimmed(s[b..][i]) {
      assert b + i < n ==> IsTrimmed(s[..n][b..][i]);
    }
  }

  /** Trimming keeps the text from the first to the last character that is not blank. */
  lemma {:induction false} TrimExactly(s: string) returns (a: nat, b: nat)
    ensures IsTrim(s, Trim(s), a, b)
    decreases |s|
  {
    if s == "" {
      a, b := 0, 0;
    } else if IsTrimmed(s[0]) {
      a, b := TrimExactly(s[1..]);
      TrimLeft(s, Trim(s), a, b);
      a, b := a + 1, b + 1;
    } else if IsTrimmed(s[|s| - 1]) {
      a, b := TrimExactly(s[..|s| - 1]);
      TrimRight(s, Trim(s), a, b);
    } else {
      a, b := 0, |s|;
      assert s[0..|s|] == s;
    }
  }

  /** A name is stored trimmed, and not at all when it is blank or absent. */
  lemma {:induction false} NameExactly(name: Option<string>)
    ensures NameOf(name).Some? <==> name.Some? && !Blank(name.value)
    ensures NameOf(name).Some? ==> exists a: nat, b: nat :: IsTrim(name.value, NameOf(name).value, a, b)
  {
    if name.Some? {
      var a, b := TrimExactly(name.value);
      var s := name.value;
      if a < b {
        assert !IsTrimmed(s[a]);
      } else {
        assert s == s[..a] + s[b..];
        BlankConcat(s[..a], s[b..]);
      }
    }
  }

  lemma BlankConcat(s: string, t: string)
    requires Blank(s) && Blank(t)
    ensures Blank(s + t)
  {
  }

  /** The history as stored: trimmed, blank urls ignored. */
  function Records(adds: seq<(string, Option<string>)>): seq<Rec<Option<string>>> {
    if adds == [] then []
    else
      var pre, (url, name) := Records(adds[..|adds| - 1]), adds[|adds| - 1];
      if Trim(url) == "" then pre else pre + [Rec(Trim(url), NameOf(name))]
  }

  class ClientRelays {
    var stored: seq<Rec<Option<string>>>
    var last: Option<string>
    ghost var adds: seq<(string, Option<string>)>

    /** Only adds so far. */
    ghost predicate AddOnly() reads this { stored == Stored(Records(adds)) }

    constructor ()
      ensures AddOnly() && adds == [] && last == None
    {
      stored, last, adds := [], None, [];
    }

    /** `list` is what the caller gets back: one longer than what is stored when that is cut. */
    method AddClientRelay(url: string, name: Option<string>) returns (list: seq<Rec<Option<string>>>)
      modifies this
      ensures old(AddOnly()) ==> AddOnly()
      ensures adds == old(adds) + [(url, name)]
      ensures list == if Trim(url) == "" then old(stored) else Added(old(stored), Rec(Trim(url), NameOf(name)))
      ensures stored == if Trim(url) == "" then old(stored) else Take(list, MAX_SAVED)
      ensures last == if Trim(url) == "" then old(last) else Some(Trim(url))
    {
      assert (adds + [(url, name)])[..|adds|] == adds;
      adds := adds + [(url, name)];
      var u := Trim(url);
      if u == "" {
        return stored;
      }
      var r := Rec(u, NameOf(name));
      assert Records(adds)[..|Records(adds)| - 1] == Records(old(adds));
      list := [r] + Without(stored, u);
      Persist(list);
      last := Some(u);
    }

    method Persist(list: seq<Rec<Option<string>>>)
      modifies this`stored
      ensures stored == Take(list, MAX_SAVED)
    {
      stored := if |list| <= 8 then list else list[..8];
    }

    /** What the page reads back after an add-only history. */
    lemma Remembered()
      requires AddOnly()
      ensures stored == Take(FirstOfEachUrl(Reversed(Records(adds))), MAX_SAVED)
    {
      StoredIsLatestEight(Records(adds));
    }
  }

  class SavedConns<D(==)> {
    var stored: seq<Rec<D>>
    ghost var saves: seq<Rec<D>>

    ghost predicate AddOnly() reads this { stored == Stored(saves) }

    constructor ()
      ensures AddOnly() && saves == []
    {
      stored, saves := [], [];
    }

    method SaveConn(c: Rec<D>)
      modifies this
      ensures old(AddOnly()) ==> AddOnly()
      ensures stored == Take(Added(old(stored), c), MAX_SAVED) && saves == old(saves) + [c]
    {
      assert (saves + [c])[..|saves|] == saves;
      saves := saves + [c];
      var list := [c] + Without(stored, c.url);
      stored := if |list| <= MAX_SAVED then list else list[..MAX_SAVED];
    }
  }
}
