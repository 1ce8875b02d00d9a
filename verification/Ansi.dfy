/** The detector's ANSI-stripping automaton (daemon/src/detector.rs): its state survives from one
    chunk to the next. */
module Ansi {
  import opened Common

  const ESC: byte := 0x1B
  const CR: byte := 0x0D
  const BEL: byte := 0x07
  const BACKSLASH: byte := 0x5C

  datatype Phase = Plain | Escape | Csi | Osc
  datatype Auto = Auto(phase: Phase, oscDepth: nat)

  const START := Auto(Plain, 0)

  function StripByte(a: Auto, b: byte): (Auto, Bytes) {
    match a.phase
    case Plain =>
      if b == ESC then (a.(phase := Escape), []) else (a, if b == CR then [] else [b])
    case Escape =>
      if b == 0x5B then (a.(phase := Csi), [])
      else if b == 0x5D then (Auto(Osc, 0), [])
      else (a.(phase := Plain), [])
    case Csi =>
      (if 0x40 <= b <= 0x7E then a.(phase := Plain) else a, [])
    case Osc =>
      if b == BEL then (a.(phase := Plain), [])
      else if b == ESC then (a.(oscDepth := a.oscDepth + 1), [])
      else if b == BACKSLASH && a.oscDepth > 0 then (a.(phase := Plain), [])
      else (a, [])
  }

  function Strip(a: Auto, chunk: Bytes): (Auto, Bytes) {
    if chunk == [] then (a, [])
    else
      var (a1, out1) := Strip(a, chunk[..|chunk| - 1]);
      var (a2, out2) := StripByte(a1, chunk[|chunk| - 1]);
      (a2, out1 + out2)
  }

  /** The loop of `strip_ansi`, on the detector's two fields. */
  method StripAnsi(phase: Phase, oscDepth: nat, chunk: Bytes) returns (phase': Phase, oscDepth': nat, out: Bytes)
    ensures Auto(phase', oscDepth') == Strip(Auto(phase, oscDepth), chunk).0
    ensures out == Strip(Auto(phase, oscDepth), chunk).1
  {
    phase', oscDepth', out := phase, oscDepth, [];
    for i := 0 to |chunk|
      invariant Auto(phase', oscDepth') == Strip(Auto(phase, oscDepth), chunk[..i]).0
      invariant out == Strip(Auto(phase, oscDepth), chunk[..i]).1
    {
      assert chunk[..i + 1][..i] == chunk[..i];
      var b := chunk[i];
      match phase' {
        case Plain =>
          if b == ESC {
            phase' := Escape;
          } else if b != CR {
            out := out + [b];
          }
        case Escape =>
          if b == 0x5B {
            phase' := Csi;
          } else if b == 0x5D {
            phase' := Osc;
            oscDepth' := 0;
          } else {
            phase' := Plain;
          }
        case Csi =>
          if 0x40 <= b <= 0x7E {
            phase' := Plain;
          }
        case Osc =>
          if b == BEL {
            phase' := Plain;
          } else if b == ESC {
            oscDepth' := oscDepth' + 1;
          } else if b == BACKSLASH && oscDepth' > 0 {
            phase' := Plain;
          }
      }
    }
    assert chunk[..|chunk|] == chunk;
  }

  /** Chunk boundaries do not matter: stripping piece by piece strips the whole. */
  lemma {:induction false} StripConcat(a: Auto, x: Bytes, y: Bytes)
    ensures Strip(a, x + y).0 == Strip(Strip(a, x).0, y).0
    ensures Strip(a, x + y).1 == Strip(a, x).1 + Strip(Strip(a, x).0, y).1
    decreases |y|
  {
    if y == [] {
      assert x + y == x;
    } else {
      assert (x + y)[..|x + y| - 1] == x + y[..|y| - 1];
      StripConcat(a, x, y[..|y| - 1]);
    }
  }

  /** The stripped text holds no ESC and no CR, and nothing that was not in the input. */
  lemma {:induction false} StrippedIsClean(a: Auto, chunk: Bytes)
    ensures ESC !in Strip(a, chunk).1 && CR !in Strip(a, chunk).1
    ensures forall b :: b in Strip(a, chunk).1 ==> b in chunk
    ensures |Strip(a, chunk).1| <= |chunk|
    decreases |chunk|
  {
    if chunk != [] { StrippedIsClean(a, chunk[..|chunk| - 1]); }
  }

  /** Text without ESC and CR passes unchanged. */
  lemma {:induction false} PlainTextPasses(a: Auto, text: Bytes)
    requires a.phase == Plain && ESC !in text && CR !in text
    ensures Strip(a, text).0 == a && Strip(a, text).1 == text
    decreases |text|
  {
    if text != [] { PlainTextPasses(a, text[..|text| - 1]); }
  }

  // ---- Control sequences are invisible ----

  /** A control sequence of ECMA-48 section 5.4: CSI, parameter bytes, intermediate bytes, and a
      final byte. `k` is where the intermediate bytes start. */
  predicate IsControlSequence(w: Bytes, k: nat) {
    && |w| >= 3 && w[0] == ESC && w[1] == 0x5B && 2 <= k < |w|
    && (forall i :: 2 <= i < k ==> 0x30 <= w[i] <= 0x3F)
    && (forall i :: k <= i < |w| - 1 ==> 0x20 <= w[i] <= 0x2F)
    && 0x40 <= w[|w| - 1] <= 0x7E
  }

  /** An operating system command closed by BEL, or by ST written as ESC and a backslash. */
  predicate IsOsCommand(w: Bytes, body: Bytes) {
    && ESC !in body && BEL !in body
    && (w == [ESC, 0x5D] + body + [BEL] || w == [ESC, 0x5D] + body + [ESC, BACKSLASH])
  }

  /** A two-byte escape: neither the beginning of a control sequence nor of a command. */
  predicate IsEscape(w: Bytes) { |w| == 2 && w[0] == ESC && w[1] != 0x5B && w[1] != 0x5D }

  lemma {:induction false} InsideCsi(a: Auto, body: Bytes)
    requires a.phase == Csi && forall i :: 0 <= i < |body| ==> 0x20 <= body[i] <= 0x3F
    ensures Strip(a, body).0 == a && Strip(a, body).1 == []
    decreases |body|
  {
    if body != [] { InsideCsi(a, body[..|body| - 1]); }
  }

  lemma {:induction false} InsideOsc(a: Auto, body: Bytes)
    requires a == Auto(Osc, 0) && ESC !in body && BEL !in body
    ensures Strip(a, body).0 == a && Strip(a, body).1 == []
    decreases |body|
  {
    if body != [] { InsideOsc(a, body[..|body| - 1]); }
  }

  lemma StripOne(a: Auto, b: byte)
    ensures Strip(a, [b]).0 == StripByte(a, b).0 && Strip(a, [b]).1 == StripByte(a, b).1
  {
    assert [b][..0] == [];
  }

  lemma StripTwo(a: Auto, b: byte, c: byte)
    ensures var (a1, o1) := StripByte(a, b);
            Strip(a, [b, c]).0 == StripByte(a1, c).0 && Strip(a, [b, c]).1 == o1 + StripByte(a1, c).1
  {
    assert [b, c][..1] == [b];
    StripOne(a, b);
  }

  lemma SequenceIsSilent(a: Auto, w: Bytes, k: nat)
    requires a.phase == Plain && IsControlSequence(w, k)
    ensures Strip(a, w).0.phase == Plain && Strip(a, w).1 == []
  {
    var head, body, last := w[..2], w[2..|w| - 1], w[|w| - 1];
    assert head == [ESC, 0x5B] && w == head + (body + [last]);
    StripTwo(a, ESC, 0x5B);
    StripConcat(a, head, body + [last]);
    var csi := a.(phase := Csi);
    InsideCsi(csi, body);
    StripConcat(csi, body, [last]);
    StripOne(csi, last);
  }

  lemma CommandIsSilent(a: Auto, w: Bytes, body: Bytes)
    requires a.phase == Plain && IsOsCommand(w, body)
    ensures Strip(a, w).0.phase == Plain && Strip(a, w).1 == []
  {
    var head := [ESC, 0x5D];
    StripTwo(a, ESC, 0x5D);
    var close := if w == head + body + [BEL] then [BEL] else [ESC, BACKSLASH];
    assert w == head + (body + close);
    StripConcat(a, head, body + close);
    InsideOsc(Auto(Osc, 0), body);
    StripConcat(Auto(Osc, 0), body, close);
    StripOne(Auto(Osc, 0), BEL);
    StripTwo(Auto(Osc, 0), ESC, BACKSLASH);
  }

  lemma EscapeIsSilent(a: Auto, w: Bytes)
    requires a.phase == Plain && IsEscape(w)
    ensures Strip(a, w).0 == a && Strip(a, w).1 == []
  {
    assert w == [ESC, w[1]];
    StripTwo(a, ESC, w[1]);
  }

  /** Outside an operating system command the depth does not matter. */
  predicate Alike(a: Auto, b: Auto) { a.phase == b.phase && (a.phase == Osc ==> a == b) }

  lemma {:induction false} AlikeStripAlike(a: Auto, b: Auto, text: Bytes)
    requires Alike(a, b)
    ensures Alike(Strip(a, text).0, Strip(b, text).0) && Strip(a, text).1 == Strip(b, text).1
    decreases |text|
  {
    if text != [] { AlikeStripAlike(a, b, text[..|text| - 1]); }
  }

  /** Inserting a control sequence, an operating system command or a two-byte escape where the automaton
      is in plain text leaves the stripped text, and the phase it ends in, as they were. */
  lemma InsertionIsInvisible(a: Auto, before: Bytes, w: Bytes, after: Bytes, k: nat, body: Bytes)
    requires Strip(a, before).0.phase == Plain
    requires IsControlSequence(w, k) || IsOsCommand(w, body) || IsEscape(w)
    ensures Strip(a, before + w + after).1 == Strip(a, before + after).1
    ensures Alike(Strip(a, before + w + after).0, Strip(a, before + after).0)
  {
    var a1 := Strip(a, before).0;
    if IsControlSequence(w, k) {
      SequenceIsSilent(a1, w, k);
    } else if IsOsCommand(w, body) {
      CommandIsSilent(a1, w, body);
    } else {
      EscapeIsSilent(a1, w);
    }
    StripConcat(a, before, w);
    StripConcat(a, before + w, after);
    StripConcat(a, before, after);
    AlikeStripAlike(Strip(a1, w).0, a1, after);
    assert Strip(a, before).1 + [] == Strip(a, before).1;
  }

  // ---- Where sequences end ----

  /** Text without ESC in plain phase passes, but for its carriage returns. */
  lemma {:induction false} PlainDropsReturns(a: Auto, text: Bytes)
    requires a.phase == Plain && ESC !in text
    ensures Strip(a, text).0 == a && Strip(a, text).1 == NoReturns(text)
    decreases |text|
  {
    if text != [] { PlainDropsReturns(a, text[..|text| - 1]); }
  }

  function NoReturns(text: Bytes): Bytes {
    if text == [] then []
    else NoReturns(text[..|text| - 1]) + if text[|text| - 1] == CR then [] else [text[|text| - 1]]
  }

  /** A byte that ends a control sequence. */
  predicate EndsCsi(text: Bytes, i: nat) { i < |text| && 0x40 <= text[i] <= 0x7E }

  /** A byte that ends a command: BEL, or a backslash with an ESC somewhere before it in the command. */
  predicate EndsOsc(text: Bytes, i: nat) {
    i < |text| && (text[i] == BEL || (text[i] == BACKSLASH && ESC in text[..i]))
  }

  predicate CsiOpen(text: Bytes) { forall i :: 0 <= i < |text| ==> !EndsCsi(text, i) }

  predicate OscOpen(text: Bytes) { forall i :: 0 <= i < |text| ==> !EndsOsc(text, i) }

  lemma OpenPrefix(text: Bytes, n: nat)
    requires n <= |text|
    ensures CsiOpen(text) ==> CsiOpen(text[..n])
    ensures OscOpen(text) ==> OscOpen(text[..n])
  {
    forall i | 0 <= i < n
      ensures EndsCsi(text[..n], i) == EndsCsi(text, i) && EndsOsc(text[..n], i) == EndsOsc(text, i)
    {
      assert text[..n][..i] == text[..i];
    }
  }

  /** A control sequence goes on, silently, as long as no final byte has come. */
  lemma {:induction false} CsiGoesOn(a: Auto, text: Bytes)
    requires a.phase == Csi && CsiOpen(text)
    ensures Strip(a, text).0 == a && Strip(a, text).1 == []
    decreases |text|
  {
    if text != [] {
      var n := |text| - 1;
      OpenPrefix(text, n);
      CsiGoesOn(a, text[..n]);
      assert !EndsCsi(text, n);
    }
  }

  /** The first final byte ends it, silently. */
  lemma CsiEnds(a: Auto, text: Bytes)
    requires a.phase == Csi && text != [] && EndsCsi(text, |text| - 1) && CsiOpen(text[..|text| - 1])
    ensures Strip(a, text).0 == a.(phase := Plain) && Strip(a, text).1 == []
  {
    CsiGoesOn(a, text[..|text| - 1]);
  }

  /** A command goes on, silently, as long as nothing has ended it. */
  lemma {:induction false} OscGoesOn(text: Bytes)
    requires OscOpen(text)
    ensures Strip(Auto(Osc, 0), text).0.phase == Osc && Strip(Auto(Osc, 0), text).1 == []
    ensures Strip(Auto(Osc, 0), text).0.oscDepth > 0 <==> ESC in text
    decreases |text|
  {
    if text != [] {
      var n := |text| - 1;
      OpenPrefix(text, n);
      OscGoesOn(text[..n]);
      assert !EndsOsc(text, n);
      assert text == text[..n] + [text[n]];
    }
  }

  /** The first BEL, or backslash with an ESC before it, ends it, silently. */
  lemma OscEnds(text: Bytes)
    requires text != [] && EndsOsc(text, |text| - 1) && OscOpen(text[..|text| - 1])
    ensures Strip(Auto(Osc, 0), text).0.phase == Plain && Strip(Auto(Osc, 0), text).1 == []
  {
    OscGoesOn(text[..|text| - 1]);
  }
}
