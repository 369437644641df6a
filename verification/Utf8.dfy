/**
 Lossy UTF-8 decoding, which the log terminal applies to each chunk of bytes
 by itself (src/logger.rs). Bytes that form no character, or only the start of
 one, become one replacement character for each longest such start.
 */
module Utf8 {

  type byte = x: int | 0 <= x < 256

  const REPLACEMENT: char := '\U{FFFD}'

  // Between characters, or after the start of one, whose next byte must be in
  // `low..=high` and which takes `need` bytes more.
  datatype State = Ready | Within(need: nat, low: int, high: int, code: nat)

  // Decoder states hold only codes whose characters exist.
  function Scalar(n: nat): char {
    if n < 0xD800 || 0xE000 <= n < 0x11_0000 then n as char else REPLACEMENT
  }

  function Lead(b: byte): (State, string) {
    if b < 0x80 then (Ready, [b as char])
    else if 0xC2 <= b <= 0xDF then (Within(1, 0x80, 0xBF, b - 0xC0), "")
    else if b == 0xE0 then (Within(2, 0xA0, 0xBF, 0), "")
    else if b == 0xED then (Within(2, 0x80, 0x9F, 0xD), "")
    else if 0xE1 <= b <= 0xEF then (Within(2, 0x80, 0xBF, b - 0xE0), "")
    else if b == 0xF0 then (Within(3, 0x90, 0xBF, 0), "")
    else if 0xF1 <= b <= 0xF3 then (Within(3, 0x80, 0xBF, b - 0xF0), "")
    else if b == 0xF4 then (Within(3, 0x80, 0x8F, 4), "")
    else (Ready, [REPLACEMENT])
  }

  predicate Continues(state: State, b: byte) { state.Within? && state.low <= b <= state.high }

  function Step(state: State, b: byte): (State, string) {
    if Continues(state, b) then
      var code := state.code * 64 + if b >= 0x80 then b - 0x80 else 0;
      if state.need <= 1 then (Ready, [Scalar(code)]) else (Within(state.need - 1, 0x80, 0xBF, code), "")
    else
      var (next, out) := Lead(b);
      (next, AtEnd(state) + out)
  }

  // What is left of a character whose end is missing.
  function AtEnd(state: State): string { if state.Ready? then "" else [REPLACEMENT] }

  function After(state: State, bytes: seq<byte>): State
    decreases |bytes|
  {
    if bytes == [] then state else After(Step(state, bytes[0]).0, bytes[1..])
  }

  function Emitted(state: State, bytes: seq<byte>): string
    decreases |bytes|
  {
    if bytes == [] then "" else Step(state, bytes[0]).1 + Emitted(Step(state, bytes[0]).0, bytes[1..])
  }

  function Decoded(state: State, bytes: seq<byte>): string {
    Emitted(state, bytes) + AtEnd(After(state, bytes))
  }

  // `String::from_utf8_lossy`.
  function Lossy(bytes: seq<byte>): string { Decoded(Ready, bytes) }

  // ---------------------------------------------------------------------
  // Text survives
  // ---------------------------------------------------------------------

  function EncodeChar(c: char): seq<byte> {
    var n := c as int;
    if n < 0x80 then [n]
    else if n < 0x800 then [0xC0 + n / 64, 0x80 + n % 64]
    else if n < 0x1_0000 then [0xE0 + n / 4096, 0x80 + n / 64 % 64, 0x80 + n % 64]
    else [0xF0 + n / 262144, 0x80 + n / 4096 % 64, 0x80 + n / 64 % 64, 0x80 + n % 64]
  }

  function Encode(text: string): seq<byte> {
    if text == "" then [] else EncodeChar(text[0]) + Encode(text[1..])
  }

  lemma {:induction false} DecodeAppend(state: State, a: seq<byte>, b: seq<byte>)
    ensures After(state, a + b) == After(After(state, a), b)
    ensures Emitted(state, a + b) == Emitted(state, a) + Emitted(After(state, a), b)
    decreases |a|
  {
    hide Step;
    if a == [] {
      assert a + b == b;
    } else {
      assert (a + b)[1..] == a[1..] + b;
      DecodeAppend(Step(state, a[0]).0, a[1..], b);
    }
  }

  lemma Unrolled(state: State, bytes: seq<byte>, b: byte)
    ensures After(state, [b] + bytes) == After(Step(state, b).0, bytes)
    ensures Emitted(state, [b] + bytes) == Step(state, b).1 + Emitted(Step(state, b).0, bytes)
  {
    assert ([b] + bytes)[1..] == bytes;
  }

  lemma EncodedChar(c: char)
    ensures After(Ready, EncodeChar(c)) == Ready && Emitted(Ready, EncodeChar(c)) == [c]
  {
    hide After, Emitted, Step;
    var n := c as int;
    var last := EncodeChar(c)[|EncodeChar(c)| - 1];
    if n < 0x80 {
      OneByte(c);
      LastStep(Ready, n, c);
    } else {
      LastByte(n / 64, 0x80 + n % 64, c);
      LastStep(Within(1, 0x80, 0xBF, n / 64), last, c);
      if n < 0x800 {
        TwoBytes(n);
        assert EncodeChar(c) == [0xC0 + n / 64] + [last];
        Unrolled(Ready, [last], 0xC0 + n / 64);
      } else if n < 0x1_0000 {
        ThreeBytes(n);
        assert EncodeChar(c) == [0xE0 + n / 4096, 0x80 + n / 64 % 64] + [last];
        UnrolledTwice(Ready, [last], 0xE0 + n / 4096, 0x80 + n / 64 % 64);
      } else {
        FourBytes(n);
        assert EncodeChar(c) == [0xF0 + n / 262144] + ([0x80 + n / 4096 % 64, 0x80 + n / 64 % 64, last]);
        assert [0x80 + n / 4096 % 64, 0x80 + n / 64 % 64, last] == [0x80 + n / 4096 % 64, 0x80 + n / 64 % 64] + [last];
        Unrolled(Ready, [0x80 + n / 4096 % 64, 0x80 + n / 64 % 64, last], 0xF0 + n / 262144);
        UnrolledTwice(Step(Ready, 0xF0 + n / 262144).0, [last], 0x80 + n / 4096 % 64, 0x80 + n / 64 % 64);
      }
    }
  }

  lemma OneByte(c: char)
    requires c as int < 0x80
    ensures Step(Ready, c as int) == (Ready, [c])
  {
    assert "" + [c] == [c];
  }

  lemma LastByte(code: nat, b: byte, c: char)
    requires 0x80 <= b <= 0xBF && c as int == code * 64 + (b - 0x80)
    ensures Step(Within(1, 0x80, 0xBF, code), b) == (Ready, [c])
  {
  }

  lemma TwoBytes(n: nat)
    requires 0x80 <= n < 0x800
    ensures Step(Ready, 0xC0 + n / 64).0 == Within(1, 0x80, 0xBF, n / 64) && Step(Ready, 0xC0 + n / 64).1 == ""
  {
  }

  lemma ThreeBytes(n: nat)
    requires 0x800 <= n < 0x1_0000 && !(0xD800 <= n < 0xE000)
    ensures Step(Ready, 0xE0 + n / 4096).1 == ""
    ensures Step(Step(Ready, 0xE0 + n / 4096).0, 0x80 + n / 64 % 64) == (Within(1, 0x80, 0xBF, n / 64), "")
  {
  }

  lemma FourBytes(n: nat)
    requires 0x1_0000 <= n < 0x11_0000
    ensures Step(Ready, 0xF0 + n / 262144).1 == ""
    ensures Step(Step(Ready, 0xF0 + n / 262144).0, 0x80 + n / 4096 % 64) == (Within(2, 0x80, 0xBF, n / 4096), "")
    ensures Step(Within(2, 0x80, 0xBF, n / 4096), 0x80 + n / 64 % 64) == (Within(1, 0x80, 0xBF, n / 64), "")
  {
  }

  lemma UnrolledTwice(state: State, bytes: seq<byte>, b: byte, c: byte)
    ensures var (next, out) := Step(state, b);
            && After(state, [b, c] + bytes) == After(Step(next, c).0, bytes)
            && Emitted(state, [b, c] + bytes) == out + (Step(next, c).1 + Emitted(Step(next, c).0, bytes))
  {
    assert [b, c] + bytes == [b] + ([c] + bytes);
    Unrolled(state, [c] + bytes, b);
    Unrolled(Step(state, b).0, bytes, c);
  }

  lemma LastStep(state: State, b: byte, c: char)
    requires Step(state, b) == (Ready, [c])
    ensures After(state, [b]) == Ready && Emitted(state, [b]) == [c]
  {
    assert [b] + [] == [b];
    Unrolled(state, [], b);
  }

  // Encoded text is decoded to itself.
  lemma {:induction false} EncodeThenDecode(text: string)
    ensures Lossy(Encode(text)) == text && After(Ready, Encode(text)) == Ready
    decreases |text|
  {
    hide After, Emitted, EncodeChar;
    if text == "" {
      NothingDecoded(Ready);
    } else {
      EncodedChar(text[0]);
      EncodeThenDecode(text[1..]);
      DecodeAppend(Ready, EncodeChar(text[0]), Encode(text[1..]));
    }
  }

  lemma NothingDecoded(state: State)
    ensures After(state, []) == state && Emitted(state, []) == ""
  {
  }

  // ---------------------------------------------------------------------
  // Cutting bytes into chunks
  // ---------------------------------------------------------------------

  // The second chunk does not go on with a character that the first started.
  predicate CleanCut(a: seq<byte>, b: seq<byte>) { b == [] || !Continues(After(Ready, a), b[0]) }

  // States inside a character are followed by continuation bytes only.
  predicate Proper(state: State) { state.Within? ==> 0x80 <= state.low <= state.high <= 0xBF && state.need > 0 }

  lemma {:induction false} AfterIsProper(state: State, bytes: seq<byte>)
    requires Proper(state)
    ensures Proper(After(state, bytes))
    decreases |bytes|
  {
    if bytes != [] {
      AfterIsProper(Step(state, bytes[0]).0, bytes[1..]);
    }
  }

  // Ending a character early and starting anew gives what going on gives,
  // unless the next byte was part of it; then it gives more.
  lemma {:induction false} FreshStart(state: State, b: seq<byte>)
    requires Proper(state)
    ensures if b == [] || !Continues(state, b[0]) then AtEnd(state) + Lossy(b) == Decoded(state, b)
            else |AtEnd(state) + Lossy(b)| > |Decoded(state, b)|
    decreases |b|
  {
    hide After, Emitted;
    if b == [] {
      NothingDecoded(state);
      NothingDecoded(Ready);
    } else {
      var rest := b[1..];
      assert b == [b[0]] + rest;
      if Continues(state, b[0]) {
        hide Step, Decoded;
        DecodeFirst(state, rest, b[0]);
        DecodeFirst(Ready, rest, b[0]);
        Stray(state, b[0]);
        FreshStart(Step(state, b[0]).0, rest);
      } else {
        Uninterrupted(state, rest, b[0]);
      }
    }
  }

  lemma DecodeFirst(state: State, rest: seq<byte>, b: byte)
    ensures Decoded(state, [b] + rest) == Step(state, b).1 + Decoded(Step(state, b).0, rest)
  {
    hide After, Emitted, Step;
    Unrolled(state, rest, b);
  }

  lemma Uninterrupted(state: State, rest: seq<byte>, b: byte)
    requires !Continues(state, b)
    ensures AtEnd(state) + Decoded(Ready, [b] + rest) == Decoded(state, [b] + rest)
  {
    hide Lead, Decoded;
    DecodeFirst(state, rest, b);
    DecodeFirst(Ready, rest, b);
    var (next, out) := Lead(b);
    assert AtEnd(state) + (out + Decoded(next, rest)) == (AtEnd(state) + out) + Decoded(next, rest);
    assert "" + out == out;
  }

  // A byte that goes on with a character stands for nothing by itself.
  lemma Stray(state: State, b: byte)
    requires Proper(state) && Continues(state, b)
    ensures Step(Ready, b) == (Ready, [REPLACEMENT])
    ensures |Step(state, b).1| <= 1 && (Step(state, b).1 == "" <==> Step(state, b).0.Within?)
    ensures Proper(Step(state, b).0)
  {
    assert "" + [REPLACEMENT] == [REPLACEMENT];
  }

  // Two chunks decoded apart read as they do together exactly when the cut is
  // clean. Otherwise they read as more characters.
  lemma {:induction false} CutDecides(a: seq<byte>, b: seq<byte>)
    ensures Lossy(a + b) == Lossy(a) + Lossy(b) <==> CleanCut(a, b)
    ensures |Lossy(a)| + |Lossy(b)| == |Lossy(a + b)| <==> CleanCut(a, b)
    ensures |Lossy(a)| + |Lossy(b)| >= |Lossy(a + b)|
  {
    hide After, Emitted;
    var state := After(Ready, a);
    var out := Emitted(Ready, a);
    DecodeAppend(Ready, a, b);
    AfterIsProper(Ready, a);
    FreshStart(state, b);
    assert Lossy(a) + Lossy(b) == out + (AtEnd(state) + Lossy(b));
    assert Lossy(a + b) == out + Decoded(state, b);
  }

  // A letter of two bytes, cut in the middle, is lost.
  lemma CutLosesLetter() returns (a: seq<byte>, b: seq<byte>)
    ensures Lossy(a + b) == "\U{E9}" && Lossy(a) + Lossy(b) != Lossy(a + b)
  {
    a, b := [0xC3], [0xA9];
    EncodedChar('\U{E9}');
    assert a + b == EncodeChar('\U{E9}');
    assert Step(Ready, 0xC3).0 == Within(1, 0x80, 0xBF, 3);
    Unrolled(Ready, [], 0xC3);
    assert a == [0xC3] + [];
    CutDecides(a, b);
  }

  function Flat(chunks: seq<seq<byte>>): seq<byte> {
    if chunks == [] then [] else Flat(chunks[..|chunks| - 1]) + chunks[|chunks| - 1]
  }

  function LossyAll(chunks: seq<seq<byte>>): string {
    if chunks == [] then "" else LossyAll(chunks[..|chunks| - 1]) + Lossy(chunks[|chunks| - 1])
  }

  // Decoding chunk by chunk reads as decoding everything at once exactly when
  // no chunk goes on with a character that the bytes before it started.
  lemma {:induction false} ChunksDecide(chunks: seq<seq<byte>>)
    ensures LossyAll(chunks) == Lossy(Flat(chunks)) <==> CleanCuts(chunks)
    ensures |LossyAll(chunks)| >= |Lossy(Flat(chunks))|
    decreases |chunks|
  {
    hide Lossy, CleanCut, CleanCuts;
    if chunks == [] {
      NoChunks();
    } else {
      var (front, last) := (chunks[..|chunks| - 1], chunks[|chunks| - 1]);
      ChunksDecide(front);
      CutDecides(Flat(front), last);
      LastCut(chunks);
      SameEnd(LossyAll(front), Lossy(Flat(front)), Lossy(last));
    }
  }

  predicate CleanCuts(chunks: seq<seq<byte>>) {
    forall i: nat :: i < |chunks| ==> CleanCut(Flat(chunks[..i]), chunks[i])
  }

  lemma NoChunks()
    ensures Lossy([]) == "" && CleanCuts([])
  {
  }

  lemma LastCut(chunks: seq<seq<byte>>)
    requires chunks != []
    ensures var front := chunks[..|chunks| - 1];
            CleanCuts(chunks) <==> (CleanCuts(front) && CleanCut(Flat(front), chunks[|chunks| - 1]))
  {
    hide CleanCut, Flat;
    var front := chunks[..|chunks| - 1];
    assert forall i: nat :: i < |front| ==> front[..i] == chunks[..i] && front[i] == chunks[i];
    if CleanCuts(chunks) {
      assert forall i: nat :: i < |front| ==> CleanCut(Flat(chunks[..i]), chunks[i]);
    }
  }

  lemma SameEnd(a: string, b: string, end: string)
    ensures a + end == b + end <==> a == b
  {
    if a + end == b + end {
      assert a == (a + end)[..|a|] && b == (b + end)[..|b|];
    }
  }

  // ---------------------------------------------------------------------
  // Every sequence of bytes
  // ---------------------------------------------------------------------

  predicate StartsWith(bytes: seq<byte>, c: char) {
    |EncodeChar(c)| <= |bytes| && bytes[..|EncodeChar(c)|] == EncodeChar(c)
  }

  // Some, but not all, of the bytes of a character.
  predicate Begins(p: seq<byte>, c: char) { 0 < |p| < |EncodeChar(c)| && EncodeChar(c)[..|p|] == p }

  ghost predicate IsStart(p: seq<byte>) { exists c :: Begins(p, c) }

  // The longest start of a character that the bytes begin with, or one byte.
  ghost predicate IsLongestStart(bytes: seq<byte>, k: nat) {
    && 1 <= k <= |bytes| && (k == 1 || IsStart(bytes[..k]))
    && forall j: nat :: k < j <= |bytes| ==> !IsStart(bytes[..j])
  }

  // The decoder has emitted nothing yet: it is inside its first character.
  ghost predicate Inside(p: seq<byte>) { p != [] && Emitted(Ready, p) == "" }

  lemma SplitCode(q: nat, r: nat)
    requires r < 64
    ensures (q * 64 + r) / 64 == q && (q * 64 + r) % 64 == r
  {
  }

  lemma TwoByteChar(a: byte, b: byte) returns (c: char)
    requires 0xC2 <= a <= 0xDF && 0x80 <= b <= 0xBF
    ensures c == Scalar((a - 0xC0) * 64 + (b - 0x80)) && EncodeChar(c) == [a, b]
  {
    var n: nat := (a - 0xC0) * 64 + (b - 0x80);
    SplitCode(a - 0xC0, b - 0x80);
    c := Scalar(n);
  }

  lemma ThreeByteChar(a: byte, b: byte, d: byte) returns (c: char)
    requires 0xE0 <= a <= 0xEF && 0x80 <= b <= 0xBF && 0x80 <= d <= 0xBF
    requires (a == 0xE0 ==> b >= 0xA0) && (a == 0xED ==> b <= 0x9F)
    ensures c == Scalar(((a - 0xE0) * 64 + (b - 0x80)) * 64 + (d - 0x80)) && EncodeChar(c) == [a, b, d]
  {
    var high: nat := (a - 0xE0) * 64 + (b - 0x80);
    var n := high * 64 + (d - 0x80);
    SplitCode(a - 0xE0, b - 0x80);
    SplitCode(high, d - 0x80);
    assert 0x800 <= n < 0x1_0000 && n / 4096 == n / 64 / 64;
    c := Scalar(n);
  }

  lemma FourByteChar(a: byte, b: byte, d: byte, e: byte) returns (c: char)
    requires 0xF0 <= a <= 0xF4 && 0x80 <= b <= 0xBF && 0x80 <= d <= 0xBF && 0x80 <= e <= 0xBF
    requires (a == 0xF0 ==> b >= 0x90) && (a == 0xF4 ==> b <= 0x8F)
    ensures c == Scalar((((a - 0xF0) * 64 + (b - 0x80)) * 64 + (d - 0x80)) * 64 + (e - 0x80)) && EncodeChar(c) == [a, b, d, e]
  {
    var top: nat := (a - 0xF0) * 64 + (b - 0x80);
    var high := top * 64 + (d - 0x80);
    var n := high * 64 + (e - 0x80);
    SplitCode(a - 0xF0, b - 0x80);
    SplitCode(top, d - 0x80);
    SplitCode(high, e - 0x80);
    assert 0x1_0000 <= n < 0x11_0000 && n / 4096 == n / 64 / 64 && n / 262144 == n / 64 / 64 / 64;
    c := Scalar(n);
  }

  // What the decoder knows inside a character, by the bytes it has read.
  ghost predicate Forms(p: seq<byte>, s: State) {
    && s.Within? && 1 <= |p| <= 3 && 1 <= s.need && |p| + s.need <= 4
    && if |p| == 1 then s == Lead(p[0]).0
       else
         && Lead(p[0]).0.Within? && Lead(p[0]).0.need == |p| + s.need - 1
         && Lead(p[0]).0.low <= p[1] <= Lead(p[0]).0.high
         && s.low == 0x80 && s.high == 0xBF
         && (if |p| == 2 then s.code == Lead(p[0]).0.code * 64 + (p[1] - 0x80)
             else 0x80 <= p[2] <= 0xBF && s.code == (Lead(p[0]).0.code * 64 + (p[1] - 0x80)) * 64 + (p[2] - 0x80))
  }

  lemma LeadForms(b: byte)
    ensures var (s, out) := Lead(b);
            && (s.Within? <==> out == "")
            && (s.Within? ==> 1 <= s.need <= 3 && 0x80 <= s.low <= s.high <= 0xBF)
  {
  }

  lemma {:induction false} InsideForms(p: seq<byte>)
    requires Inside(p)
    ensures Forms(p, After(Ready, p))
    decreases |p|
  {
    var (front, b) := (p[..|p| - 1], p[|p| - 1]);
    assert p == front + [b];
    LastRead(front, b);
    if front == [] {
      NothingDecoded(Ready);
      LeadForms(b);
    } else {
      hide After, Emitted;
      LeadForms(b);
      LeadForms(p[0]);
      InsideForms(front);
    }
  }

  lemma LastRead(front: seq<byte>, b: byte)
    ensures var (s, p) := (After(Ready, front), front + [b]);
            && After(Ready, p) == Step(s, b).0 && Emitted(Ready, p) == Emitted(Ready, front) + Step(s, b).1
  {
    hide Step;
    DecodeAppend(Ready, front, [b]);
    var s := After(Ready, front);
    assert [b] + [] == [b];
    Unrolled(s, [], b);
    NothingDecoded(Step(s, b).0);
  }

  // What is inside a character starts one.
  lemma {:induction false} InsideIsStart(p: seq<byte>)
    requires Inside(p)
    ensures IsStart(p) && After(Ready, p).Within?
  {
    hide After, Emitted, EncodeChar, Scalar;
    InsideForms(p);
    var s := After(Ready, p);
    LeadRanges(p[0]);
    if |p| + s.need == 2 {
      var c := TwoByteChar(p[0], s.low);
      assert Begins(p, c);
    } else if |p| + s.need == 3 {
      var c := ThreeByteChar(p[0], if |p| == 1 then s.low else p[1], 0x80);
      assert Begins(p, c);
    } else {
      var c := FourByteChar(p[0], if |p| == 1 then s.low else p[1], if |p| == 3 then p[2] else 0x80, 0x80);
      assert Begins(p, c);
    }
  }

  lemma LeadRanges(b: byte)
    ensures var s := Lead(b).0;
            && (s.Within? && s.need == 1 ==> 0xC2 <= b <= 0xDF && s.low == 0x80 && s.high == 0xBF && s.code == b - 0xC0)
            && (s.Within? && s.need == 2 ==>
                  && 0xE0 <= b <= 0xEF && s.code == b - 0xE0
                  && s.low == (if b == 0xE0 then 0xA0 else 0x80) && s.high == if b == 0xED then 0x9F else 0xBF)
            && (s.Within? && s.need == 3 ==>
                  && 0xF0 <= b <= 0xF4 && s.code == b - 0xF0
                  && s.low == (if b == 0xF0 then 0x90 else 0x80) && s.high == if b == 0xF4 then 0x8F else 0xBF)
            && (s.Within? ==> 1 <= s.need <= 3)
  {
  }

  // The byte that ends a character.
  lemma {:induction false} InsideCompletes(p: seq<byte>, b: byte) returns (c: char)
    requires Inside(p) && Continues(After(Ready, p), b) && After(Ready, p).need <= 1
    ensures EncodeChar(c) == p + [b]
  {
    hide After, Emitted, EncodeChar, Scalar;
    InsideForms(p);
    LeadRanges(p[0]);
    if |p| == 1 {
      c := TwoByteChar(p[0], b);
    } else if |p| == 2 {
      c := ThreeByteChar(p[0], p[1], b);
    } else {
      c := FourByteChar(p[0], p[1], p[2], b);
    }
    assert p == p[..|p|];
  }

  lemma SilentStepContinues(s: State, b: byte)
    requires Step(s, b).1 == "" && s.Within?
    ensures Continues(s, b)
  {
  }

  lemma ReadOne(b: byte)
    ensures After(Ready, [b]) == Step(Ready, b).0 && Emitted(Ready, [b]) == Step(Ready, b).1
  {
    hide Step;
    NothingDecoded(Ready);
    LastRead([], b);
    assert [] + [b] == [b];
  }

  lemma ReadTwo(a: byte, b: byte)
    ensures After(Ready, [a, b]) == Step(Step(Ready, a).0, b).0
    ensures Emitted(Ready, [a, b]) == Step(Ready, a).1 + Step(Step(Ready, a).0, b).1
  {
    hide Step;
    ReadOne(a);
    LastRead([a], b);
    assert [a] + [b] == [a, b];
  }

  // Inside a character the decoder waits for the next byte of it.
  lemma StartIsInside(p: seq<byte>, c: char)
    requires Begins(p, c)
    ensures Inside(p) && After(Ready, p).Within? && Continues(After(Ready, p), EncodeChar(c)[|p|])
  {
    hide After, Emitted, Step, EncodeChar, Inside;
    var n := c as int;
    BytesOfChar(c);
    if n < 0x800 {
      StartOfTwo(p, c);
    } else if n < 0x1_0000 {
      StartOfThree(p, c);
    } else {
      StartOfFour(p, c);
    }
  }

  lemma BytesOfChar(c: char)
    ensures var n := c as int;
            && (n < 0x80 ==> |EncodeChar(c)| == 1)
            && (0x80 <= n < 0x800 ==> EncodeChar(c) == [0xC0 + n / 64, 0x80 + n % 64])
            && (0x800 <= n < 0x1_0000 ==> EncodeChar(c) == [0xE0 + n / 4096, 0x80 + n / 64 % 64, 0x80 + n % 64])
            && (n >= 0x1_0000 ==>
                  EncodeChar(c) == [0xF0 + n / 262144, 0x80 + n / 4096 % 64, 0x80 + n / 64 % 64, 0x80 + n % 64])
  {
  }

  lemma StartOfTwo(p: seq<byte>, c: char)
    requires Begins(p, c) && c as int < 0x800
    ensures Inside(p) && After(Ready, p).Within? && Continues(After(Ready, p), EncodeChar(c)[|p|])
  {
    hide After, Emitted, Step, EncodeChar;
    var n := c as int;
    BytesOfChar(c);
    TwoBytes(n);
    ReadOne(0xC0 + n / 64);
    assert p == [0xC0 + n / 64];
  }

  lemma StartOfThree(p: seq<byte>, c: char)
    requires Begins(p, c) && 0x800 <= c as int < 0x1_0000
    ensures Inside(p) && After(Ready, p).Within? && Continues(After(Ready, p), EncodeChar(c)[|p|])
  {
    hide After, Emitted, Step, EncodeChar;
    BytesOfChar(c);
    ThreeBytes(c as int);
    var (a, b) := (EncodeChar(c)[0], EncodeChar(c)[1]);
    LeadStep(a);
    SilentStep(a, b);
    ReadOne(a);
    ReadTwo(a, b);
    assert p == EncodeChar(c)[..|p|];
    assert if |p| == 1 then p == [a] else p == [a, b];
  }

  lemma StartOfFour(p: seq<byte>, c: char)
    requires Begins(p, c) && c as int >= 0x1_0000
    ensures Inside(p) && After(Ready, p).Within? && Continues(After(Ready, p), EncodeChar(c)[|p|])
  {
    hide After, Emitted, Step, EncodeChar;
    var n := c as int;
    BytesOfChar(c);
    FourBytes(n);
    var (a, b, d) := (EncodeChar(c)[0], EncodeChar(c)[1], EncodeChar(c)[2]);
    LeadStep(a);
    SilentStep(a, b);
    SilentStepContinues(Within(2, 0x80, 0xBF, n / 4096), d);
    ReadOne(a);
    ReadTwo(a, b);
    LastRead([a, b], d);
    assert [a, b] + [d] == [a, b, d];
    assert p == EncodeChar(c)[..|p|];
    assert if |p| == 1 then p == [a] else if |p| == 2 then p == [a, b] else p == [a, b, d];
  }

  lemma LeadStep(b: byte)
    ensures Step(Ready, b).1 == "" ==> Step(Ready, b).0.Within?
  {
    LeadForms(b);
  }

  lemma SilentStep(a: byte, b: byte)
    ensures Step(Ready, a).1 == "" && Step(Step(Ready, a).0, b).1 == "" ==> Continues(Step(Ready, a).0, b)
  {
    LeadStep(a);
    hide Lead;
  }

  lemma DecodePrefix(p: seq<byte>, rest: seq<byte>)
    ensures Decoded(Ready, p + rest) == Emitted(Ready, p) + Decoded(After(Ready, p), rest)
  {
    hide Step;
    DecodeAppend(Ready, p, rest);
  }

  // A character at the start is decoded first.
  lemma CharacterFirst(bytes: seq<byte>, c: char)
    requires StartsWith(bytes, c)
    ensures Lossy(bytes) == [c] + Lossy(bytes[|EncodeChar(c)|..])
  {
    hide After, Emitted, EncodeChar, Decoded;
    var n := |EncodeChar(c)|;
    assert bytes == bytes[..n] + bytes[n..];
    EncodedChar(c);
    DecodePrefix(bytes[..n], bytes[n..]);
  }

  // How far the decoder stays inside its first character.
  lemma InsideUpTo(bytes: seq<byte>) returns (k: nat)
    ensures k <= |bytes| && (k > 0 ==> Inside(bytes[..k]))
    ensures k < |bytes| ==> !Inside(bytes[..k + 1])
  {
    hide Inside;
    k := 0;
    while k < |bytes| && Inside(bytes[..k + 1])
      invariant k <= |bytes| && (k > 0 ==> Inside(bytes[..k]))
    {
      k := k + 1;
    }
  }

  lemma OneByteReplaced(bytes: seq<byte>)
    requires bytes != [] && !Inside(bytes[..1]) && forall c :: !StartsWith(bytes, c)
    ensures Lossy(bytes) == [REPLACEMENT] + Lossy(bytes[1..])
  {
    var b := bytes[0];
    assert bytes == [b] + bytes[1..] && bytes[..1] == [b];
    ReadOne(b);
    DecodePrefix([b], bytes[1..]);
    LeadForms(b);
    AsciiStarts(bytes);
    hide After, Emitted, Decoded;
  }

  lemma AsciiStarts(bytes: seq<byte>)
    requires bytes != []
    ensures bytes[0] < 0x80 ==> StartsWith(bytes, bytes[0] as char)
  {
  }

  lemma NextContinues(bytes: seq<byte>, k: nat)
    requires k < |bytes| && Inside(bytes[..k]) && Continues(After(Ready, bytes[..k]), bytes[k])
    ensures Inside(bytes[..k + 1]) || exists c :: StartsWith(bytes, c)
  {
    hide After, Emitted, EncodeChar, Step;
    var (p, b) := (bytes[..k], bytes[k]);
    assert bytes[..k + 1] == p + [b];
    if After(Ready, p).need <= 1 {
      var c := InsideCompletes(p, b);
      assert StartsWith(bytes, c);
    } else {
      LastRead(p, b);
      SilentInside(After(Ready, p), b);
    }
  }

  lemma RestDecoded(bytes: seq<byte>, k: nat)
    requires 1 <= k <= |bytes| && Inside(bytes[..k]) && (k < |bytes| ==> !Inside(bytes[..k + 1]))
    requires forall c :: !StartsWith(bytes, c)
    ensures Lossy(bytes) == [REPLACEMENT] + Lossy(bytes[k..])
  {
    hide After, Emitted, EncodeChar, Decoded, IsStart, Step;
    var (p, rest) := (bytes[..k], bytes[k..]);
    var s := After(Ready, p);
    InsideIsStart(p);
    assert bytes == p + rest;
    DecodePrefix(p, rest);
    if rest == [] {
      NothingLeft(s);
      NothingLeft(Ready);
    } else {
      var b := rest[0];
      assert rest == [b] + rest[1..];
      if Continues(s, b) {
        NextContinues(bytes, k);
      }
      Uninterrupted(s, rest[1..], b);
    }
  }

  lemma SilentInside(s: State, b: byte)
    requires Continues(s, b) && s.need > 1
    ensures Step(s, b).1 == ""
  {
  }

  lemma NothingLeft(s: State)
    ensures Decoded(s, []) == AtEnd(s)
  {
  }

  lemma NoLongerStart(bytes: seq<byte>, m: nat, j: nat)
    requires m < j <= |bytes| && !Inside(bytes[..m + 1])
    ensures !IsStart(bytes[..j])
  {
    hide Inside, EncodeChar;
    if IsStart(bytes[..j]) {
      var c :| Begins(bytes[..j], c);
      assert bytes[..j][..m + 1] == bytes[..m + 1];
      assert Begins(bytes[..m + 1], c);
      StartIsInside(bytes[..m + 1], c);
    }
  }

  // Where no character starts, the longest start of one is replaced.
  lemma {:induction false} StartReplaced(bytes: seq<byte>) returns (k: nat)
    requires bytes != [] && forall c :: !StartsWith(bytes, c)
    ensures IsLongestStart(bytes, k)
    ensures Lossy(bytes) == [REPLACEMENT] + Lossy(bytes[k..])
  {
    hide After, Emitted, EncodeChar, Step, IsStart, Inside, Decoded, StartsWith;
    var m := InsideUpTo(bytes);
    if m == 0 {
      k := 1;
      OneByteReplaced(bytes);
    } else {
      k := m;
      InsideIsStart(bytes[..k]);
      RestDecoded(bytes, k);
    }
    forall j: nat | k < j <= |bytes| ensures !IsStart(bytes[..j]) {
      NoLongerStart(bytes, m, j);
    }
  }

  lemma EmptyText()
    ensures Lossy([]) == ""
  {
    NothingLeft(Ready);
  }

  // At every place a character is decoded if one starts there, and otherwise
  // the longest start of one, or a byte that starts none, becomes one
  // replacement character.
  lemma {:induction false} LossyIsGreedy(bytes: seq<byte>)
    requires bytes != []
    ensures Lossy([]) == ""
    ensures forall c :: StartsWith(bytes, c) ==> Lossy(bytes) == [c] + Lossy(bytes[|EncodeChar(c)|..])
    ensures (forall c :: !StartsWith(bytes, c)) ==>
              exists k: nat :: IsLongestStart(bytes, k) && Lossy(bytes) == [REPLACEMENT] + Lossy(bytes[k..])
  {
    hide Lossy, EncodeChar, IsLongestStart;
    EmptyText();
    forall c | StartsWith(bytes, c) ensures Lossy(bytes) == [c] + Lossy(bytes[|EncodeChar(c)|..]) {
      CharacterFirst(bytes, c);
    }
    if forall c :: !StartsWith(bytes, c) {
      var k := StartReplaced(bytes);
    }
  }
}
