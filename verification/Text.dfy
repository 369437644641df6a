/** Text: white space, words, splitting and trimming, as the standard library of the repository's language does them. */
module Text {
  import opened Basics

  // The Unicode property White_Space.
  predicate IsWhite(c: char) {
    var n := c as int;
    || 0x09 <= n <= 0x0D || n == 0x20 || n == 0x85 || n == 0xA0 || n == 0x1680 || 0x2000 <= n <= 0x200A
    || n == 0x2028 || n == 0x2029 || n == 0x202F || n == 0x205F || n == 0x3000
  }

  predicate NoWhite(s: string) { forall i: nat :: i < |s| ==> !IsWhite(s[i]) }

  function Lower(c: char): char { if 'A' <= c <= 'Z' then c - 'A' + 'a' else c }

  predicate EqualIgnoringCase(a: string, b: string) {
    |a| == |b| && forall i: nat :: i < |a| ==> Lower(a[i]) == Lower(b[i])
  }

  // Where `c` first occurs in `s`, or the length of `s`.
  function IndexOf(s: string, c: char): (n: nat)
    ensures n <= |s| && (forall i: nat :: i < n ==> s[i] != c) && (n < |s| ==> s[n] == c)
  {
    if s == "" || s[0] == c then 0 else 1 + IndexOf(s[1..], c)
  }

  function WordLength(s: string): (n: nat)
    ensures n <= |s| && NoWhite(s[..n]) && (n < |s| ==> IsWhite(s[n]))
  {
    if s == "" || IsWhite(s[0]) then 0 else 1 + WordLength(s[1..])
  }

  // `str::split_whitespace`.
  function Words(s: string): seq<string>
    decreases |s|
  {
    if s == "" then []
    else if IsWhite(s[0]) then Words(s[1..])
    else var n := WordLength(s); [s[..n]] + Words(s[n..])
  }

  function WithoutSpaces(s: string): string {
    if s == "" then "" else (if s[0] == ' ' then "" else [s[0]]) + WithoutSpaces(s[1..])
  }

  function StripSuffix(s: string, suffix: string): Option<string> {
    if |s| >= |suffix| && s[|s| - |suffix|..] == suffix then Some(s[..|s| - |suffix|]) else None
  }

  lemma {:induction false} WordIsWhole(a: string, rest: string)
    requires NoWhite(a) && (rest == "" || IsWhite(rest[0]))
    ensures WordLength(a + rest) == |a|
  {
    if a == "" {
      assert a + rest == rest;
    } else {
      assert (a + rest)[1..] == a[1..] + rest;
      WordIsWhole(a[1..], rest);
    }
  }

  lemma {:induction false} OneWord(a: string)
    requires NoWhite(a) && a != ""
    ensures Words(a) == [a]
  {
    WordIsWhole(a, "");
    assert a + "" == a;
    assert a[|a|..] == "";
  }

  lemma {:induction false} TwoWords(a: string, b: string)
    requires NoWhite(a) && NoWhite(b) && a != "" && b != ""
    ensures Words(a + " " + b) == [a, b]
  {
    var s := a + " " + b;
    assert s == a + (" " + b);
    WordIsWhole(a, " " + b);
    assert s[0] == a[0];
    assert s[..|a|] == a && s[|a|..] == " " + b;
    assert (" " + b)[1..] == b;
    OneWord(b);
  }

  lemma {:induction false} WithoutSpacesOfConcat(a: string, b: string)
    ensures WithoutSpaces(a + b) == WithoutSpaces(a) + WithoutSpaces(b)
    decreases |a|
  {
    if a == "" {
      assert a + b == b;
    } else {
      assert (a + b)[1..] == a[1..] + b;
      WithoutSpacesOfConcat(a[1..], b);
    }
  }

  lemma {:induction false} NoSpacesToRemove(s: string)
    requires NoWhite(s)
    ensures WithoutSpaces(s) == s
    decreases |s|
  {
    if s != "" {
      assert !IsWhite(s[0]);
      assert NoWhite(s[1..]);
      NoSpacesToRemove(s[1..]);
    }
  }

  // `str::split_once`.
  function SplitOnce(s: string, c: char): Option<(string, string)> {
    var n := IndexOf(s, c);
    if n < |s| then Some((s[..n], s[n + 1..])) else None
  }

  lemma IndexIsFirst(s: string, n: nat, c: char)
    requires n <= |s| && (forall i: nat :: i < n ==> s[i] != c) && (n < |s| ==> s[n] == c)
    ensures IndexOf(s, c) == n
  {
  }

  lemma {:induction false} SplitOnceAt(a: string, c: char, b: string)
    requires c !in a
    ensures SplitOnce(a + [c] + b, c) == Some((a, b))
  {
    var s := a + [c] + b;
    assert s[..|a|] == a && s[|a| + 1..] == b;
    IndexIsFirst(s, |a|, c);
  }

  lemma {:induction false} NoSplit(a: string, c: char)
    requires c !in a
    ensures SplitOnce(a, c) == None
  {
    assert a[..|a|] == a;
    IndexIsFirst(a, |a|, c);
  }

  function TrimStart(s: string): string {
    if s != "" && IsWhite(s[0]) then TrimStart(s[1..]) else s
  }

  function TrimEnd(s: string): string {
    if s != "" && IsWhite(s[|s| - 1]) then TrimEnd(s[..|s| - 1]) else s
  }

  // `str::trim`.
  function Trim(s: string): string { TrimEnd(TrimStart(s)) }

  // The middle part that trimming leaves, which neither starts nor ends with white space.
  lemma {:induction false} TrimKeepsMiddle(a: string, s: string, b: string)
    requires (forall i: nat :: i < |a| ==> IsWhite(a[i])) && (forall i: nat :: i < |b| ==> IsWhite(b[i]))
    requires s != "" && !IsWhite(s[0]) && !IsWhite(s[|s| - 1])
    ensures Trim(a + s + b) == s
  {
    TrimStartOf(a, s + b);
    assert a + s + b == a + (s + b);
    TrimEndOf(s, b);
  }

  lemma {:induction false} TrimStartOf(a: string, s: string)
    requires forall i: nat :: i < |a| ==> IsWhite(a[i])
    ensures TrimStart(a + s) == TrimStart(s)
    decreases |a|
  {
    if a == "" {
      assert a + s == s;
    } else {
      assert (a + s)[1..] == a[1..] + s;
      TrimStartOf(a[1..], s);
    }
  }

  lemma {:induction false} TrimEndOf(s: string, b: string)
    requires forall i: nat :: i < |b| ==> IsWhite(b[i])
    ensures TrimEnd(s + b) == TrimEnd(s)
    decreases |b|
  {
    if b == "" {
      assert s + b == s;
    } else {
      assert (s + b)[..|s + b| - 1] == s + b[..|b| - 1];
      TrimEndOf(s, b[..|b| - 1]);
    }
  }

  predicate Blank(s: string) { forall i: nat :: i < |s| ==> IsWhite(s[i]) }

  lemma {:induction false} BlankIsTrimmedAway(s: string)
    ensures Trim(s) == "" <==> Blank(s)
  {
    TrimStartFacts(s);
    TrimEndFacts(TrimStart(s));
  }

  lemma {:induction false} TrimStartFacts(s: string)
    ensures Blank(s) ==> TrimStart(s) == ""
    ensures !Blank(s) ==> TrimStart(s) != "" && !IsWhite(TrimStart(s)[0])
    decreases |s|
  {
    if s != "" && IsWhite(s[0]) {
      TrimStartFacts(s[1..]);
      assert Blank(s[1..]) <==> Blank(s) by {
        assert forall i: nat :: 0 < i < |s| ==> s[i] == s[1..][i - 1];
      }
    }
  }

  lemma {:induction false} TrimEndFacts(s: string)
    ensures s != "" && !IsWhite(s[0]) ==> TrimEnd(s) != ""
    decreases |s|
  {
    if s != "" && IsWhite(s[|s| - 1]) {
      TrimEndFacts(s[..|s| - 1]);
    }
  }

  function CharBytes(c: char): nat {
    if c as int < 0x80 then 1 else if c as int < 0x800 then 2 else if c as int < 0x1_0000 then 3 else 4
  }

  // `str::len`: how many bytes the text takes in UTF-8.
  function ByteLength(s: string): (n: nat)
    ensures n >= |s|
  {
    if s == "" then 0 else CharBytes(s[0]) + ByteLength(s[1..])
  }

  lemma {:induction false} ByteLengthOfConcat(a: string, b: string)
    ensures ByteLength(a + b) == ByteLength(a) + ByteLength(b)
    decreases |a|
  {
    if a == "" {
      assert a + b == b;
    } else {
      assert (a + b)[1..] == a[1..] + b;
      ByteLengthOfConcat(a[1..], b);
    }
  }
}
