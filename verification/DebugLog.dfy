/**
 The lines behind the debug terminal (src/logger.rs): bytes are written in
 chunks, cut into lines, and the last lines that are not blank are kept.
 */
module DebugLog {
  import opened Basics
  import opened Text
  import opened Utf8

  const DEFAULT_MAX_DEBUG_LINES: nat := 10_000

  // What the environment asks for, when it parses and is not zero.
  function MaxLines(configured: Option<nat>): (max: nat)
    ensures max > 0
  {
    if configured.Some? && configured.value > 0 then configured.value else DEFAULT_MAX_DEBUG_LINES
  }

  function WithoutCr(line: string): string {
    if line != "" && line[|line| - 1] == '\r' then line[..|line| - 1] else line
  }

  // The lines of a text that a newline ends, and what follows the last newline.
  function Completed(text: string): seq<string>
    decreases |text|
  {
    var n := IndexOf(text, '\n');
    if n < |text| then [WithoutCr(text[..n])] + Completed(text[n + 1..]) else []
  }

  function Tail(text: string): string
    decreases |text|
  {
    var n := IndexOf(text, '\n');
    if n < |text| then Tail(text[n + 1..]) else text
  }

  // Every line with what ended it.
  ghost function Ended(lines: seq<string>, ends: seq<string>): string
    requires |lines| == |ends|
    decreases |lines|
  {
    if lines == [] then "" else lines[0] + ends[0] + Ended(lines[1..], ends[1..])
  }

  // The lines and the rest make up the text again, each line with its newline,
  // or its carriage return and newline.
  lemma {:induction false} LinesMakeText(text: string) returns (ends: seq<string>)
    ensures |ends| == |Completed(text)| && Ended(Completed(text), ends) + Tail(text) == text
    ensures forall i: nat :: i < |ends| ==>
              && '\n' !in Completed(text)[i]
              && (ends[i] == ['\r', '\n'] || (ends[i] == ['\n'] && WithoutCr(Completed(text)[i]) == Completed(text)[i]))
    ensures '\n' !in Tail(text)
    decreases |text|
  {
    hide WithoutCr, IndexOf, Completed, Tail;
    var n := IndexOf(text, '\n');
    Unfolded(text, n);
    if n == |text| {
      ends := [];
    } else {
      var line, rest := text[..n], text[n + 1..];
      var later := LinesMakeText(rest);
      var end := EndOfLine(line);
      ends := [end] + later;
      OneMoreLine(WithoutCr(line), end, Completed(rest), later);
      assert text == line + ['\n'] + rest;
    }
  }

  lemma OneMoreLine(line: string, end: string, lines: seq<string>, ends: seq<string>)
    requires |lines| == |ends|
    ensures Ended([line] + lines, [end] + ends) == line + end + Ended(lines, ends)
  {
    assert ([line] + lines)[1..] == lines && ([end] + ends)[1..] == ends;
  }

  lemma EndOfLine(line: string) returns (end: string)
    requires '\n' !in line
    ensures WithoutCr(line) + end == line + ['\n'] && '\n' !in WithoutCr(line)
    ensures end == ['\r', '\n'] || (end == ['\n'] && WithoutCr(WithoutCr(line)) == WithoutCr(line))
  {
    end := if WithoutCr(line) == line then ['\n'] else ['\r', '\n'];
  }

  function NonBlank(lines: seq<string>): seq<string> {
    if lines == [] then []
    else NonBlank(lines[..|lines| - 1]) + if Blank(lines[|lines| - 1]) then [] else [lines[|lines| - 1]]
  }

  // The lines of texts that a flush has ended, and of one that is still open.
  function LinesOf(flushed: seq<string>, open: string): seq<string> { FlushedLines(flushed) + Completed(open) }

  function FlushedLines(flushed: seq<string>): seq<string> {
    if flushed == [] then []
    else
      var text := flushed[|flushed| - 1];
      FlushedLines(flushed[..|flushed| - 1]) + Completed(text) + [Tail(text)]
  }

  // A line that is not blank goes last, and leaves at most `max` lines.
  function Pushed(lines: seq<string>, line: string, max: nat): seq<string>
    requires max > 0
  {
    if Blank(line) then lines else Last(lines, max - 1) + [line]
  }

  lemma LastOfPush<T>(s: seq<T>, x: T, max: nat)
    requires max > 0
    ensures Last(Last(s, max), max - 1) + [x] == Last(s + [x], max)
  {
    if |s| >= max {
      var t := s[|s| - max..];
      assert Last(s, max) == t;
      assert Last(t, max - 1) == t[1..];
      assert t[1..] + [x] == (s + [x])[|s| + 1 - max..];
    }
  }

  lemma {:induction false} PushedIsLast(all: seq<string>, line: string, max: nat)
    requires max > 0
    ensures Pushed(Last(NonBlank(all), max), line, max) == Last(NonBlank(all + [line]), max)
  {
    hide Blank, Last;
    assert (all + [line])[..|all + [line]| - 1] == all;
    if Blank(line) {
      assert NonBlank(all + [line]) == NonBlank(all);
    } else {
      LastOfPush(NonBlank(all), line, max);
    }
  }

  class DebugTerminal {
    var pending: string
    var lines: seq<string>
    const configured: Option<nat>
    // The texts written since the lines were last cleared: those that flushes
    // ended, and the one after the last flush.
    ghost var flushed: seq<string>
    ghost var open: string

    // The pending line is what follows the last newline since the last flush,
    // and the lines are the last ones that are not blank.
    ghost predicate Valid()
      reads this
    {
      && pending == Tail(open)
      && lines == Last(NonBlank(LinesOf(flushed, open)), MaxLines(configured))
    }

    constructor (configured: Option<nat>)
      ensures Valid() && flushed == [] && open == "" && this.configured == configured
    {
      this.configured := configured;
      pending, lines, flushed, open := "", [], [], "";
    }

    method Clear()
      modifies this
      ensures Valid() && flushed == [] && open == ""
    {
      lines := [];
      pending := "";
      flushed, open := [], "";
    }

    method PushDebugLine(line: string)
      modifies this`lines
      ensures lines == Pushed(old(lines), line, MaxLines(configured))
    {
      BlankIsTrimmedAway(line);
      if Trim(line) == "" {
        return;
      }
      var max := MaxLines(configured);
      while |lines| >= max
        invariant Min(|old(lines)|, max - 1) <= |lines| <= |old(lines)|
        invariant lines == Last(old(lines), |lines|)
        decreases |lines|
      {
        lines := lines[1..];
      }
      lines := lines + [line];
    }

    method Write(buf: seq<byte>) returns (len: nat)
      requires Valid()
      modifies this
      ensures Valid() && flushed == old(flushed) && open == old(open) + Lossy(buf)
      ensures len == |buf|
    {
      hide Lossy, Pushed, LinesOf, NonBlank, Last, Completed, Tail, MaxLines;
      len := |buf|;
      var content := Lossy(buf);
      CompletedOfJoin(open, content);
      ghost var before := LinesOf(flushed, open);
      pending := pending + content;
      var completed := DrainLines();
      ghost var max := MaxLines(configured);
      assert before + completed[..0] == before;
      for i := 0 to |completed|
        invariant lines == Last(NonBlank(before + completed[..i]), max)
        invariant pending == Tail(old(pending) + content) && flushed == old(flushed) && open == old(open)
      {
        assert before + completed[..i + 1] == before + completed[..i] + [completed[i]];
        PushedIsLast(before + completed[..i], completed[i], max);
        PushDebugLine(completed[i]);
      }
      LinesGrow(flushed, open, content);
      assert completed[..|completed|] == completed;
      open := open + content;
    }

    // Takes the lines that have ended out of the pending text.
    method DrainLines() returns (completed: seq<string>)
      modifies this`pending
      ensures completed == Completed(old(pending)) && pending == Tail(old(pending))
    {
      hide Completed, Tail;
      completed := [];
      while true
        invariant completed + Completed(pending) == Completed(old(pending))
        invariant Tail(pending) == Tail(old(pending))
        decreases |pending|
      {
        var n := IndexOf(pending, '\n');
        FirstLine(pending, completed);
        if n == |pending| {
          break;
        }
        var line := pending[..n + 1];
        pending := pending[n + 1..];
        line := line[..n];
        if line != "" && line[|line| - 1] == '\r' {
          line := line[..|line| - 1];
        }
        completed := completed + [line];
      }
    }

    method Flush()
      requires Valid()
      modifies this
      ensures Valid() && flushed == old(flushed) + [old(open)] && open == ""
    {
      hide LinesOf, NonBlank, Tail, Completed, Last, MaxLines, Trim, Blank, Pushed;
      ghost var tail := Tail(open);
      PushedIsLast(LinesOf(flushed, open), tail, MaxLines(configured));
      FlushedLinesGrow(flushed, open);
      BlankIsKeptOut(lines, pending, MaxLines(configured));
      if Trim(pending) == "" {
        pending := "";
      } else {
        var line := pending;
        pending := "";
        PushDebugLine(line);
      }
      flushed, open := flushed + [open], "";
    }
  }

  lemma BlankIsKeptOut(lines: seq<string>, line: string, max: nat)
    requires max > 0
    ensures Trim(line) == "" ==> Pushed(lines, line, max) == lines
  {
    BlankIsTrimmedAway(line);
  }

  // A flush ends the open text.
  lemma {:induction false} FlushedLinesGrow(flushed: seq<string>, open: string)
    ensures LinesOf(flushed + [open], "") == LinesOf(flushed, open) + [Tail(open)]
    ensures Tail("") == ""
  {
    hide Completed, Tail;
    var longer := flushed + [open];
    assert longer[..|longer| - 1] == flushed;
    Unfolded("", 0);
    assert FlushedLines(longer) == FlushedLines(flushed) + Completed(open) + [Tail(open)];
  }

  lemma {:induction false} Unfolded(text: string, n: nat)
    requires n == IndexOf(text, '\n')
    ensures n < |text| ==> Completed(text) == [WithoutCr(text[..n])] + Completed(text[n + 1..])
    ensures n < |text| ==> Tail(text) == Tail(text[n + 1..])
    ensures n == |text| ==> Completed(text) == [] && Tail(text) == text
  {
    hide IndexOf, WithoutCr;
  }

  lemma {:induction false} FirstLine(text: string, before: seq<string>)
    ensures var n := IndexOf(text, '\n');
            if n == |text| then Completed(text) == [] && Tail(text) == text
            else && before + Completed(text) == before + [WithoutCr(text[..n + 1][..n])] + Completed(text[n + 1..])
                 && Tail(text) == Tail(text[n + 1..])
  {
    hide IndexOf, WithoutCr, Completed, Tail;
    var n := IndexOf(text, '\n');
    Unfolded(text, n);
    if n < |text| {
      assert text[..n + 1][..n] == text[..n];
    }
  }

  lemma {:induction false} LinesGrow(flushed: seq<string>, open: string, content: string)
    ensures LinesOf(flushed, open + content) == LinesOf(flushed, open) + Completed(Tail(open) + content)
  {
    CompletedOfJoin(open, content);
  }

  // Text written later goes on from the pending line.
  lemma {:induction false} CompletedOfJoin(a: string, b: string)
    ensures Completed(a + b) == Completed(a) + Completed(Tail(a) + b)
    ensures Tail(a + b) == Tail(Tail(a) + b)
    decreases |a|
  {
    hide IndexOf, WithoutCr, Completed, Tail;
    var n := IndexOf(a, '\n');
    Unfolded(a, n);
    if n < |a| {
      IndexIsFirst(a + b, n, '\n');
      Unfolded(a + b, n);
      assert (a + b)[..n] == a[..n];
      assert (a + b)[n + 1..] == a[n + 1..] + b;
      CompletedOfJoin(a[n + 1..], b);
    }
  }

  // Writes the chunks one after the other.
  method WriteAll(terminal: DebugTerminal, chunks: seq<seq<byte>>)
    requires terminal.Valid()
    modifies terminal
    ensures terminal.Valid() && terminal.flushed == old(terminal.flushed)
    ensures terminal.open == old(terminal.open) + LossyAll(chunks)
    ensures CleanCuts(chunks) <==> terminal.open == old(terminal.open) + Lossy(Flat(chunks))
  {
    hide Lossy, CleanCuts;
    for i := 0 to |chunks|
      invariant terminal.Valid() && terminal.flushed == old(terminal.flushed)
      invariant terminal.open == old(terminal.open) + LossyAll(chunks[..i])
    {
      assert chunks[..i + 1][..i] == chunks[..i] && chunks[..i + 1][i] == chunks[i];
      var _ := terminal.Write(chunks[i]);
    }
    assert chunks[..|chunks|] == chunks;
    ChunksDecide(chunks);
    if terminal.open == old(terminal.open) + Lossy(Flat(chunks)) {
      assert terminal.open[|old(terminal.open)|..] == LossyAll(chunks) == Lossy(Flat(chunks));
    }
  }
}
