/**
 Log messages as they are printed (src/logger.rs) and read back by the debug
 terminal (src/debug_terminal.rs).
 */
module LogEntries {
  import opened Basics
  import opened Text
  import opened Utf8
  import opened DebugLog

  datatype LogLevel = Error | Warn | Info | Debug | Trace

  // What is read of a line. The text is what the line is classified by.
  datatype LogEntry = LogEntry(raw: string, timestamp: Option<string>, level: Option<LogLevel>, target: Option<string>, text: string)

  // ---------------------------------------------------------------------
  // Printing
  // ---------------------------------------------------------------------

  // The name of a level, five characters wide.
  function PaddedLevel(level: LogLevel): string {
    match level
    case Error => "ERROR"
    case Warn => "WARN "
    case Info => "INFO "
    case Debug => "DEBUG"
    case Trace => "TRACE"
  }

  function Prefix(timestamp: string, level: LogLevel, target: string): string {
    ['['] + timestamp + [']', ' ', '['] + PaddedLevel(level) + [']', ' ', '['] + target + [']']
  }

  function PrintedLine(prefix: string, line: string): string { prefix + [' '] + line }

  // `str::lines`.
  function Lines(message: string): seq<string> {
    Completed(message) + if Tail(message) == "" then [] else [Tail(message)]
  }

  // The lines, each with the prefix, one newline between them.
  function Joined(prefix: string, lines: seq<string>): string {
    if lines == [] then ""
    else if |lines| == 1 then PrintedLine(prefix, lines[0])
    else Joined(prefix, lines[..|lines| - 1]) + ['\n'] + PrintedLine(prefix, lines[|lines| - 1])
  }

  // What is written for a message, with the newline that ends every record.
  function Formatted(prefix: string, message: string): string { Joined(prefix, Lines(message)) + ['\n'] }

  // ---------------------------------------------------------------------
  // Reading
  // ---------------------------------------------------------------------

  function ParseLevel(name: string): Option<LogLevel> {
    match name
    case "ERROR" | "FATAL" => Some(Error)
    case "WARN" => Some(Warn)
    case "INFO" => Some(Info)
    case "DEBUG" => Some(Debug)
    case "TRACE" => Some(Trace)
    case _ => None
  }

  // What the first brackets hold, and what follows them.
  function Bracketed(s: string): Option<(string, string)> {
    var start := IndexOf(s, '[');
    if start == |s| then None
    else
      var rest := s[start + 1..];
      var end := IndexOf(rest, ']');
      if end == |rest| then None else Some((rest[..end], rest[end + 1..]))
  }

  function Rest(part: Option<(string, string)>, s: string): string {
    if part.Some? then part.value.1 else s
  }

  function EntryOf(line: string): LogEntry {
    var first := Bracketed(line);
    var afterFirst := Rest(first, line);
    var second := Bracketed(afterFirst);
    var afterSecond := Rest(second, afterFirst);
    var third := Bracketed(afterSecond);
    LogEntry(line,
             if first.Some? then Some(first.value.0) else None,
             if second.Some? then ParseLevel(Trim(second.value.0)) else None,
             if third.Some? then Some(third.value.0) else None,
             Trim(Rest(third, afterSecond)))
  }

  method ParseEntry(line: string) returns (entry: LogEntry)
    ensures entry == EntryOf(line)
  {
    hide Trim, ParseLevel, Bracketed;
    var timestamp: Option<string>, level: Option<LogLevel>, target: Option<string> := None, None, None;
    var remaining := line;
    var part := Bracketed(remaining);
    if part.Some? {
      timestamp := Some(part.value.0);
      remaining := part.value.1;
    }
    part := Bracketed(remaining);
    if part.Some? {
      level := ParseLevel(Trim(part.value.0));
      remaining := part.value.1;
    }
    part := Bracketed(remaining);
    if part.Some? {
      target := Some(part.value.0);
      remaining := part.value.1;
    }
    entry := LogEntry(line, timestamp, level, target, Trim(remaining));
  }

  // Where a closing bracket, a space and an opening one first follow each other.
  function FindSeparator(s: string): (n: nat)
    ensures n <= |s| && (n < |s| ==> n + 3 <= |s|)
  {
    if s == "" then 0
    else if |s| >= 3 && s[0] == ']' && s[1] == ' ' && s[2] == '[' then 0
    else 1 + FindSeparator(s[1..])
  }

  function LineLevel(line: string): Option<LogLevel> {
    var n := FindSeparator(line);
    if n == |line| then None
    else
      var rest := line[n + 3..];
      var end := IndexOf(rest, ']');
      if end == |rest| then None else ParseLevel(Trim(rest[..end]))
  }

  datatype LevelFilter = LevelFilter(error: bool, warn: bool, info: bool, debug: bool, trace: bool)

  function Enabled(filter: LevelFilter, level: LogLevel): bool {
    match level
    case Error => filter.error
    case Warn => filter.warn
    case Info => filter.info
    case Debug => filter.debug
    case Trace => filter.trace
  }

  // Lines without a level show with INFO.
  function Matches(filter: LevelFilter, line: string): bool {
    match LineLevel(line)
    case Some(level) => Enabled(filter, level)
    case None => filter.info
  }

  // What a name between brackets stands for.
  predicate NamesLevel(name: string, level: LogLevel) { name == LevelName(level) || (name == "FATAL" && level.Error?) }

  predicate SeparatesAt(line: string, n: nat) {
    n + 3 <= |line| && line[n] == ']' && line[n + 1] == ' ' && line[n + 2] == '['
  }

  // What follows the first separator, up to the next closing bracket at `m`,
  // is the name of the level.
  ghost predicate ShowsLevel(line: string, n: nat, m: nat, level: LogLevel) {
    && SeparatesAt(line, n) && (forall i: nat :: i < n ==> !SeparatesAt(line, i))
    && n + 3 <= m < |line| && line[m] == ']' && ']' !in line[n + 3..m]
    && NamesLevel(Trim(line[n + 3..m]), level)
  }

  ghost predicate HasLevel(line: string, level: LogLevel) { exists n: nat, m: nat :: ShowsLevel(line, n, m, level) }

  lemma LevelNamesParse(name: string, level: LogLevel)
    ensures ParseLevel(name) == Some(level) <==> NamesLevel(name, level)
  {
  }

  lemma {:induction false} SeparatorIsFound(s: string)
    ensures var n := FindSeparator(s);
            && (n < |s| ==> SeparatesAt(s, n))
            && forall i: nat :: i < n ==> !SeparatesAt(s, i)
  {
    if s != "" && !SeparatesAt(s, 0) {
      SeparatorIsFound(s[1..]);
      forall i: nat | i < FindSeparator(s) ensures !SeparatesAt(s, i) {
        if i > 0 {
          assert SeparatesAt(s, i) == SeparatesAt(s[1..], i - 1);
        }
      }
      assert FindSeparator(s[1..]) < |s[1..]| ==> SeparatesAt(s, FindSeparator(s));
    }
  }

  // For every line, printed by the program or not.
  lemma {:induction false} LevelOfLine(line: string, level: LogLevel)
    ensures LineLevel(line) == Some(level) <==> HasLevel(line, level)
  {
    hide ParseLevel, Trim, NamesLevel, FindSeparator;
    SeparatorIsFound(line);
    var n := FindSeparator(line);
    if n < |line| {
      var rest := line[n + 3..];
      var end := IndexOf(rest, ']');
      if end < |rest| {
        var m := n + 3 + end;
        assert line[n + 3..m] == rest[..end] && line[m] == rest[end];
        LevelNamesParse(Trim(rest[..end]), level);
        assert ShowsLevel(line, n, m, level) <==> LineLevel(line) == Some(level);
      }
      forall a: nat, b: nat | ShowsLevel(line, a, b, level) ensures a == n && b == n + 3 + end {
        OneSeparator(line, a, n);
        assert rest[b - n - 3] == ']';
        assert rest[..b - n - 3] == line[n + 3..b];
      }
    }
  }

  lemma OneSeparator(line: string, a: nat, b: nat)
    requires SeparatesAt(line, a) && forall i: nat :: i < a ==> !SeparatesAt(line, i)
    requires SeparatesAt(line, b) && forall i: nat :: i < b ==> !SeparatesAt(line, i)
    ensures a == b
  {
  }

  // A line shows when the level it names is on, and with INFO when it names none.
  lemma {:induction false} LinesMatch(filter: LevelFilter, line: string)
    ensures Matches(filter, line)
       <==> (|| (exists level :: HasLevel(line, level) && Enabled(filter, level))
             || ((forall level :: !HasLevel(line, level)) && Enabled(filter, Info)))
  {
    hide LineLevel, HasLevel;
    forall level ensures LineLevel(line) == Some(level) <==> HasLevel(line, level) {
      LevelOfLine(line, level);
    }
  }

  function Toggled(filter: LevelFilter, level: LogLevel, enabled: bool): LevelFilter {
    match level
    case Error => filter.(error := enabled)
    case Warn => filter.(warn := enabled)
    case Info => filter.(info := enabled)
    case Debug => filter.(debug := enabled)
    case Trace => filter.(trace := enabled)
  }

  // ---------------------------------------------------------------------
  // Reading what was printed
  // ---------------------------------------------------------------------

  lemma PaddedLevelParses(level: LogLevel)
    ensures ParseLevel(Trim(PaddedLevel(level))) == Some(level)
    ensures '[' !in PaddedLevel(level) && ']' !in PaddedLevel(level) && '\n' !in PaddedLevel(level)
  {
    hide ParseLevel;
    TrimmedLevel(level);
    NameParses(level);
  }

  function LevelName(level: LogLevel): string {
    match level
    case Error => "ERROR"
    case Warn => "WARN"
    case Info => "INFO"
    case Debug => "DEBUG"
    case Trace => "TRACE"
  }

  lemma NameParses(level: LogLevel)
    ensures ParseLevel(LevelName(level)) == Some(level)
  {
  }

  lemma TrimmedLevel(level: LogLevel)
    ensures Trim(PaddedLevel(level)) == LevelName(level)
  {
    hide Trim;
    var name := LevelName(level);
    var gap := if level.Warn? || level.Info? then " " else "";
    assert PaddedLevel(level) == "" + name + gap;
    assert !IsWhite(name[0]) && !IsWhite(name[|name| - 1]);
    TrimKeepsMiddle("", name, gap);
  }

  // Brackets that start right away, or after a space.
  lemma BracketedFirst(gap: string, inside: string, rest: string)
    requires gap == "" || gap == [' ']
    ensures var part := Bracketed(gap + ['['] + inside + [']'] + rest);
            && part.Some?
            && (']' !in inside ==> part == Some((inside, rest)))
            && (']' in inside ==> part.value.0 != inside)
  {
    var s := gap + ['['] + inside + [']'] + rest;
    IndexIsFirst(s, |gap|, '[');
    var after := s[|gap| + 1..];
    assert after == inside + [']'] + rest;
    var n := IndexOf(inside, ']');
    if n < |inside| {
      assert after[n] == inside[n];
      assert forall i: nat :: i < n ==> after[i] == inside[i];
      IndexIsFirst(after, n, ']');
    } else {
      assert forall i: nat :: i < n ==> after[i] == inside[i];
      IndexIsFirst(after, |inside|, ']');
      assert after[..|inside|] == inside && after[|inside| + 1..] == rest;
    }
  }

  lemma SplitPrinted(timestamp: string, level: LogLevel, target: string, text: string)
    ensures var third := [' '] + ['['] + target + [']'] + ([' '] + text);
            var second := [' '] + ['['] + PaddedLevel(level) + [']'] + third;
            PrintedLine(Prefix(timestamp, level, target), text) == "" + ['['] + timestamp + [']'] + second
  {
    hide PaddedLevel;
  }

  // A printed line reads back as its time, level, target and trimmed text
  // exactly when neither time nor target holds a closing bracket. The text may
  // be anything.
  lemma PrintedLineReads(timestamp: string, level: LogLevel, target: string, text: string)
    ensures var line := PrintedLine(Prefix(timestamp, level, target), text);
            EntryOf(line) == LogEntry(line, Some(timestamp), Some(level), Some(target), Trim(text))
            <==> (']' !in timestamp && ']' !in target)
  {
    hide Bracketed, Trim, PaddedLevel, ParseLevel, PrintedLine, Prefix;
    var third := [' '] + ['['] + target + [']'] + ([' '] + text);
    var second := [' '] + ['['] + PaddedLevel(level) + [']'] + third;
    SplitPrinted(timestamp, level, target, text);
    PaddedLevelParses(level);
    BracketedFirst("", timestamp, second);
    BracketedFirst([' '], PaddedLevel(level), third);
    BracketedFirst([' '], target, [' '] + text);
    TrimAfterSpace(text);
  }

  lemma TrimAfterSpace(text: string)
    ensures Trim([' '] + text) == Trim(text)
  {
    TrimStartOf([' '], text);
  }

  // The filter's reading of the level agrees, whatever the target and text.
  lemma PrintedLineLevel(timestamp: string, level: LogLevel, target: string, text: string)
    requires ']' !in timestamp
    ensures var line := PrintedLine(Prefix(timestamp, level, target), text);
            LineLevel(line) == Some(level) == EntryOf(line).level
  {
    hide Bracketed, Trim, PaddedLevel, ParseLevel, FindSeparator, PrintedLine, Prefix;
    var third := [' '] + ['['] + target + [']'] + ([' '] + text);
    var second := [' '] + ['['] + PaddedLevel(level) + [']'] + third;
    var line := PrintedLine(Prefix(timestamp, level, target), text);
    SplitPrinted(timestamp, level, target, text);
    PaddedLevelParses(level);
    BracketedFirst("", timestamp, second);
    BracketedFirst([' '], PaddedLevel(level), third);
    assert line == (['['] + timestamp) + [']', ' ', '['] + (PaddedLevel(level) + [']'] + third);
    SeparatorIsFirst(['['] + timestamp, PaddedLevel(level) + [']'] + third);
    var rest := line[|timestamp| + 4..];
    assert rest == PaddedLevel(level) + [']'] + third;
    SplitOnceAt(PaddedLevel(level), ']', third);
    IndexIsFirst(rest, |PaddedLevel(level)|, ']');
    assert rest[..|PaddedLevel(level)|] == PaddedLevel(level);
  }

  lemma {:induction false} SeparatorIsFirst(a: string, b: string)
    requires ']' !in a
    ensures FindSeparator(a + [']', ' ', '['] + b) == |a|
    decreases |a|
  {
    var s := a + [']', ' ', '['] + b;
    if a != "" {
      assert s[0] == a[0];
      assert s[1..] == a[1..] + [']', ' ', '['] + b;
      SeparatorIsFirst(a[1..], b);
    }
  }

  // A filter shows a printed line exactly when it has the line's level on,
  // and toggling a level changes that for the lines of this level only.
  lemma FilterShowsLevel(filter: LevelFilter, toggled: LogLevel, enabled: bool,
                         timestamp: string, level: LogLevel, target: string, text: string)
    requires ']' !in timestamp
    ensures var line := PrintedLine(Prefix(timestamp, level, target), text);
            && Matches(filter, line) == Enabled(filter, level)
            && Matches(Toggled(filter, toggled, enabled), line) == if level == toggled then enabled else Matches(filter, line)
  {
    hide LineLevel, EntryOf, PrintedLine, Prefix;
    PrintedLineLevel(timestamp, level, target, text);
  }

  // ---------------------------------------------------------------------
  // From a message to the terminal and back
  // ---------------------------------------------------------------------

  lemma {:induction false} LinesEndNowhere(message: string)
    ensures forall line :: line in Completed(message) ==> '\n' !in line
    ensures '\n' !in Tail(message)
    decreases |message|
  {
    hide IndexOf;
    var n := IndexOf(message, '\n');
    if n < |message| {
      LinesEndNowhere(message[n + 1..]);
    }
  }

  // A line that a newline ends, and what comes before it.
  lemma {:induction false} LastLine(before: string, line: string)
    requires Tail(before) == "" && '\n' !in line
    ensures Completed(before + line + ['\n']) == Completed(before) + [WithoutCr(line)]
    ensures Tail(before + line + ['\n']) == ""
  {
    hide Completed, Tail, WithoutCr, IndexOf;
    assert before + line + ['\n'] == before + (line + ['\n']);
    CompletedOfJoin(before, line + ['\n']);
    var s := line + ['\n'];
    IndexIsFirst(s, |line|, '\n');
    Unfolded(s, |line|);
    Unfolded("", 0);
    assert s[..|line|] == line && s[|line| + 1..] == "";
    assert "" + s == s;
  }

  function ShownLines(prefix: string, lines: seq<string>): seq<string> {
    if lines == [] then []
    else ShownLines(prefix, lines[..|lines| - 1]) + [PrintedLine(prefix, WithoutCr(lines[|lines| - 1]))]
  }

  lemma {:induction false} JoinedLines(prefix: string, lines: seq<string>)
    requires '\n' !in prefix && lines != [] && forall i: nat :: i < |lines| ==> '\n' !in lines[i]
    ensures Completed(Joined(prefix, lines) + ['\n']) == ShownLines(prefix, lines)
    ensures Tail(Joined(prefix, lines) + ['\n']) == ""
    decreases |lines|
  {
    hide Completed, Tail, WithoutCr, PrintedLine;
    var (front, last) := (lines[..|lines| - 1], PrintedLine(prefix, lines[|lines| - 1]));
    PrintedFacts(prefix, lines[|lines| - 1]);
    Unfolded("", 0);
    if |lines| == 1 {
      assert "" + last == last;
      LastLine("", last);
    } else {
      JoinedLines(prefix, front);
      LastLine(Joined(prefix, front) + ['\n'], last);
    }
  }

  lemma PrintedFacts(prefix: string, line: string)
    requires '\n' !in prefix && '\n' !in line
    ensures '\n' !in PrintedLine(prefix, line)
    ensures WithoutCr(PrintedLine(prefix, line)) == PrintedLine(prefix, WithoutCr(line))
  {
    if line != "" && line[|line| - 1] == '\r' {
      assert PrintedLine(prefix, line)[..|PrintedLine(prefix, line)| - 1] == PrintedLine(prefix, line[..|line| - 1]);
    }
  }

  lemma {:induction false} TrimWithoutCr(line: string)
    ensures Trim(WithoutCr(line)) == Trim(line)
  {
    if WithoutCr(line) != line {
      var front := WithoutCr(line);
      assert line == front + ['\r'];
      TrimStartBefore(front, ['\r']);
      if !Blank(front) {
        TrimEndOf(TrimStart(front), ['\r']);
      } else {
        BlankIsTrimmedAway(front);
        assert Blank(line);
        BlankIsTrimmedAway(line);
      }
    }
  }

  lemma {:induction false} TrimStartBefore(s: string, b: string)
    ensures !Blank(s) ==> TrimStart(s + b) == TrimStart(s) + b
    decreases |s|
  {
    if s != "" {
      assert (s + b)[1..] == s[1..] + b;
      TrimStartBefore(s[1..], b);
      if IsWhite(s[0]) && Blank(s[1..]) {
        assert forall i: nat :: 0 < i < |s| ==> s[i] == s[1..][i - 1];
      }
    }
  }

  lemma {:induction false} ShownAt(prefix: string, lines: seq<string>, i: nat)
    requires i < |lines|
    ensures |ShownLines(prefix, lines)| == |lines|
    ensures ShownLines(prefix, lines)[i] == PrintedLine(prefix, WithoutCr(lines[i]))
    decreases |lines|
  {
    hide PrintedLine, WithoutCr;
    var front := lines[..|lines| - 1];
    if i < |front| {
      ShownAt(prefix, front, i);
    } else if front != [] {
      ShownAt(prefix, front, 0);
    }
  }

  // One entry for each line of a message, in order, with its trimmed text.
  ghost predicate ReadsAs(shown: seq<string>, timestamp: string, level: LogLevel, target: string, message: string) {
    && |shown| == |Lines(message)|
    && forall i: nat :: i < |shown| ==>
      && !Blank(shown[i])
      && EntryOf(shown[i]) == LogEntry(shown[i], Some(timestamp), Some(level), Some(target), Trim(Lines(message)[i]))
  }

  lemma {:induction false} FormattedReads(timestamp: string, level: LogLevel, target: string, message: string)
    requires ']' !in timestamp && ']' !in target && '\n' !in timestamp && '\n' !in target
    ensures var text := Formatted(Prefix(timestamp, level, target), message);
            && Tail(text) == ""
            && (Lines(message) == [] ==> Completed(text) == [""])
            && (Lines(message) != [] ==> ReadsAs(Completed(text), timestamp, level, target, message))
  {
    hide Completed, Tail, EntryOf, PrintedLine, Trim, WithoutCr, Blank, PaddedLevel;
    var prefix := Prefix(timestamp, level, target);
    var lines := Lines(message);
    LinesEndNowhere(message);
    PaddedLevelParses(level);
    if lines == [] {
      Unfolded("", 0);
      LastLine("", "");
      assert "" + "" + ['\n'] == "" + ['\n'];
      NoCr();
    } else {
      JoinedLines(prefix, lines);
      forall i: nat | i < |lines|
        ensures |ShownLines(prefix, lines)| == |lines| && !Blank(ShownLines(prefix, lines)[i])
        ensures EntryOf(ShownLines(prefix, lines)[i])
             == LogEntry(ShownLines(prefix, lines)[i], Some(timestamp), Some(level), Some(target), Trim(lines[i]))
      {
        ShownAt(prefix, lines, i);
        PrintedLineReads(timestamp, level, target, WithoutCr(lines[i]));
        TrimWithoutCr(lines[i]);
        StartsWithBracket(timestamp, level, target, WithoutCr(lines[i]));
      }
      ShownAt(prefix, lines, 0);
    }
  }

  lemma NoCr()
    ensures WithoutCr("") == ""
  {
  }

  lemma StartsWithBracket(timestamp: string, level: LogLevel, target: string, text: string)
    ensures !Blank(PrintedLine(Prefix(timestamp, level, target), text))
  {
    assert PrintedLine(Prefix(timestamp, level, target), text)[0] == '[';
  }

  // A message written in any chunks that cut no character adds to the
  // terminal, if no line is pending, one line for each of its own, and each
  // reads back as the message's time, level and target with that line's text.
  method LogMessage(terminal: DebugTerminal, timestamp: string, level: LogLevel, target: string, message: string,
                    chunks: seq<seq<byte>>)
    requires terminal.Valid() && terminal.pending == ""
    requires ']' !in timestamp && ']' !in target && '\n' !in timestamp && '\n' !in target
    requires Flat(chunks) == Encode(Formatted(Prefix(timestamp, level, target), message)) && CleanCuts(chunks)
    modifies terminal
    ensures terminal.Valid() && terminal.pending == ""
    ensures terminal.flushed == old(terminal.flushed)
    ensures exists shown ::
      && Completed(terminal.open) == old(Completed(terminal.open)) + shown
      && (if Lines(message) == [] then shown == [""] else ReadsAs(shown, timestamp, level, target, message))
  {
    hide Completed, Tail, Formatted, Prefix, ReadsAs, Lines;
    var text := Formatted(Prefix(timestamp, level, target), message);
    EncodeThenDecode(text);
    FormattedReads(timestamp, level, target, message);
    CompletedOfJoin(terminal.open, text);
    assert "" + text == text;
    WriteAll(terminal, chunks);
  }
}
