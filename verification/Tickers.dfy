/**
 Tickers and their two stored forms: the text `Exchange:SYMBOL|DISPLAY` and
 the legacy form that packs ten six-bit letters into each 64-bit word
 (exchange/src/lib.rs). A 28-byte buffer is given by the text that its bytes
 spell in UTF-8, trailing NULs included.
 */
module Tickers {
  import opened Basics
  import opened Text
  import opened Exchanges

  const MAX_LEN: nat := 28
  const NUL: char := '\0'

  datatype Ticker = Ticker(bytes: string, exchange: Exchange, displayBytes: string, hasDisplay: bool)

  // Powers of ten.
  datatype Details = Details(minTicksize: int, minQty: int, contractSize: Option<int>)

  datatype TickerInfo = TickerInfo(ticker: Ticker, details: Details)

  // What a failed assertion of the constructor or a decoder reports.
  datatype Fault =
    | TickerTooLong | TickerHasBar | DisplayTooLong | DisplayNotAscii | DisplayHasBar
    | NoColon | UnknownExchange | OldLengthOver20 | InvalidOldCode(code: nat) | NotTwoParts

  predicate IsAscii(s: string) { forall c :: c in s ==> c as int < 0x80 }

  function Nuls(n: nat): string { seq(n, _ => NUL) }

  // The buffer that holds `s`.
  function Pad(s: string): string
    requires ByteLength(s) <= MAX_LEN
  {
    s + Nuls(MAX_LEN - ByteLength(s))
  }

  // The text of a buffer, which ends at its first NUL.
  function UpToNul(buffer: string): string { buffer[..IndexOf(buffer, NUL)] }

  function NewWithDisplay(symbol: string, exchange: Exchange, display: Option<string>): Result<Ticker, Fault> {
    if ByteLength(symbol) > MAX_LEN then Err(TickerTooLong)
    else if '|' in symbol then Err(TickerHasBar)
    else
      match display
      case None => Ok(Ticker(Pad(symbol), exchange, Nuls(MAX_LEN), false))
      case Some(shown) =>
        if ByteLength(shown) > MAX_LEN then Err(DisplayTooLong)
        else if !IsAscii(shown) then Err(DisplayNotAscii)
        else if '|' in shown then Err(DisplayHasBar)
        else Ok(Ticker(Pad(symbol), exchange, Pad(shown), true))
  }

  function New(symbol: string, exchange: Exchange): Result<Ticker, Fault> { NewWithDisplay(symbol, exchange, None) }

  function AsStr(t: Ticker): string { UpToNul(t.bytes) }

  function DisplayAsStr(t: Ticker): string { if t.hasDisplay then UpToNul(t.displayBytes) else AsStr(t) }

  function Print(t: Ticker): string {
    var plain := ExchangeToString(t.exchange) + ":" + AsStr(t);
    if t.hasDisplay then plain + "|" + DisplayAsStr(t) else plain
  }

  function Parse(s: string): Result<Ticker, Fault> {
    match SplitOnce(s, ':')
    case None => Err(NoColon)
    case Some((name, rest)) =>
      match StringToExchange(name)
      case None => Err(UnknownExchange)
      case Some(exchange) =>
        match SplitOnce(rest, '|')
        case Some((symbol, display)) => NewWithDisplay(symbol, exchange, Some(display))
        case None => NewWithDisplay(rest, exchange, None)
  }

  // ---------------------------------------------------------------------
  // Round trips of the text forms
  // ---------------------------------------------------------------------

  // After its first NUL the text has nothing else.
  predicate OnlyNulsAfterNul(s: string) { forall i: nat, j: nat :: i < j < |s| && s[i] == NUL ==> s[j] == NUL }

  lemma {:induction false} UpToNulIsNoLonger(s: string)
    ensures ByteLength(UpToNul(s)) <= ByteLength(s)
    decreases |s|
  {
    if s != "" && s[0] != NUL {
      assert UpToNul(s) == [s[0]] + UpToNul(s[1..]);
      assert UpToNul(s)[1..] == UpToNul(s[1..]);
      UpToNulIsNoLonger(s[1..]);
    }
  }

  lemma {:induction false} PadUpToNul(s: string)
    requires ByteLength(s) <= MAX_LEN
    ensures UpToNul(Pad(s)) == UpToNul(s)
  {
    var n := IndexOf(s, NUL);
    if n == |s| {
      assert Pad(s)[..n] == s[..n];
      IndexIsFirst(Pad(s), n, NUL);
    } else {
      assert Pad(s)[..n] == s[..n];
      IndexIsFirst(Pad(s), n, NUL);
    }
  }

  lemma {:induction false} TailOfNuls(s: string)
    requires forall i: nat :: i < |s| ==> s[i] == NUL
    ensures ByteLength(s) == |s|
    decreases |s|
  {
    if s != "" {
      TailOfNuls(s[1..]);
    }
  }

  // A text and the part of it before its first NUL fill the same buffer
  // exactly when the rest of it is NULs too.
  lemma {:induction false} SameBuffer(s: string)
    requires ByteLength(s) <= MAX_LEN
    ensures ByteLength(UpToNul(s)) <= MAX_LEN
    ensures Pad(UpToNul(s)) == Pad(s) <==> OnlyNulsAfterNul(s)
  {
    hide ByteLength, OnlyNulsAfterNul, Pad;
    UpToNulIsNoLonger(s);
    var n := IndexOf(s, NUL);
    assert s == s[..n] + s[n..];
    ByteLengthOfConcat(s[..n], s[n..]);
    if OnlyNulsAfterNul(s) {
      RestIsNuls(s, n);
      TailOfNuls(s[n..]);
      PaddedAlike(s, n);
    } else {
      var i, j := NulBeforeText(s);
      PaddedUnlike(s, n, j);
    }
  }

  lemma RestIsNuls(s: string, n: nat)
    requires OnlyNulsAfterNul(s) && n <= |s| && (n < |s| ==> s[n] == NUL)
    ensures forall i: nat :: i < |s[n..]| ==> s[n..][i] == NUL
  {
  }

  lemma NulBeforeText(s: string) returns (i: nat, j: nat)
    requires !OnlyNulsAfterNul(s)
    ensures i < j < |s| && s[i] == NUL && s[j] != NUL
  {
    i, j :| i < j < |s| && s[i] == NUL && s[j] != NUL;
  }

  lemma PaddedAlike(s: string, n: nat)
    requires n <= |s| && forall i: nat :: i < |s[n..]| ==> s[n..][i] == NUL
    requires ByteLength(s[..n]) + |s| - n == ByteLength(s) <= MAX_LEN
    ensures Pad(s[..n]) == Pad(s)
  {
    hide ByteLength;
    assert |Pad(s[..n])| == |Pad(s)|;
    forall k: nat | k < |Pad(s)| ensures Pad(s[..n])[k] == Pad(s)[k] {
      if n <= k < |s| {
        assert s[n..][k - n] == s[k];
      }
    }
  }

  lemma PaddedUnlike(s: string, n: nat, j: nat)
    requires n <= j < |s| && s[j] != NUL
    requires ByteLength(s[..n]) <= MAX_LEN && ByteLength(s) <= MAX_LEN
    ensures Pad(s[..n]) != Pad(s)
  {
    hide ByteLength;
    assert Pad(s)[j] == s[j];
    assert j < |Pad(s[..n])| ==> Pad(s[..n])[j] == NUL;
  }

  lemma ShortNameParses(exchange: Exchange)
    ensures StringToExchange(ExchangeToString(exchange)) == Some(exchange)
    ensures ':' !in ExchangeToString(exchange)
  {
    ExchangeNameRoundTrip(exchange);
  }

  // Parsing a printed ticker always succeeds, gives the ticker of the texts
  // up to their first NUL, and gives the ticker itself exactly when no text
  // goes on after a NUL.
  lemma {:induction false} PrintThenParse(symbol: string, exchange: Exchange, display: Option<string>)
    requires NewWithDisplay(symbol, exchange, display).Ok?
    ensures var t := NewWithDisplay(symbol, exchange, display);
            && Parse(Print(t.value)).Ok?
            && Parse(Print(t.value)) == NewWithDisplay(UpToNul(symbol), exchange, DisplayUpToNul(display))
            && (Parse(Print(t.value)) == t
                <==> (OnlyNulsAfterNul(symbol) && (display.Some? ==> OnlyNulsAfterNul(display.value))))
  {
    hide StringToExchange, ExchangeToString, OnlyNulsAfterNul, Pad, UpToNul, Parse;
    SameBuffer(symbol);
    PadUpToNul(symbol);
    UpToNulIsPart(symbol);
    if display.Some? {
      SameBuffer(display.value);
      PadUpToNul(display.value);
      UpToNulIsPart(display.value);
    }
    ParseWritten(UpToNul(symbol), exchange, DisplayUpToNul(display));
  }

  function DisplayUpToNul(display: Option<string>): Option<string> {
    if display.Some? then Some(UpToNul(display.value)) else None
  }

  function Written(symbol: string, exchange: Exchange, display: Option<string>): string {
    var plain := ExchangeToString(exchange) + ":" + symbol;
    if display.Some? then plain + "|" + display.value else plain
  }

  lemma {:induction false} ParseWritten(symbol: string, exchange: Exchange, display: Option<string>)
    requires '|' !in symbol
    ensures Parse(Written(symbol, exchange, display)) == NewWithDisplay(symbol, exchange, display)
  {
    hide StringToExchange, ExchangeToString, SplitOnce, NewWithDisplay;
    ShortNameParses(exchange);
    var name := ExchangeToString(exchange);
    if display.Some? {
      var rest := symbol + ['|'] + display.value;
      assert Written(symbol, exchange, display) == name + [':'] + rest;
      SplitOnceAt(name, ':', rest);
      SplitOnceAt(symbol, '|', display.value);
    } else {
      assert Written(symbol, exchange, display) == name + [':'] + symbol;
      SplitOnceAt(name, ':', symbol);
      NoSplit(symbol, '|');
    }
  }

  // A symbol is cut at its NUL.
  lemma TextAfterNulIsLost(exchange: Exchange) returns (symbol: string)
    ensures New(symbol, exchange).Ok? && New("A", exchange).Ok?
    ensures New(symbol, exchange) != New("A", exchange) == Parse(Print(New(symbol, exchange).value))
  {
    symbol := ['A', NUL, 'B'];
    ShortTexts();
    hide OnlyNulsAfterNul, UpToNul, Pad, Parse, Print;
    PrintThenParse(symbol, exchange, None);
  }

  lemma ShortTexts()
    ensures ByteLength(['A', NUL, 'B']) == 3 && ByteLength("A") == 1
    ensures UpToNul(['A', NUL, 'B']) == "A"
    ensures '|' !in ['A', NUL, 'B'] && !OnlyNulsAfterNul(['A', NUL, 'B'])
  {
    var symbol := ['A', NUL, 'B'];
    IndexIsFirst(symbol, 1, NUL);
    assert symbol[..1] == "A";
    assert symbol[1..] == [NUL, 'B'] && symbol[1..][1..] == ['B'] && symbol[1..][1..][1..] == "";
    assert symbol[1] == NUL && symbol[2] != NUL;
    assert ByteLength(['B']) == 1 && ByteLength([NUL, 'B']) == 1 + ByteLength(['B']);
  }

  lemma UpToNulIsPart(s: string)
    ensures forall c :: c in UpToNul(s) ==> c in s
  {
  }

  // ---------------------------------------------------------------------
  // Exchange-and-ticker keys
  // ---------------------------------------------------------------------

  datatype SerTicker = SerTicker(exchange: Exchange, ticker: Ticker)

  function PrintKey(key: SerTicker): string {
    ExchangeToString(key.exchange) + ":" + AsStr(key.ticker)
  }

  // `str::split`.
  function Split(s: string, c: char): (parts: seq<string>)
    ensures |parts| > 0
    decreases |s|
  {
    var n := IndexOf(s, c);
    if n < |s| then [s[..n]] + Split(s[n + 1..], c) else [s]
  }

  function ParseKey(s: string): Result<SerTicker, Fault> {
    var parts := Split(s, ':');
    if |parts| != 2 then Err(NotTwoParts)
    else
      match StringToExchange(parts[0])
      case None => Err(UnknownExchange)
      case Some(exchange) =>
        match New(parts[1], exchange)
        case Err(fault) => Err(fault)
        case Ok(ticker) => Ok(SerTicker(exchange, ticker))
  }

  // A printed key parses back to itself exactly when its ticker is on its own
  // exchange, has no display symbol, and has a symbol without a colon in which
  // nothing follows a NUL.
  lemma {:induction false} PrintThenParseKey(exchange: Exchange, symbol: string, home: Exchange, display: Option<string>)
    requires NewWithDisplay(symbol, home, display).Ok?
    ensures var key := SerTicker(exchange, NewWithDisplay(symbol, home, display).value);
            ParseKey(PrintKey(key)) == Ok(key)
            <==> (home == exchange && display == None && ':' !in UpToNul(symbol) && OnlyNulsAfterNul(symbol))
  {
    hide ExchangeToString, OnlyNulsAfterNul, Pad, UpToNul, ByteLength, IsAscii, ParseKey;
    UpToNulIsPart(symbol);
    SameBuffer(symbol);
    PadUpToNul(symbol);
    ParsePrintedKey(exchange, UpToNul(symbol));
  }

  lemma ParsePrintedKey(exchange: Exchange, text: string)
    ensures ParseKey(ExchangeToString(exchange) + ":" + text)
         == if ':' in text then Err(NotTwoParts)
            else match New(text, exchange)
                 case Err(fault) => Err(fault)
                 case Ok(ticker) => Ok(SerTicker(exchange, ticker))
  {
    hide StringToExchange, ExchangeToString, Split, New;
    ShortNameParses(exchange);
    SplitInTwo(ExchangeToString(exchange), text);
    assert ExchangeToString(exchange) + ":" + text == ExchangeToString(exchange) + [':'] + text;
  }

  // A spot market of Hyperliquid loses its display symbol, and a symbol with
  // a colon does not read back.
  lemma KeysAreLost(exchange: Exchange)
    ensures var t := NewWithDisplay("@1", HyperliquidSpot, Some("A"));
            t.Ok? && ParseKey(PrintKey(SerTicker(HyperliquidSpot, t.value))) != Ok(SerTicker(HyperliquidSpot, t.value))
    ensures var t := New("x:A", exchange);
            t.Ok? && ParseKey(PrintKey(SerTicker(exchange, t.value))) != Ok(SerTicker(exchange, t.value))
  {
    KeyTexts();
    hide OnlyNulsAfterNul, UpToNul, Pad, ParseKey, PrintKey, IsAscii;
    PrintThenParseKey(HyperliquidSpot, "@1", HyperliquidSpot, Some("A"));
    PrintThenParseKey(exchange, "x:A", exchange, None);
  }

  lemma KeyTexts()
    ensures ByteLength("@1") <= 2 && '|' !in "@1"
    ensures ByteLength("A") <= 1 && IsAscii("A") && '|' !in "A"
    ensures ByteLength("x:A") <= 3 && '|' !in "x:A" && ':' in UpToNul("x:A")
  {
    assert "@1"[1..] == "1" && "1"[1..] == "" && "A"[1..] == "";
    assert "x:A"[1..] == ":A" && ":A"[1..] == "A";
    IndexIsFirst("x:A", 3, NUL);
    assert "x:A"[..3][1] == ':';
  }

  lemma {:induction false} SplitInTwo(a: string, b: string)
    requires ':' !in a
    ensures var parts := Split(a + [':'] + b, ':');
            if ':' in b then |parts| > 2 else parts == [a, b]
  {
    SplitOnceAt(a, ':', b);
    var n := IndexOf(b, ':');
    assert ':' in b <==> n < |b|;
    assert Split(a + [':'] + b, ':') == [a] + Split(b, ':');
    if n < |b| {
      assert Split(b, ':') == [b[..n]] + Split(b[n + 1..], ':');
    }
  }

  // ---------------------------------------------------------------------
  // The legacy packed form
  // ---------------------------------------------------------------------

  datatype Packed = Packed(low: nat, high: nat, len: nat, exchange: string)

  // A value of the stored type: two 64-bit words and a byte.
  predicate IsPacked(stored: Packed) { stored.low <= U64_MAX && stored.high <= U64_MAX && stored.len < 256 }

  // `w >> bits`.
  function ShiftRight(w: nat, bits: nat): nat {
    if bits == 0 then w else ShiftRight(w / 2, bits - 1)
  }

  // The six bits that the decoder reads for letter `i`.
  function CodeAt(stored: Packed, i: nat): (v: nat)
    requires i < 20
    ensures v < 64
  {
    var w := if i / 10 == 0 then stored.low else stored.high;
    ShiftRight(w, i % 10 * 6) % 64
  }

  function Letter(v: nat): char
    requires v <= 36
  {
    if v <= 9 then '0' + v as char else if v <= 35 then 'A' + (v - 10) as char else '_'
  }

  predicate Packable(c: char) { '0' <= c <= '9' || 'A' <= c <= 'Z' || c == '_' }

  function Code(c: char): (v: nat)
    requires Packable(c)
    ensures v <= 36 && Letter(v) == c
  {
    if '0' <= c <= '9' then (c - '0') as nat else if 'A' <= c <= 'Z' then 10 + (c - 'A') as nat else 36
  }

  // The symbol is the `n` letters that the words hold.
  predicate Spells(symbol: string, stored: Packed, n: nat) {
    && n == |symbol| <= 20
    && forall i: nat :: i < n ==> CodeAt(stored, i) <= 36 && symbol[i] == Letter(CodeAt(stored, i))
  }

  // The first letter whose code means nothing.
  predicate FirstBadCode(stored: Packed, i: nat) {
    && i < stored.len <= 20 && CodeAt(stored, i) > 36
    && forall k: nat :: k < i ==> CodeAt(stored, k) <= 36
  }

  method ParseOld(stored: Packed) returns (r: Result<Ticker, Fault>)
    requires IsPacked(stored)
    ensures stored.len > 20 <==> r == Err(OldLengthOver20)
    ensures forall i: nat :: FirstBadCode(stored, i) ==> r == Err(InvalidOldCode(CodeAt(stored, i)))
    ensures forall symbol :: Spells(symbol, stored, stored.len) ==>
      r == match StringToExchange(stored.exchange)
           case Some(exchange) => New(symbol, exchange)
           case None => Err(UnknownExchange)
  {
    if stored.len > 20 {
      return Err(OldLengthOver20);
    }
    var symbol := "";
    for i := 0 to stored.len
      invariant Spells(symbol, stored, i)
    {
      var v := CodeAt(stored, i);
      if v > 36 {
        return Err(InvalidOldCode(v));
      }
      symbol := symbol + [Letter(v)];
    }
    match StringToExchange(stored.exchange) {
      case None => r := Err(UnknownExchange);
      case Some(exchange) => r := New(symbol, exchange);
    }
    SpelledIsShort(symbol, stored);
    forall other | Spells(other, stored, stored.len) ensures other == symbol {
      assert |other| == |symbol|;
    }
  }

  lemma SpelledIsShort(symbol: string, stored: Packed)
    requires Spells(symbol, stored, stored.len)
    ensures forall c :: c in symbol ==> Packable(c)
  {
  }

  // The word that packs the letters, the first one lowest.
  function PackWord(letters: string): nat
    requires forall c :: c in letters ==> Packable(c)
  {
    if letters == "" then 0 else Code(letters[0]) + 64 * PackWord(letters[1..])
  }

  function Pack(symbol: string, exchange: string): Packed
    requires |symbol| <= 20 && forall c :: c in symbol ==> Packable(c)
  {
    Packed(PackWord(symbol[..Min(|symbol|, 10)]), PackWord(symbol[Min(|symbol|, 10)..]), |symbol|, exchange)
  }

  lemma {:induction false} ShiftSix(w: nat, bits: nat)
    ensures ShiftRight(w, bits + 6) == ShiftRight(w / 64, bits)
  {
    assert ShiftRight(w, bits + 6) == ShiftRight(w / 2, bits + 5);
    assert ShiftRight(w / 2, bits + 5) == ShiftRight(w / 2 / 2, bits + 4);
    assert ShiftRight(w / 2 / 2, bits + 4) == ShiftRight(w / 2 / 2 / 2, bits + 3);
    assert ShiftRight(w / 2 / 2 / 2, bits + 3) == ShiftRight(w / 2 / 2 / 2 / 2, bits + 2);
    assert ShiftRight(w / 2 / 2 / 2 / 2, bits + 2) == ShiftRight(w / 2 / 2 / 2 / 2 / 2, bits + 1);
    assert ShiftRight(w / 2 / 2 / 2 / 2 / 2, bits + 1) == ShiftRight(w / 2 / 2 / 2 / 2 / 2 / 2, bits);
    assert w / 2 / 2 / 2 / 2 / 2 / 2 == w / 64;
  }

  // Reading lane `k` of a packed word gives letter `k`.
  lemma {:induction false} ReadPackedWord(letters: string, k: nat)
    requires k < |letters| && forall c :: c in letters ==> Packable(c)
    ensures ShiftRight(PackWord(letters), k * 6) % 64 == Code(letters[k])
    decreases k
  {
    if k > 0 {
      ShiftSix(PackWord(letters), (k - 1) * 6);
      assert PackWord(letters) / 64 == PackWord(letters[1..]);
      ReadPackedWord(letters[1..], k - 1);
    }
  }

  // A word above the lanes in use has nothing more.
  function LanesUsed(w: nat): nat {
    if w == 0 then 0 else 1 + LanesUsed(w / 64)
  }

  // Packing fits each word of ten letters into sixty bits.
  lemma {:induction false} PackedFits(letters: string)
    requires forall c :: c in letters ==> Packable(c)
    ensures LanesUsed(PackWord(letters)) <= |letters|
    decreases |letters|
  {
    if letters != "" {
      PackedFits(letters[1..]);
      assert PackWord(letters) / 64 == PackWord(letters[1..]);
    }
  }

  function Power64(n: nat): nat { if n == 0 then 1 else 64 * Power64(n - 1) }

  lemma {:induction false} LanesBound(w: nat, n: nat)
    requires LanesUsed(w) <= n
    ensures w < Power64(n)
  {
    if w > 0 {
      LanesBound(w / 64, n - 1);
    } else {
      PowerIsPositive(n);
    }
  }

  lemma {:induction false} PowerIsPositive(n: nat)
    ensures Power64(n) > 0
  {
    if n > 0 {
      PowerIsPositive(n - 1);
    }
  }

  lemma TenLanesFit(w: nat)
    requires LanesUsed(w) <= 10
    ensures w <= U64_MAX
  {
    LanesBound(w, 10);
    assert Power64(10) == 0x1000_0000_0000_0000;
  }

  // The decoder undoes packing, for every symbol it can hold.
  lemma {:induction false} PackThenSpell(symbol: string, exchange: string)
    requires |symbol| <= 20 && forall c :: c in symbol ==> Packable(c)
    ensures IsPacked(Pack(symbol, exchange))
    ensures Spells(symbol, Pack(symbol, exchange), |symbol|)
  {
    hide ShiftRight, PackWord, LanesUsed;
    var stored := Pack(symbol, exchange);
    var n := Min(|symbol|, 10);
    PackedFits(symbol[..n]);
    PackedFits(symbol[n..]);
    TenLanesFit(stored.low);
    TenLanesFit(stored.high);
    forall i: nat | i < |symbol| ensures CodeAt(stored, i) == Code(symbol[i]) {
      PackedLane(symbol, exchange, i);
    }
  }

  lemma {:induction false} PackedLane(symbol: string, exchange: string, i: nat)
    requires i < |symbol| <= 20 && forall c :: c in symbol ==> Packable(c)
    ensures CodeAt(Pack(symbol, exchange), i) == Code(symbol[i])
  {
    hide ShiftRight, PackWord;
    var n := Min(|symbol|, 10);
    if i < n {
      assert symbol[..n][i] == symbol[i];
      ReadPackedWord(symbol[..n], i);
    } else {
      assert symbol[n..][i - 10] == symbol[i];
      ReadPackedWord(symbol[n..], i - 10);
    }
  }

  // Lane `k` of a word holds letter `k`.
  predicate SpelledAt(w: nat, letters: string, k: nat)
    requires k < |letters|
  {
    ShiftRight(w, k * 6) % 64 <= 36 && letters[k] == Letter(ShiftRight(w, k * 6) % 64)
  }

  lemma SpelledRest(w: nat, letters: string)
    requires letters != [] && forall k: nat :: k < |letters| ==> SpelledAt(w, letters, k)
    ensures forall k: nat :: k < |letters[1..]| ==> SpelledAt(w / 64, letters[1..], k)
    ensures w % 64 <= 36 && letters[0] == Letter(w % 64)
  {
    assert SpelledAt(w, letters, 0);
    forall k: nat | k < |letters[1..]| ensures SpelledAt(w / 64, letters[1..], k) {
      assert SpelledAt(w, letters, k + 1);
      ShiftSix(w, k * 6);
    }
  }

  // Packing the decoded symbol gives back words that use no other lane.
  lemma {:induction false} WordIsRepacked(w: nat, letters: string)
    requires forall k: nat :: k < |letters| ==> SpelledAt(w, letters, k)
    ensures forall c :: c in letters ==> Packable(c)
    ensures PackWord(letters) == w <==> LanesUsed(w) <= |letters|
    decreases |letters|
  {
    hide SpelledAt;
    if letters != "" {
      SpelledRest(w, letters);
      LetterIsPackable(w % 64);
      WordIsRepacked(w / 64, letters[1..]);
      assert letters == [letters[0]] + letters[1..];
    }
  }

  lemma LetterIsPackable(v: nat)
    requires v <= 36
    ensures Packable(Letter(v)) && Code(Letter(v)) == v
  {
  }

  // A packed value is what packing its decoded symbol gives, exactly when
  // nothing is stored beyond its letters.
  lemma {:induction false} SpellThenPack(stored: Packed, symbol: string)
    requires IsPacked(stored) && Spells(symbol, stored, stored.len)
    ensures forall c :: c in symbol ==> Packable(c)
    ensures Pack(symbol, stored.exchange) == stored
       <==> (LanesUsed(stored.low) <= Min(stored.len, 10) && LanesUsed(stored.high) <= SatSub(stored.len, 10))
  {
    hide ShiftRight, PackWord, LanesUsed, CodeAt, Letter, Code;
    var n := Min(|symbol|, 10);
    SpelledIsShort(symbol, stored);
    LowSpelled(stored, symbol, n);
    HighSpelled(stored, symbol, n);
    WordIsRepacked(stored.low, symbol[..n]);
    WordIsRepacked(stored.high, symbol[n..]);
  }

  lemma LowSpelled(stored: Packed, symbol: string, n: nat)
    requires Spells(symbol, stored, stored.len) && n == Min(|symbol|, 10)
    ensures forall k: nat :: k < |symbol[..n]| ==> SpelledAt(stored.low, symbol[..n], k)
  {
    hide ShiftRight;
    forall k: nat | k < |symbol[..n]| ensures SpelledAt(stored.low, symbol[..n], k) {
      assert CodeAt(stored, k) <= 36 && symbol[k] == Letter(CodeAt(stored, k));
    }
  }

  lemma HighSpelled(stored: Packed, symbol: string, n: nat)
    requires Spells(symbol, stored, stored.len) && n == Min(|symbol|, 10)
    ensures forall k: nat :: k < |symbol[n..]| ==> SpelledAt(stored.high, symbol[n..], k)
  {
    hide ShiftRight;
    forall k: nat | k < |symbol[n..]| ensures SpelledAt(stored.high, symbol[n..], k) {
      assert n == 10;
      assert CodeAt(stored, k + 10) <= 36 && symbol[k + 10] == Letter(CodeAt(stored, k + 10));
    }
  }

  // A decoded symbol always makes a ticker, which its text form keeps too.
  lemma {:induction false} OldSymbolsAreValid(symbol: string, exchange: Exchange)
    requires |symbol| <= 20 && forall c :: c in symbol ==> Packable(c)
    ensures New(symbol, exchange).Ok?
    ensures Parse(Print(New(symbol, exchange).value)) == New(symbol, exchange)
  {
    hide UpToNul, OnlyNulsAfterNul, Pad, StringToExchange, Parse, Print;
    OneByteEach(symbol);
    NoNuls(symbol);
    assert '|' !in symbol;
    PrintThenParse(symbol, exchange, None);
  }

  lemma NoNuls(symbol: string)
    requires forall c :: c in symbol ==> Packable(c)
    ensures OnlyNulsAfterNul(symbol)
  {
    assert forall i: nat :: i < |symbol| ==> symbol[i] in symbol;
  }

  lemma {:induction false} OneByteEach(s: string)
    requires forall c :: c in s ==> Packable(c)
    ensures ByteLength(s) == |s|
    decreases |s|
  {
    if s != "" {
      assert s[0] in s;
      OneByteEach(s[1..]);
    }
  }
}
