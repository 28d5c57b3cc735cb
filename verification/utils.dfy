/**
 * The wire codec of `utils.h`: `to_json` renders a tick record as the
 * one-line frame
 *   {"instrument":"<name>","bid":<price>,"ask":<price>,"timestamp_ns":<ts>}
 * and `from_json` matches a line against the same pattern with `sscanf`,
 * writing the record only when all four conversions succeed. Also the
 * nanosecond suffix of `format_timestamp`.
 *
 * Prices are `real` values; `%.2f` renders the value rounded to hundredths
 * and `%lf` reads a signed decimal number (see README for the forms of
 * floating-point text the model does not accept).
 */
module Utils {
  import opened Base
  import opened Digits
  import opened MarketDataRecord

  const NANOS_PER_SECOND: nat := 1_000_000_000

  // ---------------------------------------------------------------------
  // format_timestamp: the ".nnnnnnnnn" suffix

  /** Whole seconds of a nanosecond timestamp (`timestamp_ns / 1'000'000'000`). */
  function WholeSeconds(ts: u64): (s: nat)
    ensures s * NANOS_PER_SECOND <= ts < (s + 1) * NANOS_PER_SECOND
  {
    ts / NANOS_PER_SECOND
  }

  /** `"." << setfill('0') << setw(9) << timestamp_ns % 1'000'000'000`. */
  function NanosSuffix(ts: u64): (r: string)
    ensures |r| == 10 && r[0] == '.' && AllDigits(r[1..])
  {
    var nanos := ts % NANOS_PER_SECOND;
    DecimalLength(nanos, 9);
    "." + ZeroPad(Decimal(nanos), 9)
  }

  /** The suffix's nine digits are the nanoseconds within the second, so
      the whole seconds and the suffix together give back the timestamp. */
  lemma NanosSuffixValue(ts: u64)
    ensures Value(NanosSuffix(ts)[1..]) == ts % NANOS_PER_SECOND
    ensures WholeSeconds(ts) * NANOS_PER_SECOND + Value(NanosSuffix(ts)[1..]) == ts
  {
    var nanos := ts % NANOS_PER_SECOND;
    assert NanosSuffix(ts)[1..] == ZeroPad(Decimal(nanos), 9);
    ValueOfDecimal(nanos);
    ValueOfZeroPad(Decimal(nanos), 9);
  }

  // ---------------------------------------------------------------------
  // Prices: %.2f and %lf

  /** The price in hundredths that `%.2f` prints: the integer nearest to
      `100 p`, and the even one of the two when `100 p` lies halfway between
      them (glibc rounds the exact value of the `double`, ties to even). */
  function Hundredths(p: real): (h: int)
    ensures -0.5 <= h as real - p * 100.0 <= 0.5
    ensures h as real - p * 100.0 == 0.5 || p * 100.0 - h as real == 0.5 ==> h % 2 == 0
  {
    var x := p * 100.0;
    var f := x.Floor;
    var d := x - f as real;
    if d < 0.5 then f else if d > 0.5 then f + 1 else if f % 2 == 0 then f else f + 1
  }

  /** The rounding rule pins the result down: an integer as near to `100 p`
      as `Hundredths(p)`, and even on a tie, is `Hundredths(p)`. */
  lemma HundredthsUnique(p: real, k: int)
    requires -0.5 <= k as real - p * 100.0 <= 0.5
    requires k as real - p * 100.0 == 0.5 || p * 100.0 - k as real == 0.5 ==> k % 2 == 0
    ensures k == Hundredths(p)
  {
    var h := Hundredths(p);
    assert -1.0 <= (h - k) as real <= 1.0;
  }

  /** The price a reader gets back from the two-decimal text. */
  function Rounded(p: real): (q: real)
    ensures -0.005 <= q - p <= 0.005
  {
    Hundredths(p) as real / 100.0
  }

  /** `%.2f`: the price rounded to hundredths, as text. */
  function RenderPrice(p: real): (r: string)
    ensures forall i :: 0 <= i < |r| ==> IsDigit(r[i]) || r[i] == '-' || r[i] == '.'
  {
    RenderedChars(Hundredths(p));
    RenderHundredths(Hundredths(p))
  }

  /** `h` hundredths as text: optional '-', the integral digits, '.', two
      digits. */
  function RenderHundredths(h: int): string
  {
    var m: nat := if h < 0 then -h else h;
    (if h < 0 then "-" else "") + Decimal(m / 100) + "." + ZeroPad(Decimal(m % 100), 2)
  }

  /** The `%.2f` text holds only digits, a sign and the decimal point: a
      '-' first exactly when the value is negative, and '.' with exactly two
      digits after it at the end. */
  lemma RenderedChars(h: int)
    ensures var r := RenderHundredths(h);
      forall i :: 0 <= i < |r| ==> IsDigit(r[i]) || r[i] == '-' || r[i] == '.'
    ensures var r := RenderHundredths(h);
      && |r| >= 4 && r[|r| - 3] == '.' && IsDigit(r[|r| - 2]) && IsDigit(r[|r| - 1])
      && (r[0] == '-' <==> h < 0)
  {
    var m: nat := if h < 0 then -h else h;
    DecimalLength(m % 100, 2);
    var frac := ZeroPad(Decimal(m % 100), 2);
    assert AllDigits(frac) && |frac| == 2;
  }

  /** What `%lf` reads back from the `%.2f` text is the price rounded to
      hundredths, and the conversion stops right after the two decimals. */
  lemma PriceRoundTrip(p: real, rest: string)
    requires rest == [] || !(IsDigit(rest[0]) || rest[0] == '.')
    ensures ScanReal(RenderPrice(p) + rest) == Some((Rounded(p), rest))
  {
    var h := Hundredths(p);
    HundredthsRoundTrip(h, rest, RenderPrice(p) + rest);
    assert RenderPrice(p) == RenderHundredths(h);
    assert Rounded(p) == h as real / 100.0;
  }

  lemma HundredthsRoundTrip(h: int, rest: string, text: string)
    requires rest == [] || !(IsDigit(rest[0]) || rest[0] == '.')
    requires text == RenderHundredths(h) + rest
    ensures ScanReal(text) == Some((h as real / 100.0, rest))
  {
    var m: nat := if h < 0 then -h else h;
    var whole := Decimal(m / 100);
    var frac := FixedPointOfHundredths(m);
    SignedHundredths(h, m, FixedPointValue(whole, frac));
    ScanFixedPoint(h < 0, whole, frac, rest, text, h as real / 100.0);
  }

  /** `h` hundredths is the magnitude `|h| / 100`, negated when `h < 0`. */
  lemma SignedHundredths(h: int, m: nat, v: real)
    requires m == (if h < 0 then -h else h) && v == m as real / 100.0
    ensures h as real / 100.0 == if h < 0 then -v else v
  {
  }

  /** The two-decimal text of `m` hundredths denotes `m / 100`. */
  lemma FixedPointOfHundredths(m: nat) returns (frac: string)
    ensures frac == ZeroPad(Decimal(m % 100), 2)
    ensures AllDigits(Decimal(m / 100)) && 1 <= |Decimal(m / 100)| && AllDigits(frac)
    ensures FixedPointValue(Decimal(m / 100), frac) == m as real / 100.0
  {
    DecimalLength(m % 100, 2);
    frac := ZeroPad(Decimal(m % 100), 2);
    ValueOfZeroPad(Decimal(m % 100), 2);
    ValueOfDecimal(m / 100);
    ValueOfDecimal(m % 100);
    assert |frac| == 2 && Pow10(|frac|) == 100;
    var q, r := m / 100, m % 100;
    assert m == 100 * q + r;
    assert FixedPointValue(Decimal(m / 100), frac) == q as real + r as real / 100.0;
  }

  /** `%lf` on `[-]whole.frac` followed by a character that cannot continue
      the number. */
  lemma ScanFixedPoint(negative: bool, whole: string, frac: string, rest: string, text: string, value: real)
    requires 1 <= |whole| && AllDigits(whole) && AllDigits(frac)
    requires rest == [] || !(IsDigit(rest[0]) || rest[0] == '.')
    requires text == (if negative then "-" else "") + whole + "." + frac + rest
    requires value == if negative then -FixedPointValue(whole, frac) else FixedPointValue(whole, frac)
    ensures ScanReal(text) == Some((value, rest))
  {
    var t := whole + ("." + (frac + rest));
    var sign := if negative then "-" else "";
    SignedText(sign, whole, frac, rest);
    MagnitudeOfFixedPoint(t, whole, frac, rest);
    if negative {
      ScanMinus(t);
    } else {
      assert IsDigit(t[0]);
      ScanUnsignedText(t);
    }
  }

  lemma SignedText(sign: string, whole: string, frac: string, rest: string)
    ensures sign + whole + "." + frac + rest == sign + (whole + ("." + (frac + rest)))
    ensures "" + whole + "." + frac + rest == whole + ("." + (frac + rest))
  {
  }

  /** `%lf` on text starting with '-' negates what follows. */
  lemma ScanMinus(t: string)
    ensures ScanReal("-" + t) == match ScanMagnitude(t)
      case None => None
      case Some((magnitude, rest)) => Some((-magnitude, rest))
  {
    assert ("-" + t)[0] == '-' && ("-" + t)[1..] == t;
  }

  /** `%lf` on text without a sign reads just the magnitude. */
  lemma ScanUnsignedText(t: string)
    requires t == [] || (t[0] != '-' && t[0] != '+')
    ensures ScanReal(t) == ScanMagnitude(t)
  {
  }

  /** The unsigned number `whole.frac`, followed by a character that cannot
      continue it, is read in full. */
  lemma MagnitudeOfFixedPoint(t: string, whole: string, frac: string, rest: string)
    requires 1 <= |whole| && AllDigits(whole) && AllDigits(frac)
    requires rest == [] || !(IsDigit(rest[0]) || rest[0] == '.')
    requires t == whole + ("." + (frac + rest))
    ensures ScanMagnitude(t) == Some((FixedPointValue(whole, frac), rest))
  {
    UnsignedFixedPoint(whole, frac, rest);
    var u := t[|whole| + 1..];
    assert u[..|frac|] == frac && u[|frac|..] == rest;
  }

  lemma UnsignedFixedPoint(whole: string, frac: string, rest: string)
    requires 1 <= |whole| && AllDigits(whole) && AllDigits(frac)
    requires rest == [] || !(IsDigit(rest[0]) || rest[0] == '.')
    ensures var t := whole + ("." + (frac + rest));
      && LeadingDigits(t) == |whole| && t[..|whole|] == whole && t[|whole|] == '.'
      && t[|whole| + 1..] == frac + rest
      && LeadingDigits(frac + rest) == |frac| && (frac + rest)[..|frac|] == frac
      && (frac + rest)[|frac|..] == rest
  {
    var u := frac + rest;
    var t := whole + ("." + u);
    LeadingDigitsOfRun(whole, "." + u);
    assert t[..|whole|] == whole && t[|whole|] == '.' && t[|whole| + 1..] == u;
    LeadingDigitsOfRun(frac, rest);
    assert u[..|frac|] == frac && u[|frac|..] == rest;
  }

  /** `%llu` reads back exactly the value `%lu` printed. */
  lemma TimestampRoundTrip(ts: u64, rest: string)
    requires rest == [] || !IsDigit(rest[0])
    ensures ScanU64(Decimal(ts) + rest) == Some((ts, rest))
  {
    LeadingDigitsOfRun(Decimal(ts), rest);
    assert (Decimal(ts) + rest)[..|Decimal(ts)|] == Decimal(ts);
    ValueOfDecimal(ts);
  }

  /** The value of the decimal text `whole.frac`. */
  function FixedPointValue(whole: string, frac: string): real
    requires AllDigits(whole) && AllDigits(frac)
  {
    Value(whole) as real + Value(frac) as real / Pow10(|frac|) as real
  }

  /** `%lf`: an optional sign, then the longest number `ScanMagnitude`
      reads. Gives the value and the text after it. */
  function ScanReal(s: string): (r: Option<(real, string)>)
    ensures r.Some? ==> |r.value.1| < |s| && r.value.1 == s[|s| - |r.value.1|..]
  {
    var signed := |s| > 0 && (s[0] == '-' || s[0] == '+');
    var negative := |s| > 0 && s[0] == '-';
    match ScanMagnitude(if signed then s[1..] else s)
    case None => None
    case Some((magnitude, rest)) => Some((if negative then -magnitude else magnitude, rest))
  }

  /** The unsigned part of `%lf`: digits and an optional '.' with more
      digits, at least one digit in all; the longest such prefix is read. */
  function ScanMagnitude(t: string): (r: Option<(real, string)>)
    ensures r.Some? ==> |r.value.1| < |t| && r.value.1 == t[|t| - |r.value.1|..]
  {
    var i := LeadingDigits(t);
    if i < |t| && t[i] == '.' then
      var u := t[i + 1..];
      var f := LeadingDigits(u);
      if i + f == 0 then None
      else Some((FixedPointValue(t[..i], u[..f]), u[f..]))
    else if i == 0 then None
    else Some((FixedPointValue(t[..i], []), t[i..]))
  }

  /** The unsigned part of `%lf` matches exactly when the text starts with
      a digit, or with '.' and a digit; what it reads is never negative. */
  lemma ScanMagnitudeStart(t: string)
    ensures ScanMagnitude(t).Some? <==> (|t| > 0 && IsDigit(t[0])) || (|t| > 1 && t[0] == '.' && IsDigit(t[1]))
    ensures ScanMagnitude(t).Some? ==> ScanMagnitude(t).value.0 >= 0.0
  {
    var i := LeadingDigits(t);
    if |t| > 0 && IsDigit(t[0]) {
      assert i >= 1;
    } else if |t| > 0 && t[0] == '.' {
      assert i == 0;
      var u := t[1..];
      assert |t| > 1 ==> u[0] == t[1];
      assert LeadingDigits(u) > 0 <==> |u| > 0 && IsDigit(u[0]);
    } else {
      assert i == 0;
    }
  }

  /** `%llu`: a run of digits; a value past 2^64 - 1 reads as 2^64 - 1. */
  function ScanU64(s: string): (r: Option<(u64, string)>)
    ensures r.Some? ==> |r.value.1| < |s| && r.value.1 == s[|s| - |r.value.1|..]
  {
    var k := LeadingDigits(s);
    if k == 0 then None
    else
      var v := Value(s[..k]);
      Some((if v < TWO_TO_64 then v else TWO_TO_64 - 1, s[k..]))
  }

  // ---------------------------------------------------------------------
  // The frame

  const OPEN: string := "{\"instrument\":\""
  const BID_KEY: string := "\",\"bid\":"
  const ASK_KEY: string := ",\"ask\":"
  const TS_KEY: string := ",\"timestamp_ns\":"
  const CLOSE: string := "}"

  /** `to_json`: the four fields in fixed order, no whitespace, no newline.
      The instrument is the record's name up to its first NUL (`%s`). */
  function ToJson(d: MarketData): (r: string)
    requires NUL in d.instrument
    ensures OPEN <= r && r[|r| - 1] == '}'
    ensures |OPEN| + |CString(d.instrument)| < |r|
    ensures r[|OPEN|..|OPEN| + |CString(d.instrument)|] == CString(d.instrument)
  {
    var name := CString(d.instrument);
    var tail := FrameTail(RenderPrice(d.bid), RenderPrice(d.ask), Decimal(d.timestampNs));
    assert (OPEN + name + tail)[..|OPEN| + |name|] == OPEN + name;
    OPEN + name + tail
  }

  /** The frame text from the closing quote of the name on. */
  function FrameTail(bid: string, ask: string, ts: string): (r: string)
    ensures NUL !in bid && NUL !in ask && NUL !in ts ==> NUL !in r
  {
    BID_KEY + bid + (ASK_KEY + ask + (TS_KEY + ts + CLOSE))
  }

  /** Size of the `char` buffer `to_json` formats into. */
  const FORMAT_BUFFER: nat := 256

  /** `to_json` as written: `snprintf` into `char[256]` writes at most 255
      characters and a NUL but returns the length the whole frame needs, and
      `std::string(buffer, len)` copies `len` bytes from the buffer. A frame
      that fits is returned in full; one of exactly 256 characters comes back
      with its last character replaced by NUL; a longer one makes the copy
      read past the end of the buffer, which has no defined result (None). */
  function SnprintfFrame(d: MarketData): (r: Option<string>)
    requires NUL in d.instrument
    ensures r.Some? <==> |ToJson(d)| <= FORMAT_BUFFER
    ensures |ToJson(d)| < FORMAT_BUFFER ==> r == Some(ToJson(d))
    ensures |ToJson(d)| == FORMAT_BUFFER ==>
      && r.Some? && |r.value| == FORMAT_BUFFER
      && r.value[..FORMAT_BUFFER - 1] == ToJson(d)[..FORMAT_BUFFER - 1]
      && r.value[FORMAT_BUFFER - 1] == NUL
  {
    var frame := ToJson(d);
    if |frame| < FORMAT_BUFFER then Some(frame)
    else if |frame| == FORMAT_BUFFER then Some(frame[..FORMAT_BUFFER - 1] + [NUL])
    else None
  }

  /** A whole-number price is printed with its integral digits in full. */
  lemma HundredthsOfWhole(k: nat)
    ensures Hundredths(k as real) == 100 * k
  {
    HundredthsUnique(k as real, 100 * k);
  }

  /** A bid of 10^n prints with n + 1 integral digits. */
  lemma RenderedPowerLength(n: nat)
    requires n >= 1
    ensures |RenderPrice(Pow10(n) as real)| > n
  {
    var k := Pow10(n);
    HundredthsOfWhole(k);
    DecimalLength(k, n);
    assert (100 * k) / 100 == k;
  }

  /** Counterexample: a record whose bid is 10^n with n >= 256 (a finite
      `double`, as 10^300 is) has a frame longer than the buffer, so
      `to_json` as written copies bytes from beyond `buffer`. */
  lemma SnprintfOverRead(d: MarketData, n: nat)
    requires NUL in d.instrument
    requires n >= FORMAT_BUFFER && d.bid == Pow10(n) as real
    ensures |ToJson(d)| > FORMAT_BUFFER
    ensures SnprintfFrame(d) == None
  {
    ToJsonLayout(d);
    RenderedPowerLength(n);
  }

  /** The four values `sscanf` converts. */
  datatype Fields = Fields(instrument: string, bid: real, ask: real, timestampNs: u64)

  /** Number of leading characters of `s` that are not '"', at most 15:
      how far `%15[^"]` reads. */
  function QuoteFreeRun(s: string): (k: nat)
    ensures k <= |s| && k <= INSTRUMENT_MAX
    ensures forall i :: 0 <= i < k ==> s[i] != '"'
    ensures k < |s| && k < INSTRUMENT_MAX ==> s[k] == '"'
  {
    if s == [] || s[0] == '"' then 0
    else
      var k := if |s| == 1 then 0 else QuoteFreeRun(s[1..]);
      if k < INSTRUMENT_MAX then 1 + k else INSTRUMENT_MAX
  }

  /** The `sscanf` pattern of `from_json` over `json.c_str()`: the four
      conversions in order, each with its literal text before it, or None as
      soon as any literal or conversion fails to match. Whatever follows the
      timestamp is not examined. */
  function Scan(json: string): (r: Option<Fields>)
    ensures r.Some? ==> 1 <= |r.value.instrument| <= INSTRUMENT_MAX
    ensures r.Some? ==> '"' !in r.value.instrument && NUL !in r.value.instrument
  {
    var text := CString(json);
    var r := ScanFrame(text);
    if r.Some? then NulFreeInfix(text, |OPEN|, r.value.instrument); r else r
  }

  /** The literal `{"instrument":"` and everything after it. */
  function ScanFrame(s: string): (r: Option<Fields>)
    ensures r.Some? ==> 1 <= |r.value.instrument| <= INSTRUMENT_MAX
    ensures r.Some? ==> '"' !in r.value.instrument
    ensures r.Some? ==> |OPEN| <= |s| && r.value.instrument <= s[|OPEN|..]
  {
    if !(OPEN <= s) then None else ScanInstrument(s[|OPEN|..])
  }

  /** Text taken from inside a NUL-free string holds no NUL. */
  lemma NulFreeInfix(s: string, k: nat, a: string)
    requires NUL !in s && k <= |s| && a <= s[k..]
    ensures NUL !in a
  {
    forall i | 0 <= i < |a|
      ensures a[i] != NUL
    {
      assert a[i] == s[k + i] && s[k + i] in s;
    }
  }

  /** `%15[^"]` and the literal `","bid":` after it. */
  function ScanInstrument(s: string): (r: Option<Fields>)
    ensures r.Some? ==> 1 <= |r.value.instrument| <= INSTRUMENT_MAX
    ensures r.Some? ==> '"' !in r.value.instrument && r.value.instrument <= s
    ensures r.Some? ==> BID_KEY <= s[|r.value.instrument|..]
  {
    var n := QuoteFreeRun(s);
    if n == 0 || !(BID_KEY <= s[n..]) then None
    else ScanBid(s[..n], s[n + |BID_KEY|..])
  }

  /** `%lf` for the bid and the literal `,"ask":` after it. */
  function ScanBid(name: string, s: string): (r: Option<Fields>)
    ensures r.Some? ==> r.value.instrument == name
    ensures r.Some? ==> ScanReal(s).Some? && r.value.bid == ScanReal(s).value.0
  {
    match ScanReal(s)
    case None => None
    case Some((bid, rest)) =>
      if !(ASK_KEY <= rest) then None else ScanAsk(name, bid, rest[|ASK_KEY|..])
  }

  /** `%lf` for the ask and the literal `,"timestamp_ns":` after it. */
  function ScanAsk(name: string, bid: real, s: string): (r: Option<Fields>)
    ensures r.Some? ==> r.value.instrument == name && r.value.bid == bid
    ensures r.Some? ==> ScanReal(s).Some? && r.value.ask == ScanReal(s).value.0
  {
    match ScanReal(s)
    case None => None
    case Some((ask, rest)) =>
      if !(TS_KEY <= rest) then None else ScanTimestamp(name, bid, ask, rest[|TS_KEY|..])
  }

  /** `%llu` for the timestamp: the last conversion. */
  function ScanTimestamp(name: string, bid: real, ask: real, s: string): (r: Option<Fields>)
    ensures r.Some? <==> ScanU64(s).Some?
    ensures r.Some? ==> r.value.instrument == name && r.value.bid == bid && r.value.ask == ask
    ensures r.Some? ==> r.value.timestampNs == ScanU64(s).value.0
  {
    match ScanU64(s)
    case None => None
    case Some((ts, _)) => Some(Fields(name, bid, ask, ts))
  }

  /** After the literal `{"instrument":"`, `sscanf` goes on with the
      name conversion over the rest of the C string. */
  lemma ScanAfterOpen(name: string, rest: string)
    requires NUL !in name
    ensures Scan(OPEN + name + rest) == ScanInstrument(name + CString(rest))
  {
    OpenedText(name, rest);
    ScanOpened(OPEN + name + rest, name + CString(rest));
  }

  lemma OpenedText(name: string, rest: string)
    requires NUL !in name
    ensures CString(OPEN + name + rest) == OPEN + (name + CString(rest))
  {
    assert NUL !in OPEN;
    NulFreeConcat(OPEN, name);
    CStringOfPlainPrefix(OPEN + name, rest);
    Assoc(OPEN, name, CString(rest));
  }

  lemma Assoc(a: string, b: string, c: string)
    ensures a + b + c == a + (b + c)
  {
  }

  lemma NulFreeConcat(a: string, b: string)
    requires NUL !in a && NUL !in b
    ensures NUL !in a + b
  {
  }

  /** A literal key followed by `x`: the key matches and `x` is what is
      left after it. */
  lemma KeyThen(key: string, x: string)
    requires |key| > 0
    ensures key <= key + x && (key + x)[|key|..] == x && (key + x)[0] == key[0]
  {
  }

  lemma ScanOpened(json: string, y: string)
    requires CString(json) == OPEN + y
    ensures Scan(json) == ScanInstrument(y)
  {
    assert (OPEN + y)[|OPEN|..] == y;
  }

  /** A name of 1 to 15 characters without '"' is captured in full by
      `%15[^"]` when a quote follows it (or when it has 15 characters), and
      matching continues at that point. */
  lemma NameCaptured(name: string, x: string)
    requires 1 <= |name| <= INSTRUMENT_MAX && '"' !in name
    requires x == [] || x[0] == '"' || |name| == INSTRUMENT_MAX
    ensures ScanInstrument(name + x)
      == if BID_KEY <= x then ScanBid(name, x[|BID_KEY|..]) else None
  {
    var s := name + x;
    QuoteFreeRunOfName(name, x);
    assert s[..|name|] == name && s[|name|..] == x;
  }

  lemma QuoteFreeRunOfName(name: string, x: string)
    requires |name| <= INSTRUMENT_MAX && '"' !in name
    requires x == [] || x[0] == '"' || |name| == INSTRUMENT_MAX
    ensures QuoteFreeRun(name + x) == |name|
  {
    var s := name + x;
    assert forall i :: 0 <= i < |name| ==> s[i] == name[i] && name[i] in name;
    assert x != [] ==> s[|name|] == x[0];
  }

  /** `sscanf` from the ask price on, over the text `to_json` printed. */
  lemma AskStage(name: string, bid: real, ask: real, ts: u64, s: string)
    requires s == RenderPrice(ask) + (TS_KEY + Decimal(ts) + CLOSE)
    ensures ScanAsk(name, bid, s) == Some(Fields(name, bid, Rounded(ask), ts))
  {
    var rest := TS_KEY + Decimal(ts) + CLOSE;
    Assoc(TS_KEY, Decimal(ts), CLOSE);
    KeyThen(TS_KEY, Decimal(ts) + CLOSE);
    PriceRoundTrip(ask, rest);
    TimestampRoundTrip(ts, CLOSE);
  }

  /** `sscanf` from the bid price on, over the text `to_json` printed. */
  lemma BidStage(name: string, d: MarketData, s: string)
    requires s == RenderPrice(d.bid) + (ASK_KEY + RenderPrice(d.ask) + (TS_KEY + Decimal(d.timestampNs) + CLOSE))
    ensures ScanBid(name, s) == Some(Fields(name, Rounded(d.bid), Rounded(d.ask), d.timestampNs))
  {
    var s2 := RenderPrice(d.ask) + (TS_KEY + Decimal(d.timestampNs) + CLOSE);
    var rest := ASK_KEY + s2;
    Assoc(ASK_KEY, RenderPrice(d.ask), TS_KEY + Decimal(d.timestampNs) + CLOSE);
    KeyThen(ASK_KEY, s2);
    PriceRoundTrip(d.bid, rest);
    AskStage(name, Rounded(d.bid), d.ask, d.timestampNs, s2);
  }

  /** After a name of 1 to 15 characters, `sscanf` expects the literal
      `","bid":` and goes on with the bid conversion. */
  lemma ScanAfterName(name: string, rest: string)
    requires 1 <= |name| <= INSTRUMENT_MAX && '"' !in name && NUL !in name
    requires rest == [] || rest[0] == '"'
    ensures Scan(OPEN + name + rest)
      == if BID_KEY <= CString(rest) then ScanBid(name, CString(rest)[|BID_KEY|..]) else None
  {
    ScanAfterOpen(name, rest);
    NameCaptured(name, CString(rest));
  }

  lemma CStringOfPlain(s: string)
    requires NUL !in s
    ensures CString(s) == s
  {
    CStringOfPlainPrefix(s, []);
    assert s + [] == s;
  }

  /** `to_json` laid out as the literal opening, the name and the tail. */
  lemma ToJsonLayout(d: MarketData)
    requires NUL in d.instrument
    ensures ToJson(d) == OPEN + CString(d.instrument)
      + FrameTail(RenderPrice(d.bid), RenderPrice(d.ask), Decimal(d.timestampNs))
    ensures NUL !in FrameTail(RenderPrice(d.bid), RenderPrice(d.ask), Decimal(d.timestampNs))
  {
    var p1 := RenderPrice(d.bid);
    var p2 := RenderPrice(d.ask);
    assert NUL !in p1 && NUL !in p2 && NUL !in Decimal(d.timestampNs);
  }

  /** Round trip: for a record whose name has 1 to 15 characters and no
      '"', `sscanf` over the `to_json` frame succeeds and gives back the
      name and the timestamp exactly and each price rounded to hundredths. */
  lemma JsonRoundTrip(d: MarketData)
    requires NUL in d.instrument
    requires 1 <= |CString(d.instrument)| && '"' !in CString(d.instrument)
    ensures Scan(ToJson(d))
      == Some(Fields(CString(d.instrument), Rounded(d.bid), Rounded(d.ask), d.timestampNs))
  {
    var name := CString(d.instrument);
    var tail := FrameTail(RenderPrice(d.bid), RenderPrice(d.ask), Decimal(d.timestampNs));
    ToJsonLayout(d);
    CStringOfPlain(tail);
    TailAfterBidKey(RenderPrice(d.bid), RenderPrice(d.ask), Decimal(d.timestampNs));
    ScanAfterName(name, tail);
    BidStage(name, d, tail[|BID_KEY|..]);
  }

  lemma TailAfterBidKey(bid: string, ask: string, ts: string)
    ensures BID_KEY <= FrameTail(bid, ask, ts)
    ensures FrameTail(bid, ask, ts)[|BID_KEY|..] == bid + (ASK_KEY + ask + (TS_KEY + ts + CLOSE))
  {
  }

  /** What a reader of the frame of a well-formed record recovers: its whole
      instrument field, its timestamp, and its prices to two decimals. */
  lemma DecodedRecord(d: MarketData)
    requires WellFormed(d)
    requires 1 <= |CString(d.instrument)| && '"' !in CString(d.instrument)
    ensures NUL in d.instrument
    ensures Scan(ToJson(d)).Some?
    ensures Padded(Scan(ToJson(d)).value.instrument) == d.instrument
    ensures Scan(ToJson(d)).value.timestampNs == d.timestampNs
    ensures Scan(ToJson(d)).value.bid == Rounded(d.bid)
    ensures Scan(ToJson(d)).value.ask == Rounded(d.ask)
  {
    assert d.instrument[INSTRUMENT_MAX] == NUL;
    JsonRoundTrip(d);
  }

  /** The two-decimal rounding of two sample prices. */
  lemma RoundedExample()
    ensures Rounded(2850.123) == 2850.12 && Rounded(2850.456) == 2850.46
  {
    HundredthsUnique(2850.123, 285012);
    HundredthsUnique(2850.456, 285046);
  }

  /** Prices exactly halfway between two hundredths (eighths, which a
      `double` holds exactly) round to the even hundredth. */
  lemma RoundedTies()
    ensures Rounded(0.125) == 0.12 && Rounded(2850.125) == 2850.12
    ensures Rounded(0.375) == 0.38 && Rounded(-0.125) == -0.12
  {
    HundredthsUnique(0.125, 12);
    HundredthsUnique(2850.125, 285012);
    HundredthsUnique(0.375, 38);
    HundredthsUnique(-0.125, -12);
  }

  lemma RelianceName(f: Field16)
    requires f == Padded("RELIANCE")
    ensures NUL in f && CString(f) == "RELIANCE"
  {
    var pad := f[|"RELIANCE"|..];
    assert f == "RELIANCE" + pad && pad[0] == NUL;
    CStringOfPlainPrefix("RELIANCE", pad);
  }

  /** A sample tick through the codec: the name and timestamp come back
      as they were, the prices as 2850.12 and 2850.46. */
  lemma RelianceRoundTrip(d: MarketData)
    requires d == MarketData(Padded("RELIANCE"), 2850.123, 2850.456, 123456789)
    ensures NUL in d.instrument
    ensures Scan(ToJson(d)) == Some(Fields("RELIANCE", 2850.12, 2850.46, 123456789))
  {
    RelianceName(d.instrument);
    RoundedExample();
    JsonRoundTrip(d);
  }

  /** `%15[^"]` must match at least one character: an empty name fails. */
  lemma EmptyInstrumentRejected(rest: string)
    requires rest == [] || rest[0] == '"'
    ensures Scan(OPEN + rest) == None
  {
    ScanAfterOpen([], rest);
    assert OPEN + [] + rest == OPEN + rest;
    assert [] + CString(rest) == CString(rest);
    assert QuoteFreeRun(CString(rest)) == 0;
  }

  /** A name of more than 15 characters fails: `%15[^"]` stops after 15 and
      the 16th character does not match the closing quote. */
  lemma LongInstrumentRejected(name: string, rest: string)
    requires |name| > INSTRUMENT_MAX && '"' !in name && NUL !in name
    ensures Scan(OPEN + name + rest) == None
  {
    ScanAfterOpen(name, rest);
    LongNameCut(name, CString(rest));
  }

  lemma LongNameCut(name: string, y: string)
    requires |name| > INSTRUMENT_MAX && '"' !in name
    ensures ScanInstrument(name + y) == None
  {
    var head := name[..INSTRUMENT_MAX];
    var x := name[INSTRUMENT_MAX..] + y;
    assert name + y == head + x;
    assert forall c :: c in head ==> c in name;
    NameCaptured(head, x);
    assert x[0] == name[INSTRUMENT_MAX];
    assert name[INSTRUMENT_MAX] in name;
  }

  /** `","ask":`: the text a frame with its price keys swapped has where
      `","bid":` belongs. */
  const ASK_FIRST: string := "\",\"ask\":"

  /** A frame with `"ask"` before `"bid"` fails at the `"bid"` key. */
  lemma KeysOutOfOrderRejected(name: string, rest: string)
    requires 1 <= |name| <= INSTRUMENT_MAX && '"' !in name && NUL !in name
    ensures Scan(OPEN + name + ASK_FIRST + rest) == None
  {
    assert OPEN + name + ASK_FIRST + rest == OPEN + name + (ASK_FIRST + rest);
    ScanAfterName(name, ASK_FIRST + rest);
    CStringOfPlainPrefix(ASK_FIRST, rest);
    var x := ASK_FIRST + CString(rest);
    assert x[3] != BID_KEY[3];
  }

  /** A frame that ends after the ask price, without the timestamp, fails
      at the `"timestamp_ns"` key. */
  lemma MissingTimestampRejected(name: string, bid: real, ask: real)
    requires 1 <= |name| <= INSTRUMENT_MAX && '"' !in name && NUL !in name
    ensures Scan(OPEN + name + (BID_KEY + RenderPrice(bid) + (ASK_KEY + RenderPrice(ask) + CLOSE))) == None
  {
    var p1 := RenderPrice(bid);
    var p2 := RenderPrice(ask);
    var tail := BID_KEY + p1 + (ASK_KEY + p2 + CLOSE);
    TruncatedTail(p1, p2);
    CStringOfPlain(tail);
    ScanAfterName(name, tail);
    MissingTimestampStage(name, bid, ask);
  }

  lemma TruncatedTail(p1: string, p2: string)
    requires forall i :: 0 <= i < |p1| ==> IsDigit(p1[i]) || p1[i] == '-' || p1[i] == '.'
    requires forall i :: 0 <= i < |p2| ==> IsDigit(p2[i]) || p2[i] == '-' || p2[i] == '.'
    ensures NUL !in BID_KEY + p1 + (ASK_KEY + p2 + CLOSE)
    ensures BID_KEY <= BID_KEY + p1 + (ASK_KEY + p2 + CLOSE)
    ensures (BID_KEY + p1 + (ASK_KEY + p2 + CLOSE))[|BID_KEY|..] == p1 + (ASK_KEY + p2 + CLOSE)
  {
    assert NUL !in p1 && NUL !in p2;
  }

  lemma MissingTimestampStage(name: string, bid: real, ask: real)
    ensures ScanBid(name, RenderPrice(bid) + (ASK_KEY + RenderPrice(ask) + CLOSE)) == None
  {
    var p2 := RenderPrice(ask);
    Assoc(ASK_KEY, p2, CLOSE);
    KeyThen(ASK_KEY, p2 + CLOSE);
    PriceRoundTrip(bid, ASK_KEY + p2 + CLOSE);
    PriceRoundTrip(ask, CLOSE);
    assert !(TS_KEY <= CLOSE);
  }

  /** White space as `isspace` knows it in the C locale: ' ' and '\t'
      through '\r'. */
  predicate IsSpace(c: char) {
    c == ' ' || '\t' <= c <= '\r'
  }

  /** `%lf` skips white space and then needs a sign, a digit, a '.' or the
      start of "inf", "infinity" or "nan"; anything else (another letter, a
      quote) ends the match at the bid. */
  lemma NonNumericBidRejected(name: string, rest: string)
    requires 1 <= |name| <= INSTRUMENT_MAX && '"' !in name && NUL !in name
    requires rest == [] || !(IsDigit(rest[0]) || rest[0] == '-' || rest[0] == '+' || rest[0] == '.')
    requires rest == [] || !(IsSpace(rest[0]) || rest[0] in "iInN")
    ensures Scan(OPEN + name + BID_KEY + rest) == None
  {
    assert OPEN + name + BID_KEY + rest == OPEN + name + (BID_KEY + rest);
    ScanAfterName(name, BID_KEY + rest);
    CStringOfPlainPrefix(BID_KEY, rest);
    var x := BID_KEY + CString(rest);
    assert x[|BID_KEY|..] == CString(rest);
    var c := CString(rest);
    assert c == [] || c[0] == rest[0];
    assert LeadingDigits(c) == 0;
  }

  /** `from_json`: on a full match, the record's instrument is cleared and
      the captured name copied into it, and the prices and timestamp are
      assigned; otherwise `false` and `data` is returned untouched. */
  method FromJson(json: string, data: MarketData) returns (ok: bool, out: MarketData)
    ensures ok <==> Scan(json).Some?
    ensures !ok ==> out == data
    ensures ok ==> var f := Scan(json).value;
      && out.instrument == Padded(f.instrument)
      && out.bid == f.bid && out.ask == f.ask && out.timestampNs == f.timestampNs
    ensures WellFormed(out) || out == data
  {
    var parsed := Scan(json);
    if parsed.None? {
      return false, data;
    }
    var f := parsed.value;
    var field := CopyInstrument(f.instrument);
    CStringOfPlainPrefix(f.instrument, []);
    assert f.instrument + [] == f.instrument;
    out := data.(instrument := field);
    out := out.(bid := f.bid, ask := f.ask, timestampNs := f.timestampNs);
    ok := true;
  }
}
