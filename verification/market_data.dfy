/**
 * The tick record `MarketData`: a 16-byte instrument name, two prices and a
 * nanosecond timestamp. Both constructors clear the instrument buffer byte by
 * byte (`memset`) and the value constructor then copies at most 15 characters
 * into it (`strncpy`), which always leaves a NUL-terminated, zero-padded name.
 *
 * Prices are `double` in the source; here they are carried as `real` values
 * that the record never computes with.
 */
module MarketDataRecord {
  import opened Base

  /** `sizeof(instrument)`. */
  const INSTRUMENT_SIZE: nat := 16

  /** Longest name the record keeps: `sizeof(instrument) - 1`. */
  const INSTRUMENT_MAX: nat := INSTRUMENT_SIZE - 1

  type Field16 = s: seq<char> | |s| == INSTRUMENT_SIZE witness seq(INSTRUMENT_SIZE, _ => NUL)

  datatype MarketData = MarketData(instrument: Field16, bid: real, ask: real, timestampNs: u64)

  /** `text` followed by NUL bytes up to the 16-byte field. */
  function Padded(text: seq<char>): (f: Field16)
    requires |text| <= INSTRUMENT_SIZE
    ensures f[..|text|] == text
    ensures forall i :: |text| <= i < INSTRUMENT_SIZE ==> f[i] == NUL
  {
    text + seq(INSTRUMENT_SIZE - |text|, _ => NUL)
  }

  /** The `n` bytes `strncpy(dst, src, n)` writes: the C string `src`, cut
      at `n` characters, then NUL bytes until `n` have been written. */
  function StrncpyBytes(src: seq<char>, n: nat): (w: seq<char>)
    ensures |w| == n
    ensures forall i :: 0 <= i < n ==> w[i] == if i < |CString(src)| then CString(src)[i] else NUL
  {
    var t := CString(src);
    var k := if |t| < n then |t| else n;
    t[..k] + seq(n - k, _ => NUL)
  }

  /** The name a record keeps of `src`: its first (at most) 15 characters. */
  function KeptName(src: seq<char>): (t: seq<char>)
    ensures |t| <= INSTRUMENT_MAX && NUL !in t
    ensures t <= CString(src)
    ensures |t| < INSTRUMENT_MAX ==> t == CString(src)
  {
    var t := CString(src);
    if |t| <= INSTRUMENT_MAX then t else t[..INSTRUMENT_MAX]
  }

  /** The instrument buffer after `memset(instrument, 0, 16)` followed by
      `strncpy(instrument, src, 15)`: the last byte is always NUL, the
      buffer read as a C string is the kept name, and every byte after the
      name is zero. */
  function InstrumentField(src: seq<char>): (f: Field16)
    ensures f[INSTRUMENT_MAX] == NUL
    ensures CString(f) == KeptName(src)
    ensures f == Padded(KeptName(src))
  {
    var f := StrncpyBytes(src, INSTRUMENT_MAX) + [NUL];
    assert f == Padded(KeptName(src));
    CStringOfPlainPrefix(KeptName(src), f[|KeptName(src)|..]);
    assert f == KeptName(src) + f[|KeptName(src)|..];
    f
  }

  /** A record as the constructors and the decoder leave it: the name is a
      C string of at most 15 characters and every later byte is zero. */
  predicate WellFormed(m: MarketData) {
    |CString(m.instrument)| <= INSTRUMENT_MAX && m.instrument == Padded(CString(m.instrument))
  }

  /** `std::memset(instrument, 0, sizeof(instrument))` on a fresh buffer. */
  method Memset() returns (buf: array<char>)
    ensures fresh(buf) && buf.Length == INSTRUMENT_SIZE
    ensures forall i :: 0 <= i < buf.Length ==> buf[i] == NUL
  {
    buf := new char[INSTRUMENT_SIZE];
    var i := 0;
    while i < INSTRUMENT_SIZE
      invariant 0 <= i <= INSTRUMENT_SIZE
      invariant forall j :: 0 <= j < i ==> buf[j] == NUL
    {
      buf[i] := NUL;
      i := i + 1;
    }
  }

  /** `std::strncpy(dst, src, n)`: copy characters of `src` until its NUL or
      `n` of them, then fill with NUL until `n` bytes are written. Bytes from
      `n` on are not touched. */
  method Strncpy(dst: array<char>, src: seq<char>, n: nat)
    requires n <= dst.Length
    modifies dst
    ensures dst[..n] == StrncpyBytes(src, n)
    ensures dst[n..] == old(dst[n..])
  {
    var t := CString(src);
    ghost var w := StrncpyBytes(src, n);
    var i := 0;
    while i < n && i < |src| && src[i] != NUL
      invariant 0 <= i <= n && i <= |t|
      invariant forall j :: 0 <= j < i ==> dst[j] == w[j]
      invariant forall j :: i <= j < dst.Length ==> dst[j] == old(dst[j])
    {
      assert src[i] == t[i] == w[i];
      dst[i] := src[i];
      i := i + 1;
    }
    assert i == if |t| < n then |t| else n;
    while i < n
      invariant i <= n
      invariant forall j :: 0 <= j < i ==> dst[j] == w[j]
      invariant forall j :: i <= j < dst.Length ==> dst[j] == old(dst[j])
    {
      dst[i] := NUL;
      i := i + 1;
    }
    assert dst[..n] == w;
  }

  /** The instrument bytes both constructors and `from_json` build:
      `memset` to zero, then `strncpy` of at most 15 characters. */
  method CopyInstrument(src: seq<char>) returns (field: Field16)
    ensures field == InstrumentField(src)
  {
    var buf := Memset();
    Strncpy(buf, src, INSTRUMENT_MAX);
    assert buf[..] == buf[..INSTRUMENT_MAX] + buf[INSTRUMENT_MAX..];
    field := buf[..];
  }

  /** `MarketData()`: all-zero instrument, zero prices and timestamp. */
  method DefaultMarketData() returns (m: MarketData)
    ensures forall i :: 0 <= i < INSTRUMENT_SIZE ==> m.instrument[i] == NUL
    ensures m.bid == 0.0 && m.ask == 0.0 && m.timestampNs == 0
    ensures WellFormed(m) && CString(m.instrument) == []
  {
    var buf := Memset();
    m := MarketData(buf[..], 0.0, 0.0, 0);
    assert m.instrument == Padded([]);
  }

  /** `MarketData(instr, b, a, ts)`: prices and timestamp stored unchanged,
      instrument cut to 15 characters and zero-padded. */
  method NewMarketData(instr: seq<char>, b: real, a: real, ts: u64) returns (m: MarketData)
    ensures m.bid == b && m.ask == a && m.timestampNs == ts
    ensures m.instrument == InstrumentField(instr)
    ensures CString(m.instrument) == KeptName(instr)
    ensures WellFormed(m)
  {
    var field := CopyInstrument(instr);
    m := MarketData(field, b, a, ts);
  }
}
