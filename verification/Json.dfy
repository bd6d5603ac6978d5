/** The JSON text the provider writes and reads: `json.dumps` with `ensure_ascii` and `sort_keys`,
    and `json.loads` restricted to objects whose values are strings.

    A Python `str` is a sequence of code points in which lone surrogates may occur; a Dafny `string`
    is a sequence of Unicode scalar values, in which they may not. */
module Json {
  import opened Wrappers

  type CodePoint = c: int | 0 <= c < 0x110000
  type Text = seq<CodePoint>

  function CodePoints(s: string): (t: Text)
  {
    seq(|s|, i requires 0 <= i < |s| => s[i] as int)
  }

  predicate IsHigh(c: int) {
    0xD800 <= c <= 0xDBFF
  }

  predicate IsLow(c: int) {
    0xDC00 <= c <= 0xDFFF
  }

  // ----- String literals: encoding ---------------------------------------------------------

  function HexDigit(d: int): char
    requires 0 <= d < 16
  {
    "0123456789abcdef"[d]
  }

  function HexValue(c: char): Option<int>
  {
    if '0' <= c <= '9' then Some(c as int - '0' as int)
    else if 'a' <= c <= 'f' then Some(c as int - 'a' as int + 10)
    else if 'A' <= c <= 'F' then Some(c as int - 'A' as int + 10)
    else None
  }

  /** `n` as `width` lower-case hexadecimal digits. */
  function Hex(n: nat, width: nat): (h: string)
    ensures |h| == width
  {
    if width == 0 then "" else Hex(n / 16, width - 1) + [HexDigit(n % 16)]
  }

  function UnitEscape(n: nat): string
  {
    ['\\', 'u'] + Hex(n, 4)
  }

  function HighUnit(c: CodePoint): int
    requires c >= 0x10000
  {
    0xD800 + (c - 0x10000) / 1024
  }

  function LowUnit(c: CodePoint): int
    requires c >= 0x10000
  {
    0xDC00 + (c - 0x10000) % 1024
  }

  function JoinUnits(high: int, low: int): CodePoint
    requires IsHigh(high) && IsLow(low)
  {
    0x10000 + (high - 0xD800) * 1024 + (low - 0xDC00)
  }

  function Escape(c: CodePoint): string
  {
    if c == '\"' as int then ['\\', '\"']
    else if c == '\\' as int then ['\\', '\\']
    else if c == 10 then ['\\', 'n']
    else if c == 13 then ['\\', 'r']
    else if c == 9 then ['\\', 't']
    else if c == 12 then ['\\', 'f']
    else if c == 8 then ['\\', 'b']
    else if 0x20 <= c <= 0x7E then [c as char]
    else if c < 0x10000 then UnitEscape(c)
    else UnitEscape(HighUnit(c)) + UnitEscape(LowUnit(c))
  }

  /** The escaped characters of `t`, the closing quote, and then `rest`. */
  function Closed(t: Text, rest: string): string
  {
    if t == [] then ['\"'] + rest else Escape(t[0]) + Closed(t[1..], rest)
  }

  /** `json.dumps` of a Python string, followed by `rest`. */
  function DumpText(t: Text, rest: string): string
  {
    ['\"'] + Closed(t, rest)
  }

  function DumpString(s: string, rest: string): string
  {
    DumpText(CodePoints(s), rest)
  }

  // ----- String literals: decoding ---------------------------------------------------------

  function Pow16(width: nat): nat
  {
    if width == 0 then 1 else 16 * Pow16(width - 1)
  }

  function ReadHex(h: string): (r: Option<nat>)
    ensures r.Some? ==> r.value < Pow16(|h|)
  {
    if h == "" then Some(0)
    else
      match (ReadHex(h[..|h| - 1]), HexValue(h[|h| - 1]))
      case (Some(high), Some(low)) => Some(16 * high + low)
      case _ => None
  }

  function ReadUnit(s: string): (r: Option<nat>)
    ensures r.Some? ==> r.value < 0x10000
  {
    assert Pow16(4) == 16 * Pow16(3) == 256 * Pow16(2) == 4096 * Pow16(1);
    if |s| >= 6 && s[0] == '\\' && s[1] == 'u' then ReadHex(s[2..6]) else None
  }

  function ShortEscape(c: char): Option<CodePoint>
  {
    match c
    case '\"' => Some('\"' as int)
    case '\\' => Some('\\' as int)
    case '/' => Some('/' as int)
    case 'b' => Some(8)
    case 'f' => Some(12)
    case 'n' => Some(10)
    case 'r' => Some(13)
    case 't' => Some(9)
    case _ => None
  }

  datatype Scanned<T> = NoScan | Scan(value: T, rest: string)

  function Prepend(c: CodePoint, tail: Scanned<Text>): Scanned<Text>
  {
    match tail
    case NoScan => NoScan
    case Scan(t, rest) => Scan([c] + t, rest)
  }

  /** The strict string scanner, entered after the opening quote. Two escaped units that form a
      surrogate pair become one code point; any other escaped unit stands for itself. */
  function ScanText(s: string): (r: Scanned<Text>)
    ensures r.Scan? ==> |r.rest| < |s|
    decreases |s|
  {
    if s == "" then NoScan
    else if s[0] == '\"' then Scan([], s[1..])
    else if s[0] != '\\' then
      if s[0] as int < 0x20 then NoScan else Prepend(s[0] as int, ScanText(s[1..]))
    else if |s| == 1 then NoScan
    else if s[1] != 'u' then
      match ShortEscape(s[1])
      case None => NoScan
      case Some(c) => Prepend(c, ScanText(s[2..]))
    else
      match ReadUnit(s)
      case None => NoScan
      case Some(unit) =>
        match (if IsHigh(unit) then ReadUnit(s[6..]) else None)
        case None => Prepend(unit, ScanText(s[6..]))
        case Some(next) =>
          if IsLow(next) then Prepend(JoinUnits(unit, next), ScanText(s[12..]))
          else Prepend(unit, ScanText(s[6..]))
  }

  /** What a dumped Python string decodes to: a high surrogate directly followed by a low one fuses. */
  function Fused(t: Text): Text
  {
    if t == [] then []
    else if |t| > 1 && IsHigh(t[0]) && IsLow(t[1]) then [JoinUnits(t[0], t[1])] + Fused(t[2..])
    else [t[0]] + Fused(t[1..])
  }

  ghost predicate HasSplitPair(t: Text)
  {
    exists i :: 0 <= i < |t| - 1 && IsHigh(t[i]) && IsLow(t[i + 1])
  }

  lemma HexDigitReads(d: int)
    requires 0 <= d < 16
    ensures HexValue(HexDigit(d)) == Some(d)
  {
  }

  lemma HexStep(h: string, d: int, n: nat)
    requires 0 <= d < 16 && ReadHex(h) == Some(n)
    ensures ReadHex(h + [HexDigit(d)]) == Some(16 * n + d)
  {
    HexDigitReads(d);
    assert (h + [HexDigit(d)])[..|h|] == h;
  }

  lemma HexSplits(n: nat, width: nat)
    requires width > 0
    ensures Hex(n, width) == Hex(n / 16, width - 1) + [HexDigit(n % 16)]
    ensures n < Pow16(width) ==> n / 16 < Pow16(width - 1)
  {
  }

  lemma {:induction false} ReadHexOfHex(n: nat, width: nat)
    requires n < Pow16(width)
    ensures ReadHex(Hex(n, width)) == Some(n)
  {
    if width == 0 {
    } else {
      hide Hex, Pow16, ReadHex, HexDigit;
      HexSplits(n, width);
      ReadHexOfHex(n / 16, width - 1);
      HexStep(Hex(n / 16, width - 1), n % 16, n / 16);
    }
  }

  lemma ReadUnitEscape(n: nat, rest: string)
    requires n < 0x10000
    ensures ReadUnit(UnitEscape(n) + rest) == Some(n)
  {
    var s := UnitEscape(n) + rest;
    assert s[2..6] == Hex(n, 4);
    assert Pow16(4) == 16 * Pow16(3) == 256 * Pow16(2) == 4096 * Pow16(1);
    ReadHexOfHex(n, 4);
  }

  lemma EscapeFirstUnit(t: Text, rest: string)
    requires t != []
    ensures IsLow(t[0]) ==> ReadUnit(Closed(t, rest)) == Some(t[0])
    ensures !IsLow(t[0]) ==> ReadUnit(Closed(t, rest)).None? || !IsLow(ReadUnit(Closed(t, rest)).value)
  {
    var s := Closed(t, rest);
    var tail := Closed(t[1..], rest);
    if t[0] >= 0x10000 {
      assert s == UnitEscape(HighUnit(t[0])) + (UnitEscape(LowUnit(t[0])) + tail);
      ReadUnitEscape(HighUnit(t[0]), UnitEscape(LowUnit(t[0])) + tail);
    } else if Escape(t[0]) == UnitEscape(t[0]) {
      ReadUnitEscape(t[0], tail);
    } else {
      assert s[0] == Escape(t[0])[0];
      if |Escape(t[0])| > 1 {
        assert s[1] == Escape(t[0])[1] != 'u';
      }
    }
  }

  predicate NeedsUnit(c: CodePoint) {
    c < 0x10000 && Escape(c) == UnitEscape(c)
  }

  lemma ScanShort(c: CodePoint, tail: string)
    requires c < 0x10000 && !NeedsUnit(c)
    ensures ScanText(Escape(c) + tail) == Prepend(c, ScanText(tail))
  {
    var s := Escape(c) + tail;
    if |Escape(c)| == 1 {
      assert s[1..] == tail;
    } else {
      assert s[2..] == tail;
    }
  }

  lemma ScanUnit(c: CodePoint, tail: string)
    requires c < 0x10000
    requires IsHigh(c) ==> ReadUnit(tail).None? || !IsLow(ReadUnit(tail).value)
    ensures ScanText(UnitEscape(c) + tail) == Prepend(c, ScanText(tail))
  {
    var s := UnitEscape(c) + tail;
    ReadUnitEscape(c, tail);
    assert s[6..] == tail;
  }

  lemma ScanPair(high: CodePoint, low: CodePoint, tail: string)
    requires IsHigh(high) && IsLow(low)
    ensures ScanText(UnitEscape(high) + UnitEscape(low) + tail) == Prepend(JoinUnits(high, low), ScanText(tail))
  {
    var s := UnitEscape(high) + UnitEscape(low) + tail;
    var afterHigh := UnitEscape(low) + tail;
    assert s == UnitEscape(high) + afterHigh;
    ReadUnitEscape(high, afterHigh);
    ReadUnitEscape(low, tail);
    assert s[6..] == afterHigh;
    assert s[12..] == tail;
  }

  lemma ScanFirst(t: Text, rest: string)
    requires t != [] && !(|t| > 1 && IsHigh(t[0]) && IsLow(t[1]))
    ensures ScanText(Closed(t, rest)) == Prepend(t[0], ScanText(Closed(t[1..], rest)))
  {
    var c := t[0];
    var tail := Closed(t[1..], rest);
    if c >= 0x10000 {
      assert Escape(c) == UnitEscape(HighUnit(c)) + UnitEscape(LowUnit(c));
      ScanPair(HighUnit(c), LowUnit(c), tail);
    } else if NeedsUnit(c) {
      if |t| > 1 {
        EscapeFirstUnit(t[1..], rest);
      } else {
        assert tail == ['\"'] + rest;
      }
      ScanUnit(c, tail);
    } else {
      ScanShort(c, tail);
    }
  }

  lemma ScanFirstTwo(t: Text, rest: string)
    requires |t| > 1 && IsHigh(t[0]) && IsLow(t[1])
    ensures ScanText(Closed(t, rest)) == Prepend(JoinUnits(t[0], t[1]), ScanText(Closed(t[2..], rest)))
  {
    assert t[1..][1..] == t[2..];
    var after := Closed(t[2..], rest);
    assert UnitEscape(t[0]) + (UnitEscape(t[1]) + after) == UnitEscape(t[0]) + UnitEscape(t[1]) + after;
    ScanPair(t[0], t[1], after);
  }

  /** Scanning a dumped string yields its fused form, for every Python string and continuation. */
  lemma {:induction false} ScanEscaped(t: Text, rest: string)
    ensures ScanText(Closed(t, rest)) == Scan(Fused(t), rest)
    decreases |t|
  {
    if t == [] {
    } else if |t| > 1 && IsHigh(t[0]) && IsLow(t[1]) {
      ScanFirstTwo(t, rest);
      ScanEscaped(t[2..], rest);
    } else {
      ScanFirst(t, rest);
      ScanEscaped(t[1..], rest);
    }
  }

  lemma {:induction false} FusedLength(t: Text)
    ensures |Fused(t)| <= |t|
    ensures HasSplitPair(t) ==> |Fused(t)| < |t|
    ensures !HasSplitPair(t) ==> Fused(t) == t
    decreases |t|
  {
    if t == [] {
    } else if |t| > 1 && IsHigh(t[0]) && IsLow(t[1]) {
      FusedLength(t[2..]);
      assert HasSplitPair(t);
    } else {
      FusedLength(t[1..]);
      if HasSplitPair(t) {
        var i :| 0 <= i < |t| - 1 && IsHigh(t[i]) && IsLow(t[i + 1]);
        assert i > 0 && t[1..][i - 1] == t[i] && t[1..][i] == t[i + 1];
        assert HasSplitPair(t[1..]);
      } else {
        assert forall i :: 0 <= i < |t[1..]| ==> t[1..][i] == t[i + 1];
      }
    }
  }

  /** `json.loads(json.dumps(t)) == t` for exactly the Python strings in which no high surrogate
      code point is directly followed by a low one. */
  lemma TextRoundTripsExactly(t: Text, rest: string)
    ensures ScanText(DumpText(t, rest)[1..]) == Scan(t, rest) <==> !HasSplitPair(t)
  {
    assert DumpText(t, rest)[1..] == Closed(t, rest);
    ScanEscaped(t, rest);
    FusedLength(t);
  }
}
