/** The part of Go's `strings` and `strconv` packages that the service relies on:
    prefix tests, ASCII lower-casing, decimal formatting and `strconv.Atoi` with its
    error messages. */
module Strings {
  import opened Wrappers

  const MaxInt64: int := 0x7fff_ffff_ffff_ffff
  const MinInt64: int := -0x8000_0000_0000_0000
  const MaxUint64: int := 0xffff_ffff_ffff_ffff

  predicate IsInt64(n: int) {
    MinInt64 <= n <= MaxInt64
  }

  /** `strings.HasPrefix(s, p)`. */
  predicate HasPrefix(s: string, p: string) {
    |p| <= |s| && s[..|p|] == p
  }

  /** `unicode.ToLower` on ASCII letters; other characters are kept. */
  function LowerChar(c: char): char {
    if 'A' <= c <= 'Z' then (c as int + 32) as char else c
  }

  /** `strings.ToLower` on ASCII letters: same length, no capital letter left, and each
      character either kept or moved down by 32 from a capital. */
  function ToLower(s: string): (r: string)
    ensures |r| == |s|
    ensures forall i :: 0 <= i < |s| ==> !('A' <= r[i] <= 'Z')
    ensures forall i :: 0 <= i < |s| ==> r[i] == s[i] || ('A' <= s[i] <= 'Z' && r[i] as int == s[i] as int + 32)
  {
    seq(|s|, i requires 0 <= i < |s| => LowerChar(s[i]))
  }

  predicate IsDigit(c: char) {
    '0' <= c <= '9'
  }

  function DigitValue(c: char): nat
    requires IsDigit(c)
  {
    c as int - '0' as int
  }

  function DigitChar(d: nat): (c: char)
    requires d < 10
    ensures IsDigit(c) && DigitValue(c) == d
  {
    ('0' as int + d) as char
  }

  /** Decimal digits of a natural number, most significant first, no leading zeros. */
  function Digits(n: nat): (s: string)
    ensures |s| >= 1
    ensures forall i :: 0 <= i < |s| ==> IsDigit(s[i])
    decreases n
  {
    if n < 10 then [DigitChar(n)] else Digits(n / 10) + [DigitChar(n % 10)]
  }

  /** `strconv.FormatInt(n, 10)`. */
  function FormatInt(n: int): string {
    if n < 0 then "-" + Digits(-n) else Digits(n)
  }

  /** Outcome of reading decimal digits left to right into an unsigned 64-bit
      accumulator, as `strconv.ParseUint` does: a non-digit seen before the value
      overflows is a syntax error, an overflow seen first is a range error. */
  datatype DigitScan = Value(n: nat) | BadDigit | Overflow

  function ScanDigits(s: string, acc: nat): DigitScan
    decreases |s|
  {
    if s == [] then Value(acc)
    else if !IsDigit(s[0]) then BadDigit
    else if acc * 10 + DigitValue(s[0]) > MaxUint64 then Overflow
    else ScanDigits(s[1..], acc * 10 + DigitValue(s[0]))
  }

  /** Scanning a concatenation scans the first part, then continues from its value. */
  lemma {:induction false} ScanDigitsAppend(s: string, t: string, acc: nat)
    ensures ScanDigits(s + t, acc) ==
      match ScanDigits(s, acc)
      case Value(m) => ScanDigits(t, m)
      case other => other
    decreases |s|
  {
    if s != [] {
      assert (s + t)[0] == s[0] && (s + t)[1..] == s[1..] + t;
      if IsDigit(s[0]) && acc * 10 + DigitValue(s[0]) <= MaxUint64 {
        ScanDigitsAppend(s[1..], t, acc * 10 + DigitValue(s[0]));
      }
    } else {
      assert s + t == t;
    }
  }

  lemma {:induction false} ScanDigitsOfDigits(n: nat)
    requires n <= MaxUint64
    ensures ScanDigits(Digits(n), 0) == Value(n)
    decreases n
  {
    if n >= 10 {
      ScanDigitsOfDigits(n / 10);
      ScanDigitsAppend(Digits(n / 10), [DigitChar(n % 10)], 0);
      assert [DigitChar(n % 10)][1..] == [];
    }
  }

  /** Why `strconv.Atoi` refused its input. */
  datatype NumError = InvalidSyntax | OutOfRange

  /** The number `strconv.Atoi` reads from `s` (64-bit `int`), or why it refused it:
      one optional sign, then at least one decimal digit and nothing else. */
  function ParseInt(s: string): (r: Result<int, NumError>)
    ensures r.Ok? ==> IsInt64(r.value)
  {
    if s == [] then Err(InvalidSyntax)
    else
      var neg := s[0] == '-';
      var body := if s[0] == '-' || s[0] == '+' then s[1..] else s;
      if body == [] then Err(InvalidSyntax)
      else match ScanDigits(body, 0)
        case BadDigit => Err(InvalidSyntax)
        case Overflow => Err(OutOfRange)
        case Value(n) =>
          if !neg && n > MaxInt64 then Err(OutOfRange)
          else if neg && n > -MinInt64 then Err(OutOfRange)
          else Ok(if neg then -(n as int) else n as int)
  }

  /** Every 64-bit integer is read back from its decimal form. */
  lemma ParseFormatted(n: int)
    requires IsInt64(n)
    ensures ParseInt(FormatInt(n)) == Ok(n)
  {
    if n < 0 {
      ScanDigitsOfDigits(-n);
      assert ("-" + Digits(-n))[1..] == Digits(-n);
    } else {
      ScanDigitsOfDigits(n);
      assert Digits(n)[0] != '-' && Digits(n)[0] != '+';
    }
  }

  function HexDigit(d: nat): char
    requires d < 16
  {
    "0123456789abcdef"[d]
  }

  /** The escape `strconv.Quote` writes for one character; non-ASCII characters are kept. */
  function Escape(c: char): string {
    if c == '"' then "\\\""
    else if c == '\\' then "\\\\"
    else if c == 7 as char then "\\a"
    else if c == 8 as char then "\\b"
    else if c == 12 as char then "\\f"
    else if c == '\n' then "\\n"
    else if c == '\r' then "\\r"
    else if c == '\t' then "\\t"
    else if c == 11 as char then "\\v"
    else if c < ' ' || c == 127 as char then "\\x" + [HexDigit(c as int / 16), HexDigit(c as int % 16)]
    else [c]
  }

  function EscapeAll(s: string): string {
    if s == [] then "" else Escape(s[0]) + EscapeAll(s[1..])
  }

  /** `strconv.Quote(s)`: a double-quoted Go string literal. */
  function Quote(s: string): string {
    "\"" + EscapeAll(s) + "\""
  }

  /** `strconv.Atoi(s)`, with the error text its `*NumError` prints. */
  function Atoi(s: string): (r: Result<int, string>)
    ensures r.Ok? <==> ParseInt(s).Ok?
    ensures r.Ok? ==> r.value == ParseInt(s).value
    ensures r.Err? ==> HasPrefix(r.error, "strconv.Atoi: parsing " + Quote(s) + ": ")
  {
    match ParseInt(s)
    case Ok(n) => Ok(n)
    case Err(InvalidSyntax) => Err("strconv.Atoi: parsing " + Quote(s) + ": invalid syntax")
    case Err(OutOfRange) => Err("strconv.Atoi: parsing " + Quote(s) + ": value out of range")
  }

  /** An empty string is a syntax error, reported with its quoted (empty) form. */
  lemma AtoiEmpty()
    ensures Atoi("") == Err("strconv.Atoi: parsing \"\": invalid syntax")
  {
    assert Quote("") == "\"\"";
    assert ParseInt("") == Err(InvalidSyntax);
    assert "strconv.Atoi: parsing " + "\"\"" + ": invalid syntax" == "strconv.Atoi: parsing \"\": invalid syntax";
  }
}
