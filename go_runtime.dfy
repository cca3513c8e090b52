/**
 * The parts of Go's standard library that the handlers and services lean on:
 * strconv.Atoi / strconv.Itoa, strings.TrimSpace, strings.Split / strings.Join
 * with a one-character separator, the byte length `len(s)` of a UTF-8 string,
 * and the wrap-around of 64-bit `int` arithmetic.
 * A Go `rune` is a Dafny `char` (a Unicode scalar value).
 */
module GoRuntime {
  import opened Wrappers

  const MinInt64: int := -0x8000_0000_0000_0000
  const MaxInt64: int := 0x7FFF_FFFF_FFFF_FFFF
  const TwoTo64: int := 0x1_0000_0000_0000_0000

  /** Two's-complement wrap-around of a Go `int` (64 bits) result. */
  function Wrap64(x: int): (r: int)
    ensures MinInt64 <= r <= MaxInt64
    ensures MinInt64 <= x <= MaxInt64 ==> r == x
    ensures exists k: int :: r == x + k * TwoTo64
  {
    var m := (x - MinInt64) % TwoTo64;
    var k := -((x - MinInt64) / TwoTo64);
    assert m + MinInt64 == x + k * TwoTo64;
    m + MinInt64
  }

  // ---------------------------------------------------------------------------
  // strconv

  datatype NumError = ErrSyntax | ErrRange

  predicate IsDigit(c: char) { '0' <= c <= '9' }

  predicate AllDigits(s: string) { forall i :: 0 <= i < |s| ==> IsDigit(s[i]) }

  function DigitValue(c: char): nat
    requires IsDigit(c)
  { c as int - '0' as int }

  /** The value of a run of decimal digits, most significant first. */
  function DigitsValue(ds: string): nat
    requires AllDigits(ds)
  {
    if ds == [] then 0 else DigitsValue(ds[..|ds| - 1]) * 10 + DigitValue(ds[|ds| - 1])
  }

  /** The digits after an optional leading '+' or '-'. */
  function Unsigned(s: string): string
  {
    if |s| > 0 && (s[0] == '-' || s[0] == '+') then s[1..] else s
  }

  /** The syntax strconv.Atoi accepts: an optional sign followed by at least one ASCII digit. */
  predicate IsDecimal(s: string)
  {
    Unsigned(s) != [] && AllDigits(Unsigned(s))
  }

  /** The value a decimal string denotes, negated after a leading '-'. */
  function SignedValue(s: string): int
    requires IsDecimal(s)
  {
    var d: int := DigitsValue(Unsigned(s));
    if s[0] == '-' then -d else d
  }

  const MaxUint64: int := 0xFFFF_FFFF_FFFF_FFFF

  /** The run of digits a string starts with. */
  function LeadingDigits(s: string): (d: string)
    ensures AllDigits(d) && d <= s
    ensures |d| < |s| ==> !IsDigit(s[|d|])
  {
    if s == [] || !IsDigit(s[0]) then [] else [s[0]] + LeadingDigits(s[1..])
  }

  /** A string of digits is its own leading run. */
  lemma {:induction false} LeadingDigitsOfDigits(ds: string)
    requires AllDigits(ds)
    ensures LeadingDigits(ds) == ds
  {
    if ds != [] {
      LeadingDigitsOfDigits(ds[1..]);
    }
  }

  /**
   * Whether strconv.ParseUint overflows while scanning: it reads the digits
   * after the sign from the left and reports a range error as soon as they
   * exceed 64 unsigned bits, before it reaches any later non-digit.
   */
  predicate ScanOverflows(s: string)
  {
    DigitsValue(LeadingDigits(Unsigned(s))) > MaxUint64
  }

  /**
   * strconv.Atoi: an optional sign followed by at least one ASCII digit, whose
   * value fits in 64 bits. A digit run that overflows 64 unsigned bits is a
   * range error even when a non-digit follows it; any other malformed text is
   * a syntax error, and a well-formed value outside int64 a range error.
   */
  function Atoi(s: string): (r: Result<int, NumError>)
    ensures r == Failure(ErrSyntax) <==> !IsDecimal(s) && !ScanOverflows(s)
    ensures r == Failure(ErrRange) <==>
      ScanOverflows(s) || (IsDecimal(s) && !(MinInt64 <= SignedValue(s) <= MaxInt64))
    ensures r.Success? <==> IsDecimal(s) && MinInt64 <= SignedValue(s) <= MaxInt64
    ensures r.Success? ==> r.value == SignedValue(s) && MinInt64 <= r.value <= MaxInt64
    ensures r.Success? && s[0] != '-' ==> r.value >= 0
  {
    if IsDecimal(s) then
      LeadingDigitsOfDigits(Unsigned(s));
      var v := SignedValue(s);
      if v < MinInt64 || v > MaxInt64 then Failure(ErrRange) else Success(v)
    else if ScanOverflows(s) then Failure(ErrRange)
    else Failure(ErrSyntax)
  }

  /** A digit run past 64 unsigned bits is a range error whatever follows it. */
  lemma OverflowBeforeSyntax(ds: string, rest: string)
    requires AllDigits(ds) && DigitsValue(ds) > MaxUint64
    requires rest != [] && !IsDigit(rest[0])
    ensures Atoi(ds + rest) == Failure(ErrRange)
    ensures !IsDecimal(ds + rest)
  {
    var s := ds + rest;
    assert ds != [];
    assert Unsigned(s) == s;
    LeadingDigitsOf(ds, rest);
    assert !IsDigit(s[|ds|]);
  }

  /** The leading run of digits followed by a non-digit is those digits. */
  lemma {:induction false} LeadingDigitsOf(ds: string, rest: string)
    requires AllDigits(ds)
    requires rest != [] && !IsDigit(rest[0])
    ensures LeadingDigits(ds + rest) == ds
  {
    if ds == [] {
      assert ds + rest == rest;
    } else {
      assert (ds + rest)[1..] == ds[1..] + rest;
      LeadingDigitsOf(ds[1..], rest);
    }
  }

  /** A sign and leading zeros are accepted: "+007" reads as 7 and "-0" as 0. */
  lemma AtoiSignAndZeros()
    ensures Atoi("+007") == Success(7)
    ensures Atoi("-0") == Success(0)
    ensures Atoi("+") == Failure(ErrSyntax)
  {
    assert Unsigned("+007") == "007";
    assert DigitsValue("007") == 7 by {
      assert "007"[..2] == "00";
      assert "00"[..1] == "0";
      assert "0"[..0] == "";
    }
    assert Unsigned("-0") == "0";
    assert DigitsValue("0") == 0 by {
      assert "0"[..0] == "";
    }
    assert Unsigned("+") == "";
  }

  function Digit(d: nat): (c: char)
    requires d < 10
    ensures IsDigit(c) && DigitValue(c) == d
  { ('0' as int + d) as char }

  /** The decimal digits of a natural number, without leading zeros. */
  function FormatDigits(n: nat): (s: string)
    ensures |s| >= 1
    decreases n
  {
    if n < 10 then [Digit(n)] else FormatDigits(n / 10) + [Digit(n % 10)]
  }

  /** strconv.Itoa. */
  function Itoa(n: int): string
  {
    if n < 0 then "-" + FormatDigits(-n) else FormatDigits(n)
  }

  lemma {:induction false} FormatDigitsValue(n: nat)
    ensures AllDigits(FormatDigits(n)) && DigitsValue(FormatDigits(n)) == n
    decreases n
  {
    var s := FormatDigits(n);
    if n >= 10 {
      FormatDigitsValue(n / 10);
      assert s[..|s| - 1] == FormatDigits(n / 10);
      assert s[|s| - 1] == Digit(n % 10);
    }
  }

  /** Formatting an `int` and parsing it back gives the same number. */
  lemma AtoiItoa(n: int)
    requires MinInt64 <= n <= MaxInt64
    ensures Atoi(Itoa(n)) == Success(n)
  {
    var s := Itoa(n);
    if n < 0 {
      FormatDigitsValue(-n);
      assert Unsigned(s) == FormatDigits(-n);
    } else {
      FormatDigitsValue(n);
      assert IsDigit(s[0]);
      assert Unsigned(s) == s;
    }
    assert IsDecimal(s) && SignedValue(s) == n;
  }

  // ---------------------------------------------------------------------------
  // strings.TrimSpace

  /** unicode.IsSpace: the Unicode White_Space characters. */
  predicate IsSpace(c: char)
  {
    var n := c as int;
    (0x09 <= n <= 0x0D) || n == 0x20 || n == 0x85 || n == 0xA0 || n == 0x1680
    || (0x2000 <= n <= 0x200A) || n == 0x2028 || n == 0x2029 || n == 0x202F
    || n == 0x205F || n == 0x3000
  }

  function TrimLeft(s: string): (r: string)
    ensures |r| <= |s| && r == s[|s| - |r|..]
    ensures forall i :: 0 <= i < |s| - |r| ==> IsSpace(s[i])
    ensures r != [] ==> !IsSpace(r[0])
  {
    if s != [] && IsSpace(s[0]) then TrimLeft(s[1..]) else s
  }

  function TrimRight(s: string): (r: string)
    ensures |r| <= |s| && r == s[..|r|]
    ensures forall i :: |r| <= i < |s| ==> IsSpace(s[i])
    ensures r != [] ==> !IsSpace(r[|r| - 1])
  {
    if s != [] && IsSpace(s[|s| - 1]) then TrimRight(s[..|s| - 1]) else s
  }

  /** strings.TrimSpace: drop leading and trailing white space. */
  function TrimSpace(s: string): string
  {
    TrimRight(TrimLeft(s))
  }

  /** TrimSpace yields the empty string exactly when every character is white space. */
  lemma TrimSpaceEmpty(s: string)
    ensures TrimSpace(s) == [] <==> forall i :: 0 <= i < |s| ==> IsSpace(s[i])
  {
    var l := TrimLeft(s);
    if TrimSpace(s) == [] {
      assert l == [] by {
        if l != [] { assert false; }
      }
    } else {
      var r := TrimSpace(s);
      assert r[0] == l[0] == s[|s| - |l|];
    }
  }

  // ---------------------------------------------------------------------------
  // strings.Split / strings.Join with the separator ","

  /** strings.Split(s, ","): the pieces between commas; "" splits into [""]. */
  function SplitComma(s: string): (parts: seq<string>)
    ensures |parts| >= 1
    ensures forall i :: 0 <= i < |parts| ==> ',' !in parts[i]
  {
    if s == [] then [""]
    else
      var rest := SplitComma(s[1..]);
      if s[0] == ',' then [""] + rest else [[s[0]] + rest[0]] + rest[1..]
  }

  /** strings.Join(parts, ","). */
  function JoinComma(parts: seq<string>): string
    requires |parts| >= 1
  {
    if |parts| == 1 then parts[0] else parts[0] + "," + JoinComma(parts[1..])
  }

  lemma {:induction false} JoinSplit(s: string)
    ensures JoinComma(SplitComma(s)) == s
  {
    if s != [] {
      var rest := SplitComma(s[1..]);
      JoinSplit(s[1..]);
      if s[0] != ',' {
        var parts := SplitComma(s);
        assert parts[1..] == rest[1..];
        if |rest| > 1 {
          assert rest == [rest[0]] + rest[1..];
          assert JoinComma(rest) == rest[0] + "," + JoinComma(rest[1..]);
        }
      } else {
        assert SplitComma(s)[1..] == rest;
      }
    }
  }

  lemma {:induction false} SplitJoin(parts: seq<string>)
    requires |parts| >= 1
    requires forall i :: 0 <= i < |parts| ==> ',' !in parts[i]
    ensures SplitComma(JoinComma(parts)) == parts
    decreases |parts|, |parts[0]|
  {
    var p := parts[0];
    if p == [] {
      if |parts| > 1 {
        SplitJoin(parts[1..]);
        assert JoinComma(parts) == "," + JoinComma(parts[1..]);
        assert JoinComma(parts)[1..] == JoinComma(parts[1..]);
      }
    } else {
      var parts' := [p[1..]] + parts[1..];
      assert ',' !in p[1..] by { assert forall c :: c in p[1..] ==> c in p; }
      SplitJoin(parts');
      if |parts| == 1 {
        assert JoinComma(parts) == p;
        assert JoinComma(parts') == p[1..];
      } else {
        assert parts'[1..] == parts[1..];
        assert JoinComma(parts) == p + "," + JoinComma(parts[1..]);
        assert JoinComma(parts') == p[1..] + "," + JoinComma(parts[1..]);
      }
      assert JoinComma(parts)[1..] == JoinComma(parts');
      assert JoinComma(parts)[0] == p[0];
      assert [p[0]] + p[1..] == p;
    }
  }

  // ---------------------------------------------------------------------------
  // len(s) of a Go string: its UTF-8 byte count

  function Utf8Len(c: char): (n: nat)
    ensures 1 <= n <= 4
  {
    var v := c as int;
    if v < 0x80 then 1 else if v < 0x800 then 2 else if v < 0x1_0000 then 3 else 4
  }

  function ByteLen(s: string): nat
  {
    if s == [] then 0 else ByteLen(s[..|s| - 1]) + Utf8Len(s[|s| - 1])
  }

  /** A string has at least as many bytes as characters, at most four per character, and exactly one per ASCII character. */
  lemma {:induction false} ByteLenBounds(s: string)
    ensures |s| <= ByteLen(s) <= 4 * |s|
    ensures (forall i :: 0 <= i < |s| ==> s[i] as int < 0x80) ==> ByteLen(s) == |s|
  {
    if s != [] {
      ByteLenBounds(s[..|s| - 1]);
    }
  }
}
