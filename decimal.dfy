/**
 * Decimal text for integers, as Go's strconv package writes and reads it:
 * `FormatInt(v, 10)` / `Itoa` / `fmt.Sprintf("%d", v)`, `ParseUint(s, 10, 64)`
 * and `ParseInt(s, 0, 64)` (base taken from the prefix).
 */
module Decimal {
  import opened Wrappers

  const Two64: nat := 0x1_0000_0000_0000_0000
  const Two63: nat := 0x8000_0000_0000_0000

  predicate IsDigit(c: char) { '0' <= c <= '9' }

  predicate AllDigits(s: string) { forall i :: 0 <= i < |s| ==> IsDigit(s[i]) }

  function DigitChar(d: nat): (c: char)
    requires d < 10
    ensures IsDigit(c) && c as int - '0' as int == d
  {
    ['0', '1', '2', '3', '4', '5', '6', '7', '8', '9'][d]
  }

  /** `strconv.FormatUint(n, 10)`: shortest decimal text of n. */
  function NatToString(n: nat): (s: string)
    decreases n
  {
    if n < 10 then [DigitChar(n)] else NatToString(n / 10) + [DigitChar(n % 10)]
  }

  /** `strconv.FormatInt(n, 10)`, also what `Itoa` and `%d` print. */
  function IntToString(n: int): string
  {
    if n < 0 then "-" + NatToString(-n) else NatToString(n)
  }

  /** Value of a string of digits in base `base`; `None` when some character is not a digit of that base. */
  function DigitsValue(s: string, base: nat): (r: Option<nat>)
    requires 2 <= base <= 16
  {
    if s == [] then Some(0)
    else
      match DigitsValue(s[..|s| - 1], base)
      case None => None
      case Some(hi) =>
        match DigitOf(s[|s| - 1])
        case Some(d) => if d < base then Some(Place(hi, base, d)) else None
        case None => None
  }

  /** The value of digits `hi` followed by one more digit `d`. */
  function Place(hi: nat, base: nat, d: nat): nat
  {
    hi * base + d
  }

  /** Digit value of a character in bases up to 16, in either case. */
  function DigitOf(c: char): (r: Option<nat>)
    ensures r.Some? ==> r.value < 16
    ensures IsDigit(c) ==> r == Some(c as int - '0' as int)
  {
    if '0' <= c <= '9' then Some(c as int - '0' as int)
    else if 'a' <= c <= 'f' then Some(c as int - 'a' as int + 10)
    else if 'A' <= c <= 'F' then Some(c as int - 'A' as int + 10)
    else None
  }

  /** `strconv.ParseUint(s, 10, 64)`: one or more decimal digits with a value below 2^64. */
  function ParseUint10(s: string): (r: Option<nat>)
    ensures r.Some? ==> r.value < Two64 && s != [] && AllDigits(s)
  {
    if s == [] || !AllDigits(s) then None
    else
      match DigitsValue(s, 10)
      case Some(v) => if v < Two64 then Some(v) else None
      case None => None
  }

  /** Outcome of `strconv.ParseInt`: the value, or a syntax error (the value returned is 0),
      or a range error (the value returned is clamped to the nearest int64 bound). */
  datatype IntParse = Parsed(v: int) | SyntaxError | RangeError(clamped: int)
  {
    /** The int64 the Go call returns beside its error. */
    function Returned(): int
    {
      match this
      case Parsed(v) => v
      case SyntaxError => 0
      case RangeError(c) => c
    }
  }

  function ToLower(c: char): char
  {
    if 'A' <= c <= 'Z' then (c as int - 'A' as int + 'a' as int) as char else c
  }

  /** Base and remaining digits chosen by `ParseUint(s, 0, 64)` from the prefix of a non-empty s. */
  function BasePrefix(s: string): (r: (nat, string))
    requires s != []
    ensures 2 <= r.0 <= 16
  {
    if s[0] != '0' then (10, s)
    else if |s| >= 3 && ToLower(s[1]) == 'b' then (2, s[2..])
    else if |s| >= 3 && ToLower(s[1]) == 'o' then (8, s[2..])
    else if |s| >= 3 && ToLower(s[1]) == 'x' then (16, s[2..])
    else (8, s[1..])
  }

  /** How the digit loop of `strconv.ParseUint` ends: with a value, or at the first character
      (from the left) that is not a digit of the base or that makes the value reach 2^64. */
  datatype DigitScan = Scanned(value: nat) | BadDigit | Overflow

  /** The digit loop of `ParseUint` over s. An error in a prefix is met before anything after it. */
  function ScanDigits(s: string, base: nat): (r: DigitScan)
    requires 2 <= base <= 16
    ensures r.Scanned? ==> r.value < Two64
    decreases |s|
  {
    if s == [] then Scanned(0)
    else
      match ScanDigits(s[..|s| - 1], base)
      case Scanned(hi) =>
        (match DigitOf(s[|s| - 1])
         case Some(d) =>
           if d >= base then BadDigit
           else if Place(hi, base, d) >= Two64 then Overflow
           else Scanned(Place(hi, base, d))
         case None => BadDigit)
      case BadDigit => BadDigit
      case Overflow => Overflow
  }

  /** `strconv.ParseInt(s, 0, 64)`, digit separators ('_') aside. */
  function ParseInt0(s: string): (r: IntParse)
    ensures r.Parsed? ==> -(Two63 as int) <= r.v < Two63
    ensures s == [] ==> r == SyntaxError
  {
    if s == [] then SyntaxError
    else
      var neg := s[0] == '-';
      var body := if s[0] == '+' || s[0] == '-' then s[1..] else s;
      if body == [] then SyntaxError
      else
        var (base, digits) := BasePrefix(body);
        match ScanDigits(digits, base)
        case BadDigit => SyntaxError
        case Overflow => if neg then RangeError(-(Two63 as int)) else RangeError(Two63 - 1)
        case Scanned(u) =>
          if !neg && u >= Two63 then RangeError(Two63 - 1)
          else if neg && u > Two63 then RangeError(-(Two63 as int))
          else Parsed(if neg then -(u as int) else u)
  }

  // ---------------------------------------------------------------------------------------
  // Properties

  lemma {:induction false} NatToStringShape(n: nat)
    ensures NatToString(n) != [] && AllDigits(NatToString(n))
    ensures |NatToString(n)| > 1 ==> NatToString(n)[0] != '0'
    ensures NatToString(n)[0] == '0' ==> n == 0
    decreases n
  {
    if n >= 10 {
      NatToStringShape(n / 10);
      assert NatToString(n)[0] == NatToString(n / 10)[0];
    }
  }

  /** Decimal text read back in base 10 gives the number. */
  lemma {:induction false} DigitsValueOfNatToString(n: nat)
    ensures DigitsValue(NatToString(n), 10) == Some(n)
    decreases n
  {
    var s := NatToString(n);
    if n >= 10 {
      DigitsValueOfNatToString(n / 10);
      assert s[..|s| - 1] == NatToString(n / 10);
    } else {
      assert s[..|s| - 1] == [];
    }
  }

  /** `ParseUint(FormatUint(n, 10), 10, 64) == n` for every uint64 n. */
  lemma ParseUintFormatRoundTrip(n: nat)
    requires n < Two64
    ensures ParseUint10(NatToString(n)) == Some(n)
  {
    NatToStringShape(n);
    DigitsValueOfNatToString(n);
  }

  /** Text that is not the shortest decimal form of its value never equals a `%d` rendering. */
  lemma LeadingZeroIsNotCanonical(t: string, n: nat)
    requires t != []
    ensures NatToString(n) != "0" + t
  {
    NatToStringShape(n);
  }

  /** Below 2^64 the digit loop computes the value of the digits. */
  lemma {:induction false} ScanDigitsAgrees(s: string, base: nat)
    requires 2 <= base <= 16
    requires DigitsValue(s, base).Some? && DigitsValue(s, base).value < Two64
    ensures ScanDigits(s, base) == Scanned(DigitsValue(s, base).value)
    decreases |s|
  {
    if s != [] {
      var init := s[..|s| - 1];
      var hi := DigitsValue(init, base).value;
      var d := DigitOf(s[|s| - 1]).value;
      assert DigitsValue(s, base).value == hi * base + d;
      AtMostMultiple(hi, base);
      ScanDigitsAgrees(init, base);
    }
  }

  lemma AtMostMultiple(x: nat, k: nat)
    requires k >= 1
    ensures x <= x * k
  {
    assert x * k == x + x * (k - 1);
  }

  /** `ParseInt(FormatInt(n, 10), 0, 64) == n` for every int64 n. */
  lemma ParseIntFormatRoundTrip(n: int)
    requires -(Two63 as int) <= n < Two63
    ensures ParseInt0(IntToString(n)) == Parsed(n)
  {
    var m: nat := if n < 0 then -n else n;
    var t := NatToString(m);
    NatToStringShape(m);
    DigitsValueOfNatToString(m);
    var s := IntToString(n);
    if n < 0 {
      assert s[1..] == t;
    }
    if t[0] == '0' {
      assert m == 0 && t == "0";
      assert t[1..] == [];
      assert BasePrefix(t) == (8, []);
    } else {
      assert BasePrefix(t) == (10, t);
      ScanDigitsAgrees(t, 10);
    }
  }

  /** `FormatInt` is one-to-one: the text determines the number. */
  lemma IntToStringInjective(a: int, b: int)
    requires IntToString(a) == IntToString(b)
    ensures a == b
  {
    var ma: nat := if a < 0 then -a else a;
    var mb: nat := if b < 0 then -b else b;
    NatToStringShape(ma);
    NatToStringShape(mb);
    DigitsValueOfNatToString(ma);
    DigitsValueOfNatToString(mb);
    if a < 0 && b < 0 {
      assert NatToString(ma) == IntToString(a)[1..];
    }
  }

  /** `FormatInt` writes only digits and a leading minus sign. */
  lemma IntToStringChars(n: int)
    ensures forall i :: 0 <= i < |IntToString(n)| ==> IsDigit(IntToString(n)[i]) || (i == 0 && n < 0 && IntToString(n)[i] == '-')
  {
    var m: nat := if n < 0 then -n else n;
    NatToStringShape(m);
    if n < 0 {
      forall i | 1 <= i < |IntToString(n)| ensures IsDigit(IntToString(n)[i]) {
        assert IntToString(n)[i] == NatToString(m)[i - 1];
      }
    }
  }
}
