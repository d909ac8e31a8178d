/**
 * The `version` key of the CLI configuration: an integer flag whose valid values are 1 and 2.
 * A flag value is a cell that `Set` writes through, whether or not the text was acceptable.
 */
module ConfigVersion {
  import opened Wrappers
  import opened Decimal

  const V1: int := 1
  const V2: int := 2

  /** The errors `Set` can return: the two `strconv.ParseInt` failures and `ErrInvalidConfigVersion`. */
  datatype VersionError = InvalidSyntax(text: string) | OutOfRange(text: string) | InvalidConfigVersion

  predicate IsValid(v: int)
    ensures IsValid(v) <==> 1 <= v <= 2
  {
    v == V1 || v == V2
  }

  /** A `Version` variable, written in place through its address. */
  class VersionVar {
    var value: int

    constructor (v: int)
      ensures value == v
    {
      value := v;
    }

    /** Parses s as `ParseInt(s, 0, 64)` and stores what that returns, even on failure (0 after
        a syntax error, the nearest bound after a range error) or when the value is no valid version. */
    method Set(s: string) returns (err: Option<VersionError>)
      modifies this
      ensures value == ParseInt0(s).Returned()
      ensures ParseInt0(s).SyntaxError? ==> err == Some(InvalidSyntax(s))
      ensures ParseInt0(s).RangeError? ==> err == Some(OutOfRange(s))
      ensures ParseInt0(s).Parsed? && IsValid(value) ==> err.None?
      ensures ParseInt0(s).Parsed? && !IsValid(value) ==> err == Some(InvalidConfigVersion)
    {
      var v := ParseInt0(s);
      value := v.Returned();
      if v.SyntaxError? {
        return Some(InvalidSyntax(s));
      }
      if v.RangeError? {
        return Some(OutOfRange(s));
      }
      if !IsValid(value) {
        return Some(InvalidConfigVersion);
      }
      err := None;
    }

    /** `strconv.Itoa` of the stored value. */
    function String(): (r: string)
      reads this
      ensures -(Two63 as int) <= value < Two63 ==> ParseInt0(r) == Parsed(value)
    {
      if -(Two63 as int) <= value < Two63 then ParseIntFormatRoundTrip(value); IntToString(value)
      else IntToString(value)
    }
  }

  /** Writes `val` through p and hands back p itself. */
  method NewConfigVersionValue(val: int, p: VersionVar) returns (r: VersionVar)
    modifies p
    ensures r == p && p.value == val
  {
    p.value := val;
    r := p;
  }

  // ---------------------------------------------------------------------------------------
  // Properties

  /** `Set(String())` gives back the stored value, without error, whenever it is a valid version. */
  lemma SetOfStringRestores(c: VersionVar)
    requires IsValid(c.value)
    ensures ParseInt0(c.String()) == Parsed(c.value)
    ensures ParseInt0(c.String()).Returned() == c.value && IsValid(ParseInt0(c.String()).Returned())
  {
    ParseIntFormatRoundTrip(c.value);
  }

  /** Base prefixes are honoured: "0x2", "0b10", "0o2" and "02" all set version 2. */
  lemma PrefixedTextsAreVersionTwo()
    ensures ParseInt0("0x2") == Parsed(V2)
    ensures ParseInt0("0b10") == Parsed(V2)
    ensures ParseInt0("0o2") == Parsed(V2)
    ensures ParseInt0("02") == Parsed(V2)
  {
    HexTextIsTwo();
    BinaryTextIsTwo();
    OctalTextIsTwo();
    LeadingZeroTextIsTwo();
  }

  lemma HexTextIsTwo()
    ensures ParseInt0("0x2") == Parsed(V2)
  {
    ScanOneDigit('2', 16);
    assert BasePrefix("0x2") == (16, "2");
    UnsignedParse("0x2", 16, "2", 2);
  }

  lemma BinaryTextIsTwo()
    ensures ParseInt0("0b10") == Parsed(V2)
  {
    ScanOneDigit('1', 2);
    ScanNextDigit(['1'], '0', 2, 1);
    assert ['1'] + ['0'] == "10";
    assert BasePrefix("0b10") == (2, "10");
    UnsignedParse("0b10", 2, "10", 2);
  }

  lemma OctalTextIsTwo()
    ensures ParseInt0("0o2") == Parsed(V2)
  {
    ScanOneDigit('2', 8);
    assert BasePrefix("0o2") == (8, "2");
    UnsignedParse("0o2", 8, "2", 2);
  }

  lemma LeadingZeroTextIsTwo()
    ensures ParseInt0("02") == Parsed(V2)
  {
    ScanOneDigit('2', 8);
    assert BasePrefix("02") == (8, "2");
    UnsignedParse("02", 8, "2", 2);
  }

  /** A single digit scans to its value. */
  lemma ScanOneDigit(c: char, base: nat)
    requires 2 <= base <= 16 && DigitOf(c).Some? && DigitOf(c).value < base
    ensures ScanDigits([c], base) == Scanned(DigitOf(c).value)
  {
    assert [c][..0] == [];
  }

  /** One more digit below the base, without overflow, shifts the value scanned so far. */
  lemma ScanNextDigit(s: string, c: char, base: nat, hi: nat)
    requires 2 <= base <= 16 && ScanDigits(s, base) == Scanned(hi)
    requires DigitOf(c).Some? && DigitOf(c).value < base && Place(hi, base, DigitOf(c).value) < Two64
    ensures ScanDigits(s + [c], base) == Scanned(Place(hi, base, DigitOf(c).value))
  {
    assert (s + [c])[..|s|] == s;
  }

  /** Text without a sign whose digits scan to a value below 2^63 parses to that value. */
  lemma UnsignedParse(s: string, base: nat, digits: string, u: nat)
    requires s != [] && s[0] != '+' && s[0] != '-'
    requires 2 <= base <= 16 && BasePrefix(s) == (base, digits)
    requires ScanDigits(digits, base) == Scanned(u) && u < Two63
    ensures ParseInt0(s) == Parsed(u)
  {
  }

  /** Text that is no number stores 0, which is no valid version. */
  lemma SyntaxErrorStoresZero(s: string)
    requires ParseInt0(s).SyntaxError?
    ensures ParseInt0(s).Returned() == 0 && !IsValid(ParseInt0(s).Returned())
  {
  }
}
