/** CardGenerator: a card number is a prefix, fourteen random digits and one
    check digit. The random source is an input: `draws` holds the values
    SecureRandom.nextInt(10) returns, in order, and `visa` the value of
    nextBoolean().

    The check digit is NOT the Luhn check digit of ISO/IEC 7812-1, Annex B.
    The weighting loop starts with alternate = false, so the rightmost digit
    of the partial number is added undoubled; Luhn doubles it, because in
    the finished number it sits one place left of the check digit. */
module CardGenerator {

  const CardNumberLength := 16
  const VisaPrefix := 4
  const MastercardPrefix := 5

  /** Number of digits drawn between the prefix and the check digit. */
  const DrawCount := CardNumberLength - 2

  predicate IsDigitChar(c: char) {
    '0' <= c <= '9'
  }

  predicate IsDigitString(s: string) {
    forall i :: 0 <= i < |s| ==> IsDigitChar(s[i])
  }

  predicate IsLong(n: int) {
    -0x8000_0000_0000_0000 <= n < 0x8000_0000_0000_0000
  }

  function DigitChar(d: int): (c: char)
    requires 0 <= d <= 9
    ensures IsDigitChar(c)
  {
    ('0' as int + d) as char
  }

  /** Decimal digits of a non-negative number, most significant first. */
  function NatToString(n: nat): (s: string)
    ensures |s| >= 1 && IsDigitString(s)
    ensures n <= 9 ==> s == [DigitChar(n)]
  {
    if n < 10 then [DigitChar(n)] else NatToString(n / 10) + [DigitChar(n % 10)]
  }

  /** Long.toString, which is what StringBuilder.append(long) appends. */
  function LongToString(n: int): string {
    if n < 0 then "-" + NatToString(-n) else NatToString(n)
  }

  /** The decimal digits of a sequence of values 0..9. */
  function DigitString(ds: seq<int>): (s: string)
    requires forall i :: 0 <= i < |ds| ==> 0 <= ds[i] <= 9
    ensures |s| == |ds| && IsDigitString(s)
    ensures forall i :: 0 <= i < |ds| ==> s[i] == DigitChar(ds[i])
  {
    if ds == [] then [] else DigitString(ds[..|ds| - 1]) + [DigitChar(ds[|ds| - 1])]
  }

  /** The characters the generator hands to the checksum: digits, and a
      minus sign when the prefix is negative. */
  predicate IsPartialNumber(s: string) {
    forall i :: 0 <= i < |s| ==> IsDigitChar(s[i]) || s[i] == '-'
  }

  /** Character.getNumericValue on those characters: a digit's value, and -1
      for '-', which has no numeric value. */
  function NumericValue(c: char): int {
    if IsDigitChar(c) then c as int - '0' as int else -1
  }

  /** Java's % 10 on int: the remainder truncates toward zero, so it takes
      the sign of the dividend. */
  function JavaRem10(a: int): (r: int)
    ensures -10 < r < 10 && (a - r) % 10 == 0
    ensures a >= 0 ==> r == a % 10
    ensures a < 0 ==> r <= 0 && r == -((-a) % 10)
  {
    if a >= 0 then a % 10 else -((-a) % 10)
  }

  /** What one digit adds to the sum: itself, or twice itself when doubled,
      with a doubled value above 9 replaced by value % 10 + 1. */
  function Contribution(v: int, doubled: bool): (c: int)
    ensures 0 <= v <= 9 ==> 0 <= c <= 9
    ensures 0 <= v <= 4 && doubled ==> c == 2 * v
    ensures 0 <= v <= 9 && doubled && v >= 5 ==> c == 2 * v - 9
    ensures !doubled ==> c == v
  {
    if !doubled then v
    else if 2 * v > 9 then (2 * v) % 10 + 1
    else 2 * v
  }

  /** The weighted digit sum: counting positions from the right end of s
      starting at 0, the digits at odd positions are doubled. */
  function WeightedSum(s: string): int
    requires IsPartialNumber(s)
  {
    if s == [] then 0
    else Contribution(NumericValue(s[0]), |s| % 2 == 0) + WeightedSum(s[1..])
  }

  /** The value calculateLuhnChecksum returns: the digit that brings the
      weighted sum of the partial number to a multiple of 10. */
  function Checksum(partial: string): (c: int)
    requires IsPartialNumber(partial)
    ensures 0 <= c <= 9
    ensures (WeightedSum(partial) + c) % 10 == 0
  {
    JavaRem10(10 - JavaRem10(WeightedSum(partial)))
  }

  /** The validity test of ISO/IEC 7812-1, Annex B, on a complete number:
      the check digit is the rightmost digit and is not doubled. */
  predicate LuhnValid(number: string)
    requires IsPartialNumber(number)
  {
    WeightedSum(number) % 10 == 0
  }

  /** The number generateCardNumberWithPrefix builds from a prefix and the
      digits drawn. */
  function PartialNumber(prefix: int, draws: seq<int>): (s: string)
    requires forall i :: 0 <= i < |draws| ==> 0 <= draws[i] <= 9
    ensures IsPartialNumber(s)
  {
    LongToString(prefix) + DigitString(draws)
  }

  function CardNumberFor(prefix: int, draws: seq<int>): string
    requires forall i :: 0 <= i < |draws| ==> 0 <= draws[i] <= 9
  {
    var partial := PartialNumber(prefix, draws);
    partial + [DigitChar(Checksum(partial))]
  }

  /** calculateLuhnChecksum: walks the partial number from right to left,
      doubling every second digit starting with the second one visited. */
  method CalculateLuhnChecksum(partialNumber: string) returns (checksum: int)
    requires IsPartialNumber(partialNumber)
    ensures checksum == Checksum(partialNumber)
    ensures 0 <= checksum <= 9
  {
    var sum := 0;
    var alternate := false;
    var i := |partialNumber| - 1;
    while i >= 0
      invariant -1 <= i < |partialNumber|
      invariant sum == WeightedSum(partialNumber[i + 1..])
      invariant alternate == ((|partialNumber| - 1 - i) % 2 == 1)
    {
      assert partialNumber[i..][1..] == partialNumber[i + 1..];
      var digit := NumericValue(partialNumber[i]);
      if alternate {
        digit := digit * 2;
        if digit > 9 {
          digit := digit % 10 + 1;
        }
      }
      sum := sum + digit;
      alternate := !alternate;
      i := i - 1;
    }
    assert partialNumber[0..] == partialNumber;
    checksum := JavaRem10(10 - JavaRem10(sum));
  }

  /** generateCardNumberWithPrefix: appends Long.toString(prefix), then the
      fourteen drawn digits, then the checksum of everything appended so far. */
  method GenerateCardNumberWithPrefix(prefix: int, draws: seq<int>) returns (number: string)
    requires IsLong(prefix)
    requires |draws| == DrawCount && forall i :: 0 <= i < |draws| ==> 0 <= draws[i] <= 9
    ensures number == CardNumberFor(prefix, draws)
  {
    number := LongToString(prefix);
    for i := 0 to DrawCount
      invariant number == LongToString(prefix) + DigitString(draws[..i])
    {
      assert draws[..i + 1][..i] == draws[..i];
      number := number + [DigitChar(draws[i])];
    }
    assert draws[..DrawCount] == draws;
    var checksum := CalculateLuhnChecksum(number);
    number := number + [DigitChar(checksum)];
  }

  /** generateCardNumber: the prefix is 4 (Visa) or 5 (Mastercard) as the
      coin falls. The result is sixteen decimal digits: the prefix, the
      drawn digits, and the check digit of the first fifteen. */
  method GenerateCardNumber(visa: bool, draws: seq<int>) returns (number: string)
    requires |draws| == DrawCount && forall i :: 0 <= i < |draws| ==> 0 <= draws[i] <= 9
    ensures number == CardNumberFor(if visa then VisaPrefix else MastercardPrefix, draws)
    ensures |number| == CardNumberLength && IsDigitString(number)
    ensures number[0] == '4' || number[0] == '5'
    ensures number[1..CardNumberLength - 1] == DigitString(draws)
    ensures number[CardNumberLength - 1] == DigitChar(Checksum(number[..CardNumberLength - 1]))
  {
    var prefix := if visa then VisaPrefix else MastercardPrefix;
    number := GenerateCardNumberWithPrefix(prefix, draws);
    SingleDigitPrefixShape(prefix, draws);
  }

  /** With a one-digit prefix the number has sixteen digits, laid out as
      prefix, drawn digits, check digit, and the check digit completes the
      generator's weighted sum of the first fifteen to a multiple of 10. */
  lemma SingleDigitPrefixShape(prefix: int, draws: seq<int>)
    requires 0 <= prefix <= 9
    requires |draws| == DrawCount && forall i :: 0 <= i < |draws| ==> 0 <= draws[i] <= 9
    ensures var n := CardNumberFor(prefix, draws);
      && |n| == CardNumberLength && IsDigitString(n)
      && n[0] == DigitChar(prefix)
      && n[1..CardNumberLength - 1] == DigitString(draws)
      && n[..CardNumberLength - 1] == PartialNumber(prefix, draws)
      && n[CardNumberLength - 1] == DigitChar(Checksum(n[..CardNumberLength - 1]))
      && (WeightedSum(n[..CardNumberLength - 1]) + NumericValue(n[CardNumberLength - 1])) % 10 == 0
  {
    var partial := PartialNumber(prefix, draws);
    assert LongToString(prefix) == [DigitChar(prefix)];
    var n := CardNumberFor(prefix, draws);
    assert n[..CardNumberLength - 1] == partial;
    assert n[1..CardNumberLength - 1] == partial[1..];
    assert partial[1..] == DigitString(draws);
  }

  /** The worked example: the partial number 411111111111111 gets check digit
      5, and the resulting card number fails the ISO/IEC 7812-1 test (whose
      check digit for this partial number is 1). */
  lemma NotStandardLuhn(partial: string)
    requires partial == "411111111111111"
    ensures IsPartialNumber(partial)
    ensures Checksum(partial) == 5
    ensures !LuhnValid(partial + "5")
    ensures LuhnValid(partial + "1")
  {
    var k := 14;
    OnesLiteral(k);
    ExampleChecksum(partial, k);
    ExampleSum(partial + "5", k, "5");
    ExampleSum(partial + "1", k, "1");
  }

  lemma ExampleChecksum(s: string, k: nat)
    requires k == 14 && s == ['4'] + Ones(k)
    ensures Checksum(s) == 5
  {
    OnesSum(k, "");
    assert Ones(k) + "" == Ones(k);
    WeightedSumCons('4', Ones(k));
  }

  lemma ExampleSum(s: string, k: nat, last: string)
    requires last == "5" || last == "1"
    requires k == 14 && s == ['4'] + (Ones(k) + last)
    ensures IsPartialNumber(s) && WeightedSum(s) == WeightedSum(last) + 29
  {
    OnesSum(k, last);
    WeightedSumCons('4', Ones(k) + last);
  }

  /** k copies of the digit 1. */
  function Ones(k: nat): (s: string)
    ensures |s| == k && IsPartialNumber(s)
  {
    if k == 0 then [] else ['1'] + Ones(k - 1)
  }

  lemma OnesLiteral(k: nat)
    requires k == 14
    ensures "411111111111111" == ['4'] + Ones(k)
    ensures "411111111111111" + "5" == ['4'] + (Ones(k) + "5")
    ensures "411111111111111" + "1" == ['4'] + (Ones(k) + "1")
  {
    assert Ones(14) == "11111111111111" by {
      assert Ones(1) == "1";
      assert Ones(2) == "11";
      assert Ones(3) == "111";
      assert Ones(4) == "1111";
      assert Ones(5) == "11111";
      assert Ones(6) == "111111";
      assert Ones(7) == "1111111";
      assert Ones(8) == "11111111";
      assert Ones(9) == "111111111";
      assert Ones(10) == "1111111111";
      assert Ones(11) == "11111111111";
      assert Ones(12) == "111111111111";
      assert Ones(13) == "1111111111111";
    }
  }

  /** The weighted sum of k ones followed by a tail of length at most 1. */
  lemma {:induction false} OnesSum(k: nat, tail: string)
    requires |tail| <= 1 && IsPartialNumber(tail)
    ensures IsPartialNumber(Ones(k) + tail)
    ensures |tail| == 0 ==> WeightedSum(Ones(k) + tail) == k + k / 2
    ensures |tail| == 1 ==> WeightedSum(Ones(k) + tail) == WeightedSum(tail) + 2 * ((k + 1) / 2) + k / 2
  {
    if k > 0 {
      OnesSum(k - 1, tail);
      assert Ones(k) + tail == ['1'] + (Ones(k - 1) + tail);
      WeightedSumCons('1', Ones(k - 1) + tail);
    }
  }

  lemma WeightedSumCons(c: char, t: string)
    requires (IsDigitChar(c) || c == '-') && IsPartialNumber(t)
    ensures IsPartialNumber([c] + t)
    ensures WeightedSum([c] + t) == Contribution(NumericValue(c), (|t| + 1) % 2 == 0) + WeightedSum(t)
  {
    assert ([c] + t)[1..] == t;
  }
}
