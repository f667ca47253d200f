/** Decimal text of 64-bit integers: the form the operator writes into the generation annotation
    and reads back as its sort key. */
module Decimal {
  import opened Options

  const MIN_INT64: int := -0x8000_0000_0000_0000
  const MAX_INT64: int := 0x7FFF_FFFF_FFFF_FFFF

  function Digit(d: nat): (c: char)
    requires d < 10
    ensures IsDigit(c) && DigitValue(c) == d
  {
    '0' + d as char
  }

  predicate IsDigit(c: char) {
    '0' <= c <= '9'
  }

  function DigitValue(c: char): nat
    requires IsDigit(c)
  {
    c as int - '0' as int
  }

  function FormatNat(n: nat): (s: string)
    ensures s != [] && IsDigit(s[0])
  {
    if n < 10 then [Digit(n)] else FormatNat(n / 10) + [Digit(n % 10)]
  }

  /** The base-10 text of a number (strconv.FormatInt with base 10). */
  function FormatInt(i: int): string {
    if i < 0 then ['-'] + FormatNat(-i) else FormatNat(i)
  }

  /** Value of a non-empty run of digits, or nothing when some character is not a digit. */
  function ParseNat(s: string): Option<nat> {
    if s == [] then
      None
    else if !IsDigit(s[|s| - 1]) then
      None
    else if |s| == 1 then
      Some(DigitValue(s[0]))
    else
      match ParseNat(s[..|s| - 1])
      case None => None
      case Some(n) => Some(10 * n + DigitValue(s[|s| - 1]))
  }

  /** strconv.Atoi on a 64-bit platform: an optional sign, then digits, within the int64 range. */
  function Atoi(s: string): Option<int> {
    var signed := s != [] && (s[0] == '-' || s[0] == '+');
    match ParseNat(if signed then s[1..] else s)
    case None => None
    case Some(n) =>
      var m: int := n;
      var i := if signed && s[0] == '-' then -m else m;
      if MIN_INT64 <= i <= MAX_INT64 then Some(i) else None
  }

  lemma {:induction false} ParseFormatNat(n: nat)
    ensures ParseNat(FormatNat(n)) == Some(n)
  {
    if n >= 10 {
      ParseFormatNat(n / 10);
      var s := FormatNat(n);
      assert s[..|s| - 1] == FormatNat(n / 10);
    }
  }

  // ---------- Place values ----------

  function Power10(n: nat): nat {
    if n == 0 then 1 else 10 * Power10(n - 1)
  }

  predicate AllDigits(s: string) {
    forall k :: 0 <= k < |s| ==> IsDigit(s[k])
  }

  /** The sum of the digits from position k on, each times the power of ten of its place. */
  function PlaceValue(s: string, k: nat): nat
    requires AllDigits(s) && k <= |s|
    decreases |s| - k
  {
    if k == |s| then 0 else DigitValue(s[k]) * Power10(|s| - 1 - k) + PlaceValue(s, k + 1)
  }

  lemma {:induction false} PlaceValueShifts(s: string, d: char, k: nat)
    requires AllDigits(s) && IsDigit(d) && k <= |s|
    ensures AllDigits(s + [d])
    ensures PlaceValue(s + [d], k) == 10 * PlaceValue(s, k) + DigitValue(d)
    decreases |s| - k
  {
    var longer := s + [d];
    if k == |s| {
      assert PlaceValue(longer, k + 1) == 0 && Power10(0) == 1;
    } else {
      PlaceValueShifts(s, d, k + 1);
      assert longer[k] == s[k];
      assert Power10(|longer| - 1 - k) == 10 * Power10(|s| - 1 - k);
      ShiftOne(DigitValue(s[k]), Power10(|s| - 1 - k));
    }
  }

  lemma ShiftOne(d: nat, p: nat)
    ensures d * (10 * p) == 10 * (d * p)
  {
  }

  /** A text parses exactly when it is a non-empty run of digits, and then to its place value. */
  lemma {:induction false} ParsesToPlaceValue(s: string)
    ensures ParseNat(s).Some? <==> s != [] && AllDigits(s)
    ensures s != [] && AllDigits(s) ==> ParseNat(s).value == PlaceValue(s, 0)
  {
    if s != [] {
      var front := s[..|s| - 1];
      var last := s[|s| - 1];
      assert s == front + [last];
      if |s| == 1 {
        if IsDigit(last) {
          assert PlaceValue(s, 1) == 0 && Power10(0) == 1;
        }
      } else {
        ParsesToPlaceValue(front);
        if AllDigits(front) && IsDigit(last) {
          PlaceValueShifts(front, last, 0);
        }
      }
    }
  }

  lemma {:induction false} FormatNatIsDecimal(n: nat)
    ensures AllDigits(FormatNat(n)) && PlaceValue(FormatNat(n), 0) == n
    ensures FormatNat(n)[0] == '0' ==> n == 0
  {
    var s := FormatNat(n);
    if n < 10 {
      assert PlaceValue(s, 1) == 0 && Power10(0) == 1;
    } else {
      FormatNatIsDecimal(n / 10);
      PlaceValueShifts(FormatNat(n / 10), Digit(n % 10), 0);
    }
  }

  /** The text of a number: digits without a leading zero whose place value is the number; a minus
      sign before the text of its absolute value if it is negative. */
  lemma FormatIsDecimal(i: int)
    ensures i >= 0 ==> var s := FormatInt(i);
                       && s != [] && AllDigits(s) && PlaceValue(s, 0) == i
                       && (s[0] == '0' ==> i == 0)
    ensures i < 0 ==> FormatInt(i) == "-" + FormatInt(-i)
  {
    if i >= 0 {
      FormatNatIsDecimal(i);
    }
  }

  /** What mustAtoi accepts: an optional sign and then digits, within 64 bits; and to what number. */
  lemma AtoiExactly(s: string)
    ensures var signed := s != [] && (s[0] == '-' || s[0] == '+');
            var digits := if signed then s[1..] else s;
            if digits != [] && AllDigits(digits) then
              var m: int := PlaceValue(digits, 0);
              var i := if signed && s[0] == '-' then -m else m;
              Atoi(s) == if MIN_INT64 <= i <= MAX_INT64 then Some(i) else None
            else Atoi(s) == None
  {
    var signed := s != [] && (s[0] == '-' || s[0] == '+');
    ParsesToPlaceValue(if signed then s[1..] else s);
  }

  // ---------- The round trip ----------

  /** A text that starts with a digit carries no sign. */
  lemma ParseUnsigned(n: nat)
    ensures Atoi(FormatNat(n)) == if n <= MAX_INT64 then Some(n) else None
  {
    ParseFormatNat(n);
    hide FormatNat, ParseNat;
    assert IsDigit(FormatNat(n)[0]);
  }

  lemma ParseNegative(i: int)
    requires i < 0
    ensures Atoi(FormatInt(i)) == if MIN_INT64 <= i then Some(i) else None
  {
    ParseFormatNat(-i);
    hide FormatNat, ParseNat;
    assert FormatInt(i)[1..] == FormatNat(-i);
  }

  /** Every 64-bit number survives being written as an annotation and read back. */
  lemma RoundTrip(i: int)
    requires MIN_INT64 <= i <= MAX_INT64
    ensures Atoi(FormatInt(i)) == Some(i)
  {
    hide Atoi, FormatNat;
    if i < 0 {
      ParseNegative(i);
    } else {
      ParseUnsigned(i);
    }
  }

  /** Outside the 64-bit range the text no longer parses: the range is exact. */
  lemma RoundTripExactly(i: int)
    ensures Atoi(FormatInt(i)) == Some(i) <==> MIN_INT64 <= i <= MAX_INT64
  {
    if MIN_INT64 <= i <= MAX_INT64 {
      RoundTrip(i);
    }
  }

  /** Comparing the parsed keys of two annotations compares the generations themselves. */
  lemma ParsedOrderIsNumeric(i: int, j: int)
    requires MIN_INT64 <= i <= MAX_INT64 && MIN_INT64 <= j <= MAX_INT64
    ensures Atoi(FormatInt(i)).Some? && Atoi(FormatInt(j)).Some?
    ensures Atoi(FormatInt(i)).value < Atoi(FormatInt(j)).value <==> i < j
    ensures FormatInt(i) == FormatInt(j) <==> i == j
  {
    RoundTrip(i);
    RoundTrip(j);
  }

  /** Text order would be wrong: generation 10 reads before generation 9. */
  lemma TextOrderDiffers()
    ensures FormatInt(10) == "10" && FormatInt(9) == "9" && "10"[0] < "9"[0]
    ensures Atoi("9").value < Atoi("10").value
  {
  }
}
