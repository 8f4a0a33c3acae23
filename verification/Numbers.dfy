/** Reading unsigned 32-bit numbers, and exactly which texts are read as which numbers. */
module Numbers {
  import opened Wrappers
  import opened Orders

  const U32_LIMIT: nat := 0x1_0000_0000

  predicate IsDigit(c: char) { '0' <= c <= '9' }

  /** Decimal value of a digit string. */
  function DecimalValue(digits: string): (n: nat)
    requires forall i :: 0 <= i < |digits| ==> IsDigit(digits[i])
  {
    if digits == [] then 0
    else
      var last := digits[|digits| - 1];
      assert IsDigit(last);
      10 * DecimalValue(digits[..|digits| - 1]) + (last as int - '0' as int)
  }

  /** `str::parse::<u32>`: an optional plus sign, then digits, rejecting what does not fit. */
  function ParseU32(s: string): (r: Option<nat>)
    ensures r.Some? ==> r.value < U32_LIMIT
  {
    if s != [] && s[0] == '+' then ParseDigits(s[1..]) else ParseDigits(s)
  }

  function ParseDigits(digits: string): (r: Option<nat>)
    ensures r.Some? ==> r.value < U32_LIMIT
  {
    if digits == [] || exists i :: 0 <= i < |digits| && !IsDigit(digits[i]) then None
    else if DecimalValue(digits) < U32_LIMIT then Some(DecimalValue(digits))
    else None
  }

  // ---- the same, said on the characters ----

  ghost predicate AllDigits(s: string) {
    forall i :: 0 <= i < |s| ==> IsDigit(s[i])
  }

  ghost predicate AllZeros(s: string) {
    forall i :: 0 <= i < |s| ==> s[i] == '0'
  }

  ghost function PowerOfTen(n: nat): (p: nat)
    ensures p > 0
  {
    if n == 0 then 1 else 10 * PowerOfTen(n - 1)
  }

  /** Each digit times the power of ten of its place. */
  ghost function PlaceValue(digits: string): (n: nat)
    requires AllDigits(digits)
  {
    if digits == [] then 0
    else
      assert IsDigit(digits[0]);
      (digits[0] as int - '0' as int) * PowerOfTen(|digits| - 1) + PlaceValue(digits[1..])
  }

  ghost function WithoutZeros(digits: string): (r: string)
    ensures r != [] ==> r[0] != '0'
    ensures AllDigits(digits) ==> AllDigits(r)
  {
    if digits != [] && digits[0] == '0' then WithoutZeros(digits[1..]) else digits
  }

  const LARGEST := "4294967295"

  /** After leading zeros, fewer than ten digits, or ten that do not come after those of 2^32 - 1. */
  ghost predicate FitsU32(digits: string) {
    var d := WithoutZeros(digits);
    |d| < |LARGEST| || (|d| == |LARGEST| && TextLe(d, LARGEST))
  }

  ghost function WithoutPlus(s: string): (r: string) {
    if s != [] && s[0] == '+' then s[1..] else s
  }

  /** An optional plus sign and at least one digit, within 32 bits. */
  ghost predicate IsNumber(s: string) {
    WithoutPlus(s) != [] && AllDigits(WithoutPlus(s)) && FitsU32(WithoutPlus(s))
  }

  lemma TimesPower(x: nat, n: nat)
    requires n > 0
    ensures 10 * (x * PowerOfTen(n - 1)) == x * PowerOfTen(n)
  {
  }

  lemma {:induction false} PlaceValueAppends(digits: string, last: string)
    requires AllDigits(digits) && |last| == 1 && AllDigits(last)
    ensures AllDigits(digits + last)
    ensures PlaceValue(digits + last) == 10 * PlaceValue(digits) + (last[0] as int - '0' as int)
  {
    if digits == [] {
      assert digits + last == last && last[1..] == [];
    } else {
      PlaceValueAppends(digits[1..], last);
      assert (digits + last)[1..] == digits[1..] + last && (digits + last)[0] == digits[0];
      assert IsDigit(digits[0]);
      TimesPower(digits[0] as int - '0' as int, |digits|);
    }
  }

  lemma {:induction false} DecimalIsPlaceValue(digits: string)
    requires AllDigits(digits)
    ensures DecimalValue(digits) == PlaceValue(digits)
  {
    if digits != [] {
      var front, last := digits[..|digits| - 1], digits[|digits| - 1..];
      DecimalIsPlaceValue(front);
      PlaceValueAppends(front, last);
      assert front + last == digits;
    }
  }

  lemma DigitTimes(d: nat, p: nat)
    requires d <= 9
    ensures d * p <= 9 * p && (d > 0 ==> p <= d * p)
  {
  }

  lemma {:induction false} PlaceBounds(digits: string)
    requires AllDigits(digits)
    ensures PlaceValue(digits) < PowerOfTen(|digits|)
    ensures digits != [] && digits[0] != '0' ==> PowerOfTen(|digits| - 1) <= PlaceValue(digits)
  {
    if digits != [] {
      PlaceBounds(digits[1..]);
      assert IsDigit(digits[0]);
      DigitTimes(digits[0] as int - '0' as int, PowerOfTen(|digits| - 1));
    }
  }

  lemma {:induction false} ZerosAddNothing(digits: string)
    requires AllDigits(digits)
    ensures PlaceValue(WithoutZeros(digits)) == PlaceValue(digits)
    ensures WithoutZeros(digits) == [] <==> AllZeros(digits)
  {
    if digits != [] && digits[0] == '0' {
      ZerosAddNothing(digits[1..]);
      assert forall i :: 0 < i < |digits| ==> digits[i] == digits[1..][i - 1];
    }
  }

  lemma FirstDigitDecides(d: nat, e: nat, p: nat, x: nat, y: nat)
    requires x < p && y < p && d < e
    ensures d * p + x < e * p + y
  {
    assert (d + 1) * p <= e * p;
  }

  /** Digit strings of one length compare as their values do. */
  lemma {:induction false} ComparesAsValue(a: string, b: string)
    requires |a| == |b| && AllDigits(a) && AllDigits(b)
    ensures CompareText(a, b) == CompareInt(PlaceValue(a), PlaceValue(b))
  {
    if a != [] {
      ComparesAsValue(a[1..], b[1..]);
      PlaceBounds(a[1..]);
      PlaceBounds(b[1..]);
      assert IsDigit(a[0]) && IsDigit(b[0]);
      var d, e, p := a[0] as int - '0' as int, b[0] as int - '0' as int, PowerOfTen(|a| - 1);
      if d < e {
        FirstDigitDecides(d, e, p, PlaceValue(a[1..]), PlaceValue(b[1..]));
      } else if e < d {
        FirstDigitDecides(e, d, p, PlaceValue(b[1..]), PlaceValue(a[1..]));
      }
    }
  }

  lemma {:induction false} PowersGrow(m: nat, n: nat)
    requires m <= n
    ensures PowerOfTen(m) <= PowerOfTen(n)
  {
    if m < n {
      PowersGrow(m, n - 1);
    }
  }

  lemma LargestIs()
    ensures |LARGEST| == 10 && AllDigits(LARGEST) && PlaceValue(LARGEST) == U32_LIMIT - 1
    ensures PowerOfTen(9) == 1_000_000_000 && PowerOfTen(10) == 10_000_000_000
  {
    LargestDigits();
    LargestValue();
  }

  lemma LargestDigits()
    ensures |LARGEST| == 10 && AllDigits(LARGEST)
  {
  }

  lemma Step(digits: string, n: nat, d: nat)
    requires AllDigits(digits) && digits != [] && digits[0] as int - '0' as int == d && |digits| == n + 1
    ensures PlaceValue(digits) == d * PowerOfTen(n) + PlaceValue(digits[1..])
  {
  }

  lemma Powers()
    ensures PowerOfTen(0) == 1 && PowerOfTen(1) == 10 && PowerOfTen(2) == 100 && PowerOfTen(3) == 1000
    ensures PowerOfTen(4) == 10_000 && PowerOfTen(5) == 100_000 && PowerOfTen(6) == 1_000_000
    ensures PowerOfTen(7) == 10_000_000 && PowerOfTen(8) == 100_000_000
    ensures PowerOfTen(9) == 1_000_000_000 && PowerOfTen(10) == 10_000_000_000
  {
    assert PowerOfTen(4) == 10_000;
    assert PowerOfTen(7) == 10_000_000;
  }

  lemma LargestTail()
    ensures AllDigits("67295") && PlaceValue("67295") == 67295
  {
    Powers();
    Step("67295", 4, 6);
    assert "67295"[1..] == "7295";
    Step("7295", 3, 7);
    assert "7295"[1..] == "295";
    Step("295", 2, 2);
    assert "295"[1..] == "95";
    Step("95", 1, 9);
    assert "95"[1..] == "5" && "5"[1..] == "";
    Step("5", 0, 5);
  }

  lemma LargestMiddle()
    ensures AllDigits("94967295") && PlaceValue("94967295") == 94_967_295
  {
    Powers();
    Step("94967295", 7, 9);
    assert "94967295"[1..] == "4967295";
    Step("4967295", 6, 4);
    assert "4967295"[1..] == "967295";
    Step("967295", 5, 9);
    assert "967295"[1..] == "67295";
    LargestTail();
  }

  lemma LargestValue()
    ensures AllDigits(LARGEST) && PlaceValue(LARGEST) == U32_LIMIT - 1
    ensures PowerOfTen(9) == 1_000_000_000 && PowerOfTen(10) == 10_000_000_000
  {
    LargestDigits();
    Powers();
    Step(LARGEST, 9, 4);
    assert LARGEST[1..] == "294967295";
    Step("294967295", 8, 2);
    assert "294967295"[1..] == "94967295";
    LargestMiddle();
  }

  lemma FitsExactly(digits: string)
    requires AllDigits(digits)
    ensures FitsU32(digits) <==> PlaceValue(digits) < U32_LIMIT
  {
    var d := WithoutZeros(digits);
    ZerosAddNothing(digits);
    PlaceBounds(d);
    LargestIs();
    if |d| < 10 {
      PowersGrow(|d|, 9);
    } else if |d| == 10 {
      ComparesAsValue(d, LARGEST);
    } else {
      PowersGrow(10, |d| - 1);
    }
  }

  /** A text is read as `n` exactly if it is a number and its places add up to `n`. */
  lemma ParseExactly(s: string, n: nat)
    ensures ParseU32(s) == Some(n) <==> IsNumber(s) && PlaceValue(WithoutPlus(s)) == n
    ensures ParseU32(s).Some? <==> IsNumber(s)
  {
    var digits := WithoutPlus(s);
    if AllDigits(digits) {
      FitsExactly(digits);
      DecimalIsPlaceValue(digits);
    } else {
      var i :| 0 <= i < |digits| && !IsDigit(digits[i]);
    }
  }

  /** Zero is read exactly from zeros. */
  lemma ZeroExactly(s: string)
    requires IsNumber(s)
    ensures PlaceValue(WithoutPlus(s)) == 0 <==> AllZeros(WithoutPlus(s))
  {
    var digits := WithoutPlus(s);
    ZerosAddNothing(digits);
    PlaceBounds(WithoutZeros(digits));
    assert PlaceValue([]) == 0;
  }
}
