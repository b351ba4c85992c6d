/** The check digit of a Chilean RUT, modulo 11, for digit strings of any length. */
module Rut {
  import opened Options

  predicate IsDigit(c: char) { '0' <= c <= '9' }

  predicate IsNumber(num: string) { forall i :: 0 <= i < |num| ==> IsDigit(num[i]) }

  function Digit(c: char): (d: nat)
    requires IsDigit(c)
    ensures d <= 9
  {
    c as int - '0' as int
  }

  /** The factor of the digit `k` places from the right: 2 to 7, over and over. */
  function Weight(k: nat): nat { 2 + k % 6 }

  /** The weighted sum of the last `k` digits. */
  function WeightedSum(num: string, k: nat): nat
    requires k <= |num| && IsNumber(num)
  {
    if k == 0 then 0 else WeightedSum(num, k - 1) + Digit(num[|num| - k]) * Weight(k - 1)
  }

  /** The check digit of a total; its value modulo 11 with K for 10. */
  function CheckDigit(total: nat): char {
    var rem := 11 - total % 11;
    if rem == 11 then '0' else if rem == 10 then 'K' else '0' + rem as char
  }

  function ValueOf(dv: char): nat { if IsDigit(dv) then Digit(dv) else 10 }

  /** The check digit is the one symbol that completes the total to a multiple of 11. */
  lemma CheckDigitCompletes(total: nat, dv: char)
    requires IsDigit(dv) || dv == 'K'
    ensures dv == CheckDigit(total) <==> (total + ValueOf(dv)) % 11 == 0
  {}

  lemma SameCheckDigitIff(a: nat, b: nat)
    ensures CheckDigit(a) == CheckDigit(b) <==> (a - b) % 11 == 0
  {}

  function Dv(num: string): char
    requires IsNumber(num)
  {
    CheckDigit(WeightedSum(num, |num|))
  }

  /** The check digit of a digit string; any other character is an error. */
  method ComputeDv(num: string) returns (dv: Option<char>)
    ensures dv == if IsNumber(num) then Some(Dv(num)) else None
  {
    var total, factor := 0, 2;
    for k := 0 to |num|
      invariant forall i :: |num| - k <= i < |num| ==> IsDigit(num[i])
      invariant factor == Weight(k)
      invariant IsNumber(num) ==> total == WeightedSum(num, k)
    {
      var digit := num[|num| - 1 - k];
      if !IsDigit(digit) {
        return None;
      }
      total := total + Digit(digit) * factor;
      factor := if factor == 7 then 2 else factor + 1;
    }
    return Some(CheckDigit(total));
  }

  /** Replacing one digit moves the sum by the difference times its weight. */
  lemma {:induction false} SumAfterChange(num: string, i: nat, c: char, k: nat)
    requires IsNumber(num) && i < |num| && IsDigit(c) && k <= |num|
    ensures IsNumber(num[i := c])
    ensures WeightedSum(num[i := c], k) == WeightedSum(num, k) +
            if i < |num| - k then 0 else (Digit(c) - Digit(num[i])) * Weight(|num| - 1 - i)
  {
    if k > 0 {
      SumAfterChange(num, i, c, k - 1);
      if i == |num| - k {
        Distribute(Digit(num[i]), Digit(c) - Digit(num[i]), Weight(k - 1));
      }
    }
  }

  lemma Distribute(a: int, b: int, w: int)
    ensures (a + b) * w == a * w + b * w
  {}

  /** 11 is prime, so it divides no product of factors smaller than it. */
  lemma NotAMultiple(d: int, w: int)
    requires -9 <= d <= 9 && d != 0 && -7 <= w <= 7 && w != 0
    ensures (d * w) % 11 != 0
  {
    if w < 0 {
      NotAMultipleOfPositive(-d, -w);
      assert d * w == (-d) * (-w);
    } else {
      NotAMultipleOfPositive(d, w);
    }
  }

  lemma NotAMultipleOfPositive(d: int, w: int)
    requires -9 <= d <= 9 && d != 0 && 0 < w <= 7
    ensures (d * w) % 11 != 0
  {
    if w == 1 { assert d * w == d; }
    else if w == 2 { assert d * w == 2 * d; }
    else if w == 3 { assert d * w == 3 * d; }
    else if w == 4 { assert d * w == 4 * d; }
    else if w == 5 { assert d * w == 5 * d; }
    else if w == 6 { assert d * w == 6 * d; }
    else { assert d * w == 7 * d; }
  }

  /** Changing any one digit changes the check digit. */
  lemma OneDigitDetected(num: string, i: nat, c: char)
    requires IsNumber(num) && i < |num| && IsDigit(c) && c != num[i]
    ensures IsNumber(num[i := c]) && Dv(num[i := c]) != Dv(num)
  {
    SumAfterChange(num, i, c, |num|);
    NotAMultiple(Digit(c) - Digit(num[i]), Weight(|num| - 1 - i));
    SameCheckDigitIff(WeightedSum(num[i := c], |num|), WeightedSum(num, |num|));
  }

  function Swapped(num: string, i: nat, j: nat): string
    requires i < |num| && j < |num|
  {
    num[i := num[j]][j := num[i]]
  }

  /** Two changes of opposite sign at different weights. */
  lemma OppositeChanges(before: int, half: int, after: int, d: int, v: int, w: int)
    requires half == before + d * v && after == half + (-d) * w
    ensures after - before == d * (v - w)
  {}

  lemma SumAfterSwap(num: string, i: nat, j: nat)
    requires IsNumber(num) && i < j < |num|
    ensures IsNumber(Swapped(num, i, j))
    ensures WeightedSum(Swapped(num, i, j), |num|) - WeightedSum(num, |num|)
            == (Digit(num[j]) - Digit(num[i])) * (Weight(|num| - 1 - i) - Weight(|num| - 1 - j))
  {
    var half := num[i := num[j]];
    SumAfterChange(num, i, num[j], |num|);
    SumAfterChange(half, j, num[i], |num|);
    OppositeChanges(WeightedSum(num, |num|), WeightedSum(half, |num|), WeightedSum(Swapped(num, i, j), |num|),
                    Digit(num[j]) - Digit(num[i]), Weight(|num| - 1 - i), Weight(|num| - 1 - j));
  }

  lemma EqualWeightsIff(a: nat, b: nat)
    requires a > b
    ensures Weight(a) == Weight(b) <==> (a - b) % 6 == 0
  {}

  /** Totals that differ by a product have the same check digit just when the product is zero. */
  lemma DifferByProduct(before: nat, after: nat, d: int, e: int)
    requires after - before == d * e && -9 <= d <= 9 && d != 0 && -7 <= e <= 7
    ensures CheckDigit(after) == CheckDigit(before) <==> e == 0
  {
    SameCheckDigitIff(after, before);
    if e != 0 {
      NotAMultiple(d, e);
    }
  }

  lemma WeightRange(k: nat)
    ensures 2 <= Weight(k) <= 7
  {}

  lemma SwapDetectedUnlessEqualWeights(num: string, i: nat, j: nat)
    requires IsNumber(num) && i < j < |num| && num[i] != num[j]
    ensures IsNumber(Swapped(num, i, j))
    ensures Dv(Swapped(num, i, j)) == Dv(num) <==> Weight(|num| - 1 - i) - Weight(|num| - 1 - j) == 0
  {
    SumAfterSwap(num, i, j);
    WeightRange(|num| - 1 - i);
    WeightRange(|num| - 1 - j);
    DifferByProduct(WeightedSum(num, |num|), WeightedSum(Swapped(num, i, j), |num|),
                    Digit(num[j]) - Digit(num[i]), Weight(|num| - 1 - i) - Weight(|num| - 1 - j));
  }

  /** Swapping two distinct digits is detected exactly when their distance is not a multiple of 6. */
  lemma SwapDetectedIff(num: string, i: nat, j: nat)
    requires IsNumber(num) && i < j < |num| && num[i] != num[j]
    ensures IsNumber(Swapped(num, i, j))
    ensures Dv(Swapped(num, i, j)) != Dv(num) <==> (j - i) % 6 != 0
  {
    SwapDetectedUnlessEqualWeights(num, i, j);
    EqualWeightsIff(|num| - 1 - i, |num| - 1 - j);
  }

  // ----- the digit itself

  lemma {:induction false} SumOfZeros(num: string, k: nat)
    requires k <= |num| && forall i :: 0 <= i < |num| ==> num[i] == '0'
    ensures IsNumber(num) && WeightedSum(num, k) == 0
  {
    if k > 0 {
      SumOfZeros(num, k - 1);
    }
  }

  /** A number of zeros only has check digit 0. */
  lemma ZerosDv(num: string)
    requires forall i :: 0 <= i < |num| ==> num[i] == '0'
    ensures IsNumber(num) && Dv(num) == '0'
  {
    SumOfZeros(num, |num|);
  }

  lemma CheckDigitIs(total: nat)
    ensures CheckDigit(total) == 'K' || IsDigit(CheckDigit(total))
    ensures (total + ValueOf(CheckDigit(total))) % 11 == 0
  {}

  lemma ValuesMove(before: nat, after: nat, moved: int)
    requires after - before == moved
    ensures (ValueOf(CheckDigit(before)) - ValueOf(CheckDigit(after)) - moved) % 11 == 0
  {
    CheckDigitIs(before);
    CheckDigitIs(after);
  }

  /**
   * Changing the digit `p` places from the right moves the value of the check
   * digit down by the change times 2, 3, 4, 5, 6, 7 in turn, modulo 11 with K
   * worth 10. From a number of zeros this gives the digit of every number.
   */
  lemma DvMoves(num: string, p: nat, c: char)
    requires IsNumber(num) && p < |num| && IsDigit(c)
    ensures
      var i := |num| - 1 - p;
      var factor := [2, 3, 4, 5, 6, 7][p % 6];
      && IsNumber(num[i := c])
      && (ValueOf(Dv(num)) - ValueOf(Dv(num[i := c])) - (Digit(c) - Digit(num[i])) * factor) % 11 == 0
  {
    var i := |num| - 1 - p;
    SumAfterChange(num, i, c, |num|);
    assert Weight(p) == [2, 3, 4, 5, 6, 7][p % 6];
    ValuesMove(WeightedSum(num, |num|), WeightedSum(num[i := c], |num|),
               (Digit(c) - Digit(num[i])) * Weight(p));
  }

  /** Two numbers whose check digits are widely published. */
  lemma KnownRuts()
    ensures Dv("11111111") == '1' && Dv("12345678") == '5'
  {
    var a, b := "11111111", "12345678";
    assert WeightedSum(a, 4) == 14 && WeightedSum(a, 8) == 32;
    assert WeightedSum(b, 2) == 37 && WeightedSum(b, 4) == 86 && WeightedSum(b, 6) == 131 && WeightedSum(b, 8) == 138;
  }
}
