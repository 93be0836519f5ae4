/**
 * The GS1 mod-10 check digit (GS1 General Specifications, section 7.9): digits are
 * weighted 3, 1, 3, ... starting from the rightmost one, and the check digit brings
 * the weighted sum up to a multiple of 10.
 */
module Checksum {
  import opened Digits

  /**
   * The weighted sum of the digits of `s`, the rightmost weighted `w` and the weights
   * alternating between `w` and `4 - w` leftwards (3 and 1 when `w` is 3 or 1).
   */
  function WeightedSum(s: string, w: int): int
    requires AllDigits(s)
    decreases |s|
  {
    if s == [] then 0 else Value(s[|s| - 1]) * w + WeightedSum(s[..|s| - 1], 4 - w)
  }

  /** The weight of the digit `p` places from the right when the rightmost has weight `w`. */
  function WeightAt(p: nat, w: int): int {
    if p % 2 == 0 then w else 4 - w
  }

  /** Adding `d` to `sum` reaches a multiple of 10. */
  predicate Completes(sum: int, d: int) {
    (sum + d) % 10 == 0
  }

  /** The check digit of a payload: what must be added to its weighted sum to reach a multiple of 10. */
  function CheckDigit(s: string): (c: int)
    requires AllDigits(s)
    ensures 0 <= c <= 9
    ensures (WeightedSum(s, 3) + c) % 10 == 0
    ensures forall d :: 0 <= d <= 9 && Completes(WeightedSum(s, 3), d) ==> d == c
  {
    (10 - WeightedSum(s, 3) % 10) % 10
  }

  lemma WeightedSumNonNegative(s: string, w: int)
    requires AllDigits(s)
    requires w == 1 || w == 3
    ensures WeightedSum(s, w) >= 0
    decreases |s|
  {
    if s != [] {
      WeightedSumNonNegative(s[..|s| - 1], 4 - w);
    }
  }

  /** Adding a digit on the left adds its value times the weight of its place. */
  lemma {:induction false} PrependDigit(c: char, t: string, w: int)
    requires IsDigit(c) && AllDigits(t)
    ensures AllDigits([c] + t)
    ensures WeightedSum([c] + t, w) == WeightedSum(t, w) + Value(c) * WeightAt(|t|, w)
    decreases |t|
  {
    var s := [c] + t;
    if t == [] {
      assert s[..|s| - 1] == [];
    } else {
      assert s[..|s| - 1] == [c] + t[..|t| - 1];
      assert s[|s| - 1] == t[|t| - 1];
      PrependDigit(c, t[..|t| - 1], 4 - w);
      assert WeightAt(|t| - 1, 4 - w) == WeightAt(|t|, w);
    }
  }

  /**
   * Appending the check digit makes the whole code valid: with weights 1, 3, 1, ...
   * from the new rightmost digit, the weighted sum is a multiple of 10.
   */
  lemma CheckDigitCompletes(s: string)
    requires AllDigits(s)
    ensures AllDigits(s + [DigitChar(CheckDigit(s))])
    ensures WeightedSum(s + [DigitChar(CheckDigit(s))], 1) % 10 == 0
  {
    var c := CheckDigit(s);
    var full := s + [DigitChar(c)];
    assert full[..|full| - 1] == s;
    assert Value(full[|full| - 1]) == c;
    assert WeightedSum(full, 1) == c + WeightedSum(s, 3);
  }

  /** The check digit is the only digit that completes the payload. */
  lemma CheckDigitUnique(s: string, d: int)
    requires AllDigits(s)
    requires 0 <= d <= 9
    ensures AllDigits(s + [DigitChar(d)])
    ensures WeightedSum(s + [DigitChar(d)], 1) % 10 == 0 <==> d == CheckDigit(s)
  {
    var full := s + [DigitChar(d)];
    assert full[..|full| - 1] == s;
    assert Value(full[|full| - 1]) == d;
    assert WeightedSum(full, 1) == d + WeightedSum(s, 3);
    WeightedSumNonNegative(s, 3);
  }

  /**
   * Rounding a non-negative sum up to a multiple of ten as `(sum + 9) - (sum + 9) % 10`
   * gives the least multiple of ten not below it, so the difference is the check digit.
   */
  lemma RoundUpToTen(sum: int)
    requires sum >= 0
    ensures (sum + 9) - (sum + 9) % 10 >= sum
    ensures ((sum + 9) - (sum + 9) % 10) % 10 == 0
    ensures (sum + 9) - (sum + 9) % 10 < sum + 10
    ensures (sum + 9) - (sum + 9) % 10 - sum == (10 - sum % 10) % 10
  {
  }

  /** The check digit of the example payload 4006381. */
  lemma CheckDigitExample()
    ensures CheckDigit("4006381") == 2
  {
    assert "4006381"[..6] == "400638";
    assert "400638"[..5] == "40063";
    assert "40063"[..4] == "4006";
    assert "4006"[..3] == "400";
    assert "400"[..2] == "40";
    assert "40"[..1] == "4";
    assert "4"[..0] == "";
    assert WeightedSum("4006381", 3) == 38;
  }
}
