/** Decimal digit characters and their values. Only the ASCII digits '0'..'9' are digits here. */
module Digits {

  predicate IsDigit(c: char) {
    '0' <= c <= '9'
  }

  predicate AllDigits(s: string) {
    forall i :: 0 <= i < |s| ==> IsDigit(s[i])
  }

  /** The value of a digit character, as `Integer.parseInt("" + c)` computes it. */
  function Value(c: char): (d: int)
    requires IsDigit(c)
    ensures 0 <= d <= 9
  {
    c as int - '0' as int
  }

  /** The one-character decimal rendering of a value 0..9, as string concatenation of an int gives it. */
  function DigitChar(d: int): (c: char)
    requires 0 <= d <= 9
    ensures IsDigit(c) && Value(c) == d
  {
    ('0' as int + d) as char
  }

  lemma CharOfValue(c: char)
    requires IsDigit(c)
    ensures DigitChar(Value(c)) == c
  {
  }
}

/**
 * The fixed patterns of the EAN/UPC symbology: the guard patterns and the
 * number-set A ("left") and number-set C ("right") digit tables.
 */
module CodeTables {
  import opened Digits

  const StartMarker: string := "101"
  const EndMarker: string := "101"
  const Separator: string := "01010"

  const LCode: map<int, string> := map[
    0 := "0001101", 1 := "0011001", 2 := "0010011", 3 := "0111101", 4 := "0100011",
    5 := "0110001", 6 := "0101111", 7 := "0111011", 8 := "0110111", 9 := "0001011"]

  const RCode: map<int, string> := map[
    0 := "1110010", 1 := "1100110", 2 := "1101100", 3 := "1000010", 4 := "1011100",
    5 := "1001110", 6 := "1010000", 7 := "1000100", 8 := "1001000", 9 := "1110100"]

  predicate IsBit(b: char) {
    b == '0' || b == '1'
  }

  predicate IsBitString(s: string) {
    forall i :: 0 <= i < |s| ==> IsBit(s[i])
  }

  /** A digit table: defined on exactly the digits 0..9, every pattern seven bits long. */
  ghost predicate IsTable(t: map<int, string>) {
    (forall d :: d in t <==> 0 <= d <= 9) &&
    (forall d :: d in t ==> |t[d]| == 7 && IsBitString(t[d]))
  }

  /** No two digits share a pattern. */
  ghost predicate Injective(t: map<int, string>) {
    forall a, b :: a in t && b in t && t[a] == t[b] ==> a == b
  }

  function Flip(b: char): char {
    if b == '0' then '1' else '0'
  }

  /** The pattern of digit `d` in the left table (`left`) or the right table. */
  function Pattern(left: bool, d: int): (p: string)
    requires 0 <= d <= 9
    ensures |p| == 7
  {
    if left then LCode[d] else RCode[d]
  }

  /**
   * Reverse lookup in `t`: the first digit from `d` on whose pattern is `p`, or -1.
   * Whatever it finds is a digit of the table with pattern `p`.
   */
  function LookupFrom(t: map<int, string>, p: string, d: nat): (r: int)
    requires d <= 10
    ensures r == -1 || (d <= r <= 9 && r in t && t[r] == p)
    decreases 10 - d
  {
    if d == 10 then -1
    else if d in t && t[d] == p then d
    else LookupFrom(t, p, d + 1)
  }

  /** Reverse lookup in `t`: the digit whose pattern is `p`, or -1. */
  function Lookup(t: map<int, string>, p: string): (r: int)
    ensures r == -1 || (0 <= r <= 9 && r in t && t[r] == p)
  {
    LookupFrom(t, p, 0)
  }

  lemma {:induction false} LookupFromFinds(t: map<int, string>, d: int, k: nat)
    requires Injective(t)
    requires k <= d <= 9 && d in t
    ensures LookupFrom(t, t[d], k) == d
    decreases d - k
  {
    if k < d {
      assert !(k in t && t[k] == t[d]);
      LookupFromFinds(t, d, k + 1);
    }
  }

  /** In a table without shared patterns, looking up a digit's pattern gives back the digit. */
  lemma LookupComplete(t: map<int, string>, d: int)
    requires Injective(t)
    requires 0 <= d <= 9 && d in t
    ensures Lookup(t, t[d]) == d
  {
    LookupFromFinds(t, d, 0);
  }

  /** The digit of a left pattern, read off the table by hand; it shows the left table has no shared patterns. */
  ghost function LeftDigit(p: string): int {
    if p == "0001101" then 0 else if p == "0011001" then 1 else if p == "0010011" then 2
    else if p == "0111101" then 3 else if p == "0100011" then 4 else if p == "0110001" then 5
    else if p == "0101111" then 6 else if p == "0111011" then 7 else if p == "0110111" then 8
    else if p == "0001011" then 9 else -1
  }

  /** The same for the right table. */
  ghost function RightDigit(p: string): int {
    if p == "1110010" then 0 else if p == "1100110" then 1 else if p == "1101100" then 2
    else if p == "1000010" then 3 else if p == "1011100" then 4 else if p == "1001110" then 5
    else if p == "1010000" then 6 else if p == "1000100" then 7 else if p == "1001000" then 8
    else if p == "1110100" then 9 else -1
  }

  lemma LeftEntry(d: int)
    requires 0 <= d <= 9
    ensures d in LCode && |LCode[d]| == 7 && IsBitString(LCode[d]) && LeftDigit(LCode[d]) == d
  {
  }

  lemma RightEntry(d: int)
    requires 0 <= d <= 9
    ensures d in RCode && |RCode[d]| == 7 && IsBitString(RCode[d]) && RightDigit(RCode[d]) == d
  {
  }

  lemma LeftTableWellFormed()
    ensures IsTable(LCode) && Injective(LCode)
  {
    forall d | 0 <= d <= 9
      ensures d in LCode && |LCode[d]| == 7 && IsBitString(LCode[d])
    {
      LeftEntry(d);
    }
    forall a, b | a in LCode && b in LCode && LCode[a] == LCode[b]
      ensures a == b
    {
      LeftEntry(a);
      LeftEntry(b);
    }
  }

  lemma RightTableWellFormed()
    ensures IsTable(RCode) && Injective(RCode)
  {
    forall d | 0 <= d <= 9
      ensures d in RCode && |RCode[d]| == 7 && IsBitString(RCode[d])
    {
      RightEntry(d);
    }
    forall a, b | a in RCode && b in RCode && RCode[a] == RCode[b]
      ensures a == b
    {
      RightEntry(a);
      RightEntry(b);
    }
  }

  /**
   * Both tables are digit tables, and no two digits share a pattern, so a pattern
   * identifies its digit and the reverse lookup finds it.
   */
  lemma TablesWellFormed()
    ensures IsTable(LCode) && IsTable(RCode)
    ensures Injective(LCode) && Injective(RCode)
    ensures forall d :: 0 <= d <= 9 ==> Lookup(LCode, Pattern(true, d)) == d && Lookup(RCode, Pattern(false, d)) == d
  {
    LeftTableWellFormed();
    RightTableWellFormed();
    forall d | 0 <= d <= 9
      ensures Lookup(LCode, Pattern(true, d)) == d && Lookup(RCode, Pattern(false, d)) == d
    {
      LookupComplete(LCode, d);
      LookupComplete(RCode, d);
    }
  }

  /** Every right-hand pattern is the bit-wise complement of the left-hand pattern of the same digit. */
  lemma RightIsComplementOfLeft(d: int)
    requires 0 <= d <= 9
    ensures |RCode[d]| == |LCode[d]| == 7
    ensures forall k :: 0 <= k < 7 ==> RCode[d][k] == Flip(LCode[d][k])
  {
  }

  /** No left pattern is a right pattern: left patterns begin with a space, right ones with a bar. */
  lemma TablesDisjoint(a: int, b: int)
    requires 0 <= a <= 9 && 0 <= b <= 9
    ensures LCode[a][0] == '0' && RCode[b][0] == '1'
    ensures LCode[a] != RCode[b]
  {
  }
}
