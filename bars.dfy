/**
 * The integer part of rendering: which bits become bars, and how far down each bar
 * reaches. Guard bars (the start marker, the two bars of the centre separator and the
 * end marker) reach `margin / 2` rows lower than the bars of the digits.
 */
module Bars {
  import opened Digits
  import opened CodeTables
  import opened Encoding

  /** Java's integer division, which rounds toward zero. */
  function JavaDiv(a: int, b: int): int
    requires b > 0
  {
    if a >= 0 then a / b else -((-a) / b)
  }

  /** The indices of the guard bars in a bit string of `len` bits. */
  function GuardIndices(len: int): (r: seq<int>)
    ensures |r| == 6
    ensures len >= 5 ==> forall k :: 0 <= k < 6 ==> 0 <= r[k] < len
    ensures len % 2 == 1 ==> forall k :: 0 <= k < 6 ==> r[k] + r[5 - k] == len - 1
  {
    var l := len - 1;
    [0, 2, JavaDiv(l, 2) - 1, JavaDiv(l, 2) + 1, l - 2, l]
  }

  /** One drawn bar: its bit index and the first and last pixel rows it covers. */
  datatype Bar = Bar(index: nat, startRow: int, endRow: int)

  /** The last row of a bar that starts at row `margin` under the top margin. */
  function EndRow(guard: bool, height: nat, margin: nat): (r: int)
    ensures height + margin <= r <= height + margin + margin / 2
    ensures margin >= 1 ==> r < height + 2 * margin
  {
    (if guard then height + margin / 2 else height) + margin
  }

  /** The bars for the first `n` bits of `raw`, left to right, one for each '1'. */
  function BarsUpTo(raw: string, n: nat, height: nat, margin: nat): (r: seq<Bar>)
    requires n <= |raw|
    ensures |r| <= n
  {
    if n == 0 then []
    else
      var i := n - 1;
      BarsUpTo(raw, i, height, margin)
      + (if raw[i] == '1' then [Bar(i, margin, EndRow(i in GuardIndices(|raw|), height, margin))] else [])
  }

  /** The bars of `raw`: at most one per bit, in bit order, each the bar of a '1' bit. */
  function BarsOf(raw: string, height: nat, margin: nat): (r: seq<Bar>)
    ensures |r| <= |raw|
    ensures forall b :: b in r ==> IsBarOf(raw, b, height, margin)
    ensures forall j, k :: 0 <= j < k < |r| ==> r[j].index < r[k].index
  {
    BarsUpToSound(raw, |raw|, height, margin);
    BarsUpToOrdered(raw, |raw|, height, margin);
    BarsUpTo(raw, |raw|, height, margin)
  }

  /** `b` is the bar the renderer draws for a '1' bit of `raw`. */
  predicate IsBarOf(raw: string, b: Bar, height: nat, margin: nat) {
    b.index < |raw| && raw[b.index] == '1' && b.startRow == margin
    && b.endRow == EndRow(b.index in GuardIndices(|raw|), height, margin)
  }

  /** The bars up to `n` extend those up to `n - 1` by at most the bar of bit `n - 1`. */
  lemma BarsUpToStep(raw: string, n: nat, height: nat, margin: nat)
    requires 0 < n <= |raw|
    ensures var prev, bars := BarsUpTo(raw, n - 1, height, margin), BarsUpTo(raw, n, height, margin);
      && bars[..|prev|] == prev
      && (raw[n - 1] == '1' ==> |bars| == |prev| + 1 && bars[|prev|].index == n - 1 && IsBarOf(raw, bars[|prev|], height, margin))
      && (raw[n - 1] != '1' ==> bars == prev)
  {
  }

  lemma {:induction false} BarsUpToSound(raw: string, n: nat, height: nat, margin: nat)
    requires n <= |raw|
    ensures forall b :: b in BarsUpTo(raw, n, height, margin) ==> b.index < n && IsBarOf(raw, b, height, margin)
  {
    if n > 0 {
      BarsUpToSound(raw, n - 1, height, margin);
      BarsUpToStep(raw, n, height, margin);
      var prev, bars := BarsUpTo(raw, n - 1, height, margin), BarsUpTo(raw, n, height, margin);
      forall b | b in bars
        ensures b.index < n && IsBarOf(raw, b, height, margin)
      {
        var k :| 0 <= k < |bars| && bars[k] == b;
        if k < |prev| {
          assert b == bars[..|prev|][k];
        }
      }
    }
  }

  lemma {:induction false} BarsUpToOrdered(raw: string, n: nat, height: nat, margin: nat)
    requires n <= |raw|
    ensures forall j, k :: 0 <= j < k < |BarsUpTo(raw, n, height, margin)| ==>
      BarsUpTo(raw, n, height, margin)[j].index < BarsUpTo(raw, n, height, margin)[k].index
  {
    if n > 0 {
      BarsUpToOrdered(raw, n - 1, height, margin);
      BarsUpToSound(raw, n - 1, height, margin);
      BarsUpToStep(raw, n, height, margin);
      var prev, bars := BarsUpTo(raw, n - 1, height, margin), BarsUpTo(raw, n, height, margin);
      forall j, k | 0 <= j < k < |bars|
        ensures bars[j].index < bars[k].index
      {
        assert bars[j] == bars[..|prev|][j];
        if k < |prev| {
          assert bars[k] == bars[..|prev|][k];
        } else {
          assert prev[j] in prev;
        }
      }
    }
  }

  lemma {:induction false} BarsUpToComplete(raw: string, n: nat, height: nat, margin: nat)
    requires n <= |raw|
    ensures forall i :: 0 <= i < n && raw[i] == '1' ==>
      exists b :: b in BarsUpTo(raw, n, height, margin) && b.index == i
  {
    if n > 0 {
      BarsUpToComplete(raw, n - 1, height, margin);
      BarsUpToStep(raw, n, height, margin);
      var prev, bars := BarsUpTo(raw, n - 1, height, margin), BarsUpTo(raw, n, height, margin);
      forall i | 0 <= i < n && raw[i] == '1'
        ensures exists b :: b in bars && b.index == i
      {
        if i < n - 1 {
          var b :| b in prev && b.index == i;
          var k :| 0 <= k < |prev| && prev[k] == b;
          assert bars[k] == bars[..|prev|][k];
        } else {
          assert bars[|prev|] in bars;
        }
      }
    }
  }

  /**
   * There is exactly one bar for each '1' bit, in bit order; every bar starts at the top
   * margin, and it ends `margin / 2` rows lower when its bit is a guard bit.
   */
  lemma BarsMeaning(raw: string, height: nat, margin: nat)
    ensures forall b :: b in BarsOf(raw, height, margin) ==>
      b.index < |raw| && raw[b.index] == '1' && b.startRow == margin
      && b.endRow == height + margin + (if b.index in GuardIndices(|raw|) then margin / 2 else 0)
    ensures forall i :: 0 <= i < |raw| && raw[i] == '1' ==>
      exists b :: b in BarsOf(raw, height, margin) && b.index == i
    ensures forall j, k :: 0 <= j < k < |BarsOf(raw, height, margin)| ==>
      BarsOf(raw, height, margin)[j].index < BarsOf(raw, height, margin)[k].index
  {
    BarsUpToSound(raw, |raw|, height, margin);
    BarsUpToComplete(raw, |raw|, height, margin);
    BarsUpToOrdered(raw, |raw|, height, margin);
  }

  /** With a margin of at least one row, every bar lies inside the canvas of `height + 2 * margin` rows. */
  lemma BarsInsideCanvas(raw: string, height: nat, margin: nat)
    requires margin >= 1
    ensures forall b :: b in BarsOf(raw, height, margin) ==>
      0 <= b.startRow <= b.endRow < height + 2 * margin
  {
    BarsMeaning(raw, height, margin);
  }

  /** For a 67-bit symbol, the guard bits are 0, 2, 32, 34, 64 and 66. */
  lemma GuardIndicesOfSymbol()
    ensures GuardIndices(67) == [0, 2, 32, 34, 64, 66]
  {
  }

  /** In any 67-bit string, the bars of bits 0, 2, 32, 34, 64 and 66 are the long ones. */
  lemma BarsOfSymbol(raw: string, height: nat, margin: nat)
    requires |raw| == 67
    ensures forall b :: b in BarsOf(raw, height, margin) ==>
      b.index < 67 && raw[b.index] == '1'
      && b.endRow == height + margin + (if b.index in [0, 2, 32, 34, 64, 66] then margin / 2 else 0)
  {
    GuardIndicesOfSymbol();
    BarsMeaning(raw, height, margin);
  }

  /**
   * In a framed bit string of an even number `n` of digits, the guard indices are the
   * outer bits of the two markers and the two bars of the separator.
   */
  lemma GuardsOfFrame(raw: string, n: nat)
    requires n % 2 == 0 && |raw| == 11 + 7 * n
    requires raw[..3] == StartMarker && raw[|raw| - 3..] == EndMarker
    requires raw[SeparatorStart(n)..SeparatorStart(n) + 5] == Separator
    ensures GuardIndices(|raw|) == [0, 2, SeparatorStart(n) + 1, SeparatorStart(n) + 3, |raw| - 3, |raw| - 1]
    ensures forall g :: g in GuardIndices(|raw|) ==>
      0 <= g < |raw| && raw[g] == '1'
      && (g < 3 || SeparatorStart(n) <= g < SeparatorStart(n) + 5 || |raw| - 3 <= g)
  {
    var sep := SeparatorStart(n);
    assert JavaDiv(|raw| - 1, 2) == sep + 2;
    assert raw[0] == raw[..3][0] && raw[2] == raw[..3][2];
    assert raw[sep + 1] == raw[sep..sep + 5][1] && raw[sep + 3] == raw[sep..sep + 5][3];
    assert raw[|raw| - 3] == raw[|raw| - 3..][0] && raw[|raw| - 1] == raw[|raw| - 3..][2];
  }

  /**
   * For an even number of digits, every guard index is a '1' of the start marker, of the
   * centre separator or of the end marker.
   */
  lemma GuardsOnGuardPatterns(s: string)
    requires AllDigits(s) && |s| % 2 == 0
    ensures forall g :: g in GuardIndices(|Encode(s)|) ==>
      0 <= g < |Encode(s)| && Encode(s)[g] == '1'
      && (g < 3 || SeparatorStart(|s|) <= g < SeparatorStart(|s|) + 5 || |Encode(s)| - 3 <= g)
  {
    EncodeShape(s);
    GuardsOfFrame(Encode(s), |s|);
  }

  /**
   * In the symbol of eight digits the six guard bars, and only they, reach `margin / 2`
   * rows below the others.
   */
  lemma GuardBarsOfSymbol(s: string, height: nat, margin: nat)
    requires AllDigits(s) && |s| == 8
    ensures forall g :: g in [0, 2, 32, 34, 64, 66] ==>
      exists b :: b in BarsOf(Encode(s), height, margin) && b.index == g && b.endRow == height + margin + margin / 2
    ensures forall b :: b in BarsOf(Encode(s), height, margin) && b.index !in [0, 2, 32, 34, 64, 66] ==>
      b.endRow == height + margin
  {
    EncodeShape(s);
    GuardIndicesOfSymbol();
    GuardsOnGuardPatterns(s);
    BarsMeaning(Encode(s), height, margin);
  }
}
