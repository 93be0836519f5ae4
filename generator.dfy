/**
 * The EAN-8 generator object. Its settings live in fields that a generation run
 * overwrites; each step is a method with a loop, proved equal to the specification
 * functions of the modules it imports.
 */
module Generator {
  import opened Wrappers
  import opened Digits
  import opened CodeTables
  import V = Validation
  import opened Checksum
  import opened Encoding
  import opened Bars
  import opened Pipeline

  class Ean8 {
    /** The input text of the last run. */
    var data: string
    /** The number of digits the user asked for: 7 (check digit appended) or 8. */
    var digits: int
    /** Strict mode: the input must have exactly `digits` characters. */
    var strict: bool

    /** The validity code of `input` under the current settings: 0 valid, 1, 2 or 3 for the first failed check. */
    method IsValid(input: string) returns (code: int)
      ensures code == V.Validate(input, digits, strict).Code()
    {
      if strict && |input| != digits {
        return 1;
      }
      if !strict && |input| < digits {
        return 2;
      }
      for i := 0 to |input|
        invariant forall k :: 0 <= k < i ==> IsDigit(input[k])
      {
        if !IsDigit(input[i]) {
          return 3;
        }
      }
      return 0;
    }

    /** The check digit of `input`: the digits reversed, weighted 3, 1, 3, ..., the sum rounded up to ten. */
    method Checksum(input: string) returns (check: int)
      requires AllDigits(input)
      ensures check == CheckDigit(input)
    {
      var n := |input|;
      var reversed := seq(n, k requires 0 <= k < n => input[n - 1 - k]);
      var mul := 3;
      var sum := 0;
      for i := 0 to n
        invariant sum == WeightedSum(input[n - i..], 3)
        invariant mul == WeightAt(i, 3)
      {
        PrependDigit(input[n - 1 - i], input[n - i..], 3);
        assert [input[n - 1 - i]] + input[n - i..] == input[n - 1 - i..];
        sum := sum + Value(reversed[i]) * mul;
        mul := if mul == 3 then 1 else 3;
      }
      assert input[n - n..] == input;
      WeightedSumNonNegative(input, 3);
      RoundUpToTen(sum);
      var nextMulOf10 := (sum + 9) - (sum + 9) % 10;
      check := nextMulOf10 - sum;
    }

    /**
     * `raw` followed by the patterns of `input[from..to]`, looked up one digit at a time
     * in `table`: one of the two loops of GenerateRaw.
     */
    method AppendPatterns(raw: string, input: string, from: nat, to: nat, table: map<int, string>) returns (out: string)
      requires AllDigits(input) && IsTable(table)
      requires from <= to <= |input|
      ensures out == raw + Blocks(input[from..to], table)
    {
      out := raw;
      assert input[from..from] == [];
      for i := from to to
        invariant out == raw + Blocks(input[from..i], table)
      {
        var code := table[Value(input[i])];
        BlocksExtend(input, from, i, table);
        out := out + code;
      }
    }

    /** The bit string of `input`: start marker, left half in the left table, separator, right half, end marker. */
    method GenerateRaw(input: string) returns (raw: string)
      requires AllDigits(input)
      ensures raw == Encode(input)
    {
      TablesWellFormed();
      var n := |input|;
      raw := StartMarker;
      raw := AppendPatterns(raw, input, 0, n / 2, LCode);
      raw := raw + Separator;
      raw := AppendPatterns(raw, input, n / 2, n, RCode);
      raw := raw + EndMarker;
      assert input[0..n / 2] == input[..n / 2] && input[n / 2..n] == input[n / 2..];
    }

    /**
     * The bars of `raw`, one per '1' bit, each from the top margin down to `height`
     * (plus `margin / 2` for guard bits), offset by the margin.
     */
    method LayoutBars(raw: string, height: nat, margin: nat) returns (bars: seq<Bar>)
      ensures bars == BarsOf(raw, height, margin)
    {
      var l := |raw| - 1;
      var specialIdx := [0, 2, JavaDiv(l, 2) - 1, JavaDiv(l, 2) + 1, l - 2, l];
      var startY := margin;
      bars := [];
      for i := 0 to |raw|
        invariant bars == BarsUpTo(raw, i, height, margin)
      {
        if raw[i] == '1' {
          var endY := if i in specialIdx then height + margin / 2 else height;
          bars := bars + [Bar(i, startY, endY + margin)];
        }
      }
    }

    /**
     * One generation run: store the settings, validate, build the reference digits,
     * encode them and lay out the bars. `height` and `margin` are the symbol's pixel
     * height and margin at the chosen scale.
     */
    method RunGenerator(input: string, digitCount: int, strictMode: bool, height: nat, margin: nat)
      returns (result: Result<Symbol, BarcodeError>)
      requires ValidDigitCount(digitCount)
      modifies this
      ensures data == input && digits == digitCount && strict == strictMode
      ensures result == Generate(input, digitCount, strictMode, height, margin)
    {
      data, digits, strict := input, digitCount, strictMode;
      var validityLevel := IsValid(data);
      if validityLevel == 1 {
        return Err(LengthMismatchStrict);
      } else if validityLevel == 2 {
        return Err(LengthTooShort);
      } else if validityLevel == 3 {
        return Err(InvalidCharacter);
      }
      V.ValidHasPrefix(data, digits, strict);
      var refData := data[..digits];
      if digits != 8 {
        var check := Checksum(refData);
        refData := refData + [DigitChar(check)];
      }
      var rawData := GenerateRaw(refData);
      var bars := LayoutBars(rawData, height, margin);
      result := Ok(Symbol(refData, rawData, bars));
    }
  }
}
