/**
 * One generation, as a value: validate, build the reference digits, encode them, lay out
 * the bars. The class in module Generator computes the same thing step by step.
 */
module Pipeline {
  import opened Wrappers
  import opened Digits
  import V = Validation
  import opened Checksum
  import opened Encoding
  import opened Bars

  /** The errors the generator reports; one per failing validity code. */
  datatype BarcodeError = LengthMismatchStrict | LengthTooShort | InvalidCharacter

  /** What a successful generation yields before rasterisation. */
  datatype Symbol = Symbol(refData: string, raw: string, bars: seq<Bar>)

  /** The digit counts the settings form offers. */
  predicate ValidDigitCount(digits: int) {
    digits == 7 || digits == 8
  }

  /** The first `digits` characters, followed by their check digit unless eight were given. */
  function ReferenceData(data: string, digits: int): (r: string)
    requires ValidDigitCount(digits)
    requires |data| >= digits && AllDigits(data)
    ensures |r| == 8 && AllDigits(r) && r[..digits] == data[..digits]
  {
    var payload := data[..digits];
    if digits != 8 then payload + [DigitChar(CheckDigit(payload))] else payload
  }

  /** The error for a failed validation. */
  function ErrorOf(v: V.Validity): (e: BarcodeError)
    requires v != V.Valid
    ensures e == LengthMismatchStrict <==> v == V.LengthMismatchStrict
    ensures e == LengthTooShort <==> v == V.LengthTooShort
    ensures e == InvalidCharacter <==> v == V.InvalidCharacter
  {
    match v
    case LengthMismatchStrict => LengthMismatchStrict
    case LengthTooShort => LengthTooShort
    case InvalidCharacter => InvalidCharacter
  }

  /** One generation from the input text, the settings and the pixel height and margin of the symbol. */
  function Generate(data: string, digits: int, strict: bool, height: nat, margin: nat): (r: Result<Symbol, BarcodeError>)
    requires ValidDigitCount(digits)
    ensures r.Ok? <==> V.Validate(data, digits, strict) == V.Valid
    ensures r.Ok? ==> |r.value.refData| == 8 && AllDigits(r.value.refData) && |r.value.raw| == 67
  {
    var v := V.Validate(data, digits, strict);
    if v != V.Valid then Err(ErrorOf(v))
    else
      V.ValidHasPrefix(data, digits, strict);
      var refData := ReferenceData(data, digits);
      var raw := Encode(refData);
      Ok(Symbol(refData, raw, BarsOf(raw, height, margin)))
  }

  /**
   * The reference string always has eight digits: the input's first `digits` characters,
   * then (for seven) the check digit, which makes the weighted sum a multiple of ten.
   */
  lemma ReferenceDataShape(data: string, digits: int)
    requires ValidDigitCount(digits)
    requires |data| >= digits && AllDigits(data)
    ensures |ReferenceData(data, digits)| == 8
    ensures AllDigits(ReferenceData(data, digits))
    ensures ReferenceData(data, digits)[..digits] == data[..digits]
    ensures digits == 8 ==> ReferenceData(data, digits) == data[..8]
    ensures digits == 7 ==> ReferenceData(data, digits)[7] == DigitChar(CheckDigit(data[..7]))
    ensures digits == 7 ==> WeightedSum(ReferenceData(data, digits), 1) % 10 == 0
  {
    var payload := data[..digits];
    assert AllDigits(payload);
    if digits == 7 {
      CheckDigitCompletes(payload);
      assert (payload + [DigitChar(CheckDigit(payload))])[..7] == payload;
    }
  }

  /** Generation fails exactly when validation does, and with the matching error. */
  lemma GenerateFails(data: string, digits: int, strict: bool, height: nat, margin: nat)
    requires ValidDigitCount(digits)
    ensures Generate(data, digits, strict, height, margin).Err? <==> V.Validate(data, digits, strict) != V.Valid
    ensures Generate(data, digits, strict, height, margin).Err? ==>
      Generate(data, digits, strict, height, margin).error == ErrorOf(V.Validate(data, digits, strict))
  {
  }

  /** The symbol of eight digits: 67 bits that decode back to them, long bars at the six guard bits. */
  lemma SymbolOfEightDigits(r: string, height: nat, margin: nat)
    requires AllDigits(r) && |r| == 8
    ensures |Encode(r)| == 67
    ensures Decode(Encode(r)) == Some(r)
    ensures forall b :: b in BarsOf(Encode(r), height, margin) ==>
      (b.index < 67 && Encode(r)[b.index] == '1'
       && b.endRow == height + margin + (if b.index in [0, 2, 32, 34, 64, 66] then margin / 2 else 0))
  {
    EncodeShape(r);
    DecodeEncode(r);
    BarsOfSymbol(Encode(r), height, margin);
  }

  /**
   * A successful generation yields a 67-bit string that decodes back to the reference
   * digits, and its long bars are those of bits 0, 2, 32, 34, 64 and 66.
   */
  lemma GenerateSucceeds(data: string, digits: int, strict: bool, height: nat, margin: nat)
    requires ValidDigitCount(digits)
    requires V.Validate(data, digits, strict) == V.Valid
    ensures |data| >= digits && AllDigits(data)
    ensures Generate(data, digits, strict, height, margin).Ok?
    ensures var sym := Generate(data, digits, strict, height, margin).value;
      && sym.refData == ReferenceData(data, digits)
      && |sym.raw| == 67
      && Decode(sym.raw) == Some(sym.refData)
      && forall b :: b in sym.bars ==>
        (b.index < |sym.raw| && sym.raw[b.index] == '1'
         && b.endRow == height + margin + (if b.index in [0, 2, 32, 34, 64, 66] then margin / 2 else 0))
  {
    V.ValidHasPrefix(data, digits, strict);
    var refData := ReferenceData(data, digits);
    ReferenceDataShape(data, digits);
    SymbolOfEightDigits(refData, height, margin);
  }

  /** The example payload: seven digits 4006381 become 40063812. */
  lemma GenerateExample(height: nat, margin: nat)
    ensures Generate("4006381", 7, false, height, margin).Ok?
    ensures Generate("4006381", 7, false, height, margin).value.refData == "40063812"
  {
    V.ValidHasPrefix("4006381", 7, false);
    assert "4006381"[..7] == "4006381";
    CheckDigitExample();
    assert DigitChar(2) == '2';
    assert "4006381" + ['2'] == "40063812";
  }
}
