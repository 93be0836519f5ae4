/** The input check run before any encoding: length first, then the character scan. */
module Validation {
  import opened Digits

  /** The outcome of the check; `Code` is the integer the check returns. */
  datatype Validity = Valid | LengthMismatchStrict | LengthTooShort | InvalidCharacter {
    function Code(): (c: int)
      ensures 0 <= c <= 3
      ensures c == 0 <==> this == Valid
    {
      match this
      case Valid => 0
      case LengthMismatchStrict => 1
      case LengthTooShort => 2
      case InvalidCharacter => 3
    }
  }

  /** The length condition of the mode: exactly `digits` characters when strict, at least `digits` otherwise. */
  predicate LengthAccepted(data: string, digits: int, strict: bool) {
    if strict then |data| == digits else |data| >= digits
  }

  /**
   * The checks in the order the generator runs them; the first failure is the answer.
   * In the lenient mode, characters beyond the first `digits` are scanned too.
   */
  function Validate(data: string, digits: int, strict: bool): (v: Validity)
    ensures v == Valid <==> LengthAccepted(data, digits, strict) && AllDigits(data)
  {
    if strict && |data| != digits then LengthMismatchStrict
    else if !strict && |data| < digits then LengthTooShort
    else if !AllDigits(data) then InvalidCharacter
    else Valid
  }

  /** What each outcome means, in both directions. */
  lemma ValidityMeaning(data: string, digits: int, strict: bool)
    ensures Validate(data, digits, strict) == Valid <==> LengthAccepted(data, digits, strict) && AllDigits(data)
    ensures Validate(data, digits, strict) == InvalidCharacter
        <==> LengthAccepted(data, digits, strict) && exists i :: 0 <= i < |data| && !IsDigit(data[i])
    ensures Validate(data, digits, strict) == LengthMismatchStrict <==> strict && |data| != digits
    ensures Validate(data, digits, strict) == LengthTooShort <==> !strict && |data| < digits
  {
  }

  /** A valid input has at least `digits` characters, all of them digits. */
  lemma ValidHasPrefix(data: string, digits: int, strict: bool)
    requires Validate(data, digits, strict) == Valid
    ensures |data| >= digits
    ensures AllDigits(data)
    ensures strict ==> |data| == digits
  {
  }

  /** The length check wins over the character scan; examples of each outcome. */
  lemma ValidityExamples()
    ensures Validate("123456a", 8, true) == LengthMismatchStrict
    ensures Validate("1234567", 8, true) == LengthMismatchStrict
    ensures Validate("1234567", 8, false) == LengthTooShort
    ensures Validate("123456a", 7, true) == InvalidCharacter
    ensures Validate("12345678a", 8, false) == InvalidCharacter
    ensures Validate("1234567", 7, true) == Valid
    ensures Validate("123456789", 8, false) == Valid
  {
    assert !IsDigit("123456a"[6]);
    assert !IsDigit("12345678a"[8]);
  }
}
