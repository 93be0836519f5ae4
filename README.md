# EAN-8 barcode generator: a verified model

This project models the core of the EAN-8 generator in `src/CodeGenFX/Barcode/EAN8.java`:
- the input check (`isValid`);
- the GS1 mod-10 check digit (`checksum`);
- the reference digits built in `runGenerator`;
- the bit string built by `generateRaw` from the guard patterns and the number-set A ("left") and number-set C ("right") digit tables;
- the integer part of `renderBarcode`: which bits become bars, which of them are guard bars, and the row each bar ends on.

The generator object is the class `Generator.Ean8`. Its fields `data`, `digits` and `strict` are overwritten by a run. The source spells the last field `stict`.

Each source method is a Dafny method with the source's loop, and each is proved equal to a specification function:
- `isValid` is proved equal to `Validation.Validate`;
- `checksum` to `Checksum.CheckDigit`;
- `generateRaw` to `Encoding.Encode`;
- the bar loop to `Bars.BarsOf`;
- one whole run to `Pipeline.Generate`.

The properties are lemmas about those functions:
- what each validity code means;
- the check-digit identity, and that the check digit is unique;
- the layout of the 67-bit symbol;
- decoding inverts encoding, in both directions;
- the tables are injective, and the right table is the left table complemented;
- the six guard indices fall on '1' bits of the markers and the separator;
- only guard bars reach `margin / 2` rows lower.

Modules and files:
- `wrappers.dfy`: `Option` and `Result`.
- `tables.dfy`:
  - `Digits`: the digit characters '0'..'9' and their values.
  - `CodeTables`: the constants `StartMarker`, `EndMarker`, `Separator`, `LCode` and `RCode` (EAN8.java:70-100), and a reverse lookup.
- `validation.dfy` (`Validation`): the check and its outcome codes.
- `checksum.dfy` (`Checksum`): the weighted sum and the check digit.
- `encoding.dfy` (`Encoding`): the bit string and its decoder. Both are written for any pair of digit tables (`EncodeWith`, `DecodeWith`). `Encode` and `Decode` are the pair with the EAN tables.
- `bars.dfy` (`Bars`): the guard indices and the bars of a bit string.
- `pipeline.dfy` (`Pipeline`): one generation as a function, with its errors.
- `generator.dfy` (`Generator`): the class with the source's methods and loops.

The two `for` loops of `generateRaw` are written once, as `Ean8.AppendPatterns`. `GenerateRaw` calls it once with `LCode` over the first half of the digits and once with `RCode` over the second half.

Bar rows: for each '1' bit the renderer sets `endY` to `heigth`, or to `heigth + margin / 2` when the bit is a guard index (EAN8.java:407-409). It then draws the bar from row `margin` to row `endY + margin` (EAN8.java:414-417). So a digit bar ends at `height + margin` and a guard bar `margin / 2` rows lower; `Bars.EndRow` is that choice.

## Model

| member | source | states |
|---|---|---|
| Generator.Ean8.IsValid | src/CodeGenFX/Barcode/EAN8.java:259-280 | The code returned under the object's `digits` and `strict` fields is the code of `Validate`: the first failing check, in the source's order. |
| Generator.Ean8.Checksum | src/CodeGenFX/Barcode/EAN8.java:287-306 | On a digit string, the reversal, the loop that alternates weights 3 and 1, and the round-up to the next multiple of ten return exactly `CheckDigit`. |
| Generator.Ean8.AppendPatterns | src/CodeGenFX/Barcode/EAN8.java:318-328 | It is both loops (left table at 318-321, right table at 325-328): it appends, digit by digit, the table patterns of `input[from..to]`: the result is `raw + Blocks(input[from..to], table)`. |
| Generator.Ean8.GenerateRaw | src/CodeGenFX/Barcode/EAN8.java:313-332 | Start marker, left-table loop over the first half, separator, right-table loop over the rest, end marker: the result is `Encode(input)`. |
| Generator.Ean8.LayoutBars | src/CodeGenFX/Barcode/EAN8.java:377-429 | The guard-index array (377-378) and the bar loop with its end-row choice (396-429) yield exactly `BarsOf(raw, height, margin)`. |
| Generator.Ean8.RunGenerator | src/CodeGenFX/Barcode/EAN8.java:124-185 | Stores the settings in the fields. Then it validates, builds the reference digits, encodes them and lays out the bars. The result, an error or a symbol, equals `Generate` for the same inputs. |
| Validation.Validity.Code | src/CodeGenFX/Barcode/EAN8.java:250-258 | The validity code is in 0..3 and is 0 exactly for a valid input. |
| Validation.ValidityMeaning | src/CodeGenFX/Barcode/EAN8.java:259-280 | 0 exactly when the mode's length condition holds and every character is a digit. 3 exactly when the length condition holds and some character is not a digit. 1 exactly on a strict length mismatch. 2 exactly on a short input in the lenient mode. |
| Validation.ValidHasPrefix | src/CodeGenFX/Barcode/EAN8.java:259-280 | A valid input has at least `digits` characters, all digits, and exactly `digits` in strict mode. So `substring(0, digits)` is defined. |
| Validation.ValidityExamples | src/CodeGenFX/Barcode/EAN8.java:261-277 | The length check wins over the character scan: "123456a" with 8 digits in strict mode gives 1, not 3. In the lenient mode characters past `digits` are still scanned. |
| Digits.DigitChar | src/CodeGenFX/Barcode/EAN8.java:164 | The character appended for a check digit is a digit whose value is that check digit. |
| Validation.Validate | src/CodeGenFX/Barcode/EAN8.java:259-280 | The input is valid exactly when the mode's length condition holds and every character is a digit; the other codes are stated by `ValidityMeaning`. |
| Checksum.CheckDigit | src/CodeGenFX/Barcode/EAN8.java:294-305 | The check digit is in 0..9 and brings the weighted sum (weights 3, 1, 3, ... from the right) to a multiple of ten; it is the only digit 0..9 that does. |
| Checksum.RoundUpToTen | src/CodeGenFX/Barcode/EAN8.java:303-305 | For a non-negative sum, `(sum + 9) - (sum + 9) % 10` is the least multiple of ten not below the sum. Subtracting the sum gives `(10 - sum % 10) % 10`, which is 0 when the sum is already a multiple of ten. |
| Checksum.CheckDigitCompletes | src/CodeGenFX/Barcode/EAN8.java:160-165 | After the check digit is appended, the weighted sum with weights 1, 3, 1, ... from the new last digit is a multiple of ten. |
| Checksum.CheckDigitUnique | src/CodeGenFX/Barcode/EAN8.java:287-306 | The check digit is the only digit 0..9 whose appending makes that sum a multiple of ten. |
| Checksum.CheckDigitExample | src/CodeGenFX/Barcode/EAN8.java:287-306 | The check digit of 4006381 is 2. |
| CodeTables.TablesWellFormed | src/CodeGenFX/Barcode/EAN8.java:74-100 | Both tables map exactly the digits 0..9 to seven-bit patterns. No two digits share a pattern. The reverse lookup of a digit's pattern gives back the digit. |
| CodeTables.LookupFrom | src/CodeGenFX/Barcode/EAN8.java:74-100 | The source has no reverse lookup; this is the decoder's inverse of the tables, added to state the round trip. It only ever returns a digit of the table whose pattern is the one looked up, or -1. |
| CodeTables.LookupComplete | src/CodeGenFX/Barcode/EAN8.java:74-100 | In any table without shared patterns, the reverse lookup of a digit's pattern finds that digit. |
| CodeTables.RightIsComplementOfLeft | src/CodeGenFX/Barcode/EAN8.java:74-100 | Every right pattern is the bit-wise complement of the left pattern of the same digit. |
| CodeTables.TablesDisjoint | src/CodeGenFX/Barcode/EAN8.java:74-100 | No left pattern is a right pattern: left patterns start with '0', right ones with '1'. |
| Encoding.Blocks | src/CodeGenFX/Barcode/EAN8.java:318-328 | A run of table lookups has seven bits per digit. |
| Encoding.BlocksExtend | src/CodeGenFX/Barcode/EAN8.java:318-328 | Appending one more digit's pattern extends the encoding of a slice by exactly that digit. |
| Encoding.Encode | src/CodeGenFX/Barcode/EAN8.java:313-332 | The bit string of n digits has `11 + 7n` bits, all '0' or '1', and starts and ends with "101"; `EncodeShape` gives the rest of its layout and `DecodeEncode`/`EncodeDecode` that it determines the digits. |
| Encoding.EncodeShape | src/CodeGenFX/Barcode/EAN8.java:313-332 | For n digits: length `11 + 7n`, "101" at both ends, "01010" at offset `3 + 7(n/2)`. Block i is the left pattern of digit i for i < n/2 and the right pattern otherwise. Every character is a bit. |
| Encoding.EncodeEight | src/CodeGenFX/Barcode/EAN8.java:313-332 | The symbol of eight digits is the frame of four left patterns and four right patterns. |
| Encoding.DecodeEncode | src/CodeGenFX/Barcode/EAN8.java:313-332 | Decoding the bit string of a digit string gives back exactly that digit string. |
| Encoding.EncodeDecode | src/CodeGenFX/Barcode/EAN8.java:313-332 | Whatever decodes to a digit string is exactly the encoding of that string, so the bit string and the digits determine each other. |
| Encoding.DecodeEncodeWith | src/CodeGenFX/Barcode/EAN8.java:313-332 | The round trip holds for any two digit tables without shared patterns. |
| Encoding.EncodeDecodeWith | src/CodeGenFX/Barcode/EAN8.java:313-332 | The converse round trip holds for any two digit tables. |
| Encoding.EncodeExample | src/CodeGenFX/Barcode/EAN8.java:313-332 | 40063812 encodes to 101, then 0100011 0001101 0001101 0101111, then 01010, then 1000010 1001000 1100110 1101100, then 101. |
| Bars.GuardIndices | src/CodeGenFX/Barcode/EAN8.java:377-378 | Six guard indices. For a string of at least five bits each is a bit position; for an odd number of bits they are symmetric about the centre bit. |
| Bars.EndRow | src/CodeGenFX/Barcode/EAN8.java:407-417 | A bar ends between row `height + margin` and `margin / 2` rows below it, and with a margin of at least one row it stays above the bottom edge of the image. |
| Bars.BarsUpTo | src/CodeGenFX/Barcode/EAN8.java:399-429 | The first n iterations of the bar loop draw at most n bars; `BarsUpToSound`, `BarsUpToOrdered` and `BarsUpToComplete` state which. |
| Bars.BarsUpToSound | src/CodeGenFX/Barcode/EAN8.java:399-429 | Every bar of the first n iterations belongs to a '1' bit below n, starts at the top margin and has that bit's end row. |
| Bars.BarsUpToOrdered | src/CodeGenFX/Barcode/EAN8.java:399-429 | The bars of the first n iterations are in strictly increasing bit order. |
| Bars.BarsUpToComplete | src/CodeGenFX/Barcode/EAN8.java:399-429 | Every '1' bit below n has a bar among the first n iterations. |
| Bars.BarsOf | src/CodeGenFX/Barcode/EAN8.java:399-429 | No more bars than bits, each the bar of a '1' bit with its end row, in strictly increasing bit order, so at most one bar per bit; `BarsMeaning` adds that every '1' bit has its bar. |
| Bars.BarsMeaning | src/CodeGenFX/Barcode/EAN8.java:396-429 | Exactly one bar per '1' bit, in bit order. Every bar starts at the top margin and ends at `height + margin` rows, `margin / 2` rows more when its bit is a guard index. |
| Bars.BarsInsideCanvas | src/CodeGenFX/Barcode/EAN8.java:380 | With a margin of at least one pixel, every bar lies inside the `height + 2 * margin` rows of the image. |
| Bars.GuardIndicesOfSymbol | src/CodeGenFX/Barcode/EAN8.java:377-378 | For the 67-bit symbol the guard indices are 0, 2, 32, 34, 64 and 66. |
| Bars.GuardsOfFrame | src/CodeGenFX/Barcode/EAN8.java:377-378 | In a framed string of an even number of digits, the guard indices are the outer bits of the markers and the two bars of the separator. |
| Bars.GuardsOnGuardPatterns | src/CodeGenFX/Barcode/EAN8.java:377-378 | For an even number of digits, every guard index holds a '1' of the start marker, the separator or the end marker. |
| Bars.BarsOfSymbol | src/CodeGenFX/Barcode/EAN8.java:405-409 | In any 67-bit string, the bars at 0, 2, 32, 34, 64 and 66 end `margin / 2` rows lower, the others at `height + margin`. |
| Bars.GuardBarsOfSymbol | src/CodeGenFX/Barcode/EAN8.java:405-409 | In the symbol of eight digits, all six guard bars are drawn and long. Every other bar is short. |
| Pipeline.ErrorOf | src/CodeGenFX/Barcode/EAN8.java:133-150 | Each failing validity code has its own error, in both directions. |
| Pipeline.ReferenceData | src/CodeGenFX/Barcode/EAN8.java:160-165 | The reference string has eight digits and begins with the first `digits` characters of the input. |
| Pipeline.Generate | src/CodeGenFX/Barcode/EAN8.java:124-185 | A run succeeds exactly when the input is valid, and then yields eight reference digits and a 67-bit string. |
| Pipeline.ReferenceDataShape | src/CodeGenFX/Barcode/EAN8.java:160-165 | The reference string is the first `digits` input characters, then the check digit when `digits` is 7. It always has eight digits. For 7 its weighted sum with weights 1, 3, 1, ... is a multiple of ten. |
| Pipeline.GenerateFails | src/CodeGenFX/Barcode/EAN8.java:124-156 | Generation fails exactly when validation does, with the error of the failing code. |
| Pipeline.SymbolOfEightDigits | src/CodeGenFX/Barcode/EAN8.java:313-332 | Eight digits give 67 bits that decode back to them. The bars at the six guard bits are the long ones. |
| Pipeline.GenerateSucceeds | src/CodeGenFX/Barcode/EAN8.java:160-185 | A valid input yields the reference digits and a 67-bit string that decodes back to them. Its bars are on '1' bits, and the long ones are those at 0, 2, 32, 34, 64 and 66. |
| Pipeline.GenerateExample | src/CodeGenFX/Barcode/EAN8.java:160-165 | 4006381 with seven digits in the lenient mode generates the reference digits 40063812. |

## Left out

- The JavaFX form (`mandatoryProperties`, `collectSettings`, `resetSettings`) and `src/CodeGenFX/Controller.java` are not part of this model. The widget values arrive as parameters of `RunGenerator`.
- RunGenerator: requires `digits` to be 7 or 8. It excludes the initial `digits = -1` of EAN8.java:202, which no selection state reaches: the toggle group holds only the 7- and 8-digit buttons and the 7-digit one starts selected (EAN8.java:492-493).
- The scale, and the float sizes rounded to pixels (`Math.round(WIDTH * SCALE * DPMM)` and the like), are left out. `height` and `margin` are given integers, and the symbol width is not modelled.
- Also left out: the bit-width compensation loop (`bit -= 0.005`), the float x-coordinates of the bars and the strike-through rectangle, since they are floating-point geometry. A `Bar` records only its bit index and its first and last rows.
- The drawing itself is not modelled: `BufferedImage`, `Graphics`, colours, the debug overlays and the conversion to a JavaFX image are library calls whose output cannot be observed here.
- The `System.out.println` tracing is output only and is left out.
- Exception messages are left out. A failed run returns `Err` with one `BarcodeError` variant per validity code, in place of a thrown `BarcodeException`.
- The commented-out dimension table is dead code and is left out.
- Validation.Validate: counts characters as Unicode scalar values, while Java's `length()` at EAN8.java:261 and 266 counts UTF-16 code units. On input with a character outside the Basic Multilingual Plane the two lengths differ, and so can the code: "123456😀" with 8 digits in strict mode gives 3 in the source (its length is 8 and the scan meets a surrogate) and 1 in the model. Lone surrogates cannot be written as model strings at all.
- Generator.Ean8.IsValid: has the same length difference as `Validation.Validate` on characters outside the Basic Multilingual Plane.
- Generator.Ean8.Checksum: `sum` is unbounded here, while the source's `sum` (EAN8.java:295-299) is a 32-bit `int`. It cannot overflow for the seven-digit payload the source passes (at most 135 before rounding); for digit strings of more than about 119 million digits the source's sum would wrap and the model's would not.
- Digits.IsDigit: accepts only '0'..'9'. `Character.isDigit` and `Integer.parseInt` also accept other Unicode decimal digits; those inputs are outside this model.
- The source does not check the check digit of an 8-digit input, and neither does the model. `ReferenceDataShape` states the multiple-of-ten property only for seven digits.
