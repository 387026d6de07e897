# Rebar take-off: callout recogniser and quantity calculator

This project models the calculation engine of a small construction API
(`main.py`). The engine has two classes.

- `RebarExtractor` scans the TEXT and MTEXT entities of a DXF drawing. In each
  text it looks for a reinforcement callout such as `20 Ø12 L=340`: 20 bars of
  12 mm diameter, each 340 cm long. Every text that contains a callout gives
  one record holding the count, the diameter, the length (0 when absent) and
  the whole text.
- `MaterialCalculator.calculate_needs` turns those records into a bill of
  quantities. Records are grouped by diameter, but only diameters that have a
  unit weight (8, 10, 12, 14, 16, 18 and 20 mm) count. For each diameter the report gives the total
  length, the weight, and the number of 12 m stock bars needed. It also gives
  the project weight and the number of records read.

The model is split into five modules.

- `Lexing` holds the character classes `\d` and `\s`. It also has Python's
  `int(...)` on a digit string (`Value`) and `str(n)` (`Decimal`).
- `Callout` is the compiled pattern written as an explicit matcher.
  - `MatchAt` is the pattern anchored at one position.
  - `SearchFrom` / `Search` is `re.search`.
  - Every run in the pattern is followed by a character the run can never
    contain. So the greedy scan finds the same groups as Python's
    backtracking engine.
  - Lemmas prove that the matcher agrees with a declarative description of
    the pattern's shape, in both directions, including the leftmost start.
- `Extractor` is the loop of `parse_dxf` over the entity texts. It is an
  imperative `method`, proved equal to the function `Extracted`. It also has
  round trips: a callout printed from three numbers reads back as those
  numbers.
- `Calculator` is `calculate_needs`, written as two imperative loops:
  - the first loop fills `summary` and records the dictionary's insertion
    order;
  - the second loop builds the report.

  Lemmas describe the result:
  - which keys appear;
  - what each line holds;
  - the project weight equals the sum of the record weights;
  - the report does not depend on the order of the records.
- `Scenarios` holds worked examples: the source's own `20 Ø12 L=340` and
  `14 Ø 16`, plus texts that are not recognised.

Quantities are exact integers.
- Lengths are in centimetres, as the records carry them.
- Unit weights are in grams per metre: 0.888 kg/m is 888 g/m.
- A weight is therefore in centigrams (1 cg = 0.00001 kg). For example, 6800 cm
  of 12 mm bar weighs 6 038 400 cg = 60.384 kg.
- The source's metres and kilograms are these numbers divided by 100 and by
  100 000.

The grammar the code accepts is narrow, and the model keeps it so:
- the pattern has no optional count: a callout starts with its count digits;
- no word such as "adet" may stand between the count and the symbol: `14 adet Q16` gives no record (`Scenarios.WordBeforeSymbol`);
- the class `[Ø|Q|q|fi]` stands for single characters only, so the vertical bar, `f` and `i` are symbols and the two-letter `fi` is not: `14 fi 16` gives no record (`Scenarios.WordFi`, `Scenarios.BarIsASymbol`);
- there are no stirrup callouts, element labels, diameter plausibility filter or fallback length for a record without `L=`;
- the weight table has exactly the seven sizes above (`Calculator.UnitWeightsTable`).

## Model

| member | source | states |
|---|---|---|
| Lexing.IsDigit | main.py:14 | `\d`, taken as the ASCII digits `0`-`9`. |
| Lexing.IsSpace | main.py:14 | `\s` in a str pattern: exactly the characters for which `str.isspace()` holds. |
| Lexing.SkipWhile | main.py:14 | The greedy run of `\d+` / `\s*` ends where the class first stops holding: every character before that point is in the class, and the character at that point is not (or the text ends there). |
| Lexing.Decimal | main.py:77 | `str(n)` is a nonempty digit string with no leading zero: it begins with `0` only when it is exactly `0`, the print of 0. |
| Lexing.ValueLeadingZero | main.py:29-31 | `int` ignores leading zeros: a group `0` followed by digits reads as those digits. |
| Lexing.ValueOfDecimal | main.py:29-31 | `int(str(n)) == n`: reading back a printed number gives the number. |
| Lexing.Value | main.py:29-31 | `int(...)` of a digit group; its meaning is pinned by `Lexing.ValueOfDecimal` and `Lexing.ValueLeadingZero`. |
| Lexing.DecimalInjective | main.py:77 | Distinct numbers print differently. |
| Callout.IsSymbol | main.py:14 | The pattern's symbol class under IGNORECASE, as one character: one of Ø, ø, the vertical bar, Q, q, f, F, i, I, İ, ı. |
| Callout.SymbolIsDistinct | main.py:14 | A symbol is never a digit, a space, the length marker or `=`, so no run of the pattern reaches into the next part. |
| Callout.IsLengthMarker | main.py:14 | `L` under IGNORECASE: `L` or `l`. |
| Callout.LengthTail | main.py:14 | Group 3, when present, is a nonempty digit string. |
| Callout.MatchAt | main.py:14 | A match anchored at `i` starts at `i`. Its count and diameter groups are nonempty digit strings, and its length group (when present) is a digit string. |
| Callout.SearchFrom | main.py:27 | `re.search` returns the match with the leftmost start: it is the anchored match there, no position before it matches, and `None` means that no position matches. |
| Callout.Search | main.py:27 | `rebar_pattern.search(text)`: the match at the leftmost position where the anchored pattern matches, or nothing when it matches nowhere. |
| Callout.LengthTailSound | main.py:14 | A length group found after the diameter lies over the shape `\s*L\s*=\s*(\d+)`, with a maximal digit run. |
| Callout.LengthTailComplete | main.py:14 | Whenever the text after the diameter has the tail's shape, group 3 is present. |
| Callout.MatchAtSound | main.py:14 | A match lies over the shape `(\d+)\s*[class]\s*(\d+)`, with both digit runs maximal and group 3 taken right after the diameter. |
| Callout.MatchAtComplete | main.py:14 | Wherever the shape starts, the anchored pattern matches, with exactly that count group. |
| Callout.MatchAtExact | main.py:14 | When the shape's diameter run is maximal, the match is exactly the one the shape describes, groups included. |
| Callout.MatchAtIffShape | main.py:14 | The anchored pattern matches at `i` if and only if the shape starts at `i`. |
| Callout.SearchIsLeftmostShape | main.py:27 | `re.search` finds the leftmost occurrence of the shape, and finds nothing if and only if the shape occurs nowhere. |
| Callout.NoDigitNoMatch | main.py:14 | No match starts at a character that is not a digit. |
| Callout.NoDigitsNoMatch | main.py:14 | No match starts anywhere in a stretch without digits. |
| Callout.NoMatchBeforeSymbol | main.py:14 | No match when the first character after the count and its spaces is neither a symbol, nor a space, nor a digit (or the text ends there). |
| Callout.NoMatchAfterSymbol | main.py:14 | No match when the symbol and its spaces are followed by something other than a digit. |
| Callout.NoMatchAnywhere | main.py:27 | A failed match at every position means `re.search` returns nothing. |
| Callout.TrailingDigitsNoMatch | main.py:14 | A digit run that reaches the end of the text never starts a match. |
| Callout.WordBeforeSymbolNoMatch | main.py:14 | `<count> <word> <symbol><diameter>` is never recognised when the word is nonempty, has no digit and does not start with a space. |
| Callout.DoubleSymbolNoMatch | main.py:14 | Two class characters in a row (as in `fi`) between count and diameter defeat the pattern. |
| Callout.NoSymbolNoMatch | main.py:14 | A text without any symbol character never matches. |
| Extractor.Extracted | main.py:20-38 | The list the loop builds: never longer than the list of texts; `Extractor.ExtractedAppend`, `Extractor.ExtractedSingle` and `Extractor.ExtractedFromInput` pin its contents. |
| Extractor.Recognise | main.py:27-37 | The record one text gives, carrying that text as `raw_text`; `Extractor.RecogniseIffShape` and `Extractor.RecogniseReadsLeftmost` pin when it exists and what it holds. |
| Extractor.RecordOf | main.py:29-37 | Converts the match's groups with `int`, length 0 when group 3 is absent; `Extractor.RecordOfDecimal` shows it inverts printing. |
| Extractor.RecordOfDecimal | main.py:29-37 | Groups holding `str(count)`, `str(diameter)` and `str(length)` (or no group 3) give back exactly those numbers (or length 0). |
| Extractor.ParseTexts | main.py:23-38 | The entity loop produces exactly `Extracted(texts)`: one record per matching text, in entity order. |
| Extractor.RecogniseIffShape | main.py:27-28 | A text gives a record if and only if the callout shape occurs in it. |
| Extractor.RecogniseReadsLeftmost | main.py:27-37 | The record is read off the leftmost occurrence of the shape: the count is its first digit run, the diameter its whole second digit run, the length the `L=` digits or 0, and `raw_text` is the whole text. |
| Extractor.NoSymbolNoRecord | main.py:27-28 | A text without any symbol character gives no record. |
| Extractor.MatchAtPieces | main.py:14 | For a text laid out as digits, spaces, a symbol, spaces, digits and then a non-digit, the anchored match at 0 has exactly those digit groups. |
| Extractor.LengthTailAtEnd | main.py:14 | A trailing ` L=<digits>` gives exactly those digits as group 3. |
| Extractor.CalloutRoundTrip | main.py:27-37 | Printing `<count> <symbol> <diameter> L=<length>` (with any spacing around the symbol) and reading it back gives exactly those three numbers and the whole text. |
| Extractor.ShortCalloutRoundTrip | main.py:31 | Without the `L=` tail the same round trip holds, with length 0. |
| Extractor.ExtractedAppend | main.py:23-38 | The records of two lists of texts run one after the other are the records of the first list followed by those of the second. |
| Extractor.ExtractedSingle | main.py:27-38 | A single text gives at most one record: the first match's. |
| Extractor.ExtractedFromInput | main.py:33-38 | Each record carries one of the input texts verbatim and is what that text gives. |
| Calculator.UnitWeightsTable | main.py:46 | `unit_weights` has exactly the sizes 8, 10, 12, 14, 16, 18 and 20 mm, and a thicker bar weighs more per metre. |
| Calculator.StockBars | main.py:75 | `math.ceil(len / 12 m)`: the fewest whole stock bars that cover the length. |
| Calculator.Label | main.py:77 | The key `Q<d>`: `Q` followed by decimal digits; `Calculator.LabelInjective` makes it one key per diameter. |
| Calculator.LabelInjective | main.py:77 | Distinct diameters get distinct `Q<d>` keys. |
| Calculator.Diameters | main.py:57-64 | The keys of `summary` in insertion order all have a unit weight and are pairwise distinct. |
| Calculator.WeightCg | main.py:74 | `weight_kg = total_len * unit_w` in centigrams; it is zero exactly when the length or the unit weight is. |
| Calculator.LineFor | main.py:72-81 | A diameter's report line: its bucket's total length, the ceiling stock-bar count for it, and a weight that is zero exactly when the length is. |
| Calculator.Contribution | main.py:60-61 | `total_item_length_m = length_cm / 100.0 * count`, kept in centimetres as `length_cm * count`. |
| Calculator.SummariseByDiameter | main.py:50-66 | The first loop builds the keys in first-occurrence order. It maps exactly those diameters, each to the sum of length × count over its records. |
| Calculator.CalculateNeeds | main.py:49-88 | The report has exactly one `Q<d>` key per weighed diameter that occurs. Each line holds that diameter's total length, the length × unit weight, and the ceiling stock-bar count. The project weight is the weight of all records with a known diameter, and the record count counts every input record. |
| Calculator.ReportLinesKeys | main.py:71-81 | Entering the buckets gives one key per bucket. |
| Calculator.ReportLinesValues | main.py:71-81 | Entering distinct buckets leaves each key holding its own bucket's line. |
| Calculator.ReportLinesMeaning | main.py:71-81 | The second loop's dictionary has exactly the keys of the buckets, each holding its bucket's line. |
| Calculator.SumOverAppend | main.py:52-66 | A sum over records splits over concatenation. |
| Calculator.BucketCmAddRecord | main.py:60-66 | A record adds its length × count to its own bucket and nothing to the others. |
| Calculator.SumOverSingle | main.py:52-66 | The sum over one record is that record's share. |
| Calculator.SumOverMiddle | main.py:52-66 | A record in the middle of the list adds its own share to the sum. |
| Calculator.SumOverRemove | main.py:52-66 | Taking the record at `k` out of the list takes its share out of the sum. |
| Calculator.MultisetRemove | main.py:52 | Taking the record at `k` out of the list takes one copy of it out of the list's multiset. |
| Calculator.SumOverPermutation | main.py:52-66 | A sum over records does not depend on their order. |
| Calculator.DiametersMembership | main.py:57-64 | A diameter gets a bucket if and only if it has a unit weight and some record has it, even with length 0. |
| Calculator.UnknownDiameterNeverKey | main.py:57-58 | A diameter without a unit weight is never a report key. |
| Calculator.AbsentDiameterEmpty | main.py:63-66 | A diameter that no record has has an empty bucket. |
| Calculator.SumWeightsAddRecord | main.py:71-82 | One more record changes the sum of bucket weights by that record's weight, when its diameter is among the buckets. |
| Calculator.ProjectWeightIsBucketSum | main.py:82 | `toplam_tonaj_kg`, accumulated bucket by bucket, is the sum of every record's weight. |
| Calculator.ReportIgnoresOrder | main.py:52-82 | Reordering the records changes neither the report keys, nor any line, nor the project weight, nor the record count. |
| Scenarios.FullCalloutRecord | main.py:13-14 | `20 Ø12 L=340` gives exactly one record: 20 bars of 12 mm, 340 cm each. |
| Scenarios.FullCalloutQuantities | main.py:71-86 | That record makes one 12 mm bucket: 6800 cm, 6 038 400 cg (60.384 kg) and 6 stock bars. |
| Scenarios.CalloutWithoutLength | main.py:13-14 | `14 Ø 16` gives 14 bars of 16 mm with length 0. |
| Scenarios.BarIsASymbol | main.py:14 | `5`, a vertical bar, `12` is a callout: the bar written inside the class is itself a symbol. |
| Scenarios.DotlessIIsASymbol | main.py:14 | Under IGNORECASE the dotless `ı` stands for `i`, so `3ı10` is a callout. |
| Scenarios.BareNumber | main.py:27-28 | `2045` gives no record. |
| Scenarios.WordBeforeSymbol | main.py:14 | `14 adet Q16` gives no record. |
| Scenarios.WordFi | main.py:14 | `14 fi 16` gives no record. |
| Scenarios.ZeroLengthBucket | main.py:63-66 | A record without a length still opens its bucket, at 0 cm, 0 weight and 0 stock bars. |
| Scenarios.UnknownDiameter | main.py:57-58 | A 22 mm record gives no bucket and no weight (it is still counted as read, by `Calculator.CalculateNeeds`' `recordCount`). |
| Scenarios.StockBarBoundaries | main.py:75 | 1200 cm needs one stock bar, 1201 cm two, and 0 cm none. |

## Left out

- The Flask server (`home`, `upload_file`, main.py:94-132): HTTP handling, saving and deleting the uploaded file, and the JSON response are I/O.
- Reading the drawing with ezdxf (main.py:18-24): `ezdxf.readfile`, `modelspace()` and `query('TEXT MTEXT')` are a foreign library. The model takes the texts of the TEXT and MTEXT entities, in query order, as its input sequence.
- The exception path of `parse_dxf` (main.py:41-42) for errors of the foreign reader: that reader is not part of this model.
- Extractor.ParseTexts: numbers are unbounded naturals. On Python 3.11 and later (and its security backports), `int(...)` (main.py:29-31) raises ValueError for a digit group longer than 4300 characters; `except Exception` (main.py:41-42) then makes `parse_dxf` return `{"error": ...}` for the whole drawing, whereas the model returns a record.
- Calculator.CalculateNeeds: numbers are unbounded naturals. For a length or count above about 1.8 × 10^308, the float arithmetic at main.py:60-61 raises OverflowError, and `math.ceil` (main.py:75) raises on an infinite float total; `calculate_needs` has no handler, so the source fails where the model returns an exact report.
- Lexing.IsDigit: `\d` and `int(...)` are limited to the ASCII digits; Python also accepts other Unicode decimal digits.
- Callout.IsSymbol: other Unicode case-insensitive equivalences, beyond those listed for the class's letters, are not modelled.
- Calculator.CalculateNeeds: floating point is not modelled. The source adds metres and kilograms as floats and rounds the externalised values with `round(..., 2)`; the model computes exact centimetres and centigrams, with no rounding. A float sum that lands just above a multiple of 12 m could make the source's `math.ceil` one bar higher than the exact count.
- Calculator.CalculateNeeds: the report is a map. The JSON key order of `demir_listesi` is not part of its result, although the loop follows the dictionary's insertion order (`Calculator.Diameters`).
- The records passed to `calculate_needs` are always ones `parse_dxf` built, so every field is a natural number. The source would also accept hand-made dictionaries with other values.
