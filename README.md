# BrCode: the Pix payload inputs, in Dafny

This project models the `BrCode` class of src/models/BrCode.ts. The class prepares the data for
a Pix "BR Code" payment payload. That payload is the Banco Central do Brasil profile of the EMV
QR Code Specification for Payment Systems (Merchant-Presented Mode). A `BrCode` object stores
six text fields: key, amount, name, reference, key type and city. Its formatting functions derive
the payload values from those fields, and `generate_qrcp` chooses the EMV data objects it hands
to the payload builder.

The project has four modules, one per file:

- `Wrappers` (wrappers.dfy): the `Option` type. It models JavaScript's `null`/`undefined` and
  a search that finds nothing.
- `Text` (text.dfy): the JavaScript string operations the class uses, each over `seq<char>`:
  - `replace(/\D/g, '')` as `Digits`;
  - `trim()` as `Trim`;
  - `replace(<string>, <string>)` as `ReplaceFirst`. It replaces the first occurrence only, and
    `IndexOf` serves as its reference definition;
  - `toLowerCase()` as `ToLower`;
  - `normalize("NFD")` as `Nfd`;
  - deleting the marks U+0300..U+036F as `StripMarks`;
  - the class's static `format_text` as `FormatText`.
- `Emv` (emv.dfy): EMV data objects, which are a tag with a text value or with nested data
  objects. It has the lookup `Find` and the builder's setter `Set`.
- `Models` (brcode.dfy): the class `BrCode`. The constructor is imperative and assigns the six
  fields; `Normalize` is a pure function of its argument. The formatting functions are pure and
  read the fields. `GenerateQrcp` is a method
  that calls the setters in the source's order. `PixFields` is a specification function that
  states the resulting list. Further lemmas give the lookups and worked examples.

`stripHtml` (from `string-strip-html`) is external: the constructor receives it as a function
parameter. EMV tags are the two-digit identifiers "00".."99", held as numbers below 100.

## Model

| member | source | states |
|---|---|---|
| Models.BrCode.Normalize | src/models/BrCode.ts:30-36 | a missing text gives `""`; a present one gives the HTML-stripped text |
| Models.BrCode.constructor | src/models/BrCode.ts:16-23 | every one of the six fields holds `normalize` of its argument, so no field is ever missing |
| Models.BrCode.FormatedName | src/models/BrCode.ts:38-41 | the name has no combining mark and no outer whitespace, and formatting it again changes nothing |
| Models.BrCode.FormatedCity | src/models/BrCode.ts:43-46 | the same for the city |
| Models.BrCode.FormatedAmount | src/models/BrCode.ts:48-54 | an empty amount gives `""`; the result is never longer than the amount |
| Models.AmountWithThousandsSeparator | src/models/BrCode.ts:49-51 | `"<w>.<t>,<c>"` with digit runs w, t, c becomes `"<w><t>.<c>"` (`"1.234,56"` → `"1234.56"`) |
| Models.AmountWithCurrencySign | src/models/BrCode.ts:49-51 | `"R$ <w>,<c>"` becomes `"<w>.<c>"` (`"R$ 45,50"` → `"45.50"`) |
| Models.AmountWithDecimalPoint | src/models/BrCode.ts:49-51 | `"<w>.<c>"` becomes `"<w><c>"` (`"45.50"` → `"4550"`): the point is deleted like a thousands separator |
| Models.AmountWithTwoThousandsSeparators | src/models/BrCode.ts:49-51 | only the first `.` is deleted: `"<a>.<b>.<c>,<d>"` becomes `"<a><b>.<c>.<d>"` (`"1.234.567,89"` → `"1234.567.89"`) |
| Models.BrCode.FormatedReferance | src/models/BrCode.ts:56-59 | the reference has no combining mark and no outer whitespace. When the formatted text contains a space, the reference is that text with its first space deleted, one character shorter; otherwise it is the formatted text unchanged |
| Models.BrCode.FormatedKey | src/models/BrCode.ts:61-75 | for `cpf`/`cnpj` (lower-cased) the result is exactly the key's digits. For `telefone` it is `+55` followed by exactly the key's digits. For any other type it is the trimmed key |
| Models.TrimOfKey | src/models/BrCode.ts:74 | a digit string, with or without the `+55` prefix, survives `trim` unchanged |
| Models.FormatedKeyIgnoresCase | src/models/BrCode.ts:63-66 | two objects with the same key and the same lower-cased key type format the key identically |
| Models.CapitalCpfKeyType | src/models/BrCode.ts:64-67 | key type `"CPF"` in capitals keeps only the key's digits |
| Models.BrCode.GenerateQrcp | src/models/BrCode.ts:78-113 | the data objects are `PixFields` of the formatted key, name, city and amount, and of the formatted reference or `***`. Name, city and amount are passed exactly when their field is non-empty. Every tag occurs once |
| Models.SetPixFields | src/models/BrCode.ts:79-113 | the setter calls, in order, on an empty payload give exactly the list `PixFields`, with distinct tags |
| Models.SetIfPresent | src/models/BrCode.ts:93-103 | a setter guarded by a present value: with a value, that tag yields it; without one, nothing changes; a new tag is appended |
| Models.PixFieldsFind | src/models/BrCode.ts:81-113 | tag 00 → `"01"`, 58 → `"BR"`, 52 → `"0000"`, 53 → `"986"`. 26 → the template with GUI `BR.GOV.BCB.PIX` and sub-tag 01 = key. 59/60/54 → name/city/amount exactly when present. 62 → the template with the reference label. Every other tag → nothing |
| Models.OptionalFieldsFind | src/models/BrCode.ts:93-113 | the same lookups for the optional fields and the additional data template |
| Models.FindPresent | src/models/BrCode.ts:93-103 | an absent optional field contributes no data object; a present one contributes the first one |
| Emv.Set | src/models/BrCode.ts:81-84 | after a setter, its tag yields the new object and every other tag yields what it yielded before. A new tag is appended, a known one replaced in place, and distinct tags stay distinct |
| Emv.FindAbsent | src/models/BrCode.ts:81-113 | a tag that no data object carries is not found |
| Emv.FindConcat | src/models/BrCode.ts:81-113 | a lookup in a concatenation searches the first part, then the second |
| Emv.FindCons | src/models/BrCode.ts:81-113 | a lookup checks the first data object, then the rest |
| Emv.FindFirst | src/models/BrCode.ts:81-113 | the first data object with a tag is the one found |
| Emv.FindReplaced | src/models/BrCode.ts:81-113 | lookups after replacing the first object with a tag in place |
| Emv.FindAppended | src/models/BrCode.ts:81-113 | lookups after appending an object with a new tag |
| Text.Digits | src/models/BrCode.ts:67 | `replace(/\D/g, '')` yields only digits and is never longer |
| Text.DigitsKeepsEveryDigit | src/models/BrCode.ts:67 | every digit is kept as often as it occurs |
| Text.DigitsOfAllDigits | src/models/BrCode.ts:67 | a digit string is its own digit filter |
| Text.DigitsOfConcat | src/models/BrCode.ts:67 | filtering works piece by piece, so the digits keep their order |
| Text.TrimStart | src/models/BrCode.ts:74 | the result is a suffix of the text and does not start with whitespace |
| Text.TrimEnd | src/models/BrCode.ts:74 | the result is a prefix of the text and does not end with whitespace |
| Text.TrimStartDropsWhitespace | src/models/BrCode.ts:74 | only whitespace is dropped in front |
| Text.TrimEndDropsWhitespace | src/models/BrCode.ts:74 | only whitespace is dropped at the back |
| Text.Trim | src/models/BrCode.ts:27 | the result has no outer whitespace and is never longer; a text without outer whitespace is unchanged |
| Text.TrimKeeps | src/models/BrCode.ts:27 | trimming keeps only characters of the text |
| Text.ReplaceFirst | src/models/BrCode.ts:51 | a replacement no longer than the pattern never lengthens the text; one of equal length keeps the length |
| Text.IndexOf | src/models/BrCode.ts:51 | the index found is an occurrence and no earlier index is; nothing is found only when there is no occurrence |
| Text.ReplaceFirstByIndexOf | src/models/BrCode.ts:51 | `replace` equals the text before the leftmost occurrence, then the replacement, then the text after it; with no occurrence the text is unchanged |
| Text.ReplaceFirstAbsent | src/models/BrCode.ts:51 | with no occurrence, `replace` changes nothing |
| Text.OccursAtTail | src/models/BrCode.ts:51 | an occurrence in the tail is an occurrence one position further on |
| Text.ReplaceFirstAtFirstOccurrence | src/models/BrCode.ts:51 | the leftmost occurrence, and only it, becomes the replacement |
| Text.ReplaceCharAfter | src/models/BrCode.ts:51 | a one-character pattern is replaced where it first occurs |
| Text.ReplaceAbsentHead | src/models/BrCode.ts:51 | a pattern whose first character is absent changes nothing |
| Text.DeleteFirstSpaceOfTrimmed | src/models/BrCode.ts:58 | deleting the first space of a trimmed, unmarked text keeps it trimmed and unmarked and removes exactly one character when there is a space |
| Text.ToLower | src/models/BrCode.ts:64 | lower-casing keeps the length |
| Text.ToLowerCharwise | src/models/BrCode.ts:64 | each A-Z becomes a-z and every other character stays |
| Text.ToLowerIdempotent | src/models/BrCode.ts:64 | lower-casing twice is lower-casing once |
| Text.Decomposition | src/models/BrCode.ts:27 | each decomposable Latin-1 letter splits into an ASCII letter and a combining mark |
| Text.NotDecomposableBelowLatin1 | src/models/BrCode.ts:27 | characters below U+00C0 and combining marks do not decompose |
| Text.Decompose | src/models/BrCode.ts:27 | a decomposable letter becomes two final characters; any other character stays |
| Text.Nfd | src/models/BrCode.ts:27 | `normalize("NFD")` over the table: the text grows by at most one mark per character; what it does is carried by NfdOfConcat, NfdFullyDecomposed and NfdOfFullyDecomposed |
| Text.NfdFullyDecomposed | src/models/BrCode.ts:27 | after NFD nothing is left to decompose |
| Text.NfdOfFullyDecomposed | src/models/BrCode.ts:27 | NFD leaves a decomposed text unchanged |
| Text.NfdOfConcat | src/models/BrCode.ts:27 | NFD works character by character |
| Text.NfdBelowLatin1 | src/models/BrCode.ts:27 | text below U+00C0 is its own NFD |
| Text.NfdOneAccent | src/models/BrCode.ts:27 | NFD splits one accented letter into its base and mark |
| Text.StripMarks | src/models/BrCode.ts:27 | `replace(/[\u0300-\u036f]/g, "")`: the text never grows; what it keeps is carried by StripMarksKeeps, StripMarksOfConcat and StripMarksOfUnmarked |
| Text.StripMarksKeeps | src/models/BrCode.ts:27 | deleting marks leaves no mark and only characters of the text |
| Text.StripMarksOfUnmarked | src/models/BrCode.ts:27 | a text without marks is unchanged |
| Text.StripMarksOfConcat | src/models/BrCode.ts:27 | deleting marks works character by character |
| Text.StripMarksDropsMark | src/models/BrCode.ts:27 | one mark between unmarked texts is deleted and the texts are joined |
| Text.FormatText | src/models/BrCode.ts:26-28 | the result has no combining mark and no outer whitespace |
| Text.FormatTextIdempotent | src/models/BrCode.ts:26-28 | `format_text(format_text(s)) == format_text(s)` |
| Text.FormatTextRemovesAccent | src/models/BrCode.ts:26-28 | one accented letter in plain text is replaced by its base letter, and nothing else changes ("São Paulo" → "Sao Paulo") |

## Left out

- Serialisation: `emvqr.generatePayload()` (line 115) is not modelled. It writes the data
  objects as ID-length-value text with a CRC-16 trailer, inside the `steplix-emv-qrcps` library,
  which is not part of this model. `GenerateQrcp` returns the data objects handed to the builder,
  in the order of the setter calls. The builder's own ordering and validation are not modelled.
- `stripHtml` is a parameter of the constructor; its HTML parsing is not modelled.
- Text.Nfd: only the canonical decompositions of the precomposed letters of the Latin-1
  Supplement block (U+00C0..U+00FF) are modelled. Every other character passes unchanged.
  Canonical reordering and multi-mark decompositions are not modelled.
- Text.ToLower: only the ASCII letters A-Z are lowered. Its only use is a comparison with
  `telefone`, `cnpj` and `cpf`, and no other character lowers to one of those letters, so the
  comparison gives the same answer as `toLowerCase`.
- Strings are sequences of Unicode scalar values, not UTF-16 code units.
- The Pix API handler, the checkout handler, the pages, the styles and the Stripe client are
  outside `BrCode` and are not part of this model. They involve network I/O, floating-point
  amount conversion and UI.
- The amount handed in by the Pix API handler (`src/pages/api/gerar-pix.ts:28,39`) is a
  dotted decimal from `toFixed(2)`. `formated_amount` deletes the first `.` and turns the first
  `,` into `.`, so a value such as `"45.50"` loses its decimal point (`Models.AmountWithDecimalPoint`).
  The handler is outside `BrCode`, so the model keeps `formated_amount` as written and does not
  decide which side should change.
