# Rekognition moderation adapter — verified model of the label normaliser

The adapter receives a job request carrying a content hash. It fetches the image
from a content gateway and sends it to an image-moderation service. It then
reduces the service's moderation labels to one string of five comma-separated
integer scores, one per fixed category, in the order Explicit Nudity,
Suggestive, Violence, Visually Disturbing, Hate Symbols.

This project models the two pure pieces of that pipeline in Dafny:

- the label normaliser (`getConfidenceForLabel`, `convertLabelsToTrueSightFormat`).
  Each category takes the rounded confidence of its first label whose name
  matches ignoring ASCII letter case, or 0 when no label matches. The five
  scores are joined with commas.
- the input checks of the request handler (`performRequest`). The first
  failing check wins: no data, then no job run ID, then no content hash, each
  with status 500. Otherwise the handler answers 200 with the labels and the
  normalised string. The fetch and the moderation call are a function
  parameter.

Files:

- `wrappers.dfy`: module `Wrappers`, the `Option` type.
- `ascii.dfy`: module `Ascii`, ASCII lower-casing and case-insensitive equality.
- `decimal.dfy`: module `Decimal`, the decimal text of integers and the reader for it.
- `delimited.dfy`: module `Delimited`, join with a separator, and split.
- `normalizer.dfy`: module `TrueSight`, the labels, the categories, rounding, and the normaliser with its properties.
- `request.dfy`: module `Adapter`, requests, validation and the success response.

Modelling choices:

- Confidences are `real`.
- `Math.round` is `(c + 0.5).Floor`, the nearest integer with halves rounded up.
  This is JavaScript's rule for negative values as well, so no sign
  restriction is needed.
- `toLowerCase` is ASCII lower-casing.
- A number in the joined string is written as its shortest decimal text, with
  a leading `-` when negative.
- `Split` and `ParseInt` are not in the program. They are the reader a
  consumer of the string would use, and they let the round trip be stated.
- Labels are an array. The first match in input order decides a category's
  score (index.js:87-98).
- The hash message appears only once data and a job run ID are present;
  earlier checks win (index.js:25-38).
- Every score is guaranteed to lie in [0, 100] when every confidence does
  (`ScoresInRange`). Other confidences are rounded by the same rule.
- `Math.round` rounds halves up (index.js:98).

## Model

| member | source | states |
|---|---|---|
| Ascii.LowerEqualIff | index.js:87-89 | two names compare equal after lower-casing exactly when they differ only in the case of ASCII letters (both directions) |
| Ascii.Lower | index.js:88 | lower-casing keeps the length, leaves no upper-case ASCII letter, and replaces each character by the same letter |
| TrueSight.Matches | index.js:87-89 | a label matches a category exactly when their names differ at most in the case of ASCII letters |
| TrueSight.Round | index.js:98 | the rounded value r satisfies c - 1/2 < r <= c + 1/2: the nearest integer, with a tie going up |
| TrueSight.MatchingLabels | index.js:87-89 | the filtered labels all match the category; the filter is empty exactly when no label matches; otherwise its head is the first matching label in input order |
| TrueSight.FirstMatch | index.js:86-99 | reference lookup by position: None exactly when no label matches, otherwise the index of the first matching label |
| TrueSight.ConfidenceForLabel | index.js:86-99 | the score is 0 when no label matches the category, and otherwise the rounded confidence of the first matching label |
| TrueSight.ConfidenceIsFirstMatch | index.js:86-99 | the filter-based score equals the score given by the position-based reference lookup |
| TrueSight.Scores | index.js:102-108 | five scores in the fixed category order; a category with no matching label scores 0, otherwise the rounded confidence of its first matching label |
| TrueSight.Convert | index.js:101-117 | splitting the output on commas gives back exactly the text of each of the five scores, in category order |
| TrueSight.ConvertSplitsIntoScores | index.js:101-117 | the output splits on commas into exactly five fields; field k is the text of category k's score in the fixed order and reads back as that score |
| TrueSight.Fields | index.js:110-116 | each score is written as a non-empty, comma-free text made of digits and minus signs, without a leading zero, that reads back as the score |
| TrueSight.ConvertCommaCount | index.js:110-116 | the output has exactly four commas |
| TrueSight.ConvertAlphabet | index.js:110-116 | apart from commas the output has only digits and minus signs, so no whitespace |
| TrueSight.ConvertEnds | index.js:110-116 | the output is non-empty and has no comma at either end |
| TrueSight.AbsentCategoryIsZero | index.js:91-96 | a category that no label matches contributes the field "0", never an empty field |
| TrueSight.FirstMatchWins | index.js:87-98 | labels appended after a category's first match do not change that category's score |
| TrueSight.SameMembershipSameScore | index.js:86-99 | a category's score depends only on which positions match it and on their confidences |
| TrueSight.CaseInsensitive | index.js:87-89 | changing the letter case of label names leaves the output string unchanged |
| TrueSight.IrrelevantLabelIgnored | index.js:101-108 | inserting, at any position, a label that matches none of the five categories leaves the output unchanged; read backwards, removing such a label does too |
| TrueSight.ScoreInRange | index.js:98 | with every confidence in [0, 100], each category's score is in [0, 100] |
| TrueSight.ScoresInRange | index.js:98-116 | with every confidence in [0, 100], every output field is one to three digits whose value is in [0, 100] |
| TrueSight.WorkedExampleScores | index.js:101-108 | nudity 2.3 and violence 95.8 give the scores 2, 0, 96, 0, 0 |
| TrueSight.WorkedExampleText | index.js:110-116 | the scores 2, 0, 96, 0, 0 are written as "2,0,96,0,0" |
| TrueSight.WorkedExample | index.js:101-117 | nudity 2.3 and violence 95.8 give the string "2,0,96,0,0" |
| Decimal.NatToString | index.js:110-116 | the text of a natural number is non-empty, all digits, "0" for zero and otherwise without a leading zero |
| Decimal.IntToString | index.js:110-116 | the text of an integer has only digits and minus signs, is all digits exactly when the integer is non-negative, and has no leading zero ("0" alone, or no zero right after the minus sign) |
| Decimal.ParseNatToString | index.js:110-116 | reading back the text of a natural number gives the number |
| Decimal.ParseNegative | index.js:110-116 | a minus sign followed by the digits of a positive number reads back as that number's negation |
| Decimal.ParseNonNegative | index.js:110-116 | the digits of a natural number read back as the number |
| Decimal.ParseIntToString | index.js:110-116 | reading back the text of any integer gives the integer |
| Decimal.NatToStringShort | index.js:110-116 | a number below 1000 is written with at most three digits |
| Delimited.Join | index.js:110-116 | a join of one or more fields is as long as all fields together plus one separator between each pair of neighbours |
| Delimited.IndexOf | index.js:110-116 | the result is the position of the first separator, or the length when there is none |
| Delimited.Split | index.js:110-116 | a split yields at least one field and no field contains the separator |
| Delimited.SplitJoin | index.js:110-116 | joining one or more separator-free fields and then splitting gives back the fields |
| Delimited.JoinSplit | index.js:110-116 | splitting any string and joining the pieces gives back the string |
| Delimited.SplitCount | index.js:110-116 | a string splits into one more field than it has separators |
| Delimited.JoinChars | index.js:110-116 | every character of a join comes from a field or is the separator |
| Delimited.JoinEnds | index.js:110-116 | a join of non-empty fields starts with the first field's first character and ends with the last field's last character |
| Adapter.Validate | index.js:22-38 | no data gives (500, "No data"); else no job run ID gives (500, "Job run ID required"); else no hash gives (500, "Content hash required"); only with all three present does it proceed, carrying the ID and the hash (each case in both directions) |
| Adapter.ValidateReportsFirstProblem | index.js:25-38 | validation proceeds exactly when the request has no problem, and otherwise reports the first problem in check order |
| Adapter.NoDataWhateverTheId | index.js:25-28 | a request without data is refused with "No data" whatever its job run ID |
| Adapter.MissingHashExample | index.js:37-38 | a request with ID "1" and empty data is refused with "Content hash required" |
| Adapter.Perform | index.js:22-73 | the response echoes the job run ID; its status is 200 exactly when validation passes, and then the body is the detected labels with their normalised string; otherwise the status is 500 with the validation message |

## Left out

- The HTTPS fetch from the content gateway and the buffering of its stream (index.js:40-55) are network I/O. In `Adapter.Perform` they are folded into the `detect` parameter.
- The moderation call (index.js:59-61) is a foreign service and is folded into `detect`. The credentials read from environment variables (index.js:7-13) are process state and are left out.
- The async error paths (index.js:74-82) are left out because they depend on I/O outcomes. This includes passing the error object rather than its message to the error envelope.
- The success and error envelopes of the external adapter library are not part of this model. A response is a status, the echoed job run ID and a body.
- The three host wrappers (index.js:121-145) are thin runtime adapters and are left out, together with `JSON.parse` and `JSON.stringify`.
- Adapter.Validate: `data` is only present or absent. The code refuses any falsy `data` (`null`, `0`, `""`), and all of these are modelled as absent.
- Adapter.Validate: a `null` or non-string hash passes the `=== undefined` check in the code (index.js:37) and reaches the fetch as text such as `…/ipfs/null` (index.js:40). It cannot be expressed here, because a hash is only a present string or absent.
- Adapter.Validate: a `null` or `undefined` request makes the destructuring at index.js:23 throw before any callback runs. In the model a request always exists.
- Adapter.Perform: the success body is the whole moderation response with `result` added (index.js:67-71). The model carries only its label array and the result string; the service's other response fields are not modelled.
- Adapter.Validate: a `null` job run ID passes the `=== undefined` check in the code but cannot be expressed here, because an ID is only present or absent.
- TrueSight.Round: IEEE-754 behaviour of `parseFloat` and `Math.round` is not modelled, and neither are non-numeric confidence strings; confidences are exact reals.
- Decimal.IntToString: JavaScript's exponent notation for numbers of magnitude 10^21 or more is not modelled.
- A label without a `Name` makes `toLowerCase` throw in the code. The model assumes every label has a name.
- Full Unicode lower-casing is not modelled. Only ASCII letters are folded.
