# Invoice readiness analysis: field detection, rule checks and scoring

This project models, in Dafny, the analysis core of an e-invoicing readiness
service. A client uploads invoice records (CSV or JSON, flattened into one record
per row). The core then does three things:

1. **Field detection** (`FieldDetector`, `src/utils/fieldDetector.ts`) maps the
   records' column names onto the canonical fields of the GETS schema. For each
   schema field, in schema order, the candidate columns are searched in first-seen
   order:
   - an unused candidate whose confidence reaches 0.8 is matched at once;
   - otherwise the best unused candidate above 0.5 becomes a close match, with its
     confidence rounded to two decimals;
   - any other field is missing.

   Confidence is the name similarity, reduced by 30% when the first record's
   value has an incompatible type. Name similarity is 1 for equal normalised
   names, 0.9 for containment, and otherwise 1 minus the Levenshtein distance
   divided by the longer length. `getMappedValue` then reads a canonical field
   out of a record.
2. **Rule checks** (`RulesValidator`, `src/utils/rulesValidator.ts`). Five
   business rules each scan the records and stop at the first counter-example:
   TOTALS_BALANCE, LINE_MATH, DATE_ISO, CURRENCY_ALLOWED and TRN_PRESENT. The
   rules score is the percentage of rules that pass.
3. **Scoring** (`Scorer`, `src/utils/scorer.ts`):
   - a data score from the parsed-row ratio;
   - a coverage score, the category-weighted share of matched fields, with close
     matches counting 0.7 times their confidence;
   - a posture score from three yes/no answers;
   - a weighted overall score and a readiness label;
   - the list of human-readable gaps.

The supporting modules are:
- `JsValues`: record cells, and the JavaScript coercions the core relies on.
- `Schema`: the GETS schema as a value.
- `Seqs`: sequence helpers.

Loops of the source become methods. Each method is proved equal to a
specification function, and the properties are proved about those functions.
The runtime parts of JavaScript that are not modelled exactly are gathered in a
`JsRuntime` value passed as a parameter: `parseFloat`, `Number`, `Date.parse`,
`new Date` and number-to-string.

## Model

| member | source | states |
|---|---|---|
| JsValues.TrimStart | src/utils/rulesValidator.ts:239-240 | trimming the start never lengthens the string and leaves it empty or starting with a non-white-space character |
| JsValues.TrimEnd | src/utils/rulesValidator.ts:239-240 | trimming the end never lengthens the string |
| JsValues.TrimStartEmpty | src/utils/rulesValidator.ts:239-240 | trimming the start gives the empty string exactly when the string is all JavaScript white space |
| JsValues.TrimEndKeepsNonBlank | src/utils/rulesValidator.ts:239-240 | trimming the end of a string that is not all white space leaves it non-empty |
| JsValues.TrimEmptyIffBlank | src/utils/rulesValidator.ts:239-240 | `trim()` gives `''` exactly when every character is JavaScript white space |
| JsValues.ToLower | src/utils/fieldDetector.ts:22 | lower-casing keeps the length, leaves every character but an ASCII capital as it was, and turns each ASCII capital into the small letter whose upper case it is |
| JsValues.ToLowerKeepsUpper | src/utils/rulesValidator.ts:210 | a property of the ASCII case model, not of a composition the source performs: upper-casing a lower-cased string gives the same as upper-casing the original |
| JsValues.ToUpper | src/utils/rulesValidator.ts:210 | upper-casing keeps the length, leaves every character but an ASCII small letter as it was, and turns each ASCII small letter into the capital whose lower case it is |
| JsValues.ToUpperKeepsLower | src/utils/fieldDetector.ts:22 | a property of the ASCII case model, not of a composition the source performs: lower-casing an upper-cased string gives the same as lower-casing the original |
| JsValues.Clamp100 | src/utils/scorer.ts:108 | `Math.min(100, Math.max(0, x))` lies in [0, 100] |
| JsValues.RoundMonotone | src/utils/scorer.ts:108 | `Math.round` is monotone |
| JsValues.RoundOfInt | src/utils/scorer.ts:151 | `Math.round` of an integer is that integer |
| JsValues.RoundBounded | src/utils/scorer.ts:108 | rounding a value in [0, 100] gives an integer in [0, 100] |
| Schema.Lookup | src/utils/scorer.ts:171-172 | `getsSchema.fields[path]` is defined exactly for a schema path, and is then a field with that path |
| Schema.LookupOwnPath | src/utils/fieldDetector.ts:147 | with unique keys, looking a field's own path up finds that field |
| FieldDetector.RemoveAll | src/utils/fieldDetector.ts:23-24 | a global `replace` by `''` never lengthens the string, and a character occurs in the result exactly when it occurs in the input and does not match |
| FieldDetector.RemoveAllAppend | src/utils/fieldDetector.ts:23-24 | removal distributes over concatenation, so the kept characters keep their order |
| FieldDetector.RemoveAllLength | src/utils/fieldDetector.ts:23-24 | the result is as long as the input less the number of positions holding a matching character |
| FieldDetector.NormalizeFieldName | src/utils/fieldDetector.ts:20-25 | a normalised name has no ASCII capital, underscore, white space, hyphen or dot, and holds a character exactly when the lower-cased name holds it and it is none of those |
| FieldDetector.RemoveAllNone | src/utils/fieldDetector.ts:23-24 | removing characters of which the string has none leaves it unchanged |
| FieldDetector.ToLowerNone | src/utils/fieldDetector.ts:22 | lower-casing a string without ASCII capitals leaves it unchanged |
| FieldDetector.NormalizeIdempotent | src/utils/fieldDetector.ts:20-25 | normalising twice is normalising once |
| FieldDetector.Min3 | src/utils/fieldDetector.ts:41-45 | `Math.min` of three is at most each and equal to one of them |
| FieldDetector.Lev | src/utils/fieldDetector.ts:30-51 | the edit distance is at most the longer length and at least the difference of the lengths |
| FieldDetector.LevZeroIff | src/utils/fieldDetector.ts:30-51 | the edit distance is 0 exactly when the strings are equal |
| FieldDetector.LevOfEmpty | src/utils/fieldDetector.ts:33-34 | against the empty string the distance is the other length (row 0 and column 0 of the matrix) |
| FieldDetector.LevStep | src/utils/fieldDetector.ts:36-47 | the distance of two prefixes follows the matrix recurrence (diagonal on equal characters, else 1 + the least neighbour) |
| FieldDetector.CellStep | src/utils/fieldDetector.ts:38-45 | matrix cell (j, i) follows the same recurrence from its three neighbours |
| FieldDetector.FillRow | src/utils/fieldDetector.ts:37-47 | after the inner loop, every cell of row j holds the distance of the corresponding prefixes and no other row changed |
| FieldDetector.EditDistance | src/utils/fieldDetector.ts:30-51 | the matrix algorithm returns the Levenshtein distance of the two strings |
| FieldDetector.EditSimilarity | src/utils/fieldDetector.ts:76-82 | for two different normalised names, `max(0, 1 - distance / maxLength)` lies in [0, 1) |
| FieldDetector.Similarity | src/utils/fieldDetector.ts:56-83 | similarity lies in [0, 1] and is 1 exactly when the normalised names are equal |
| FieldDetector.PrefixTierUnreachable | src/utils/fieldDetector.ts:65-73 | a prefix is also contained, so the 0.85 prefix tier never decides: a prefix pair scores at least 0.9 |
| FieldDetector.InferDataType | src/utils/fieldDetector.ts:88-103 | the type is boolean exactly for a boolean and number for a number; a string is a number exactly when both `Number` and `parseFloat` accept it, otherwise a date exactly when it has the ISO date shape or `Date.parse` accepts it; null or undefined is a string |
| FieldDetector.IsTypeCompatible | src/utils/fieldDetector.ts:108-118 | equal types are compatible; an inferred non-string type fits only itself; an inferred string fits every type but boolean |
| FieldDetector.Confidence | src/utils/fieldDetector.ts:153-164 | the adjusted confidence lies in [0, 1] |
| FieldDetector.ConfidenceFacts | src/utils/fieldDetector.ts:158-164 | with a compatible sample value the confidence is the similarity; with an incompatible one it is at most 0.7 |
| FieldDetector.AddKeysFacts | src/utils/fieldDetector.ts:136 | adding keys to the Set keeps it free of repeats and holds exactly the old members and the new keys |
| FieldDetector.CandidatePoolFacts | src/utils/fieldDetector.ts:133-137 | the candidate pool has no repeats and holds exactly the keys of some record |
| FieldDetector.BuildCandidatePool | src/utils/fieldDetector.ts:133-137 | the two loops build the candidate pool in first-seen order |
| FieldDetector.ScanCandidates | src/utils/fieldDetector.ts:150-175 | the candidate loop ends with a hit, a best close candidate, or neither, exactly as the search outcome says |
| FieldDetector.StepResult | src/utils/fieldDetector.ts:146-186 | one field's iteration appends to `matched`, or appends a rounded close match when the field is not matched yet, or changes nothing, according to the search outcome |
| FieldDetector.MatchFields | src/utils/fieldDetector.ts:139-186 | the first pass returns the matched list, close list and used set of the field-by-field run |
| FieldDetector.CollectMissing | src/utils/fieldDetector.ts:188-193 | `missing` is the schema keys, in order, that are neither matched nor a close target |
| FieldDetector.DetectFieldMapping | src/utils/fieldDetector.ts:123-200 | the detector returns the coverage of the records; with no records, nothing matched or close and every schema key missing |
| FieldDetector.FirstStrong | src/utils/fieldDetector.ts:150-171 | the first unused candidate reaching 0.8, with none before it |
| FieldDetector.ScanStrong | src/utils/fieldDetector.ts:166-171 | the search matches exactly when some unused candidate reaches 0.8, and then matches the first such |
| FieldDetector.ScanBest | src/utils/fieldDetector.ts:172-174 | a close outcome is an unused candidate of highest confidence, strictly between 0.5 and 0.8; no outcome means no unused candidate exceeds 0.5 |
| FieldDetector.SearchOutcome | src/utils/fieldDetector.ts:150-175 | each outcome of the candidate search characterised by the candidates' confidences: first strong match, best close match, or none above 0.5 |
| FieldDetector.CloseConfidenceRounded | src/utils/fieldDetector.ts:182 | a close confidence in (0.5, 0.8), rounded to two decimals, lies in [0.5, 0.8] |
| FieldDetector.StrongCandidateMatches | src/utils/fieldDetector.ts:166-171 | an unused candidate scoring at least 0.8 makes the field matched in that iteration |
| FieldDetector.CompatibleExactNameMatches | src/utils/fieldDetector.ts:153-171 | an unused candidate with the field's normalised name and a compatible sample value makes the field matched |
| FieldDetector.IncompatibleExactNameIsClose | src/utils/fieldDetector.ts:158-185 | an exact name with an incompatible sample value scores exactly 0.7 and is never matched; as the only candidate it becomes a close match at 0.7 |
| FieldDetector.StepConsumes | src/utils/fieldDetector.ts:166-185 | each iteration uses at most one candidate: used = matched + close in number, the used set stays inside the pool, close candidates are distinct and used, and close confidences lie in [0.5, 0.8] |
| FieldDetector.RunConsumes | src/utils/fieldDetector.ts:146-186 | the same holds after the whole first pass |
| FieldDetector.StepPartition | src/utils/fieldDetector.ts:146-186 | one iteration keeps matched and close targets disjoint, in schema order and without repeats |
| FieldDetector.RunPartition | src/utils/fieldDetector.ts:146-186 | with unique schema keys, the same holds after the whole first pass |
| FieldDetector.CoveragePartition | src/utils/fieldDetector.ts:139-199 | every schema key is in exactly one of matched, close targets and missing, and nothing else is in them |
| FieldDetector.CoverageSchemaOrder | src/utils/fieldDetector.ts:146-193 | matched, close targets and missing each follow schema order without repeats |
| FieldDetector.CoverageCandidatesExclusive | src/utils/fieldDetector.ts:143-185 | close candidates are distinct pool keys with confidence in [0.5, 0.8], and matched plus close never exceed the pool size |
| FieldDetector.RunMatchedGrows | src/utils/fieldDetector.ts:168 | the matched list only grows from field to field |
| FieldDetector.RunStrongMatched | src/utils/fieldDetector.ts:166-171 | a field with an unused candidate scoring at least 0.8 at its turn ends up matched |
| FieldDetector.CoverageExactNameMatched | src/utils/fieldDetector.ts:123-171 | a field with a still-unused record key of the same normalised name and a compatible first-record value is in `matched` |
| FieldDetector.ReplaceFirstDot | src/utils/fieldDetector.ts:215 | `replace('.', '_')` keeps the length and leaves a string without a dot unchanged |
| FieldDetector.ReplaceFirstDotAt | src/utils/fieldDetector.ts:215 | `replace('.', '_')` turns exactly the first dot into `_` |
| FieldDetector.FindClose | src/utils/fieldDetector.ts:220 | `find` gives undefined exactly when no close match has the target, and otherwise a close match with that target |
| FieldDetector.FindCloseFirst | src/utils/fieldDetector.ts:220 | `find` gives the first close match with the target |
| FieldDetector.GetMappedValue | src/utils/fieldDetector.ts:205-226 | an unmapped field is undefined; a close field reads a close candidate's value; a matched field reads one of its conventional keys, the first when that value is truthy |
| FieldDetector.CloseFieldReadsItsCandidate | src/utils/fieldDetector.ts:219-223 | for a computed coverage, a close field reads exactly its own candidate's value |
| FieldDetector.MatchedReadsFirstTruthyKey | src/utils/fieldDetector.ts:207-217 | a matched field reads the value under the first of its conventional keys whose value is truthy, and when none is, the value under the last key |
| FieldDetector.FalsyValueFallsThrough | src/utils/fieldDetector.ts:215-216 | a falsy value under the underscored key falls through `||` to the dotted key |
| FieldDetector.MatchedCandidateIsNotRead | src/utils/fieldDetector.ts:207-217 | a matched field whose conventional keys are absent from the record is undefined, whatever candidate was matched |
| RulesValidator.FirstBad | src/utils/rulesValidator.ts:59-87 | the index of the first counter-example, or the record count when there is none |
| RulesValidator.FirstBadIs | src/utils/rulesValidator.ts:59-87 | an index with no counter-example before it and one at it is the first counter-example |
| RulesValidator.TotalsBalance | src/utils/rulesValidator.ts:54-96 | TOTALS_BALANCE passes exactly when no record is unbalanced, and carries expected and got exactly when it fails |
| RulesValidator.TotalsBalanceExample | src/utils/rulesValidator.ts:81-86 | on failure, expected and got are the rounded totals of the first unbalanced record |
| RulesValidator.ValidateTotalsBalance | src/utils/rulesValidator.ts:54-96 | the loop returns the TOTALS_BALANCE finding |
| RulesValidator.LineMath | src/utils/rulesValidator.ts:101-148 | LINE_MATH passes exactly when no record mismatches, and carries line, expected and got exactly when it fails |
| RulesValidator.LineMathExample | src/utils/rulesValidator.ts:132-137 | on failure, the example line is the 1-based index of the first mismatched record, with its rounded figures |
| RulesValidator.ValidateLineMath | src/utils/rulesValidator.ts:101-148 | the loop returns the LINE_MATH finding |
| RulesValidator.DateIso | src/utils/rulesValidator.ts:153-192 | DATE_ISO passes exactly when no record has a bad date, and a passing finding has no value |
| RulesValidator.DateIsoExample | src/utils/rulesValidator.ts:166-190 | on failure, the value is the first bad date string, left out when empty |
| RulesValidator.ValidateDateIso | src/utils/rulesValidator.ts:153-192 | the loop returns the DATE_ISO finding |
| RulesValidator.CurrencyAllowed | src/utils/rulesValidator.ts:197-226 | CURRENCY_ALLOWED passes exactly when no record has a bad currency; a reported value is upper-case and not allowed |
| RulesValidator.CurrencyAllowedExample | src/utils/rulesValidator.ts:210-224 | on failure, the value is the first bad upper-cased currency, left out when empty |
| RulesValidator.ValidateCurrencyAllowed | src/utils/rulesValidator.ts:197-226 | the loop returns the CURRENCY_ALLOWED finding |
| RulesValidator.TrnValidIff | src/utils/rulesValidator.ts:239-240 | a TRN is valid exactly when it is present and its string is not all white space |
| RulesValidator.TrnPresent | src/utils/rulesValidator.ts:231-252 | TRN_PRESENT passes exactly when no record lacks a TRN, and has no optional property |
| RulesValidator.TrnPresentIffNonBlank | src/utils/rulesValidator.ts:234-245 | TRN_PRESENT passes exactly when every record has both TRNs present and not blank |
| RulesValidator.ValidateTrnPresent | src/utils/rulesValidator.ts:231-252 | the loop returns the TRN_PRESENT finding |
| RulesValidator.CountOk | src/utils/rulesValidator.ts:42 | the passing count is at most the number of findings, and equal exactly when all pass |
| RulesValidator.Score | src/utils/rulesValidator.ts:42-43 | with five findings the score is 20 per passing rule, in [0, 100], and 100 exactly when all pass |
| RulesValidator.Rules | src/utils/rulesValidator.ts:23-49 | five findings in the fixed rule order, scored |
| RulesValidator.ValidateRules | src/utils/rulesValidator.ts:23-49 | the rules run over the values the coverage resolves |
| RulesValidator.NoRecordsAllPass | src/utils/rulesValidator.ts:23-49 | with no records every rule passes and the score is 100 |
| RulesValidator.UnmappedDatePasses | src/utils/rulesValidator.ts:158-164 | an issue date neither matched nor close is skipped in every record, so DATE_ISO passes |
| RulesValidator.UnmappedTrnFails | src/utils/rulesValidator.ts:234-245 | a buyer TRN neither matched nor close fails TRN_PRESENT as soon as there is a record |
| Scorer.PercentBounds | src/utils/scorer.ts:59-62 | a ratio of a part to its whole, as a percentage, lies in [0, 100] |
| Scorer.RateBounds | src/utils/scorer.ts:59-62 | the rounded parse rate lies in [0, 100] when parsed rows do not exceed the total, and is 100 when they are equal |
| Scorer.DataScore | src/utils/scorer.ts:56-63 | 0 with no rows, within [0, 100] when parsed rows do not exceed the total, and 100 when every row parsed |
| Scorer.DataScoreMonotone | src/utils/scorer.ts:56-63 | parsing more rows never lowers the data score |
| Scorer.CountInCategory | src/utils/scorer.ts:78-87 | a category count never exceeds the list length |
| Scorer.CloseScore | src/utils/scorer.ts:94-98 | the close-match score is non-negative when the confidences are |
| Scorer.WeightedStep | src/utils/scorer.ts:103-104 | each category adds its weighted score and its weight to the two sums |
| Scorer.CoverageScore | src/utils/scorer.ts:69-109 | the coverage score lies in [0, 100] |
| Scorer.CalculateCoverageScore | src/utils/scorer.ts:69-109 | the category loop computes the coverage score |
| Scorer.DetectedCoverageInSchema | src/utils/scorer.ts:85-97 | a coverage the detector computes only names schema fields, so every category lookup is defined |
| Scorer.WithFields | src/utils/scorer.ts:82 | the categories with at least one schema field, in order |
| Scorer.WeightedSnoc | src/utils/scorer.ts:103-104 | appending a category adds its share to both sums |
| Scorer.EmptyCategoriesIgnored | src/utils/scorer.ts:82 | skipping categories without fields changes neither the weighted score nor the total weight |
| Scorer.TotalBounds | src/utils/scorer.ts:103-104 | the total weight is non-negative and at least each category's weight; the weighted sum is at least the total when each category's is |
| Scorer.TotalWeightZeroIff | src/utils/scorer.ts:104-107 | with positive weights the total weight is 0 exactly when no category has a schema field |
| Scorer.TotalZero | src/utils/scorer.ts:107 | shares that are all zero add up to zero |
| Scorer.NoWeightScoresZero | src/utils/scorer.ts:107-108 | when no category has a schema field the coverage score is 0 |
| Scorer.CountIsCard | src/utils/scorer.ts:78-87 | over a list without repeats, the category count is the number of distinct paths of the category |
| Scorer.CountPositive | src/utils/scorer.ts:78-82 | one path of the category makes its count positive |
| Scorer.FullCategoryScore | src/utils/scorer.ts:100-103 | a category with every field matched contributes at least its weight |
| Scorer.SameMembersSameCount | src/utils/scorer.ts:78-87 | two lists without repeats and with the same members count the same in every category |
| Scorer.AllMatchedShare | src/utils/scorer.ts:85-104 | with every schema field matched once, a category's weighted score is at least its weight |
| Scorer.AllMatchedScoresFull | src/utils/scorer.ts:69-109 | with every schema field matched exactly once, the coverage score is 100 |
| Scorer.PositiveAnswers | src/utils/scorer.ts:119-126 | the count of true answers is at most the question count; it equals it exactly when all are true, and is 0 exactly when none is |
| Scorer.PostureScore | src/utils/scorer.ts:114-131 | the posture score is 0, 33, 67 or 100 by the number of true answers; 100 exactly when all three are true, 0 exactly when none is |
| Scorer.CalculatePostureScore | src/utils/scorer.ts:114-131 | the question loop computes the posture score |
| Scorer.PositiveAnswersMonotone | src/utils/scorer.ts:122-126 | answering a question true never lowers the count |
| Scorer.PostureMonotone | src/utils/scorer.ts:114-131 | answering a question true never lowers the posture score |
| Scorer.OverallScore | src/utils/scorer.ts:136-152 | the overall score lies in [0, 100] |
| Scorer.OverallMonotone | src/utils/scorer.ts:136-152 | raising any sub-score never lowers the overall score |
| Scorer.OverallOfEqualScores | src/utils/scorer.ts:137-151 | the weights add up to 1: four equal sub-scores give that score |
| Scorer.ReadinessLabel | src/utils/scorer.ts:157-161 | High exactly from 75, Medium exactly from 50 below 75, Low exactly below 50 |
| Scorer.ReadinessMonotone | src/utils/scorer.ts:157-161 | a higher overall score never gives a lower label |
| Scorer.CalculateScores | src/utils/scorer.ts:30-51 | the rules score is passed through; data, coverage and overall lie in [0, 100]; posture is 0, 33, 67 or 100; overall combines the four |
| Scorer.MissingGaps | src/utils/scorer.ts:170-175 | at most one line per missing field, each starting with the missing-field prefix |
| Scorer.RuleGap | src/utils/scorer.ts:179-196 | a finding gives a line exactly when it fails and names a known rule, and that line never looks like a missing-field line |
| Scorer.RuleGaps | src/utils/scorer.ts:178-198 | at most one line per finding, none a missing-field line |
| Scorer.Gaps | src/utils/scorer.ts:166-201 | the missing-field lines come first and only there |
| Scorer.GenerateGaps | src/utils/scorer.ts:166-201 | the two loops produce the gap list |
| Scorer.PushMissingFieldGaps | src/utils/scorer.ts:170-175 | the first loop appends the missing-field lines |
| Scorer.PushRuleGaps | src/utils/scorer.ts:178-198 | the second loop appends the rule lines |
| Scorer.RequiredFieldIff | src/utils/scorer.ts:171-172 | with unique keys, a path gets a line exactly when it is the key of a required field |
| Scorer.MissingGapsAreRequiredFields | src/utils/scorer.ts:170-175 | the missing-field lines are the required missing fields, in `missing` order, each prefixed |
| Scorer.RuleGapsCount | src/utils/scorer.ts:178-198 | with known rules there is exactly one line per failing finding |
| Scorer.FiveRuleGaps | src/utils/scorer.ts:178-198 | for the five rule findings the rule lines number 5 minus the passing rules, and are none exactly when the rules score is 100 |
| Scorer.RulesGaps | src/utils/scorer.ts:178-198 | the same for the rules result the validator produces |
| Scorer.DateGapQuotesValue | src/utils/scorer.ts:187-188 | the DATE_ISO line quotes the first bad date, or `dates` when it is empty |
| Scorer.CurrencyGapQuotesValue | src/utils/scorer.ts:190-191 | the CURRENCY_ALLOWED line quotes the first bad currency, or `currency` when it is empty |

### Definitions without a contract of their own

These carry JavaScript semantics and are used inside the contracts above; each is a
direct reading of the lines cited.

- `JsValues.Truthy`, `JsValues.Or`: JavaScript truthiness and `a || b`, src/utils/fieldDetector.ts:211, src/utils/fieldDetector.ts:216.
- `FieldDetector.Includes`: `String.prototype.includes`, src/utils/fieldDetector.ts:66.
- `JsValues.IsIsoDateShape`: the regular expression `^\d{4}-\d{2}-\d{2}$`, src/utils/fieldDetector.ts:97 and src/utils/rulesValidator.ts:154.
- `JsValues.Round`, `JsValues.Round2`: `Math.round(x)` and `Math.round(x * 100) / 100`, src/utils/scorer.ts:62, src/utils/fieldDetector.ts:182, src/utils/rulesValidator.ts:83-84.
- `JsValues.ParseFloat`: `parseFloat` of a cell, src/utils/rulesValidator.ts:69-71 and src/utils/rulesValidator.ts:120-122.
- `JsValues.ToJsString`: `String(value)`, src/utils/rulesValidator.ts:166, src/utils/rulesValidator.ts:210, src/utils/rulesValidator.ts:239-240.
- `FieldDetector.Scan`: the inner candidate loop with its `break`, src/utils/fieldDetector.ts:150-175.
- `FieldDetector.Step`: one iteration of the field loop, src/utils/fieldDetector.ts:146-186.
- `FieldDetector.Run`: the whole first pass, src/utils/fieldDetector.ts:146-186.
- `FieldDetector.Coverage`: `detectFieldMapping`, src/utils/fieldDetector.ts:123-200.

## Left out

- Upload, parsing, persistence, services, controllers, routes and the compiled `dist/` copies are not part of this model. This includes the parser's 200-row cap.
- The GETS schema file is not part of this model. The schema is a `Gets` value every stage receives; `Schema.WellFormed` states what a schema file can describe.
- JavaScript runtime behaviour that is not modelled exactly (`parseFloat`, `Number`, `Date.parse`, `new Date`, number-to-string) is a `JsRuntime` parameter, not a model of those functions.
- Numbers are exact reals: IEEE-754 rounding, NaN and infinities are not modelled. `Math.round` is modelled as floor(x + 0.5).
- `toLowerCase`/`toUpperCase` map ASCII letters only. Case mapping outside ASCII is not modelled.
- Strings are sequences of Unicode code points, while JavaScript's `.length`, indexing and therefore the edit distance count UTF-16 code units. For names holding characters outside the Basic Multilingual Plane, the lengths, edit distances and similarities differ from the source, and so can the matched/close/missing decision (`currenc` followed by an emoji is one edit from `currency` over 8 characters here, two edits over 9 code units in JavaScript).
- Cell values are strings, numbers, booleans and null. Nested objects and arrays in a record are not modelled.
- The optional `message` of a rule finding is never set by any rule, so it is not a field of `RuleFinding`.
- `closeInCategory` in the coverage score is computed and never used, so it is not modelled.
- The questionnaire is a map from names to cells. `=== true` is modelled as the answer being the boolean true.
- FieldDetector.Scan: the candidate search works over a list of precomputed confidences. The source computes each confidence inside the loop; since the confidence is a pure function, the outcome is the same.
- FieldDetector.Run: the matching pass is stated for any score function. `Coverage` fixes it to the confidence against the first record.
- Scorer.CoverageScore: requires every matched path and close target to be a schema key. For any other key the source throws a TypeError on the category lookup, and that exception is not modelled. `Scorer.DetectedCoverageInSchema` shows that a coverage the detector computes meets the requirement.
- Scorer.CalculateCoverageScore: has the same requirement as `Scorer.CoverageScore`.
- Scorer.CalculateScores: has the same requirement as `Scorer.CoverageScore`.
- FieldDetector.GetMappedValue: for a close field, its contract only says the value is that of some close match with the target. `FieldDetector.FindCloseFirst` proves it is the first such match, and `FieldDetector.CloseFieldReadsItsCandidate` proves it is the only one for a computed coverage.
- FieldDetector.ReplaceFirstDot: its contract states only length and the dot-free case. The exact effect is stated by `FieldDetector.ReplaceFirstDotAt`.
- FieldDetector.Confidence: its contract states only the range. The relation to similarity and type compatibility is `FieldDetector.ConfidenceFacts`.
- FieldDetector.EditSimilarity: its contract states only the range. The distance it uses is proved equal to the matrix algorithm by `FieldDetector.EditDistance`.
