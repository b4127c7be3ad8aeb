# Smart-meter readings: cleaning, interactive filtering and monthly cost estimates

This project models two small pandas scripts over household electricity-meter readings:

- `filter_readings.py` cleans the readings. It then asks on the console whether to narrow them by:
  1. a meter id;
  2. a comma-separated list of months;
  3. a comma-separated list of years.

  Each step is switched on or off by a y/n answer.
- `estimate_usage_cost.py` does four things to the readings:
  1. cleans them the same way;
  2. groups them by meter, month and year, and sums each group's consumption;
  3. prices each group at the flat rate of 0.15;
  4. replaces each month number by its English name.

A reading is a record `Reading(meterId, day, month, year, consumption)`. Its timestamp has already been split into calendar fields. Consumption is a `real`, so sums and prices are exact.

A pandas boolean-mask selection `df[mask]` is `MeterData.Where`. It keeps the rows for which the mask holds, in their original order.

Python's `int()` on each token of `spec.split(',')` is modelled character by character in module `PyInt`:
- the whitespace `int()` strips: tab, line feed, vertical tab, form feed, carriage return and space, and the non-ASCII characters `str.isspace()` accepts;
- an optional sign;
- decimal digits, with single underscores allowed between them.

Anything else is a `ValueError` naming the token. The one exception is the digit limit of `int()`, which is listed under "## Left out".

Console input is a sequence of answer lines that the dialogue reads in order. Running out of lines is `EndOfInput`, which stands for Python's `EOFError`.

Modules and files:

- `meter_data.dfy` (module `MeterData`):
  - readings, errors and results;
  - order-preserving selection and the subsequence relation;
  - the cleaning mask both scripts share.
- `py_int.dfy` (module `PyInt`):
  - `str.split(',')`, the whitespace stripping, the `int()` literal grammar and `str()` of an integer;
  - the list comprehension `[int(t) for t in spec.split(',')]`.
- `filter_readings.dfy` (module `FilterReadings`):
  - the three filters;
  - the y/n prompt loop, as a method with a loop and the function that specifies it;
  - one dialogue step, the three-step session and `main`.
- `filter_readings.dfy` (module `FilterExamples`): the docstring examples and the edge cases of the dialogue.
- `estimate_usage_cost.dfy` (module `EstimateUsageCost`):
  - `month_name`;
  - the `Year` text column;
  - the group-by-sum;
  - the priced table built by `main`.

## Model

| member | source | states |
|---|---|---|
| `MeterData.Where` | filter_readings.py:88 | a row is kept iff it was in the table and the mask holds of it; every copy of a kept row survives (the multiset of the result is the input's restricted to the mask); the result is an order-preserving subsequence, no longer than the table |
| `MeterData.IsSubsequenceTrans` | filter_readings.py:31-33 | deleting rows from a table obtained by deleting rows is deleting rows from the original (used to carry the filters' result back to the file's rows) |
| `MeterData.WhereWhere` | filter_readings.py:46-72 | selecting by one mask, then by another, is selecting once by their conjunction |
| `MeterData.WhereSameMask` | filter_readings.py:88 | masks that agree on every row of the table select the same rows |
| `MeterData.WhereKeepsAll` | filter_readings.py:88 | a mask that holds of every row keeps the whole table unchanged |
| `MeterData.WhereCommutes` | filter_readings.py:98-117 | two selections give the same table whichever runs first |
| `MeterData.WhereIdempotent` | filter_readings.py:98-117 | selecting again by the same mask changes nothing |
| `MeterData.Plausible` | estimate_usage_cost.py:27 | the three-conjunct mask holds exactly when 0 < consumption < 3 |
| `MeterData.CleanConsumptionData` | filter_readings.py:88 | a reading is retained iff 0 < consumption < 3, with every copy of it retained and none added, and the result is an order-preserving subsequence of the input |
| `MeterData.NonZeroConjunctRedundant` | filter_readings.py:88 | the `!= 0` conjunct never changes the result: the two-sided mask alone selects the same rows |
| `MeterData.CleanIdempotent` | filter_readings.py:79-90 | cleaning a cleaned table changes nothing |
| `MeterData.CleanIgnoresImplausible` | filter_readings.py:81-88 | appending or prepending a reading outside (0, 3) leaves the cleaned table as it was |
| `PyInt.StripStart` | filter_readings.py:108 | the result is a suffix of the text that does not begin with whitespace |
| `PyInt.StripEnd` | filter_readings.py:108 | the result is a prefix of the text that does not end with whitespace |
| `PyInt.StripShape` | filter_readings.py:108 | the stripped text neither starts nor ends with whitespace |
| `PyInt.StripStartSpaces` | filter_readings.py:108 | leading whitespace before a token that starts with a non-space is dropped exactly |
| `PyInt.StripEndSpaces` | filter_readings.py:108 | trailing whitespace after a token that ends with a non-space is dropped exactly |
| `PyInt.StripSurrounded` | filter_readings.py:8 | whitespace on both sides of a token is ignored, as in the docstring's `2012, 2013` |
| `PyInt.StripKeeps` | filter_readings.py:108 | every non-space character of a token survives stripping |
| `PyInt.ParseInt` | filter_readings.py:108 | `int(token)` fails only with a ValueError naming the token, and succeeds only on a token that is not blank |
| `PyInt.NatString` | filter_readings.py:8 | `str(n)` of a natural number is non-empty decimal digits with value n and no leading zero |
| `PyInt.IntString` | estimate_usage_cost.py:31 | `str(n)` is non-empty and starts with `-` exactly when n is negative |
| `PyInt.DigitsAreValid` | filter_readings.py:108 | a string of decimal digits is a valid literal body with no underscores |
| `PyInt.IntStringShape` | filter_readings.py:108 | `str(n)` is non-empty, starts and ends with a non-space and holds no comma |
| `PyInt.ParseIntString` | filter_readings.py:108 | `int()` reads `str(n)`, with any whitespace around it, back as n |
| `PyInt.ParseIntBlank` | filter_readings.py:108 | `int()` of an empty or all-whitespace token is a ValueError naming the token |
| `PyInt.ParseIntInnerSpace` | filter_readings.py:108 | whitespace inside the stripped token, as in `1 2` or `- 1`, is a ValueError naming the token |
| `PyInt.ParseIntRejectsForeignChar` | filter_readings.py:108 | a token holding a non-space character that is not a digit, a sign or an underscore is a ValueError naming the token |
| `PyInt.ValidDigitsChars` | filter_readings.py:108 | a literal body consists of digits and underscores only |
| `PyInt.Split` | filter_readings.py:108 | `s.split(',')` always yields at least one piece |
| `PyInt.SplitPiecesHaveNoComma` | filter_readings.py:108 | no piece of `s.split(',')` holds a comma |
| `PyInt.JoinSplit` | filter_readings.py:108 | joining the pieces with commas restores the text |
| `PyInt.SplitPrefix` | filter_readings.py:108 | comma-free text in front of a string extends only the first piece |
| `PyInt.SplitJoin` | filter_readings.py:108 | splitting comma-free pieces joined by commas gives the pieces back |
| `PyInt.JoinConcat` | filter_readings.py:108 | joining two lists of pieces is joining each and putting a comma between them |
| `PyInt.SplitConcat` | filter_readings.py:108 | splitting at a comma gives the left part's pieces followed by the right part's |
| `PyInt.ParseTokens` | filter_readings.py:108 | the comprehension yields one value per token, or a ValueError |
| `PyInt.ParseTokensValues` | filter_readings.py:108 | each value of a successful comprehension is `int()` of the token in the same place |
| `PyInt.ParseTokensFirstError` | filter_readings.py:108 | a failed comprehension reports `int()`'s error on a token that every earlier token parsed before |
| `PyInt.ParseTokensAllOk` | filter_readings.py:108 | when `int()` accepts every token, the comprehension yields exactly their values in order |
| `PyInt.ParseIntList` | filter_readings.py:108 | the comprehension over `spec.split(',')` yields one integer per comma-separated token, or a ValueError |
| `PyInt.ParseIntListBlankToken` | filter_readings.py:117 | a spec with an empty or blank token is an error |
| `PyInt.TokenShape` | filter_readings.py:108 | a token of a written-out list holds no comma and parses to its number |
| `PyInt.ParseIntListRoundTrip` | filter_readings.py:6-8 | a non-empty list of integers written out with commas, and any whitespace after them, parses back to itself |
| `PyInt.ParseIntListSingle` | filter_readings.py:117 | a single number typed on its own parses to the one-element list |
| `PyInt.EmptyTokenBetweenCommas` | filter_readings.py:108 | any spec containing `,,` is an error |
| `PyInt.TrailingCommaRejected` | filter_readings.py:117 | any spec ending in a comma is an error |
| `PyInt.EmptySpecRejected` | filter_readings.py:108 | the empty spec is a ValueError naming the empty token |
| `PyInt.StripStartKeeps` | filter_readings.py:108 | stripping leading whitespace never removes a non-space character |
| `PyInt.StripEndKeeps` | filter_readings.py:108 | stripping trailing whitespace never removes a non-space character |
| `PyInt.ValidDigitsUnderscore` | filter_readings.py:108 | in a literal body every underscore has a digit on each side |
| `PyInt.ParseIntMisplacedSign` | filter_readings.py:108 | a `+` or `-` anywhere but the first position of the stripped token is a ValueError naming the token |
| `PyInt.ParseIntMisplacedUnderscore` | filter_readings.py:108 | an underscore of the stripped token that is not between two digits is a ValueError naming the token |
| `PyInt.ParseIntLoneSign` | filter_readings.py:108 | a sign with no digits after it is a ValueError naming the token |
| `PyInt.DigitsValueLeadingZeros` | filter_readings.py:108 | leading zeros do not change the value of a digit string |
| `PyInt.ZerosThenDigits` | filter_readings.py:108 | leading zeros before the digits of n form a valid literal body of value n |
| `PyInt.StripPadded` | filter_readings.py:108 | stripping the whitespace around a signed, zero-padded number leaves the sign and the digits |
| `PyInt.ParseIntSigned` | filter_readings.py:108 | a stripped token made of an optional sign and a literal body reads as the body's value, negated after `-` |
| `PyInt.ParseIntPadded` | filter_readings.py:108 | `int()` accepts a leading `+` or `-` and leading zeros before the digits of n, with whitespace around, and reads n or -n |
| `PyInt.ValidDigitsJoin` | filter_readings.py:108 | two literal bodies joined by one underscore form a literal body holding the digits of both |
| `PyInt.StripUnpadded` | filter_readings.py:108 | text that neither starts nor ends with whitespace is left unchanged by stripping |
| `PyInt.ParseIntUnsigned` | filter_readings.py:108 | a token whose stripped text is an unsigned literal body reads as the value of its digits |
| `PyInt.ParseIntGrouped` | filter_readings.py:108 | `int()` accepts digit groups joined by single underscores and ignores the underscores in the value |
| `PyInt.SingleBadToken` | filter_readings.py:108 | a spec without commas holding a character `int()` never accepts fails with the ValueError of the whole spec |
| `FilterReadings.FilterMeterId` | filter_readings.py:98 | keeps exactly the rows whose meter id equals the given text, every copy of each, as an order-preserving subsequence |
| `FilterReadings.FilterMonth` | filter_readings.py:108 | succeeds iff the spec parses, failing with the parser's error; on success keeps exactly the rows whose month is among the parsed integers, every copy of each, in order |
| `FilterReadings.FilterYear` | filter_readings.py:117 | succeeds iff the spec parses, failing with the parser's error; on success keeps exactly the rows whose year is among the parsed integers, every copy of each, in order |
| `FilterReadings.FilterMeterIdIdempotent` | filter_readings.py:98 | filtering twice by the same meter id is filtering once |
| `FilterReadings.FilterMonthNarrows` | filter_readings.py:108 | a month filter after a wider month filter gives the rows of the narrower one alone |
| `FilterReadings.FilterYearNarrows` | filter_readings.py:117 | a year filter after a wider year filter gives the rows of the narrower one alone |
| `FilterReadings.MeterMonthCommute` | filter_readings.py:98-108 | meter and month filters give the same table in either order; a month list that does not parse gives its ValueError in either order |
| `FilterReadings.MeterYearCommute` | filter_readings.py:98-117 | meter and year filters give the same table in either order; a year list that does not parse gives its ValueError in either order |
| `FilterReadings.MonthYearCommute` | filter_readings.py:100-117 | month and year filters give the same result in either order unless both lists fail to parse |
| `FilterReadings.MonthYearBothFail` | filter_readings.py:58-72 | when neither list parses, the filter run first decides which ValueError surfaces |
| `FilterReadings.MonthOutsideCalendarMatchesNothing` | filter_readings.py:108 | month numbers outside 1..12 are accepted but select no reading of a real timestamp |
| `FilterReadings.IsYesNo` | filter_readings.py:41 | a line ends the prompt loop iff it is one of `Y`, `y`, `N`, `n` |
| `FilterReadings.ApplyFilter` | filter_readings.py:46 | the filter of a step succeeds iff its value parses (always for the meter id), selects the table by the mask of that value, and otherwise fails with the parser's ValueError |
| `FilterReadings.FirstYesNo` | filter_readings.py:41-42 | the prompt loop ends on a line at or after the prompt's first line, and that line is one of Y, y, N, n; otherwise the input runs out |
| `FilterReadings.FirstYesNoSkips` | filter_readings.py:41-42 | every line the loop reads before it ends is not a y/n answer |
| `FilterReadings.AskYesNo` | filter_readings.py:39-42 | the loop that re-prompts until a y/n answer computes FirstYesNo |
| `FilterReadings.Step` | filter_readings.py:39-50 | a successful step consumes input and appends exactly one choice to those made so far; a failed one raises end of input or a ValueError (when it fails is `StepFails`) |
| `FilterReadings.Answer` | filter_readings.py:44-50 | the branch on the answer consumes the answer line and appends exactly one choice; it fails exactly after a y answer with no value line (end of input) or with a value the filter rejects (the filter's ValueError, with no new prompt) |
| `FilterReadings.StepSelects` | filter_readings.py:44-49 | the table after a step is the current table selected by the mask of the chosen filter; a skipped step keeps the table as it is |
| `FilterReadings.StepNo` | filter_readings.py:48-49 | answering n or N leaves the table unchanged and records a skip |
| `FilterReadings.StepYes` | filter_readings.py:44-46 | answering y or Y applies the step's filter to the next line's value; a value the filter rejects ends the step with the filter's ValueError |
| `FilterReadings.StepEndOfInput` | filter_readings.py:39-45 | input that runs out before a y/n answer, or right after a y answer, ends the step with end of input |
| `FilterReadings.StepFails` | filter_readings.py:39-50 | a step fails exactly when no y/n answer comes before the input runs out, or the answer is y and there is no value line or the filter rejects the value |
| `FilterReadings.Session` | filter_readings.py:39-75 | the three steps make three choices, and the dialogue fails only with end of input or a ValueError |
| `FilterReadings.SessionSelects` | filter_readings.py:39-75 | the final table is the cleaned readings selected by the meter, month and year masks together, as one selection |
| `FilterReadings.SessionOfSteps` | filter_readings.py:39-75 | when all three steps succeed, the session's result is the year step's result after the meter and month steps |
| `FilterReadings.SessionFirstFailure` | filter_readings.py:39-75 | the first step that fails ends the dialogue with that step's error (end of input or a rejected list); once the meter and month steps succeed, the session is the year step's result |
| `FilterReadings.SessionKeepsOrder` | filter_readings.py:31-75 | the printed table deletes rows from the cleaned readings, and from the file's readings, without reordering any |
| `FilterReadings.SessionBadMonths` | filter_readings.py:58-60 | y at the month prompt followed by a list `int()` rejects ends the dialogue with that list's ValueError |
| `FilterReadings.SessionBadYears` | filter_readings.py:70-72 | y at the year prompt followed by a list `int()` rejects ends the dialogue with that list's ValueError |
| `FilterReadings.RunStep` | filter_readings.py:39-50 | one prompt of main computes the step function |
| `FilterReadings.RunAnswer` | filter_readings.py:44-50 | the branch on the answer computes Answer |
| `FilterReadings.FilterMain` | filter_readings.py:26-77 | main's printed table is the session's final table, and main fails exactly when the session fails, with the same error |
| `FilterExamples.MonthsDocstringExample` | filter_readings.py:6 | `2,4,5` parses to February, April and May |
| `FilterExamples.YearLiterals` | filter_readings.py:8 | str(2012) is `2012` and str(2013) is `2013` |
| `FilterExamples.YearsDocstringExample` | filter_readings.py:8 | `2012, 2013` parses to 2012 and 2013 despite the space |
| `FilterExamples.MonthNarrowingExample` | filter_readings.py:108 | filtering months `2,4` then `4` is filtering `4` |
| `FilterExamples.MonthOutsideCalendarAccepted` | filter_readings.py:108 | a single month outside 1..12 is accepted and selects nothing from real timestamps |
| `FilterExamples.DialogueRunsOut` | filter_readings.py:39-72 | with no input, or with the answers n, n, y and nothing after them, main stops with end of input |
| `FilterExamples.BadMonthDialogue` | filter_readings.py:53-60 | the answers n, y and a one-character month list `int()` rejects end main with that list's ValueError |
| `FilterExamples.BadMonthAndYearExample` | filter_readings.py:58-72 | with a month list and a year list that are each one character `int()` rejects, main's order reports the month list's ValueError and the other order the year list's, so the two orders differ whenever the characters do |
| `FilterExamples.OnlySingleLetterAnswers` | filter_readings.py:41 | `yes`, `no`, `Y ` and the empty line do not end a prompt |
| `FilterExamples.FilterYearSingle` | filter_readings.py:117 | a single year keeps the readings of that year |
| `FilterExamples.AllNoKeepsCleanedTable` | filter_readings.py:39-77 | answering n to all three prompts yields the cleaned table |
| `FilterExamples.ExampleMeterStep` | filter_readings.py:39-46 | a rejected line, then y and an id, filters by that id |
| `FilterExamples.ExampleMonthStep` | filter_readings.py:53-63 | n at the month prompt keeps the table |
| `FilterExamples.ExampleYearStep` | filter_readings.py:65-72 | y and one year filters by that year |
| `FilterExamples.MeterThenYearExample` | filter_readings.py:39-75 | a whole dialogue: the meter filter, then the year filter, on the cleaned readings |
| `EstimateUsageCost.MonthName` | estimate_usage_cost.py:48-56 | defined exactly on 1..12; any other number is a KeyError naming it |
| `EstimateUsageCost.MonthNumber` | estimate_usage_cost.py:53-54 | any name it reads back is month_name of the number it yields, and a name it does not read back is no month's name |
| `EstimateUsageCost.MonthNameRoundTrip` | estimate_usage_cost.py:53-56 | reading back the name of each month 1..12 gives that month |
| `EstimateUsageCost.MonthNameInjective` | estimate_usage_cost.py:53-54 | no two months share a name |
| `EstimateUsageCost.MonthNameExamples` | estimate_usage_cost.py:53-56 | 3 is March, 12 is December, and 0 and 13 are KeyErrors |
| `EstimateUsageCost.YearString` | estimate_usage_cost.py:31 | the Year text of a timestamp's year has four characters |
| `EstimateUsageCost.YearStringRoundTrip` | estimate_usage_cost.py:31 | `int()` reads the Year text back as the year |
| `EstimateUsageCost.FourDigitYears` | estimate_usage_cost.py:31 | a year from 1000 to 9999 is rendered with four digits |
| `EstimateUsageCost.YearStringInjective` | estimate_usage_cost.py:31-33 | different years give different Year texts, so grouping on the text is grouping on the year |
| `EstimateUsageCost.KeyOf` | estimate_usage_cost.py:30-33 | a reading is grouped under its own meter and month, with a four-digit Year text for a real timestamp |
| `EstimateUsageCost.AddReading` | estimate_usage_cost.py:33 | accounting for one reading raises the sum of the grouped table by its consumption |
| `EstimateUsageCost.KeysOfCons` | estimate_usage_cost.py:33 | the keys of a table are its first key and the keys of the rest |
| `EstimateUsageCost.DistinctCons` | estimate_usage_cost.py:33 | a table has distinct keys iff its first key is new and the rest has distinct keys |
| `EstimateUsageCost.AddReadingKeys` | estimate_usage_cost.py:33 | accounting for a reading adds its key to the table's keys and no other |
| `EstimateUsageCost.AddReadingDistinct` | estimate_usage_cost.py:33 | accounting for a reading keeps the keys distinct |
| `EstimateUsageCost.AddReadingLookup` | estimate_usage_cost.py:33 | accounting for a reading raises its key's total by its consumption and no other total |
| `EstimateUsageCost.RowKeysSnoc` | estimate_usage_cost.py:33 | the keys of the readings plus one are the keys so far plus its key |
| `EstimateUsageCost.GroupSum` | estimate_usage_cost.py:33-34 | one group per key present and no key twice; each key's total is the sum over exactly its readings; the group totals add up to the total consumption |
| `EstimateUsageCost.LookupFinds` | estimate_usage_cost.py:33 | with distinct keys, looking up a group's key finds that group's consumption |
| `EstimateUsageCost.GroupSumTotals` | estimate_usage_cost.py:33 | each group's consumption is the sum over exactly the readings with its key |
| `EstimateUsageCost.TotalForAbsent` | estimate_usage_cost.py:33 | a key no reading has totals to 0 |
| `EstimateUsageCost.ApplyMonthName` | estimate_usage_cost.py:40 | succeeds iff every group's month is in 1..12, giving each group's name in row order; otherwise a KeyError naming an out-of-range month of some group |
| `EstimateUsageCost.GroupHasReading` | estimate_usage_cost.py:33 | every group holds some reading of its key |
| `EstimateUsageCost.ReadingHasGroup` | estimate_usage_cost.py:33 | every reading's key has a group |
| `EstimateUsageCost.MonthNamesOfReadings` | estimate_usage_cost.py:33-40 | renaming months fails iff some cleaned reading has a month outside 1..12, and the KeyError names such a month |
| `EstimateUsageCost.TotalCostOfGroups` | estimate_usage_cost.py:37 | pricing each group and summing is pricing the total |
| `EstimateUsageCost.EstimateUsageCost` | estimate_usage_cost.py:27-43 | fails iff a cleaned reading has a month outside 1..12, with a KeyError naming it, and never on real timestamps. Every printed row is meter, month name, Year text and group total × 0.15 of some cleaned reading, and every cleaned reading's group is printed. No two rows share meter, month and year. The costs add up to 0.15 × the cleaned consumption |
| `EstimateUsageCost.PricedRowsDescribed` | estimate_usage_cost.py:37-43 | every priced row describes the group of some cleaned reading |
| `EstimateUsageCost.PricedRowsCover` | estimate_usage_cost.py:33-43 | every cleaned reading's group has a priced row |
| `EstimateUsageCost.PricedRowsDistinct` | estimate_usage_cost.py:33-43 | no two priced rows share meter, month name and year |
| `EstimateUsageCost.GroupsIgnoreImplausible` | estimate_usage_cost.py:27-33 | a reading outside (0, 3) changes no group and no total |
| `EstimateUsageCost.SameKeyPair` | estimate_usage_cost.py:33 | two readings with the same key make one group holding their sum |
| `EstimateUsageCost.JanuaryExample` | estimate_usage_cost.py:27-33 | of readings 1.0 and 0.5 of one meter on one January day, 5.0 in February and -1.0 of another meter, cleaning keeps both January readings and they form one group of 1.5 |
| `EstimateUsageCost.JanuaryRow` | estimate_usage_cost.py:33-43 | in the 2013 scenario a row describes a cleaned reading iff it is M1, January, `2013`, 0.225 |
| `EstimateUsageCost.JanuaryTable` | estimate_usage_cost.py:33-43 | any report of that scenario that describes each cleaned reading and only those, with no key twice, is exactly the one row M1, January, `2013`, 0.225 |
| `EstimateUsageCost.JanuaryReport` | estimate_usage_cost.py:27-46 | main on that scenario in 2013 prints exactly the one row M1, January, `2013`, 0.225 |

## Left out

- Loading the CSV file with `pd.read_csv` and the fixed file name are file I/O, so they are not modelled. A table is given as a sequence of readings in file order.
- Timestamps:
  - Day-first timestamp parsing with `pd.to_datetime` and the DatetimeIndex are library calls. Readings carry their calendar fields already, and `WellFormed` states the ranges that parser guarantees.
  - A timestamp that fails to parse, which stops either script, is therefore not modelled.
  - The filter script cleans before it parses timestamps (filter_readings.py:31-33), while the cost script parses first (estimate_usage_cost.py:22-27). The model follows the code. Because parse failures are left out, the two orders give the same tables here.
- `input()` and `print` are console I/O. Answers are a sequence of lines read in order, and the printed tables are the values returned.
- pandas dtype coercion is not modelled. A meter id read as a number would never equal `str(m_id)`; here meter ids are text and the match is exact.
- Floating point:
  - Consumption, sums and costs are exact reals.
  - IEEE-754 rounding of the sums and of the multiplication by 0.15 is not modelled.
- `EstimateUsageCost.GroupSum` lists groups in the order their keys first appear. pandas sorts them by key. Row order is not part of the contract proved, and the table formatting is left out.
- The cost column's header text, including its mis-encoded pound sign, is formatting only.
- The `day` field is carried but used by no modelled operation.
- `PyInt.ParseInt` accepts only ASCII decimal digits. Python's `int()` also accepts other Unicode decimal digits (Arabic-Indic, for example), and those are not modelled.
- `PyInt.ParseInt` strips the whitespace `int()` skips in a pure-ASCII token. That whitespace does not include the separator characters U+001C..U+001F, though `str.isspace()` accepts them, so `int("\x1c5")` is a `ValueError`. In a token holding any non-ASCII character, CPython first turns every `str.isspace()` character into a space, and then it does skip U+001C..U+001F. Only that case, a U+001C..U+001F next to a literal in a token that also holds a non-ASCII character, is not modelled: the model rejects such a token.
- `PyInt.ParseInt` has no digit limit. Since Python 3.11 (and the 3.7.14, 3.8.14, 3.9.14 and 3.10.7 security releases), `int()` raises `ValueError` on a literal of more than 4300 digits, leading zeros included. The limit can be changed or switched off at run time (`sys.set_int_max_str_digits`, the `PYTHONINTMAXSTRDIGITS` variable), and older interpreters have none, so the model accepts literals of any length. `ParseIntString`, `ParseIntPadded`, `ParseIntGrouped` and `ParseIntListRoundTrip` therefore promise acceptance beyond 4300 digits.
- `EstimateUsageCost.YearString` renders the year as `str(year)`. That matches `strftime("%Y")` for the years a pandas timestamp can hold (1677..2262). The zero-padding `strftime` does for years below 1000 cannot arise from such timestamps and is not modelled.
