# bnb-master eligibility engine, modelled in Dafny

This project models the decision core of bnb-master. bnb-master pre-screens
addresses for registration as a foreign-tourist urban homestay (a short-let
of the Airbnb kind). From a building-registry title record and the
building's unit list, `AirbnbCheckerRules.run` answers 0 when the building
is ineligible and otherwise grades it 1–4.

The batch driver `process_and_split_csv` handles a list of address rows:

- it normalises and deduplicates the rows;
- it judges every remaining address;
- it files each row in one of five buckets by its code.

The two registry fetches become inputs:

- the outcome of the title fetch, as a `Result`;
- the outcome of the unit fetch, as `Option<Result>`. `None` means unit rows were not requested.

A Python exception is a `Failure`.

Modules, one file each:

- `Wrappers` (wrappers.dfy): `Option` and `Result`.
- `Text` (text.dfy): the Python string operations the engine uses.
  - `str.strip`;
  - `replace(" ", "")`;
  - `in` on strings;
  - string ordering;
  - ASCII `int()` parsing;
  - `str(int)`;
  - `:.2f` formatting.
- `Dates` (dates.dfy): `_parse_yyyymmdd` and the Gregorian calendar it checks against.
- `Classify` (classify.dfy): `classify_structure` and `detect_house_type`.
- `Constraints` (constraints.dfy):
  - `check_house_type_constraints`;
  - the engine's soft/hard failure rule;
  - an independent reading of the housing-type table.
- `Units` (units.dfy): the per-(dong, floor) unit aggregation and its sort order.
- `Checker` (checker.dfy): the decision part of `run`.
  - field selection;
  - unit-count resolution;
  - the gate chain;
  - the grading.
- `Batch` (batch.dfy): the deduplication loop, the bucketing loop and `get_result_description`.

## Model

| member | source | states |
|---|---|---|
| Text.Strip | bnb_checker.py:142 | the result is one contiguous slice of the input, in order, with only whitespace cut off on either side; it has no whitespace at either end; it keeps every non-whitespace character and adds none |
| Text.StripIdempotent | bnb_filter.py:61-64 | stripping an already stripped cell changes nothing |
| Text.RemoveSpaces | bnb_checker.py:193 | removing spaces leaves no U+0020 and never lengthens the text |
| Text.RemoveSpacesKeepsContent | bnb_checker.py:193 | exactly the U+0020 characters are dropped: the length falls by their number, every other character keeps its number of occurrences, and text without a space is unchanged |
| Text.RemoveSpacesConcat | bnb_checker.py:208-209 | removing spaces from a concatenation removes them from each part and keeps the parts in order |
| Text.RemoveSpacesIdempotent | bnb_checker.py:208-209 | removing spaces twice is removing them once |
| Text.IntToStringParses | bnb_filter.py:120 | the code written into the output row as text reads back as the same integer |
| Dates.ParseYmd | bnb_checker.py:139-149 | a missing value gives no date; any date returned is a valid calendar date whose eight-digit rendering is exactly the stripped input |
| Dates.ParseFormatRoundTrip | bnb_checker.py:139-149 | every valid date, written as YYYYMMDD, parses back to itself |
| Dates.ParseYmdEightDigits | bnb_checker.py:142-149 | text that strips to eight digits parses exactly when its 4+2+2 fields form a valid date, and then to that date |
| Dates.ParseYmdFebruary29 | bnb_checker.py:145-149 | 29 February is accepted exactly in leap years |
| Dates.ParseYmdRejectsMonthAbove12 | bnb_checker.py:146-149 | a month above 12 never parses |
| Dates.ParseYmdRejectsYear0 | bnb_checker.py:146-149 | year 0000, which is before `date.min`, never parses |
| Dates.ParseYmdRejectsOtherLengths | bnb_checker.py:143-144 | text that does not strip to exactly eight characters is refused |
| Classify.ClassifyStructure | bnb_checker.py:192-204 | the result is one of the five structure classes or the input unchanged; blank text is unconfirmed; text holding both 철근 and 콘크리트, ignoring spaces, is always reinforced concrete; otherwise 벽돌 gives brick, then 철골 gives steel frame, then 목 gives timber, each only when the earlier tokens are absent; non-blank text holding none of the tokens is returned unchanged, and an unchanged result means that none of the tokens occurred |
| Classify.ClassifySpaceFreeRc | bnb_checker.py:196-197 | space-free text with both concrete tokens is reinforced concrete |
| Classify.SpacedReinforcedConcreteIsRc | bnb_checker.py:193-197 | "철근 콘크리트", with a space, is still reinforced concrete |
| Classify.BrickBeforeSteelFrame | bnb_checker.py:198-201 | text naming both brick and steel frame is brick, because brick is tested first |
| Classify.SteelFrameBeforeTimber | bnb_checker.py:200-203 | text naming both steel frame and timber is steel frame |
| Classify.UnmatchedStructurePassesThrough | bnb_checker.py:204 | "기타조", which holds none of the tokens, is returned as written |
| Classify.PurposeTextSplits | bnb_checker.py:208-209 | the searched text is the two purposes with their spaces removed, main purpose first; the joining space never matters |
| Classify.DetectHouseType | bnb_checker.py:207-226 | the label is one of the seven; it is 다가구주택 exactly when 다가구 occurs, 다세대주택 exactly when 다세대 is the first of the tokens in the order 다가구, 다세대, 연립, 아파트, 단독 to occur, and likewise 연립주택, 아파트 and 단독주택 for theirs; it is one of the five specific types exactly when some specific token occurs; it is the unspecified-subtype label exactly when no token occurs and 공동주택 is in the main purpose |
| Classify.DetectIgnoresSpacesInEtc | bnb_checker.py:208-209 | spaces inside the secondary purpose never change the label |
| Classify.MultiHouseholdBeatsApartment | bnb_checker.py:212-219 | text naming both 다가구 and 아파트 is a multi-household house, by priority |
| Classify.CommonHousingFallback | bnb_checker.py:224-225 | a bare 공동주택 main purpose gives the unspecified-subtype label |
| Classify.SpacedCommonHousingIsUnknown | bnb_checker.py:224-226 | a spaced "공동 주택" main purpose misses the fallback, which searches the unspaced original, and is unknown |
| Classify.CommonHousingInEtcIsUnknown | bnb_checker.py:224-226 | 공동주택 only in the secondary purpose does not trigger the fallback |
| Constraints.CheckHouseTypeConstraints | bnb_checker.py:229-286 | a missing floor count or area always yields its soft note; a result is a soft failure exactly when it is one of the leading missing-value notes; a type outside the five gets only soft notes |
| Constraints.RulesAllOkIffTable | bnb_checker.py:254-284 | the table rules all hold exactly when the known floor count, area and unit count satisfy the independent table reading |
| Constraints.HardFailureIffTableViolated | bnb_checker.py:469-480 | the engine's hard-failure test rejects exactly the buildings that break the housing-type table; a missing value never rejects |
| Constraints.SmallAreaPassesAreaCaps | bnb_checker.py:457-463 | after the area gate, no ≤ 660 m² rule can fail |
| Constraints.SmallRowHouseViolatesTable | bnb_checker.py:274-278 | a row house with a known area under 230 m² always breaks the > 660 m² rule |
| Constraints.LargeMultiHouseholdIsHardFailure | bnb_checker.py:255-261 | a 700 m² multi-household house is a hard failure whatever else is known |
| Units.KeyOf | bnb_checker.py:361-366 | the dong is the stripped name, or 미상동 when it is missing or blank; the floor is the floor text, or 미상층 when it is missing |
| Units.KeyLessTotal | bnb_checker.py:368-378 | the sort key orders any two distinct groups, so the sorted list is unique |
| Units.KeyLessTransitive | bnb_checker.py:368-374 | the sort order is transitive |
| Units.NumericFloorOrder | bnb_checker.py:368-374 | floor "2" sorts before floor "10" by integer value, although "10" is the smaller text |
| Units.NonNumericFloorLast | bnb_checker.py:371-373 | a floor that is not an integer sorts after every floor written plainly as an integer (as `str(n)` renders it) below 10^9 in the same dong |
| Units.UnitsPerFloor | bnb_checker.py:357-378 | the groups are strictly sorted by the sort key; every count is positive; each key is counted exactly as often as it occurs among the unit rows; the counts sum to the number of rows |
| Units.UnitsPerFloorIsTheSortedGrouping | bnb_checker.py:376-378 | any strictly sorted list of positive counts that matches the key occurrences is the aggregation, so the grouping is determined by the rows |
| Units.GroupPresentIffOccurs | bnb_checker.py:360-366 | a key has a group exactly when some unit row carries it |
| Units.ExposTotal | bnb_checker.py:380 | the total taken from the unit list is the number of unit rows |
| Units.BlankRowGroupedAsUnknown | bnb_checker.py:361-365 | a unit row with a blank dong and no floor is counted under (미상동, 미상층) |
| Checker.MainPurpose | bnb_checker.py:328 | the main purpose is never empty; a non-blank purpose is used stripped; a missing or blank one becomes "(주용도 없음)" |
| Checker.ViolationFlag | bnb_checker.py:331-332 | the building is flagged illegal exactly when the violation field holds non-blank text that strips to "1"; a missing or empty field reads as "0" and is not a violation |
| Checker.StructureRaw | bnb_checker.py:335 | a non-blank structure code name is chosen, stripped, even when it is only whitespace; otherwise the other structure text, stripped, or "" when that is missing; the result has no surrounding whitespace |
| Checker.Area | bnb_checker.py:345-348 | the area is the all-dong total when present, otherwise the total area |
| Checker.TotalUnits | bnb_checker.py:384-390 | the unit total is the household count, else the family count, else the number of fetched unit rows, else the unit-number count |
| Checker.TotalUnitsPrefersHouseholds | bnb_checker.py:384-390 | a worked example of each level of the priority |
| Checker.TotalUnitsIgnoresHoCntWithUnits | bnb_checker.py:387-390 | once unit rows were fetched, the unit-number count is never used, even when the list is empty |
| Checker.KeywordsHaveNoSpaces | bnb_checker.py:186 | removing spaces from a keyword changes nothing, so each keyword is matched as written |
| Checker.GatePassedIffEligible | bnb_checker.py:409-495 | the gate chain lets a building through exactly when it meets the direct eligibility statement: not illegal, one of the five allowed types, no disallowed keyword, no known area of 230 m² or more (an unknown area passes), the table satisfied, and reinforced concrete when required |
| Checker.AtLeastChain | bnb_checker.py:533-537 | a Python `or`-chain of `>=` comparisons either answers whether some count reaches k, or raises the None-comparison TypeError; it raises only over a missing count and never when all counts are present |
| Checker.ChainRaisesIff | bnb_checker.py:533-537 | the chain raises exactly when a missing count comes before every count that reaches k |
| Checker.GradeAsWritten | bnb_checker.py:521-541 | as written, the grade is 1–4 or the None-comparison TypeError |
| Checker.GradeIntended | bnb_checker.py:521-541 | with every missing value read as 0, the grade is 1–4; grade 1 needs at least two known floors and some count equal to 1; grade 2 needs exactly one floor, at most one basement and some count of at least 1; grade 3 needs 2–4 floors, at most one basement and some count of at least 2; the first case that applies wins: the grade is 1 exactly when there are at least two floors and some count equals 1, 2 exactly when there is one floor, at most one basement and some count of at least 1, 3 exactly when there are 2–4 floors, at most one basement, no count equal to 1 and some count of at least 2, and otherwise 4 |
| Checker.GradeAsWrittenAgrees | bnb_checker.py:521-541 | whenever the as-written grading answers, it gives the intended grade; it raises only when some count is missing |
| Checker.GradeAsWrittenRaisesIff | bnb_checker.py:531-537 | the as-written grading raises exactly when case 2 (one floor, at most one basement) or case 3 (2–4 floors, at most one basement, no count equal to 1) is reached and its `or` chain meets a missing count before any count that reaches the case's bound |
| Checker.GradeAsWrittenWhenCountsPresent | bnb_checker.py:523-541 | with all three counts known, the as-written grading never raises and equals the intended one |
| Checker.MissingFloorsGradeFour | bnb_checker.py:523-541 | an unknown floor count grades 4 and never raises |
| Checker.DecideAgrees | bnb_checker.py:409-541 | the decision as written and the corrected decision agree whenever the written one answers |
| Checker.Run | bnb_checker.py:313-541 | every answer is 0–4; no title record answers 0; a failed title fetch fails the run; a failed unit fetch fails the run before any gate |
| Checker.RunCorrected | bnb_checker.py:313-541 | with the grading corrected, the run answers 0–4 and fails only when a fetch fails |
| Checker.RunCorrectedCharacterized | bnb_checker.py:313-541 | with the grading corrected, the run answers 0 exactly for an ineligible first title record and gives every eligible one its intended grade, with a missing count read as 0 |
| Checker.RunCharacterized | bnb_checker.py:313-541 | the run answers 0 exactly for an ineligible first title record, and grades every eligible one as the grading does |
| Checker.RunReadsFirstTitleOnly | bnb_checker.py:318 | title records after the first never change the answer |
| Checker.UnitFetchFailurePrecedesGates | bnb_checker.py:357-358 | a failed unit fetch fails the run even for an illegal building, because the fetch comes first |
| Checker.IllegalIsZero | bnb_checker.py:331-414 | a building flagged "1" as illegal answers 0 whatever else its record holds |
| Checker.KnownAreaRowHouseIsZero | bnb_checker.py:457-483 | a row house with a known area always answers 0: the area gate and the row-house area rule cannot both pass |
| Checker.RunIgnoresDisplayFields | bnb_checker.py:321-340 | the address, building name and approval date never change the answer |
| Checker.RunSeesOnlyFacts | bnb_checker.py:321-390 | two records with the same derived facts get the same answer |
| Checker.MissingHouseholdCountRaises | bnb_checker.py:533 | a one-storey building with no household count and one family raises as written, where the intended grade is 2 |
| Checker.OneFamilyHouseRaises | bnb_checker.py:313-541 | an eligible record, a one-storey 100 m² detached house with no basement, no household count and one family, raises the None comparison through `run` as the batch calls it; the corrected run grades it 2 |
| Checker.RunCorrectedAgrees | bnb_checker.py:521-541 | the corrected run agrees with the run wherever the run answers |
| Batch.Get | bnb_filter.py:61-64 | a missing column reads as empty text |
| Batch.NormalizedJi | bnb_filter.py:64-69 | the sub-lot is the stripped cell, or "0000" when that is blank, and is never empty |
| Batch.NormalizeRowChangesOnlyJi | bnb_filter.py:72 | writing the sub-lot back changes no other column |
| Batch.NormalizeRowIdempotent | bnb_filter.py:64-72 | normalising a normalised row changes nothing |
| Batch.BlankJiMatchesDefault | bnb_filter.py:66-69 | a blank sub-lot and "0000" give the same deduplication key |
| Batch.ZeroJiDiffersFromDefault | bnb_filter.py:66-69 | "0" is not normalised to "0000", so the two stay distinct keys |
| Batch.Deduplicate | bnb_filter.py:59-86 | the kept rows are exactly the reference first occurrences; kept plus duplicates equals the number of complete rows; every kept row is complete; kept addresses are pairwise distinct; one row is kept per distinct complete address |
| Batch.FirstOccurrencesCover | bnb_filter.py:75-86 | every complete address in the input is represented among the kept rows |
| Batch.RepeatedAddressDropped | bnb_filter.py:79-86 | of two complete rows with the same address, only the first is kept, normalised |
| Batch.BlankJiRowIsDuplicate | bnb_filter.py:66-86 | a blank-sub-lot row after the same address with "0000" is dropped as a duplicate |
| Batch.GetResultDescription | bnb_filter.py:169-177 | codes 0–4 map to their descriptions; anything else maps to "알 수 없음" |
| Batch.DescriptionIdentifiesCode | bnb_filter.py:169-177 | the five descriptions are distinct and none is the fallback, so a description identifies its code |
| Batch.Judge | bnb_filter.py:97-137 | the bucket is 0–4 and the code column holds it as text; an answer outside 0–4 is filed under 4; an exception files the row under 4 with "Error: " and the message; an answered row's meaning is its bucket's description; every other column is kept |
| Batch.BucketsPartition | bnb_filter.py:97-137 | every row is filed in exactly one of the five buckets, and no row lands anywhere else |
| Batch.ProcessRows | bnb_filter.py:97-137 | each bucket holds, in input order, the judged rows filed under it; each count is its bucket's size; the counts add up to the number of kept rows; the processed count is the number of rows the checker answered |
| Batch.EngineCodesNeedNoCoercion | bnb_filter.py:104-116 | with the real engine behind it, every answered row is filed under the code the engine returned |
| Batch.CorrectedEngineJudgesAlike | bnb_filter.py:104-137 | with the corrected grading, a row is filed as an error only when a registry fetch failed, and every row the engine as written answers is filed and tagged exactly as before |

## Left out

- The registry HTTP client `BldRgstHubClient` is left out. It pages through results up to `max_pages` and raises `RuntimeError` on an unexpected content type, an API error code or too many pages. Both fetches are inputs here; any raised error is a `Failure`.
- `_to_int` and `_to_float` are left out. The title record holds their outcomes as `Option<int>` and `Option<real>`.
- Areas are exact reals, so NaN and infinity (which `float()` accepts) are not modelled.
- `_years_since`, the clock and `_map_link` only feed the printed report. They are left out.
- Checker.Run: the approval date is irrelevant to the answer only for ASCII input. `_parse_yyyymmdd` is modelled for ASCII digits, and `Run` does not call it. In the source, a `useAprDay` such as "2020²101" passes `isdigit` at line 143. The `int()` at line 145 is outside the `try`, so it raises `ValueError` and the batch files the row as an error. That path is not modelled.
- The `log`/`print` report, the `verbose` flag and the progress printing of the batch loop are output only. They are left out.
- Every `__main__` block is left out.
- CSV reading and writing is left out: `encoding='utf-8-sig'`, DictReader/DictWriter, header handling and the output files. A row is a map from column name to text.
- Cells that DictReader fills with `None`, which make `.strip()` raise outside any `try`, are not modelled.
- Registry values are taken to be strings or absent. The `str(...)` around non-string JSON values (for `violBldYn` and `dongNm`) is not modelled.
- `str.isdigit` and `int()` are modelled for ASCII digits only. Other Unicode decimal digits, and the underscores `int()` accepts, are left out.
- Text.Fixed2: it formats the exact real value. Python formats the nearest binary double, which can round a `.xx5` differently.
- Checker.Run: `include_units_per_floor=False` is modelled as `units == None`, and `require_rc` is a parameter. The batch passes `require_rc=False` and `include_units_per_floor=True` (bnb_filter.py:109-110). `Batch.EngineCheck` does the same.
- The comment at bnb_checker.py:522 says that None is replaced by 0 for the comparisons. Lines 523-525 do that only for the floor counts and the unused total; the three counts are compared raw. The model follows the code; see Findings.
- The priority comment at bnb_checker.py:383 lists `hoCnt` as the last fallback for the unit total. Lines 387-390 reach it only when no unit rows were requested, because the summed unit list comes first and is 0 when empty. The model follows the code.
- Space removal is U+0020 only, as `replace(" ", "")` does; other whitespace stays.

## Findings

| source | as written | input that shows it | evidently intended | confidence | as-written member | corrected member |
|---|---|---|---|---|---|---|
| bnb_checker.py:533,537 | the case-2 and case-3 tests compare the raw `hhld_cnt`, `fmly_cnt` and `ho_cnt` with `>=`, so a missing count reached by the `or`-chain raises `TypeError`; the batch then files the row under 4 as an error | an eligible record: main purpose 단독주택, area 100 m², `grndFlrCnt` 1, `ugrndFlrCnt` 0, no `hhldCnt`, `fmlyCnt` 1, no `hoCnt`, with unit rows requested and none listed | the comment at line 522 says missing values are replaced by 0 before comparing, so that building grades 2 | not executed | Checker.OneFamilyHouseRaises | Checker.RunCorrected |
