/** The decision part of `AirbnbCheckerRules.run`: field selection from the
    first title record, the unit-count resolution, the short-circuiting
    gate chain that answers 0, and the 1–4 grading of an eligible
    building. The two registry fetches are inputs. */
module Checker {
  import opened Wrappers
  import opened Text
  import opened Classify
  import opened Constraints
  import opened Units

  /** A title record as the engine reads it. Numeric fields hold what the
      integer and float coercions made of the raw values. */
  datatype TitleRec = TitleRec(
    platPlc: Option<string>,
    newPlatPlc: Option<string>,
    bldNm: Option<string>,
    mainPurpsCdNm: Option<string>,
    etcPurps: Option<string>,
    violBldYn: Option<string>,
    strctCdNm: Option<string>,
    etcStrct: Option<string>,
    useAprDay: Option<string>,
    grndFlrCnt: Option<int>,
    ugrndFlrCnt: Option<int>,
    totDongTotArea: Option<real>,
    totArea: Option<real>,
    hhldCnt: Option<int>,
    fmlyCnt: Option<int>,
    hoCnt: Option<int>)

  /** What `run` can raise: a failed registry fetch, or the `TypeError` of
      comparing a missing count with an integer. */
  datatype Error = FetchError(message: string) | TypeError(message: string)

  const NoneCompareMessage: string := "'>=' not supported between instances of 'NoneType' and 'int'"

  /** The housing types the engine accepts. */
  const AllowedHouseTypes: set<string> := {Detached, MultiHousehold, Apartment, RowHouse, MultiUnit}

  /** Purpose keywords that make a building ineligible. */
  const DisallowedKeywords: seq<string> := ["오피스텔", "원룸", "다중주택", "위법", "위반"]

  const NoMainPurpose: string := "(주용도 없음)"

  /** The area gate: a known area must be strictly below this. */
  const AreaLimit: real := 230.0

  // ---------------------------------------------------------------------
  // Field selection
  // ---------------------------------------------------------------------

  /** Python truthiness of an optional text: present and non-empty. */
  predicate Truthy(o: Option<string>) {
    o.Some? && o.value != []
  }

  /** `o or fallback` on an optional text. */
  function OrText(o: Option<string>, fallback: string): (r: string)
    ensures Truthy(o) ==> r == o.value
    ensures !Truthy(o) ==> r == fallback
  {
    if Truthy(o) then o.value else fallback
  }

  /** The main purpose: stripped, or the placeholder when blank. */
  function MainPurpose(t: TitleRec): (m: string)
    ensures m != []
    ensures Strip(OrText(t.mainPurpsCdNm, "")) != [] ==> m == Strip(OrText(t.mainPurpsCdNm, ""))
    ensures Strip(OrText(t.mainPurpsCdNm, "")) == [] ==> m == NoMainPurpose
  {
    var m := Strip(OrText(t.mainPurpsCdNm, ""));
    if m == [] then NoMainPurpose else m
  }

  function EtcPurpose(t: TitleRec): string {
    Strip(OrText(t.etcPurps, ""))
  }

  /** The violation flag: the stripped text (default "0") is exactly "1". */
  predicate IsViolation(t: TitleRec) {
    Strip(OrText(t.violBldYn, "0")) == "1"
  }

  /** The violation flag reads "1" only when the field holds non-blank
      text that strips to "1"; a missing or empty field is the default
      "0", which is no violation. */
  lemma ViolationFlag(t: TitleRec)
    ensures IsViolation(t) <==> Truthy(t.violBldYn) && Strip(t.violBldYn.value) == "1"
  {
    if !Truthy(t.violBldYn) {
      assert OrText(t.violBldYn, "0") == "0";
      assert !IsSpace("0"[0]);
      StripNoEdgeSpace("0");
    }
  }

  /** The raw structure text: the structure code name, else the other
      structure text, stripped. A whitespace-only code name is chosen
      over the other text, as Python's `or` does, and strips to "". */
  function StructureRaw(t: TitleRec): (r: string)
    ensures Truthy(t.strctCdNm) ==> r == Strip(t.strctCdNm.value)
    ensures !Truthy(t.strctCdNm) ==> r == Strip(OrText(t.etcStrct, ""))
    ensures Strip(r) == r
  {
    var raw := if Truthy(t.strctCdNm) then t.strctCdNm.value else OrText(t.etcStrct, "");
    StripIdempotent(raw);
    Strip(raw)
  }

  /** The judged area: the total over all dongs, else the total area. */
  function Area(t: TitleRec): (a: Option<real>)
    ensures t.totDongTotArea.Some? ==> a == t.totDongTotArea
    ensures t.totDongTotArea.None? ==> a == t.totArea
  {
    t.totDongTotArea.OrElse(t.totArea)
  }

  function HouseType(t: TitleRec): (ht: string)
    ensures ht in HouseTypes
  {
    DetectHouseType(MainPurpose(t), EtcPurpose(t))
  }

  /** The unit total: household count, else family count, else the summed
      unit rows (when they were fetched), else the unit-number count. */
  function TotalUnits(t: TitleRec, units: Option<seq<UnitRow>>): (n: Option<int>)
    ensures t.hhldCnt.Some? ==> n == t.hhldCnt
    ensures t.hhldCnt.None? && t.fmlyCnt.Some? ==> n == t.fmlyCnt
    ensures t.hhldCnt.None? && t.fmlyCnt.None? && units.Some? ==> n == Some(|units.value|)
    ensures t.hhldCnt.None? && t.fmlyCnt.None? && units.None? ==> n == t.hoCnt
  {
    var fromExpos: Option<int> := if units.Some? then Some(ExposTotal(units.value)) else None;
    t.hhldCnt.OrElse(t.fmlyCnt).OrElse(fromExpos).OrElse(t.hoCnt)
  }

  /** The values `run` derives from the first title record and the unit
      rows before any gate: the only inputs the decision reads. */
  datatype Facts = Facts(
    mainPurpose: string,
    etcPurpose: string,
    violation: bool,
    structureRaw: string,
    grndFloors: Option<int>,
    ugrndFloors: Option<int>,
    area: Option<real>,
    hhld: Option<int>,
    fmly: Option<int>,
    ho: Option<int>,
    totalUnits: Option<int>)

  function FactsOf(t: TitleRec, units: Option<seq<UnitRow>>): (f: Facts)
    ensures f.grndFloors == t.grndFlrCnt && f.ugrndFloors == t.ugrndFlrCnt
    ensures f.hhld == t.hhldCnt && f.fmly == t.fmlyCnt && f.ho == t.hoCnt
    ensures f.mainPurpose != []
  {
    Facts(MainPurpose(t), EtcPurpose(t), IsViolation(t), StructureRaw(t),
          t.grndFlrCnt, t.ugrndFlrCnt, Area(t), t.hhldCnt, t.fmlyCnt, t.hoCnt, TotalUnits(t, units))
  }

  /** Once unit rows were fetched, the unit-number count is never used. */
  lemma TotalUnitsIgnoresHoCntWithUnits(t: TitleRec, units: seq<UnitRow>, ho: Option<int>)
    ensures TotalUnits(t, Some(units)) == TotalUnits(t.(hoCnt := ho), Some(units))
    ensures TotalUnits(t, Some(units)).Some?
  {
  }

  /** Household count first: counts 5, 3, 10 unit rows and 7 give 5. */
  lemma TotalUnitsPrefersHouseholds(t: TitleRec, units: seq<UnitRow>)
    requires t.hhldCnt == Some(5) && t.fmlyCnt == Some(3) && t.hoCnt == Some(7) && |units| == 10
    ensures TotalUnits(t, Some(units)) == Some(5)
    ensures TotalUnits(t.(hhldCnt := None), Some(units)) == Some(3)
    ensures TotalUnits(t.(hhldCnt := None, fmlyCnt := None), Some(units)) == Some(10)
    ensures TotalUnits(t.(hhldCnt := None, fmlyCnt := None), None) == Some(7)
  {
  }

  // ---------------------------------------------------------------------
  // Gates
  // ---------------------------------------------------------------------

  /** Which gate stopped the building, if any. */
  datatype Stage =
    | Illegal
    | NotAllowedType
    | DisallowedKeyword
    | AreaTooLarge
    | TableViolation
    | NotReinforcedConcrete
    | Passed

  /** Some keyword, with its spaces removed, occurs in the purpose text. */
  predicate HasDisallowedKeyword(hay: string) {
    exists i :: 0 <= i < |DisallowedKeywords| && Contains(hay, RemoveSpaces(DisallowedKeywords[i]))
  }

  function HouseTypeOf(f: Facts): (ht: string)
    ensures ht in HouseTypes
  {
    DetectHouseType(f.mainPurpose, f.etcPurpose)
  }

  /** The gate chain in source order; the first gate that fails decides. */
  function Gate(f: Facts, requireRc: bool): Stage {
    var ht := HouseTypeOf(f);
    if f.violation then Illegal
    else if ht !in AllowedHouseTypes then NotAllowedType
    else if HasDisallowedKeyword(PurposeText(f.mainPurpose, f.etcPurpose)) then DisallowedKeyword
    else if f.area.Some? && !(f.area.value < AreaLimit) then AreaTooLarge
    else if HasHardFailure(CheckHouseTypeConstraints(ht, f.grndFloors, f.area, f.totalUnits)) then TableViolation
    else if requireRc && ClassifyStructure(f.structureRaw) != ReinforcedConcrete then NotReinforcedConcrete
    else Passed
  }

  /** Eligibility stated directly: not flagged illegal, one of the five
      specific housing types, no disallowed keyword in the purposes, no
      known area of 230 m² or more (an unknown area passes), the
      housing-type table satisfied by the known values, and reinforced
      concrete when that is required. */
  predicate Eligible(f: Facts, requireRc: bool) {
    var ht := HouseTypeOf(f);
    && !f.violation
    && ht in SpecificTypes
    && (forall i :: 0 <= i < |DisallowedKeywords| ==>
          !Contains(PurposeText(f.mainPurpose, f.etcPurpose), DisallowedKeywords[i]))
    && (f.area.None? || f.area.value < AreaLimit)
    && TableSatisfied(ht, f.grndFloors, f.area, f.totalUnits)
    && (requireRc ==> ClassifyStructure(f.structureRaw) == ReinforcedConcrete)
  }

  /** Removing spaces from a keyword changes nothing. */
  lemma KeywordsHaveNoSpaces()
    ensures forall i :: 0 <= i < |DisallowedKeywords| ==> RemoveSpaces(DisallowedKeywords[i]) == DisallowedKeywords[i]
  {
    forall i | 0 <= i < |DisallowedKeywords|
      ensures RemoveSpaces(DisallowedKeywords[i]) == DisallowedKeywords[i]
    {
      KeywordHasNoSpace(i);
    }
  }

  lemma KeywordHasNoSpace(i: nat)
    requires i < |DisallowedKeywords|
    ensures ' ' !in DisallowedKeywords[i]
    ensures RemoveSpaces(DisallowedKeywords[i]) == DisallowedKeywords[i]
  {
    RemoveSpacesNoSpace(DisallowedKeywords[i]);
  }

  /** The gate chain lets a building through exactly when it is eligible. */
  lemma GatePassedIffEligible(f: Facts, requireRc: bool)
    ensures Gate(f, requireRc) == Passed <==> Eligible(f, requireRc)
  {
    KeywordsHaveNoSpaces();
    HardFailureIffTableViolated(HouseTypeOf(f), f.grndFloors, f.area, f.totalUnits);
    assert AllowedHouseTypes == SpecificTypes;
  }

  // ---------------------------------------------------------------------
  // Grading
  // ---------------------------------------------------------------------

  /** The three raw counts in the order the grading consults them. */
  function RawCounts(f: Facts): seq<Option<int>> {
    [f.hhld, f.fmly, f.ho]
  }

  /** `c1 == k or c2 == k or c3 == k`: a missing count is simply unequal. */
  predicate SomeEquals(counts: seq<Option<int>>, k: int) {
    exists i :: 0 <= i < |counts| && counts[i] == Some(k)
  }

  /** `c1 >= k or c2 >= k or c3 >= k` as Python evaluates it: left to
      right, stopping at the first true comparison, and raising at the
      first missing count it reaches. When it answers, the answer is
      whether some count reaches `k`; it raises only over a missing count,
      and never when the counts are all present. */
  function AtLeastChain(counts: seq<Option<int>>, k: int): (r: Result<bool, Error>)
    ensures r.Success? ==> r.value == SomeAtLeast(counts, k)
    ensures r.Failure? ==> r.error == TypeError(NoneCompareMessage)
    ensures r.Failure? ==> exists i :: 0 <= i < |counts| && counts[i].None?
    ensures (forall i :: 0 <= i < |counts| ==> counts[i].Some?) ==> r.Success?
  {
    if |counts| == 0 then Success(false)
    else if counts[0].None? then Failure(TypeError(NoneCompareMessage))
    else if counts[0].value >= k then Success(true)
    else
      var rest := AtLeastChain(counts[1..], k);
      assert forall i :: 1 <= i < |counts| ==> counts[i] == counts[1..][i - 1];
      assert SomeAtLeast(counts, k) ==> SomeAtLeast(counts[1..], k) by {
        if SomeAtLeast(counts, k) {
          var i :| 0 <= i < |counts| && counts[i].GetOr(0) >= k;
          assert i > 0 && counts[1..][i - 1] == counts[i];
        }
      }
      rest
  }

  /** The count at `i` is missing and every count before it falls short
      of `k`: the chain reaches `i` and raises there. */
  predicate RaisesAt(counts: seq<Option<int>>, k: int, i: int) {
    0 <= i < |counts| && counts[i].None? && forall j :: 0 <= j < i ==> counts[j].GetOr(0) < k
  }

  /** The chain raises exactly when a missing count comes before every
      count that reaches `k`. */
  lemma {:induction false} ChainRaisesIff(counts: seq<Option<int>>, k: int)
    ensures AtLeastChain(counts, k).Failure? <==> exists i :: RaisesAt(counts, k, i)
  {
    if |counts| > 0 && counts[0].Some? && counts[0].value < k {
      var tail := counts[1..];
      ChainRaisesIff(tail, k);
      if exists i :: RaisesAt(tail, k, i) {
        var i :| RaisesAt(tail, k, i);
        forall j | 0 <= j < i + 1
          ensures counts[j].GetOr(0) < k
        {
          if j > 0 {
            assert counts[j] == tail[j - 1];
          }
        }
        assert RaisesAt(counts, k, i + 1);
      }
      if exists i :: RaisesAt(counts, k, i) {
        var i :| RaisesAt(counts, k, i);
        assert i > 0;
        forall j | 0 <= j < i - 1
          ensures tail[j].GetOr(0) < k
        {
          assert tail[j] == counts[j + 1];
        }
        assert RaisesAt(tail, k, i - 1);
      }
    } else if |counts| > 0 && counts[0].None? {
      assert RaisesAt(counts, k, 0);
    }
  }

  /** The grading as written (lines 523–541): missing floor counts become
      0, but the three counts are compared raw. */
  function GradeAsWritten(f: Facts): (r: Result<int, Error>)
    ensures r.Success? ==> 1 <= r.value <= 4
    ensures r.Failure? ==> r.error == TypeError(NoneCompareMessage)
  {
    var gf := f.grndFloors.GetOr(0);
    var uf := f.ugrndFloors.GetOr(0);
    if gf >= 2 && SomeEquals(RawCounts(f), 1) then Success(1)
    else if gf == 1 && uf <= 1 then
      match AtLeastChain(RawCounts(f), 1)
      case Failure(e) => Failure(e)
      case Success(b) => Success(if b then 2 else 4)
    else if 2 <= gf <= 4 && uf <= 1 then
      match AtLeastChain(RawCounts(f), 2)
      case Failure(e) => Failure(e)
      case Success(b) => Success(if b then 3 else 4)
    else Success(4)
  }

  /** Some present count reaches `k`; a missing count counts as 0. */
  predicate SomeAtLeast(counts: seq<Option<int>>, k: int) {
    exists i :: 0 <= i < |counts| && counts[i].GetOr(0) >= k
  }

  /** The grading as the comment at line 522 intends it: every missing
      value, counts included, reads as 0, so grading never raises. */
  function GradeIntended(f: Facts): (c: int)
    ensures 1 <= c <= 4
    ensures c == 1 ==> f.grndFloors.Some? && f.grndFloors.value >= 2 && SomeEquals(RawCounts(f), 1)
    ensures c == 2 ==> f.grndFloors == Some(1) && f.ugrndFloors.GetOr(0) <= 1 && SomeAtLeast(RawCounts(f), 1)
    ensures c == 3 ==> f.grndFloors.Some? && 2 <= f.grndFloors.value <= 4 && f.ugrndFloors.GetOr(0) <= 1
                       && exists i :: 0 <= i < 3 && RawCounts(f)[i].Some? && RawCounts(f)[i].value >= 2
    ensures var gf := f.grndFloors.GetOr(0); var uf := f.ugrndFloors.GetOr(0);
            && (c == 1 <==> gf >= 2 && SomeEquals(RawCounts(f), 1))
            && (c == 2 <==> gf == 1 && uf <= 1 && SomeAtLeast(RawCounts(f), 1))
            && (c == 3 <==> 2 <= gf <= 4 && uf <= 1 && !SomeEquals(RawCounts(f), 1) && SomeAtLeast(RawCounts(f), 2))
  {
    var gf := f.grndFloors.GetOr(0);
    var uf := f.ugrndFloors.GetOr(0);
    if gf >= 2 && SomeEquals(RawCounts(f), 1) then 1
    else if gf == 1 && uf <= 1 && SomeAtLeast(RawCounts(f), 1) then 2
    else if 2 <= gf <= 4 && uf <= 1 && SomeAtLeast(RawCounts(f), 2) then 3
    else 4
  }

  /** Whenever the as-written grading answers, it answers what the intended
      grading does; it raises only when some count is missing. */
  lemma GradeAsWrittenAgrees(f: Facts)
    ensures GradeAsWritten(f).Success? ==> GradeAsWritten(f).value == GradeIntended(f)
    ensures GradeAsWritten(f).Failure? ==> f.hhld.None? || f.fmly.None? || f.ho.None?
  {
    assert RawCounts(f)[0] == f.hhld && RawCounts(f)[1] == f.fmly && RawCounts(f)[2] == f.ho;
  }

  /** The as-written grading raises exactly when case 2 or case 3 is
      reached and its `or` chain meets a missing count before any count
      that reaches the case's bound. */
  lemma GradeAsWrittenRaisesIff(f: Facts)
    ensures var gf := f.grndFloors.GetOr(0); var uf := f.ugrndFloors.GetOr(0);
            GradeAsWritten(f).Failure? <==>
              || (gf == 1 && uf <= 1 && exists i :: RaisesAt(RawCounts(f), 1, i))
              || (2 <= gf <= 4 && uf <= 1 && !SomeEquals(RawCounts(f), 1) && exists i :: RaisesAt(RawCounts(f), 2, i))
  {
    ChainRaisesIff(RawCounts(f), 1);
    ChainRaisesIff(RawCounts(f), 2);
  }

  /** With every count present, the as-written grading never raises and
      equals the intended grading. */
  lemma GradeAsWrittenWhenCountsPresent(f: Facts)
    requires f.hhld.Some? && f.fmly.Some? && f.ho.Some?
    ensures GradeAsWritten(f) == Success(GradeIntended(f))
  {
    assert forall i :: 0 <= i < |RawCounts(f)| ==> RawCounts(f)[i].Some?;
  }

  /** An unknown ground-floor count grades 4, and never raises. */
  lemma MissingFloorsGradeFour(f: Facts)
    requires f.grndFloors.None?
    ensures GradeAsWritten(f) == Success(4) && GradeIntended(f) == 4
  {
  }

  // ---------------------------------------------------------------------
  // run
  // ---------------------------------------------------------------------

  /** The unit rows `run` sees: None when they were not requested. */
  function FetchedRows(units: Option<Result<seq<UnitRow>, Error>>): (rows: Option<seq<UnitRow>>)
    requires units.Some? ==> units.value.Success?
    ensures rows.Some? <==> units.Some?
  {
    if units.Some? then Some(units.value.value) else None
  }

  /** The decision once the record is read: 0 when a gate refuses,
      otherwise the grade as `run` computes it. */
  function Decide(f: Facts, requireRc: bool): Result<int, Error> {
    if Gate(f, requireRc) != Passed then Success(0) else GradeAsWritten(f)
  }

  /** The decision with the grading corrected. */
  function DecideIntended(f: Facts, requireRc: bool): int {
    if Gate(f, requireRc) != Passed then 0 else GradeIntended(f)
  }

  /** The two decisions agree whenever the written one does not raise. */
  lemma DecideAgrees(f: Facts, requireRc: bool)
    ensures Decide(f, requireRc).Success? ==> Decide(f, requireRc) == Success(DecideIntended(f, requireRc))
  {
    GradeAsWrittenAgrees(f);
  }

  /** `run` once the fetches are inputs: `titles` is the outcome of the
      title fetch; `units` is None when unit rows are not requested and
      otherwise the outcome of the unit fetch. Codes are 0 (ineligible)
      and 1–4 (eligible, graded); a raised exception is a Failure. */
  function Run(titles: Result<seq<TitleRec>, Error>, units: Option<Result<seq<UnitRow>, Error>>, requireRc: bool): (r: Result<int, Error>)
    ensures r.Success? ==> 0 <= r.value <= 4
    ensures titles.Success? && |titles.value| == 0 ==> r == Success(0)
    ensures titles.Failure? ==> r == Failure(titles.error)
    ensures titles.Success? && |titles.value| > 0 && units.Some? && units.value.Failure? ==> r == Failure(units.value.error)
  {
    if titles.Failure? then Failure(titles.error)
    else if |titles.value| == 0 then Success(0)
    else if units.Some? && units.value.Failure? then Failure(units.value.error)
    else Decide(FactsOf(titles.value[0], FetchedRows(units)), requireRc)
  }

  /** `run` with the grading corrected; everything else is unchanged. */
  function RunCorrected(titles: Result<seq<TitleRec>, Error>, units: Option<Result<seq<UnitRow>, Error>>, requireRc: bool): (r: Result<int, Error>)
    ensures r.Success? ==> 0 <= r.value <= 4
    ensures r.Failure? ==> titles.Failure? || (units.Some? && units.value.Failure?)
  {
    if titles.Failure? then Failure(titles.error)
    else if |titles.value| == 0 then Success(0)
    else if units.Some? && units.value.Failure? then Failure(units.value.error)
    else Success(DecideIntended(FactsOf(titles.value[0], FetchedRows(units)), requireRc))
  }

  /** The corrected run answers 0 exactly for an ineligible building and
      gives every eligible one its intended grade. */
  lemma RunCorrectedCharacterized(t: TitleRec, rest: seq<TitleRec>, units: Option<Result<seq<UnitRow>, Error>>, requireRc: bool)
    requires units.Some? ==> units.value.Success?
    ensures var f := FactsOf(t, FetchedRows(units));
            && (!Eligible(f, requireRc) <==> RunCorrected(Success([t] + rest), units, requireRc) == Success(0))
            && (Eligible(f, requireRc) ==> RunCorrected(Success([t] + rest), units, requireRc) == Success(GradeIntended(f)))
  {
    var f := FactsOf(t, FetchedRows(units));
    GatePassedIffEligible(f, requireRc);
    RunCorrectedIsDecide([t] + rest, units, requireRc);
    assert ([t] + rest)[0] == t;
    DecideIntendedZeroIffRefused(f, requireRc);
  }

  /** With titles found and units, if requested, fetched, the corrected
      run is the corrected decision on the first title's facts. */
  lemma RunCorrectedIsDecide(ts: seq<TitleRec>, units: Option<Result<seq<UnitRow>, Error>>, requireRc: bool)
    requires |ts| > 0
    requires units.Some? ==> units.value.Success?
    ensures RunCorrected(Success(ts), units, requireRc) == Success(DecideIntended(FactsOf(ts[0], FetchedRows(units)), requireRc))
  {
  }

  /** The corrected decision is 0 exactly when a gate refuses, and is the
      intended grade otherwise. */
  lemma DecideIntendedZeroIffRefused(f: Facts, requireRc: bool)
    ensures DecideIntended(f, requireRc) == 0 <==> Gate(f, requireRc) != Passed
    ensures Gate(f, requireRc) == Passed ==> DecideIntended(f, requireRc) == GradeIntended(f)
  {
  }

  /** With titles found and units, if requested, fetched, `run` is the
      decision on the first title's facts. */
  lemma RunIsDecide(ts: seq<TitleRec>, units: Option<Result<seq<UnitRow>, Error>>, requireRc: bool)
    requires |ts| > 0
    requires units.Some? ==> units.value.Success?
    ensures Run(Success(ts), units, requireRc) == Decide(FactsOf(ts[0], FetchedRows(units)), requireRc)
  {
  }

  /** `run` answers 0 exactly for an ineligible building and grades every
      eligible one 1–4 unless the grading raises. */
  lemma RunCharacterized(t: TitleRec, rest: seq<TitleRec>, units: Option<Result<seq<UnitRow>, Error>>, requireRc: bool)
    requires units.Some? ==> units.value.Success?
    ensures var f := FactsOf(t, FetchedRows(units));
            && (!Eligible(f, requireRc) <==> Run(Success([t] + rest), units, requireRc) == Success(0))
            && (Eligible(f, requireRc) ==> Run(Success([t] + rest), units, requireRc) == GradeAsWritten(f))
  {
    var f := FactsOf(t, FetchedRows(units));
    GatePassedIffEligible(f, requireRc);
    RunIsDecide([t] + rest, units, requireRc);
    assert ([t] + rest)[0] == t;
    DecideZeroIffRefused(f, requireRc);
  }

  /** The decision is 0 exactly when a gate refuses, and is the grading
      otherwise. */
  lemma DecideZeroIffRefused(f: Facts, requireRc: bool)
    ensures Decide(f, requireRc) == Success(0) <==> Gate(f, requireRc) != Passed
    ensures Gate(f, requireRc) == Passed ==> Decide(f, requireRc) == GradeAsWritten(f)
  {
  }

  /** Only the first title record is read. */
  lemma RunReadsFirstTitleOnly(t: TitleRec, rest: seq<TitleRec>, units: Option<Result<seq<UnitRow>, Error>>, requireRc: bool)
    ensures Run(Success([t] + rest), units, requireRc) == Run(Success([t]), units, requireRc)
  {
  }

  /** A failed unit fetch fails the run even for an illegal building: the
      fetch comes before the illegality gate. */
  lemma UnitFetchFailurePrecedesGates(t: TitleRec, rest: seq<TitleRec>, e: Error, requireRc: bool)
    requires IsViolation(t)
    ensures Run(Success([t] + rest), Some(Failure(e)), requireRc) == Failure(e)
  {
  }

  /** An illegal building answers 0 whatever else the record holds. */
  lemma IllegalIsZero(t: TitleRec, rest: seq<TitleRec>, units: Option<Result<seq<UnitRow>, Error>>, requireRc: bool)
    requires IsViolation(t) && (units.Some? ==> units.value.Success?)
    ensures Run(Success([t] + rest), units, requireRc) == Success(0)
  {
  }

  /** A row house with a known area always answers 0: the area gate admits
      only areas under 230, and the table wants more than 660. */
  lemma KnownAreaRowHouseIsZero(t: TitleRec, rest: seq<TitleRec>, units: Option<Result<seq<UnitRow>, Error>>, requireRc: bool)
    requires HouseType(t) == RowHouse && Area(t).Some?
    requires units.Some? ==> units.value.Success?
    ensures Run(Success([t] + rest), units, requireRc) == Success(0)
  {
    var f := FactsOf(t, FetchedRows(units));
    RunCharacterized(t, rest, units, requireRc);
    assert HouseTypeOf(f) == RowHouse && f.area == Area(t);
    if f.area.value < AreaLimit {
      SmallRowHouseViolatesTable(f.grndFloors, f.area.value, f.totalUnits);
    }
    assert !Eligible(f, requireRc);
  }

  /** Address, building name and approval date (hence the building's age)
      never change what the decision reads. */
  lemma FactsIgnoreDisplayFields(t: TitleRec, rows: Option<seq<UnitRow>>,
                                 plat: Option<string>, newPlat: Option<string>, name: Option<string>, approval: Option<string>)
    ensures FactsOf(t, rows) == FactsOf(t.(platPlc := plat, newPlatPlc := newPlat, bldNm := name, useAprDay := approval), rows)
  {
  }

  /** `run` reads the first title only through its facts. */
  lemma RunSeesOnlyFacts(t: TitleRec, t': TitleRec, units: Option<Result<seq<UnitRow>, Error>>, requireRc: bool)
    requires units.Some? ==> units.value.Success?
    requires FactsOf(t, FetchedRows(units)) == FactsOf(t', FetchedRows(units))
    ensures Run(Success([t]), units, requireRc) == Run(Success([t']), units, requireRc)
  {
    RunIsDecide([t], units, requireRc);
    RunIsDecide([t'], units, requireRc);
  }

  /** Hence they never change the answer. */
  lemma RunIgnoresDisplayFields(t: TitleRec, units: Option<Result<seq<UnitRow>, Error>>, requireRc: bool,
                                plat: Option<string>, newPlat: Option<string>, name: Option<string>, approval: Option<string>)
    ensures Run(Success([t]), units, requireRc)
            == Run(Success([t.(platPlc := plat, newPlatPlc := newPlat, bldNm := name, useAprDay := approval)]), units, requireRc)
  {
    var t' := t.(platPlc := plat, newPlatPlc := newPlat, bldNm := name, useAprDay := approval);
    if units.None? || units.value.Success? {
      FactsIgnoreDisplayFields(t, FetchedRows(units), plat, newPlat, name, approval);
      RunSeesOnlyFacts(t, t', units, requireRc);
    }
  }

  // ---------------------------------------------------------------------
  // Grading examples and the comparison finding
  // ---------------------------------------------------------------------

  /** Facts with the given floors and counts and nothing else. */
  function Sample(floors: Option<int>, under: Option<int>, hhld: Option<int>, fmly: Option<int>, ho: Option<int>): Facts {
    Facts(NoMainPurpose, "", false, "", floors, under, None, hhld, fmly, ho, None)
  }

  /** Three floors, no basement, two households: grade 3. */
  lemma ThreeFloorsTwoHouseholdsGradeThree()
    ensures GradeAsWritten(Sample(Some(3), Some(0), Some(2), Some(0), Some(0))) == Success(3)
  {
  }

  /** A single-storey house with one household over one basement: grade 2. */
  lemma SingleStoreyGradeTwo()
    ensures GradeAsWritten(Sample(Some(1), Some(1), Some(1), None, None)) == Success(2)
  {
  }

  /** Five floors with a single household: grade 1 (case 1 has no upper
      floor bound). */
  lemma TallSingleHouseholdGradeOne()
    ensures GradeAsWritten(Sample(Some(5), None, Some(1), None, None)) == Success(1)
  {
    assert RawCounts(Sample(Some(5), None, Some(1), None, None))[0] == Some(1);
  }

  /** The as-written comparison raises: a one-storey building with no
      household count but one family reaches `None >= 1`. */
  lemma MissingHouseholdCountRaises()
    ensures GradeAsWritten(Sample(Some(1), Some(0), None, Some(1), None)) == Failure(TypeError(NoneCompareMessage))
    ensures GradeIntended(Sample(Some(1), Some(0), None, Some(1), None)) == 2
  {
    var counts := RawCounts(Sample(Some(1), Some(0), None, Some(1), None));
    assert counts[1].GetOr(0) >= 1;
  }

  /** The corrected run never raises past the fetches, and agrees with
      `run` wherever `run` answers. */
  lemma RunCorrectedAgrees(titles: Result<seq<TitleRec>, Error>, units: Option<Result<seq<UnitRow>, Error>>, requireRc: bool)
    ensures Run(titles, units, requireRc).Success? ==> RunCorrected(titles, units, requireRc) == Run(titles, units, requireRc)
  {
    if titles.Success? && |titles.value| > 0 && (units.None? || units.value.Success?) {
      DecideAgrees(FactsOf(titles.value[0], FetchedRows(units)), requireRc);
    }
  }

  /** The record of the finding: a detached house of 100 m² with one
      storey, no basement, no household count and one family. */
  function OneFamilyHouse(): TitleRec {
    TitleRec(None, None, None, Some(Detached), None, None, None, None, None,
             Some(1), Some(0), Some(100.0), None, None, Some(1), None)
  }

  /** The facts `run` derives from that record, with an empty unit list. */
  function OneFamilyHouseFacts(): Facts {
    Facts(Detached, "", false, "", Some(1), Some(0), Some(100.0), None, Some(1), None, Some(1))
  }

  /** A main purpose that is already stripped and not blank is kept. */
  lemma MainPurposeStripped(t: TitleRec, x: string)
    requires t.mainPurpsCdNm == Some(x) && x != [] && Strip(x) == x
    ensures MainPurpose(t) == x
  {
    assert OrText(t.mainPurpsCdNm, "") == x;
  }

  /** A record without secondary purpose, violation flag or structure
      text has an empty secondary purpose, no violation and an empty
      structure text. */
  lemma AbsentTextFields(t: TitleRec)
    requires t.etcPurps.None? && t.violBldYn.None?
    requires t.strctCdNm.None? && t.etcStrct.None?
    ensures EtcPurpose(t) == "" && !IsViolation(t) && StructureRaw(t) == ""
  {
    StripNoEdgeSpace("");
    assert !IsSpace("0"[0]);
    StripNoEdgeSpace("0");
    assert OrText(t.violBldYn, "0") == "0";
    assert OrText(t.etcPurps, "") == "";
    assert OrText(t.etcStrct, "") == "";
  }

  /** The facts of a record that names only its main purpose, floor
      counts, area and family count, with an empty unit list. */
  lemma FactsOfFamilyRecord(t: TitleRec, x: string, n: int)
    requires t.mainPurpsCdNm == Some(x) && x != [] && !IsSpace(x[0]) && !IsSpace(x[|x| - 1])
    requires t.etcPurps.None? && t.violBldYn.None?
    requires t.strctCdNm.None? && t.etcStrct.None?
    requires t.hhldCnt.None? && t.fmlyCnt == Some(n)
    ensures FactsOf(t, Some([])) == Facts(x, "", false, "", t.grndFlrCnt, t.ugrndFlrCnt, Area(t),
                                          None, Some(n), t.hoCnt, Some(n))
  {
    StripNoEdgeSpace(x);
    MainPurposeStripped(t, x);
    AbsentTextFields(t);
  }

  lemma OneFamilyHouseFactsOf()
    ensures FactsOf(OneFamilyHouse(), Some([])) == OneFamilyHouseFacts()
  {
    var t := OneFamilyHouse();
    assert !IsSpace(Detached[0]) && !IsSpace(Detached[|Detached| - 1]);
    FactsOfFamilyRecord(t, Detached, 1);
    assert Area(t) == Some(100.0);
  }

  /** The searched text of a bare 단독주택 main purpose is itself. */
  lemma DetachedPurposeText()
    ensures PurposeText(Detached, "") == Detached
  {
    PurposeTextSplits(Detached, "");
    RemoveSpacesNoSpace(Detached);
  }

  /** 단독주택 holds none of the earlier type tokens and does hold 단독. */
  lemma DetachedTokens()
    ensures !Contains(Detached, "다가구") && !Contains(Detached, "다세대")
    ensures !Contains(Detached, "연립") && !Contains(Detached, "아파트")
    ensures Contains(Detached, "단독")
  {
    NotContainsByChar(Detached, "다가구", 0);
    NotContainsByChar(Detached, "다세대", 0);
    NotContainsByChar(Detached, "연립", 0);
    NotContainsByChar(Detached, "아파트", 0);
    ContainsAt(Detached, "단독", 0);
  }

  lemma DetachedIsDetached()
    ensures DetectHouseType(Detached, "") == Detached
  {
    DetachedPurposeText();
    DetachedTokens();
  }

  /** 단독주택 holds none of the disallowed keywords. */
  lemma DetachedKeywordFree()
    ensures forall i :: 0 <= i < |DisallowedKeywords| ==> !Contains(Detached, DisallowedKeywords[i])
  {
    NotContainsByChar(Detached, "오피스텔", 0);
    NotContainsByChar(Detached, "원룸", 0);
    NotContainsByChar(Detached, "다중주택", 0);
    NotContainsByChar(Detached, "위법", 0);
    NotContainsByChar(Detached, "위반", 0);
  }

  lemma DetachedHasNoDisallowedKeyword()
    ensures !HasDisallowedKeyword(PurposeText(Detached, ""))
  {
    DetachedPurposeText();
    KeywordsHaveNoSpaces();
    DetachedKeywordFree();
  }

  /** The record passes every gate. */
  lemma OneFamilyHouseEligible()
    ensures Gate(OneFamilyHouseFacts(), false) == Passed
  {
    var f := OneFamilyHouseFacts();
    DetachedIsDetached();
    DetachedHasNoDisallowedKeyword();
    HouseTypeLabelsDistinct();
    HardFailureIffTableViolated(Detached, f.grndFloors, f.area, f.totalUnits);
  }

  /** The finding on an eligible record, through `run`: the batch's call
      (unit rows fetched, none listed) raises the None comparison at line
      533, where the corrected run grades the house 2. */
  lemma OneFamilyHouseRaises()
    ensures Run(Success([OneFamilyHouse()]), Some(Success([])), false) == Failure(TypeError(NoneCompareMessage))
    ensures RunCorrected(Success([OneFamilyHouse()]), Some(Success([])), false) == Success(2)
  {
    var f := OneFamilyHouseFacts();
    OneFamilyHouseFactsOf();
    OneFamilyHouseEligible();
    OneFamilyHouseGrades();
    RunIsDecide([OneFamilyHouse()], Some(Success([])), false);
    assert FetchedRows(Some(Success([]))) == Some([]);
    assert Decide(f, false) == GradeAsWritten(f);
    assert DecideIntended(f, false) == GradeIntended(f);
  }

  /** The two gradings of the record's facts. */
  lemma OneFamilyHouseGrades()
    ensures GradeAsWritten(OneFamilyHouseFacts()) == Failure(TypeError(NoneCompareMessage))
    ensures GradeIntended(OneFamilyHouseFacts()) == 2
  {
    var f := OneFamilyHouseFacts();
    assert RawCounts(f) == [None, Some(1), None];
    assert RawCounts(f)[1].GetOr(0) >= 1;
  }
}
