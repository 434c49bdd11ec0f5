/** `check_house_type_constraints`: the per-housing-type table of floor,
    area and unit-count limits, and the soft/hard failure rule the engine
    applies to its results. */
module Constraints {
  import opened Wrappers
  import opened Text
  import opened Classify

  /** One checked requirement: whether it holds, which rule, and the value
      it was judged on. */
  datatype RuleResult = RuleResult(ok: bool, rule: string, detail: string)

  /** The detail of a requirement that could not be judged. */
  const MissingDetail: string := "값이 없어 요건 판단이 어렵습니다(API 응답 누락)."

  /** The marker the engine looks for to recognise a soft failure. */
  const MissingMarker: string := "값이 없어"

  /** The note `need` appends when a value is absent. */
  function MissingNote(name: string): RuleResult {
    RuleResult(false, name + " 확인", MissingDetail)
  }

  /** The missing-value notes, in the order the source appends them: ground
      floors, area, and the unit count only for a 다가구 type. */
  function MissingNotes(houseType: string, floors: Option<int>, area: Option<real>, units: Option<int>): seq<RuleResult> {
    (if floors.None? then [MissingNote("지상층수")] else [])
    + (if area.None? then [MissingNote("면적(㎡)")] else [])
    + (if Contains(houseType, "다가구") && units.None? then [MissingNote("총 세대수")] else [])
  }

  function FloorsDetail(n: int): string {
    "지상층수=" + IntToString(n)
  }

  function AreaDetail(a: real): string {
    "면적=" + Fixed2(a) + "㎡"
  }

  function UnitsDetail(n: int): string {
    "총 세대수=" + IntToString(n)
  }

  const NoLimitDetail: string := "표 상 별도 제한 없음(기본 대상주택)"

  /** A floor-count rule, present only when the count is known; `ok` is
      its verdict on the known count. */
  function FloorsRule(floors: Option<int>, rule: string, ok: bool): seq<RuleResult> {
    if floors.Some? then [RuleResult(ok, rule, FloorsDetail(floors.value))] else []
  }

  /** An area rule, present only when the area is known. */
  function AreaRule(area: Option<real>, rule: string, ok: bool): seq<RuleResult> {
    if area.Some? then [RuleResult(ok, rule, AreaDetail(area.value))] else []
  }

  /** A unit-count rule, present only when the count is known. */
  function UnitsRule(units: Option<int>, rule: string, ok: bool): seq<RuleResult> {
    if units.Some? then [RuleResult(ok, rule, UnitsDetail(units.value))] else []
  }

  /** The rules for one exact housing-type label over the known values. */
  function ThresholdResults(houseType: string, floors: Option<int>, area: Option<real>, units: Option<int>): seq<RuleResult> {
    if houseType == MultiHousehold then
      FloorsRule(floors, "다가구: 지상층수 ≤ 3", floors.GetOr(0) <= 3)
      + AreaRule(area, "다가구: 면적 ≤ 660㎡", area.GetOr(0.0) <= 660.0)
      + UnitsRule(units, "다가구: 19세대 이하", units.GetOr(0) <= 19)
    else if houseType == MultiUnit then
      FloorsRule(floors, "다세대: 지상층수 ≤ 4", floors.GetOr(0) <= 4)
      + AreaRule(area, "다세대: 면적 ≤ 660㎡", area.GetOr(0.0) <= 660.0)
    else if houseType == RowHouse then
      FloorsRule(floors, "연립: 지상층수 ≤ 4", floors.GetOr(0) <= 4)
      + AreaRule(area, "연립: 면적 > 660㎡", area.GetOr(0.0) > 660.0)
    else if houseType == Apartment then
      FloorsRule(floors, "아파트: 지상층수 ≥ 5", floors.GetOr(0) >= 5)
    else if houseType == Detached then
      [RuleResult(true, "단독: 추가요건(표) 없음", NoLimitDetail)]
    else []
  }

  /** `check_house_type_constraints`: the missing-value notes followed by the
      table rules of the housing type. */
  function CheckHouseTypeConstraints(houseType: string, floors: Option<int>, area: Option<real>, units: Option<int>): (rs: seq<RuleResult>)
    ensures floors.None? ==> exists i :: 0 <= i < |rs| && IsSoftFailure(rs[i]) && rs[i].rule == "지상층수 확인"
    ensures area.None? ==> exists i :: 0 <= i < |rs| && IsSoftFailure(rs[i]) && rs[i].rule == "면적(㎡) 확인"
    ensures forall i :: 0 <= i < |rs| ==> (IsSoftFailure(rs[i]) <==> i < |MissingNotes(houseType, floors, area, units)|)
    ensures houseType !in SpecificTypes ==> forall i :: 0 <= i < |rs| ==> IsSoftFailure(rs[i])
  {
    var notes := MissingNotes(houseType, floors, area, units);
    var rules := ThresholdResults(houseType, floors, area, units);
    NotesAreSoft(houseType, floors, area, units);
    RulesAreUnmarked(houseType, floors, area, units);
    assert floors.None? ==> (notes + rules)[0] == MissingNote("지상층수");
    assert "지상층수" + " 확인" == "지상층수 확인";
    assert "면적(㎡)" + " 확인" == "면적(㎡) 확인";
    assert area.None? ==> (notes + rules)[if floors.None? then 1 else 0] == MissingNote("면적(㎡)");
    notes + rules
  }

  /** A failure the engine tolerates: not ok, with the missing-value marker. */
  predicate IsSoftFailure(r: RuleResult) {
    !r.ok && Contains(r.detail, MissingMarker)
  }

  /** The engine's hard-failure test (line 479): not ok, and no marker. */
  predicate IsHardFailure(r: RuleResult) {
    !r.ok && !Contains(r.detail, MissingMarker)
  }

  predicate HasHardFailure(rs: seq<RuleResult>) {
    exists i :: 0 <= i < |rs| && IsHardFailure(rs[i])
  }

  // ---------------------------------------------------------------------
  // Reference table
  // ---------------------------------------------------------------------

  /** An unknown value is never held against the building. */
  predicate AtMost(v: Option<int>, limit: int) {
    v.None? || v.value <= limit
  }

  /** The housing-type table read as a requirement on the known values. */
  predicate TableSatisfied(houseType: string, floors: Option<int>, area: Option<real>, units: Option<int>) {
    && (houseType == MultiHousehold ==>
          AtMost(floors, 3) && (area.None? || area.value <= 660.0) && AtMost(units, 19))
    && (houseType == MultiUnit ==> AtMost(floors, 4) && (area.None? || area.value <= 660.0))
    && (houseType == RowHouse ==> AtMost(floors, 4) && (area.None? || area.value > 660.0))
    && (houseType == Apartment ==> floors.None? || floors.value >= 5)
  }

  // ---------------------------------------------------------------------
  // Soft versus hard
  // ---------------------------------------------------------------------

  lemma MissingDetailIsMarked()
    ensures Contains(MissingDetail, MissingMarker)
  {
    ContainsAt(MissingDetail, MissingMarker, 0);
  }

  /** Every missing-value note is a soft failure. */
  lemma NotesAreSoft(houseType: string, floors: Option<int>, area: Option<real>, units: Option<int>)
    ensures forall r :: r in MissingNotes(houseType, floors, area, units) ==> IsSoftFailure(r)
  {
    MissingDetailIsMarked();
  }

  /** A detail whose text lacks the marker's first character is unmarked. */
  lemma UnmarkedDetail(d: string)
    requires '값' !in d
    ensures !Contains(d, MissingMarker)
  {
    NotContainsByChar(d, MissingMarker, 0);
  }

  lemma FloorsDetailUnmarked(n: int)
    ensures !Contains(FloorsDetail(n), MissingMarker)
  {
    var p := "지상층수=";
    assert '값' !in p;
    assert '값' !in IntToString(n);
    assert forall c :: c in p + IntToString(n) ==> c in p || c in IntToString(n);
    UnmarkedDetail(FloorsDetail(n));
  }

  lemma UnitsDetailUnmarked(n: int)
    ensures !Contains(UnitsDetail(n), MissingMarker)
  {
    var p := "총 세대수=";
    assert '값' !in p;
    assert '값' !in IntToString(n);
    assert forall c :: c in p + IntToString(n) ==> c in p || c in IntToString(n);
    UnmarkedDetail(UnitsDetail(n));
  }

  lemma AreaDetailUnmarked(a: real)
    ensures !Contains(AreaDetail(a), MissingMarker)
  {
    var p := "면적=";
    assert '값' !in p && '값' !in "㎡";
    assert '값' !in Fixed2(a);
    assert forall c :: c in p + Fixed2(a) + "㎡" ==> c in p || c in Fixed2(a) || c in "㎡";
    UnmarkedDetail(AreaDetail(a));
  }

  lemma NoLimitDetailUnmarked()
    ensures !Contains(NoLimitDetail, MissingMarker)
  {
    UnmarkedDetail(NoLimitDetail);
  }

  /** No result's detail carries the marker. */
  predicate AllUnmarked(rs: seq<RuleResult>) {
    forall r :: r in rs ==> !Contains(r.detail, MissingMarker)
  }

  lemma AllUnmarkedAppend(a: seq<RuleResult>, b: seq<RuleResult>)
    requires AllUnmarked(a) && AllUnmarked(b)
    ensures AllUnmarked(a + b)
  {
    forall r | r in a + b
      ensures !Contains(r.detail, MissingMarker)
    {
      assert r in a || r in b;
    }
  }

  lemma ThresholdRulesUnmarked(floors: Option<int>, area: Option<real>, units: Option<int>, rule: string, ok: bool)
    ensures AllUnmarked(FloorsRule(floors, rule, ok))
    ensures AllUnmarked(AreaRule(area, rule, ok))
    ensures AllUnmarked(UnitsRule(units, rule, ok))
  {
    if floors.Some? {
      FloorsDetailUnmarked(floors.value);
    }
    if area.Some? {
      AreaDetailUnmarked(area.value);
    }
    if units.Some? {
      UnitsDetailUnmarked(units.value);
    }
  }

  /** Details rendered from known values never carry the marker. */
  lemma RulesAreUnmarked(houseType: string, floors: Option<int>, area: Option<real>, units: Option<int>)
    ensures forall r :: r in ThresholdResults(houseType, floors, area, units) ==> !Contains(r.detail, MissingMarker)
  {
    var rs := ThresholdResults(houseType, floors, area, units);
    if houseType == MultiHousehold {
      var f := FloorsRule(floors, "다가구: 지상층수 ≤ 3", floors.GetOr(0) <= 3);
      var a := AreaRule(area, "다가구: 면적 ≤ 660㎡", area.GetOr(0.0) <= 660.0);
      var u := UnitsRule(units, "다가구: 19세대 이하", units.GetOr(0) <= 19);
      ThresholdRulesUnmarked(floors, area, units, "다가구: 지상층수 ≤ 3", floors.GetOr(0) <= 3);
      ThresholdRulesUnmarked(floors, area, units, "다가구: 면적 ≤ 660㎡", area.GetOr(0.0) <= 660.0);
      ThresholdRulesUnmarked(floors, area, units, "다가구: 19세대 이하", units.GetOr(0) <= 19);
      AllUnmarkedAppend(f, a);
      AllUnmarkedAppend(f + a, u);
      assert rs == f + a + u;
    } else if houseType == MultiUnit {
      var f := FloorsRule(floors, "다세대: 지상층수 ≤ 4", floors.GetOr(0) <= 4);
      var a := AreaRule(area, "다세대: 면적 ≤ 660㎡", area.GetOr(0.0) <= 660.0);
      ThresholdRulesUnmarked(floors, area, units, "다세대: 지상층수 ≤ 4", floors.GetOr(0) <= 4);
      ThresholdRulesUnmarked(floors, area, units, "다세대: 면적 ≤ 660㎡", area.GetOr(0.0) <= 660.0);
      AllUnmarkedAppend(f, a);
      assert rs == f + a;
    } else if houseType == RowHouse {
      var f := FloorsRule(floors, "연립: 지상층수 ≤ 4", floors.GetOr(0) <= 4);
      var a := AreaRule(area, "연립: 면적 > 660㎡", area.GetOr(0.0) > 660.0);
      ThresholdRulesUnmarked(floors, area, units, "연립: 지상층수 ≤ 4", floors.GetOr(0) <= 4);
      ThresholdRulesUnmarked(floors, area, units, "연립: 면적 > 660㎡", area.GetOr(0.0) > 660.0);
      AllUnmarkedAppend(f, a);
      assert rs == f + a;
    } else if houseType == Apartment {
      ThresholdRulesUnmarked(floors, area, units, "아파트: 지상층수 ≥ 5", floors.GetOr(0) >= 5);
    } else if houseType == Detached {
      NoLimitDetailUnmarked();
    }
    assert AllUnmarked(rs);
  }

  predicate AllOk(rs: seq<RuleResult>) {
    forall i :: 0 <= i < |rs| ==> rs[i].ok
  }

  lemma AllOkConcat(a: seq<RuleResult>, b: seq<RuleResult>)
    ensures AllOk(a + b) <==> AllOk(a) && AllOk(b)
  {
    if AllOk(a) && AllOk(b) {
      forall i | 0 <= i < |a + b|
        ensures (a + b)[i].ok
      {
        if i >= |a| {
          assert (a + b)[i] == b[i - |a|];
        }
      }
    }
    if AllOk(a + b) {
      forall i | 0 <= i < |a|
        ensures a[i].ok
      {
        assert (a + b)[i] == a[i];
      }
      forall i | 0 <= i < |b|
        ensures b[i].ok
      {
        assert (a + b)[|a| + i] == b[i];
      }
    }
  }

  lemma FloorsRuleOk(floors: Option<int>, rule: string, ok: bool)
    ensures AllOk(FloorsRule(floors, rule, ok)) <==> floors.None? || ok
  {
    if floors.Some? {
      assert FloorsRule(floors, rule, ok)[0].ok == ok;
    }
  }

  lemma AreaRuleOk(area: Option<real>, rule: string, ok: bool)
    ensures AllOk(AreaRule(area, rule, ok)) <==> area.None? || ok
  {
    if area.Some? {
      assert AreaRule(area, rule, ok)[0].ok == ok;
    }
  }

  lemma UnitsRuleOk(units: Option<int>, rule: string, ok: bool)
    ensures AllOk(UnitsRule(units, rule, ok)) <==> units.None? || ok
  {
    if units.Some? {
      assert UnitsRule(units, rule, ok)[0].ok == ok;
    }
  }

  lemma MultiHouseholdRulesIffTable(floors: Option<int>, area: Option<real>, units: Option<int>)
    ensures AllOk(ThresholdResults(MultiHousehold, floors, area, units)) <==> TableSatisfied(MultiHousehold, floors, area, units)
  {
    HouseTypeLabelsDistinct();
    var f := FloorsRule(floors, "다가구: 지상층수 ≤ 3", floors.GetOr(0) <= 3);
    var a := AreaRule(area, "다가구: 면적 ≤ 660㎡", area.GetOr(0.0) <= 660.0);
    var u := UnitsRule(units, "다가구: 19세대 이하", units.GetOr(0) <= 19);
    assert ThresholdResults(MultiHousehold, floors, area, units) == f + a + u;
    FloorsRuleOk(floors, "다가구: 지상층수 ≤ 3", floors.GetOr(0) <= 3);
    AreaRuleOk(area, "다가구: 면적 ≤ 660㎡", area.GetOr(0.0) <= 660.0);
    UnitsRuleOk(units, "다가구: 19세대 이하", units.GetOr(0) <= 19);
    AllOkConcat(f, a);
    AllOkConcat(f + a, u);
  }

  lemma MultiUnitRulesIffTable(floors: Option<int>, area: Option<real>, units: Option<int>)
    ensures AllOk(ThresholdResults(MultiUnit, floors, area, units)) <==> TableSatisfied(MultiUnit, floors, area, units)
  {
    HouseTypeLabelsDistinct();
    var f := FloorsRule(floors, "다세대: 지상층수 ≤ 4", floors.GetOr(0) <= 4);
    var a := AreaRule(area, "다세대: 면적 ≤ 660㎡", area.GetOr(0.0) <= 660.0);
    assert ThresholdResults(MultiUnit, floors, area, units) == f + a;
    FloorsRuleOk(floors, "다세대: 지상층수 ≤ 4", floors.GetOr(0) <= 4);
    AreaRuleOk(area, "다세대: 면적 ≤ 660㎡", area.GetOr(0.0) <= 660.0);
    AllOkConcat(f, a);
  }

  lemma RowHouseRulesIffTable(floors: Option<int>, area: Option<real>, units: Option<int>)
    ensures AllOk(ThresholdResults(RowHouse, floors, area, units)) <==> TableSatisfied(RowHouse, floors, area, units)
  {
    HouseTypeLabelsDistinct();
    var f := FloorsRule(floors, "연립: 지상층수 ≤ 4", floors.GetOr(0) <= 4);
    var a := AreaRule(area, "연립: 면적 > 660㎡", area.GetOr(0.0) > 660.0);
    assert ThresholdResults(RowHouse, floors, area, units) == f + a;
    FloorsRuleOk(floors, "연립: 지상층수 ≤ 4", floors.GetOr(0) <= 4);
    AreaRuleOk(area, "연립: 면적 > 660㎡", area.GetOr(0.0) > 660.0);
    AllOkConcat(f, a);
  }

  /** Every table rule of the type holds exactly when the table is satisfied. */
  lemma RulesAllOkIffTable(houseType: string, floors: Option<int>, area: Option<real>, units: Option<int>)
    ensures AllOk(ThresholdResults(houseType, floors, area, units)) <==> TableSatisfied(houseType, floors, area, units)
  {
    HouseTypeLabelsDistinct();
    if houseType == MultiHousehold {
      MultiHouseholdRulesIffTable(floors, area, units);
    } else if houseType == MultiUnit {
      MultiUnitRulesIffTable(floors, area, units);
    } else if houseType == RowHouse {
      RowHouseRulesIffTable(floors, area, units);
    } else if houseType == Apartment {
      FloorsRuleOk(floors, "아파트: 지상층수 ≥ 5", floors.GetOr(0) >= 5);
    } else if houseType == Detached {
      assert ThresholdResults(houseType, floors, area, units)[0].ok;
    }
  }

  /** Soft notes in front of the rules never add a hard failure. */
  lemma HardFailureSkipsSoft(notes: seq<RuleResult>, rules: seq<RuleResult>)
    requires forall r :: r in notes ==> IsSoftFailure(r)
    ensures HasHardFailure(notes + rules) <==> HasHardFailure(rules)
  {
    var rs := notes + rules;
    forall i | 0 <= i < |notes|
      ensures !IsHardFailure(rs[i])
    {
      assert rs[i] == notes[i] && notes[i] in notes;
    }
    if HasHardFailure(rs) {
      var i :| 0 <= i < |rs| && IsHardFailure(rs[i]);
      assert rs[i] == rules[i - |notes|];
    }
    if HasHardFailure(rules) {
      var i :| 0 <= i < |rules| && IsHardFailure(rules[i]);
      assert rs[|notes| + i] == rules[i];
    }
  }

  /** Among unmarked results, a hard failure is any failed rule. */
  lemma HardFailureOfUnmarked(rules: seq<RuleResult>)
    requires forall r :: r in rules ==> !Contains(r.detail, MissingMarker)
    ensures HasHardFailure(rules) <==> !AllOk(rules)
  {
    if !AllOk(rules) {
      var i :| 0 <= i < |rules| && !rules[i].ok;
      assert rules[i] in rules;
    }
  }

  /** The engine's hard-failure test over `check_house_type_constraints`
      rejects exactly the buildings that break the housing-type table:
      missing values never reject, known values reject when out of range. */
  lemma HardFailureIffTableViolated(houseType: string, floors: Option<int>, area: Option<real>, units: Option<int>)
    ensures HasHardFailure(CheckHouseTypeConstraints(houseType, floors, area, units))
            <==> !TableSatisfied(houseType, floors, area, units)
  {
    var notes := MissingNotes(houseType, floors, area, units);
    var rules := ThresholdResults(houseType, floors, area, units);
    NotesAreSoft(houseType, floors, area, units);
    RulesAreUnmarked(houseType, floors, area, units);
    HardFailureSkipsSoft(notes, rules);
    HardFailureOfUnmarked(rules);
    RulesAllOkIffTable(houseType, floors, area, units);
  }

  /** A building whose area passed the `< 230` registration gate can never
      fail a `≤ 660` area rule. */
  lemma SmallAreaPassesAreaCaps(houseType: string, floors: Option<int>, a: real, units: Option<int>)
    requires a < 230.0 && houseType != RowHouse
    ensures TableSatisfied(houseType, floors, Some(a), units) == TableSatisfied(houseType, floors, None, units)
  {
  }

  /** A row house with a known area under 230 always breaks the `> 660`
      row-house rule. */
  lemma SmallRowHouseViolatesTable(floors: Option<int>, a: real, units: Option<int>)
    requires a < 230.0
    ensures !TableSatisfied(RowHouse, floors, Some(a), units)
  {
  }

  /** A 700 m² multi-household house is rejected whatever else is known. */
  lemma LargeMultiHouseholdIsHardFailure(floors: Option<int>, units: Option<int>)
    ensures HasHardFailure(CheckHouseTypeConstraints(MultiHousehold, floors, Some(700.0), units))
  {
    HardFailureIffTableViolated(MultiHousehold, floors, Some(700.0), units);
  }
}
