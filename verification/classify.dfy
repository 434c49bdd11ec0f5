/** The two ordered-substring classifiers of the eligibility engine:
    `classify_structure` and `detect_house_type`. */
module Classify {
  import opened Text

  // ---------------------------------------------------------------------
  // Structure classes
  // ---------------------------------------------------------------------

  const ReinforcedConcrete: string := "철근콘크리트(RC)"
  const Brick: string := "벽돌"
  const SteelFrame: string := "철골"
  const Timber: string := "목구조"
  const Unconfirmed: string := "미확인"

  const StructureClasses: set<string> := {ReinforcedConcrete, Brick, SteelFrame, Timber, Unconfirmed}

  /** Both reinforced-concrete tokens occur. */
  predicate HasRcTokens(s: string) {
    Contains(s, "철근") && Contains(s, "콘크리트")
  }

  /** `classify_structure`: U+0020 spaces are ignored; reinforced concrete
      needs both "철근" and "콘크리트"; then brick, steel frame and timber in
      that order; unmatched text is returned as given. */
  function ClassifyStructure(name: string): (r: string)
    ensures r in StructureClasses || r == name
    ensures RemoveSpaces(name) == [] ==> r == Unconfirmed
    ensures HasRcTokens(RemoveSpaces(name)) ==> r == ReinforcedConcrete
    ensures var s := RemoveSpaces(name);
            s != [] && !HasRcTokens(s) && Contains(s, "벽돌") ==> r == Brick
    ensures var s := RemoveSpaces(name);
            s != [] && !HasRcTokens(s) && !Contains(s, "벽돌") && Contains(s, "철골") ==> r == SteelFrame
    ensures var s := RemoveSpaces(name);
            s != [] && !HasRcTokens(s) && !Contains(s, "벽돌") && !Contains(s, "철골") && Contains(s, "목") ==> r == Timber
    ensures var s := RemoveSpaces(name);
            s != [] && !HasRcTokens(s) && !Contains(s, "벽돌") && !Contains(s, "철골") && !Contains(s, "목") ==> r == name
    ensures r == name && name !in StructureClasses ==>
              !HasRcTokens(RemoveSpaces(name)) && !Contains(RemoveSpaces(name), "벽돌")
              && !Contains(RemoveSpaces(name), "철골") && !Contains(RemoveSpaces(name), "목")
  {
    var s := RemoveSpaces(name);
    if s == [] then Unconfirmed
    else if HasRcTokens(s) then ReinforcedConcrete
    else if Contains(s, "벽돌") then Brick
    else if Contains(s, "철골") then SteelFrame
    else if Contains(s, "목") then Timber
    else name
  }

  /** Space-free text with both tokens is reinforced concrete. */
  lemma ClassifySpaceFreeRc(name: string)
    requires ' ' !in name && HasRcTokens(name)
    ensures ClassifyStructure(name) == ReinforcedConcrete
  {
    RemoveSpacesNoSpace(name);
  }

  /** Steel-reinforced concrete carries both tokens and so is reinforced
      concrete, ahead of the steel-frame test. */
  lemma SteelReinforcedConcreteIsRc()
    ensures ClassifyStructure("철골철근콘크리트조") == ReinforcedConcrete
  {
    var s := "철골철근콘크리트조";
    ContainsAt(s, "철근", 2);
    ContainsAt(s, "콘크리트", 4);
    ClassifySpaceFreeRc(s);
  }

  /** Both reinforced-concrete tokens, side by side. */
  lemma RcTokensAdjacent()
    ensures HasRcTokens("철근콘크리트")
  {
    var s := "철근콘크리트";
    assert OccursAt(s, "콘크리트", 2) by {
      assert s[2] == '콘' && s[3] == '크' && s[4] == '리' && s[5] == '트';
    }
    ContainsAt(s, "철근", 0);
    ContainsAt(s, "콘크리트", 2);
  }

  /** Removing the space from "철근 콘크리트" leaves both tokens. */
  lemma SpacedRcUnspaced()
    ensures RemoveSpaces("철근 콘크리트") == "철근콘크리트"
  {
    assert "철근 콘크리트" == "철근" + " " + "콘크리트";
    RemoveSpacesJoin("철근", "콘크리트");
    RemoveSpacesNoSpace("철근");
    RemoveSpacesNoSpace("콘크리트");
    assert "철근" + "콘크리트" == "철근콘크리트";
  }

  /** Spaces between the tokens do not matter. */
  lemma SpacedReinforcedConcreteIsRc()
    ensures ClassifyStructure("철근 콘크리트") == ReinforcedConcrete
  {
    SpacedRcUnspaced();
    RcTokensAdjacent();
  }

  /** Brick is tested before steel frame. */
  lemma BrickBeforeSteelFrame()
    ensures ClassifyStructure("벽돌 철골") == Brick
  {
    var s := "벽돌철골";
    assert RemoveSpaces("벽돌 철골") == s;
    NotContainsByChar(s, "철근", 1);
    ContainsAt(s, "벽돌", 0);
  }

  /** Steel frame is tested before timber. */
  lemma SteelFrameBeforeTimber()
    ensures ClassifyStructure("철골목조") == SteelFrame
  {
    var s := "철골목조";
    RemoveSpacesNoSpace(s);
    NotContainsByChar(s, "철근", 1);
    NotContainsByChar(s, "벽돌", 0);
    ContainsAt(s, "철골", 0);
  }

  /** Text matching no token is returned unchanged, not as an error. */
  lemma UnmatchedStructurePassesThrough()
    ensures ClassifyStructure("기타조") == "기타조"
  {
    var s := "기타조";
    RemoveSpacesNoSpace(s);
    NotContainsByChar(s, "철근", 0);
    NotContainsByChar(s, "벽돌", 0);
    NotContainsByChar(s, "철골", 0);
    NotContainsByChar(s, "목", 0);
  }

  // ---------------------------------------------------------------------
  // Housing types
  // ---------------------------------------------------------------------

  const MultiHousehold: string := "다가구주택"
  const MultiUnit: string := "다세대주택"
  const RowHouse: string := "연립주택"
  const Apartment: string := "아파트"
  const Detached: string := "단독주택"
  const CommonUnspecified: string := "공동주택(세부미상)"
  const UnknownType: string := "미상"

  /** The umbrella term for multi-family housing, unspaced and spaced. */
  const CommonHousing: string := "공동주택"
  const SpacedCommonHousing: string := "공동 주택"

  /** The five specific housing types. */
  const SpecificTypes: set<string> := {MultiHousehold, MultiUnit, RowHouse, Apartment, Detached}

  /** Every label `detect_house_type` can produce. */
  const HouseTypes: set<string> := SpecificTypes + {CommonUnspecified, UnknownType}

  /** The seven labels are pairwise different. */
  lemma HouseTypeLabelsDistinct()
    ensures MultiHousehold != MultiUnit && MultiHousehold != RowHouse
    ensures MultiHousehold != Apartment && MultiHousehold != Detached
    ensures MultiUnit != RowHouse && MultiUnit != Apartment && MultiUnit != Detached
    ensures RowHouse != Apartment && RowHouse != Detached && Apartment != Detached
  {
    assert MultiHousehold[1] != MultiUnit[1];
    assert RowHouse[0] != Detached[0];
  }

  /** The text the specific-type tests search: both purposes joined by a
      space, then every U+0020 removed. */
  function PurposeText(main: string, etc: string): string {
    RemoveSpaces(main + " " + etc)
  }

  /** The joining space disappears: the searched text is the two purposes
      with their own spaces removed, main purpose first. */
  lemma PurposeTextSplits(main: string, etc: string)
    ensures PurposeText(main, etc) == RemoveSpaces(main) + RemoveSpaces(etc)
  {
    RemoveSpacesJoin(main, etc);
  }

  /** One of the five specific-type tokens occurs. */
  predicate HasSpecificToken(hay: string) {
    || Contains(hay, "다가구") || Contains(hay, "다세대") || Contains(hay, "연립")
    || Contains(hay, "아파트") || Contains(hay, "단독")
  }

  /** `detect_house_type`: the first of 다가구, 다세대, 연립, 아파트, 단독 found
      in the joined purposes wins; otherwise "공동주택" in the main purpose
      alone, as written, gives the unspecified-subtype label; otherwise
      unknown. */
  function DetectHouseType(main: string, etc: string): (r: string)
    ensures r in HouseTypes
    ensures r == MultiHousehold <==> Contains(PurposeText(main, etc), "다가구")
    ensures var hay := PurposeText(main, etc);
            r == MultiUnit <==> !Contains(hay, "다가구") && Contains(hay, "다세대")
    ensures var hay := PurposeText(main, etc);
            r == RowHouse <==> !Contains(hay, "다가구") && !Contains(hay, "다세대") && Contains(hay, "연립")
    ensures var hay := PurposeText(main, etc);
            r == Apartment <==> !Contains(hay, "다가구") && !Contains(hay, "다세대") && !Contains(hay, "연립")
                                && Contains(hay, "아파트")
    ensures var hay := PurposeText(main, etc);
            r == Detached <==> !Contains(hay, "다가구") && !Contains(hay, "다세대") && !Contains(hay, "연립")
                               && !Contains(hay, "아파트") && Contains(hay, "단독")
    ensures r in SpecificTypes <==> HasSpecificToken(PurposeText(main, etc))
    ensures r == CommonUnspecified <==>
              !HasSpecificToken(PurposeText(main, etc)) && Contains(main, CommonHousing)
  {
    var hay := PurposeText(main, etc);
    if Contains(hay, "다가구") then MultiHousehold
    else if Contains(hay, "다세대") then MultiUnit
    else if Contains(hay, "연립") then RowHouse
    else if Contains(hay, "아파트") then Apartment
    else if Contains(hay, "단독") then Detached
    else if Contains(main, CommonHousing) then CommonUnspecified
    else UnknownType
  }

  /** Spaces inside the secondary purpose never matter. */
  lemma DetectIgnoresSpacesInEtc(main: string, etc: string)
    ensures DetectHouseType(main, etc) == DetectHouseType(main, RemoveSpaces(etc))
  {
    PurposeTextSplits(main, etc);
    PurposeTextSplits(main, RemoveSpaces(etc));
    RemoveSpacesIdempotent(etc);
    assert PurposeText(main, etc) == PurposeText(main, RemoveSpaces(etc));
  }

  /** The searched text of an apartment main purpose with a multi-household
      secondary purpose holds 다가구. */
  lemma ApartmentMultiHouseholdText()
    ensures Contains(PurposeText(Apartment, MultiHousehold), "다가구")
  {
    var hay := "아파트다가구주택";
    calc {
      PurposeText(Apartment, MultiHousehold);
    == { PurposeTextSplits(Apartment, MultiHousehold); }
      RemoveSpaces(Apartment) + RemoveSpaces(MultiHousehold);
    == { RemoveSpacesNoSpace(Apartment); RemoveSpacesNoSpace(MultiHousehold); }
      Apartment + MultiHousehold;
    }
    assert Contains(hay, "다가구") by {
      ContainsAt(hay, "다가구", 3);
    }
    assert Apartment + MultiHousehold == hay;
  }

  /** Mixed labels resolve to the type tested first: 다가구 before 아파트. */
  lemma MultiHouseholdBeatsApartment()
    ensures DetectHouseType(Apartment, MultiHousehold) == MultiHousehold
  {
    ApartmentMultiHouseholdText();
  }

  /** "공동주택" names none of the five specific types. */
  lemma CommonHousingHasNoSpecificToken()
    ensures !HasSpecificToken(CommonHousing)
  {
    NotContainsByChar(CommonHousing, "다가구", 0);
    NotContainsByChar(CommonHousing, "다세대", 0);
    NotContainsByChar(CommonHousing, "연립", 0);
    NotContainsByChar(CommonHousing, "아파트", 0);
    NotContainsByChar(CommonHousing, "단독", 0);
  }

  /** Removing the space from "공동 주택" gives "공동주택". */
  lemma SpacedCommonHousingUnspaced()
    ensures RemoveSpaces(SpacedCommonHousing) == CommonHousing
  {
    assert SpacedCommonHousing == "공동" + " " + "주택";
    RemoveSpacesJoin("공동", "주택");
    RemoveSpacesNoSpace("공동");
    RemoveSpacesNoSpace("주택");
    assert "공동" + "주택" == CommonHousing;
  }

  /** The joined purposes when one of them is "공동주택" or its spaced form
      and the other is empty. */
  lemma CommonHousingPurposeText()
    ensures PurposeText(CommonHousing, "") == CommonHousing
    ensures PurposeText("", CommonHousing) == CommonHousing
    ensures PurposeText(SpacedCommonHousing, "") == CommonHousing
  {
    PurposeTextSplits(CommonHousing, "");
    PurposeTextSplits("", CommonHousing);
    PurposeTextSplits(SpacedCommonHousing, "");
    RemoveSpacesNoSpace(CommonHousing);
    SpacedCommonHousingUnspaced();
    assert RemoveSpaces("") == [];
  }

  /** The spaced form does not contain the unspaced term. */
  lemma SpacedCommonHousingLacksTerm()
    ensures !Contains(SpacedCommonHousing, CommonHousing)
  {
    var a := SpacedCommonHousing;
    assert !OccursAt(a, CommonHousing, 0) by { assert a[2] != CommonHousing[2]; }
    assert !OccursAt(a, CommonHousing, 1) by { assert a[1] != CommonHousing[0]; }
  }

  /** The umbrella fallback fires on "공동주택" in the main purpose. */
  lemma CommonHousingFallback()
    ensures DetectHouseType(CommonHousing, "") == CommonUnspecified
  {
    CommonHousingPurposeText();
    CommonHousingHasNoSpecificToken();
    ContainsAt(CommonHousing, CommonHousing, 0);
  }

  /** The fallback keeps the main purpose's spaces. */
  lemma SpacedCommonHousingIsUnknown()
    ensures DetectHouseType(SpacedCommonHousing, "") == UnknownType
  {
    CommonHousingPurposeText();
    CommonHousingHasNoSpecificToken();
    SpacedCommonHousingLacksTerm();
  }

  /** The fallback ignores the secondary purpose. */
  lemma CommonHousingInEtcIsUnknown()
    ensures DetectHouseType("", CommonHousing) == UnknownType
  {
    CommonHousingPurposeText();
    CommonHousingHasNoSpecificToken();
  }
}
