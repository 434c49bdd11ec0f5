/** The per-(dong, floor) unit count of `run`: every unit row of the
    registry's unit list is keyed by its dong and floor, the keys are
    counted, and the groups are listed in the order of the sort key
    (dong, integer floor or 10^9, floor text). */
module Units {
  import opened Wrappers
  import opened Text

  /** A unit row: only the dong name and the floor number matter here. */
  datatype UnitRow = UnitRow(dongNm: Option<string>, flrNo: Option<string>)

  /** The grouping key of a unit row. */
  datatype FloorKey = FloorKey(dong: string, floor: string)

  /** One output group: the key and how many unit rows carry it. */
  datatype FloorCount = FloorCount(key: FloorKey, count: nat)

  const UnknownDong: string := "미상동"
  const UnknownFloor: string := "미상층"

  /** The rank a floor that `int()` rejects is sorted with. */
  const NonNumericRank: int := 1_000_000_000

  /** The key of a unit row: its stripped dong name, or "미상동" when that
      is absent or blank; its floor text, or "미상층" when absent. */
  function KeyOf(u: UnitRow): (k: FloorKey)
    ensures k.dong != []
    ensures (u.dongNm.None? || Strip(u.dongNm.value) == []) ==> k.dong == UnknownDong
    ensures u.dongNm.Some? && Strip(u.dongNm.value) != [] ==> k.dong == Strip(u.dongNm.value)
    ensures u.flrNo.None? ==> k.floor == UnknownFloor
    ensures u.flrNo.Some? ==> k.floor == u.flrNo.value
  {
    var d := Strip(u.dongNm.GetOr(""));
    FloorKey(if d == [] then UnknownDong else d, u.flrNo.GetOr(UnknownFloor))
  }

  /** The dong of a key has no surrounding whitespace left. */
  lemma KeyOfDongStripped(u: UnitRow)
    ensures Strip(KeyOf(u).dong) == KeyOf(u).dong
  {
    var d := Strip(u.dongNm.GetOr(""));
    if d == [] {
      assert KeyOf(u).dong == UnknownDong;
      StripNoEdgeSpace(UnknownDong);
    } else {
      assert KeyOf(u).dong == d;
      StripIdempotent(u.dongNm.GetOr(""));
    }
  }

  /** The integer part of the sort key: `int(floor)`, or 10^9 when the
      floor text is not an integer. */
  function FloorRank(floor: string): int {
    match ParseInt(floor)
    case Some(n) => n
    case None => NonNumericRank
  }

  /** The sort order of `(dong, rank, floor)` tuples. */
  predicate KeyLess(a: FloorKey, b: FloorKey) {
    || LexLess(a.dong, b.dong)
    || (a.dong == b.dong && FloorRank(a.floor) < FloorRank(b.floor))
    || (a.dong == b.dong && FloorRank(a.floor) == FloorRank(b.floor) && LexLess(a.floor, b.floor))
  }

  lemma KeyLessIrreflexive(a: FloorKey)
    ensures !KeyLess(a, a)
  {
    LexIrreflexive(a.dong);
    LexIrreflexive(a.floor);
  }

  lemma KeyLessTransitive(a: FloorKey, b: FloorKey, c: FloorKey)
    requires KeyLess(a, b) && KeyLess(b, c)
    ensures KeyLess(a, c)
  {
    if LexLess(a.dong, b.dong) && LexLess(b.dong, c.dong) {
      LexTransitive(a.dong, b.dong, c.dong);
    }
    if a.dong == b.dong == c.dong && LexLess(a.floor, b.floor) && LexLess(b.floor, c.floor) {
      LexTransitive(a.floor, b.floor, c.floor);
    }
  }

  /** Distinct keys are always ordered, so the sort has a single outcome. */
  lemma KeyLessTotal(a: FloorKey, b: FloorKey)
    requires a != b
    ensures KeyLess(a, b) || KeyLess(b, a)
  {
    if a.dong != b.dong {
      LexTotal(a.dong, b.dong);
    } else if FloorRank(a.floor) == FloorRank(b.floor) {
      LexTotal(a.floor, b.floor);
    }
  }

  lemma FloorTwoRank()
    ensures FloorRank("2") == 2
  {
    StripNoEdgeSpace("2");
  }

  lemma FloorTenRank()
    ensures FloorRank("10") == 10
  {
    StripNoEdgeSpace("10");
    assert AllDigits("10");
    assert DigitsValue("10") == 10 by {
      assert "10"[..1] == "1";
    }
  }

  /** A numeric floor sorts by value, not by text: "2" comes before "10"
      although "10" is the smaller string. */
  lemma NumericFloorOrder(dong: string)
    ensures KeyLess(FloorKey(dong, "2"), FloorKey(dong, "10"))
    ensures LexLess("10", "2")
  {
    FloorTwoRank();
    FloorTenRank();
  }

  /** A floor that is not an integer sorts after every numeric floor of
      the same dong below 10^9. */
  lemma NonNumericFloorLast(dong: string, n: int, floor: string)
    requires n < NonNumericRank && ParseInt(floor).None?
    ensures KeyLess(FloorKey(dong, IntToString(n)), FloorKey(dong, floor))
  {
    IntToStringParses(n);
  }

  // ---------------------------------------------------------------------
  // Group lists
  // ---------------------------------------------------------------------

  /** Strictly increasing keys, hence pairwise-distinct keys. */
  predicate Sorted(g: seq<FloorCount>) {
    forall i, j :: 0 <= i < j < |g| ==> KeyLess(g[i].key, g[j].key)
  }

  /** Some group of the list carries the key. */
  predicate HasKey(g: seq<FloorCount>, k: FloorKey) {
    exists i :: 0 <= i < |g| && g[i].key == k
  }

  predicate Positive(g: seq<FloorCount>) {
    forall i :: 0 <= i < |g| ==> g[i].count >= 1
  }

  /** The count a group list records for a key. */
  function CountOf(g: seq<FloorCount>, k: FloorKey): nat {
    if |g| == 0 then 0
    else (if g[0].key == k then g[0].count else 0) + CountOf(g[1..], k)
  }

  /** The sum of all counts of a group list. */
  function Total(g: seq<FloorCount>): nat {
    if |g| == 0 then 0 else g[0].count + Total(g[1..])
  }

  /** Reference count: how many unit rows have the key. */
  function Occurrences(units: seq<UnitRow>, k: FloorKey): nat {
    if |units| == 0 then 0
    else Occurrences(units[..|units| - 1], k) + (if KeyOf(units[|units| - 1]) == k then 1 else 0)
  }

  /** `per_floor[k] += 1` on a sorted group list: bump the key's count, or
      add it with count 1 at its place in the order. */
  function Insert(g: seq<FloorCount>, k: FloorKey): seq<FloorCount> {
    if |g| == 0 then [FloorCount(k, 1)]
    else if g[0].key == k then [FloorCount(k, g[0].count + 1)] + g[1..]
    else if KeyLess(k, g[0].key) then [FloorCount(k, 1)] + g
    else [g[0]] + Insert(g[1..], k)
  }

  lemma {:induction false} InsertAbove(g: seq<FloorCount>, k: FloorKey, lo: FloorKey)
    requires forall i :: 0 <= i < |g| ==> KeyLess(lo, g[i].key)
    requires KeyLess(lo, k)
    ensures forall i :: 0 <= i < |Insert(g, k)| ==> KeyLess(lo, Insert(g, k)[i].key)
  {
    if |g| > 0 && g[0].key != k && !KeyLess(k, g[0].key) {
      InsertAbove(g[1..], k, lo);
      var r := Insert(g[1..], k);
      assert Insert(g, k) == [g[0]] + r;
      forall i | 1 <= i < |Insert(g, k)|
        ensures KeyLess(lo, Insert(g, k)[i].key)
      {
        assert Insert(g, k)[i] == r[i - 1];
      }
    }
  }

  /** Putting a group below every key of a sorted list keeps it sorted. */
  lemma ConsSorted(x: FloorCount, r: seq<FloorCount>)
    requires Sorted(r) && Positive(r) && x.count >= 1
    requires forall i :: 0 <= i < |r| ==> KeyLess(x.key, r[i].key)
    ensures Sorted([x] + r) && Positive([x] + r)
  {
    var s := [x] + r;
    forall i, j | 0 <= i < j < |s|
      ensures KeyLess(s[i].key, s[j].key)
    {
      assert s[j] == r[j - 1];
      if i > 0 {
        assert s[i] == r[i - 1];
      }
    }
    forall i | 0 <= i < |s|
      ensures s[i].count >= 1
    {
      if i > 0 {
        assert s[i] == r[i - 1];
      }
    }
  }

  lemma TailSorted(g: seq<FloorCount>)
    requires |g| > 0 && Sorted(g) && Positive(g)
    ensures Sorted(g[1..]) && Positive(g[1..])
    ensures forall i :: 0 <= i < |g[1..]| ==> KeyLess(g[0].key, g[1..][i].key)
  {
    var t := g[1..];
    forall i, j | 0 <= i < j < |t|
      ensures KeyLess(t[i].key, t[j].key)
    {
      assert t[i] == g[i + 1] && t[j] == g[j + 1];
    }
    forall i | 0 <= i < |t|
      ensures t[i].count >= 1 && KeyLess(g[0].key, t[i].key)
    {
      assert t[i] == g[i + 1];
    }
  }

  lemma {:induction false} InsertSorted(g: seq<FloorCount>, k: FloorKey)
    requires Sorted(g) && Positive(g)
    ensures Sorted(Insert(g, k)) && Positive(Insert(g, k))
  {
    if |g| == 0 {
    } else if g[0].key == k {
      TailSorted(g);
      ConsSorted(FloorCount(k, g[0].count + 1), g[1..]);
    } else if KeyLess(k, g[0].key) {
      TailSorted(g);
      forall i | 0 <= i < |g| ensures KeyLess(k, g[i].key) {
        if i > 0 {
          KeyLessTransitive(k, g[0].key, g[i].key);
        }
      }
      ConsSorted(FloorCount(k, 1), g);
    } else {
      KeyLessTotal(k, g[0].key);
      TailSorted(g);
      InsertSorted(g[1..], k);
      InsertAbove(g[1..], k, g[0].key);
      ConsSorted(g[0], Insert(g[1..], k));
    }
  }

  lemma {:induction false} InsertTotal(g: seq<FloorCount>, k: FloorKey)
    ensures Total(Insert(g, k)) == Total(g) + 1
  {
    if |g| == 0 {
      assert Total([FloorCount(k, 1)]) == 1 + Total([]);
    } else if g[0].key == k {
      assert Insert(g, k)[1..] == g[1..];
    } else if KeyLess(k, g[0].key) {
      assert Insert(g, k)[1..] == g;
    } else {
      InsertTotal(g[1..], k);
      assert Insert(g, k)[1..] == Insert(g[1..], k);
    }
  }

  lemma {:induction false} InsertCount(g: seq<FloorCount>, k: FloorKey, q: FloorKey)
    ensures CountOf(Insert(g, k), q) == CountOf(g, q) + (if k == q then 1 else 0)
  {
    if |g| == 0 {
      assert CountOf([FloorCount(k, 1)], q) == (if k == q then 1 else 0) + CountOf([], q);
    } else if g[0].key == k {
      assert Insert(g, k)[1..] == g[1..];
    } else if KeyLess(k, g[0].key) {
      assert Insert(g, k)[1..] == g;
    } else {
      InsertCount(g[1..], k, q);
      assert Insert(g, k)[1..] == Insert(g[1..], k);
    }
  }

  lemma InsertCountAll(g: seq<FloorCount>, k: FloorKey)
    ensures forall q :: CountOf(Insert(g, k), q) == CountOf(g, q) + (if k == q then 1 else 0)
  {
    forall q
      ensures CountOf(Insert(g, k), q) == CountOf(g, q) + (if k == q then 1 else 0)
    {
      InsertCount(g, k, q);
    }
  }

  /** The per-floor groups of a unit list: strictly sorted by the sort key,
      every count at least one, every key counted exactly as often as it
      occurs among the rows, and the counts summing to the row count. */
  function UnitsPerFloor(units: seq<UnitRow>): (r: seq<FloorCount>)
    ensures Sorted(r) && Positive(r)
    ensures Total(r) == |units|
    ensures forall k :: CountOf(r, k) == Occurrences(units, k)
  {
    if |units| == 0 then []
    else
      var prev := UnitsPerFloor(units[..|units| - 1]);
      var k := KeyOf(units[|units| - 1]);
      InsertSorted(prev, k);
      InsertTotal(prev, k);
      InsertCountAll(prev, k);
      Insert(prev, k)
  }

  /** `total_units_from_expos`: the summed counts, or 0 for no groups. */
  function ExposTotal(units: seq<UnitRow>): (n: nat)
    ensures n == |units|
  {
    var groups := UnitsPerFloor(units);
    if |groups| > 0 then Total(groups) else 0
  }

  // ---------------------------------------------------------------------
  // The groups are exactly the distinct keys, in order
  // ---------------------------------------------------------------------

  lemma {:induction false} CountOfPositive(g: seq<FloorCount>, k: FloorKey)
    requires Positive(g)
    ensures CountOf(g, k) > 0 <==> HasKey(g, k)
  {
    if |g| > 0 {
      var tail := g[1..];
      assert Positive(tail) by {
        forall i | 0 <= i < |tail|
          ensures tail[i].count >= 1
        {
          assert tail[i] == g[i + 1];
        }
      }
      CountOfPositive(tail, k);
      if HasKey(tail, k) {
        var i :| 0 <= i < |tail| && tail[i].key == k;
        assert g[i + 1].key == k;
      }
      if HasKey(g, k) {
        var i :| 0 <= i < |g| && g[i].key == k;
        if i > 0 {
          assert tail[i - 1].key == k;
        }
      }
    }
  }

  /** A group list holds a key exactly when some unit row has that key. */
  lemma GroupPresentIffOccurs(units: seq<UnitRow>, k: FloorKey)
    ensures HasKey(UnitsPerFloor(units), k) <==> Occurrences(units, k) > 0
  {
    var g := UnitsPerFloor(units);
    CountOfPositive(g, k);
    assert CountOf(g, k) == Occurrences(units, k);
  }

  lemma {:induction false} CountOfBelow(g: seq<FloorCount>, k: FloorKey)
    requires forall i :: 0 <= i < |g| ==> KeyLess(k, g[i].key)
    ensures CountOf(g, k) == 0
  {
    if |g| > 0 {
      KeyLessIrreflexive(k);
      var tail := g[1..];
      forall i | 0 <= i < |tail|
        ensures KeyLess(k, tail[i].key)
      {
        assert tail[i] == g[i + 1];
      }
      CountOfBelow(tail, k);
    }
  }

  /** Two sorted group lists with positive counts that agree on every
      key's count are the same list. */
  lemma {:induction false} SortedCountsUnique(a: seq<FloorCount>, b: seq<FloorCount>)
    requires Sorted(a) && Positive(a) && Sorted(b) && Positive(b)
    requires forall k :: CountOf(a, k) == CountOf(b, k)
    ensures a == b
    decreases |a| + |b|
  {
    if |a| == 0 && |b| == 0 {
    } else if |a| == 0 {
      CountOfPositive(b, b[0].key);
      assert false;
    } else if |b| == 0 {
      CountOfPositive(a, a[0].key);
      assert false;
    } else {
      TailSorted(a);
      TailSorted(b);
      var ka, kb := a[0].key, b[0].key;
      if ka != kb {
        KeyLessTotal(ka, kb);
        if KeyLess(ka, kb) {
          forall i | 0 <= i < |b|
            ensures KeyLess(ka, b[i].key)
          {
            if i > 0 {
              KeyLessTransitive(ka, kb, b[i].key);
            }
          }
          CountOfBelow(b, ka);
          CountOfPositive(a, ka);
          assert false;
        } else {
          forall i | 0 <= i < |a|
            ensures KeyLess(kb, a[i].key)
          {
            if i > 0 {
              KeyLessTransitive(kb, ka, a[i].key);
            }
          }
          CountOfBelow(a, kb);
          CountOfPositive(b, kb);
          assert false;
        }
      }
      CountOfBelow(a[1..], ka);
      CountOfBelow(b[1..], ka);
      assert a[0].count == CountOf(a, ka) == CountOf(b, ka) == b[0].count;
      forall k
        ensures CountOf(a[1..], k) == CountOf(b[1..], k)
      {
        assert CountOf(a, k) == CountOf(b, k);
      }
      SortedCountsUnique(a[1..], b[1..]);
      assert a == [a[0]] + a[1..] && b == [b[0]] + b[1..];
    }
  }

  /** `sorted(per_floor.items())` is determined by the counts alone: any
      strictly sorted list of positive counts that matches the rows' key
      occurrences is the per-floor aggregation. */
  lemma UnitsPerFloorIsTheSortedGrouping(units: seq<UnitRow>, g: seq<FloorCount>)
    requires Sorted(g) && Positive(g)
    requires forall k :: CountOf(g, k) == Occurrences(units, k)
    ensures g == UnitsPerFloor(units)
  {
    SortedCountsUnique(g, UnitsPerFloor(units));
  }

  /** A unit row with a blank dong and no floor is counted under
      ("미상동", "미상층"). */
  lemma BlankRowGroupedAsUnknown(units: seq<UnitRow>, d: string)
    requires Strip(d) == []
    ensures Occurrences(units + [UnitRow(Some(d), None)], FloorKey(UnknownDong, UnknownFloor))
            == Occurrences(units, FloorKey(UnknownDong, UnknownFloor)) + 1
  {
    assert (units + [UnitRow(Some(d), None)])[..|units|] == units;
  }
}
