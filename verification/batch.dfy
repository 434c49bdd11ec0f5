/** The batch side of `process_and_split_csv`: address rows are
    normalised, incomplete rows dropped and repeated addresses removed
    (first occurrence kept, input order preserved); every kept row is then
    judged and filed in one of five buckets by its result code. */
module Batch {
  import opened Wrappers
  import opened Text
  import opened Units
  import opened Checker

  /** A CSV row: column name to cell text. */
  type Row = map<string, string>

  const SigunguColumn: string := "시군구코드"
  const BjdongColumn: string := "법정동코드"
  const BunColumn: string := "번"
  const JiColumn: string := "지"
  const CodeColumn: string := "판정코드"
  const MeaningColumn: string := "판정의미"

  /** The sub-lot number a blank sub-lot is normalised to. */
  const DefaultJi: string := "0000"

  /** `row.get(column, "")`. */
  function Get(row: Row, column: string): (v: string)
    ensures column in row ==> v == row[column]
    ensures column !in row ==> v == []
  {
    if column in row then row[column] else []
  }

  // ---------------------------------------------------------------------
  // Normalisation and deduplication
  // ---------------------------------------------------------------------

  /** The deduplication key: district, neighbourhood, main lot, sub-lot. */
  datatype AddressKey = AddressKey(sigungu: string, bjdong: string, bun: string, ji: string)

  /** The stripped sub-lot, with a blank one replaced by "0000". */
  function NormalizedJi(row: Row): (j: string)
    ensures j != []
    ensures Strip(Get(row, JiColumn)) == [] ==> j == DefaultJi
    ensures Strip(Get(row, JiColumn)) != [] ==> j == Strip(Get(row, JiColumn))
  {
    var j := Strip(Get(row, JiColumn));
    if j == [] then DefaultJi else j
  }

  /** The normalised sub-lot has no surrounding whitespace left. */
  lemma NormalizedJiIsStripped(row: Row)
    ensures Strip(NormalizedJi(row)) == NormalizedJi(row)
  {
    var j := Strip(Get(row, JiColumn));
    if j == [] {
      assert NormalizedJi(row) == DefaultJi;
      StripNoEdgeSpace(DefaultJi);
    } else {
      assert NormalizedJi(row) == j;
      StripIdempotent(Get(row, JiColumn));
    }
  }

  /** The row with its normalised sub-lot written back. */
  function NormalizeRow(row: Row): Row {
    row[JiColumn := NormalizedJi(row)]
  }

  /** District, neighbourhood and main lot are non-blank after stripping. */
  predicate Complete(row: Row) {
    Strip(Get(row, SigunguColumn)) != [] && Strip(Get(row, BjdongColumn)) != [] && Strip(Get(row, BunColumn)) != []
  }

  function AddressOf(row: Row): AddressKey {
    AddressKey(Strip(Get(row, SigunguColumn)), Strip(Get(row, BjdongColumn)), Strip(Get(row, BunColumn)), NormalizedJi(row))
  }

  lemma ColumnsDistinct()
    ensures SigunguColumn != JiColumn && BjdongColumn != JiColumn && BunColumn != JiColumn
    ensures CodeColumn != MeaningColumn
  {
    assert |JiColumn| == 1 && |SigunguColumn| == 5 && |BjdongColumn| == 5 && BunColumn[0] != JiColumn[0];
    assert CodeColumn[2] != MeaningColumn[2];
  }

  /** Normalisation rewrites the sub-lot and nothing else, so the raw
      district, neighbourhood and main lot reach the checker unstripped. */
  lemma NormalizeRowChangesOnlyJi(row: Row)
    ensures JiColumn in NormalizeRow(row) && NormalizeRow(row)[JiColumn] == NormalizedJi(row)
    ensures forall c :: c != JiColumn ==> (c in NormalizeRow(row) <==> c in row)
    ensures forall c :: c != JiColumn && c in row ==> NormalizeRow(row)[c] == row[c]
    ensures Get(NormalizeRow(row), SigunguColumn) == Get(row, SigunguColumn)
    ensures Get(NormalizeRow(row), BjdongColumn) == Get(row, BjdongColumn)
    ensures Get(NormalizeRow(row), BunColumn) == Get(row, BunColumn)
  {
    ColumnsDistinct();
  }

  /** Normalising twice changes nothing, and keeps the address. */
  lemma NormalizeRowIdempotent(row: Row)
    ensures NormalizeRow(NormalizeRow(row)) == NormalizeRow(row)
    ensures AddressOf(NormalizeRow(row)) == AddressOf(row)
    ensures Complete(NormalizeRow(row)) == Complete(row)
  {
    NormalizedJiStable(row);
    NormalizeKeepsAddress(row);
    var n := NormalizeRow(row);
    UpdateSameValue(n, JiColumn, NormalizedJi(n));
  }

  /** Writing back the value a column already holds changes nothing. */
  lemma UpdateSameValue(m: Row, k: string, v: string)
    requires k in m && m[k] == v
    ensures m[k := v] == m
  {
  }

  /** Normalisation keeps the address and completeness of a row. */
  lemma NormalizeKeepsAddress(row: Row)
    ensures AddressOf(NormalizeRow(row)) == AddressOf(row)
    ensures Complete(NormalizeRow(row)) == Complete(row)
  {
    NormalizeRowChangesOnlyJi(row);
    NormalizedJiStable(row);
  }

  /** The normalised sub-lot normalises to itself. */
  lemma NormalizedJiStable(row: Row)
    ensures NormalizedJi(NormalizeRow(row)) == NormalizedJi(row)
  {
    var j := NormalizedJi(row);
    NormalizedJiIsStripped(row);
    assert Get(NormalizeRow(row), JiColumn) == j;
    assert Strip(j) == j && j != [];
  }

  /** A blank sub-lot is normalised to "0000", as "0000" itself is. */
  lemma BlankJiNormalized(row: Row, blank: string)
    requires Strip(blank) == []
    ensures NormalizedJi(row[JiColumn := blank]) == DefaultJi
    ensures NormalizedJi(row[JiColumn := DefaultJi]) == DefaultJi
  {
    assert Get(row[JiColumn := blank], JiColumn) == blank;
    assert Get(row[JiColumn := DefaultJi], JiColumn) == DefaultJi;
    StripNoEdgeSpace(DefaultJi);
  }

  /** A blank sub-lot and "0000" are the same address. */
  lemma BlankJiMatchesDefault(row: Row, blank: string)
    requires Strip(blank) == []
    ensures AddressOf(row[JiColumn := blank]) == AddressOf(row[JiColumn := DefaultJi])
  {
    var x := row[JiColumn := blank];
    var y := row[JiColumn := DefaultJi];
    BlankJiNormalized(row, blank);
    ColumnsDistinct();
    assert Get(x, SigunguColumn) == Get(y, SigunguColumn);
    assert Get(x, BjdongColumn) == Get(y, BjdongColumn);
    assert Get(x, BunColumn) == Get(y, BunColumn);
  }

  /** Only blank is normalised: "0" and "0000" stay different addresses. */
  lemma ZeroJiDiffersFromDefault(row: Row)
    ensures AddressOf(row[JiColumn := "0"]) != AddressOf(row[JiColumn := DefaultJi])
  {
    StripNoEdgeSpace("0");
    StripNoEdgeSpace(DefaultJi);
    assert Get(row[JiColumn := "0"], JiColumn) == "0";
    assert Get(row[JiColumn := DefaultJi], JiColumn) == DefaultJi;
  }

  /** One row as the loop sees it: its address when it is complete (None
      when it is skipped), the row as read, and its normalised sub-lot. */
  datatype Scanned = Scanned(key: Option<AddressKey>, row: Row, ji: string)

  function Scan(row: Row): Scanned {
    Scanned(if Complete(row) then Some(AddressOf(row)) else None, row, NormalizedJi(row))
  }

  /** The row the loop would keep for a scanned entry. */
  function Output(e: Scanned): Row {
    e.row[JiColumn := e.ji]
  }

  /** A scanned row carries a key exactly when the row it would keep is
      complete, and that key is the kept row's own address. */
  lemma ScanAgreesWithRow(row: Row)
    ensures Output(Scan(row)) == NormalizeRow(row)
    ensures Scan(row).key.Some? <==> Complete(Output(Scan(row)))
    ensures Scan(row).key.Some? ==> Scan(row).key.value == AddressOf(Output(Scan(row)))
  {
    NormalizeRowIdempotent(row);
  }

  /** The scan of every row, in input order. */
  function ScanAll(rows: seq<Row>): (ss: seq<Scanned>)
    ensures |ss| == |rows|
  {
    if |rows| == 0 then [] else ScanAll(rows[..|rows| - 1]) + [Scan(rows[|rows| - 1])]
  }

  /** The kept row of an entry with a key is complete and has that key as
      its address. */
  predicate WellScanned(e: Scanned) {
    e.key.Some? ==> Complete(Output(e)) && e.key.value == AddressOf(Output(e))
  }

  lemma {:induction false} ScanAllWellScanned(rows: seq<Row>)
    ensures forall e :: e in ScanAll(rows) ==> WellScanned(e)
  {
    if |rows| > 0 {
      var n := |rows| - 1;
      ScanAllWellScanned(rows[..n]);
      ScanAgreesWithRow(rows[n]);
      assert WellScanned(Scan(rows[n]));
    }
  }

  lemma ScanAllStep(rows: seq<Row>, i: nat, ss: seq<Scanned>, e: Scanned)
    requires i < |rows| && ss == ScanAll(rows[..i]) && e == Scan(rows[i])
    ensures ss + [e] == ScanAll(rows[..i + 1])
  {
    assert rows[..i + 1][..i] == rows[..i];
  }

  /** The keys present in a scan. */
  function KeySet(ss: seq<Scanned>): set<AddressKey> {
    if |ss| == 0 then {}
    else KeySet(ss[..|ss| - 1]) + (if ss[|ss| - 1].key.Some? then {ss[|ss| - 1].key.value} else {})
  }

  /** How many scanned rows carry a key. */
  function KeyCount(ss: seq<Scanned>): nat {
    if |ss| == 0 then 0
    else KeyCount(ss[..|ss| - 1]) + (if ss[|ss| - 1].key.Some? then 1 else 0)
  }

  /** Entry `i` carries a key that no earlier entry carries. */
  predicate IsFirstOccurrence(ss: seq<Scanned>, i: nat)
    requires i < |ss|
  {
    ss[i].key.Some? && ss[i].key.value !in KeySet(ss[..i])
  }

  /** Reference result: the first entry for every key, in input order. */
  function Kept(ss: seq<Scanned>): seq<Scanned> {
    if |ss| == 0 then []
    else
      var n := |ss| - 1;
      Kept(ss[..n]) + (if IsFirstOccurrence(ss, n) then [ss[n]] else [])
  }

  lemma KeySetMember(ss: seq<Scanned>, i: nat)
    requires i < |ss| && ss[i].key.Some?
    ensures ss[i].key.value in KeySet(ss)
  {
    if i < |ss| - 1 {
      KeySetMember(ss[..|ss| - 1], i);
    }
  }

  /** Every key in the set is carried by some entry. */
  lemma {:induction false} KeySetWitness(ss: seq<Scanned>, k: AddressKey) returns (i: nat)
    requires k in KeySet(ss)
    ensures i < |ss| && ss[i].key == Some(k)
  {
    var n := |ss| - 1;
    if ss[n].key == Some(k) {
      i := n;
    } else {
      i := KeySetWitness(ss[..n], k);
    }
  }

  /** The kept entries carry every key once: their keys are the scan's
      keys, and there are as many of them as distinct keys. */
  lemma {:induction false} KeptKeys(ss: seq<Scanned>)
    ensures KeySet(Kept(ss)) == KeySet(ss)
    ensures |Kept(ss)| == |KeySet(ss)|
  {
    if |ss| > 0 {
      var n := |ss| - 1;
      KeptKeys(ss[..n]);
      var p := Kept(ss[..n]);
      var u := Kept(ss);
      if IsFirstOccurrence(ss, n) {
        assert u == p + [ss[n]];
        assert u[..|u| - 1] == p;
      } else {
        assert u == p;
      }
    }
  }

  /** Every kept entry carries a key and is an entry of the scan. */
  lemma {:induction false} KeptFromScan(ss: seq<Scanned>)
    ensures forall i :: 0 <= i < |Kept(ss)| ==> Kept(ss)[i].key.Some? && Kept(ss)[i] in ss
  {
    if |ss| > 0 {
      var n := |ss| - 1;
      KeptFromScan(ss[..n]);
      var p := Kept(ss[..n]);
      var u := Kept(ss);
      forall i | 0 <= i < |u|
        ensures u[i].key.Some? && u[i] in ss
      {
        if i < |p| {
          assert u[i] == p[i];
          assert p[i] in ss[..n];
        } else {
          assert u == p + [ss[n]];
        }
      }
    }
  }

  /** Kept entries carry pairwise-distinct keys. */
  lemma {:induction false} KeptDistinct(ss: seq<Scanned>)
    ensures forall i, j :: 0 <= i < j < |Kept(ss)| ==> Kept(ss)[i].key != Kept(ss)[j].key
  {
    if |ss| > 0 {
      var n := |ss| - 1;
      KeptDistinct(ss[..n]);
      var p := Kept(ss[..n]);
      var u := Kept(ss);
      if IsFirstOccurrence(ss, n) {
        KeptKeys(ss[..n]);
        KeptFromScan(ss[..n]);
        assert u == p + [ss[n]];
        forall i, j | 0 <= i < j < |u|
          ensures u[i].key != u[j].key
        {
          assert u[i] == p[i];
          if j == |u| - 1 {
            KeySetMember(p, i);
          } else {
            assert u[j] == p[j];
          }
        }
      } else {
        assert u == p;
      }
    }
  }

  /** `duplicate_count` can never be negative: there are no more distinct
      keys than keyed entries. */
  lemma {:induction false} KeySetBelowCount(ss: seq<Scanned>)
    ensures |KeySet(ss)| <= KeyCount(ss)
  {
    if |ss| > 0 {
      KeySetBelowCount(ss[..|ss| - 1]);
    }
  }

  /** How one more entry extends the key set, the count and the kept
      list: an entry without a key changes nothing, a repeated key only
      counts, and a new key is kept. */
  lemma AppendStep(ss: seq<Scanned>, e: Scanned)
    ensures e.key.None? ==>
      KeySet(ss + [e]) == KeySet(ss) && KeyCount(ss + [e]) == KeyCount(ss) && Kept(ss + [e]) == Kept(ss)
    ensures e.key.Some? && e.key.value in KeySet(ss) ==>
      KeySet(ss + [e]) == KeySet(ss) && KeyCount(ss + [e]) == KeyCount(ss) + 1 && Kept(ss + [e]) == Kept(ss)
    ensures e.key.Some? && e.key.value !in KeySet(ss) ==>
      KeySet(ss + [e]) == KeySet(ss) + {e.key.value} && KeyCount(ss + [e]) == KeyCount(ss) + 1
      && Kept(ss + [e]) == Kept(ss) + [e]
  {
    assert (ss + [e])[..|ss|] == ss;
  }

  /** What the loop computes from a row's cells is its scan. */
  lemma ScanByParts(row: Row, sigungu: string, bjdong: string, bun: string, ji: string)
    requires sigungu == Strip(Get(row, SigunguColumn)) && bjdong == Strip(Get(row, BjdongColumn))
    requires bun == Strip(Get(row, BunColumn))
    requires ji == if Strip(Get(row, JiColumn)) == [] then DefaultJi else Strip(Get(row, JiColumn))
    ensures Scan(row).row == row && Scan(row).ji == ji
    ensures Scan(row).key == if sigungu != [] && bjdong != [] && bun != []
                             then Some(AddressKey(sigungu, bjdong, bun, ji)) else None
  {
  }

  function RowsOf(ss: seq<Scanned>): (rows: seq<Row>)
    ensures |rows| == |ss|
    ensures forall i :: 0 <= i < |ss| ==> rows[i] == Output(ss[i])
  {
    seq(|ss|, i requires 0 <= i < |ss| => Output(ss[i]))
  }

  /** The addresses of the complete rows. */
  function CompleteKeys(rows: seq<Row>): set<AddressKey> {
    KeySet(ScanAll(rows))
  }

  /** How many rows are complete. */
  function CompleteCount(rows: seq<Row>): nat {
    KeyCount(ScanAll(rows))
  }

  /** Reference result: the first occurrence of every complete address, in
      input order, with its sub-lot normalised. */
  function FirstOccurrences(rows: seq<Row>): seq<Row> {
    RowsOf(Kept(ScanAll(rows)))
  }

  /** Of well-scanned entries, every kept one is well scanned and carries
      one of the scan's keys. */
  lemma KeptWellScanned(ss: seq<Scanned>)
    requires forall e :: e in ss ==> WellScanned(e)
    ensures forall i :: 0 <= i < |Kept(ss)| ==>
              Kept(ss)[i].key.Some? && WellScanned(Kept(ss)[i]) && Kept(ss)[i].key.value in KeySet(ss)
  {
    var k := Kept(ss);
    KeptFromScan(ss);
    forall i | 0 <= i < |k|
      ensures k[i].key.Some? && WellScanned(k[i]) && k[i].key.value in KeySet(ss)
    {
      var m :| 0 <= m < |ss| && ss[m] == k[i];
      KeySetMember(ss, m);
    }
  }

  /** Of well-scanned entries, the kept rows are complete and carry the
      scan's keys as their addresses. */
  lemma KeptRowsComplete(ss: seq<Scanned>, u: seq<Row>)
    requires forall e :: e in ss ==> WellScanned(e)
    requires u == RowsOf(Kept(ss))
    ensures forall i :: 0 <= i < |u| ==> Complete(u[i]) && AddressOf(u[i]) in KeySet(ss)
  {
    var k := Kept(ss);
    KeptWellScanned(ss);
    forall i | 0 <= i < |u|
      ensures Complete(u[i]) && AddressOf(u[i]) in KeySet(ss)
    {
      assert WellScanned(k[i]) && k[i].key.Some?;
    }
  }

  /** Of well-scanned entries, the kept rows have pairwise-distinct
      addresses. */
  lemma KeptRowsDistinct(ss: seq<Scanned>, u: seq<Row>)
    requires forall e :: e in ss ==> WellScanned(e)
    requires u == RowsOf(Kept(ss))
    ensures forall i, j :: 0 <= i < j < |u| ==> AddressOf(u[i]) != AddressOf(u[j])
  {
    var k := Kept(ss);
    KeptWellScanned(ss);
    KeptDistinct(ss);
    forall i, j | 0 <= i < j < |u|
      ensures AddressOf(u[i]) != AddressOf(u[j])
    {
      assert WellScanned(k[i]) && k[i].key.Some?;
      assert WellScanned(k[j]) && k[j].key.Some?;
    }
  }

  /** The kept rows are complete and their addresses are complete
      addresses of the input. */
  lemma FirstOccurrencesComplete(rows: seq<Row>)
    ensures var u := FirstOccurrences(rows);
            forall i :: 0 <= i < |u| ==> Complete(u[i]) && AddressOf(u[i]) in CompleteKeys(rows)
  {
    var ss := ScanAll(rows);
    ScanAllWellScanned(rows);
    KeptRowsComplete(ss, FirstOccurrences(rows));
  }

  /** The kept rows have pairwise-distinct addresses. */
  lemma FirstOccurrencesDistinct(rows: seq<Row>)
    ensures var u := FirstOccurrences(rows);
            forall i, j :: 0 <= i < j < |u| ==> AddressOf(u[i]) != AddressOf(u[j])
  {
    var ss := ScanAll(rows);
    ScanAllWellScanned(rows);
    KeptRowsDistinct(ss, FirstOccurrences(rows));
  }

  /** There is one kept row per complete address. */
  lemma FirstOccurrencesSize(rows: seq<Row>)
    ensures |FirstOccurrences(rows)| == |CompleteKeys(rows)|
  {
    KeptKeys(ScanAll(rows));
  }

  /** Every complete address has a kept row. */
  lemma FirstOccurrencesCover(rows: seq<Row>, key: AddressKey) returns (i: nat)
    requires key in CompleteKeys(rows)
    ensures i < |FirstOccurrences(rows)| && AddressOf(FirstOccurrences(rows)[i]) == key
  {
    var ss := ScanAll(rows);
    var k := Kept(ss);
    KeptKeys(ss);
    KeptFromScan(ss);
    i := KeySetWitness(k, key);
    ScanAllWellScanned(rows);
    assert WellScanned(k[i]);
  }

  lemma RowsOfAppend(ss: seq<Scanned>, s: Scanned)
    ensures RowsOf(ss + [s]) == RowsOf(ss) + [Output(s)]
  {
    assert RowsOf(ss + [s])[|ss|] == Output(s);
  }

  /** The per-row part of the loop (lines 61–75): strip the four key
      cells, default a blank sub-lot and write it back; the row takes part
      in deduplication only when district, neighbourhood and main lot are
      all non-blank. */
  method CleanRow(row: Row) returns (e: Scanned)
    ensures e == Scan(row)
  {
    var sigungu := Strip(Get(row, SigunguColumn));
    var bjdong := Strip(Get(row, BjdongColumn));
    var bun := Strip(Get(row, BunColumn));
    var ji := Strip(Get(row, JiColumn));
    if ji == [] {
      ji := DefaultJi;
    }
    ScanByParts(row, sigungu, bjdong, bun, ji);
    if sigungu != [] && bjdong != [] && bun != [] {
      e := Scanned(Some(AddressKey(sigungu, bjdong, bun, ji)), row, ji);
    } else {
      e := Scanned(None, row, ji);
    }
  }

  /** The loop's state after a prefix `ss` of the scan: the seen set, the
      kept rows and the duplicate count agree with the reference. */
  predicate DedupState(ss: seq<Scanned>, seen: set<AddressKey>, unique: seq<Row>, duplicateCount: nat) {
    seen == KeySet(ss) && unique == RowsOf(Kept(ss)) && |Kept(ss)| + duplicateCount == KeyCount(ss)
  }

  /** One loop iteration keeps the state in step with the reference. */
  lemma DedupStep(ss: seq<Scanned>, e: Scanned, seen: set<AddressKey>, unique: seq<Row>, duplicateCount: nat)
    requires DedupState(ss, seen, unique, duplicateCount)
    ensures e.key.None? ==> DedupState(ss + [e], seen, unique, duplicateCount)
    ensures e.key.Some? && e.key.value in seen ==> DedupState(ss + [e], seen, unique, duplicateCount + 1)
    ensures e.key.Some? && e.key.value !in seen ==>
      DedupState(ss + [e], seen + {e.key.value}, unique + [Output(e)], duplicateCount)
  {
    AppendStep(ss, e);
    RowsOfAppend(Kept(ss), e);
  }

  /** The cleaning half of the loop (lines 59–75) over every row: one
      scanned entry per row, in input order. */
  method ScanRows(rows: seq<Row>) returns (entries: seq<Scanned>)
    ensures entries == ScanAll(rows)
  {
    entries := [];
    var i := 0;
    while i < |rows|
      invariant 0 <= i <= |rows|
      invariant entries == ScanAll(rows[..i])
    {
      var e := CleanRow(rows[i]);
      ScanAllStep(rows, i, entries, e);
      entries := entries + [e];
      i := i + 1;
    }
    assert rows[..|rows|] == rows;
  }

  /** The bookkeeping half of the loop (lines 77–86): skip entries without
      a key, count repeated keys, keep the first row for every new key. */
  method KeepFirst(entries: seq<Scanned>) returns (unique: seq<Row>, duplicateCount: nat)
    ensures unique == RowsOf(Kept(entries))
    ensures |Kept(entries)| + duplicateCount == KeyCount(entries)
  {
    var seen: set<AddressKey> := {};
    unique := [];
    duplicateCount := 0;
    var i := 0;
    while i < |entries|
      invariant 0 <= i <= |entries|
      invariant DedupState(entries[..i], seen, unique, duplicateCount)
    {
      var e := entries[i];
      assert entries[..i + 1] == entries[..i] + [e];
      DedupStep(entries[..i], e, seen, unique, duplicateCount);
      if e.key.Some? {
        if e.key.value in seen {
          duplicateCount := duplicateCount + 1;
        } else {
          seen := seen + {e.key.value};
          unique := unique + [Output(e)];
        }
      }
      i := i + 1;
    }
    assert entries[..|entries|] == entries;
  }

  /** The deduplication loop (lines 59–86): returns the kept rows and the
      duplicate count. Kept rows are exactly the reference first
      occurrences; duplicates are the complete rows that were not kept, so
      incomplete rows count as neither. */
  method Deduplicate(rows: seq<Row>) returns (unique: seq<Row>, duplicateCount: nat)
    ensures unique == FirstOccurrences(rows)
    ensures |unique| + duplicateCount == CompleteCount(rows)
    ensures forall i :: 0 <= i < |unique| ==> Complete(unique[i])
    ensures forall i, j :: 0 <= i < j < |unique| ==> AddressOf(unique[i]) != AddressOf(unique[j])
    ensures |unique| == |CompleteKeys(rows)|
  {
    var entries := ScanRows(rows);
    unique, duplicateCount := KeepFirst(entries);
    FirstOccurrencesComplete(rows);
    FirstOccurrencesDistinct(rows);
    FirstOccurrencesSize(rows);
  }

  /** Of two entries with the same key only the first is kept. */
  lemma RepeatedKeyDropped(e1: Scanned, e2: Scanned)
    requires e1.key.Some? && e2.key == e1.key
    ensures Kept([e1, e2]) == [e1]
  {
    AppendStep([], e1);
    AppendStep([e1], e2);
    assert [e1] + [e2] == [e1, e2];
  }

  /** Rows with the same address scan to the same key. */
  lemma SameAddressSameKey(a: Row, b: Row)
    requires AddressOf(a) == AddressOf(b)
    ensures Scan(a).key == Scan(b).key
  {
  }

  /** Of two complete rows with the same address only the first is kept,
      normalised. */
  lemma RepeatedAddressDropped(a: Row, b: Row)
    requires Complete(a) && AddressOf(a) == AddressOf(b)
    ensures FirstOccurrences([a, b]) == [NormalizeRow(a)]
  {
    var sa, sb := Scan(a), Scan(b);
    SameAddressSameKey(a, b);
    ScanAgreesWithRow(a);
    ScanAllPair(a, b);
    RepeatedKeyDropped(sa, sb);
    RowsOfAppend([], sa);
    assert RowsOf([sa]) == [Output(sa)];
  }

  lemma ScanAllPair(a: Row, b: Row)
    ensures ScanAll([a, b]) == [Scan(a), Scan(b)]
  {
    assert [a, b][..1] == [a];
    assert [a][..0] == [];
  }

  /** A repeated address with a blank sub-lot is dropped in favour of the
      earlier "0000" row. */
  lemma BlankJiRowIsDuplicate(row: Row, blank: string)
    requires Complete(row[JiColumn := DefaultJi]) && Strip(blank) == []
    ensures FirstOccurrences([row[JiColumn := DefaultJi], row[JiColumn := blank]])
            == [NormalizeRow(row[JiColumn := DefaultJi])]
  {
    BlankJiMatchesDefault(row, blank);
    RepeatedAddressDropped(row[JiColumn := DefaultJi], row[JiColumn := blank]);
  }

  // ---------------------------------------------------------------------
  // Judging and bucketing
  // ---------------------------------------------------------------------

  const UnknownDescription: string := "알 수 없음"

  /** The meaning of each code 0–4. */
  const Descriptions: seq<string> := [
    "에어비앤비 부적합",
    "에어비앤비 적합 가능성 낮음",
    "에어비앤비 적합 가능성 있음",
    "에어비앤비 적합 가능성 높음",
    "에어비앤비 적합 판단 보류"
  ]

  /** `get_result_description`. */
  function GetResultDescription(code: int): (d: string)
    ensures 0 <= code < 5 ==> d == Descriptions[code]
    ensures !(0 <= code < 5) ==> d == UnknownDescription
  {
    if 0 <= code < 5 then Descriptions[code] else UnknownDescription
  }

  /** The five descriptions are distinct and none is the fallback, so a
      description identifies its code. */
  lemma DescriptionIdentifiesCode(a: int, b: int)
    requires 0 <= a < 5 && 0 <= b < 5
    ensures GetResultDescription(a) == GetResultDescription(b) <==> a == b
    ensures GetResultDescription(a) != UnknownDescription
  {
    assert forall i, j :: 0 <= i < j < 5 ==> Descriptions[i] != Descriptions[j] by {
      assert forall i :: 1 <= i < 5 ==> Descriptions[0][6] != Descriptions[i][6];
      assert forall i :: 1 <= i < 4 ==> Descriptions[i][9] != Descriptions[4][9];
      assert Descriptions[1][13] != Descriptions[2][13] && Descriptions[1][13] != Descriptions[3][13];
      assert Descriptions[2][13] != Descriptions[3][13];
    }
    assert Descriptions[a][0] != UnknownDescription[0];
  }

  /** An output row: the input row with code and meaning added. */
  function Tag(row: Row, code: int, meaning: string): (r: Row)
    ensures CodeColumn in r && r[CodeColumn] == IntToString(code)
    ensures MeaningColumn in r && r[MeaningColumn] == meaning
    ensures forall c :: c != CodeColumn && c != MeaningColumn ==> (c in r <==> c in row)
    ensures forall c :: c != CodeColumn && c != MeaningColumn && c in row ==> r[c] == row[c]
  {
    ColumnsDistinct();
    row[CodeColumn := IntToString(code)][MeaningColumn := meaning]
  }

  /** A judged row: its bucket and the output row filed there. */
  datatype Judged = Judged(bucket: int, output: Row)

  /** The body of the bucketing loop (lines 97–137): the checker is called
      with the row's raw district, neighbourhood and main lot and its
      normalised sub-lot; a code outside 0–4 becomes 4; an exception files
      the row under 4 with "Error: " and the message. */
  function Judge(row: Row, check: (string, string, string, string) -> Result<int, Error>): (j: Judged)
    ensures 0 <= j.bucket < 5
    ensures CodeColumn in j.output && MeaningColumn in j.output
    ensures j.output[CodeColumn] == IntToString(j.bucket)
    ensures var r := check(Get(row, SigunguColumn), Get(row, BjdongColumn), Get(row, BunColumn), Get(row, JiColumn));
            r.Success? ==> j.bucket == (if 0 <= r.value < 5 then r.value else 4)
    ensures check(Get(row, SigunguColumn), Get(row, BjdongColumn), Get(row, BunColumn), Get(row, JiColumn)).Failure? ==>
              j.bucket == 4 && j.output[MeaningColumn] == "Error: " + check(Get(row, SigunguColumn), Get(row, BjdongColumn), Get(row, BunColumn), Get(row, JiColumn)).error.message
    ensures check(Get(row, SigunguColumn), Get(row, BjdongColumn), Get(row, BunColumn), Get(row, JiColumn)).Success? ==>
              j.output[MeaningColumn] == GetResultDescription(j.bucket)
    ensures forall c :: c != CodeColumn && c != MeaningColumn ==> (c in j.output <==> c in row)
    ensures forall c :: c != CodeColumn && c != MeaningColumn && c in row ==> j.output[c] == row[c]
  {
    var r := check(Get(row, SigunguColumn), Get(row, BjdongColumn), Get(row, BunColumn), Get(row, JiColumn));
    match r
    case Success(c) =>
      var code := if 0 <= c < 5 then c else 4;
      Judged(code, Tag(row, code, GetResultDescription(code)))
    case Failure(e) =>
      Judged(4, Tag(row, 4, "Error: " + e.message))
  }

  /** Whether the checker answered for the row (`total_processed`). */
  predicate Answered(row: Row, check: (string, string, string, string) -> Result<int, Error>) {
    check(Get(row, SigunguColumn), Get(row, BjdongColumn), Get(row, BunColumn), Get(row, JiColumn)).Success?
  }

  /** Reference bucket: the output rows filed under `b`, in input order. */
  function Bucket(rows: seq<Row>, check: (string, string, string, string) -> Result<int, Error>, b: int): seq<Row> {
    if |rows| == 0 then []
    else
      var j := Judge(rows[|rows| - 1], check);
      Bucket(rows[..|rows| - 1], check, b) + (if j.bucket == b then [j.output] else [])
  }

  /** Reference count of answered rows. */
  function AnsweredCount(rows: seq<Row>, check: (string, string, string, string) -> Result<int, Error>): nat {
    if |rows| == 0 then 0
    else AnsweredCount(rows[..|rows| - 1], check) + (if Answered(rows[|rows| - 1], check) then 1 else 0)
  }

  function BucketSizes(rows: seq<Row>, check: (string, string, string, string) -> Result<int, Error>): nat {
    |Bucket(rows, check, 0)| + |Bucket(rows, check, 1)| + |Bucket(rows, check, 2)|
    + |Bucket(rows, check, 3)| + |Bucket(rows, check, 4)|
  }

  /** Every row is filed in exactly one bucket: the bucket sizes add up to
      the number of rows. */
  lemma {:induction false} BucketsPartition(rows: seq<Row>, check: (string, string, string, string) -> Result<int, Error>)
    ensures BucketSizes(rows, check) == |rows|
    ensures forall b :: !(0 <= b < 5) ==> Bucket(rows, check, b) == []
  {
    if |rows| > 0 {
      BucketsPartition(rows[..|rows| - 1], check);
    }
  }

  /** The bucketing loop: files every kept row, counts each bucket
      (`stats`) and the rows the checker answered (`total_processed`). */
  method ProcessRows(unique: seq<Row>, check: (string, string, string, string) -> Result<int, Error>)
    returns (buckets: seq<seq<Row>>, stats: seq<nat>, totalProcessed: nat)
    ensures |buckets| == 5 && |stats| == 5
    ensures forall b :: 0 <= b < 5 ==> buckets[b] == Bucket(unique, check, b) && stats[b] == |buckets[b]|
    ensures stats[0] + stats[1] + stats[2] + stats[3] + stats[4] == |unique|
    ensures totalProcessed == AnsweredCount(unique, check)
  {
    buckets := [[], [], [], [], []];
    stats := [0, 0, 0, 0, 0];
    totalProcessed := 0;
    var i := 0;
    while i < |unique|
      invariant 0 <= i <= |unique|
      invariant |buckets| == 5 && |stats| == 5
      invariant forall b :: 0 <= b < 5 ==> buckets[b] == Bucket(unique[..i], check, b) && stats[b] == |buckets[b]|
      invariant totalProcessed == AnsweredCount(unique[..i], check)
    {
      var row := unique[i];
      var j := Judge(row, check);
      assert unique[..i + 1][..i] == unique[..i];
      buckets := buckets[j.bucket := buckets[j.bucket] + [j.output]];
      stats := stats[j.bucket := stats[j.bucket] + 1];
      if Answered(row, check) {
        totalProcessed := totalProcessed + 1;
      }
      i := i + 1;
    }
    assert unique[..|unique|] == unique;
    BucketsPartition(unique, check);
  }

  /** The checker the batch runs: reinforced concrete not required, unit
      rows requested, each address answered by `registry` with its title
      fetch and unit fetch outcomes. */
  function EngineCheck(registry: (string, string, string, string) -> (Result<seq<TitleRec>, Error>, Result<seq<UnitRow>, Error>)):
    (string, string, string, string) -> Result<int, Error>
  {
    (s: string, b: string, n: string, j: string) =>
      var fetched := registry(s, b, n, j);
      Run(fetched.0, Some(fetched.1), false)
  }

  /** With the real engine no code is ever coerced: each answered row is
      filed under the code `run` returned. */
  lemma EngineCodesNeedNoCoercion(row: Row, registry: (string, string, string, string) -> (Result<seq<TitleRec>, Error>, Result<seq<UnitRow>, Error>))
    ensures var r := EngineCheck(registry)(Get(row, SigunguColumn), Get(row, BjdongColumn), Get(row, BunColumn), Get(row, JiColumn));
            r.Success? ==> Judge(row, EngineCheck(registry)).bucket == r.value
  {
    var args := (Get(row, SigunguColumn), Get(row, BjdongColumn), Get(row, BunColumn), Get(row, JiColumn));
    var fetched := registry(args.0, args.1, args.2, args.3);
    assert EngineCheck(registry)(args.0, args.1, args.2, args.3) == Run(fetched.0, Some(fetched.1), false);
  }

  /** The batch checker with the grading corrected. */
  function CorrectedEngineCheck(registry: (string, string, string, string) -> (Result<seq<TitleRec>, Error>, Result<seq<UnitRow>, Error>)):
    (string, string, string, string) -> Result<int, Error>
  {
    (s: string, b: string, n: string, j: string) =>
      var fetched := registry(s, b, n, j);
      RunCorrected(fetched.0, Some(fetched.1), false)
  }

  /** With the corrected grading a row is filed as an error only when a
      registry fetch failed, and every row the engine as written answers
      is judged exactly as before. */
  lemma CorrectedEngineJudgesAlike(row: Row, registry: (string, string, string, string) -> (Result<seq<TitleRec>, Error>, Result<seq<UnitRow>, Error>))
    ensures var fetched := registry(Get(row, SigunguColumn), Get(row, BjdongColumn), Get(row, BunColumn), Get(row, JiColumn));
            !Answered(row, CorrectedEngineCheck(registry)) ==> fetched.0.Failure? || fetched.1.Failure?
    ensures Answered(row, EngineCheck(registry)) ==> Judge(row, CorrectedEngineCheck(registry)) == Judge(row, EngineCheck(registry))
  {
    var args := (Get(row, SigunguColumn), Get(row, BjdongColumn), Get(row, BunColumn), Get(row, JiColumn));
    var fetched := registry(args.0, args.1, args.2, args.3);
    assert EngineCheck(registry)(args.0, args.1, args.2, args.3) == Run(fetched.0, Some(fetched.1), false);
    assert CorrectedEngineCheck(registry)(args.0, args.1, args.2, args.3) == RunCorrected(fetched.0, Some(fetched.1), false);
    RunCorrectedAgrees(fetched.0, Some(fetched.1), false);
  }
}
