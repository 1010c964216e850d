/**
 * The Integrated Values Survey builder: wave filtering of the WVS and EVS
 * extracts, their merge sorted by respondent id, and the validation report.
 *
 * A table is its column names plus its rows; a row keeps the four cells the
 * builder reads. `wave` is the value of the source's own wave column (`s002`
 * in WVS, `S002EVS` in EVS); the other three are `S007_01` (respondent id),
 * `S024` (country * 10 + wave) and `S001` (1 = EVS, 2 = WVS), None where the
 * cell is missing.
 */
module DataLoader {
  import opened Wrappers
  import opened Sequences

  const WvsWaveColumn: string := "s002"
  const EvsWaveColumn: string := "S002EVS"
  const MergeKey: string := "S007_01"
  const CountryWaveColumn: string := "S024"
  const SourceColumn: string := "S001"

  /** Inclusive bounds of the country-count check. */
  const MinCountries: int := 100
  const MaxCountries: int := 120

  /** `S001` codes of the two surveys. */
  const EvsCode: int := 1
  const WvsCode: int := 2

  datatype Row = Row(wave: int, id: Option<int>, s024: Option<int>, s001: Option<int>)

  datatype Table = Table(columns: seq<string>, rows: seq<Row>)

  datatype SchemaError =
    | MissingWaveColumn(column: string)  // ValueError of a loader
    | MissingMergeKey                    // ValueError of the merge guard
    | MissingColumn(column: string)      // KeyError of a column lookup

  // ---------------------------------------------------------------------------
  // Wave filter (`df[df[wave].isin(waves)].copy()`)
  // ---------------------------------------------------------------------------

  /** The rows whose wave is one of `waves`, in source order. */
  function FilterWaves(rows: seq<Row>, waves: seq<int>): (r: seq<Row>)
    ensures |r| <= |rows|
    ensures forall i :: 0 <= i < |r| ==> r[i].wave in waves
  {
    if rows == [] then []
    else
      var kept := FilterWaves(rows[..|rows| - 1], waves);
      var last := rows[|rows| - 1];
      if last.wave in waves then kept + [last] else kept
  }

  /** Every row occurs in the filtered table exactly as often as in the source if its wave is requested, and not at all otherwise. */
  lemma {:induction false} FilterWavesMultiplicity(rows: seq<Row>, waves: seq<int>, x: Row)
    ensures multiset(FilterWaves(rows, waves))[x] == if x.wave in waves then multiset(rows)[x] else 0
  {
    if rows != [] {
      var pre := rows[..|rows| - 1];
      FilterWavesMultiplicity(pre, waves, x);
      assert rows == pre + [rows[|rows| - 1]];
    }
  }

  /** Filtering only deletes rows: the result keeps the source order. */
  lemma {:induction false} FilterWavesSubsequence(rows: seq<Row>, waves: seq<int>)
    ensures IsSubsequence(FilterWaves(rows, waves), rows)
  {
    if rows != [] {
      var pre := rows[..|rows| - 1];
      var last := rows[|rows| - 1];
      FilterWavesSubsequence(pre, waves);
      var r := FilterWaves(rows, waves);
      if last.wave in waves {
        assert r[..|r| - 1] == FilterWaves(pre, waves);
      }
    }
  }

  /** A source row is kept if and only if its wave is requested. */
  lemma FilterWavesMembership(rows: seq<Row>, waves: seq<int>, x: Row)
    ensures x in FilterWaves(rows, waves) <==> x in rows && x.wave in waves
  {
    FilterWavesMultiplicity(rows, waves, x);
    assert x in FilterWaves(rows, waves) <==> x in multiset(FilterWaves(rows, waves));
    assert x in rows <==> x in multiset(rows);
  }

  /** The shared loader: guard on the wave column, then filter; the columns are unchanged. */
  function LoadWaves(raw: Table, waveColumn: string, waves: seq<int>): (r: Result<Table, SchemaError>)
    ensures r.Failure? <==> waveColumn !in raw.columns
    ensures r.Failure? ==> r.error == MissingWaveColumn(waveColumn)
    ensures r.Success? ==> r.value.columns == raw.columns
    ensures r.Success? ==> IsSubsequence(r.value.rows, raw.rows)
    ensures r.Success? ==> forall x :: x in r.value.rows <==> x in raw.rows && x.wave in waves
    ensures r.Success? ==> r.value.rows == FilterWaves(raw.rows, waves)
  {
    if waveColumn !in raw.columns then Failure(MissingWaveColumn(waveColumn))
    else
      FilterWavesSubsequence(raw.rows, waves);
      assert forall x :: x in FilterWaves(raw.rows, waves) <==> x in raw.rows && x.wave in waves by {
        forall x ensures x in FilterWaves(raw.rows, waves) <==> x in raw.rows && x.wave in waves {
          FilterWavesMembership(raw.rows, waves, x);
        }
      }
      Success(Table(raw.columns, FilterWaves(raw.rows, waves)))
  }

  // ---------------------------------------------------------------------------
  // Merge (`pd.concat([evs, wvs])` then `sort_values("S007_01")`)
  // ---------------------------------------------------------------------------

  /** Column set of the concatenation: the columns of `a`, then those of `b` not yet present. */
  function ColumnUnion(a: seq<string>, b: seq<string>): (r: seq<string>)
    ensures forall c :: c in r <==> c in a || c in b
    ensures |a| <= |r| && r[..|a|] == a
  {
    if b == [] then a
    else
      var u := ColumnUnion(a, b[..|b| - 1]);
      var c := b[|b| - 1];
      if c in u then u else u + [c]
  }

  /** pandas' ascending order on the key, with missing ids placed last. */
  predicate IdLe(x: Option<int>, y: Option<int>)
  {
    y.None? || (x.Some? && x.value <= y.value)
  }

  predicate SortedById(s: seq<Row>)
  {
    forall p, q :: 0 <= p < q < |s| ==> IdLe(s[p].id, s[q].id)
  }

  /** Sorted by id and a permutation of the input (stability is not promised). */
  method SortById(a: array<Row>)
    modifies a
    ensures SortedById(a[..])
    ensures multiset(a[..]) == multiset(old(a[..]))
  {
    var i := 0;
    while i < a.Length
      invariant 0 <= i <= a.Length
      invariant forall p, q :: 0 <= p < q < i ==> IdLe(a[p].id, a[q].id)
      invariant multiset(a[..]) == multiset(old(a[..]))
    {
      var j := i;
      while 0 < j && !IdLe(a[j - 1].id, a[j].id)
        invariant 0 <= j <= i
        invariant forall p, q :: 0 <= p < q <= i && p != j && q != j ==> IdLe(a[p].id, a[q].id)
        invariant forall q :: j < q <= i ==> IdLe(a[j].id, a[q].id)
        invariant multiset(a[..]) == multiset(old(a[..]))
      {
        a[j - 1], a[j] := a[j], a[j - 1];
        j := j - 1;
      }
      i := i + 1;
    }
  }

  /** `ivs` is a merge of the two inputs: their column union, all their rows, sorted by id. */
  ghost predicate IsMergeOf(wvs: Table, evs: Table, ivs: Table)
  {
    && ivs.columns == ColumnUnion(evs.columns, wvs.columns)
    && multiset(ivs.rows) == multiset(evs.rows + wvs.rows)
    && SortedById(ivs.rows)
  }

  /**
   * The merge step: both inputs must carry the key; the merged table holds
   * every row of both, sorted by id. Its `S001` breakdown is looked up, so
   * the merge also fails when neither input has that column.
   */
  method Merge(wvs: Table, evs: Table) returns (r: Result<Table, SchemaError>)
    ensures !(MergeKey in wvs.columns && MergeKey in evs.columns) ==> r == Failure(MissingMergeKey)
    ensures MergeKey in wvs.columns && MergeKey in evs.columns &&
            SourceColumn !in wvs.columns && SourceColumn !in evs.columns ==>
            r == Failure(MissingColumn(SourceColumn))
    ensures r.Success? <==>
            MergeKey in wvs.columns && MergeKey in evs.columns &&
            (SourceColumn in wvs.columns || SourceColumn in evs.columns)
    ensures r.Success? ==> IsMergeOf(wvs, evs, r.value)
    ensures r.Success? ==> |r.value.rows| == |evs.rows| + |wvs.rows|
    ensures r.Success? ==> SortedById(r.value.rows)
  {
    if MergeKey !in wvs.columns || MergeKey !in evs.columns {
      return Failure(MissingMergeKey);
    }
    var columns := ColumnUnion(evs.columns, wvs.columns);
    var all := evs.rows + wvs.rows;
    var a := new Row[|all|](i requires 0 <= i < |all| => all[i]);
    assert a[..] == all;
    SortById(a);
    if SourceColumn !in columns {
      return Failure(MissingColumn(SourceColumn));
    }
    assert |multiset(a[..])| == |multiset(all)|;
    r := Success(Table(columns, a[..]));
  }

  /** Rows whose id is `x`. */
  function IdCount(rows: seq<Row>, x: Option<int>): nat
  {
    if rows == [] then 0
    else IdCount(rows[..|rows| - 1], x) + (if rows[|rows| - 1].id == x then 1 else 0)
  }

  lemma {:induction false} IdCountConcat(a: seq<Row>, b: seq<Row>, x: Option<int>)
    ensures IdCount(a + b, x) == IdCount(a, x) + IdCount(b, x)
    decreases |b|
  {
    if b == [] {
      assert a + b == a;
    } else {
      var b' := b[..|b| - 1];
      assert (a + b)[..|a + b| - 1] == a + b';
      IdCountConcat(a, b', x);
    }
  }

  /** Reordering rows does not change how often an id occurs. */
  lemma {:induction false} IdCountPermutation(s: seq<Row>, t: seq<Row>, x: Option<int>)
    requires multiset(s) == multiset(t)
    ensures IdCount(s, x) == IdCount(t, x)
    decreases |t|
  {
    if t == [] {
      assert |s| == |multiset(s)| == 0;
    } else {
      var y := t[|t| - 1];
      var t' := t[..|t| - 1];
      assert t == t' + [y];
      assert y in multiset(s);
      var i :| 0 <= i < |s| && s[i] == y;
      var s' := s[..i] + s[i + 1..];
      RemoveAt(s, i);
      assert multiset(t) == multiset(t') + multiset{y};
      calc {
        multiset(s');
        (multiset(s') + multiset{y}) - multiset{y};
        (multiset(t') + multiset{y}) - multiset{y};
        multiset(t');
      }
      IdCountPermutation(s', t', x);
      IdCountRemove(s, i, x);
    }
  }

  lemma RemoveAt(s: seq<Row>, i: nat)
    requires i < |s|
    ensures multiset(s) == multiset(s[..i] + s[i + 1..]) + multiset{s[i]}
  {
    assert s == s[..i] + [s[i]] + s[i + 1..];
  }

  lemma IdCountRemove(s: seq<Row>, i: nat, x: Option<int>)
    requires i < |s|
    ensures IdCount(s, x) == IdCount(s[..i] + s[i + 1..], x) + (if s[i].id == x then 1 else 0)
  {
    assert s == s[..i] + [s[i]] + s[i + 1..];
    IdCountConcat(s[..i], s[i + 1..], x);
    IdCountConcat(s[..i] + [s[i]], s[i + 1..], x);
    IdCountConcat(s[..i], [s[i]], x);
    assert [s[i]][..0] == [];
  }

  /** Merge completeness: each id occurs in the merge as often as in both inputs combined. */
  lemma MergeIdCounts(wvs: Table, evs: Table, ivs: Table, x: Option<int>)
    requires IsMergeOf(wvs, evs, ivs)
    ensures |ivs.rows| == |evs.rows| + |wvs.rows|
    ensures IdCount(ivs.rows, x) == IdCount(evs.rows, x) + IdCount(wvs.rows, x)
  {
    assert |multiset(ivs.rows)| == |multiset(evs.rows + wvs.rows)|;
    IdCountPermutation(ivs.rows, evs.rows + wvs.rows, x);
    IdCountConcat(evs.rows, wvs.rows, x);
  }

  // ---------------------------------------------------------------------------
  // Validation (`_validate`)
  // ---------------------------------------------------------------------------

  /** Distinct ids of the rows (a missing id counts as one value, as `duplicated` treats NaNs alike). */
  function IdSet(rows: seq<Row>): set<Option<int>>
  {
    if rows == [] then {} else IdSet(rows[..|rows| - 1]) + {rows[|rows| - 1].id}
  }

  lemma {:induction false} IdSetMember(rows: seq<Row>, x: Option<int>)
    ensures x in IdSet(rows) <==> exists i :: 0 <= i < |rows| && rows[i].id == x
  {
    if rows != [] {
      var pre := rows[..|rows| - 1];
      IdSetMember(pre, x);
      assert forall i :: 0 <= i < |pre| ==> pre[i] == rows[i];
    }
  }

  /** `duplicated().sum()`: rows whose id already occurred at an earlier position. */
  function DuplicateCount(rows: seq<Row>): (r: nat)
    ensures r + |IdSet(rows)| == |rows|
  {
    if rows == [] then 0
    else
      var pre := rows[..|rows| - 1];
      var x := rows[|rows| - 1].id;
      assert IdSet(rows) == IdSet(pre) + {x};
      assert x in IdSet(pre) ==> IdSet(rows) == IdSet(pre);
      assert x !in IdSet(pre) ==> |IdSet(rows)| == |IdSet(pre)| + 1;
      DuplicateCount(pre) + (if x in IdSet(pre) then 1 else 0)
  }

  ghost predicate DistinctIds(rows: seq<Row>)
  {
    forall p, q :: 0 <= p < q < |rows| ==> rows[p].id != rows[q].id
  }

  /** The duplicate check passes exactly when no two rows share an id. */
  lemma {:induction false} DuplicatesZeroIffDistinct(rows: seq<Row>)
    ensures DuplicateCount(rows) == 0 <==> DistinctIds(rows)
  {
    if rows != [] {
      var pre := rows[..|rows| - 1];
      var last := rows[|rows| - 1];
      DuplicatesZeroIffDistinct(pre);
      IdSetMember(pre, last.id);
      assert forall i :: 0 <= i < |pre| ==> pre[i] == rows[i];
      if DistinctIds(rows) {
        assert DistinctIds(pre);
        assert last.id !in IdSet(pre);
      }
      if DuplicateCount(rows) == 0 {
        assert last.id !in IdSet(pre);
        forall p, q | 0 <= p < q < |rows| ensures rows[p].id != rows[q].id {
          if q < |pre| {
            assert pre[p] == rows[p] && pre[q] == rows[q];
          }
        }
      }
    }
  }

  /** Reordering rows leaves the set of ids unchanged. */
  lemma IdSetPermutation(s: seq<Row>, t: seq<Row>)
    requires multiset(s) == multiset(t)
    ensures IdSet(s) == IdSet(t)
  {
    forall x | x in IdSet(s) ensures x in IdSet(t) {
      IdSetMember(s, x);
      IdSetMember(t, x);
      var i :| 0 <= i < |s| && s[i].id == x;
      assert s[i] in multiset(t);
      var j :| 0 <= j < |t| && t[j] == s[i];
    }
    forall x | x in IdSet(t) ensures x in IdSet(s) {
      IdSetMember(s, x);
      IdSetMember(t, x);
      var j :| 0 <= j < |t| && t[j].id == x;
      assert t[j] in multiset(s);
      var i :| 0 <= i < |s| && s[i] == t[j];
    }
  }

  /** The duplicate count does not depend on the order of the rows, so not on the sort. */
  lemma DuplicateCountPermutation(s: seq<Row>, t: seq<Row>)
    requires multiset(s) == multiset(t)
    ensures DuplicateCount(s) == DuplicateCount(t)
  {
    IdSetPermutation(s, t);
    assert |s| == |multiset(s)| == |multiset(t)| == |t|;
  }

  /** One extra copy of one id in an otherwise duplicate-free table, wherever the sort puts it, counts exactly 1. */
  lemma OneExtraCopy(s: seq<Row>, k: nat, extra: Row, t: seq<Row>)
    requires DistinctIds(s)
    requires k < |s| && extra.id == s[k].id
    requires multiset(t) == multiset(s + [extra])
    ensures DuplicateCount(t) == 1
  {
    DuplicatesZeroIffDistinct(s);
    DuplicateCountPermutation(t, s + [extra]);
    assert (s + [extra])[..|s|] == s;
    IdSetMember(s, extra.id);
  }

  /** `S024 // 10`: Python's floor division, which for the divisor 10 is Dafny's `/`. */
  function CountryOf(code: int): (c: int)
    ensures 10 * c <= code < 10 * c + 10
  {
    code / 10
  }

  /** Distinct present `S024` values (`nunique` skips NaN). */
  function CountryWaveSet(rows: seq<Row>): set<int>
  {
    if rows == [] then {}
    else
      var last := rows[|rows| - 1];
      CountryWaveSet(rows[..|rows| - 1]) + (if last.s024.Some? then {last.s024.value} else {})
  }

  lemma {:induction false} CountryWaveSetMember(rows: seq<Row>, v: int)
    ensures v in CountryWaveSet(rows) <==> exists i :: 0 <= i < |rows| && rows[i].s024 == Some(v)
  {
    if rows != [] {
      var pre := rows[..|rows| - 1];
      CountryWaveSetMember(pre, v);
      assert forall i :: 0 <= i < |pre| ==> pre[i] == rows[i];
    }
  }

  /** Distinct countries: the distinct `S024 // 10` values of present codes. */
  function CountrySet(rows: seq<Row>): set<int>
  {
    if rows == [] then {}
    else
      var last := rows[|rows| - 1];
      CountrySet(rows[..|rows| - 1]) + (if last.s024.Some? then {CountryOf(last.s024.value)} else {})
  }

  /** A country is counted exactly when some row's present `S024` code belongs to it. */
  lemma {:induction false} CountrySetMember(rows: seq<Row>, c: int)
    ensures c in CountrySet(rows) <==> exists i :: 0 <= i < |rows| && rows[i].s024.Some? && CountryOf(rows[i].s024.value) == c
  {
    if rows != [] {
      var pre := rows[..|rows| - 1];
      CountrySetMember(pre, c);
      assert forall i :: 0 <= i < |pre| ==> pre[i] == rows[i];
    }
  }

  lemma {:induction false} CountryOfCounted(rows: seq<Row>, v: int)
    requires v in CountryWaveSet(rows)
    ensures CountryOf(v) in CountrySet(rows)
  {
    var pre := rows[..|rows| - 1];
    if v in CountryWaveSet(pre) {
      CountryOfCounted(pre, v);
    }
  }

  /** There are never more countries than country-wave codes. */
  lemma {:induction false} CountryCountBound(rows: seq<Row>)
    ensures |CountrySet(rows)| <= |CountryWaveSet(rows)|
  {
    if rows != [] {
      var pre := rows[..|rows| - 1];
      var last := rows[|rows| - 1];
      CountryCountBound(pre);
      if last.s024.Some? {
        var v := last.s024.value;
        if v in CountryWaveSet(pre) {
          CountryOfCounted(pre, v);
          assert CountrySet(rows) == CountrySet(pre);
          assert CountryWaveSet(rows) == CountryWaveSet(pre);
        } else {
          assert |CountryWaveSet(rows)| == |CountryWaveSet(pre)| + 1;
          assert |CountrySet(rows)| <= |CountrySet(pre)| + 1;
        }
      }
    }
  }

  /** `(S001 == code).sum()` */
  function SourceCount(rows: seq<Row>, code: int): (r: nat)
    ensures r <= |rows|
  {
    if rows == [] then 0
    else SourceCount(rows[..|rows| - 1], code) + (if rows[|rows| - 1].s001 == Some(code) then 1 else 0)
  }

  /** Rows of two different surveys never outnumber the table. */
  lemma {:induction false} CompositionBound(rows: seq<Row>, c1: int, c2: int)
    requires c1 != c2
    ensures SourceCount(rows, c1) + SourceCount(rows, c2) <= |rows|
  {
    if rows != [] {
      CompositionBound(rows[..|rows| - 1], c1, c2);
    }
  }

  /** The key columns audited for missing values, in audit order. */
  datatype KeyColumn = RespondentId | CountryWave | SurveySource
  {
    function Name(): string
    {
      match this
      case RespondentId => MergeKey
      case CountryWave => CountryWaveColumn
      case SurveySource => SourceColumn
    }
  }

  const KeyColumns: seq<KeyColumn> := [RespondentId, CountryWave, SurveySource]

  function Cell(row: Row, c: KeyColumn): Option<int>
  {
    match c
    case RespondentId => row.id
    case CountryWave => row.s024
    case SurveySource => row.s001
  }

  /** `isna().sum()` of one key column. */
  function MissingCount(rows: seq<Row>, c: KeyColumn): (r: nat)
    ensures r <= |rows|
    ensures r == 0 <==> forall i :: 0 <= i < |rows| ==> Cell(rows[i], c).Some?
  {
    if rows == [] then 0
    else
      var pre := rows[..|rows| - 1];
      assert forall i :: 0 <= i < |pre| ==> pre[i] == rows[i];
      MissingCount(pre, c) + (if Cell(rows[|rows| - 1], c).None? then 1 else 0)
  }

  datatype MissingCheck = MissingCheck(column: string, count: nat, pass: bool)

  datatype ValidationReport = ValidationReport(
    duplicates: nat, duplicatesPass: bool,
    countryWaves: nat, countries: nat, countriesPass: bool,
    evsCount: nat, wvsCount: nat, total: nat,
    missing: seq<MissingCheck>)

  function Audit(rows: seq<Row>, c: KeyColumn): MissingCheck
  {
    var n := MissingCount(rows, c);
    MissingCheck(c.Name(), n, n == 0)
  }

  /** The missing-value loop: one check per key column, in audit order, passing iff no cell of that column is missing. */
  function MissingAudit(rows: seq<Row>): (r: seq<MissingCheck>)
    ensures |r| == |KeyColumns|
    ensures forall k :: 0 <= k < |KeyColumns| ==>
              && r[k].column == KeyColumns[k].Name()
              && r[k].count == MissingCount(rows, KeyColumns[k])
              && (r[k].pass <==> forall i :: 0 <= i < |rows| ==> Cell(rows[i], KeyColumns[k]).Some?)
  {
    [Audit(rows, RespondentId), Audit(rows, CountryWave), Audit(rows, SurveySource)]
  }

  /**
   * The checks of the validation report over the rows of a table that has
   * all three key columns. Nothing is raised for a failed check.
   */
  function Report(rows: seq<Row>): (r: ValidationReport)
    ensures r.duplicates == |rows| - |IdSet(rows)|
    ensures r.duplicatesPass <==> DistinctIds(rows)
    ensures r.countryWaves == |CountryWaveSet(rows)|
    ensures r.countries == |CountrySet(rows)| <= r.countryWaves
    ensures r.countriesPass <==> MinCountries <= r.countries <= MaxCountries
    ensures r.total == |rows|
    ensures r.evsCount == SourceCount(rows, EvsCode) && r.wvsCount == SourceCount(rows, WvsCode)
    ensures r.evsCount + r.wvsCount <= r.total
    ensures r.missing == MissingAudit(rows)
  {
    var duplicates := DuplicateCount(rows);
    var countries := |CountrySet(rows)|;
    DuplicatesZeroIffDistinct(rows);
    CountryCountBound(rows);
    CompositionBound(rows, EvsCode, WvsCode);
    ValidationReport(
      duplicates, duplicates == 0,
      |CountryWaveSet(rows)|, countries, MinCountries <= countries <= MaxCountries,
      SourceCount(rows, EvsCode), SourceCount(rows, WvsCode), |rows|,
      MissingAudit(rows))
  }

  /**
   * `_validate`: it only reads the table. The one error is a key column
   * absent from the table (a KeyError), looked up in the order `S007_01`,
   * `S024`, `S001`.
   */
  function Validate(t: Table): (r: Result<ValidationReport, SchemaError>)
    ensures MergeKey !in t.columns ==> r == Failure(MissingColumn(MergeKey))
    ensures MergeKey in t.columns && CountryWaveColumn !in t.columns ==>
            r == Failure(MissingColumn(CountryWaveColumn))
    ensures MergeKey in t.columns && CountryWaveColumn in t.columns && SourceColumn !in t.columns ==>
            r == Failure(MissingColumn(SourceColumn))
    ensures r.Success? <==> MergeKey in t.columns && CountryWaveColumn in t.columns && SourceColumn in t.columns
    ensures r.Success? ==> r.value == Report(t.rows)
  {
    if MergeKey !in t.columns then Failure(MissingColumn(MergeKey))
    else if CountryWaveColumn !in t.columns then Failure(MissingColumn(CountryWaveColumn))
    else if SourceColumn !in t.columns then Failure(MissingColumn(SourceColumn))
    else Success(Report(t.rows))
  }

  /** The report on a merge is determined by the inputs alone: the row total and the duplicate count ignore the sort. */
  lemma MergedReport(wvs: Table, evs: Table, ivs: Table)
    requires IsMergeOf(wvs, evs, ivs)
    requires Validate(ivs).Success?
    ensures Validate(ivs).value.total == |evs.rows| + |wvs.rows|
    ensures Validate(ivs).value.duplicates == DuplicateCount(evs.rows + wvs.rows)
  {
    assert |multiset(ivs.rows)| == |multiset(evs.rows + wvs.rows)|;
    DuplicateCountPermutation(ivs.rows, evs.rows + wvs.rows);
  }

  /** `get_unique_countries` as written: `S024.nunique()`, which counts country-wave codes. */
  function GetUniqueCountries(t: Table): (r: Result<nat, SchemaError>)
    ensures r.Failure? <==> CountryWaveColumn !in t.columns
    ensures r.Failure? ==> r.error == MissingColumn(CountryWaveColumn)
    ensures r.Success? ==> r.value == |CountryWaveSet(t.rows)| >= |CountrySet(t.rows)|
  {
    CountryCountBound(t.rows);
    if CountryWaveColumn !in t.columns then Failure(MissingColumn(CountryWaveColumn))
    else Success(|CountryWaveSet(t.rows)|)
  }

  /** Two waves of one country: `get_unique_countries` reports 2 where there is 1 country. */
  lemma GetUniqueCountriesCountsCountryWaves()
    ensures var t := Table([CountryWaveColumn],
                           [Row(5, Some(1), Some(2765), Some(2)), Row(6, Some(2), Some(2766), Some(2))]);
            GetUniqueCountries(t) == Success(2) && |CountrySet(t.rows)| == 1
  {
    var t := Table([CountryWaveColumn],
                   [Row(5, Some(1), Some(2765), Some(2)), Row(6, Some(2), Some(2766), Some(2))]);
    assert t.rows[0].s024 == Some(2765) && t.rows[1].s024 == Some(2766);
    assert CountryWaveSet(t.rows) == {2765, 2766};
    assert CountrySet(t.rows) == {276};
  }

  /** The evidently intended country count: the number of distinct `S024 // 10` values, as the validation uses. */
  function UniqueCountries(t: Table): (r: Result<nat, SchemaError>)
    ensures r.Failure? <==> CountryWaveColumn !in t.columns
    ensures r.Failure? ==> r.error == MissingColumn(CountryWaveColumn)
    ensures r.Success? ==> r.value <= |CountryWaveSet(t.rows)|
    ensures r.Success? ==> r.value == |CountrySet(t.rows)|
    ensures Validate(t).Success? ==> r == Success(Validate(t).value.countries)
  {
    CountryCountBound(t.rows);
    if CountryWaveColumn !in t.columns then Failure(MissingColumn(CountryWaveColumn))
    else Success(|CountrySet(t.rows)|)
  }

  // ---------------------------------------------------------------------------
  // The builder (`IVSBuilder`)
  // ---------------------------------------------------------------------------

  /** What a successful build yields: the merged table and its validation report. */
  datatype Built = Built(ivs: Table, report: ValidationReport)

  /**
   * The builder holds the two extract paths. Reading a CSV file is outside
   * the model: it is the `readCsv` parameter, applied to those paths.
   */
  class IVSBuilder {
    const wvsPath: string
    const evsPath: string

    constructor (wvsPath: string, evsPath: string)
      ensures this.wvsPath == wvsPath && this.evsPath == evsPath
    {
      this.wvsPath := wvsPath;
      this.evsPath := evsPath;
    }

    /** `load_wvs`: the WVS extract restricted to `waves` by its `s002` column. */
    function LoadWvs(readCsv: string -> Table, waves: seq<int>): (r: Result<Table, SchemaError>)
      ensures r.Failure? <==> WvsWaveColumn !in readCsv(wvsPath).columns
      ensures r.Failure? ==> r.error == MissingWaveColumn(WvsWaveColumn)
      ensures r.Success? ==> r.value.columns == readCsv(wvsPath).columns
      ensures r.Success? ==> IsSubsequence(r.value.rows, readCsv(wvsPath).rows)
      ensures r.Success? ==> forall i :: 0 <= i < |r.value.rows| ==> r.value.rows[i].wave in waves
      ensures r.Success? ==> forall x :: x in readCsv(wvsPath).rows && x.wave in waves ==> x in r.value.rows
      ensures r.Success? ==> r.value.rows == FilterWaves(readCsv(wvsPath).rows, waves)
    {
      LoadWaves(readCsv(wvsPath), WvsWaveColumn, waves)
    }

    /** `load_evs`: the EVS extract restricted to `waves` by its `S002EVS` column. */
    function LoadEvs(readCsv: string -> Table, waves: seq<int>): (r: Result<Table, SchemaError>)
      ensures r.Failure? <==> EvsWaveColumn !in readCsv(evsPath).columns
      ensures r.Failure? ==> r.error == MissingWaveColumn(EvsWaveColumn)
      ensures r.Success? ==> r.value.columns == readCsv(evsPath).columns
      ensures r.Success? ==> IsSubsequence(r.value.rows, readCsv(evsPath).rows)
      ensures r.Success? ==> forall i :: 0 <= i < |r.value.rows| ==> r.value.rows[i].wave in waves
      ensures r.Success? ==> forall x :: x in readCsv(evsPath).rows && x.wave in waves ==> x in r.value.rows
      ensures r.Success? ==> r.value.rows == FilterWaves(readCsv(evsPath).rows, waves)
    {
      LoadWaves(readCsv(evsPath), EvsWaveColumn, waves)
    }

    /**
     * `build_ivs`: load WVS, load EVS, merge, validate. The first error
     * aborts the build; on success the merged table is returned unchanged
     * along with its report.
     */
    method BuildIvs(readCsv: string -> Table, wvsWaves: seq<int>, evsWaves: seq<int>)
      returns (r: Result<Built, SchemaError>)
      ensures WvsWaveColumn !in readCsv(wvsPath).columns ==> r == Failure(MissingWaveColumn(WvsWaveColumn))
      ensures WvsWaveColumn in readCsv(wvsPath).columns && EvsWaveColumn !in readCsv(evsPath).columns ==>
              r == Failure(MissingWaveColumn(EvsWaveColumn))
      ensures WvsWaveColumn in readCsv(wvsPath).columns && EvsWaveColumn in readCsv(evsPath).columns &&
              !(MergeKey in readCsv(wvsPath).columns && MergeKey in readCsv(evsPath).columns) ==>
              r == Failure(MissingMergeKey)
      ensures WvsWaveColumn in readCsv(wvsPath).columns && EvsWaveColumn in readCsv(evsPath).columns &&
              MergeKey in readCsv(wvsPath).columns && MergeKey in readCsv(evsPath).columns &&
              SourceColumn !in readCsv(wvsPath).columns && SourceColumn !in readCsv(evsPath).columns ==>
              r == Failure(MissingColumn(SourceColumn))
      ensures WvsWaveColumn in readCsv(wvsPath).columns && EvsWaveColumn in readCsv(evsPath).columns &&
              MergeKey in readCsv(wvsPath).columns && MergeKey in readCsv(evsPath).columns &&
              (SourceColumn in readCsv(wvsPath).columns || SourceColumn in readCsv(evsPath).columns) &&
              CountryWaveColumn !in readCsv(wvsPath).columns && CountryWaveColumn !in readCsv(evsPath).columns ==>
              r == Failure(MissingColumn(CountryWaveColumn))
      ensures r.Success? <==>
              var w, e := readCsv(wvsPath).columns, readCsv(evsPath).columns;
              && WvsWaveColumn in w && EvsWaveColumn in e
              && MergeKey in w && MergeKey in e
              && (SourceColumn in w || SourceColumn in e)
              && (CountryWaveColumn in w || CountryWaveColumn in e)
      ensures r.Success? ==>
              && LoadWvs(readCsv, wvsWaves).Success? && LoadEvs(readCsv, evsWaves).Success?
              && IsMergeOf(LoadWvs(readCsv, wvsWaves).value, LoadEvs(readCsv, evsWaves).value, r.value.ivs)
              && Validate(r.value.ivs) == Success(r.value.report)
    {
      var wvs := LoadWvs(readCsv, wvsWaves);
      if wvs.Failure? {
        return Failure(wvs.error);
      }
      var evs := LoadEvs(readCsv, evsWaves);
      if evs.Failure? {
        return Failure(evs.error);
      }
      var ivs := Merge(wvs.value, evs.value);
      if ivs.Failure? {
        return Failure(ivs.error);
      }
      var report := Validate(ivs.value);
      if report.Failure? {
        return Failure(report.error);
      }
      r := Success(Built(ivs.value, report.value));
    }
  }
}
