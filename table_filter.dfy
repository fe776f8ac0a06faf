// ComponentExtractor._renumber_rows and _filter_reference_dict: which VALUES
// rows of which tables survive a filter, the keys they were found under,
// and the rewritten sequence column.
module TableFilter {
  import opened Basics
  import opened Strings
  import opened Models
  import opened Document
  import opened KeyNormalizer
  import opened KeyBuilder

  // ---------------------------------------------------------------------
  // _renumber_rows
  // ---------------------------------------------------------------------

  /** `column_lookup.get("no.") or column_lookup.get("no")`: a "no." column
      at position 0 is falsy, so the lookup falls through to "no". */
  function NumberColumn(columns: seq<Cell>): (r: Option<nat>)
    ensures r.Some? ==> r.value < |columns|
    ensures r.Some? ==> ColumnName(columns[r.value]) == "no." || ColumnName(columns[r.value]) == "no"
  {
    match ColumnIndex(columns, "no.")
    case Some(k) => if k != 0 then Some(k) else ColumnIndex(columns, "no")
    case None => ColumnIndex(columns, "no")
  }

  /** `row_copy = list(row); row_copy[number_idx] = i`, or the row itself
      when list() raises TypeError (a scalar) or the assignment raises
      IndexError (a short row). list() of a string is its characters. */
  function RenumberRow(row: Row, idx: nat, n: int): (r: Row)
    ensures idx < RowWidth(row) ==> r.Cells? && |r.cells| == RowWidth(row) && r.cells[idx] == Int(n)
    ensures idx >= RowWidth(row) ==> r == row
  {
    match row
    case Cells(cells) => if idx < |cells| then Cells(cells[idx := Int(n)]) else row
    case Text(t) =>
      if idx < |t| then Cells(seq(|t|, k requires 0 <= k < |t| => if k == idx then Int(n) else Str([t[k]])))
      else row
    case Scalar(_) => row
  }

  /** The rows in order, the i-th (counting from 1) carrying i in the
      number column; the rows themselves when there is no number column. */
  function Renumbered(rows: seq<Row>, columns: seq<Cell>): (r: seq<Row>)
    ensures |r| == |rows|
    ensures NumberColumn(columns).None? ==> r == rows
  {
    match NumberColumn(columns)
    case None => rows
    case Some(idx) => seq(|rows|, k requires 0 <= k < |rows| => RenumberRow(rows[k], idx, k + 1))
  }

  /** With a number column, the k-th row (from 0) carries k + 1 there when
      it is wide enough, and is left as it was otherwise. */
  lemma {:induction false} RenumberedNumbers(rows: seq<Row>, columns: seq<Cell>)
    requires NumberColumn(columns).Some?
    ensures var idx, r := NumberColumn(columns).value, Renumbered(rows, columns);
      forall k :: 0 <= k < |rows| ==>
        if idx < RowWidth(rows[k])
        then r[k].Cells? && |r[k].cells| == RowWidth(rows[k]) && r[k].cells[idx] == Int(k + 1)
        else r[k] == rows[k]
  {
    var idx, r := NumberColumn(columns).value, Renumbered(rows, columns);
    forall k | 0 <= k < |rows|
      ensures if idx < RowWidth(rows[k])
              then r[k].Cells? && |r[k].cells| == RowWidth(rows[k]) && r[k].cells[idx] == Int(k + 1)
              else r[k] == rows[k]
    {
      assert r[k] == RenumberRow(rows[k], idx, k + 1);
    }
  }

  method RenumberRows(rows: seq<Row>, columns: seq<Cell>) returns (r: seq<Row>)
    ensures r == Renumbered(rows, columns)
  {
    if rows == [] {
      return [];
    }
    var number := NumberColumn(columns);
    if number.None? {
      return rows;
    }
    var idx := number.value;
    r := NumberEach((row, n) => RenumberRow(row, idx, n), rows);
    var spec := Renumbered(rows, columns);
    forall k | 0 <= k < |rows| ensures r[k] == spec[k] {
    }
    assert r == spec;
  }

  /** The loop of _renumber_rows: `for i, row in enumerate(rows, start=1)`,
      appending what the step makes of each row. */
  method NumberEach(step: (Row, int) -> Row, rows: seq<Row>) returns (r: seq<Row>)
    ensures |r| == |rows|
    ensures forall k :: 0 <= k < |rows| ==> r[k] == step(rows[k], k + 1)
  {
    r := [];
    var i := 0;
    while i < |rows|
      invariant 0 <= i <= |rows|
      invariant |r| == i
      invariant forall k :: 0 <= k < i ==> r[k] == step(rows[k], k + 1)
    {
      r := r + [step(rows[i], i + 1)];
      i := i + 1;
    }
  }

  /** Every position but the number column reads as before. */
  lemma {:induction false} RenumberRowKeeps(row: Row, idx: nat, n: int, k: nat)
    requires k != idx
    ensures ColumnValue(RenumberRow(row, idx, n), Some(k)) == ColumnValue(row, Some(k))
  {
    if idx < RowWidth(row) && k < RowWidth(row) && row.Text? {
      assert RenumberRow(row, idx, n).cells[k] == Str([row.text[k]]);
    }
  }

  lemma {:induction false} RenumberRowTwice(row: Row, idx: nat, n: int)
    ensures RenumberRow(RenumberRow(row, idx, n), idx, n) == RenumberRow(row, idx, n)
  {
    if idx < RowWidth(row) {
      var r := RenumberRow(row, idx, n);
      assert r.cells[idx := Int(n)] == r.cells;
    }
  }

  /** Renumbering never touches a name, formula or state column, so a row
      keeps its key. */
  lemma {:induction false} RenumberRowKeepsKey(row: Row, columns: seq<Cell>, idx: nat, n: int,
                                              scheme: KeyScheme, sep: Separator, mode: CaseMode)
    requires NumberColumn(columns) == Some(idx)
    ensures BuildKey(RenumberRow(row, idx, n), columns, scheme, sep, mode) == BuildKey(row, columns, scheme, sep, mode)
  {
    FieldAvoidsNumber(row, columns, idx, n, "name");
    FieldAvoidsNumber(row, columns, idx, n, "formula");
    FieldAvoidsNumber(row, columns, idx, n, "state");
  }

  lemma {:induction false} FieldAvoidsNumber(row: Row, columns: seq<Cell>, idx: nat, n: int, name: string)
    requires NumberColumn(columns) == Some(idx)
    requires name != "no." && name != "no"
    ensures Field(RenumberRow(row, idx, n), columns, name) == Field(row, columns, name)
  {
    var j := ColumnIndex(columns, name);
    if j.Some? {
      assert j.value != idx;
      RenumberRowKeeps(row, idx, n, j.value);
    }
  }

  /** Renumbering renumbered rows changes nothing. */
  lemma {:induction false} RenumberedIdempotent(rows: seq<Row>, columns: seq<Cell>)
    ensures Renumbered(Renumbered(rows, columns), columns) == Renumbered(rows, columns)
  {
    var number := NumberColumn(columns);
    if number.Some? {
      var idx := number.value;
      var once := Renumbered(rows, columns);
      var twice := Renumbered(once, columns);
      forall k | 0 <= k < |rows|
        ensures twice[k] == once[k]
      {
        assert once[k] == RenumberRow(rows[k], idx, k + 1);
        assert twice[k] == RenumberRow(once[k], idx, k + 1);
        RenumberRowTwice(rows[k], idx, k + 1);
      }
      assert twice == once;
    }
  }

  /** A "No." header in the first column is never renumbered unless a "no"
      column exists too, as `column_lookup.get("no.") or ...` reads index 0
      as missing. */
  lemma {:induction false} NumberInFirstColumnIgnored(rows: seq<Row>, columns: seq<Cell>)
    requires columns != [] && ColumnName(columns[0]) == "no."
    requires forall k :: 1 <= k < |columns| ==> ColumnName(columns[k]) != "no."
    requires forall k :: 0 <= k < |columns| ==> ColumnName(columns[k]) != "no"
    ensures Renumbered(rows, columns) == rows
  {
    var i := ColumnIndex(columns, "no.");
    assert i == Some(0);
  }

  // ---------------------------------------------------------------------
  // Matching rows
  // ---------------------------------------------------------------------

  /** What a filter compares against: the normalised requested keys, and
      the key a row is matched by, given its table's columns. */
  datatype Query = Query(targets: set<string>, key: (Row, seq<Cell>) -> Option<string>)

  /** `{_normalize_key(cid, separator_symbol, case_mode) for cid in component_keys}` */
  function Targets(keys: seq<string>, sep: Separator, mode: CaseMode): set<string>
  {
    set k | k in keys :: Normalize(k, sep, mode)
  }

  /** The query _filter_reference_dict builds: the normalised keys, and
      _build_component_key for the scheme, separator and case. */
  function QueryOf(keys: seq<string>, scheme: KeyScheme, sep: Separator, mode: CaseMode): Query
  {
    Query(Targets(keys, sep, mode), (row, columns) => BuildKey(row, columns, scheme, sep, mode))
  }

  function RowKey(q: Query, row: Row, columns: seq<Cell>): Option<string>
  {
    q.key(row, columns)
  }

  /** A key that renumbering cannot change. */
  ghost predicate RenumberSafe(q: Query)
  {
    forall row, columns, idx, n :: NumberColumn(columns) == Some(idx) ==>
      q.key(RenumberRow(row, idx, n), columns) == q.key(row, columns)
  }

  /** The key _build_component_key builds is one. */
  lemma {:induction false} QueryOfRenumberSafe(keys: seq<string>, scheme: KeyScheme, sep: Separator, mode: CaseMode)
    ensures RenumberSafe(QueryOf(keys, scheme, sep, mode))
  {
    var q := QueryOf(keys, scheme, sep, mode);
    forall row, columns, idx, n | NumberColumn(columns) == Some(idx)
      ensures q.key(RenumberRow(row, idx, n), columns) == q.key(row, columns)
    {
      RenumberRowKeepsKey(row, columns, idx, n, scheme, sep, mode);
    }
  }

  /** `match_key and match_key in normalized_targets` */
  predicate Keeps(q: Query, row: Row, columns: seq<Cell>)
  {
    var key := RowKey(q, row, columns);
    key.Some? && key.value != [] && key.value in q.targets
  }

  /** The rows a filter keeps, in their order. */
  function KeptRows(q: Query, rows: seq<Row>, columns: seq<Cell>): (r: seq<Row>)
    ensures |r| <= |rows|
    decreases |rows|
  {
    if rows == [] then []
    else
      var last := rows[|rows| - 1];
      KeptRows(q, rows[..|rows| - 1], columns) + (if Keeps(q, last, columns) then [last] else [])
  }

  /** The kept rows are rows of the table, each kept at most as often as
      it occurs; every one of them matches, and every matching row is
      among them. */
  lemma {:induction false} KeptRowsSpec(q: Query, rows: seq<Row>, columns: seq<Cell>)
    ensures multiset(KeptRows(q, rows, columns)) <= multiset(rows)
    ensures forall x :: x in KeptRows(q, rows, columns) ==> Keeps(q, x, columns)
    ensures forall i :: 0 <= i < |rows| && Keeps(q, rows[i], columns) ==> rows[i] in KeptRows(q, rows, columns)
    decreases |rows|
  {
    if rows != [] {
      var init, last := rows[..|rows| - 1], rows[|rows| - 1];
      KeptRowsSpec(q, init, columns);
      assert rows == init + [last];
      var r := KeptRows(q, rows, columns);
      assert r == KeptRows(q, init, columns) + (if Keeps(q, last, columns) then [last] else []);
      forall i | 0 <= i < |rows| && Keeps(q, rows[i], columns)
        ensures rows[i] in r
      {
        if i < |init| {
          assert rows[i] == init[i];
        }
      }
    }
  }

  /** The keys the kept rows were matched under. */
  function RowsFound(q: Query, rows: seq<Row>, columns: seq<Cell>): (r: set<string>)
    ensures r <= q.targets
    ensures [] !in r
    decreases |rows|
  {
    if rows == [] then {}
    else
      var last := rows[|rows| - 1];
      RowsFound(q, rows[..|rows| - 1], columns) + (if Keeps(q, last, columns) then {RowKey(q, last, columns).value} else {})
  }

  method FilterRows(q: Query, rows: seq<Row>, columns: seq<Cell>) returns (kept: seq<Row>, found: set<string>)
    ensures kept == KeptRows(q, rows, columns)
    ensures found == RowsFound(q, rows, columns)
  {
    kept, found := [], {};
    var i := 0;
    while i < |rows|
      invariant 0 <= i <= |rows|
      invariant kept == KeptRows(q, rows[..i], columns)
      invariant found == RowsFound(q, rows[..i], columns)
    {
      var key := q.key(rows[i], columns);
      assert rows[..i + 1][..i] == rows[..i];
      if key.Some? && key.value != [] && key.value in q.targets {
        kept := kept + [rows[i]];
        found := found + {key.value};
      }
      i := i + 1;
    }
    assert rows[..|rows|] == rows;
  }

  /** A key is found exactly when some row carrying it is kept. */
  lemma {:induction false} RowsFoundSpec(q: Query, rows: seq<Row>, columns: seq<Cell>, x: string)
    ensures x in RowsFound(q, rows, columns)
        <==> exists i :: 0 <= i < |rows| && Keeps(q, rows[i], columns) && RowKey(q, rows[i], columns) == Some(x)
    decreases |rows|
  {
    if rows != [] {
      var init := rows[..|rows| - 1];
      RowsFoundSpec(q, init, columns, x);
      if exists i :: 0 <= i < |init| && Keeps(q, init[i], columns) && RowKey(q, init[i], columns) == Some(x) {
        var i :| 0 <= i < |init| && Keeps(q, init[i], columns) && RowKey(q, init[i], columns) == Some(x);
        assert rows[i] == init[i];
      }
      if exists i :: 0 <= i < |rows| && Keeps(q, rows[i], columns) && RowKey(q, rows[i], columns) == Some(x) {
        var i :| 0 <= i < |rows| && Keeps(q, rows[i], columns) && RowKey(q, rows[i], columns) == Some(x);
        if i < |init| {
          assert init[i] == rows[i];
        }
      }
    }
  }

  lemma {:induction false} KeptRowsAppend(q: Query, a: seq<Row>, b: seq<Row>, columns: seq<Cell>)
    ensures KeptRows(q, a + b, columns) == KeptRows(q, a, columns) + KeptRows(q, b, columns)
    decreases |b|
  {
    if b == [] {
      assert a + b == a;
    } else {
      var init := b[..|b| - 1];
      KeptRowsAppend(q, a, init, columns);
      assert (a + b)[..|a + b| - 1] == a + init;
    }
  }

  lemma {:induction false} RowsFoundAppend(q: Query, a: seq<Row>, b: seq<Row>, columns: seq<Cell>)
    ensures RowsFound(q, a + b, columns) == RowsFound(q, a, columns) + RowsFound(q, b, columns)
    decreases |b|
  {
    if b == [] {
      assert a + b == a;
    } else {
      var init := b[..|b| - 1];
      RowsFoundAppend(q, a, init, columns);
      assert (a + b)[..|a + b| - 1] == a + init;
    }
  }

  /** Rows that all match are all kept. */
  lemma {:induction false} KeptRowsAll(q: Query, rows: seq<Row>, columns: seq<Cell>)
    requires forall i :: 0 <= i < |rows| ==> Keeps(q, rows[i], columns)
    ensures KeptRows(q, rows, columns) == rows
    decreases |rows|
  {
    if rows != [] {
      var init := rows[..|rows| - 1];
      assert forall i :: 0 <= i < |init| ==> init[i] == rows[i];
      KeptRowsAll(q, init, columns);
      assert rows == init + [rows[|rows| - 1]];
    }
  }

  /** Filtering the kept rows again keeps them all and finds the same keys. */
  lemma {:induction false} KeptRowsIdempotent(q: Query, rows: seq<Row>, columns: seq<Cell>)
    ensures KeptRows(q, KeptRows(q, rows, columns), columns) == KeptRows(q, rows, columns)
    ensures RowsFound(q, KeptRows(q, rows, columns), columns) == RowsFound(q, rows, columns)
    decreases |rows|
  {
    if rows != [] {
      var init, last := rows[..|rows| - 1], rows[|rows| - 1];
      KeptRowsIdempotent(q, init, columns);
      var k := KeptRows(q, init, columns);
      var tail := if Keeps(q, last, columns) then [last] else [];
      KeptRowsAppend(q, k, tail, columns);
      RowsFoundAppend(q, k, tail, columns);
      if Keeps(q, last, columns) {
        assert KeptRows(q, [last], columns) == [last];
        assert RowsFound(q, [last], columns) == {RowKey(q, last, columns).value};
      }
    }
  }

  /** Rows that pairwise share their keys are kept alike and give the same
      keys. */
  lemma {:induction false} SameKeysFound(q: Query, a: seq<Row>, b: seq<Row>, columns: seq<Cell>)
    requires |a| == |b|
    requires forall i :: 0 <= i < |a| ==> RowKey(q, a[i], columns) == RowKey(q, b[i], columns)
    ensures RowsFound(q, a, columns) == RowsFound(q, b, columns)
    ensures (forall i :: 0 <= i < |a| ==> Keeps(q, a[i], columns)) ==> forall i :: 0 <= i < |b| ==> Keeps(q, b[i], columns)
    decreases |a|
  {
    if a != [] {
      var n := |a| - 1;
      assert forall i :: 0 <= i < n ==> a[..n][i] == a[i] && b[..n][i] == b[i];
      SameKeysFound(q, a[..n], b[..n], columns);
    }
  }

  /** Renumbered rows keep their keys. */
  lemma {:induction false} RenumberedKeepsKeys(q: Query, rows: seq<Row>, columns: seq<Cell>)
    requires RenumberSafe(q)
    ensures forall i :: 0 <= i < |rows| ==> RowKey(q, Renumbered(rows, columns)[i], columns) == RowKey(q, rows[i], columns)
  {
    var number := NumberColumn(columns);
    if number.Some? {
      var r := Renumbered(rows, columns);
      forall i | 0 <= i < |rows|
        ensures RowKey(q, r[i], columns) == RowKey(q, rows[i], columns)
      {
        assert r[i] == RenumberRow(rows[i], number.value, i + 1);
      }
    }
  }

  // ---------------------------------------------------------------------
  // Tables, references and the document
  // ---------------------------------------------------------------------

  /** `if not values or not isinstance(values, list): continue` */
  predicate Processed(t: Table)
  {
    t.values.Rows? && t.values.rows != []
  }

  /** A processed table's VALUES become its kept rows, renumbered on request;
      its columns, its other entries and any other table stay as they were. */
  function FilteredTable(q: Query, t: Table, renumber: bool): (r: Table)
    ensures r.columns == t.columns && r.rest == t.rest
    ensures !Processed(t) ==> r == t
    ensures Processed(t) ==> r.values.Rows? && |r.values.rows| <= |t.values.rows|
  {
    if Processed(t) then
      var kept := KeptRows(q, t.values.rows, t.columns);
      t.(values := Rows(if renumber then Renumbered(kept, t.columns) else kept))
    else t
  }

  function TableFound(q: Query, t: Table): set<string>
  {
    if Processed(t) then RowsFound(q, t.values.rows, t.columns) else {}
  }

  function FilteredTables(q: Query, tables: seq<(string, Table)>, renumber: bool): seq<(string, Table)>
  {
    seq(|tables|, k requires 0 <= k < |tables| => (tables[k].0, FilteredTable(q, tables[k].1, renumber)))
  }

  function TablesFound(q: Query, tables: seq<(string, Table)>): (r: set<string>)
    ensures r <= q.targets
    decreases |tables|
  {
    if tables == [] then {}
    else TablesFound(q, tables[..|tables| - 1]) + TableFound(q, tables[|tables| - 1].1)
  }

  /** A reference without TABLES is left alone (`ref_body.get("TABLES", {})`). */
  function FilteredRef(q: Query, body: RefBody, renumber: bool): RefBody
  {
    match body.tables
    case None => body
    case Some(tables) => body.(tables := Some(FilteredTables(q, tables, renumber)))
  }

  function RefFound(q: Query, body: RefBody): set<string>
  {
    match body.tables
    case None => {}
    case Some(tables) => TablesFound(q, tables)
  }

  function FilteredRefs(q: Query, refs: seq<(string, RefBody)>, renumber: bool): seq<(string, RefBody)>
  {
    seq(|refs|, k requires 0 <= k < |refs| => (refs[k].0, FilteredRef(q, refs[k].1, renumber)))
  }

  function RefsFound(q: Query, refs: seq<(string, RefBody)>): (r: set<string>)
    ensures r <= q.targets
    decreases |refs|
  {
    if refs == [] then {}
    else RefsFound(q, refs[..|refs| - 1]) + RefFound(q, refs[|refs| - 1].1)
  }

  /** A document without REFERENCES is left alone
      (`filtered.get("REFERENCES", {})`). */
  function FilteredDoc(q: Query, doc: Doc, renumber: bool): Doc
  {
    match doc.references
    case None => doc
    case Some(refs) => doc.(references := Some(FilteredRefs(q, refs, renumber)))
  }

  function DocFound(q: Query, doc: Doc): (r: set<string>)
    ensures r <= q.targets
  {
    match doc.references
    case None => {}
    case Some(refs) => RefsFound(q, refs)
  }

  // ---------------------------------------------------------------------
  // What filtering keeps and what it changes
  // ---------------------------------------------------------------------

  /** Tables alike but for their VALUES: same names, columns and other
      entries, in the same order. */
  predicate SameTables(a: seq<(string, Table)>, b: seq<(string, Table)>)
  {
    |a| == |b| &&
    forall k :: 0 <= k < |a| ==> a[k].0 == b[k].0 && a[k].1.columns == b[k].1.columns && a[k].1.rest == b[k].1.rest
  }

  predicate SameRefs(a: seq<(string, RefBody)>, b: seq<(string, RefBody)>)
  {
    |a| == |b| &&
    forall k :: 0 <= k < |a| ==>
      a[k].0 == b[k].0 && a[k].1.rest == b[k].1.rest && a[k].1.tables.Some? == b[k].1.tables.Some? &&
      (a[k].1.tables.Some? ==> SameTables(a[k].1.tables.value, b[k].1.tables.value))
  }

  /** Documents alike but for the VALUES of their tables. */
  predicate SameSkeleton(a: Doc, b: Doc)
  {
    a.rest == b.rest && a.references.Some? == b.references.Some? &&
    (a.references.Some? ==> SameRefs(a.references.value, b.references.value))
  }

  /** Filtering rewrites VALUES lists and nothing else. */
  lemma {:induction false} FilterKeepsSkeleton(q: Query, doc: Doc, renumber: bool)
    ensures SameSkeleton(doc, FilteredDoc(q, doc, renumber))
  {
    if doc.references.Some? {
      var refs := doc.references.value;
      var f := FilteredRefs(q, refs, renumber);
      forall k | 0 <= k < |refs|
        ensures refs[k].0 == f[k].0 && refs[k].1.rest == f[k].1.rest && refs[k].1.tables.Some? == f[k].1.tables.Some?
        ensures refs[k].1.tables.Some? ==> SameTables(refs[k].1.tables.value, f[k].1.tables.value)
      {
        assert f[k] == (refs[k].0, FilteredRef(q, refs[k].1, renumber));
        if refs[k].1.tables.Some? {
          var ts := refs[k].1.tables.value;
          var g := FilteredTables(q, ts, renumber);
          assert f[k].1.tables.value == g;
          forall j | 0 <= j < |ts|
            ensures ts[j].0 == g[j].0 && ts[j].1.columns == g[j].1.columns && ts[j].1.rest == g[j].1.rest
          {
            assert g[j] == (ts[j].0, FilteredTable(q, ts[j].1, renumber));
          }
        }
      }
    }
  }

  /** Filtering a filtered table again changes nothing and finds the same
      keys: its rows all match, and renumbering neither changes a key nor
      the numbers already written. */
  lemma {:induction false} FilteredTableTwice(q: Query, t: Table, renumber: bool)
    requires RenumberSafe(q)
    ensures FilteredTable(q, FilteredTable(q, t, renumber), renumber) == FilteredTable(q, t, renumber)
    ensures TableFound(q, FilteredTable(q, t, renumber)) == TableFound(q, t)
  {
    if Processed(t) {
      var rows, cols := t.values.rows, t.columns;
      var kept := KeptRows(q, rows, cols);
      var v := if renumber then Renumbered(kept, cols) else kept;
      assert FilteredTable(q, t, renumber) == t.(values := Rows(v));
      KeptRowsIdempotent(q, rows, cols);
      KeptRowsSpec(q, rows, cols);
      assert forall i :: 0 <= i < |kept| ==> Keeps(q, kept[i], cols) by {
        forall i | 0 <= i < |kept| ensures Keeps(q, kept[i], cols) {
          assert kept[i] in kept;
        }
      }
      if renumber {
        RenumberedKeepsKeys(q, kept, cols);
        SameKeysFound(q, kept, v, cols);
        RenumberedIdempotent(kept, cols);
      }
      KeptRowsAll(q, v, cols);
      if v == [] {
        assert kept == [];
      }
    }
  }

  lemma {:induction false} FilteredTablesTwice(q: Query, tables: seq<(string, Table)>, renumber: bool)
    requires RenumberSafe(q)
    ensures FilteredTables(q, FilteredTables(q, tables, renumber), renumber) == FilteredTables(q, tables, renumber)
    ensures TablesFound(q, FilteredTables(q, tables, renumber)) == TablesFound(q, tables)
    decreases |tables|
  {
    var f := FilteredTables(q, tables, renumber);
    forall k | 0 <= k < |tables|
      ensures FilteredTable(q, f[k].1, renumber) == f[k].1
    {
      FilteredTableTwice(q, tables[k].1, renumber);
    }
    if tables != [] {
      var n := |tables| - 1;
      FilteredTablesTwice(q, tables[..n], renumber);
      assert f[..n] == FilteredTables(q, tables[..n], renumber);
      FilteredTableTwice(q, tables[n].1, renumber);
    }
  }

  lemma {:induction false} FilteredRefsTwice(q: Query, refs: seq<(string, RefBody)>, renumber: bool)
    requires RenumberSafe(q)
    ensures FilteredRefs(q, FilteredRefs(q, refs, renumber), renumber) == FilteredRefs(q, refs, renumber)
    ensures RefsFound(q, FilteredRefs(q, refs, renumber)) == RefsFound(q, refs)
    decreases |refs|
  {
    var f := FilteredRefs(q, refs, renumber);
    forall k | 0 <= k < |refs|
      ensures FilteredRef(q, f[k].1, renumber) == f[k].1
      ensures RefFound(q, f[k].1) == RefFound(q, refs[k].1)
    {
      if refs[k].1.tables.Some? {
        FilteredTablesTwice(q, refs[k].1.tables.value, renumber);
      }
    }
    if refs != [] {
      var n := |refs| - 1;
      FilteredRefsTwice(q, refs[..n], renumber);
      assert f[..n] == FilteredRefs(q, refs[..n], renumber);
    }
  }

  /** Filtering the filtered document with the same keys gives it back and
      reports the same matches. */
  lemma {:induction false} FilterIdempotent(q: Query, doc: Doc, renumber: bool)
    requires RenumberSafe(q)
    ensures FilteredDoc(q, FilteredDoc(q, doc, renumber), renumber) == FilteredDoc(q, doc, renumber)
    ensures DocFound(q, FilteredDoc(q, doc, renumber)) == DocFound(q, doc)
  {
    if doc.references.Some? {
      FilteredRefsTwice(q, doc.references.value, renumber);
    }
  }

  /** The result of _filter_reference_dict. */
  datatype Filtered = Filtered(doc: Doc, found: set<string>)

  method FilterTables(q: Query, tables: seq<(string, Table)>, renumber: bool)
    returns (r: seq<(string, Table)>, found: set<string>)
    ensures r == FilteredTables(q, tables, renumber)
    ensures found == TablesFound(q, tables)
  {
    r, found := tables, {};
    var j := 0;
    while j < |tables|
      invariant 0 <= j <= |tables| && |r| == |tables|
      invariant forall k :: 0 <= k < j ==> r[k] == (tables[k].0, FilteredTable(q, tables[k].1, renumber))
      invariant forall k :: j <= k < |tables| ==> r[k] == tables[k]
      invariant found == TablesFound(q, tables[..j])
    {
      var name, table := tables[j].0, tables[j].1;
      assert tables[..j + 1][..j] == tables[..j];
      if Processed(table) {
        var kept, hits := FilterRows(q, table.values.rows, table.columns);
        if renumber {
          kept := RenumberRows(kept, table.columns);
        }
        r := r[j := (name, table.(values := Rows(kept)))];
        found := found + hits;
      }
      j := j + 1;
    }
    assert tables[..|tables|] == tables;
  }

  method FilterRefs(q: Query, refs: seq<(string, RefBody)>, renumber: bool)
    returns (r: seq<(string, RefBody)>, found: set<string>)
    ensures r == FilteredRefs(q, refs, renumber)
    ensures found == RefsFound(q, refs)
  {
    r, found := refs, {};
    var j := 0;
    while j < |refs|
      invariant 0 <= j <= |refs| && |r| == |refs|
      invariant forall k :: 0 <= k < j ==> r[k] == (refs[k].0, FilteredRef(q, refs[k].1, renumber))
      invariant forall k :: j <= k < |refs| ==> r[k] == refs[k]
      invariant found == RefsFound(q, refs[..j])
    {
      var name, body := refs[j].0, refs[j].1;
      assert refs[..j + 1][..j] == refs[..j];
      if body.tables.Some? {
        var tables, hits := FilterTables(q, body.tables.value, renumber);
        r := r[j := (name, body.(tables := Some(tables)))];
        found := found + hits;
      }
      j := j + 1;
    }
    assert refs[..|refs|] == refs;
  }

  /** _filter_reference_dict: every table of every reference filtered, and
      the keys found. The caller always passes a non-empty key list; an
      empty separator makes str.split raise while the targets are built. */
  method FilterReferenceDict(doc: Doc, keys: seq<string>, scheme: KeyScheme, sep: string,
                             mode: CaseMode, renumber: bool) returns (r: Result<Filtered>)
    requires keys != []
    ensures sep == [] <==> r.Err?
    ensures r.Err? ==> r.error == EmptySeparator
    ensures sep != [] ==>
      var q := QueryOf(keys, scheme, sep, mode);
      r == Ok(Filtered(FilteredDoc(q, doc, renumber), DocFound(q, doc)))
  {
    if sep == [] {
      return Err(EmptySeparator);
    }
    var q := QueryOf(keys, scheme, sep, mode);
    if doc.references.None? {
      return Ok(Filtered(doc, {}));
    }
    var refs, found := FilterRefs(q, doc.references.value, renumber);
    return Ok(Filtered(doc.(references := Some(refs)), found));
  }
}
