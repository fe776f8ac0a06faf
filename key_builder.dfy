// ComponentExtractor._build_component_key and its helpers
// _get_column_value and _join_parts: the key a VALUES row is matched by.
module KeyBuilder {
  import opened Basics
  import opened Strings
  import opened Models
  import opened Document
  import opened KeyNormalizer
  import opened ComponentUtils

  /** str(col).lower() */
  function ColumnName(col: Cell): string
  {
    ConvertCase(CellText(col), Lower)
  }

  /** {str(col).lower(): idx for idx, col in enumerate(columns)}.get(name):
      the position of the last column with that name, since a later entry
      of the comprehension overwrites an earlier one. */
  function ColumnIndex(columns: seq<Cell>, name: string): (r: Option<nat>)
    ensures r.Some? ==> r.value < |columns| && ColumnName(columns[r.value]) == name
    ensures r.Some? ==> forall k :: r.value < k < |columns| ==> ColumnName(columns[k]) != name
    ensures r.None? <==> forall k :: 0 <= k < |columns| ==> ColumnName(columns[k]) != name
    decreases |columns|
  {
    if columns == [] then None
    else if ColumnName(columns[|columns| - 1]) == name then Some(|columns| - 1)
    else ColumnIndex(columns[..|columns| - 1], name)
  }

  /** How many positions of a row can be read; a scalar row has none. */
  function RowWidth(row: Row): nat
  {
    match row
    case Cells(cells) => |cells|
    case Text(t) => |t|
    case Scalar(_) => 0
  }

  /** _get_column_value: str(row[idx]); None when there is no index or the
      indexing raises TypeError (a scalar row) or IndexError (a short row). */
  function ColumnValue(row: Row, idx: Option<nat>): (r: Option<string>)
    ensures r.Some? <==> idx.Some? && idx.value < RowWidth(row)
    ensures r.Some? && row.Cells? ==> r.value == CellText(row.cells[idx.value])
    ensures r.Some? && row.Text? ==> r.value == [row.text[idx.value]]
  {
    match idx
    case None => None
    case Some(i) =>
      match row
      case Cells(cells) => if i < |cells| then Some(CellText(cells[i])) else None
      case Text(t) => if i < |t| then Some([t[i]]) else None
      case Scalar(_) => None
  }

  /** The value of the column with the given lower-case name. */
  function Field(row: Row, columns: seq<Cell>, name: string): Option<string>
  {
    ColumnValue(row, ColumnIndex(columns, name))
  }

  /** A part _join_parts keeps: present and not "". */
  predicate Truthy(p: Option<string>)
  {
    p.Some? && p.value != []
  }

  /** [p.strip() for p in parts if p] */
  function Cleaned(parts: seq<Option<string>>): (r: seq<string>)
    ensures |r| <= |parts|
    ensures forall s :: s in r ==> Trimmed(s)
    ensures r == [] <==> forall i :: 0 <= i < |parts| ==> !Truthy(parts[i])
    decreases |parts|
  {
    if parts == [] then []
    else
      var rest := Cleaned(parts[1..]);
      assert forall i :: 1 <= i < |parts| ==> parts[i] == parts[1..][i - 1];
      if Truthy(parts[0]) then [Strip(parts[0].value)] + rest else rest
  }

  /** _join_parts: the kept parts, stripped, joined by sep; None when no
      part is kept. */
  function JoinParts(parts: seq<Option<string>>, sep: string): (r: Option<string>)
    ensures r.None? <==> forall i :: 0 <= i < |parts| ==> !Truthy(parts[i])
  {
    var cleaned := Cleaned(parts);
    if cleaned == [] then None else Some(Join(sep, cleaned))
  }

  /** The builder the scheme selects, applied to the three fields; None for
      a scheme the builder table does not list. */
  function RawKey(name: Option<string>, formula: Option<string>, state: Option<string>,
                  scheme: KeyScheme, sep: string): (r: Option<string>)
    ensures scheme == OtherScheme ==> r.None?
  {
    match scheme
    case Name => name
    case Formula => formula
    case NameState => JoinParts([name, state], sep)
    case FormulaState => JoinParts([formula, state], sep)
    case NameFormula => JoinParts([name, formula], sep)
    case NameFormulaState => JoinParts([name, formula, state], sep)
    case FormulaNameState => JoinParts([formula, name, state], sep)
    case OtherScheme => None
  }

  /** `normalize(result) if result else None` */
  function KeyOf(raw: Option<string>, sep: Separator, mode: CaseMode): (r: Option<string>)
    ensures r.Some? <==> Truthy(raw)
    ensures r.Some? ==> Collapsed(r.value) && Trimmed(r.value)
  {
    if Truthy(raw) then
      NormalizeCollapsed(raw.value, sep, mode);
      Some(Normalize(raw.value, sep, mode))
    else None
  }

  /** _build_component_key: columns are found by lower-cased name, the
      builder of the scheme joins the fields, and a non-empty result is
      normalised. */
  function BuildKey(row: Row, columns: seq<Cell>, scheme: KeyScheme, sep: Separator, mode: CaseMode): (r: Option<string>)
    ensures scheme == OtherScheme ==> r.None?
    ensures r.Some? ==> Collapsed(r.value) && Trimmed(r.value)
  {
    var raw := RawKey(Field(row, columns, "name"), Field(row, columns, "formula"), Field(row, columns, "state"), scheme, sep);
    KeyOf(raw, sep, mode)
  }

  // ---------------------------------------------------------------------
  // Properties
  // ---------------------------------------------------------------------

  /** A part that is missing or "" is skipped as if it were not there. */
  lemma {:induction false} JoinPartsSkips(parts: seq<Option<string>>, i: nat, sep: string)
    requires i < |parts| && !Truthy(parts[i])
    ensures JoinParts(parts, sep) == JoinParts(parts[..i] + parts[i + 1..], sep)
  {
    CleanedSkips(parts, i);
  }

  lemma {:induction false} CleanedSkips(parts: seq<Option<string>>, i: nat)
    requires i < |parts| && !Truthy(parts[i])
    ensures Cleaned(parts) == Cleaned(parts[..i] + parts[i + 1..])
    decreases i
  {
    if i > 0 {
      var rest := parts[..i] + parts[i + 1..];
      assert rest[0] == parts[0];
      assert rest[1..] == parts[1..][..i - 1] + parts[1..][i..];
      CleanedSkips(parts[1..], i - 1);
    } else {
      assert parts[..0] + parts[1..] == parts[1..];
    }
  }

  /** Present parts, as _join_parts receives them. */
  function Present(xs: seq<string>): (r: seq<Option<string>>)
    ensures |r| == |xs|
    ensures forall i :: 0 <= i < |xs| ==> r[i] == Some(xs[i])
  {
    seq(|xs|, i requires 0 <= i < |xs| => Some(xs[i]))
  }

  /** With every part present and non-empty, the parts are stripped and
      joined in the order given. */
  lemma {:induction false} JoinPartsAll(xs: seq<string>, sep: string)
    requires xs != [] && forall i :: 0 <= i < |xs| ==> xs[i] != []
    ensures JoinParts(Present(xs), sep) == Some(Join(sep, StripAll(xs)))
  {
    CleanedAll(xs);
  }

  lemma {:induction false} CleanedAll(xs: seq<string>)
    requires forall i :: 0 <= i < |xs| ==> xs[i] != []
    ensures Cleaned(Present(xs)) == StripAll(xs)
    decreases |xs|
  {
    if xs != [] {
      CleanedAll(xs[1..]);
      assert Present(xs)[1..] == Present(xs[1..]);
    }
  }

  /** Splitting a joined key at a one-character separator the fields do not
      contain gives back the kept fields, stripped. */
  lemma {:induction false} JoinPartsSplit(parts: seq<Option<string>>, c: char)
    requires JoinParts(parts, [c]).Some?
    requires forall i :: 0 <= i < |parts| && parts[i].Some? ==> c !in parts[i].value
    ensures Split(JoinParts(parts, [c]).value, [c]) == Cleaned(parts)
  {
    CleanedAvoids(parts, c);
    SplitJoinChar(Cleaned(parts), c);
  }

  lemma {:induction false} CleanedAvoids(parts: seq<Option<string>>, c: char)
    requires forall i :: 0 <= i < |parts| && parts[i].Some? ==> c !in parts[i].value
    ensures forall s :: s in Cleaned(parts) ==> c !in s
    decreases |parts|
  {
    if parts != [] {
      assert forall i :: 1 <= i < |parts| ==> parts[i] == parts[1..][i - 1];
      CleanedAvoids(parts[1..], c);
    }
  }

  /** With a one-character separator that is neither whitespace, '|' nor a
      letter, a built key is already in normal form: normalising it again,
      as the filter does with the requested keys, changes nothing. */
  lemma {:induction false} BuildKeyNormalized(row: Row, columns: seq<Cell>, scheme: KeyScheme, c: char, mode: CaseMode)
    requires SeparatorChar(c)
    requires BuildKey(row, columns, scheme, [c], mode).Some?
    ensures Normalize(BuildKey(row, columns, scheme, [c], mode).value, [c], mode)
         == BuildKey(row, columns, scheme, [c], mode).value
  {
    var raw := RawKey(Field(row, columns, "name"), Field(row, columns, "formula"), Field(row, columns, "state"), scheme, [c]);
    NormalizeIdempotent(raw.value, c, mode);
  }

  // ---------------------------------------------------------------------
  // A component's row is found by the component's own identifier
  // ---------------------------------------------------------------------

  lemma {:induction false} TwoFieldKey(a: string, b: string, sep: string)
    requires a != [] && b != []
    ensures JoinParts([Some(a), Some(b)], sep) == Some(Strip(a) + sep + Strip(b))
  {
    var xs := [a, b];
    JoinPartsAll(xs, sep);
    assert Present(xs) == [Some(a), Some(b)];
    var ys := StripAll(xs);
    assert ys == [Strip(a), Strip(b)];
    assert ys[1..] == [Strip(b)];
  }

  lemma {:induction false} ThreeFieldKey(a: string, b: string, d: string, sep: string)
    requires a != [] && b != [] && d != []
    ensures JoinParts([Some(a), Some(b), Some(d)], sep) == Some(Strip(a) + sep + Strip(b) + sep + Strip(d))
  {
    var xs := [a, b, d];
    JoinPartsAll(xs, sep);
    assert Present(xs) == [Some(a), Some(b), Some(d)];
    assert StripAll(xs) == [Strip(a), Strip(b), Strip(d)];
    JoinThree(Strip(a), Strip(b), Strip(d), sep);
  }

  lemma {:induction false} JoinThree(x: string, y: string, z: string, sep: string)
    ensures Join(sep, [x, y, z]) == x + sep + y + sep + z
  {
    assert [x, y, z] == [x] + [y, z];
    JoinCons(sep, x, [y, z]);
    JoinCons(sep, y, [z]);
    assert Join(sep, [z]) == z;
    assert x + sep + (y + sep + z) == x + sep + y + sep + z;
  }

  /** Normalisation strips first, so stripping before it changes nothing. */
  lemma {:induction false} NormalizeStripped(v: string, sep: Separator, mode: CaseMode)
    ensures Normalize(Strip(v), sep, mode) == Normalize(v, sep, mode)
  {
    assert Strip(Strip(v)) == Strip(v);
  }

  /** A row holding a component: its name, formula and state code in the
      columns of those names. */
  predicate HoldsComponent(row: Row, columns: seq<Cell>, c: Component)
  {
    && Field(row, columns, "name") == Some(c.name)
    && Field(row, columns, "formula") == Some(c.formula)
    && Field(row, columns, "state") == Some(c.state.Code())
  }

  /** The builder of a known scheme, given a component's fields, yields a
      non-empty text that normalises as the component's identifier does. */
  lemma {:induction false} RawKeyMatches(c: Component, scheme: KeyScheme, ch: char, mode: CaseMode)
    requires IdScheme(scheme) && !IsSpace(ch)
    requires c.name != [] && c.formula != []
    ensures var raw := RawKey(Some(c.name), Some(c.formula), Some(c.state.Code()), scheme, [ch]);
      Truthy(raw) && Normalize(raw.value, [ch], mode) == Normalize(SchemeId(c, scheme, [ch]).value, [ch], mode)
  {
    var n, f, s := c.name, c.formula, c.state.Code();
    var sep: Separator := [ch];
    PhaseCodeLetters(c.state);
    assert Trimmed(s) && Trimmed(sep);
    assert Strip(s) == s && Strip(sep) == sep;
    var raw := RawKey(Some(n), Some(f), Some(s), scheme, sep);
    match scheme {
      case Name =>
        NormalizeStripped(n, sep, mode);
      case Formula =>
        NormalizeStripped(f, sep, mode);
      case NameState =>
        TwoFieldKey(n, s, sep);
        NormalizeStripped(raw.value, sep, mode);
      case FormulaState =>
        TwoFieldKey(f, s, sep);
        NormalizeStripped(raw.value, sep, mode);
      case NameFormulaState =>
        ThreeFieldKey(n, f, s, sep);
      case FormulaNameState =>
        ThreeFieldKey(f, n, s, sep);
    }
  }

  /** The row of a component (its name, formula and state code in the
      columns of those names) gets the key that the component's identifier,
      as set_component_id builds it before any case conversion, normalises
      to, for each of the six schemes set_component_id knows, whatever the
      case mode of the comparison. The separator is one non-space
      character, as the default "-" is. */
  lemma {:induction false} ComponentRowMatches(c: Component, row: Row, columns: seq<Cell>, scheme: KeyScheme, ch: char, mode: CaseMode)
    requires IdScheme(scheme) && !IsSpace(ch)
    requires c.name != [] && c.formula != []
    requires HoldsComponent(row, columns, c)
    ensures BuildKey(row, columns, scheme, [ch], mode) == Some(Normalize(SchemeId(c, scheme, [ch]).value, [ch], mode))
  {
    var sep: Separator := [ch];
    var raw := RawKey(Some(c.name), Some(c.formula), Some(c.state.Code()), scheme, sep);
    BuildKeyOfFields(row, columns, scheme, sep, mode, Some(c.name), Some(c.formula), Some(c.state.Code()));
    RawKeyMatches(c, scheme, ch, mode);
    KeyOfTruthy(raw, sep, mode);
  }

  lemma {:induction false} BuildKeyOfFields(row: Row, columns: seq<Cell>, scheme: KeyScheme, sep: Separator, mode: CaseMode,
                                           name: Option<string>, formula: Option<string>, state: Option<string>)
    requires Field(row, columns, "name") == name
    requires Field(row, columns, "formula") == formula
    requires Field(row, columns, "state") == state
    ensures BuildKey(row, columns, scheme, sep, mode) == KeyOf(RawKey(name, formula, state, scheme, sep), sep, mode)
  {
  }

  lemma {:induction false} KeyOfTruthy(raw: Option<string>, sep: Separator, mode: CaseMode)
    requires Truthy(raw)
    ensures KeyOf(raw, sep, mode) == Some(Normalize(raw.value, sep, mode))
  {
  }
}
