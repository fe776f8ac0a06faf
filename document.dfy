// The parsed YAML reference the extractor walks:
//   REFERENCES -> <reference> -> TABLES -> <table> -> {STRUCTURE.COLUMNS, VALUES}
// Ordered mappings are sequences of (key, value) pairs; the entries the
// filter never reads are kept as `rest` so that a result can be compared
// with its input. The scalars are what str() of a YAML scalar gives.
module Document {
  import opened Basics

  /** An entry of a row or a column list. Other carries the text str() gives
      for any other scalar (a float, a date); Nested is a list or mapping
      inside the row, carried as the text str() gives for it. */
  datatype Cell = Str(s: string) | Int(i: int) | Bool(b: bool) | Null | Other(repr: string) | Nested(repr: string)

  /** An entry of a VALUES list: a list of cells (indexable), a plain string
      (indexable, one character per position) or a number, boolean or null
      (indexing raises TypeError). */
  datatype Row = Cells(cells: seq<Cell>) | Text(text: string) | Scalar(repr: string)

  /** Any YAML value, for the entries the filter carries along unread; a
      Leaf holds one cell. */
  datatype Value = Leaf(cell: Cell) | List(items: seq<Value>) | Map(entries: seq<(string, Value)>)

  /** table.get("VALUES"): missing or null, a value that is not a list, or a
      list of rows. */
  datatype ValuesField = Absent | NotList(value: Value) | Rows(rows: seq<Row>)

  /** A table; `columns` is `(STRUCTURE or {}).get("COLUMNS") or []`. */
  datatype Table = Table(columns: seq<Cell>, values: ValuesField, rest: seq<(string, Value)>)

  /** A reference; tables is None when the TABLES key is missing. */
  datatype RefBody = RefBody(tables: Option<seq<(string, Table)>>, rest: seq<(string, Value)>)

  /** The reference mapping; references is None when REFERENCES is missing. */
  datatype Doc = Doc(references: Option<seq<(string, RefBody)>>, rest: seq<(string, Value)>)

  /** What YAML loading gave: a mapping, or anything else. */
  datatype Parsed = Mapping(doc: Doc) | NotMapping

  /** One YAML block found in a text; `content` is NotMapping when the block
      has no content key or its content is not a mapping. */
  datatype Section = Section(content: Parsed)

  // ---------------------------------------------------------------------
  // str() of a scalar
  // ---------------------------------------------------------------------

  predicate IsDigit(x: char)
  {
    '0' <= x <= '9'
  }

  predicate AllDigits(s: string)
  {
    forall i :: 0 <= i < |s| ==> IsDigit(s[i])
  }

  function DigitChar(d: nat): (x: char)
    requires d < 10
    ensures IsDigit(x)
  {
    ('0' as int + d) as char
  }

  /** str(n) for n >= 0: decimal digits, no leading zero. */
  function NatText(n: nat): (r: string)
    ensures r != [] && AllDigits(r)
    ensures r[0] == '0' <==> n == 0
    decreases n
  {
    if n < 10 then [DigitChar(n)] else NatText(n / 10) + [DigitChar(n % 10)]
  }

  /** int(s) for a string of decimal digits. */
  function DigitsValue(s: string): nat
    requires AllDigits(s)
    decreases |s|
  {
    if s == [] then 0 else DigitsValue(s[..|s| - 1]) * 10 + (s[|s| - 1] as int - '0' as int)
  }

  /** Reading back the digits str() wrote gives the number. */
  lemma {:induction false} NatTextValue(n: nat)
    ensures DigitsValue(NatText(n)) == n
    decreases n
  {
    if n >= 10 {
      NatTextValue(n / 10);
      var r := NatText(n);
      assert r[..|r| - 1] == NatText(n / 10);
    }
  }

  /** Different numbers are written differently. */
  lemma {:induction false} NatTextInjective(m: nat, n: nat)
    requires NatText(m) == NatText(n)
    ensures m == n
  {
    NatTextValue(m);
    NatTextValue(n);
  }

  /** The length of the run of digits a string starts with. */
  function DigitRun(s: string): (n: nat)
    ensures n <= |s|
    decreases |s|
  {
    if s == [] || !IsDigit(s[0]) then 0 else 1 + DigitRun(s[1..])
  }

  lemma {:induction false} DigitRunCut(x: string, y: string)
    requires AllDigits(x) && y != [] && !IsDigit(y[0])
    ensures DigitRun(x + y) == |x|
    decreases |x|
  {
    if x != [] {
      assert (x + y)[1..] == x[1..] + y;
      DigitRunCut(x[1..], y);
    }
  }

  /** A number written before a non-digit can be read back off the text:
      where the digits end is where the number ends. */
  lemma {:induction false} DigitsCut(x: string, y: string, x2: string, y2: string)
    requires AllDigits(x) && y != [] && !IsDigit(y[0])
    requires AllDigits(x2) && y2 != [] && !IsDigit(y2[0])
    requires x + y == x2 + y2
    ensures x == x2 && y == y2
  {
    DigitRunCut(x, y);
    DigitRunCut(x2, y2);
    var s := x + y;
    assert x == s[..|x|] && x2 == s[..|x2|];
    assert y == s[|x|..] && y2 == s[|x2|..];
  }

  function IntText(i: int): string
  {
    if i < 0 then "-" + NatText(-i) else NatText(i)
  }

  /** str() of a cell; str(None) is "None". */
  function CellText(c: Cell): string
  {
    match c
    case Str(s) => s
    case Int(i) => IntText(i)
    case Bool(b) => if b then "True" else "False"
    case Null => "None"
    case Other(repr) => repr
    case Nested(repr) => repr
  }

  // ---------------------------------------------------------------------
  // The dumper's choice of style for a list
  // ---------------------------------------------------------------------

  /** isinstance(item, (list, dict)) */
  predicate IsCollection(v: Value)
  {
    v.List? || v.Map? || v.cell.Nested?
  }

  /** _represent_list: a list is written in flow style ([a, b, c]) exactly
      when none of its items is a list or a mapping. */
  predicate FlowStyle(items: seq<Value>)
  {
    forall i :: 0 <= i < |items| ==> !IsCollection(items[i])
  }

  /** A row as the dumper sees it. */
  function RowValue(row: Row): Value
  {
    match row
    case Cells(cells) => List(seq(|cells|, i requires 0 <= i < |cells| => Leaf(cells[i])))
    case Text(t) => Leaf(Str(t))
    case Scalar(repr) => Leaf(Other(repr))
  }

  /** The empty list is written in flow style, and a list is written in flow
      style exactly when both of its halves would be. */
  lemma {:induction false} FlowStyleAppend(a: seq<Value>, b: seq<Value>)
    ensures FlowStyle([])
    ensures FlowStyle(a + b) <==> FlowStyle(a) && FlowStyle(b)
  {
    if FlowStyle(a) && FlowStyle(b) {
      forall i | 0 <= i < |a + b| ensures !IsCollection((a + b)[i]) {
        if i < |a| { assert (a + b)[i] == a[i]; } else { assert (a + b)[i] == b[i - |a|]; }
      }
    }
    if FlowStyle(a + b) {
      forall i | 0 <= i < |a| ensures !IsCollection(a[i]) { assert (a + b)[i] == a[i]; }
      forall i | 0 <= i < |b| ensures !IsCollection(b[i]) { assert (a + b)[|a| + i] == b[i]; }
    }
  }

  /** A row of cells stays on one line exactly when none of its cells is a
      nested list or mapping, while a VALUES list holding at least one row of
      cells is written one row per line. */
  lemma {:induction false} RowsFlowStyle(rows: seq<Row>)
    ensures forall i :: 0 <= i < |rows| && rows[i].Cells? ==>
              (FlowStyle(RowValue(rows[i]).items) <==> forall j :: 0 <= j < |rows[i].cells| ==> !rows[i].cells[j].Nested?)
    ensures FlowStyle(seq(|rows|, i requires 0 <= i < |rows| => RowValue(rows[i])))
        <==> forall i :: 0 <= i < |rows| ==> !rows[i].Cells?
  {
    forall i | 0 <= i < |rows| && rows[i].Cells?
      ensures FlowStyle(RowValue(rows[i]).items) <==> forall j :: 0 <= j < |rows[i].cells| ==> !rows[i].cells[j].Nested?
    {
      var items := RowValue(rows[i]).items;
      forall j | 0 <= j < |items| ensures IsCollection(items[j]) <==> rows[i].cells[j].Nested? {
        assert items[j] == Leaf(rows[i].cells[j]);
      }
    }
    var vs := seq(|rows|, i requires 0 <= i < |rows| => RowValue(rows[i]));
    forall i | 0 <= i < |rows| ensures IsCollection(vs[i]) <==> rows[i].Cells? {
      assert vs[i] == RowValue(rows[i]);
    }
  }
}
