// pythermodb_settings/utils/component_utils.py: identifiers built from
// Component values, for one component and for mixtures.
module ComponentUtils {
  import opened Basics
  import opened Strings
  import opened Models
  import opened Sorting

  /** ComponentIdentity: the two state-qualified identifiers. */
  datatype ComponentIdentity = ComponentIdentity(nameState: string, formulaState: string)

  /** create_component_id. The state is one of the codes g, l, s, aq, so
      strip() and lower() leave it as it is. */
  function CreateComponentId(c: Component, sep: string): (r: ComponentIdentity)
    ensures |r.nameState| == |Strip(c.name)| + |Strip(sep)| + |c.state.Code()|
    ensures |r.formulaState| == |Strip(c.formula)| + |Strip(sep)| + |c.state.Code()|
  {
    var state := c.state.Code();
    ComponentIdentity(Strip(c.name) + Strip(sep) + state, Strip(c.formula) + Strip(sep) + state)
  }

  /** Each identifier is the stripped name (or formula), then the stripped
      separator, then the state code, whatever characters they hold. */
  lemma {:induction false} ComponentIdLayout(c: Component, sep: string)
    ensures var r := CreateComponentId(c, sep);
            && r.nameState[..|Strip(c.name)|] == Strip(c.name)
            && r.nameState[|Strip(c.name)|..|r.nameState| - |c.state.Code()|] == Strip(sep)
            && r.nameState[|r.nameState| - |c.state.Code()|..] == c.state.Code()
    ensures var r := CreateComponentId(c, sep);
            && r.formulaState[..|Strip(c.formula)|] == Strip(c.formula)
            && r.formulaState[|Strip(c.formula)|..|r.formulaState| - |c.state.Code()|] == Strip(sep)
            && r.formulaState[|r.formulaState| - |c.state.Code()|..] == c.state.Code()
  {
    ThreeParts(Strip(c.name), Strip(sep), c.state.Code());
    ThreeParts(Strip(c.formula), Strip(sep), c.state.Code());
  }

  /** The three parts of x + y + z are found where they were put. */
  lemma {:induction false} ThreeParts(x: string, y: string, z: string)
    ensures (x + y + z)[..|x|] == x
    ensures (x + y + z)[|x|..|x + y + z| - |z|] == y
    ensures (x + y + z)[|x + y + z| - |z|..] == z
  {
  }

  /** The codes are lower-case letters only. */
  lemma {:induction false} PhaseCodeLetters(p: Phase)
    ensures p.Code() != []
    ensures forall x :: x in p.Code() ==> 'a' <= x <= 'z'
  {
  }

  /** Splitting name_state at a one-character separator gives back the
      stripped name and the state, as long as the name does not contain that
      character. */
  lemma {:induction false} ComponentIdSplits(c: Component, sep: string, d: char)
    requires Strip(sep) == [d] && !IsAsciiLetter(d)
    requires d !in c.name && d !in c.formula
    ensures Split(CreateComponentId(c, sep).nameState, [d]) == [Strip(c.name), c.state.Code()]
    ensures Split(CreateComponentId(c, sep).formulaState, [d]) == [Strip(c.formula), c.state.Code()]
  {
    PhaseCodeLetters(c.state);
    var code := c.state.Code();
    assert Join([d], [Strip(c.name), code]) == Strip(c.name) + [d] + code;
    assert Join([d], [Strip(c.formula), code]) == Strip(c.formula) + [d] + code;
    SplitJoinChar([Strip(c.name), code], d);
    SplitJoinChar([Strip(c.formula), code], d);
  }

  /** The schemes set_component_id accepts; Name-Formula is not among them. */
  predicate IdScheme(scheme: KeyScheme)
  {
    scheme in {Name, Formula, NameState, FormulaState, NameFormulaState, FormulaNameState}
  }

  /** The identifier of set_component_id before the case conversion; the
      three-part schemes use the separator as given, not stripped. */
  function SchemeId(c: Component, scheme: KeyScheme, sep: string): (r: Option<string>)
    ensures r.Some? <==> IdScheme(scheme)
  {
    var ident := CreateComponentId(c, sep);
    match scheme
    case NameState => Some(Strip(ident.nameState))
    case FormulaState => Some(Strip(ident.formulaState))
    case Name => Some(Strip(c.name))
    case Formula => Some(Strip(c.formula))
    case NameFormulaState => Some(Strip(c.name) + sep + Strip(c.formula) + sep + c.state.Code())
    case FormulaNameState => Some(Strip(c.formula) + sep + Strip(c.name) + sep + c.state.Code())
    case _ => None
  }

  /** set_component_id: an unknown scheme is rejected first, then an unknown
      case; no case leaves the identifier as built. */
  function SetComponentId(c: Component, scheme: KeyScheme, sep: string, mode: CaseMode): (r: Result<string>)
    ensures r.Err? <==> !IdScheme(scheme) || mode == OtherCase
    ensures !IdScheme(scheme) ==> r == Err(InvalidComponentKey)
    ensures IdScheme(scheme) && mode == OtherCase ==> r == Err(InvalidCase)
    ensures r.Ok? ==> r.value == ConvertCase(SchemeId(c, scheme, sep).value, mode)
    ensures r.Ok? && mode == Unset ==> r.value == SchemeId(c, scheme, sep).value
    ensures r.Ok? && mode != Unset ==> ConvertCase(r.value, mode) == r.value
  {
    match SchemeId(c, scheme, sep)
    case None => Err(InvalidComponentKey)
    case Some(id) =>
      if mode == OtherCase then Err(InvalidCase)
      else
        ConvertCaseIdempotent(id, mode);
        Ok(ConvertCase(id, mode))
  }

  lemma {:induction false} SplitThree(x: string, y: string, z: string, d: char)
    requires d !in x && d !in y && d !in z
    ensures Split(x + [d] + y + [d] + z, [d]) == [x, y, z]
  {
    assert Join([d], [x, y, z]) == x + [d] + Join([d], [y, z]);
    assert Join([d], [y, z]) == y + [d] + z;
    assert x + [d] + y + [d] + z == x + [d] + (y + [d] + z);
    SplitJoinChar([x, y, z], d);
  }

  /** With a one-character separator, the Name-Formula-State identifier
      splits back into the stripped name, the stripped formula and the
      state. */
  lemma {:induction false} NameFormulaStateIdSplits(c: Component, d: char)
    requires !IsAsciiLetter(d) && d !in c.name && d !in c.formula
    ensures Split(SchemeId(c, NameFormulaState, [d]).value, [d]) == [Strip(c.name), Strip(c.formula), c.state.Code()]
  {
    PhaseCodeLetters(c.state);
    SplitThree(Strip(c.name), Strip(c.formula), c.state.Code(), d);
  }

  /** The same for Formula-Name-State, formula first. */
  lemma {:induction false} FormulaNameStateIdSplits(c: Component, d: char)
    requires !IsAsciiLetter(d) && d !in c.name && d !in c.formula
    ensures Split(SchemeId(c, FormulaNameState, [d]).value, [d]) == [Strip(c.formula), Strip(c.name), c.state.Code()]
  {
    PhaseCodeLetters(c.state);
    SplitThree(Strip(c.formula), Strip(c.name), c.state.Code(), d);
  }

  // ---------------------------------------------------------------------
  // Mixture identifiers
  // ---------------------------------------------------------------------

  /** create_binary_mixture_id: the two names (or formulas), stripped, in
      ascending order, joined by the stripped delimiter. */
  function CreateBinaryMixtureId(c1: Component, c2: Component, key: KeyScheme, delimiter: string): (r: Result<string>)
    ensures r.Err? <==> key != Name && key != Formula
    ensures r.Err? ==> r.error == InvalidComponentKey
  {
    if key != Name && key != Formula then Err(InvalidComponentKey)
    else
      var ids := if key == Name then [Strip(c1.name), Strip(c2.name)] else [Strip(c1.formula), Strip(c2.formula)];
      Ok(Strip(Join(Strip(delimiter), SortStrings(ids))))
  }

  /** sorted() of two strings. */
  lemma {:induction false} SortPair(a: string, b: string)
    ensures SortStrings([a, b]) == if StrLe(a, b) then [a, b] else [b, a]
  {
    var lo := if StrLe(a, b) then a else b;
    var hi := if StrLe(a, b) then b else a;
    StrLeTotal(a, b);
    assert Sorted([lo, hi]);
    assert multiset([lo, hi]) == multiset([a, b]);
    SortedUnique(SortStrings([a, b]), [lo, hi]);
  }

  /** The binary identifier is the smaller id, the delimiter, the larger id. */
  lemma {:induction false} BinaryMixtureIdOrdered(c1: Component, c2: Component, key: KeyScheme, delimiter: string)
    requires key == Name || key == Formula
    ensures var a := if key == Name then Strip(c1.name) else Strip(c1.formula);
            var b := if key == Name then Strip(c2.name) else Strip(c2.formula);
            CreateBinaryMixtureId(c1, c2, key, delimiter)
              == Ok(Strip(if StrLe(a, b) then a + Strip(delimiter) + b else b + Strip(delimiter) + a))
  {
    var a := if key == Name then Strip(c1.name) else Strip(c1.formula);
    var b := if key == Name then Strip(c2.name) else Strip(c2.formula);
    var d := Strip(delimiter);
    SortPair(a, b);
    if StrLe(a, b) {
      assert Join(d, [a, b]) == a + d + b;
    } else {
      assert Join(d, [b, a]) == b + d + a;
    }
  }

  /** Swapping the two components gives the same identifier. */
  lemma {:induction false} BinaryMixtureIdSymmetric(c1: Component, c2: Component, key: KeyScheme, delimiter: string)
    ensures CreateBinaryMixtureId(c1, c2, key, delimiter) == CreateBinaryMixtureId(c2, c1, key, delimiter)
  {
    if key == Name {
      SortIgnoresOrder([Strip(c1.name), Strip(c2.name)], [Strip(c2.name), Strip(c1.name)]);
    } else if key == Formula {
      SortIgnoresOrder([Strip(c1.formula), Strip(c2.formula)], [Strip(c2.formula), Strip(c1.formula)]);
    }
  }

  /** The schemes create_mixture_id accepts. */
  predicate MixtureScheme(key: KeyScheme)
  {
    IdScheme(key)
  }

  /** The per-component identifier inside create_mixture_id: parts are
      joined by a fixed "-", whatever the delimiter. */
  function MixtureComponentId(c: Component, key: KeyScheme): string
    requires MixtureScheme(key)
  {
    var n, f, s := Strip(c.name), Strip(c.formula), c.state.Code();
    match key
    case Name => n
    case Formula => f
    case NameState => n + "-" + s
    case FormulaState => f + "-" + s
    case NameFormulaState => n + "-" + f + "-" + s
    case FormulaNameState => f + "-" + n + "-" + s
  }

  /** The per-component identifier for one scheme, as a function value. */
  function IdOf(key: KeyScheme): Component -> string
    requires MixtureScheme(key)
  {
    c => MixtureComponentId(c, key)
  }

  /** component_ids, one per component, in list order. */
  function MixtureIds(cs: seq<Component>, key: KeyScheme): (ids: seq<string>)
    requires MixtureScheme(key)
    ensures |ids| == |cs|
  {
    MapIds(IdOf(key), cs)
  }

  /** create_mixture_id: an empty list is rejected before the scheme is
      looked at; 'lower' and 'upper' convert, no case and any other case
      leave the identifier as it is. */
  function CreateMixtureId(cs: seq<Component>, key: KeyScheme, delimiter: string, mode: CaseMode): (r: Result<string>)
    ensures cs == [] ==> r == Err(EmptyComponentList)
    ensures cs != [] && !MixtureScheme(key) ==> r == Err(InvalidComponentKey)
    ensures r.Ok? <==> cs != [] && MixtureScheme(key)
  {
    if cs == [] then Err(EmptyComponentList)
    else if !MixtureScheme(key) then Err(InvalidComponentKey)
    else Ok(ConvertCase(Strip(Join(Strip(delimiter), SortStrings(MixtureIds(cs, key)))), mode))
  }

  /** The per-component identifiers are those of set_component_id with a
      "-" separator and no case, whatever the delimiter. */
  lemma {:induction false} MixtureIdsAreComponentIds(cs: seq<Component>, key: KeyScheme)
    requires MixtureScheme(key)
    ensures forall i :: 0 <= i < |cs| ==> MixtureIds(cs, key)[i] == SetComponentId(cs[i], key, "-", Unset).value
  {
    forall i | 0 <= i < |cs| ensures MixtureIds(cs, key)[i] == SetComponentId(cs[i], key, "-", Unset).value {
      MapIdsAt(IdOf(key), cs, i);
      MixtureComponentIdIsSchemeId(cs[i], key);
    }
  }

  lemma {:induction false} MixtureComponentIdIsSchemeId(c: Component, key: KeyScheme)
    requires MixtureScheme(key)
    ensures MixtureComponentId(c, key) == SchemeId(c, key, "-").value
  {
    PhaseCodeLetters(c.state);
    var ident := CreateComponentId(c, "-");
    assert Strip("-") == "-" by { assert Trimmed("-"); }
    if key == NameState {
      assert ident.nameState == Strip(c.name) + "-" + c.state.Code();
      SuffixedTrimmed(Strip(c.name), c.state.Code());
    } else if key == FormulaState {
      assert ident.formulaState == Strip(c.formula) + "-" + c.state.Code();
      SuffixedTrimmed(Strip(c.formula), c.state.Code());
    }
  }

  /** A trimmed text, "-" and a state code make trimmed text. */
  lemma {:induction false} SuffixedTrimmed(x: string, code: string)
    requires Trimmed(x) && code != [] && forall y :: y in code ==> 'a' <= y <= 'z'
    ensures Strip(x + "-" + code) == x + "-" + code
  {
    var t := x + "-" + code;
    assert t[|t| - 1] == code[|code| - 1] && code[|code| - 1] in code;
    if x == [] { assert t[0] == '-'; } else { assert t[0] == x[0]; }
  }

  /** The mixture identifier: the per-component identifiers in ascending
      order, joined by the stripped delimiter, stripped, then converted to
      the requested case. */
  lemma {:induction false} MixtureIdOrdered(cs: seq<Component>, key: KeyScheme, delimiter: string, mode: CaseMode, s: seq<string>)
    requires cs != [] && MixtureScheme(key)
    requires Sorted(s) && multiset(s) == multiset(MixtureIds(cs, key))
    ensures CreateMixtureId(cs, key, delimiter, mode) == Ok(ConvertCase(Strip(Join(Strip(delimiter), s)), mode))
  {
    SortedUnique(SortStrings(MixtureIds(cs, key)), s);
  }

  lemma {:induction false} MapIdsAt<T>(f: T -> string, xs: seq<T>, i: int)
    requires 0 <= i < |xs|
    ensures MapIds(f, xs)[i] == f(xs[i])
    decreases i
  {
    if i > 0 {
      MapIdsAt(f, xs[1..], i - 1);
    }
  }

  /** [f(x) for x in xs] */
  function MapIds<T>(f: T -> string, xs: seq<T>): (r: seq<string>)
    ensures |r| == |xs|
  {
    if xs == [] then [] else [f(xs[0])] + MapIds(f, xs[1..])
  }

  lemma {:induction false} MapIdsConcat<T>(f: T -> string, a: seq<T>, b: seq<T>)
    ensures MapIds(f, a + b) == MapIds(f, a) + MapIds(f, b)
    decreases |a|
  {
    if a == [] {
      assert a + b == b;
    } else {
      assert (a + b)[0] == a[0];
      assert (a + b)[1..] == a[1..] + b;
      MapIdsConcat(f, a[1..], b);
    }
  }

  lemma {:induction false} RemoveAt<T>(ys: seq<T>, j: int)
    requires 0 <= j < |ys|
    ensures multiset(ys[..j] + ys[j + 1..]) == multiset(ys) - multiset{ys[j]}
  {
    assert ys == ys[..j] + [ys[j]] + ys[j + 1..];
    assert multiset(ys) == multiset(ys[..j]) + multiset{ys[j]} + multiset(ys[j + 1..]);
  }

  lemma {:induction false} MapIdsRemoveAt<T>(f: T -> string, ys: seq<T>, j: int)
    requires 0 <= j < |ys|
    ensures multiset(MapIds(f, ys)) == multiset(MapIds(f, ys[..j] + ys[j + 1..])) + multiset{f(ys[j])}
  {
    assert ys == ys[..j] + ([ys[j]] + ys[j + 1..]);
    MapIdsConcat(f, ys[..j], [ys[j]] + ys[j + 1..]);
    MapIdsConcat(f, [ys[j]], ys[j + 1..]);
    MapIdsConcat(f, ys[..j], ys[j + 1..]);
  }

  /** Lists that are a rearrangement of each other map to identifier lists
      that are a rearrangement of each other. */
  lemma {:induction false} MapIdsPermutation<T>(f: T -> string, xs: seq<T>, ys: seq<T>)
    requires multiset(xs) == multiset(ys)
    ensures multiset(MapIds(f, xs)) == multiset(MapIds(f, ys))
    decreases |xs|
  {
    if xs == [] {
      assert |ys| == |multiset(ys)| == 0;
    } else {
      var j := PositionIn(xs[0], ys);
      var rest := ys[..j] + ys[j + 1..];
      TailPermutation(xs, ys, j);
      MapIdsPermutation(f, xs[1..], rest);
      MapIdsRemoveAt(f, ys, j);
      assert MapIds(f, xs) == [f(xs[0])] + MapIds(f, xs[1..]);
    }
  }

  lemma {:induction false} PositionIn<T>(x: T, ys: seq<T>) returns (j: int)
    requires x in multiset(ys)
    ensures 0 <= j < |ys| && ys[j] == x
  {
    assert x in ys;
    j :| 0 <= j < |ys| && ys[j] == x;
  }

  lemma {:induction false} TailPermutation<T>(xs: seq<T>, ys: seq<T>, j: int)
    requires xs != [] && 0 <= j < |ys| && ys[j] == xs[0] && multiset(xs) == multiset(ys)
    ensures multiset(xs[1..]) == multiset(ys[..j] + ys[j + 1..])
  {
    RemoveAt(ys, j);
    assert xs == [xs[0]] + xs[1..];
    assert multiset(xs[1..]) == multiset(xs) - multiset{xs[0]};
  }

  /** The mixture identifier does not depend on the order of the
      components. */
  lemma {:induction false} MixtureIdOrderFree(xs: seq<Component>, ys: seq<Component>, key: KeyScheme, delimiter: string, mode: CaseMode)
    requires multiset(xs) == multiset(ys)
    ensures CreateMixtureId(xs, key, delimiter, mode) == CreateMixtureId(ys, key, delimiter, mode)
  {
    assert |xs| == |multiset(xs)| == |multiset(ys)| == |ys|;
    if xs != [] && MixtureScheme(key) {
      MapIdsPermutation(IdOf(key), xs, ys);
      SortIgnoresOrder(MixtureIds(xs, key), MixtureIds(ys, key));
    }
  }
}
