// The value objects the key builders work on: Component (models/components.py),
// the ComponentKey scheme literals, and the `case` argument with its
// conversion.
module Models {
  import opened Strings

  /** Component.state: Literal['g', 'l', 's', 'aq']. */
  datatype Phase = Gas | Liquid | Solid | Aqueous
  {
    function Code(): string
    {
      match this
      case Gas => "g"
      case Liquid => "l"
      case Solid => "s"
      case Aqueous => "aq"
    }
  }

  /** A validated Component; mole_fraction is part of no key and is left out. */
  datatype Component = Component(name: string, formula: string, state: Phase)

  /** The ComponentKey literals; OtherScheme stands for every other string. */
  datatype KeyScheme =
    | Name
    | Formula
    | NameState
    | FormulaState
    | NameFormula
    | NameFormulaState
    | FormulaNameState
    | OtherScheme

  /** The `case` argument: None, 'lower', 'upper', or any other value. */
  datatype CaseMode = Unset | Lower | Upper | OtherCase

  function CaseChar(x: char, mode: CaseMode): char
  {
    match mode
    case Lower => LowerChar(x)
    case Upper => UpperChar(x)
    case _ => x
  }

  /** `s.lower()` for Lower, `s.upper()` for Upper, s itself otherwise. */
  function ConvertCase(s: string, mode: CaseMode): (r: string)
    ensures |r| == |s|
  {
    seq(|s|, i requires 0 <= i < |s| => CaseChar(s[i], mode))
  }

  function ConvertCaseAll(parts: seq<string>, mode: CaseMode): (r: seq<string>)
    ensures |r| == |parts|
    ensures forall i :: 0 <= i < |parts| ==> r[i] == ConvertCase(parts[i], mode)
  {
    if parts == [] then [] else [ConvertCase(parts[0], mode)] + ConvertCaseAll(parts[1..], mode)
  }

  /** Case mapping only moves letters to letters: whitespace, '|' and every
      other non-letter stay what they are, and mapping twice is mapping once. */
  lemma {:induction false} CaseCharFacts(x: char, mode: CaseMode)
    ensures IsSpace(CaseChar(x, mode)) == IsSpace(x)
    ensures !IsAsciiLetter(x) ==> CaseChar(x, mode) == x
    ensures IsAsciiLetter(CaseChar(x, mode)) == IsAsciiLetter(x)
    ensures CaseChar(CaseChar(x, mode), mode) == CaseChar(x, mode)
  {
  }

  lemma {:induction false} CaseCharAvoids(x: char, c: char, mode: CaseMode)
    requires !IsAsciiLetter(c)
    ensures CaseChar(x, mode) == c <==> x == c
  {
    CaseCharFacts(x, mode);
  }

  /** No case, or a case other than 'lower' and 'upper', changes nothing. */
  lemma {:induction false} ConvertCaseKeeps(s: string, mode: CaseMode)
    requires mode == Unset || mode == OtherCase
    ensures ConvertCase(s, mode) == s
  {
  }

  lemma {:induction false} ConvertCaseIdempotent(s: string, mode: CaseMode)
    ensures ConvertCase(ConvertCase(s, mode), mode) == ConvertCase(s, mode)
  {
    forall i | 0 <= i < |s| ensures CaseChar(CaseChar(s[i], mode), mode) == CaseChar(s[i], mode) {
      CaseCharFacts(s[i], mode);
    }
  }

  /** Converting case never creates nor removes a non-letter, so a
      non-letter absent from s is absent from the result. */
  lemma {:induction false} ConvertCaseAvoids(s: string, c: char, mode: CaseMode)
    requires !IsAsciiLetter(c)
    ensures c in ConvertCase(s, mode) <==> c in s
  {
    var r := ConvertCase(s, mode);
    forall i | 0 <= i < |s| ensures r[i] == c <==> s[i] == c {
      CaseCharAvoids(s[i], c, mode);
    }
    if c in s {
      var i :| 0 <= i < |s| && s[i] == c;
      assert r[i] == c;
    }
  }

  lemma {:induction false} ConvertCaseCollapsed(s: string, mode: CaseMode)
    requires Collapsed(s)
    ensures Collapsed(ConvertCase(s, mode))
  {
    var r := ConvertCase(s, mode);
    forall i | 0 <= i < |s| ensures IsSpace(r[i]) == IsSpace(s[i]) && (s[i] == ' ' ==> r[i] == ' ') {
      CaseCharFacts(s[i], mode);
    }
  }

  lemma {:induction false} ConvertCaseJoin(c: char, parts: seq<string>, mode: CaseMode)
    requires !IsAsciiLetter(c)
    ensures ConvertCase(Join([c], parts), mode) == Join([c], ConvertCaseAll(parts, mode))
    decreases |parts|
  {
    if |parts| > 1 {
      ConvertCaseJoin(c, parts[1..], mode);
      var rest := Join([c], parts[1..]);
      CaseCharFacts(c, mode);
      assert ConvertCase(parts[0] + [c] + rest, mode)
          == ConvertCase(parts[0], mode) + [c] + ConvertCase(rest, mode);
      assert ConvertCaseAll(parts, mode)[1..] == ConvertCaseAll(parts[1..], mode);
    }
  }
}
