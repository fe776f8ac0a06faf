// ComponentExtractor._normalize_key: the canonical form in which requested
// keys and row keys are compared.
module KeyNormalizer {
  import opened Basics
  import opened Strings
  import opened Models

  /** A separator str.split accepts. */
  type Separator = s: string | s != [] witness "-"

  /** `case_mode if case_mode is not None else 'lower'` */
  function TargetCase(mode: CaseMode): (t: CaseMode)
    ensures t != Unset
    ensures mode != Unset ==> t == mode
  {
    if mode.Unset? then Lower else mode
  }

  /** The pipeline for a present value and a non-empty separator. */
  function Normalize(v: string, sep: Separator, mode: CaseMode): string
  {
    var replaced := ReplaceChar(Strip(v), '|', sep);
    var joined := Join(sep, StripAll(Split(replaced, sep)));
    ConvertCase(Collapse(joined), TargetCase(mode))
  }

  /** _normalize_key(value, sep, case_mode): None gives "", an empty
      separator makes str.split raise. */
  function NormalizeKey(value: Option<string>, sep: string, mode: CaseMode): (r: Result<string>)
    ensures value.None? ==> r == Ok("")
    ensures r.Err? <==> value.Some? && sep == []
    ensures r.Err? ==> r.error == EmptySeparator
    ensures value.Some? && sep != [] ==> r == Ok(Normalize(value.value, sep, mode))
  {
    match value
    case None => Ok("")
    case Some(v) => if sep == [] then Err(EmptySeparator) else Ok(Normalize(v, sep, mode))
  }

  /** The steps of the pipeline before case conversion. */
  function Joined(v: string, sep: Separator): string
  {
    Join(sep, StripAll(Split(ReplaceChar(Strip(v), '|', sep), sep)))
  }

  lemma {:induction false} NormalizeSteps(v: string, sep: Separator, mode: CaseMode)
    ensures Normalize(v, sep, mode) == ConvertCase(Collapse(Joined(v, sep)), TargetCase(mode))
  {
  }

  /** Stripping pieces never brings a character in. */
  lemma {:induction false} StripAllAvoids(parts: seq<string>, x: char)
    requires forall p :: p in parts ==> x !in p
    ensures forall p :: p in StripAll(parts) ==> x !in p
  {
    var stripped := StripAll(parts);
    forall p | p in stripped ensures x !in p {
      var i :| 0 <= i < |parts| && stripped[i] == p;
      assert parts[i] in parts;
    }
  }

  /** Without '|' in the separator, no '|' survives the replacement. */
  lemma {:induction false} JoinedAvoidsBar(v: string, sep: Separator)
    requires '|' !in sep
    ensures '|' !in Joined(v, sep)
  {
    var replaced := ReplaceChar(Strip(v), '|', sep);
    var parts := Split(replaced, sep);
    SplitAvoids(replaced, sep, '|');
    StripAllAvoids(parts, '|');
    JoinAvoids(sep, StripAll(parts), '|');
  }

  /** A normalised key has no whitespace at either end and no run of
      whitespace. */
  lemma {:induction false} NormalizeCollapsed(v: string, sep: Separator, mode: CaseMode)
    ensures Collapsed(Normalize(v, sep, mode))
    ensures Trimmed(Normalize(v, sep, mode))
  {
    var collapsed := Collapse(Joined(v, sep));
    NormalizeSteps(v, sep, mode);
    ConvertCaseCollapsed(collapsed, TargetCase(mode));
    CollapsedTrimmed(ConvertCase(collapsed, TargetCase(mode)));
  }

  /** Every '|' is replaced: none is left unless the separator brings one. */
  lemma {:induction false} NormalizeAvoidsBar(v: string, sep: Separator, mode: CaseMode)
    requires '|' !in sep
    ensures '|' !in Normalize(v, sep, mode)
  {
    var collapsed := Collapse(Joined(v, sep));
    NormalizeSteps(v, sep, mode);
    JoinedAvoidsBar(v, sep);
    ConvertCaseAvoids(collapsed, '|', TargetCase(mode));
  }

  /** The case policy: the key is the unconverted key in the target case;
      no mode or 'lower' gives a key lowercasing leaves alone, 'upper' one
      uppercasing leaves alone, any other mode leaves the letters as they
      were. */
  lemma {:induction false} NormalizeCase(v: string, sep: Separator, mode: CaseMode)
    ensures Normalize(v, sep, mode) == ConvertCase(Normalize(v, sep, OtherCase), TargetCase(mode))
    ensures mode == Unset || mode == Lower ==> ConvertCase(Normalize(v, sep, mode), Lower) == Normalize(v, sep, mode)
    ensures mode == Upper ==> ConvertCase(Normalize(v, sep, mode), Upper) == Normalize(v, sep, mode)
    ensures mode == OtherCase ==> Normalize(v, sep, mode) == Collapse(Joined(v, sep))
  {
    NormalizeSteps(v, sep, mode);
    NormalizeSteps(v, sep, OtherCase);
    ConvertCaseKeeps(Collapse(Joined(v, sep)), OtherCase);
    ConvertCaseIdempotent(Collapse(Joined(v, sep)), TargetCase(mode));
  }

  // ---------------------------------------------------------------------
  // Idempotence for a one-character separator
  // ---------------------------------------------------------------------

  /** A separator character for which normalising twice is normalising once:
      not whitespace (strip and split would eat it), not '|' (it would be
      replaced), not a letter (case mapping would create or hide it). */
  predicate SeparatorChar(c: char)
  {
    !IsSpace(c) && c != '|' && !IsAsciiLetter(c)
  }

  /** A segment of a normalised key between two separators. */
  predicate CleanSegment(seg: string, c: char, t: CaseMode)
  {
    Collapsed(seg) && c !in seg && '|' !in seg && ConvertCase(seg, t) == seg
  }

  /** Pieces that may sit between separators before collapsing. */
  predicate Piece(p: string, c: char)
  {
    Trimmed(p) && c !in p && '|' !in p
  }

  lemma {:induction false} JoinedPieces(v: string, c: char) returns (pieces: seq<string>)
    requires SeparatorChar(c)
    ensures pieces != []
    ensures forall p :: p in pieces ==> Piece(p, c)
    ensures Joined(v, [c]) == Join([c], pieces)
  {
    var replaced := ReplaceChar(Strip(v), '|', [c]);
    var parts := Split(replaced, [c]);
    pieces := StripAll(parts);
    assert '|' !in replaced;
    SplitParts(replaced, c, '|');
    forall p | p in pieces ensures Piece(p, c) {
      var i :| 0 <= i < |parts| && pieces[i] == p;
      assert parts[i] in parts;
    }
  }

  lemma {:induction false} CollapsedPieces(pieces: seq<string>, c: char) returns (qs: seq<string>)
    requires SeparatorChar(c) && pieces != []
    requires forall p :: p in pieces ==> Piece(p, c)
    ensures qs != []
    ensures forall q :: q in qs ==> Collapsed(q) && c !in q && '|' !in q
    ensures Collapse(Join([c], pieces)) == Join([c], qs)
  {
    CollapseJoin(c, pieces);
    qs := CollapseAll(pieces);
    forall q | q in qs ensures Collapsed(q) && c !in q && '|' !in q {
      var i :| 0 <= i < |qs| && qs[i] == q;
      assert pieces[i] in pieces;
    }
  }

  lemma {:induction false} CasedPieces(qs: seq<string>, c: char, t: CaseMode) returns (segs: seq<string>)
    requires SeparatorChar(c) && qs != []
    requires forall q :: q in qs ==> Collapsed(q) && c !in q && '|' !in q
    ensures segs != []
    ensures forall seg :: seg in segs ==> CleanSegment(seg, c, t)
    ensures ConvertCase(Join([c], qs), t) == Join([c], segs)
  {
    ConvertCaseJoin(c, qs, t);
    segs := ConvertCaseAll(qs, t);
    forall seg | seg in segs ensures CleanSegment(seg, c, t) {
      var i :| 0 <= i < |segs| && segs[i] == seg;
      var q := qs[i];
      assert q in qs;
      ConvertCaseCollapsed(q, t);
      ConvertCaseAvoids(q, c, t);
      ConvertCaseAvoids(q, '|', t);
      ConvertCaseIdempotent(q, t);
    }
  }

  /** A normalised key is its segments joined by the separator, each segment
      clean. */
  lemma {:induction false} NormalizeSegments(v: string, c: char, mode: CaseMode) returns (segs: seq<string>)
    requires SeparatorChar(c)
    ensures segs != []
    ensures forall seg :: seg in segs ==> CleanSegment(seg, c, TargetCase(mode))
    ensures Normalize(v, [c], mode) == Join([c], segs)
  {
    NormalizeSteps(v, [c], mode);
    var pieces := JoinedPieces(v, c);
    var qs := CollapsedPieces(pieces, c);
    segs := CasedPieces(qs, c, TargetCase(mode));
  }

  lemma {:induction false} StripAllTrimmed(parts: seq<string>)
    requires forall p :: p in parts ==> Trimmed(p)
    ensures StripAll(parts) == parts
  {
    forall i | 0 <= i < |parts| ensures StripAll(parts)[i] == parts[i] {
      assert parts[i] in parts;
    }
  }

  /** The front of the pipeline leaves collapsed segments joined by c
      alone. */
  lemma {:induction false} JoinedOfClean(segs: seq<string>, c: char)
    requires SeparatorChar(c) && segs != []
    requires forall seg :: seg in segs ==> Collapsed(seg) && c !in seg && '|' !in seg
    ensures Joined(Join([c], segs), [c]) == Join([c], segs)
  {
    var s := Join([c], segs);
    assert forall seg :: seg in segs ==> Trimmed(seg) by {
      forall seg | seg in segs ensures Trimmed(seg) { CollapsedTrimmed(seg); }
    }
    assert Trimmed(s) by { JoinTrimmed(c, segs); }
    assert '|' !in s by { JoinAvoids([c], segs, '|'); }
    assert Split(s, [c]) == segs by { SplitJoinChar(segs, c); }
    assert StripAll(segs) == segs by { StripAllTrimmed(segs); }
    JoinedOfTrimmed(s, c);
  }

  /** On trimmed text without '|', only the split and the stripping of the
      pieces are left to do. */
  lemma {:induction false} JoinedOfTrimmed(s: string, c: char)
    requires Trimmed(s) && '|' !in s
    ensures Joined(s, [c]) == Join([c], StripAll(Split(s, [c])))
  {
    assert Strip(s) == s;
    assert ReplaceChar(s, '|', [c]) == s;
  }

  lemma {:induction false} CollapseOfClean(segs: seq<string>, c: char)
    requires SeparatorChar(c)
    requires forall seg :: seg in segs ==> Collapsed(seg)
    ensures Collapse(Join([c], segs)) == Join([c], segs)
  {
    forall seg | seg in segs ensures Trimmed(seg) && Collapse(seg) == seg {
      CollapsedTrimmed(seg);
      CollapseCollapsed(seg);
    }
    CollapseJoin(c, segs);
    assert CollapseAll(segs) == segs;
  }

  lemma {:induction false} CaseOfClean(segs: seq<string>, c: char, t: CaseMode)
    requires SeparatorChar(c)
    requires forall seg :: seg in segs ==> ConvertCase(seg, t) == seg
    ensures ConvertCase(Join([c], segs), t) == Join([c], segs)
  {
    ConvertCaseJoin(c, segs, t);
    assert ConvertCaseAll(segs, t) == segs;
  }

  /** Clean segments joined by the separator are already normalised. */
  lemma {:induction false} NormalizeOfClean(segs: seq<string>, c: char, mode: CaseMode)
    requires SeparatorChar(c) && segs != []
    requires forall seg :: seg in segs ==> CleanSegment(seg, c, TargetCase(mode))
    ensures Normalize(Join([c], segs), [c], mode) == Join([c], segs)
  {
    var s := Join([c], segs);
    NormalizeSteps(s, [c], mode);
    JoinedOfClean(segs, c);
    CollapseOfClean(segs, c);
    CaseOfClean(segs, c, TargetCase(mode));
  }

  /** Normalising a normalised key changes nothing. */
  lemma {:induction false} NormalizeIdempotent(v: string, c: char, mode: CaseMode)
    requires SeparatorChar(c)
    ensures Normalize(Normalize(v, [c], mode), [c], mode) == Normalize(v, [c], mode)
  {
    var segs := NormalizeSegments(v, c, mode);
    NormalizeOfClean(segs, c, mode);
  }
}
