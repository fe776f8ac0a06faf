// The Python string operations the key normaliser and the ID builders are
// made of: str.strip(), str.replace(), str.split(sep), " ".join(s.split()),
// sep.join(parts), and ASCII case mapping.
module Strings {
  import opened Basics

  /** str.isspace() on the ASCII and Latin-1 range: the characters that
      str.strip() and str.split() treat as whitespace. */
  predicate IsSpace(c: char)
  {
    9 <= c as int <= 13 || 28 <= c as int <= 32 || c as int == 0x85 || c as int == 0xA0
  }

  predicate IsAsciiLetter(c: char)
  {
    'A' <= c <= 'Z' || 'a' <= c <= 'z'
  }

  function LowerChar(c: char): char
  {
    if 'A' <= c <= 'Z' then (c as int + 32) as char else c
  }

  function UpperChar(c: char): char
  {
    if 'a' <= c <= 'z' then (c as int - 32) as char else c
  }

  /** No whitespace at either end. */
  predicate Trimmed(s: string)
  {
    s == [] || (!IsSpace(s[0]) && !IsSpace(s[|s| - 1]))
  }

  function TrimStart(s: string): (r: string)
    ensures |r| <= |s| && r == s[|s| - |r|..]
    ensures r == [] || !IsSpace(r[0])
    decreases |s|
  {
    if s != [] && IsSpace(s[0]) then TrimStart(s[1..]) else s
  }

  /** TrimStart drops whitespace only. */
  lemma {:induction false} TrimStartDrops(s: string)
    ensures forall k :: 0 <= k < |s| - |TrimStart(s)| ==> IsSpace(s[k])
    decreases |s|
  {
    if s != [] && IsSpace(s[0]) {
      TrimStartDrops(s[1..]);
      forall k | 1 <= k < |s| - |TrimStart(s)| ensures IsSpace(s[k]) {
        assert s[k] == s[1..][k - 1];
      }
    }
  }

  function TrimEnd(s: string): (r: string)
    ensures |r| <= |s| && r == s[..|r|]
    ensures r == [] || !IsSpace(r[|r| - 1])
    decreases |s|
  {
    if s != [] && IsSpace(s[|s| - 1]) then TrimEnd(s[..|s| - 1]) else s
  }

  /** TrimEnd drops whitespace only. */
  lemma {:induction false} TrimEndDrops(s: string)
    ensures forall k :: |TrimEnd(s)| <= k < |s| ==> IsSpace(s[k])
    decreases |s|
  {
    if s != [] && IsSpace(s[|s| - 1]) {
      TrimEndDrops(s[..|s| - 1]);
      forall k | |TrimEnd(s)| <= k < |s| - 1 ensures IsSpace(s[k]) {
        assert s[k] == s[..|s| - 1][k];
      }
    }
  }

  /** str.strip(): a slice of s with no whitespace at either end;
      StripEnds says that only whitespace is cut off. */
  function Strip(s: string): (r: string)
    ensures Trimmed(r)
    ensures forall x :: x in r ==> x in s
    ensures Trimmed(s) ==> r == s
  {
    var t := TrimStart(s);
    var r := TrimEnd(t);
    assert forall x :: x in r ==> x in t;
    r
  }

  /** str.strip() removes exactly the whitespace at both ends: the result is
      the slice of s between a whitespace prefix and a whitespace suffix. */
  lemma {:induction false} StripEnds(s: string)
    ensures exists i, j :: 0 <= i <= j <= |s| && Strip(s) == s[i..j]
              && (forall k :: 0 <= k < i ==> IsSpace(s[k])) && (forall k :: j <= k < |s| ==> IsSpace(s[k]))
  {
    TrimStartDrops(s);
    TrimEndDrops(TrimStart(s));
    TrimSlice(s, TrimStart(s), TrimEnd(TrimStart(s)));
  }

  lemma {:induction false} TrimSlice(s: string, t: string, r: string)
    requires |t| <= |s| && t == s[|s| - |t|..] && forall k :: 0 <= k < |s| - |t| ==> IsSpace(s[k])
    requires |r| <= |t| && r == t[..|r|] && forall k :: |r| <= k < |t| ==> IsSpace(t[k])
    ensures exists i, j :: 0 <= i <= j <= |s| && r == s[i..j]
              && (forall k :: 0 <= k < i ==> IsSpace(s[k])) && (forall k :: j <= k < |s| ==> IsSpace(s[k]))
  {
    var i := |s| - |t|;
    assert r == s[i..i + |r|];
    forall k | i + |r| <= k < |s| ensures IsSpace(s[k]) {
      assert s[k] == t[k - i];
    }
  }

  /** [p.strip() for p in parts] */
  function StripAll(parts: seq<string>): (r: seq<string>)
    ensures |r| == |parts|
    ensures forall i :: 0 <= i < |parts| ==> r[i] == Strip(parts[i])
  {
    if parts == [] then [] else [Strip(parts[0])] + StripAll(parts[1..])
  }

  /** sep.join(parts) */
  function Join(sep: string, parts: seq<string>): string
    decreases |parts|
  {
    if |parts| == 0 then []
    else if |parts| == 1 then parts[0]
    else parts[0] + sep + Join(sep, parts[1..])
  }

  predicate OccursAt(s: string, pat: string, i: nat)
  {
    i + |pat| <= |s| && s[i..i + |pat|] == pat
  }

  lemma {:induction false} OccursShift(s: string, pat: string)
    requires s != []
    ensures forall j: nat :: 1 <= j ==> (OccursAt(s, pat, j) <==> OccursAt(s[1..], pat, j - 1))
  {
    forall j: nat | 1 <= j
      ensures OccursAt(s, pat, j) <==> OccursAt(s[1..], pat, j - 1)
    {
      if j + |pat| <= |s| {
        assert s[1..][j - 1..j - 1 + |pat|] == s[j..j + |pat|];
      }
    }
  }

  /** str.find(pat), None for -1; IndexOfFirst states that it is the first
      occurrence. */
  function IndexOf(s: string, pat: string): (r: Option<nat>)
    ensures r.Some? ==> r.value + |pat| <= |s|
    decreases |s|
  {
    if |s| < |pat| then None
    else if s[..|pat|] == pat then Some(0)
    else
      match IndexOf(s[1..], pat)
      case None => None
      case Some(k) => Some(k + 1)
  }

  /** IndexOf finds an occurrence and no earlier one, or reports that there
      is none. */
  lemma {:induction false} IndexOfFirst(s: string, pat: string)
    ensures IndexOf(s, pat).Some? ==> OccursAt(s, pat, IndexOf(s, pat).value)
    ensures IndexOf(s, pat).Some? ==> forall j: nat :: j < IndexOf(s, pat).value ==> !OccursAt(s, pat, j)
    ensures IndexOf(s, pat).None? ==> forall j: nat :: !OccursAt(s, pat, j)
    decreases |s|
  {
    if |s| >= |pat| && s[..|pat|] != pat {
      IndexOfFirst(s[1..], pat);
      OccursShift(s, pat);
    }
  }

  /** str.split(sep) for a non-empty sep: cut at every occurrence, scanning
      from the left; never returns an empty list. */
  function Split(s: string, sep: string): (parts: seq<string>)
    requires sep != []
    ensures parts != []
    decreases |s|
  {
    match IndexOf(s, sep)
    case None => [s]
    case Some(i) => [s[..i]] + Split(s[i + |sep|..], sep)
  }

  /** s.replace(target, repl) for a one-character target. */
  function ReplaceChar(s: string, target: char, repl: string): (r: string)
    ensures forall x :: x in r ==> (x in s && x != target) || x in repl
    ensures target !in s ==> r == s
    decreases |s|
  {
    if s == [] then []
    else
      var r := (if s[0] == target then repl else [s[0]]) + ReplaceChar(s[1..], target, repl);
      assert s == [s[0]] + s[1..];
      r
  }

  /** Replacement distributes over concatenation: every target is replaced
      where it stands and every other character is kept, in order. */
  lemma {:induction false} ReplaceCharAppend(a: string, b: string, target: char, repl: string)
    ensures ReplaceChar(a + b, target, repl) == ReplaceChar(a, target, repl) + ReplaceChar(b, target, repl)
    decreases |a|
  {
    if a != [] {
      assert (a + b)[0] == a[0];
      assert (a + b)[1..] == a[1..] + b;
      ReplaceCharAppend(a[1..], b, target, repl);
    } else {
      assert a + b == b;
    }
  }

  /** One character: the target becomes the replacement, anything else
      stays. */
  lemma {:induction false} ReplaceCharOne(x: char, target: char, repl: string)
    ensures ReplaceChar([x], target, repl) == if x == target then repl else [x]
  {
    assert [x][1..] == [];
  }

  /** The scanner behind " ".join(s.split()): `started` says a word has been
      emitted, `gap` says whitespace followed it. */
  function Squeeze(s: string, started: bool, gap: bool): string
    decreases |s|
  {
    if s == [] then []
    else if IsSpace(s[0]) then Squeeze(s[1..], started, started)
    else (if gap then " " else "") + [s[0]] + Squeeze(s[1..], true, false)
  }

  /** Every whitespace character is a plain space followed by a non-space. */
  predicate SingleSpaced(s: string)
  {
    forall i :: 0 <= i < |s| && IsSpace(s[i]) ==> s[i] == ' ' && i + 1 < |s| && !IsSpace(s[i + 1])
  }

  /** The shape " ".join(s.split()) produces: trimmed, single spaces only. */
  predicate Collapsed(s: string)
  {
    SingleSpaced(s) && (s == [] || !IsSpace(s[0]))
  }

  lemma {:induction false} SqueezeShape(s: string, started: bool, gap: bool)
    requires gap ==> started
    ensures SingleSpaced(Squeeze(s, started, gap))
    ensures !started ==> Squeeze(s, started, gap) == [] || !IsSpace(Squeeze(s, started, gap)[0])
    ensures forall x :: x in Squeeze(s, started, gap) ==> x == ' ' || x in s
    decreases |s|
  {
    if s == [] {
    } else if IsSpace(s[0]) {
      SqueezeShape(s[1..], started, started);
    } else {
      SqueezeShape(s[1..], true, false);
      var rest := Squeeze(s[1..], true, false);
      var r := Squeeze(s, started, gap);
      assert forall x :: x in rest ==> x == ' ' || x in s;
      if gap {
        assert r == [' ', s[0]] + rest;
        forall i | 0 <= i < |r| && IsSpace(r[i])
          ensures r[i] == ' ' && i + 1 < |r| && !IsSpace(r[i + 1])
        {
          if i >= 2 { assert r[i] == rest[i - 2]; }
        }
      } else {
        assert r == [s[0]] + rest;
        forall i | 0 <= i < |r| && IsSpace(r[i])
          ensures r[i] == ' ' && i + 1 < |r| && !IsSpace(r[i + 1])
        {
          assert r[i] == rest[i - 1];
        }
      }
    }
  }

  /** " ".join(s.split()) */
  function Collapse(s: string): (r: string)
    ensures Collapsed(r)
    ensures forall x :: x in r ==> x == ' ' || x in s
  {
    SqueezeShape(s, false, false);
    Squeeze(s, false, false)
  }

  /** A run of whitespace is skipped; whitespace after a word opens a gap. */
  lemma {:induction false} SqueezeSpaces(w: string, y: string, started: bool, gap: bool)
    requires w != [] && forall k :: 0 <= k < |w| ==> IsSpace(w[k])
    ensures Squeeze(w + y, started, gap) == Squeeze(y, started, started)
    decreases |w|
  {
    assert (w + y)[0] == w[0];
    assert (w + y)[1..] == w[1..] + y;
    if |w| > 1 {
      SqueezeSpaces(w[1..], y, started, started);
    } else {
      assert w[1..] + y == y;
    }
  }

  /** After text ending in a word, the scan continues as after any word. */
  lemma {:induction false} SqueezeAfterWord(a: string, y: string, started: bool, gap: bool)
    requires a != [] && !IsSpace(a[|a| - 1])
    requires gap ==> started
    ensures Squeeze(a + y, started, gap) == Squeeze(a, started, gap) + Squeeze(y, true, false)
    decreases |a|
  {
    assert (a + y)[0] == a[0];
    assert (a + y)[1..] == a[1..] + y;
    if |a| == 1 {
      assert a[1..] + y == y;
    } else if IsSpace(a[0]) {
      SqueezeAfterWord(a[1..], y, started, started);
    } else {
      SqueezeAfterWord(a[1..], y, true, false);
    }
  }

  /** Whitespace alone collapses to nothing. */
  lemma {:induction false} CollapseBlank(w: string)
    requires forall k :: 0 <= k < |w| ==> IsSpace(w[k])
    ensures Collapse(w) == []
  {
    if w != [] {
      SqueezeSpaces(w, [], false, false);
      assert w + [] == w;
    }
  }

  /** A run of whitespace between two words of trimmed text becomes one
      space, and the text on either side is collapsed on its own: the words
      are kept, in order. */
  lemma {:induction false} CollapseWords(a: string, w: string, b: string)
    requires a != [] && b != [] && Trimmed(a) && Trimmed(b)
    requires w != [] && forall k :: 0 <= k < |w| ==> IsSpace(w[k])
    ensures Collapse(a + w + b) == Collapse(a) + " " + Collapse(b)
  {
    assert a + w + b == a + (w + b);
    SqueezeAfterWord(a, w + b, false, false);
    SqueezeSpaces(w, b, true, false);
    assert b == [b[0]] + b[1..];
  }

  function CollapseAll(parts: seq<string>): (r: seq<string>)
    ensures |r| == |parts|
    ensures forall i :: 0 <= i < |parts| ==> r[i] == Collapse(parts[i])
  {
    if parts == [] then [] else [Collapse(parts[0])] + CollapseAll(parts[1..])
  }

  // ---------------------------------------------------------------------
  // Lemmas about splitting and joining
  // ---------------------------------------------------------------------

  /** Joining a piece in front of a non-empty list puts the separator
      between them. */
  lemma {:induction false} JoinCons(sep: string, a: string, tail: seq<string>)
    requires tail != []
    ensures Join(sep, [a] + tail) == a + sep + Join(sep, tail)
  {
    assert ([a] + tail)[1..] == tail;
  }

  /** A string is the text before an occurrence, the occurrence, and the
      text after it. */
  lemma {:induction false} Reassemble(s: string, sep: string, i: nat)
    requires OccursAt(s, sep, i)
    ensures s[..i] + sep + s[i + |sep|..] == s
  {
    assert s == s[..i] + s[i..i + |sep|] + s[i + |sep|..];
  }

  /** Joining what str.split cut apart gives back the string. */
  lemma {:induction false} JoinSplit(s: string, sep: string)
    requires sep != []
    ensures Join(sep, Split(s, sep)) == s
    decreases |s|
  {
    IndexOfFirst(s, sep);
    match IndexOf(s, sep)
    case None =>
    case Some(i) =>
      var rest := s[i + |sep|..];
      JoinSplit(rest, sep);
      JoinCons(sep, s[..i], Split(rest, sep));
      Reassemble(s, sep, i);
  }

  lemma {:induction false} OccursSingle(s: string, c: char)
    ensures forall j: nat :: OccursAt(s, [c], j) <==> j < |s| && s[j] == c
  {
    forall j: nat
      ensures OccursAt(s, [c], j) <==> j < |s| && s[j] == c
    {
      if j < |s| { assert s[j..j + 1] == [s[j]]; }
    }
  }

  lemma {:induction false} SliceAvoids(s: string, x: char, i: nat, j: nat)
    requires x !in s && i <= j <= |s|
    ensures x !in s[i..j]
  {
    forall k | 0 <= k < j - i ensures s[i..j][k] != x {
      assert s[i..j][k] == s[i + k] && s[i + k] in s;
    }
  }

  /** Every piece str.split returns is a slice of s, so a character absent
      from s is absent from every piece. */
  lemma {:induction false} SplitAvoids(s: string, sep: string, x: char)
    requires sep != [] && x !in s
    ensures forall p :: p in Split(s, sep) ==> x !in p
    decreases |s|
  {
    match IndexOf(s, sep)
    case None =>
    case Some(i) =>
      var rest := s[i + |sep|..];
      SliceAvoids(s, x, 0, i);
      SliceAvoids(s, x, i + |sep|, |s|);
      assert s[0..i] == s[..i];
      SplitAvoids(rest, sep, x);
      assert Split(s, sep) == [s[..i]] + Split(rest, sep);
  }

  /** The pieces str.split(c) returns never contain c, and every character
      in them comes from s. */
  lemma {:induction false} SplitParts(s: string, c: char, x: char)
    ensures forall p :: p in Split(s, [c]) ==> c !in p
    ensures x !in s ==> forall p :: p in Split(s, [c]) ==> x !in p
    decreases |s|
  {
    IndexOfFirst(s, [c]);
    OccursSingle(s, c);
    match IndexOf(s, [c])
    case None =>
      forall j | 0 <= j < |s| ensures s[j] != c { assert !OccursAt(s, [c], j); }
    case Some(i) =>
      var rest := s[i + 1..];
      forall j | 0 <= j < i ensures s[..i][j] != c { assert !OccursAt(s, [c], j); }
      if x !in s {
        SliceAvoids(s, x, 0, i);
        SliceAvoids(s, x, i + 1, |s|);
        assert s[0..i] == s[..i];
      }
      SplitParts(rest, c, x);
      assert Split(s, [c]) == [s[..i]] + Split(rest, [c]);
  }

  lemma {:induction false} JoinAvoids(sep: string, parts: seq<string>, x: char)
    requires x !in sep
    requires forall p :: p in parts ==> x !in p
    ensures x !in Join(sep, parts)
    decreases |parts|
  {
    if |parts| > 1 {
      JoinAvoids(sep, parts[1..], x);
    }
  }

  /** str.split(c) cuts at the first c. */
  lemma {:induction false} SplitAtChar(s: string, c: char, k: nat)
    requires k < |s| && s[k] == c
    requires forall j :: 0 <= j < k ==> s[j] != c
    ensures Split(s, [c]) == [s[..k]] + Split(s[k + 1..], [c])
  {
    IndexOfFirst(s, [c]);
    OccursSingle(s, c);
    var r := IndexOf(s, [c]);
    assert OccursAt(s, [c], k);
    assert r.Some? && r.value == k;
  }

  lemma {:induction false} SplitNoChar(s: string, c: char)
    requires c !in s
    ensures Split(s, [c]) == [s]
  {
    IndexOfFirst(s, [c]);
    OccursSingle(s, c);
    assert IndexOf(s, [c]).None?;
  }

  /** The two sides of a one-character cut. */
  lemma {:induction false} CutAt(a: string, c: char, b: string)
    ensures (a + [c] + b)[..|a|] == a
    ensures (a + [c] + b)[|a| + 1..] == b
    ensures |a| < |a + [c] + b| && (a + [c] + b)[|a|] == c
    ensures forall j :: 0 <= j < |a| ==> (a + [c] + b)[j] == a[j]
  {
  }

  /** Splitting a join on c cuts off the first piece when that piece has
      no c. */
  lemma {:induction false} SplitJoinStep(parts: seq<string>, c: char)
    requires |parts| > 1 && c !in parts[0]
    ensures Split(Join([c], parts), [c]) == [parts[0]] + Split(Join([c], parts[1..]), [c])
  {
    var rest := Join([c], parts[1..]);
    CutAt(parts[0], c, rest);
    var s := parts[0] + [c] + rest;
    forall j | 0 <= j < |parts[0]| ensures s[j] != c {
      assert parts[0][j] in parts[0];
    }
    SplitAtChar(s, c, |parts[0]|);
  }

  /** Splitting on one character undoes joining on it, provided no piece
      contains that character. */
  lemma {:induction false} SplitJoinChar(parts: seq<string>, c: char)
    requires parts != []
    requires forall p :: p in parts ==> c !in p
    ensures Split(Join([c], parts), [c]) == parts
    decreases |parts|
  {
    assert parts[0] in parts;
    if |parts| == 1 {
      SplitNoChar(parts[0], c);
    } else {
      SplitJoinStep(parts, c);
      assert forall p :: p in parts[1..] ==> p in parts;
      SplitJoinChar(parts[1..], c);
      assert parts == [parts[0]] + parts[1..];
    }
  }

  lemma {:induction false} JoinTrimmed(c: char, parts: seq<string>)
    requires !IsSpace(c)
    requires forall p :: p in parts ==> Trimmed(p)
    ensures Trimmed(Join([c], parts))
    decreases |parts|
  {
    if |parts| == 1 {
      assert parts[0] in parts;
    } else if |parts| > 1 {
      JoinTrimmed(c, parts[1..]);
      var rest := Join([c], parts[1..]);
      var s := parts[0] + [c] + rest;
      assert Join([c], parts) == s;
      assert parts[0] in parts;
      if parts[0] == [] {
        assert s[0] == c;
      } else {
        assert s[0] == parts[0][0];
      }
      if rest == [] {
        assert s[|s| - 1] == c;
      } else {
        assert s[|s| - 1] == rest[|rest| - 1];
      }
    }
  }

  // ---------------------------------------------------------------------
  // Lemmas about whitespace collapsing
  // ---------------------------------------------------------------------

  lemma {:induction false} SqueezeFromWord(s: string)
    requires s == [] || !IsSpace(s[0])
    ensures Squeeze(s, true, false) == Squeeze(s, false, false)
  {
  }

  lemma {:induction false} SqueezeSingleSpaced(s: string)
    requires SingleSpaced(s)
    ensures Squeeze(s, true, false) == s
    decreases |s|
  {
    if s != [] {
      var t := s[1..];
      assert forall i :: 0 <= i < |t| ==> t[i] == s[i + 1];
      if IsSpace(s[0]) {
        var u := t[1..];
        assert forall i :: 0 <= i < |u| ==> u[i] == s[i + 2];
        SqueezeSingleSpaced(u);
        assert Squeeze(s, true, false) == Squeeze(t, true, true);
        assert Squeeze(t, true, true) == " " + [t[0]] + Squeeze(u, true, false);
        assert s == [s[0]] + [t[0]] + u;
      } else {
        SqueezeSingleSpaced(t);
        assert s == [s[0]] + t;
      }
    }
  }

  lemma {:induction false} CollapsedTrimmed(s: string)
    requires Collapsed(s)
    ensures Trimmed(s)
  {
  }

  /** Text already in collapsed form is left as it is. */
  lemma {:induction false} CollapseCollapsed(s: string)
    requires Collapsed(s)
    ensures Collapse(s) == s
  {
    SqueezeSingleSpaced(s);
    SqueezeFromWord(s);
  }

  lemma {:induction false} SqueezeAppend(p: string, b: string, started: bool, gap: bool)
    requires p != [] && !IsSpace(p[|p| - 1])
    ensures Squeeze(p + b, started, gap) == Squeeze(p, started, gap) + Squeeze(b, true, false)
    decreases |p|
  {
    assert (p + b)[1..] == p[1..] + b;
    if IsSpace(p[0]) {
      SqueezeAppend(p[1..], b, started, started);
    } else if |p| == 1 {
      assert p[1..] == [];
    } else {
      SqueezeAppend(p[1..], b, true, false);
    }
  }

  lemma {:induction false} CollapseCons(p: string, c: char, rest: string)
    requires Trimmed(p) && !IsSpace(c)
    requires rest == [] || !IsSpace(rest[0])
    ensures Collapse(p + [c] + rest) == Collapse(p) + [c] + Collapse(rest)
  {
    SqueezeFromWord(rest);
    assert Squeeze([c] + rest, true, false) == [c] + Squeeze(rest, true, false) by {
      assert ([c] + rest)[1..] == rest;
    }
    if p == [] {
      assert p + [c] + rest == [c] + rest;
      assert ([c] + rest)[1..] == rest;
    } else {
      assert p + [c] + rest == p + ([c] + rest);
      SqueezeAppend(p, [c] + rest, false, false);
    }
  }

  /** Collapsing whitespace acts piece by piece when the pieces are trimmed and
      joined by a non-space character. */
  lemma {:induction false} CollapseJoin(c: char, parts: seq<string>)
    requires !IsSpace(c)
    requires forall p :: p in parts ==> Trimmed(p)
    ensures Collapse(Join([c], parts)) == Join([c], CollapseAll(parts))
    decreases |parts|
  {
    if |parts| > 1 {
      var rest := Join([c], parts[1..]);
      CollapseJoin(c, parts[1..]);
      JoinTrimmed(c, parts[1..]);
      assert parts[0] in parts;
      CollapseCons(parts[0], c, rest);
      assert CollapseAll(parts)[1..] == CollapseAll(parts[1..]);
    }
  }
}
