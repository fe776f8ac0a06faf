// Python's sorted() on str: code-point lexicographic order, a shorter
// prefix first.
module Sorting {

  /** a <= b for Python str. */
  predicate StrLe(a: string, b: string)
    decreases |a|
  {
    a == [] || (b != [] && (a[0] < b[0] || (a[0] == b[0] && StrLe(a[1..], b[1..]))))
  }

  lemma {:induction false} StrLeReflexive(a: string)
    ensures StrLe(a, a)
    decreases |a|
  {
    if a != [] { StrLeReflexive(a[1..]); }
  }

  lemma {:induction false} StrLeTotal(a: string, b: string)
    ensures StrLe(a, b) || StrLe(b, a)
    decreases |a|
  {
    if a != [] && b != [] && a[0] == b[0] { StrLeTotal(a[1..], b[1..]); }
  }

  lemma {:induction false} StrLeAntisymmetric(a: string, b: string)
    requires StrLe(a, b) && StrLe(b, a)
    ensures a == b
    decreases |a|
  {
    if a != [] {
      StrLeAntisymmetric(a[1..], b[1..]);
      assert a == [a[0]] + a[1..] && b == [b[0]] + b[1..];
    }
  }

  lemma {:induction false} StrLeTransitive(a: string, b: string, c: string)
    requires StrLe(a, b) && StrLe(b, c)
    ensures StrLe(a, c)
    decreases |a|
  {
    if a != [] && a[0] == b[0] && b[0] == c[0] { StrLeTransitive(a[1..], b[1..], c[1..]); }
  }

  predicate Sorted(s: seq<string>)
  {
    forall i, j :: 0 <= i < j < |s| ==> StrLe(s[i], s[j])
  }

  /** Sorted and without repetitions: the shape of sorted(some_set). */
  predicate StrictlySorted(s: seq<string>)
  {
    forall i, j :: 0 <= i < j < |s| ==> StrLe(s[i], s[j]) && s[i] != s[j]
  }

  /** xs lists the members of keys in ascending order, each once. */
  ghost predicate SortedListOf(xs: seq<string>, keys: set<string>)
  {
    StrictlySorted(xs) && forall x :: x in xs <==> x in keys
  }

  function Insert(x: string, s: seq<string>): (r: seq<string>)
    ensures multiset(r) == multiset(s) + multiset{x}
    decreases |s|
  {
    if s == [] then [x]
    else if StrLe(x, s[0]) then [x] + s
    else
      assert s == [s[0]] + s[1..];
      [s[0]] + Insert(x, s[1..])
  }

  lemma {:induction false} InsertSorted(x: string, s: seq<string>)
    requires Sorted(s)
    ensures Sorted(Insert(x, s))
    decreases |s|
  {
    if s != [] {
      if StrLe(x, s[0]) {
        forall j | 0 < j < |s| ensures StrLe(x, s[j]) { StrLeTransitive(x, s[0], s[j]); }
      } else {
        StrLeTotal(x, s[0]);
        InsertSorted(x, s[1..]);
        var tail := Insert(x, s[1..]);
        forall y | y in tail ensures StrLe(s[0], y) {
          assert y in multiset(tail);
          if y != x { assert y in s[1..]; }
        }
      }
    }
  }

  /** Putting a string below every member of a strictly sorted list in
      front keeps it strictly sorted. */
  lemma {:induction false} ConsStrictlySorted(x: string, s: seq<string>)
    requires StrictlySorted(s)
    requires forall j :: 0 <= j < |s| ==> StrLe(x, s[j]) && x != s[j]
    ensures StrictlySorted([x] + s)
  {
    var r := [x] + s;
    forall i, j | 0 <= i < j < |r| ensures StrLe(r[i], r[j]) && r[i] != r[j] {
      assert r[j] == s[j - 1];
      if i > 0 { assert r[i] == s[i - 1]; }
    }
  }

  lemma {:induction false} InsertStrictlySorted(x: string, s: seq<string>)
    requires StrictlySorted(s) && x !in s
    ensures StrictlySorted(Insert(x, s))
    decreases |s|
  {
    if s != [] {
      if StrLe(x, s[0]) {
        forall j | 0 <= j < |s| ensures StrLe(x, s[j]) && x != s[j] {
          if j > 0 { StrLeTransitive(x, s[0], s[j]); }
          assert s[j] in s;
        }
        ConsStrictlySorted(x, s);
      } else {
        StrLeTotal(x, s[0]);
        assert s[0] in s;
        InsertStrictlySorted(x, s[1..]);
        var tail := Insert(x, s[1..]);
        forall k | 0 <= k < |tail| ensures StrLe(s[0], tail[k]) && s[0] != tail[k] {
          var y := tail[k];
          assert y in multiset(tail);
          if y != x {
            assert y in multiset(s[1..]);
            var m :| 0 <= m < |s| - 1 && s[1..][m] == y;
            assert s[m + 1] == y;
          }
        }
        ConsStrictlySorted(s[0], tail);
      }
    }
  }

  /** sorted(xs) on a list of str. */
  function SortStrings(xs: seq<string>): (r: seq<string>)
    ensures Sorted(r)
    ensures multiset(r) == multiset(xs)
    decreases |xs|
  {
    if xs == [] then []
    else
      var rest := SortStrings(xs[1..]);
      InsertSorted(xs[0], rest);
      assert xs == [xs[0]] + xs[1..];
      Insert(xs[0], rest)
  }

  /** Sorted lists holding the same strings start with the same one. */
  lemma {:induction false} SortedSameHead(a: seq<string>, b: seq<string>)
    requires Sorted(a) && Sorted(b) && a != [] && b != []
    requires forall x :: x in a <==> x in b
    ensures a[0] == b[0]
  {
    assert a[0] in b && b[0] in a;
    var j :| 0 <= j < |b| && b[j] == a[0];
    var i :| 0 <= i < |a| && a[i] == b[0];
    if j > 0 { assert StrLe(b[0], a[0]); } else { StrLeReflexive(a[0]); }
    if i > 0 { assert StrLe(a[0], b[0]); } else { StrLeReflexive(b[0]); }
    StrLeAntisymmetric(a[0], b[0]);
  }

  lemma {:induction false} MultisetTail(a: seq<string>, b: seq<string>)
    requires a != [] && b != [] && a[0] == b[0] && multiset(a) == multiset(b)
    ensures multiset(a[1..]) == multiset(b[1..])
  {
    assert a == [a[0]] + a[1..] && b == [b[0]] + b[1..];
    assert multiset(a) == multiset{a[0]} + multiset(a[1..]);
    assert multiset(b) == multiset{b[0]} + multiset(b[1..]);
    assert multiset(a[1..]) == multiset(a) - multiset{a[0]};
    assert multiset(b[1..]) == multiset(b) - multiset{b[0]};
  }

  /** Two sorted arrangements of one multiset of strings are the same list. */
  lemma {:induction false} SortedUnique(a: seq<string>, b: seq<string>)
    requires Sorted(a) && Sorted(b) && multiset(a) == multiset(b)
    ensures a == b
    decreases |a|
  {
    assert |a| == |multiset(a)| == |multiset(b)| == |b|;
    if a != [] {
      assert a[0] in multiset(a) && b[0] in multiset(b);
      assert a[0] in b && b[0] in a;
      forall x ensures x in a <==> x in b {
        assert x in a <==> x in multiset(a);
        assert x in b <==> x in multiset(b);
      }
      SortedSameHead(a, b);
      MultisetTail(a, b);
      SortedUnique(a[1..], b[1..]);
      assert a == [a[0]] + a[1..] && b == [b[0]] + b[1..];
    }
  }

  /** sorted() depends only on which strings are present and how often,
      never on their order. */
  lemma {:induction false} SortIgnoresOrder(xs: seq<string>, ys: seq<string>)
    requires multiset(xs) == multiset(ys)
    ensures SortStrings(xs) == SortStrings(ys)
  {
    SortedUnique(SortStrings(xs), SortStrings(ys));
  }

  /** The list sorted(keys) is determined by the set. */
  lemma {:induction false} SortedListUnique(a: seq<string>, b: seq<string>, keys: set<string>)
    requires SortedListOf(a, keys) && SortedListOf(b, keys)
    ensures a == b
    decreases |a|
  {
    if a != [] { assert a[0] in keys; }
    if b != [] { assert b[0] in keys; }
    if a != [] && b != [] {
      SortedSameHead(a, b);
      var rest := keys - {a[0]};
      forall x ensures x in a[1..] <==> x in rest {
        if x in a[1..] { var k :| 1 <= k < |a| && a[k] == x; }
      }
      forall x ensures x in b[1..] <==> x in rest {
        if x in b[1..] { var k :| 1 <= k < |b| && b[k] == x; }
      }
      SortedListUnique(a[1..], b[1..], rest);
      assert a == [a[0]] + a[1..] && b == [b[0]] + b[1..];
    }
  }

  /** sorted(keys) for a set of str. */
  method SortedKeys(keys: set<string>) returns (r: seq<string>)
    ensures SortedListOf(r, keys)
  {
    r := [];
    var rest := keys;
    while rest != {}
      invariant rest <= keys
      invariant StrictlySorted(r)
      invariant forall x :: x in r <==> x in keys && x !in rest
      decreases |rest|
    {
      var x :| x in rest;
      InsertStrictlySorted(x, r);
      r := Insert(x, r);
      assert forall y :: y in r <==> y in multiset(r);
      rest := rest - {x};
    }
  }
}
