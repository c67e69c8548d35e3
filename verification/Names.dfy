/** Names of units, services and permissions, in the order in which Python sorts strings. */
module Names {

  /** Strict code point order: the order of `<` on Python strings. */
  predicate Less(a: string, b: string)
  {
    b != [] && (a == [] || a[0] < b[0] || (a[0] == b[0] && Less(a[1..], b[1..])))
  }

  /** The names agree on their first `i` letters; then the first one ends, or has the smaller letter. */
  predicate LessAt(a: string, b: string, i: nat)
  {
    && i <= |a| && i < |b| && a[..i] == b[..i]
    && (i == |a| || a[i] < b[i])
  }

  lemma {:induction false} LessMeaning(a: string, b: string)
    ensures Less(a, b) <==> exists i: nat :: LessAt(a, b, i)
  {
    if a != [] && b != [] && a[0] == b[0] {
      LessMeaning(a[1..], b[1..]);
      if i: nat :| LessAt(a[1..], b[1..], i) {
        assert a[..i + 1] == [a[0]] + a[1..][..i] && b[..i + 1] == [b[0]] + b[1..][..i];
        assert LessAt(a, b, i + 1);
      }
      if i: nat :| LessAt(a, b, i) {
        assert i > 0 && a[1..][..i - 1] == a[..i][1..] && b[1..][..i - 1] == b[..i][1..];
        assert LessAt(a[1..], b[1..], i - 1);
      }
    } else {
      if Less(a, b) {
        assert LessAt(a, b, 0);
      }
      if i: nat :| LessAt(a, b, i) {
        assert i > 0 ==> a[..i][0] == b[..i][0];
      }
    }
  }

  lemma {:induction false} LessTransitive(a: string, b: string, c: string)
    requires Less(a, b) && Less(b, c)
    ensures Less(a, c)
  {
    if a != [] && a[0] == b[0] && b[0] == c[0] {
      LessTransitive(a[1..], b[1..], c[1..]);
    }
  }

  lemma {:induction false} LessIrreflexive(a: string)
    ensures !Less(a, a)
  {
    if a != [] {
      LessIrreflexive(a[1..]);
    }
  }

  lemma {:induction false} LessTotal(a: string, b: string)
    ensures a == b || Less(a, b) || Less(b, a)
  {
    if a != [] && b != [] && a[0] == b[0] {
      LessTotal(a[1..], b[1..]);
      assert a == [a[0]] + a[1..] && b == [b[0]] + b[1..];
    }
  }

  lemma LessAsymmetric(a: string, b: string)
    requires Less(a, b)
    ensures !Less(b, a) && a != b
  {
    LessIrreflexive(a);
    if Less(b, a) {
      LessTransitive(a, b, a);
    }
  }

  /** Non-descending; equal names may repeat. */
  ghost predicate Ascending(s: seq<string>)
  {
    forall i, j :: 0 <= i < j < |s| ==> s[i] == s[j] || Less(s[i], s[j])
  }

  /** Strictly ascending: sorted and free of duplicates. */
  ghost predicate StrictlyAscending(s: seq<string>)
  {
    forall i, j :: 0 <= i < j < |s| ==> Less(s[i], s[j])
  }

  /** What `sorted(list)` returns. */
  ghost predicate IsSortOf(sorted: seq<string>, list: seq<string>)
  {
    Ascending(sorted) && multiset(sorted) == multiset(list)
  }

  lemma FirstIsLeast(s: seq<string>, x: string)
    requires Ascending(s) && x in s
    ensures s[0] == x || Less(s[0], x)
  {
  }

  /** Sorting has one result, whatever the order of the list that is sorted. */
  lemma {:induction false} SortIsUnique(s: seq<string>, t: seq<string>)
    requires Ascending(s) && Ascending(t) && multiset(s) == multiset(t)
    ensures s == t
  {
    if s == [] {
      assert |multiset(t)| == 0;
    } else {
      assert s[0] in multiset(s);
      assert |multiset(t)| > 0;
      assert t[0] in multiset(t);
      assert t[0] in multiset(s) && s[0] in multiset(t);
      FirstIsLeast(s, t[0]);
      FirstIsLeast(t, s[0]);
      if s[0] != t[0] {
        LessAsymmetric(s[0], t[0]);
        assert false;
      }
      assert s == [s[0]] + s[1..] && t == [t[0]] + t[1..];
      assert multiset(s) == multiset{s[0]} + multiset(s[1..]);
      assert multiset(t) == multiset{t[0]} + multiset(t[1..]);
      assert multiset(s[1..]) == multiset(s) - multiset{s[0]};
      assert multiset(t[1..]) == multiset(t) - multiset{t[0]};
      SortIsUnique(s[1..], t[1..]);
    }
  }

  ghost predicate IsLeast(s: set<string>, x: string)
  {
    x in s && forall y :: y in s && y != x ==> Less(x, y)
  }

  lemma {:induction false} LeastExists(s: set<string>) returns (least: string)
    requires s != {}
    ensures IsLeast(s, least)
    decreases |s|
  {
    var x :| x in s;
    var rest := s - {x};
    if rest == {} {
      least := x;
      assert s == {x};
    } else {
      var m := LeastExists(rest);
      LessTotal(m, x);
      if Less(m, x) {
        least := m;
      } else {
        least := x;
        forall y | y in s && y != x
          ensures Less(x, y)
        {
          if y != m {
            LessTransitive(x, m, y);
          }
        }
      }
    }
  }

  /** The members of a set in ascending order: `sorted(d)` for a dictionary `d` with these keys. */
  ghost function SortedSet(s: set<string>): (r: seq<string>)
    ensures StrictlyAscending(r)
    ensures forall x :: x in r <==> x in s
    decreases |s|
  {
    if s == {} then
      []
    else
      assert exists x :: IsLeast(s, x) by { var least := LeastExists(s); }
      var x :| IsLeast(s, x);
      assert forall y :: y in s <==> y == x || y in s - {x};
      [x] + SortedSet(s - {x})
  }

  lemma {:induction false} SortedSetIsUnique(r: seq<string>, t: seq<string>)
    requires StrictlyAscending(r) && StrictlyAscending(t)
    requires forall x :: x in r <==> x in t
    ensures r == t
  {
    assert t != [] ==> t[0] in r;
    if r != [] {
      assert r[0] in t;
      if r[0] != t[0] {
        LessAsymmetric(r[0], t[0]);
        assert false;
      }
      forall x
        ensures x in r[1..] <==> x in t[1..]
      {
        LessIrreflexive(r[0]);
        assert x in r[1..] <==> x in r && x != r[0];
        assert x in t[1..] <==> x in t && x != t[0];
      }
      SortedSetIsUnique(r[1..], t[1..]);
      assert r == [r[0]] + r[1..] && t == [t[0]] + t[1..];
    }
  }

  /** Iterating over a dictionary's keys in sorted order, by insertion. */
  method SortKeys(s: set<string>) returns (r: seq<string>)
    ensures r == SortedSet(s)
  {
    r := [];
    var todo := s;
    while todo != {}
      invariant todo <= s
      invariant StrictlyAscending(r)
      invariant forall x :: x in r <==> x in s && x !in todo
      decreases |todo|
    {
      var x :| x in todo;
      todo := todo - {x};
      r := InsertKey(r, x);
    }
    SortedSetIsUnique(r, SortedSet(s));
  }

  method InsertKey(r: seq<string>, x: string) returns (t: seq<string>)
    requires StrictlyAscending(r) && x !in r
    ensures StrictlyAscending(t)
    ensures forall y :: y in t <==> y == x || y in r
  {
    var i := 0;
    while i < |r| && Less(r[i], x)
      invariant i <= |r|
      invariant forall j :: 0 <= j < i ==> Less(r[j], x)
    {
      i := i + 1;
    }
    t := r[..i] + [x] + r[i..];
    forall j | i <= j < |r|
      ensures Less(x, r[j])
    {
      LessTotal(x, r[i]);
      if i < j {
        LessTransitive(x, r[i], r[j]);
      }
    }
    assert r == r[..i] + r[i..];
  }
}
