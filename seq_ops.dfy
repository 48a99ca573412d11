/** Sequence operations with the semantics of the JavaScript helpers the
    interceptors use: lodash `_.intersection` and `_.difference`, the
    `[...new Set(xs)]` dedupe idiom and `Array.prototype.toLocaleString`
    on a list of strings. */
module SeqOps {

  predicate NoDuplicates<T(==,!new)>(s: seq<T>) {
    forall i, j :: 0 <= i < j < |s| ==> s[i] != s[j]
  }

  /** The elements of `s` that satisfy `p`, in the order of `s` (Array.prototype.filter). */
  function Filter<T(==,!new)>(s: seq<T>, p: T -> bool): (r: seq<T>)
    ensures |r| <= |s|
    ensures forall x :: x in r <==> x in s && p(x)
  {
    if s == [] then [] else (if p(s[0]) then [s[0]] else []) + Filter(s[1..], p)
  }

  /** Filtering distributes over concatenation: the kept elements stay in order. */
  lemma {:induction false} FilterAppend<T(!new)>(a: seq<T>, b: seq<T>, p: T -> bool)
    ensures Filter(a + b, p) == Filter(a, p) + Filter(b, p)
  {
    if a == [] {
      assert a + b == b;
    } else {
      assert (a + b)[1..] == a[1..] + b;
      FilterAppend(a[1..], b, p);
    }
  }

  lemma {:induction false} FilterNone<T(!new)>(s: seq<T>, p: T -> bool)
    requires forall x :: x in s ==> !p(x)
    ensures Filter(s, p) == []
  {
    if s != [] {
      FilterNone(s[1..], p);
    }
  }

  /** Array.prototype.map. */
  function MapSeq<T, U>(s: seq<T>, f: T -> U): (r: seq<U>)
    ensures |r| == |s|
    ensures forall i :: 0 <= i < |s| ==> r[i] == f(s[i])
  {
    if s == [] then [] else [f(s[0])] + MapSeq(s[1..], f)
  }

  /** The index of the first occurrence of `x` in `s` (Array.prototype.indexOf). */
  function FirstIndex<T(==,!new)>(s: seq<T>, x: T): (i: nat)
    requires x in s
    ensures i < |s| && s[i] == x && x !in s[..i]
  {
    if s[0] == x then 0 else 1 + FirstIndex(s[1..], x)
  }

  lemma FirstIndexUnique<T(!new)>(s: seq<T>, x: T, i: nat)
    requires i < |s| && s[i] == x && x !in s[..i]
    ensures FirstIndex(s, x) == i
  {
    var k := FirstIndex(s, x);
  }

  /** Appending elements does not move a first occurrence. */
  lemma FirstIndexAppend<T(!new)>(s: seq<T>, t: seq<T>, x: T)
    requires x in s
    ensures FirstIndex(s + t, x) == FirstIndex(s, x)
  {
    var i := FirstIndex(s, x);
    assert (s + t)[..i] == s[..i];
    FirstIndexUnique(s + t, x, i);
  }

  /** `r` lists elements of `s` in the order of their first occurrence in `s`. */
  predicate InFirstOccurrenceOrder<T(==,!new)>(r: seq<T>, s: seq<T>) {
    (forall x :: x in r ==> x in s) &&
    forall i, j :: 0 <= i < j < |r| ==> FirstIndex(s, r[i]) < FirstIndex(s, r[j])
  }

  /** `[...new Set(s)]`: the distinct elements of `s`, each kept at its first occurrence. */
  function Dedupe<T(==,!new)>(s: seq<T>): (r: seq<T>)
    ensures forall x :: x in r <==> x in s
    ensures NoDuplicates(r)
    decreases |s|
  {
    if s == [] then []
    else
      var init := s[..|s| - 1];
      assert s == init + [s[|s| - 1]];
      var d := Dedupe(init);
      if s[|s| - 1] in d then d else d + [s[|s| - 1]]
  }

  lemma {:induction false} DedupeInFirstOccurrenceOrder<T(!new)>(s: seq<T>)
    ensures InFirstOccurrenceOrder(Dedupe(s), s)
    decreases |s|
  {
    if s != [] {
      var init, last := s[..|s| - 1], s[|s| - 1];
      assert s == init + [last];
      var d := Dedupe(init);
      DedupeInFirstOccurrenceOrder(init);
      forall y | y in d ensures FirstIndex(s, y) == FirstIndex(init, y) {
        FirstIndexAppend(init, [last], y);
      }
      if last !in d {
        assert s[..|init|] == init;
        FirstIndexUnique(s, last, |init|);
        var r := d + [last];
        forall i, j | 0 <= i < j < |r| ensures FirstIndex(s, r[i]) < FirstIndex(s, r[j]) {
          assert r[i] in d;
          if j < |d| {
            assert r[j] in d;
          }
        }
      }
    }
  }

  /** Filtering keeps the relative order of first occurrences of kept elements. */
  lemma {:induction false} FilterFirstIndexMonotone<T(!new)>(s: seq<T>, p: T -> bool, x: T, y: T)
    requires x in Filter(s, p) && y in Filter(s, p)
    requires FirstIndex(Filter(s, p), x) < FirstIndex(Filter(s, p), y)
    ensures FirstIndex(s, x) < FirstIndex(s, y)
  {
    var t, fs, ft := s[1..], Filter(s, p), Filter(s[1..], p);
    if p(s[0]) {
      assert fs == [s[0]] + ft;
      if x != s[0] {
        assert fs[0] == s[0] && fs[1..] == ft;
        assert FirstIndex(fs, x) == 1 + FirstIndex(ft, x);
        assert FirstIndex(fs, y) == 1 + FirstIndex(ft, y);
        FilterFirstIndexMonotone(t, p, x, y);
      }
    } else {
      assert fs == ft;
      FilterFirstIndexMonotone(t, p, x, y);
    }
  }

  /** lodash `_.intersection(a, b)`: the distinct values of `a` that occur in `b`,
      in the order of `a`. */
  function Intersection<T(==,!new)>(a: seq<T>, b: seq<T>): (r: seq<T>)
    ensures forall x :: x in r <==> x in a && x in b
    ensures NoDuplicates(r)
  {
    Dedupe(Filter(a, x => x in b))
  }

  lemma IntersectionDisjoint<T(!new)>(a: seq<T>, b: seq<T>)
    requires forall x :: x in a ==> x !in b
    ensures Intersection(a, b) == []
  {
    FilterNone(a, x => x in b);
  }

  lemma IntersectionInOrder<T(!new)>(a: seq<T>, b: seq<T>)
    ensures InFirstOccurrenceOrder(Intersection(a, b), a)
  {
    var f := Filter(a, x => x in b);
    var r := Dedupe(f);
    DedupeInFirstOccurrenceOrder(f);
    forall i, j | 0 <= i < j < |r| ensures FirstIndex(a, r[i]) < FirstIndex(a, r[j]) {
      FilterFirstIndexMonotone(a, x => x in b, r[i], r[j]);
    }
  }

  /** Two duplicate-free lists with the same elements, both in first-occurrence
      order of `s`, are the same list. */
  lemma {:induction false} FirstOccurrenceOrderUnique<T(!new)>(r1: seq<T>, r2: seq<T>, s: seq<T>)
    requires InFirstOccurrenceOrder(r1, s) && InFirstOccurrenceOrder(r2, s)
    requires forall x :: x in r1 <==> x in r2
    ensures r1 == r2
    decreases |r1|
  {
    if r1 != [] { assert r1[0] in r1; }
    if r2 != [] { assert r2[0] in r2; }
    if r1 != [] && r2 != [] {
      // Each head occurs in the other list; neither can come after the other.
      var k :| 0 <= k < |r2| && r2[k] == r1[0];
      var m :| 0 <= m < |r1| && r1[m] == r2[0];
      assert k == 0 || m == 0;
      forall x ensures x in r1[1..] <==> x in r2[1..] {
        if x in r1[1..] {
          var i :| 1 <= i < |r1| && r1[i] == x;
          assert FirstIndex(s, r1[0]) < FirstIndex(s, r1[i]);
          assert x in r2;
          var j :| 0 <= j < |r2| && r2[j] == x;
          assert r2[1..][j - 1] == x;
        }
        if x in r2[1..] {
          var i :| 1 <= i < |r2| && r2[i] == x;
          assert FirstIndex(s, r2[0]) < FirstIndex(s, r2[i]);
          assert x in r1;
          var j :| 0 <= j < |r1| && r1[j] == x;
          assert r1[1..][j - 1] == x;
        }
      }
      FirstOccurrenceOrderUnique(r1[1..], r2[1..], s);
    }
  }

  /** lodash `_.difference(a, b)`: the values of `a` that do not occur in `b`,
      in the order of `a`, repetitions kept. */
  function Difference<T(==,!new)>(a: seq<T>, b: seq<T>): (r: seq<T>)
    ensures forall x :: x in r <==> x in a && x !in b
    ensures |r| <= |a|
    ensures r == [] <==> forall x :: x in a ==> x in b
  {
    var r := Filter(a, x => x !in b);
    assert r != [] ==> r[0] in r;
    r
  }

  /** The difference is taken element by element: order and repetitions of
      the first list are kept. */
  lemma DifferenceAppend<T(!new)>(a1: seq<T>, a2: seq<T>, b: seq<T>)
    ensures Difference(a1 + a2, b) == Difference(a1, b) + Difference(a2, b)
  {
    FilterAppend(a1, a2, x => x !in b);
  }

  /** `list.toLocaleString()` on a list of strings: the strings joined by `sep`. */
  function Join(parts: seq<string>, sep: string): (r: string)
    ensures parts == [] ==> r == ""
    ensures |parts| == 1 ==> r == parts[0]
    ensures |parts| >= 1 ==> |r| >= |parts[0]| && r[..|parts[0]|] == parts[0]
  {
    if parts == [] then ""
    else if |parts| == 1 then parts[0]
    else parts[0] + sep + Join(parts[1..], sep)
  }

  /** Joining one more part appends the separator and that part. */
  lemma {:induction false} JoinAppend(parts: seq<string>, p: string, sep: string)
    requires parts != []
    ensures Join(parts + [p], sep) == Join(parts, sep) + sep + p
    decreases |parts|
  {
    if |parts| > 1 {
      assert (parts + [p])[1..] == parts[1..] + [p];
      JoinAppend(parts[1..], p, sep);
    }
  }
}
