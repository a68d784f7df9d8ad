/** Optional values, standing for the source's `null` and `undefined`. */
module Wrappers {
  datatype Option<+T> = None | Some(value: T)
}

/** The larger and the smaller of two integers. */
module Bounds {
  function Max(a: int, b: int): int { if a < b then b else a }

  function Min(a: int, b: int): int { if a < b then a else b }
}

/** Lists: their stretches, and lists without repetitions. */
module Slices {

  predicate Distinct<T(==)>(s: seq<T>) { forall i, j :: 0 <= i < j < |s| ==> s[i] != s[j] }

  /** A list without repetitions has as many entries as elements. */
  lemma {:induction false} DistinctSize<T>(list: seq<T>, elements: set<T>)
    requires Distinct(list) && forall x :: x in list <==> x in elements
    ensures |list| == |elements|
    decreases |list|
  {
    if list == [] {
      assert elements == {};
    } else {
      assert list[0] in list;
      assert forall x :: x in list[1..] <==> x in elements - {list[0]} by {
        forall x ensures x in list[1..] <==> x in elements - {list[0]} {
          assert x in list <==> x == list[0] || x in list[1..];
        }
      }
      DistinctSize(list[1..], elements - {list[0]});
    }
  }

  lemma SliceOfSlice<T>(s: seq<T>, lo: nat, hi: nat, a: nat, b: nat)
    requires lo <= hi <= |s| && a <= b <= hi - lo
    ensures s[lo..hi][a..b] == s[lo + a..lo + b]
  {
    var x, y := s[lo..hi][a..b], s[lo + a..lo + b];
    assert |x| == |y|;
    forall i | 0 <= i < |x| ensures x[i] == y[i] {
      assert x[i] == s[lo..hi][a + i] == s[lo + a + i];
    }
  }

  lemma SliceOfPrefix<T>(s: seq<T>, n: nat, a: nat, b: nat)
    requires a <= b <= n <= |s|
    ensures s[..n][a..b] == s[a..b]
  {
  }

  lemma SliceOfSuffix<T>(s: seq<T>, n: nat, a: nat, b: nat)
    requires n <= a <= b <= |s|
    ensures s[n..][a - n..b - n] == s[a..b]
  {
  }

  lemma Glue<T>(s: seq<T>, a: nat, b: nat, c: nat)
    requires a <= b <= c <= |s|
    ensures s[a..b] + s[b..c] == s[a..c]
  {
  }

  lemma PrefixOfLonger<T>(s: seq<T>, x: T, i: nat)
    requires i <= |s|
    ensures (s + [x])[..i] == s[..i] && (s + [x])[|s|] == x && (i < |s| ==> (s + [x])[i] == s[i])
  {
  }
}

/** Ascending lists of distinct integers: what the source gets from sorting the
    keys of a Map or the elements of a Set. */
module Sorting {

  ghost predicate Ascending(s: seq<int>) {
    forall i, j :: 0 <= i < j < |s| ==> s[i] < s[j]
  }

  ghost predicate Same(s: seq<int>, t: set<int>) {
    forall x :: x in s <==> x in t
  }

  lemma HasElement(s: set<int>)
    ensures s == {} || exists a :: a in s
  {
    if !exists a :: a in s { assert s == {}; }
  }

  lemma HasMember(s: seq<int>)
    ensures s != [] ==> s[0] in s
  {
  }

  lemma {:induction false} HasMinimum(s: set<int>)
    requires s != {}
    ensures exists m :: m in s && forall x :: x in s ==> m <= x
    decreases |s|
  {
    HasElement(s);
    var a: int :| a in s;
    var t := s - {a};
    if t != {} {
      HasMinimum(t);
      var m :| m in t && forall x :: x in t ==> m <= x;
      var n := if a < m then a else m;
      assert n in s;
      forall x | x in s ensures n <= x {
        if x != a { assert x in t; }
      }
    } else {
      assert s == t + {a};
    }
  }

  function Minimum(s: set<int>): (m: int)
    requires s != {}
    ensures m in s && forall x :: x in s ==> m <= x
  {
    HasMinimum(s);
    var m: int :| m in s && forall x :: x in s ==> m <= x;
    m
  }

  /** The elements of `s` in ascending order. */
  function Sorted(s: set<int>): (r: seq<int>)
    ensures Ascending(r)
    ensures Same(r, s)
    ensures forall i :: 0 <= i < |r| ==> r[i] in s
    ensures |r| == |s|
    decreases |s|
  {
    if s == {} then []
    else
      var m := Minimum(s);
      var rest := Sorted(s - {m});
      Prepended(s, m, rest);
      [m] + rest
  }

  lemma Prepended(s: set<int>, m: int, rest: seq<int>)
    requires m in s && (forall x :: x in s ==> m <= x)
    requires Ascending(rest) && Same(rest, s - {m}) && |rest| == |s - {m}|
    ensures Ascending([m] + rest) && Same([m] + rest, s) && |[m] + rest| == |s|
    ensures forall i :: 0 <= i < |[m] + rest| ==> ([m] + rest)[i] in s
  {
    forall i | 0 <= i < |rest| ensures rest[i] in s && m < rest[i] {
      assert rest[i] in rest;
    }
    assert |s| == |s - {m}| + 1;
    forall x ensures x in [m] + rest <==> x in s {
      assert x in [m] + rest <==> x == m || x in rest;
    }
  }

  /** An ascending list is determined by its elements. */
  lemma {:induction false} AscendingUnique(a: seq<int>, b: seq<int>)
    requires Ascending(a) && Ascending(b)
    requires forall x :: x in a <==> x in b
    ensures a == b
  {
    if a == [] {
      HasMember(b);
    } else {
      assert a[0] in a && a[0] in b;
      assert b != [] && b[0] in b && b[0] in a;
      var i :| 0 <= i < |b| && b[i] == a[0];
      var j :| 0 <= j < |a| && a[j] == b[0];
      assert a[0] == b[0];
      forall x ensures x in a[1..] <==> x in b[1..] {
        assert x in a <==> x == a[0] || x in a[1..];
        assert x in b <==> x == b[0] || x in b[1..];
      }
      AscendingUnique(a[1..], b[1..]);
      assert a == [a[0]] + a[1..] && b == [b[0]] + b[1..];
    }
  }
}
