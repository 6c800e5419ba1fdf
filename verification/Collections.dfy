/** Counting facts about sets, and distinct sequences. */
module Collections {
  import opened Primitives

  lemma DistinctConcat<T(!new)>(a: seq<T>, b: seq<T>)
    ensures Distinct(a + b) <==> Distinct(a) && Distinct(b) && Elements(a) !! Elements(b)
    ensures Elements(a + b) == Elements(a) + Elements(b)
  {
    var c := a + b;
    if Distinct(c) {
      forall i, j | 0 <= i < j < |a| ensures a[i] != a[j] { assert c[i] != c[j]; }
      forall i, j | 0 <= i < j < |b| ensures b[i] != b[j] { assert c[|a| + i] != c[|a| + j]; }
      forall i, j | 0 <= i < |a| && 0 <= j < |b| ensures a[i] != b[j] { assert c[i] != c[|a| + j]; }
    }
    if Distinct(a) && Distinct(b) && Elements(a) !! Elements(b) {
      forall i, j | 0 <= i < j < |c| ensures c[i] != c[j] {
        if i < |a| <= j { assert a[i] in Elements(a) && b[j - |a|] in Elements(b); }
      }
    }
  }

  lemma PrefixOfDistinct<T(!new)>(whole: seq<T>, part: seq<T>)
    requires part <= whole
    ensures Distinct(whole) ==> Distinct(part)
    ensures forall x :: x in part ==> x in whole
  {
    assert forall i :: 0 <= i < |part| ==> part[i] == whole[i];
  }

  /** A set of numbers below n has at most n elements, and n only when it has them all. */
  lemma {:induction false} BelowSize(s: set<nat>, n: nat)
    requires forall t :: t in s ==> t < n
    ensures |s| <= n
    ensures |s| == n <==> forall t: nat :: t < n ==> t in s
  {
    if n == 0 {
      assert s == {};
    } else {
      var rest := s - {n - 1};
      BelowSize(rest, n - 1);
      assert n - 1 in s ==> s == rest + {n - 1};
      assert n - 1 !in s ==> s == rest;
    }
  }

  lemma {:induction false} SubsetSize<T>(a: set<T>, b: set<T>)
    requires a <= b
    ensures |a| <= |b|
  {
    if a != {} {
      var x :| x in a;
      SubsetSize(a - {x}, b - {x});
    }
  }

  lemma {:induction false} StrictSubsetSize<T>(a: set<T>, b: set<T>)
    requires a < b
    ensures |a| < |b|
  {
    var x :| x in b && x !in a;
    SubsetSize(a, b - {x});
  }

  lemma {:induction false} DistinctSize<T(!new)>(s: seq<T>)
    requires Distinct(s)
    ensures |Elements(s)| == |s|
  {
    if s != [] {
      var before, x := s[..|s| - 1], s[|s| - 1];
      assert s == before + [x];
      DistinctAppend(before, x);
      DistinctSize(before);
      assert Elements(s) == Elements(before) + {x};
    }
  }

  /** Distinct numbers below n are at most n. */
  lemma DistinctBelow(s: seq<nat>, n: nat)
    requires Distinct(s) && forall x :: x in s ==> x < n
    ensures |s| <= n
  {
    DistinctSize(s);
    BelowSize(Elements(s), n);
  }

  /** Sum of f over a finite set. */
  ghost function SetSum<T(!new)>(s: set<T>, f: T -> nat): nat
  {
    if s == {} then 0 else var x :| x in s; f(x) + SetSum(s - {x}, f)
  }

  lemma {:induction false} SetSumRemove<T(!new)>(s: set<T>, f: T -> nat, x: T)
    requires x in s
    ensures SetSum(s, f) == f(x) + SetSum(s - {x}, f)
    decreases |s|
  {
    var y :| y in s && SetSum(s, f) == f(y) + SetSum(s - {y}, f);
    if y != x {
      SetSumRemove(s - {y}, f, x);
      SetSumRemove(s - {x}, f, y);
      assert s - {y} - {x} == s - {x} - {y};
    }
  }

  lemma {:induction false} SetSumAdd<T(!new)>(s: set<T>, f: T -> nat, x: T)
    requires x !in s
    ensures SetSum(s + {x}, f) == SetSum(s, f) + f(x)
  {
    SetSumRemove(s + {x}, f, x);
    assert s + {x} - {x} == s;
  }

  function Reversed<T>(s: seq<T>): (r: seq<T>)
    ensures |r| == |s| && forall i :: 0 <= i < |s| ==> r[i] == s[|s| - 1 - i]
  {
    seq(|s|, i requires 0 <= i < |s| => s[|s| - 1 - i])
  }

  lemma ReversedKeeps<T(!new)>(s: seq<T>)
    ensures Distinct(s) ==> Distinct(Reversed(s))
    ensures forall x :: x in Reversed(s) <==> x in s
  {
    forall x | x in s ensures x in Reversed(s) {
      var i :| 0 <= i < |s| && s[i] == x;
      assert Reversed(s)[|s| - 1 - i] == x;
    }
  }

  lemma ReversedAppend<T>(s: seq<T>, x: T)
    ensures Reversed(s + [x]) == [x] + Reversed(s)
  {}
}
