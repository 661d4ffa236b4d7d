/** Sorting byte strings, and what an injective map keeps of a list: everything but the order. */
module Sorting {
  import opened Wrappers
  import opened Bytes

  /** Lexicographic order. */
  predicate AtMost(a: seq<byte>, b: seq<byte>) {
    a == [] || (b != [] && (a[0] < b[0] || (a[0] == b[0] && AtMost(a[1..], b[1..]))))
  }

  predicate Sorted(s: seq<seq<byte>>) {
    forall i, j :: 0 <= i < j < |s| ==> AtMost(s[i], s[j])
  }

  lemma {:induction false} AtMostTotal(a: seq<byte>, b: seq<byte>)
    ensures AtMost(a, b) || AtMost(b, a)
    ensures AtMost(a, b) && AtMost(b, a) ==> a == b
  {
    if a != [] && b != [] && a[0] == b[0] {
      AtMostTotal(a[1..], b[1..]);
      assert a == [a[0]] + a[1..] && b == [b[0]] + b[1..];
    }
  }

  lemma {:induction false} AtMostTransitive(a: seq<byte>, b: seq<byte>, c: seq<byte>)
    requires AtMost(a, b) && AtMost(b, c)
    ensures AtMost(a, c)
  {
    if a != [] && a[0] == b[0] == c[0] {
      AtMostTransitive(a[1..], b[1..], c[1..]);
    }
  }

  function Insert(x: seq<byte>, s: seq<seq<byte>>): (r: seq<seq<byte>>)
    ensures multiset(r) == multiset{x} + multiset(s)
  {
    if s == [] || AtMost(x, s[0]) then [x] + s
    else
      assert s == [s[0]] + s[1..];
      [s[0]] + Insert(x, s[1..])
  }

  function Sort(s: seq<seq<byte>>): (r: seq<seq<byte>>)
    ensures multiset(r) == multiset(s)
  {
    if s == [] then []
    else
      assert s == s[..|s| - 1] + [s[|s| - 1]];
      Insert(s[|s| - 1], Sort(s[..|s| - 1]))
  }

  lemma SameSize<T>(a: seq<T>, b: seq<T>)
    requires multiset(a) == multiset(b)
    ensures |a| == |b|
  {
    assert |multiset(a)| == |a| && |multiset(b)| == |b|;
  }

  lemma {:induction false} InsertSorted(x: seq<byte>, s: seq<seq<byte>>)
    requires Sorted(s)
    ensures Sorted(Insert(x, s))
  {
    if s != [] {
      AtMostTotal(x, s[0]);
      if AtMost(x, s[0]) {
        forall j | 0 <= j < |s|
          ensures AtMost(x, s[j])
        {
          if j > 0 {
            AtMostTransitive(x, s[0], s[j]);
          }
        }
      } else {
        InsertSorted(x, s[1..]);
        var r := Insert(x, s[1..]);
        forall j | 0 <= j < |r|
          ensures AtMost(s[0], r[j])
        {
          assert r[j] in multiset(r);
        }
      }
    }
  }

  lemma {:induction false} SortSorted(s: seq<seq<byte>>)
    ensures Sorted(Sort(s))
  {
    if s != [] {
      SortSorted(s[..|s| - 1]);
      InsertSorted(s[|s| - 1], Sort(s[..|s| - 1]));
    }
  }

  lemma FirstLeast(s: seq<seq<byte>>, x: seq<byte>)
    requires Sorted(s) && x in s
    ensures AtMost(s[0], x)
  {
    AtMostTotal(x, x);
  }

  lemma TailCount<T>(s: seq<T>)
    requires s != []
    ensures multiset(s) == multiset{s[0]} + multiset(s[1..])
  {
    assert s == [s[0]] + s[1..];
  }

  lemma SameFirst(a: seq<seq<byte>>, b: seq<seq<byte>>)
    requires Sorted(a) && Sorted(b) && multiset(a) == multiset(b) && a != [] && b != []
    ensures a[0] == b[0]
  {
    assert a[0] in multiset(b) && b[0] in multiset(a);
    FirstLeast(a, b[0]);
    FirstLeast(b, a[0]);
    AtMostTotal(a[0], b[0]);
  }

  lemma Cancel<T>(a: multiset<T>, b: multiset<T>, x: T)
    ensures a + multiset{x} == b + multiset{x} <==> a == b
    ensures multiset{x} + a == multiset{x} + b <==> a == b
  {
    if a + multiset{x} == b + multiset{x} || multiset{x} + a == multiset{x} + b {
      assert a == (a + multiset{x}) - multiset{x} == (multiset{x} + a) - multiset{x};
      assert b == (b + multiset{x}) - multiset{x} == (multiset{x} + b) - multiset{x};
    }
  }

  /** A sorted list is determined by its elements and how often each occurs. */
  lemma {:induction false} SortedUnique(a: seq<seq<byte>>, b: seq<seq<byte>>)
    requires Sorted(a) && Sorted(b) && multiset(a) == multiset(b)
    ensures a == b
  {
    SameSize(a, b);
    if a != [] {
      SameFirst(a, b);
      TailCount(a);
      TailCount(b);
      Cancel(multiset(a[1..]), multiset(b[1..]), a[0]);
      SortedUnique(a[1..], b[1..]);
      assert a == [a[0]] + a[1..] && b == [b[0]] + b[1..];
    }
  }

  /** Sorting removes the order and nothing else. */
  lemma SortCanonical(a: seq<seq<byte>>, b: seq<seq<byte>>)
    ensures Sort(a) == Sort(b) <==> multiset(a) == multiset(b)
  {
    SortSorted(a);
    SortSorted(b);
    if multiset(a) == multiset(b) {
      SortedUnique(Sort(a), Sort(b));
    }
  }

  // ----- Images of lists -----

  function Image<T, U>(f: T -> U, x: T): U {
    f(x)
  }

  /** The images of the first `n` elements. */
  function Images<T, U>(f: T -> U, s: seq<T>, n: nat): (r: seq<U>)
    requires n <= |s|
    ensures |r| == n && forall i :: 0 <= i < n ==> r[i] == Image(f, s[i])
  {
    if n == 0 then [] else Images(f, s, n - 1) + [Image(f, s[n - 1])]
  }

  /** No element of one list meets a different element of the other under the map. */
  predicate Apart<T(==), U(==)>(f: T -> U, r: seq<T>, s: seq<T>) {
    forall i, j :: 0 <= i < |r| && 0 <= j < |s| && Image(f, r[i]) == Image(f, s[j]) ==> r[i] == s[j]
  }

  function Without<T>(s: seq<T>, i: nat): seq<T>
    requires i < |s|
  {
    s[..i] + s[i + 1..]
  }

  lemma RemoveOne<T>(s: seq<T>, i: nat)
    requires i < |s|
    ensures multiset(s) == multiset(Without(s, i)) + multiset{s[i]}
  {
    assert s == s[..i] + [s[i]] + s[i + 1..];
  }

  lemma WithoutAt<T>(s: seq<T>, i: nat, k: nat)
    requires i < |s| && k < |s| - 1
    ensures Without(s, i)[k] == if k < i then s[k] else s[k + 1]
  {
  }

  lemma ImagesWithout<T, U>(f: T -> U, s: seq<T>, i: nat)
    requires i < |s|
    ensures Images(f, Without(s, i), |s| - 1) == Without(Images(f, s, |s|), i)
  {
    var all, rest := Images(f, s, |s|), Images(f, Without(s, i), |s| - 1);
    forall k: nat | k < |s| - 1
      ensures rest[k] == Without(all, i)[k]
    {
      WithoutAt(s, i, k);
      WithoutAt(all, i, k);
    }
  }

  lemma RemoveImage<T, U>(f: T -> U, s: seq<T>, i: nat)
    requires i < |s|
    ensures multiset(Images(f, s, |s|)) == multiset(Images(f, Without(s, i), |s| - 1)) + multiset{Image(f, s[i])}
  {
    ImagesWithout(f, s, i);
    RemoveOne(Images(f, s, |s|), i);
  }

  /** Where the map keeps elements apart, the images occur equally often exactly when the elements do. */
  lemma {:induction false} ImagesCount<T, U>(f: T -> U, r: seq<T>, s: seq<T>)
    requires Apart(f, r, s)
    ensures multiset(Images(f, r, |r|)) == multiset(Images(f, s, |s|)) <==> multiset(r) == multiset(s)
    decreases |r|
  {
    if r == [] {
      NothingCounts(s);
      NothingCounts(Images(f, s, |s|));
    } else {
      var i := FindImage(f, r, s);
      if i.Some? {
        ImagesCount(f, Without(r, |r| - 1), Without(s, i.value));
        RemoveBoth(r, s, |r| - 1, i.value);
        RemoveBothImages(f, r, s, |r| - 1, i.value);
      }
    }
  }

  lemma NothingCounts<T>(s: seq<T>)
    ensures multiset(s) == multiset{} <==> s == []
  {
    assert |multiset(s)| == |s|;
  }

  lemma RemoveBoth<T>(r: seq<T>, s: seq<T>, k: nat, i: nat)
    requires k < |r| && i < |s| && s[i] == r[k]
    ensures multiset(Without(r, k)) == multiset(Without(s, i)) <==> multiset(r) == multiset(s)
  {
    RemoveOne(r, k);
    RemoveOne(s, i);
    Cancel(multiset(Without(r, k)), multiset(Without(s, i)), s[i]);
  }

  lemma RemoveBothImages<T, U>(f: T -> U, r: seq<T>, s: seq<T>, k: nat, i: nat)
    requires k < |r| && i < |s| && s[i] == r[k]
    ensures multiset(Images(f, Without(r, k), |r| - 1)) == multiset(Images(f, Without(s, i), |s| - 1))
       <==> multiset(Images(f, r, |r|)) == multiset(Images(f, s, |s|))
  {
    RemoveImage(f, r, k);
    RemoveImage(f, s, i);
    Cancel(multiset(Images(f, Without(r, k), |r| - 1)), multiset(Images(f, Without(s, i), |s| - 1)), Image(f, s[i]));
  }

  /** The last element of one list in the other, unless neither the elements nor the images occur equally often. */
  lemma FindImage<T, U>(f: T -> U, r: seq<T>, s: seq<T>) returns (i: Option<nat>)
    requires r != [] && Apart(f, r, s)
    ensures i.Some? ==> i.value < |s| && s[i.value] == r[|r| - 1]
    ensures i.None? ==> multiset(r) != multiset(s)
    ensures i.None? ==> multiset(Images(f, r, |r|)) != multiset(Images(f, s, |s|))
  {
    var x := r[|r| - 1];
    if k :| 0 <= k < |s| && s[k] == x {
      return Some(k);
    }
    assert x in multiset(r) && x !in multiset(s);
    assert Image(f, x) in multiset(Images(f, r, |r|));
    assert Image(f, x) !in Images(f, s, |s|);
    return None;
  }
}
