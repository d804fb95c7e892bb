/** The row orders the read endpoints rely on: a table scan visits ids in
    ascending order, and `ORDER BY … DESC` is a stable sort on a key. */
module Sorting {

  predicate Ascending(xs: seq<int>)
  {
    forall i, j | 0 <= i < j < |xs| :: xs[i] < xs[j]
  }

  predicate SortedDesc(xs: seq<int>, key: int -> int)
  {
    forall i, j | 0 <= i < j < |xs| :: key(xs[i]) >= key(xs[j])
  }

  /** The ids of `s` in `[lo, hi)`, in the order a table scan returns
      them (the table's ids all lie below its next id). */
  function ScanOrder(s: set<int>, lo: int, hi: int): (xs: seq<int>)
    ensures Ascending(xs)
    ensures forall x :: x in xs <==> x in s && lo <= x < hi
    decreases hi - lo
  {
    if hi <= lo then []
    else
      var rest := ScanOrder(s, lo, hi - 1);
      assert forall k | 0 <= k < |rest| :: rest[k] in rest && rest[k] < hi - 1;
      rest + (if hi - 1 in s then [hi - 1] else [])
  }

  /** Insert `x` before the first element whose key is not larger. */
  function InsertDesc(x: int, xs: seq<int>, key: int -> int): seq<int>
    decreases |xs|
  {
    if xs == [] || key(x) >= key(xs[0]) then [x] + xs
    else [xs[0]] + InsertDesc(x, xs[1..], key)
  }

  /** `ORDER BY key DESC`; rows with equal keys keep their scan order. */
  function SortDesc(xs: seq<int>, key: int -> int): seq<int>
    decreases |xs|
  {
    if xs == [] then [] else InsertDesc(xs[0], SortDesc(xs[1..], key), key)
  }

  lemma {:induction false} InsertDescPerm(x: int, xs: seq<int>, key: int -> int)
    ensures multiset(InsertDesc(x, xs, key)) == multiset(xs) + multiset{x}
    decreases |xs|
  {
    if !(xs == [] || key(x) >= key(xs[0])) {
      InsertDescPerm(x, xs[1..], key);
      assert xs == [xs[0]] + xs[1..];
    }
  }

  lemma {:induction false} InsertDescSorted(x: int, xs: seq<int>, key: int -> int)
    requires SortedDesc(xs, key)
    ensures SortedDesc(InsertDesc(x, xs, key), key)
    decreases |xs|
  {
    if !(xs == [] || key(x) >= key(xs[0])) {
      var tail := InsertDesc(x, xs[1..], key);
      InsertDescSorted(x, xs[1..], key);
      InsertDescPerm(x, xs[1..], key);
      forall k | 0 <= k < |tail|
        ensures key(xs[0]) >= key(tail[k])
      {
        assert tail[k] in multiset(tail);
        if tail[k] != x {
          assert tail[k] in multiset(xs[1..]);
          var j :| 0 <= j < |xs[1..]| && xs[1..][j] == tail[k];
          assert xs[j + 1] == tail[k];
        }
      }
    }
  }

  /** The sort returns the same rows, ordered by non-increasing key. */
  lemma {:induction false} SortDescCorrect(xs: seq<int>, key: int -> int)
    ensures SortedDesc(SortDesc(xs, key), key)
    ensures multiset(SortDesc(xs, key)) == multiset(xs)
    decreases |xs|
  {
    if xs != [] {
      SortDescCorrect(xs[1..], key);
      InsertDescSorted(xs[0], SortDesc(xs[1..], key), key);
      InsertDescPerm(xs[0], SortDesc(xs[1..], key), key);
      assert xs == [xs[0]] + xs[1..];
    }
  }

  /** `ORDER BY id DESC` lists the newest row first. */
  lemma NewestFirst(xs: seq<int>)
    requires xs != []
    ensures |SortDesc(xs, x => x)| == |xs|
    ensures SortDesc(xs, x => x)[0] in xs
    ensures forall x | x in xs :: SortDesc(xs, x => x)[0] >= x
  {
    SortDescCorrect(xs, x => x);
    var s := SortDesc(xs, x => x);
    assert |multiset(s)| == |s| && |multiset(xs)| == |xs|;
    assert s[0] in multiset(s);
    forall x | x in xs
      ensures s[0] >= x
    {
      assert x in multiset(s);
      var j :| 0 <= j < |s| && s[j] == x;
      if j > 0 {
        assert s[0] >= s[j];
      }
    }
  }

  /** An ascending sequence holds each value at most once. */
  lemma {:induction false} AscendingOnce(xs: seq<int>, v: int)
    requires Ascending(xs)
    ensures multiset(xs)[v] <= 1
    decreases |xs|
  {
    if xs != [] {
      AscendingOnce(xs[1..], v);
      assert xs == [xs[0]] + xs[1..];
      if v == xs[0] {
        assert v !in xs[1..] by {
          forall k | 0 <= k < |xs[1..]|
            ensures xs[1..][k] != v
          {
            assert xs[1..][k] == xs[k + 1];
          }
        }
      }
    }
  }

  /** A value at two positions is counted twice. */
  lemma Twice(s: seq<int>, i: int, j: int)
    requires 0 <= i < j < |s| && s[i] == s[j]
    ensures multiset(s)[s[i]] >= 2
  {
    assert s == s[..j] + s[j..];
    assert s[..j][i] == s[i];
    assert s[j..][0] == s[j];
    assert s[i] in multiset(s[..j]) && s[i] in multiset(s[j..]);
  }

  /** `ORDER BY id DESC`. */
  function SortByIdDesc(xs: seq<int>): seq<int>
  {
    SortDesc(xs, x => x)
  }

  /** Over distinct ids, `ORDER BY id DESC` lists them strictly newest first. */
  lemma ByIdDesc(xs: seq<int>)
    requires Ascending(xs)
    ensures multiset(SortByIdDesc(xs)) == multiset(xs)
    ensures forall i, j | 0 <= i < j < |SortByIdDesc(xs)| :: SortByIdDesc(xs)[i] > SortByIdDesc(xs)[j]
  {
    var s := SortByIdDesc(xs);
    SortDescCorrect(xs, x => x);
    forall i, j | 0 <= i < j < |s|
      ensures s[i] > s[j]
    {
      assert s[i] >= s[j];
      if s[i] == s[j] {
        Twice(s, i, j);
        AscendingOnce(xs, s[i]);
      }
    }
  }
}
