/** Sequence facts the engines' queries and folds rest on. */
module Sequences {
  import opened Domain

  // ----- Queries -----

  /** The first row satisfying `p`: what a query for a row that is unique returns. */
  function First<T>(rows: seq<T>, p: T -> bool): (r: Option<nat>)
    ensures r.None? ==> forall i | 0 <= i < |rows| :: !p(rows[i])
    ensures r.Some? ==> r.value < |rows| && p(rows[r.value])
    ensures r.Some? ==> forall i | 0 <= i < r.value :: !p(rows[i])
  {
    if rows == [] then None
    else
      var r := First(rows[..|rows| - 1], p);
      if r.Some? then r
      else if p(rows[|rows| - 1]) then Some(|rows| - 1)
      else None
  }

  /** The ids of the rows satisfying `p`, in storage order. */
  function Where<T>(rows: seq<T>, p: T -> bool): (ids: seq<nat>)
    ensures forall i :: i in ids <==> 0 <= i < |rows| && p(rows[i])
    ensures forall k, l | 0 <= k < l < |ids| :: ids[k] < ids[l]
  {
    if rows == [] then []
    else
      var ids := Where(rows[..|rows| - 1], p);
      assert forall k | 0 <= k < |ids| :: ids[k] in ids;
      if p(rows[|rows| - 1]) then ids + [|rows| - 1] else ids
  }

  /** The row a query without ORDER BY happens to return, for some storage order `scan`. */
  function AnyOf(ids: seq<nat>, scan: nat): (id: nat)
    requires ids != []
    ensures id in ids
  {
    ids[scan % |ids|]
  }

  /** Every matching row is returned under some storage order. */
  lemma AnyRowCanBeReturned(ids: seq<nat>, id: nat)
    requires id in ids
    ensures exists scan: nat :: AnyOf(ids, scan) == id
  {
    var k :| 0 <= k < |ids| && ids[k] == id;
    assert k % |ids| == k;
    assert AnyOf(ids, k) == id;
  }

  // ----- Counting -----

  function Count<T(!new)>(rows: seq<T>, p: T -> bool): nat {
    if rows == [] then 0
    else Count(rows[..|rows| - 1], p) + if p(rows[|rows| - 1]) then 1 else 0
  }

  lemma CountAppend<T(!new)>(rows: seq<T>, x: T, p: T -> bool)
    ensures Count(rows + [x], p) == Count(rows, p) + if p(x) then 1 else 0
  {
    assert (rows + [x])[..|rows|] == rows;
  }

  lemma {:induction false} CountUpdate<T(!new)>(rows: seq<T>, i: nat, x: T, p: T -> bool)
    requires i < |rows|
    ensures Count(rows[i := x], p) + (if p(rows[i]) then 1 else 0) == Count(rows, p) + if p(x) then 1 else 0
  {
    var n := |rows| - 1;
    if i == n {
      assert rows[i := x][..n] == rows[..n];
    } else {
      assert rows[i := x][..n] == rows[..n][i := x];
      CountUpdate(rows[..n], i, x, p);
    }
  }

  lemma {:induction false} CountZero<T(!new)>(rows: seq<T>, p: T -> bool)
    ensures Count(rows, p) == 0 <==> forall i | 0 <= i < |rows| :: !p(rows[i])
  {
    if rows != [] {
      CountZero(rows[..|rows| - 1], p);
      assert forall i | 0 <= i < |rows| - 1 :: rows[..|rows| - 1][i] == rows[i];
    }
  }

  // ----- Lists without repetitions -----

  predicate NoDuplicates<T(==)>(s: seq<T>) {
    forall i, j | 0 <= i < j < |s| :: s[i] != s[j]
  }

  function Elements<T(!new)>(s: seq<T>): set<T> {
    set x | x in s
  }

  /** Drop repetitions, keeping first occurrences in order. */
  function Dedup<T(==,!new)>(s: seq<T>): (r: seq<T>)
    ensures NoDuplicates(r)
    ensures forall x :: x in r <==> x in s
    ensures NoDuplicates(s) ==> r == s
  {
    if s == [] then []
    else
      var r := Dedup(s[..|s| - 1]);
      assert s == s[..|s| - 1] + [s[|s| - 1]];
      if s[|s| - 1] in r then r else r + [s[|s| - 1]]
  }

  lemma DedupAppend<T(!new)>(s: seq<T>, x: T)
    ensures Dedup(s + [x]) == if x in s then Dedup(s) else Dedup(s) + [x]
  {
    assert (s + [x])[..|s|] == s;
  }

  lemma {:induction false} DistinctLength<T(!new)>(s: seq<T>)
    requires NoDuplicates(s)
    ensures |Elements(s)| == |s|
  {
    if s != [] {
      var t := s[..|s| - 1];
      DistinctLength(t);
      assert s == t + [s[|s| - 1]];
      assert Elements(s) == Elements(t) + {s[|s| - 1]};
    }
  }

  lemma EmptyElements<T(!new)>(s: seq<T>)
    ensures s == [] <==> Elements(s) == {}
  {
    assert s != [] ==> s[0] in Elements(s);
  }

  /** Two lists without repetitions and with the same elements are permutations of each other. */
  lemma SameElementsSameMultiset<T(!new)>(s: seq<T>, t: seq<T>)
    requires NoDuplicates(s) && NoDuplicates(t)
    requires Elements(s) == Elements(t)
    ensures multiset(s) == multiset(t)
  {
    forall x ensures multiset(s)[x] == multiset(t)[x] {
      DistinctMultiplicity(s, x);
      DistinctMultiplicity(t, x);
      assert x in Elements(s) <==> x in s;
      assert x in Elements(t) <==> x in t;
    }
  }

  lemma {:induction false} DistinctMultiplicity<T(!new)>(s: seq<T>, x: T)
    requires NoDuplicates(s)
    ensures multiset(s)[x] == if x in s then 1 else 0
  {
    if s != [] {
      DistinctMultiplicity(s[..|s| - 1], x);
      assert s == s[..|s| - 1] + [s[|s| - 1]];
    }
  }

  // ----- Filtering -----

  function Filter<T>(s: seq<T>, p: T -> bool): seq<T> {
    if s == [] then []
    else
      var r := Filter(s[..|s| - 1], p);
      if p(s[|s| - 1]) then r + [s[|s| - 1]] else r
  }

  lemma {:induction false} FilterMembers<T(!new)>(s: seq<T>, p: T -> bool)
    ensures forall x :: x in Filter(s, p) <==> x in s && p(x)
  {
    if s != [] {
      FilterMembers(s[..|s| - 1], p);
      assert s == s[..|s| - 1] + [s[|s| - 1]];
    }
  }

  lemma FilterNone<T(!new)>(s: seq<T>, p: T -> bool)
    ensures Filter(s, p) == [] <==> forall x | x in s :: !p(x)
  {
    FilterMembers(s, p);
    if Filter(s, p) != [] {
      assert Filter(s, p)[0] in Filter(s, p);
    }
  }

  lemma {:induction false} FilterAll<T>(s: seq<T>, p: T -> bool)
    requires forall x | x in s :: p(x)
    ensures Filter(s, p) == s
  {
    if s != [] {
      FilterAll(s[..|s| - 1], p);
    }
  }

  lemma FilterAppend<T(!new)>(s: seq<T>, x: T, p: T -> bool)
    ensures Filter(s + [x], p) == Filter(s, p) + if p(x) then [x] else []
  {
    assert (s + [x])[..|s|] == s;
  }

  lemma {:induction false} FilterConcat<T(!new)>(s: seq<T>, t: seq<T>, p: T -> bool)
    ensures Filter(s + t, p) == Filter(s, p) + Filter(t, p)
  {
    if t == [] {
      assert s + t == s;
    } else {
      var n := |t| - 1;
      assert s + t == (s + t[..n]) + [t[n]];
      FilterAppend(s + t[..n], t[n], p);
      FilterConcat(s, t[..n], p);
    }
  }

  lemma {:induction false} FilterDistinct<T(!new)>(s: seq<T>, p: T -> bool)
    requires NoDuplicates(s)
    ensures NoDuplicates(Filter(s, p))
  {
    if s != [] {
      FilterDistinct(s[..|s| - 1], p);
      FilterMembers(s[..|s| - 1], p);
      assert s == s[..|s| - 1] + [s[|s| - 1]];
    }
  }

  // ----- Totals -----

  function Total<T>(s: seq<T>, w: T -> nat): nat {
    if s == [] then 0 else Total(s[..|s| - 1], w) + w(s[|s| - 1])
  }

  lemma {:induction false} TotalConcat<T>(s: seq<T>, t: seq<T>, w: T -> nat)
    ensures Total(s + t, w) == Total(s, w) + Total(t, w)
  {
    if t == [] {
      assert s + t == s;
    } else {
      var n := |t| - 1;
      assert (s + t)[..|s| + n] == s + t[..n];
      TotalConcat(s, t[..n], w);
    }
  }

  /** A total does not depend on the order of the rows. */
  lemma {:induction false} TotalPermutation<T>(s: seq<T>, t: seq<T>, w: T -> nat)
    requires multiset(s) == multiset(t)
    ensures Total(s, w) == Total(t, w)
  {
    if s == [] {
      assert |t| == |multiset(t)| == |multiset(s)|;
    } else {
      var n := |s| - 1;
      var x := s[n];
      assert s == s[..n] + [x];
      assert x in multiset(t);
      var k :| 0 <= k < |t| && t[k] == x;
      assert t == t[..k] + [x] + t[k + 1..];
      assert multiset(s) == multiset(s[..n]) + multiset{x};
      assert multiset(t) == multiset(t[..k]) + multiset{x} + multiset(t[k + 1..]);
      assert multiset(t[..k] + t[k + 1..]) == multiset(t) - multiset{x};
      assert multiset(s[..n]) == multiset(s) - multiset{x};
      TotalPermutation(s[..n], t[..k] + t[k + 1..], w);
      TotalConcat(t[..k], t[k + 1..], w);
      TotalConcat(t[..k], [x], w);
      TotalConcat(t[..k] + [x], t[k + 1..], w);
      assert Total([x], w) == w(x) by { assert [x][..0] == []; }
    }
  }
}
