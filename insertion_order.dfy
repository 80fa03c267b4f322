/**
 * Insertion-ordered, duplicate-free lists, as the extraction script builds
 * them by appending an item only when it is absent, and the lookup of an
 * item's first position (Python's `list.index`).
 */
module InsertionOrder {
  import opened Wrappers

  /** No element occurs twice. */
  predicate NoDup<T(==)>(s: seq<T>)
  {
    forall i, j :: 0 <= i < j < |s| ==> s[i] != s[j]
  }

  /** Append x to s unless s already holds it. */
  function AppendIfAbsent<T(==)>(s: seq<T>, x: T): (r: seq<T>)
    ensures s <= r && x in r
    ensures forall y :: y in r ==> y in s || y == x
    ensures x in s ==> r == s
  {
    if x in s then s else s + [x]
  }

  /** Appending-if-absent every element of xs, left to right, to acc. */
  function InsertAll<T(==)>(acc: seq<T>, xs: seq<T>): seq<T>
    decreases |xs|
  {
    if xs == [] then acc else AppendIfAbsent(InsertAll(acc, xs[..|xs| - 1]), xs[|xs| - 1])
  }

  /** Inserting one more element. */
  lemma InsertAllSnoc<T>(acc: seq<T>, xs: seq<T>, x: T)
    ensures InsertAll(acc, xs + [x]) == AppendIfAbsent(InsertAll(acc, xs), x)
  {
    assert (xs + [x])[..|xs|] == xs;
  }

  /** The distinct elements of xs in the order they are first seen. */
  function Dedup<T(==)>(xs: seq<T>): seq<T>
  {
    InsertAll([], xs)
  }

  /**
   * `s.index(x)`: the first position holding x, or None where Python raises
   * ValueError because x is not in s.
   */
  function IndexOf<T(==)>(s: seq<T>, x: T): (r: Option<nat>)
    ensures r.None? <==> x !in s
    ensures r.Some? ==> r.value < |s| && s[r.value] == x && x !in s[..r.value]
  {
    if s == [] then None
    else if s[0] == x then Some(0)
    else match IndexOf(s[1..], x)
      case None => None
      case Some(i) =>
        assert s[..i + 1] == [s[0]] + s[1..][..i];
        Some(i + 1)
  }

  /** In a duplicate-free list every element's position is the one index finds. */
  lemma IndexOfNoDup<T>(s: seq<T>, i: nat)
    requires NoDup(s) && i < |s|
    ensures IndexOf(s, s[i]) == Some(i)
  {
  }

  /** Index of x in a list that extends s where x already occurs: unchanged. */
  lemma {:induction false} IndexOfExtend<T>(s: seq<T>, t: seq<T>, x: T)
    requires x in s
    ensures IndexOf(s + t, x) == IndexOf(s, x)
    decreases |s|
  {
    if s[0] != x {
      assert (s + t)[1..] == s[1..] + t;
      IndexOfExtend(s[1..], t, x);
    }
  }

  /** Positions once assigned never change: acc is a prefix of the result. */
  lemma {:induction false} InsertAllExtends<T>(acc: seq<T>, xs: seq<T>)
    ensures acc <= InsertAll(acc, xs)
    decreases |xs|
  {
    if xs != [] {
      InsertAllExtends(acc, xs[..|xs| - 1]);
    }
  }

  /** The result holds exactly the elements of acc and of xs. */
  lemma {:induction false} InsertAllMembers<T>(acc: seq<T>, xs: seq<T>, x: T)
    ensures x in InsertAll(acc, xs) <==> x in acc || x in xs
    decreases |xs|
  {
    if xs != [] {
      var init := xs[..|xs| - 1];
      InsertAllMembers(acc, init, x);
      assert xs == init + [xs[|xs| - 1]];
    }
  }

  /** Appending-if-absent never introduces a duplicate. */
  lemma {:induction false} InsertAllNoDup<T>(acc: seq<T>, xs: seq<T>)
    requires NoDup(acc)
    ensures NoDup(InsertAll(acc, xs))
    decreases |xs|
  {
    if xs != [] {
      InsertAllNoDup(acc, xs[..|xs| - 1]);
    }
  }

  /** Inserting xs + ys is inserting xs and then ys. */
  lemma {:induction false} InsertAllConcat<T>(acc: seq<T>, xs: seq<T>, ys: seq<T>)
    ensures InsertAll(acc, xs + ys) == InsertAll(InsertAll(acc, xs), ys)
    decreases |ys|
  {
    if ys == [] {
      assert xs + ys == xs;
    } else {
      var ys' := ys[..|ys| - 1];
      assert (xs + ys)[..|xs + ys| - 1] == xs + ys';
      InsertAllConcat(acc, xs, ys');
    }
  }

  /**
   * Dedup lists its elements in first-seen order: an element placed earlier
   * was first seen earlier in xs.
   */
  lemma {:induction false} DedupFirstSeenOrder<T>(xs: seq<T>, i: nat, j: nat)
    requires i < j < |Dedup(xs)|
    ensures Dedup(xs)[i] in xs && Dedup(xs)[j] in xs
    ensures IndexOf(xs, Dedup(xs)[i]).value < IndexOf(xs, Dedup(xs)[j]).value
    decreases |xs|
  {
    var d := Dedup(xs);
    InsertAllMembers([], xs, d[i]);
    InsertAllMembers([], xs, d[j]);
    var init := xs[..|xs| - 1];
    var last := xs[|xs| - 1];
    var d' := Dedup(init);
    assert xs == init + [last];
    if j < |d'| {
      assert d[i] == d'[i] && d[j] == d'[j];
      DedupFirstSeenOrder(init, i, j);
      InsertAllMembers([], init, d[i]);
      InsertAllMembers([], init, d[j]);
      IndexOfExtend(init, [last], d[i]);
      IndexOfExtend(init, [last], d[j]);
    } else {
      assert last !in d' && d == d' + [last] && d[j] == last;
      InsertAllMembers([], init, last);
      assert d[i] == d'[i];
      InsertAllMembers([], init, d[i]);
      IndexOfExtend(init, [last], d[i]);
    }
  }

  /** The sum of a sequence of counts. */
  function Sum(s: seq<int>): int
    decreases |s|
  {
    if s == [] then 0 else Sum(s[..|s| - 1]) + s[|s| - 1]
  }

  /** Adding one to a single element adds one to the sum. */
  lemma {:induction false} SumIncrement(s: seq<int>, i: nat)
    requires i < |s|
    ensures Sum(s[i := s[i] + 1]) == Sum(s) + 1
    decreases |s|
  {
    var t := s[i := s[i] + 1];
    assert t[..|t| - 1] == if i < |s| - 1 then s[..|s| - 1][i := s[i] + 1] else s[..|s| - 1];
    if i < |s| - 1 {
      SumIncrement(s[..|s| - 1], i);
    }
  }

  /** Adding one at position a adds one to the sum of the slice [lo, hi) exactly when a lies in it. */
  lemma SliceSumIncrement(s: seq<int>, a: nat, lo: nat, hi: nat)
    requires a < |s| && lo <= hi <= |s|
    ensures Sum(s[a := s[a] + 1][lo..hi]) == Sum(s[lo..hi]) + (if lo <= a < hi then 1 else 0)
  {
    if lo <= a < hi {
      assert s[a := s[a] + 1][lo..hi] == s[lo..hi][a - lo := s[a] + 1];
      SumIncrement(s[lo..hi], a - lo);
    } else {
      assert s[a := s[a] + 1][lo..hi] == s[lo..hi];
    }
  }
}
