/** Queries over append-only tables: a table is a sequence of rows in creation
    order, so "oldest first" is the table order and "newest first" its reverse. */
module Seqs {
  import opened Common

  /** Index of the first row satisfying `p` (a `findFirst`/`findUnique`). */
  function FindFirst<T>(s: seq<T>, p: T -> bool): (r: Option<nat>)
    ensures r.Some? ==> r.value < |s| && p(s[r.value])
    ensures r.Some? ==> forall j :: 0 <= j < r.value ==> !p(s[j])
    ensures r.None? <==> forall j :: 0 <= j < |s| ==> !p(s[j])
  {
    if |s| == 0 then None
    else if p(s[0]) then Some(0)
    else match FindFirst(s[1..], p)
      case None => None
      case Some(k) => Some(k + 1)
  }

  /** Overwriting a row that satisfies `p` with another that does keeps that
      row the first match: the lookup finds the same row again. */
  lemma FindFirstAfterUpdate<T>(s: seq<T>, p: T -> bool, k: nat, x: T)
    requires FindFirst(s, p) == Some(k) && p(x)
    ensures FindFirst(s[k := x], p) == Some(k)
  {
    var t := s[k := x];
    assert p(t[k]);
    forall j | 0 <= j < k
      ensures !p(t[j])
    {
      assert t[j] == s[j];
    }
  }

  /** Overwriting a row that does not satisfy `p` with another that does not
      leaves the lookup's answer unchanged. */
  lemma FindFirstAfterUnrelatedUpdate<T>(s: seq<T>, p: T -> bool, k: nat, x: T)
    requires k < |s| && !p(s[k]) && !p(x)
    ensures FindFirst(s[k := x], p) == FindFirst(s, p)
  {
    var r, r' := FindFirst(s, p), FindFirst(s[k := x], p);
    if r.Some? {
      assert s[k := x][r.value] == s[r.value];
    }
    if r'.Some? {
      assert s[k := x][r'.value] == s[r'.value];
    }
  }

  /** Appending a row leaves the lookup's answer unchanged when some earlier
      row already matches. */
  lemma FindFirstAfterAppend<T>(s: seq<T>, p: T -> bool, x: T)
    ensures FindFirst(s, p).Some? ==> FindFirst(s + [x], p) == FindFirst(s, p)
    ensures FindFirst(s, p).None? ==> FindFirst(s + [x], p) == if p(x) then Some(|s|) else None
  {
    forall j | 0 <= j < |s|
      ensures (s + [x])[j] == s[j]
    {
    }
    assert (s + [x])[|s|] == x;
    match FindFirst(s, p)
    case Some(k) =>
      var r := FindFirst(s + [x], p);
      assert p((s + [x])[k]);
      assert r.Some? && r.value <= k;
      assert !(r.value < k);
    case None =>
      var r := FindFirst(s + [x], p);
      if p(x) {
        assert r.Some? && r.value <= |s|;
      } else {
        assert forall j :: 0 <= j < |s + [x]| ==> !p((s + [x])[j]);
      }
  }

  /** The rows satisfying `p`, in table order (a `findMany` with a `where`). */
  function Filter<T>(s: seq<T>, p: T -> bool): (r: seq<T>)
    ensures |r| <= |s|
    ensures forall k :: 0 <= k < |r| ==> r[k] in s && p(r[k])
    ensures forall k :: 0 <= k < |s| && p(s[k]) ==> s[k] in r
  {
    if |s| == 0 then []
    else (if p(s[0]) then [s[0]] else []) + Filter(s[1..], p)
  }

  /** `x` comes before `y` in the table. */
  ghost predicate Precedes<T>(s: seq<T>, x: T, y: T)
  {
    exists i, j :: 0 <= i < j < |s| && s[i] == x && s[j] == y
  }

  /** The filtered view keeps table order. */
  lemma {:induction false} FilterKeepsOrder<T>(s: seq<T>, p: T -> bool)
    ensures forall a, b :: 0 <= a < b < |Filter(s, p)| ==> Precedes(s, Filter(s, p)[a], Filter(s, p)[b])
  {
    if |s| > 0 {
      var f, f' := Filter(s, p), Filter(s[1..], p);
      FilterKeepsOrder(s[1..], p);
      var d := if p(s[0]) then 1 else 0;
      assert f == (if p(s[0]) then [s[0]] else []) + f';
      forall a, b | 0 <= a < b < |f|
        ensures Precedes(s, f[a], f[b])
      {
        if a < d {
          PrecedesFromHead(s, f'[b - d]);
        } else {
          PrecedesInTail(s, f'[a - d], f'[b - d]);
        }
      }
    }
  }

  /** The filtered view holds every selected row as often as the table
      does, and no other row. */
  lemma {:induction false} FilterMultiset<T>(s: seq<T>, p: T -> bool)
    ensures forall x :: multiset(Filter(s, p))[x] == if p(x) then multiset(s)[x] else 0
  {
    if |s| > 0 {
      FilterMultiset(s[1..], p);
      assert s == [s[0]] + s[1..];
      assert Filter(s, p) == (if p(s[0]) then [s[0]] else []) + Filter(s[1..], p);
    }
  }

  /** The first row precedes every row of the rest of the table. */
  lemma PrecedesFromHead<T>(s: seq<T>, y: T)
    requires |s| > 0 && y in s[1..]
    ensures Precedes(s, s[0], y)
  {
    var m :| 0 <= m < |s[1..]| && s[1..][m] == y;
    assert s[m + 1] == y;
  }

  /** Order in the rest of the table is order in the table. */
  lemma PrecedesInTail<T>(s: seq<T>, x: T, y: T)
    requires |s| > 0 && Precedes(s[1..], x, y)
    ensures Precedes(s, x, y)
  {
    var i, j :| 0 <= i < j < |s[1..]| && s[1..][i] == x && s[1..][j] == y;
    assert s[i + 1] == x && s[j + 1] == y;
  }

  /** `y` is the image under `g` of some row satisfying `p`. */
  ghost predicate IsImage<T, U>(s: seq<T>, p: T -> bool, g: T -> U, y: U)
  {
    exists j :: 0 <= j < |s| && p(s[j]) && y == g(s[j])
  }

  /** Every filtered row mapped through `g` is the image of a selected row. */
  lemma MappedFilterSound<T, U>(s: seq<T>, p: T -> bool, g: T -> U)
    ensures forall k :: 0 <= k < |Map(Filter(s, p), g)| ==> IsImage(s, p, g, Map(Filter(s, p), g)[k])
  {
    var f := Filter(s, p);
    forall k | 0 <= k < |Map(f, g)|
      ensures IsImage(s, p, g, Map(f, g)[k])
    {
      var j :| 0 <= j < |s| && s[j] == f[k];
      assert 0 <= j < |s| && p(s[j]) && Map(f, g)[k] == g(s[j]);
    }
  }

  /** The image of every selected row is among the filtered rows mapped
      through `g`. */
  lemma MappedFilterComplete<T, U>(s: seq<T>, p: T -> bool, g: T -> U)
    ensures forall j :: 0 <= j < |s| && p(s[j]) ==> g(s[j]) in Map(Filter(s, p), g)
  {
    var f := Filter(s, p);
    forall j | 0 <= j < |s| && p(s[j])
      ensures g(s[j]) in Map(f, g)
    {
      assert s[j] in f;
      var m :| 0 <= m < |f| && f[m] == s[j];
      assert Map(f, g)[m] == g(s[j]);
    }
  }

  /** The filtered view read backwards (newest first): the selected rows,
      all of them, later rows before earlier ones. */
  lemma ReversedFilter<T>(s: seq<T>, p: T -> bool)
    ensures var h := Reverse(Filter(s, p));
      && (forall k :: 0 <= k < |h| ==> h[k] in s && p(h[k]))
      && (forall j :: 0 <= j < |s| && p(s[j]) ==> s[j] in h)
      && (forall a, b :: 0 <= a < b < |h| ==> Precedes(s, h[b], h[a]))
  {
    var f := Filter(s, p);
    ReversedMembers(f, s, p);
    ReversedComplete(f, s, p);
    FilterKeepsOrder(s, p);
    ReversedOrder(f, s);
  }

  lemma ReversedMembers<T>(f: seq<T>, s: seq<T>, p: T -> bool)
    requires forall k :: 0 <= k < |f| ==> f[k] in s && p(f[k])
    ensures forall k :: 0 <= k < |Reverse(f)| ==> Reverse(f)[k] in s && p(Reverse(f)[k])
  {
    var h := Reverse(f);
    forall k | 0 <= k < |h|
      ensures h[k] in s && p(h[k])
    {
      assert h[k] == f[|f| - 1 - k];
    }
  }

  lemma ReversedComplete<T>(f: seq<T>, s: seq<T>, p: T -> bool)
    requires forall j :: 0 <= j < |s| && p(s[j]) ==> s[j] in f
    ensures forall j :: 0 <= j < |s| && p(s[j]) ==> s[j] in Reverse(f)
  {
    var h := Reverse(f);
    forall j | 0 <= j < |s| && p(s[j])
      ensures s[j] in h
    {
      var m :| 0 <= m < |f| && f[m] == s[j];
      assert h[|f| - 1 - m] == f[m];
    }
  }

  lemma ReversedOrder<T>(f: seq<T>, s: seq<T>)
    requires forall a, b :: 0 <= a < b < |f| ==> Precedes(s, f[a], f[b])
    ensures forall a, b :: 0 <= a < b < |Reverse(f)| ==> Precedes(s, Reverse(f)[b], Reverse(f)[a])
  {
    var h := Reverse(f);
    forall a, b | 0 <= a < b < |h|
      ensures Precedes(s, h[b], h[a])
    {
      assert h[a] == f[|f| - 1 - a] && h[b] == f[|f| - 1 - b];
    }
  }

  /** A filter nothing satisfies selects nothing. */
  lemma {:induction false} FilterNone<T>(s: seq<T>, p: T -> bool)
    requires forall j :: 0 <= j < |s| ==> !p(s[j])
    ensures Filter(s, p) == []
  {
    if |s| > 0 {
      assert forall j :: 0 <= j < |s[1..]| ==> s[1..][j] == s[j + 1];
      FilterNone(s[1..], p);
    }
  }

  /** Appending a row extends the filtered view by that row exactly when it
      satisfies the filter: the filtered view of an append-only table is
      itself append-only. */
  lemma {:induction false} FilterAppend<T>(s: seq<T>, x: T, p: T -> bool)
    ensures Filter(s + [x], p) == Filter(s, p) + (if p(x) then [x] else [])
  {
    if |s| == 0 {
      assert s + [x] == [x];
      assert [x][1..] == [];
    } else {
      assert (s + [x])[0] == s[0];
      assert (s + [x])[1..] == s[1..] + [x];
      FilterAppend(s[1..], x, p);
    }
  }

  /** Replacing a row by another that agrees with it on `p` and is not selected
      leaves the filtered view unchanged. */
  lemma {:induction false} FilterUpdateUnselected<T>(s: seq<T>, k: nat, x: T, p: T -> bool)
    requires k < |s| && !p(s[k]) && !p(x)
    ensures Filter(s[k := x], p) == Filter(s, p)
  {
    if k > 0 {
      assert s[k := x][1..] == s[1..][k - 1 := x];
      FilterUpdateUnselected(s[1..], k - 1, x, p);
    } else {
      assert s[k := x][1..] == s[1..];
    }
  }

  /** Table order reversed: newest first. */
  function Reverse<T>(s: seq<T>): (r: seq<T>)
    ensures |r| == |s|
    ensures forall k :: 0 <= k < |s| ==> r[k] == s[|s| - 1 - k]
  {
    if |s| == 0 then [] else Reverse(s[1..]) + [s[0]]
  }

  /** `f` applied to every row, in table order (a `select`). */
  function Map<A, B>(s: seq<A>, f: A -> B): (r: seq<B>)
    ensures |r| == |s|
    ensures forall k :: 0 <= k < |s| ==> r[k] == f(s[k])
  {
    seq(|s|, k requires 0 <= k < |s| => f(s[k]))
  }

  /** The first `n` rows (a `take`). */
  function Take<T>(s: seq<T>, n: nat): (r: seq<T>)
    ensures |r| == if |s| < n then |s| else n
    ensures forall k :: 0 <= k < |r| ==> r[k] == s[k]
  {
    if |s| <= n then s else s[..n]
  }
}
