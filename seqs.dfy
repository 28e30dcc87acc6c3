/** Python list comprehensions `[x for x in s if p(x)]` and the facts about them the model uses. */
module Seqs {

  function Filter<T(!new)>(s: seq<T>, p: T -> bool): (r: seq<T>)
    ensures |r| <= |s|
  {
    if s == [] then [] else (if p(s[0]) then [s[0]] else []) + Filter(s[1..], p)
  }

  /** The comprehension holds exactly the elements of the list that satisfy the condition. */
  lemma {:induction false} FilterMembers<T(!new)>(s: seq<T>, p: T -> bool)
    ensures forall x :: x in Filter(s, p) <==> x in s && p(x)
    decreases |s|
  {
    if s != [] {
      FilterMembers(s[1..], p);
      assert s == [s[0]] + s[1..];
    }
  }

  lemma {:induction false} FilterAppend<T(!new)>(a: seq<T>, b: seq<T>, p: T -> bool)
    ensures Filter(a + b, p) == Filter(a, p) + Filter(b, p)
    decreases |a|
  {
    if a == [] {
      assert a + b == b;
    } else {
      var c := a + b;
      var head := if p(a[0]) then [a[0]] else [];
      assert c[0] == a[0] && c[1..] == a[1..] + b;
      FilterAppend(a[1..], b, p);
      calc {
        Filter(c, p);
        head + Filter(a[1..] + b, p);
        head + (Filter(a[1..], p) + Filter(b, p));
        (head + Filter(a[1..], p)) + Filter(b, p);
      }
    }
  }

  lemma FilterSnoc<T(!new)>(a: seq<T>, x: T, p: T -> bool)
    ensures Filter(a + [x], p) == Filter(a, p) + (if p(x) then [x] else [])
  {
    FilterAppend(a, [x], p);
    assert [x][1..] == [];
  }

  /** The comprehension over one more element of a list's prefix, as a loop builds it. */
  lemma FilterPrefixStep<T(!new)>(s: seq<T>, i: int, p: T -> bool)
    requires 0 <= i < |s|
    ensures Filter(s[..i + 1], p) == Filter(s[..i], p) + (if p(s[i]) then [s[i]] else [])
  {
    assert s[..i + 1] == s[..i] + [s[i]];
    FilterSnoc(s[..i], s[i], p);
  }

  /** A comprehension over a four-element list, written out. */
  lemma FilterOfFour<T(!new)>(a: T, b: T, c: T, d: T, p: T -> bool)
    ensures Filter([a, b, c, d], p) ==
      (if p(a) then [a] else []) + (if p(b) then [b] else []) + (if p(c) then [c] else []) + (if p(d) then [d] else [])
  {
    assert [d][1..] == [];
    assert Filter([d], p) == (if p(d) then [d] else []);
    assert [c, d][1..] == [d];
    assert Filter([c, d], p) == (if p(c) then [c] else []) + Filter([d], p);
    assert [b, c, d][1..] == [c, d];
    assert Filter([b, c, d], p) == (if p(b) then [b] else []) + Filter([c, d], p);
    assert [a, b, c, d][1..] == [b, c, d];
  }

  lemma {:induction false} FilterKeepsAll<T(!new)>(s: seq<T>, p: T -> bool)
    requires forall x :: x in s ==> p(x)
    ensures Filter(s, p) == s
    decreases |s|
  {
    if s != [] {
      FilterKeepsAll(s[1..], p);
    }
  }

  lemma {:induction false} FilterDropsAll<T(!new)>(s: seq<T>, p: T -> bool)
    requires forall x :: x in s ==> !p(x)
    ensures Filter(s, p) == []
    decreases |s|
  {
    if s != [] {
      FilterDropsAll(s[1..], p);
    }
  }

  /** Two successive comprehensions are one comprehension over the conjunction. */
  lemma {:induction false} FilterFilter<T(!new)>(s: seq<T>, p: T -> bool, q: T -> bool, pq: T -> bool)
    requires forall x :: pq(x) == (p(x) && q(x))
    ensures Filter(Filter(s, p), q) == Filter(s, pq)
    decreases |s|
  {
    if s != [] {
      FilterFilter(s[1..], p, q, pq);
      var rest := Filter(s[1..], p);
      if p(s[0]) {
        assert Filter(s, p) == [s[0]] + rest;
        assert ([s[0]] + rest)[1..] == rest;
        assert Filter([s[0]] + rest, q) == (if q(s[0]) then [s[0]] else []) + Filter(rest, q);
      } else {
        assert Filter(s, p) == rest;
      }
    }
  }

  /** Two comprehensions whose conditions agree on every element give the same list. */
  lemma {:induction false} FilterCongruent<T(!new)>(s: seq<T>, p: T -> bool, q: T -> bool)
    requires forall x :: x in s ==> p(x) == q(x)
    ensures Filter(s, p) == Filter(s, q)
    decreases |s|
  {
    if s != [] {
      FilterCongruent(s[1..], p, q);
    }
  }

  function MapSeq<T, U>(s: seq<T>, f: T -> U): (r: seq<U>)
    ensures |r| == |s| && forall i :: 0 <= i < |s| ==> r[i] == f(s[i])
  {
    seq(|s|, i requires 0 <= i < |s| => f(s[i]))
  }

  /** Python's `l.remove(x)` when `x` is in `l`: the first occurrence goes, the rest stays in order. */
  function RemoveFirst<T(==)>(s: seq<T>, x: T): (r: seq<T>)
    ensures x in s ==> |r| == |s| - 1 && multiset(r) == multiset(s) - multiset{x}
    ensures x !in s ==> r == s
  {
    if s == [] then []
    else if s[0] == x then
      assert s == [x] + s[1..];
      s[1..]
    else
      assert s == [s[0]] + s[1..];
      [s[0]] + RemoveFirst(s[1..], x)
  }

  /** The position `l.insert(i, x)` puts `x` at: negative indices count from the end, then clamp. */
  function ClampIndex(i: int, n: nat): (j: nat)
    ensures j <= n
  {
    if i < 0 then (if i + n < 0 then 0 else i + n) else if i > n then n else i
  }

  /** Python's `l.insert(i, x)`. */
  function Insert<T>(s: seq<T>, i: int, x: T): (r: seq<T>)
    ensures |r| == |s| + 1 && r[ClampIndex(i, |s|)] == x
    ensures r[..ClampIndex(i, |s|)] == s[..ClampIndex(i, |s|)]
    ensures r[ClampIndex(i, |s|) + 1..] == s[ClampIndex(i, |s|)..]
  {
    var j := ClampIndex(i, |s|);
    s[..j] + [x] + s[j..]
  }

  function NotEqual<T(==)>(x: T): T -> bool {
    y => y != x
  }

  /** Removing the first `x` leaves every other element where it was relative to the rest. */
  lemma {:induction false} RemoveFirstKeepsOthers<T(!new)>(s: seq<T>, x: T)
    ensures Filter(RemoveFirst(s, x), NotEqual(x)) == Filter(s, NotEqual(x))
    decreases |s|
  {
    if s != [] && s[0] != x {
      RemoveFirstKeepsOthers(s[1..], x);
      assert ([s[0]] + RemoveFirst(s[1..], x))[1..] == RemoveFirst(s[1..], x);
    }
  }

  /** Inserting `x` does not disturb the relative order of the elements other than `x`. */
  lemma InsertKeepsOthers<T(!new)>(s: seq<T>, i: int, x: T)
    ensures Filter(Insert(s, i, x), NotEqual(x)) == Filter(s, NotEqual(x))
  {
    var j := ClampIndex(i, |s|);
    assert s == s[..j] + s[j..];
    FilterAppend(s[..j], s[j..], NotEqual(x));
    FilterAppend(s[..j] + [x], s[j..], NotEqual(x));
    FilterSnoc(s[..j], x, NotEqual(x));
  }
}
