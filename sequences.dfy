/** Sequence operations the board is built from: JavaScript's `filter`, `map` and
    `findIndex` on arrays, and the stable move that reorders columns and tasks. */
module Sequences {

  /** `r` can be obtained from `s` by deleting elements: the relative order of what
      remains is the order it had in `s`. */
  ghost predicate IsSubsequence<T>(r: seq<T>, s: seq<T>)
    decreases |s|
  {
    r == [] ||
    (s != [] && ((r[0] == s[0] && IsSubsequence(r[1..], s[1..])) || IsSubsequence(r, s[1..])))
  }

  /** `Array.prototype.filter`: the elements of `s` for which `keep` holds, in order. */
  function Filter<T(!new)>(s: seq<T>, keep: T -> bool): (r: seq<T>)
    ensures |r| <= |s|
    ensures forall x :: x in r <==> x in s && keep(x)
    ensures IsSubsequence(r, s)
    ensures (forall x :: x in s ==> keep(x)) ==> r == s
    decreases |s|
  {
    if s == [] then []
    else
      var rest := Filter(s[1..], keep);
      assert s == [s[0]] + s[1..];
      if keep(s[0]) then [s[0]] + rest else rest
  }

  /** `Array.prototype.map`. */
  function Map<T, U>(s: seq<T>, f: T -> U): (r: seq<U>)
    ensures |r| == |s|
    ensures forall i :: 0 <= i < |s| ==> r[i] == f(s[i])
  {
    seq(|s|, i requires 0 <= i < |s| => f(s[i]))
  }

  /** `Array.prototype.findIndex`: the first index whose element satisfies `p`, or -1. */
  function IndexWhere<T>(s: seq<T>, p: T -> bool): (r: int)
    ensures -1 <= r < |s|
    ensures r == -1 <==> forall i :: 0 <= i < |s| ==> !p(s[i])
    ensures 0 <= r ==> p(s[r]) && forall i :: 0 <= i < r ==> !p(s[i])
    decreases |s|
  {
    if s == [] then -1
    else if p(s[0]) then 0
    else
      var k := IndexWhere(s[1..], p);
      if k < 0 then -1 else k + 1
  }

  /** `s` with the element at index `i` taken out. */
  function RemoveAt<T>(s: seq<T>, i: nat): (r: seq<T>)
    requires i < |s|
    ensures |r| == |s| - 1
    ensures forall k :: 0 <= k < i ==> r[k] == s[k]
    ensures forall k :: i <= k < |r| ==> r[k] == s[k + 1]
  {
    s[..i] + s[i + 1..]
  }

  /** `s` with `x` inserted so that it sits at index `i`. */
  function InsertAt<T>(s: seq<T>, i: nat, x: T): (r: seq<T>)
    requires i <= |s|
    ensures |r| == |s| + 1 && r[i] == x
    ensures forall k :: 0 <= k < i ==> r[k] == s[k]
    ensures forall k :: i < k < |r| ==> r[k] == s[k - 1]
  {
    s[..i] + [x] + s[i..]
  }

  /** Putting an element back where it was taken out gives the original sequence. */
  lemma InsertRemoved<T>(s: seq<T>, i: nat)
    requires i < |s|
    ensures InsertAt(RemoveAt(s, i), i, s[i]) == s
  {
    var r := InsertAt(RemoveAt(s, i), i, s[i]);
    assert forall k :: 0 <= k < |s| ==> r[k] == s[k];
  }

  /** Taking out an element just inserted gives the sequence it was inserted into. */
  lemma RemoveInserted<T>(s: seq<T>, i: nat, x: T)
    requires i <= |s|
    ensures RemoveAt(InsertAt(s, i, x), i) == s
  {
    var r := RemoveAt(InsertAt(s, i, x), i);
    assert forall k :: 0 <= k < |s| ==> r[k] == s[k];
  }

  /** `r` is `s` with `s[from]` taken out and `x` put in at index `to`; every other element
      keeps its value and its order relative to the others. */
  ghost predicate Placed<T>(r: seq<T>, s: seq<T>, from: int, to: int, x: T) {
    0 <= from < |s| && 0 <= to < |r| && |r| == |s| && r[to] == x && RemoveAt(r, to) == RemoveAt(s, from)
  }

  /** The stable move (`arrayMove`): take `s[from]` out and insert it so that it ends up at
      index `to`; the elements in between shift by one place. */
  function Move<T>(s: seq<T>, from: nat, to: nat): (r: seq<T>)
    requires from < |s| && to < |s|
    ensures Placed(r, s, from, to, s[from])
  {
    var rest := RemoveAt(s, from);
    RemoveInserted(rest, to, s[from]);
    InsertAt(rest, to, s[from])
  }

  /** Where each element of `s` ends up after a move. */
  lemma MoveAt<T>(s: seq<T>, from: nat, to: nat, i: nat)
    requires from < |s| && to < |s| && i < |s|
    ensures Move(s, from, to)[i] ==
      if i == to then s[from]
      else if from < to && from <= i < to then s[i + 1]
      else if to < from && to < i <= from then s[i - 1]
      else s[i]
  {
  }

  /** Moving the element back from `to` to `from` undoes the move. */
  lemma {:induction false} MoveBack<T>(s: seq<T>, from: nat, to: nat)
    requires from < |s| && to < |s|
    ensures Move(Move(s, from, to), to, from) == s
  {
    var r := Move(s, from, to);
    assert RemoveAt(r, to) == RemoveAt(s, from) && r[to] == s[from];
    InsertRemoved(s, from);
  }

  /** A placement changes the multiset of elements only by swapping `s[from]` for `x`. */
  lemma {:induction false} PlacedMultiset<T>(r: seq<T>, s: seq<T>, from: int, to: int, x: T)
    requires Placed(r, s, from, to, x)
    ensures multiset(r) == multiset(s) - multiset{s[from]} + multiset{x}
  {
    assert s == s[..from] + [s[from]] + s[from + 1..];
    assert r == r[..to] + [r[to]] + r[to + 1..];
    calc {
      multiset(r);
      multiset(r[..to]) + multiset{x} + multiset(r[to + 1..]);
      multiset(RemoveAt(r, to)) + multiset{x};
      multiset(RemoveAt(s, from)) + multiset{x};
      multiset(s[..from]) + multiset(s[from + 1..]) + multiset{x};
      multiset(s) - multiset{s[from]} + multiset{x};
    }
  }

  /** A move permutes the sequence. */
  lemma MovePermutes<T>(s: seq<T>, from: nat, to: nat)
    requires from < |s| && to < |s|
    ensures multiset(Move(s, from, to)) == multiset(s)
  {
    PlacedMultiset(Move(s, from, to), s, from, to, s[from]);
  }

  /** Replacing `s[from]` by `x` and then moving it to `to` is a placement of `x`. */
  lemma UpdateThenMove<T>(s: seq<T>, from: nat, to: nat, x: T)
    requires from < |s| && to < |s|
    ensures Placed(Move(s[from := x], from, to), s, from, to, x)
  {
    var u := s[from := x];
    assert RemoveAt(u, from) == RemoveAt(s, from);
  }

  /** Mapping commutes with a placement. */
  lemma {:induction false} PlacedMap<T, U>(r: seq<T>, s: seq<T>, from: int, to: int, x: T, f: T -> U)
    requires Placed(r, s, from, to, x)
    ensures Placed(Map(r, f), Map(s, f), from, to, f(x))
  {
    var mr, ms := Map(r, f), Map(s, f);
    assert RemoveAt(mr, to) == Map(RemoveAt(r, to), f);
    assert RemoveAt(ms, from) == Map(RemoveAt(s, from), f);
  }

  /** Mapping a placement that keeps the image of the replaced element keeps the multiset
      of images; this is how a move keeps the multiset of ids. */
  lemma PlacedKeepsImages<T, U>(r: seq<T>, s: seq<T>, from: int, to: int, x: T, f: T -> U)
    requires Placed(r, s, from, to, x) && f(x) == f(s[from])
    ensures multiset(Map(r, f)) == multiset(Map(s, f))
  {
    PlacedMap(r, s, from, to, x, f);
    PlacedMultiset(Map(r, f), Map(s, f), from, to, f(x));
  }

  /** Filtering keeps every occurrence of a kept element and no occurrence of another. */
  lemma {:induction false} FilterMultiset<T(!new)>(s: seq<T>, keep: T -> bool, x: T)
    ensures multiset(Filter(s, keep))[x] == if keep(x) then multiset(s)[x] else 0
    decreases |s|
  {
    if s != [] {
      FilterMultiset(s[1..], keep, x);
      assert s == [s[0]] + s[1..];
    }
  }

  /** Filtering distributes over concatenation: it keeps the order of its input. */
  lemma {:induction false} FilterAppend<T(!new)>(a: seq<T>, b: seq<T>, keep: T -> bool)
    ensures Filter(a + b, keep) == Filter(a, keep) + Filter(b, keep)
    decreases |a|
  {
    if a == [] {
      assert a + b == b;
    } else {
      var ab := a + b;
      assert ab[0] == a[0] && ab[1..] == a[1..] + b;
      FilterAppend(a[1..], b, keep);
    }
  }

  /** Filtering by a condition implied by an earlier filter's condition ignores the earlier
      filter. */
  lemma {:induction false} FilterTwice<T(!new)>(s: seq<T>, first: T -> bool, second: T -> bool)
    requires forall x :: second(x) ==> first(x)
    ensures Filter(Filter(s, first), second) == Filter(s, second)
    decreases |s|
  {
    if s != [] {
      FilterTwice(s[1..], first, second);
      if first(s[0]) {
        assert ([s[0]] + Filter(s[1..], first))[1..] == Filter(s[1..], first);
      }
    }
  }

  /** A subsequence has at most the images, with multiplicity, that the sequence has. */
  lemma {:induction false} SubsequenceImages<T, U>(r: seq<T>, s: seq<T>, f: T -> U)
    requires IsSubsequence(r, s)
    ensures multiset(Map(r, f)) <= multiset(Map(s, f))
    decreases |s|
  {
    if r != [] {
      assert Map(s, f) == [f(s[0])] + Map(s[1..], f);
      if r[0] == s[0] && IsSubsequence(r[1..], s[1..]) {
        SubsequenceImages(r[1..], s[1..], f);
        assert Map(r, f) == [f(r[0])] + Map(r[1..], f);
      } else {
        SubsequenceImages(r, s[1..], f);
      }
    }
  }
}
