/**
 * `Array.prototype.sort` with a comparator, as the dashboards use it. The
 * ECMAScript sort is stable, so it is modelled by insertion sort: `le(a, b)`
 * stands for `compare(a, b) <= 0`. Both dashboards sort a fresh array (a
 * spread copy, or a bucket built during rendering), so a value model loses
 * nothing about the state they read from.
 */
module Sorting {

  /** `le` is total and transitive on the elements of `u`. */
  ghost predicate PreorderOn<T(!new)>(le: (T, T) -> bool, u: seq<T>) {
    && (forall a, b :: a in u && b in u ==> le(a, b) || le(b, a))
    && (forall a, b, c :: a in u && b in u && c in u && le(a, b) && le(b, c) ==> le(a, c))
  }

  /** Every element is `le` every later element. */
  ghost predicate SortedBy<T>(s: seq<T>, le: (T, T) -> bool) {
    forall i, j :: 0 <= i < j < |s| ==> le(s[i], s[j])
  }

  /** `a` and `b` compare equal: the comparator returns 0 both ways. */
  predicate Equivalent<T>(le: (T, T) -> bool, a: T, b: T) {
    le(a, b) && le(b, a)
  }

  /** The elements of `s` that compare equal to `p`, in their order in `s`. */
  function Peers<T>(s: seq<T>, p: T, le: (T, T) -> bool): seq<T> {
    if s == [] then []
    else (if Equivalent(le, s[0], p) then [s[0]] else []) + Peers(s[1..], p, le)
  }

  /** Put `x` in front of the first element it is `le`. */
  function Insert<T>(x: T, s: seq<T>, le: (T, T) -> bool): (r: seq<T>)
    ensures multiset(r) == multiset(s) + multiset{x}
    ensures |r| == |s| + 1
  {
    if s == [] || le(x, s[0]) then [x] + s
    else
      assert s == [s[0]] + s[1..];
      [s[0]] + Insert(x, s[1..], le)
  }

  /** The stable sort of `s` under `le`. */
  function SortBy<T>(s: seq<T>, le: (T, T) -> bool): (r: seq<T>)
    ensures multiset(r) == multiset(s)
    ensures |r| == |s|
  {
    if s == [] then []
    else
      assert s == [s[0]] + s[1..];
      Insert(s[0], SortBy(s[1..], le), le)
  }

  lemma {:induction false} InsertSorted<T(!new)>(x: T, s: seq<T>, le: (T, T) -> bool, u: seq<T>)
    requires PreorderOn(le, u)
    requires x in u && forall y :: y in s ==> y in u
    requires SortedBy(s, le)
    ensures SortedBy(Insert(x, s, le), le)
  {
    if s == [] || le(x, s[0]) {
      forall y | y in s ensures le(x, y) {
        var j :| 0 <= j < |s| && s[j] == y;
        if j > 0 {
          assert le(s[0], s[j]) && s[0] in u;
        }
      }
      ConsSorted(x, s, le);
    } else {
      assert s[0] in u && le(s[0], x);
      assert s == [s[0]] + s[1..];
      forall y | y in s[1..] ensures y in u && le(s[0], y) {
        var j :| 0 <= j < |s[1..]| && s[1..][j] == y;
        assert s[j + 1] == y;
      }
      InsertSorted(x, s[1..], le, u);
      InsertBounded(x, s[1..], le, s[0]);
      ConsSorted(s[0], Insert(x, s[1..], le), le);
    }
  }

  /** An element `le` every element of a sorted sequence can go in front of it. */
  lemma ConsSorted<T>(a: T, t: seq<T>, le: (T, T) -> bool)
    requires SortedBy(t, le)
    requires forall y :: y in t ==> le(a, y)
    ensures SortedBy([a] + t, le)
  {
    var r := [a] + t;
    forall i, j | 0 <= i < j < |r| ensures le(r[i], r[j]) {
      assert r[j] == t[j - 1];
      if i > 0 {
        assert r[i] == t[i - 1];
      }
    }
  }

  /** A lower bound of `x` and of every element of `s` bounds every element of the insertion. */
  lemma InsertBounded<T>(x: T, s: seq<T>, le: (T, T) -> bool, a: T)
    requires le(a, x) && forall y :: y in s ==> le(a, y)
    ensures forall y :: y in Insert(x, s, le) ==> le(a, y)
  {
    var t := Insert(x, s, le);
    forall y | y in t ensures le(a, y) {
      assert y in multiset(t);
      assert y in multiset(s) || y == x;
    }
  }

  /** The sort is ordered whenever the comparator is a consistent order on the input. */
  lemma {:induction false} SortBySorted<T(!new)>(s: seq<T>, le: (T, T) -> bool, u: seq<T>)
    requires PreorderOn(le, u)
    requires forall y :: y in s ==> y in u
    ensures SortedBy(SortBy(s, le), le)
  {
    if s != [] {
      SortBySorted(s[1..], le, u);
      var t := SortBy(s[1..], le);
      forall y | y in t ensures y in u {
        assert y in multiset(t);
        assert y in s[1..];
      }
      InsertSorted(s[0], t, le, u);
    }
  }

  lemma {:induction false} InsertPeers<T(!new)>(x: T, s: seq<T>, p: T, le: (T, T) -> bool, u: seq<T>)
    requires PreorderOn(le, u)
    requires x in u && p in u && forall y :: y in s ==> y in u
    ensures Peers(Insert(x, s, le), p, le) == (if Equivalent(le, x, p) then [x] else []) + Peers(s, p, le)
  {
    if s == [] || le(x, s[0]) {
      PeersCons(x, s, p, le);
    } else {
      assert s == [s[0]] + s[1..];
      assert forall y :: y in s[1..] ==> y in s;
      InsertPeers(x, s[1..], p, le, u);
      PeersSwap(x, s[0], Insert(x, s[1..], le), s[1..], p, le, u);
    }
  }

  /** Moving `x` behind an `a` it does not precede keeps their peers in order: they cannot both be peers of `p`. */
  lemma PeersSwap<T(!new)>(x: T, a: T, t: seq<T>, rest: seq<T>, p: T, le: (T, T) -> bool, u: seq<T>)
    requires PreorderOn(le, u)
    requires x in u && a in u && p in u
    requires !le(x, a)
    requires Peers(t, p, le) == (if Equivalent(le, x, p) then [x] else []) + Peers(rest, p, le)
    ensures Peers([a] + t, p, le) == (if Equivalent(le, x, p) then [x] else []) + Peers([a] + rest, p, le)
  {
    var hx := if Equivalent(le, x, p) then [x] else [];
    var ha := if Equivalent(le, a, p) then [a] else [];
    PeersCons(a, t, p, le);
    PeersCons(a, rest, p, le);
    assert !(Equivalent(le, x, p) && Equivalent(le, a, p));
    assert ha + (hx + Peers(rest, p, le)) == hx + (ha + Peers(rest, p, le));
  }

  lemma PeersCons<T>(a: T, t: seq<T>, p: T, le: (T, T) -> bool)
    ensures Peers([a] + t, p, le) == (if Equivalent(le, a, p) then [a] else []) + Peers(t, p, le)
  {
    assert ([a] + t)[1..] == t;
  }

  /**
   * Stability: the elements that compare equal to any `p` come out in the
   * order they went in.
   */
  lemma {:induction false} SortByStable<T(!new)>(s: seq<T>, p: T, le: (T, T) -> bool, u: seq<T>)
    requires PreorderOn(le, u)
    requires p in u && forall y :: y in s ==> y in u
    ensures Peers(SortBy(s, le), p, le) == Peers(s, p, le)
  {
    if s != [] {
      SortByStable(s[1..], p, le, u);
      var t := SortBy(s[1..], le);
      forall y | y in t ensures y in u {
        assert y in multiset(t);
        assert y in s[1..];
      }
      InsertPeers(s[0], t, p, le, u);
    }
  }
}
