/** Filtering a sequence, and strictly increasing sequences of rail keys. */
module Sequences {
  import opened RailTypes

  function Filter<T>(s: seq<T>, keep: T -> bool): seq<T> {
    if s == [] then []
    else Filter(s[..|s| - 1], keep) + (if keep(s[|s| - 1]) then [s[|s| - 1]] else [])
  }

  lemma PrefixOneMore<T>(s: seq<T>, i: nat)
    requires i < |s|
    ensures s[..i + 1] == s[..i] + [s[i]]
  {
  }

  lemma {:induction false} FilterConcat<T>(a: seq<T>, b: seq<T>, keep: T -> bool)
    ensures Filter(a + b, keep) == Filter(a, keep) + Filter(b, keep)
  {
    if b == [] {
      assert a + b == a;
    } else {
      assert (a + b)[..|a + b| - 1] == a + b[..|b| - 1];
      FilterConcat(a, b[..|b| - 1], keep);
    }
  }

  lemma {:induction false} FilterAll<T>(s: seq<T>, keep: T -> bool)
    requires forall x <- s :: keep(x)
    ensures Filter(s, keep) == s
  {
    if s != [] {
      assert s == s[..|s| - 1] + [s[|s| - 1]];
      FilterAll(s[..|s| - 1], keep);
    }
  }

  lemma {:induction false} FilterNone<T>(s: seq<T>, keep: T -> bool)
    requires forall x <- s :: !keep(x)
    ensures Filter(s, keep) == []
  {
    if s != [] {
      FilterNone(s[..|s| - 1], keep);
    }
  }

  lemma {:induction false} FilterMembers<T>(s: seq<T>, keep: T -> bool)
    ensures forall x :: x in Filter(s, keep) <==> x in s && keep(x)
  {
    if s != [] {
      FilterMembers(s[..|s| - 1], keep);
      assert s == s[..|s| - 1] + [s[|s| - 1]];
    }
  }

  lemma {:induction false} FilterCount<T>(s: seq<T>, keep: T -> bool, x: T)
    requires keep(x)
    ensures multiset(Filter(s, keep))[x] == multiset(s)[x]
  {
    if s != [] {
      var front, last := s[..|s| - 1], s[|s| - 1];
      assert s == front + [last];
      FilterCount(front, keep, x);
    }
  }

  lemma {:induction false} FilterTwice<T>(s: seq<T>, keep: T -> bool, more: T -> bool)
    requires forall x <- s :: more(x) ==> keep(x)
    ensures Filter(Filter(s, keep), more) == Filter(s, more)
  {
    if s != [] {
      var front, last := s[..|s| - 1], s[|s| - 1];
      assert s == front + [last];
      FilterTwice(front, keep, more);
      FilterConcat(Filter(front, keep), if keep(last) then [last] else [], more);
    }
  }

  lemma {:induction false} FilterAgrees<T>(s: seq<T>, p: T -> bool, q: T -> bool)
    requires forall x <- s :: p(x) <==> q(x)
    ensures Filter(s, p) == Filter(s, q)
  {
    if s != [] {
      FilterAgrees(s[..|s| - 1], p, q);
    }
  }

  predicate Distinct<T(==)>(s: seq<T>) {
    forall i, j :: 0 <= i < j < |s| ==> s[i] != s[j]
  }

  /** The order absent keys are handled in: by exchange, then coin, then chain. */
  predicate KeyLess(a: Key, b: Key) {
    if a.exchangeID != b.exchangeID then a.exchangeID < b.exchangeID
    else if a.coinID != b.coinID then a.coinID < b.coinID
    else a.chainID < b.chainID
  }

  /** The order told in one formula, which `KeyLess` decides. */
  predicate Precedes(a: Key, b: Key)
    ensures Precedes(a, b) <==> KeyLess(a, b)
  {
    || a.exchangeID < b.exchangeID
    || (a.exchangeID == b.exchangeID && a.coinID < b.coinID)
    || (a.exchangeID == b.exchangeID && a.coinID == b.coinID && a.chainID < b.chainID)
  }

  predicate Increasing(ks: seq<Key>) {
    forall i, j :: 0 <= i < j < |ks| ==> KeyLess(ks[i], ks[j])
  }

  ghost predicate IsLeast(s: set<Key>, least: Key) {
    least in s && forall k <- s :: k == least || KeyLess(least, k)
  }

  lemma {:induction false} LeastExists(s: set<Key>)
    requires s != {}
    ensures exists least :: IsLeast(s, least)
    decreases s
  {
    var k :| k in s;
    if s == {k} {
      assert IsLeast(s, k);
    } else {
      LeastExists(s - {k});
      var other :| IsLeast(s - {k}, other);
      var least := if KeyLess(other, k) then other else k;
      forall j | j in s ensures j == least || KeyLess(least, j) {
        assert j == k || j in s - {k};
      }
      assert IsLeast(s, least);
    }
  }

  /** The keys of a set in increasing order. */
  ghost function SortedKeys(s: set<Key>): (ks: seq<Key>)
    ensures Increasing(ks)
    ensures forall k :: k in ks <==> k in s
    decreases s
  {
    if s == {} then []
    else
      var least := Least(s);
      [least] + SortedKeys(s - {least})
  }

  ghost function Least(s: set<Key>): (least: Key)
    requires s != {}
    ensures IsLeast(s, least)
  {
    LeastExists(s);
    var least :| IsLeast(s, least);
    least
  }

  /** There is only one increasing sequence of given keys: the order of absent keys does not depend on
      the order a map is walked in. */
  lemma {:induction false} IncreasingIsUnique(a: seq<Key>, b: seq<Key>)
    requires Increasing(a) && Increasing(b)
    requires forall k :: k in a <==> k in b
    ensures a == b
  {
    assert a != [] ==> a[0] in b;
    assert b != [] ==> b[0] in a;
    if a != [] {
      assert a[0] == b[0];
      forall k ensures k in a[1..] <==> k in b[1..] {
        assert k in a[1..] <==> (k in a && k != a[0]) by { TailMembers(a, k); }
        assert k in b[1..] <==> (k in b && k != b[0]) by { TailMembers(b, k); }
      }
      IncreasingIsUnique(a[1..], b[1..]);
      assert a == [a[0]] + a[1..] && b == [b[0]] + b[1..];
    }
  }

  lemma TailMembers(a: seq<Key>, k: Key)
    requires Increasing(a) && a != []
    ensures k in a[1..] <==> (k in a && k != a[0])
  {
    if k in a[1..] {
      var i :| 0 <= i < |a| - 1 && a[1..][i] == k;
      assert a[i + 1] == k && KeyLess(a[0], a[i + 1]);
    }
    if k in a && k != a[0] {
      var i :| 0 <= i < |a| && a[i] == k;
      assert a[1..][i - 1] == k;
    }
  }
}
