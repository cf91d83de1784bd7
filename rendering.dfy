/** A map rendered entry by entry, in the order a `range` over it visits
    the keys: the order is not fixed, the multiset of rendered entries is. */
module Rendering {
  import opened Common

  /** `f(k, m[k])` for each key `k` of `order`, in that order. */
  function Rendered(f: (string, string) -> string, m: map<string, string>, order: seq<string>): (r: seq<string>)
    requires forall i :: 0 <= i < |order| ==> order[i] in m
    ensures |r| == |order|
  {
    if order == [] then []
    else
      var last := order[|order| - 1];
      Rendered(f, m, order[..|order| - 1]) + [f(last, m[last])]
  }

  /** Renderings distribute over a split of the visiting order. */
  lemma {:induction false} RenderedAppend(f: (string, string) -> string, m: map<string, string>, p: seq<string>, q: seq<string>)
    requires forall i :: 0 <= i < |p| ==> p[i] in m
    requires forall i :: 0 <= i < |q| ==> q[i] in m
    ensures Rendered(f, m, p + q) == Rendered(f, m, p) + Rendered(f, m, q)
    decreases |q|
  {
    if q != [] {
      var q' := q[..|q| - 1];
      assert (p + q)[..|p + q| - 1] == p + q';
      RenderedAppend(f, m, p, q');
    } else {
      assert p + q == p;
    }
  }

  /** Taking one key out of the visiting order takes its rendering out. */
  lemma RenderedRemove(f: (string, string) -> string, m: map<string, string>, o: seq<string>, j: nat)
    requires forall i :: 0 <= i < |o| ==> o[i] in m
    requires j < |o|
    ensures multiset(Rendered(f, m, o)) ==
            multiset(Rendered(f, m, o[..j] + o[j + 1..])) + multiset{f(o[j], m[o[j]])}
  {
    assert o == o[..j] + [o[j]] + o[j + 1..];
    RenderedAppend(f, m, o[..j] + [o[j]], o[j + 1..]);
    RenderedAppend(f, m, o[..j], [o[j]]);
    RenderedAppend(f, m, o[..j], o[j + 1..]);
    assert Rendered(f, m, [o[j]]) == [f(o[j], m[o[j]])] by {
      assert [o[j]][..0] == [];
    }
  }

  /** Removing one occurrence from equal multisets leaves equal ones. */
  lemma RemoveOccurrence(o1: seq<string>, o2: seq<string>, j: nat)
    requires |o1| > 0 && j < |o2| && o2[j] == o1[|o1| - 1]
    requires multiset(o1) == multiset(o2)
    ensures multiset(o1[..|o1| - 1]) == multiset(o2[..j] + o2[j + 1..])
  {
    var x := o1[|o1| - 1];
    assert o1 == o1[..|o1| - 1] + [x];
    assert o2 == o2[..j] + [x] + o2[j + 1..];
    assert multiset(o1[..|o1| - 1]) == multiset(o1) - multiset{x};
    assert multiset(o2[..j] + o2[j + 1..]) == multiset(o2) - multiset{x};
  }

  /** Orders that are permutations of each other render the same
      entries, possibly in another order. */
  lemma {:induction false} RenderedPermute(f: (string, string) -> string, m: map<string, string>, o1: seq<string>, o2: seq<string>)
    requires forall i :: 0 <= i < |o1| ==> o1[i] in m
    requires forall i :: 0 <= i < |o2| ==> o2[i] in m
    requires multiset(o1) == multiset(o2)
    ensures multiset(Rendered(f, m, o1)) == multiset(Rendered(f, m, o2))
    decreases |o1|
  {
    if o1 == [] {
      assert |o2| == |multiset(o2)| == 0;
    } else {
      var x := o1[|o1| - 1];
      assert x in multiset(o2);
      var j :| 0 <= j < |o2| && o2[j] == x;
      RemoveOccurrence(o1, o2, j);
      RenderedPermute(f, m, o1[..|o1| - 1], o2[..j] + o2[j + 1..]);
      RenderedRemove(f, m, o2, j);
    }
  }

  /** Two duplicate-free orders of the same keys are permutations. */
  lemma DistinctKeysMultiset<V>(o1: seq<string>, o2: seq<string>, m: map<string, V>)
    requires IsKeyOrder(o1, m) && IsKeyOrder(o2, m)
    ensures multiset(o1) == multiset(o2)
  {
    forall k
      ensures multiset(o1)[k] == multiset(o2)[k]
    {
      DistinctCount(o1, k);
      DistinctCount(o2, k);
    }
  }

  /** An element of a duplicate-free sequence occurs once. */
  lemma {:induction false} DistinctCount(s: seq<string>, k: string)
    requires forall i, j :: 0 <= i < j < |s| ==> s[i] != s[j]
    ensures multiset(s)[k] == if k in s then 1 else 0
  {
    if s != [] {
      assert s == [s[0]] + s[1..];
      DistinctCount(s[1..], k);
      if s[0] == k {
        assert k !in s[1..];
      }
    }
  }

  /** Two orders of the same keys render the same entries, possibly in
      another order. */
  lemma RenderedOrderFree(f: (string, string) -> string, m: map<string, string>, o1: seq<string>, o2: seq<string>)
    requires IsKeyOrder(o1, m) && IsKeyOrder(o2, m)
    ensures multiset(Rendered(f, m, o1)) == multiset(Rendered(f, m, o2))
  {
    DistinctKeysMultiset(o1, o2, m);
    RenderedPermute(f, m, o1, o2);
  }

  /** Every key's rendering is among the rendered entries. */
  lemma {:induction false} RenderedHasAll(f: (string, string) -> string, m: map<string, string>, order: seq<string>)
    requires forall i :: 0 <= i < |order| ==> order[i] in m
    ensures forall i :: 0 <= i < |order| ==> Rendered(f, m, order)[i] == f(order[i], m[order[i]])
  {
    if order != [] {
      var init := order[..|order| - 1];
      RenderedHasAll(f, m, init);
    }
  }

  /** A key order lists as many keys as the map has. */
  lemma KeyCount<V>(order: seq<string>, m: map<string, V>)
    requires IsKeyOrder(order, m)
    ensures |order| == |m|
  {
    DistinctSize(order);
    assert (set k | k in order) == m.Keys;
  }

  /** The elements of a duplicate-free sequence number its length. */
  lemma {:induction false} DistinctSize(s: seq<string>)
    requires forall i, j :: 0 <= i < j < |s| ==> s[i] != s[j]
    ensures |set k | k in s| == |s|
  {
    if s != [] {
      var init := s[..|s| - 1];
      DistinctSize(init);
      assert (set k | k in s) == (set k | k in init) + {s[|s| - 1]};
      assert s[|s| - 1] !in init;
    }
  }

  /** Rendering one more key of the order appends its entry. */
  lemma RenderedSnoc(f: (string, string) -> string, m: map<string, string>, order: seq<string>, i: nat)
    requires forall j :: 0 <= j < |order| ==> order[j] in m
    requires i < |order|
    ensures Rendered(f, m, order[..i + 1]) == Rendered(f, m, order[..i]) + [f(order[i], m[order[i]])]
  {
    assert order[..i + 1][..i] == order[..i];
  }
}
