/**
 Lists of bags: the cases of a disjunctive form, each a multiset of leaves. Two lists of cases
 mean the same when they are permutations of each other, so results are stated on multiset(cases).
 */
module Bags {

  type Bag<T> = multiset<T>

  function AddAll<T>(a: Bag<T>, cases: seq<Bag<T>>): (r: seq<Bag<T>>)
    ensures |r| == |cases| && forall i :: 0 <= i < |r| ==> r[i] == a + cases[i]
  {
    seq(|cases|, i requires 0 <= i < |cases| => a + cases[i])
  }

  /** Every choice of one case on the left and one on the right. */
  function Cross<T>(xs: seq<Bag<T>>, ys: seq<Bag<T>>): seq<Bag<T>> {
    if xs == [] then [] else AddAll(xs[0], ys) + Cross(xs[1..], ys)
  }

  /** Equal up to the order of the cases. */
  ghost predicate Same<T>(xs: seq<Bag<T>>, ys: seq<Bag<T>>) {
    multiset(xs) == multiset(ys)
  }

  lemma AddNone<T>(xs: seq<Bag<T>>)
    ensures AddAll(multiset{}, xs) == xs
  {
    assert forall i :: 0 <= i < |xs| ==> multiset{} + xs[i] == xs[i];
  }

  lemma {:induction false} CrossUnit<T>(xs: seq<Bag<T>>)
    ensures Cross(xs, [multiset{}]) == xs
  {
    if xs != [] {
      CrossUnit(xs[1..]);
      assert xs[0] + multiset{} == xs[0];
      assert AddAll(xs[0], [multiset{}]) == [xs[0]];
    }
  }

  lemma AddAllAppend<T>(a: Bag<T>, xs: seq<Bag<T>>, ys: seq<Bag<T>>)
    ensures AddAll(a, xs + ys) == AddAll(a, xs) + AddAll(a, ys)
  {
  }

  lemma AddAllTwice<T>(a: Bag<T>, b: Bag<T>, xs: seq<Bag<T>>)
    ensures AddAll(a, AddAll(b, xs)) == AddAll(a + b, xs)
  {
    assert forall i :: 0 <= i < |xs| ==> a + (b + xs[i]) == (a + b) + xs[i];
  }

  lemma {:induction false} CrossAppendLeft<T>(xs: seq<Bag<T>>, ys: seq<Bag<T>>, zs: seq<Bag<T>>)
    ensures Cross(xs + ys, zs) == Cross(xs, zs) + Cross(ys, zs)
  {
    if xs == [] {
      assert xs + ys == ys;
    } else {
      assert (xs + ys)[1..] == xs[1..] + ys;
      CrossAppendLeft(xs[1..], ys, zs);
    }
  }

  lemma {:induction false} CrossAddAll<T>(a: Bag<T>, xs: seq<Bag<T>>, ys: seq<Bag<T>>)
    ensures Cross(AddAll(a, xs), ys) == AddAll(a, Cross(xs, ys)) == Cross(xs, AddAll(a, ys))
  {
    if xs != [] {
      CrossAddAll(a, xs[1..], ys);
      AddAllAppend(a, AddAll(xs[0], ys), Cross(xs[1..], ys));
      AddAllTwice(a, xs[0], ys);
      AddAllTwice(xs[0], a, ys);
      assert a + xs[0] == xs[0] + a;
      assert AddAll(a, xs)[1..] == AddAll(a, xs[1..]);
    }
  }

  lemma {:induction false} CrossAssoc<T>(xs: seq<Bag<T>>, ys: seq<Bag<T>>, zs: seq<Bag<T>>)
    ensures Cross(Cross(xs, ys), zs) == Cross(xs, Cross(ys, zs))
  {
    if xs != [] {
      CrossAppendLeft(AddAll(xs[0], ys), Cross(xs[1..], ys), zs);
      CrossAddAll(xs[0], ys, zs);
      CrossAssoc(xs[1..], ys, zs);
    }
  }

  lemma {:induction false} CrossAppendRight<T>(xs: seq<Bag<T>>, ys: seq<Bag<T>>, zs: seq<Bag<T>>)
    ensures Same(Cross(xs, ys + zs), Cross(xs, ys) + Cross(xs, zs))
  {
    if xs != [] {
      AddAllAppend(xs[0], ys, zs);
      CrossAppendRight(xs[1..], ys, zs);
    }
  }

  lemma {:induction false} CrossNil<T>(xs: seq<Bag<T>>)
    ensures Cross(xs, []) == []
  {
    if xs != [] {
      CrossNil(xs[1..]);
    }
  }

  /** The order of the factors does not matter. */
  lemma {:induction false} CrossSwap<T>(xs: seq<Bag<T>>, ys: seq<Bag<T>>, zs: seq<Bag<T>>)
    ensures Same(Cross(xs, Cross(ys, zs)), Cross(ys, Cross(xs, zs)))
  {
    if xs == [] {
      CrossNil(ys);
    } else {
      CrossSwap(xs[1..], ys, zs);
      CrossAppendRight(ys, AddAll(xs[0], zs), Cross(xs[1..], zs));
      CrossAddAll(xs[0], ys, zs);
    }
  }

  lemma SplitHead<X>(xs: seq<X>)
    requires xs != []
    ensures multiset(xs) == multiset{xs[0]} + multiset(xs[1..])
  {
    assert xs == [xs[0]] + xs[1..];
  }

  lemma {:induction false} CrossMember<T>(xs: seq<Bag<T>>, ys: seq<Bag<T>>, c: Bag<T>)
    ensures c in Cross(xs, ys) <==> exists a, b :: a in xs && b in ys && c == a + b
  {
    if xs != [] {
      CrossMember(xs[1..], ys, c);
      assert xs == [xs[0]] + xs[1..];
      if c in AddAll(xs[0], ys) {
        var i :| 0 <= i < |ys| && c == AddAll(xs[0], ys)[i];
        assert xs[0] in xs && ys[i] in ys;
      }
      if a, b :| a in xs && b in ys && c == a + b && a !in xs[1..] {
        var i :| 0 <= i < |ys| && ys[i] == b;
        assert AddAll(xs[0], ys)[i] == c;
      }
    }
  }
}
