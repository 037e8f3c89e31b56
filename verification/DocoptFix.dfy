/**
 `fix` of sw/ab_cal_scripts/lib/docopt.py on objects: make equal leaves one object, then give the
 leaves that can occur more than once an accumulating value.
 */
module DocoptFix {
  import opened Bags
  import opened DocoptPattern
  import opened DocoptSplit
  import opened Wrappers
  import opened DocoptTransform

  // ----- Objects -----

  /** A LeafPattern. Two leaves are equal when their contents are. */
  class LeafObject {
    var leaf: Leaf

    constructor (leaf: Leaf)
      ensures this.leaf == leaf
    {
      this.leaf := leaf;
    }
  }

  datatype Node = LeafNode(leaf: LeafObject) | BranchNode(branch: BranchObject)

  ghost function NodeRepr(n: Node): set<BranchObject> {
    match n
    case LeafNode(_) => {}
    case BranchNode(b) => b.repr
  }

  ghost predicate NodeValid(n: Node)
    reads NodeRepr(n)
    decreases NodeRepr(n), 1
  {
    n.BranchNode? ==> n.branch.Valid()
  }

  ghost function NodeTree(n: Node): Pattern<LeafObject>
    requires NodeValid(n)
    reads NodeRepr(n)
    decreases NodeRepr(n), 1
  {
    match n
    case LeafNode(l) => Tip(l)
    case BranchNode(b) => b.Tree()
  }

  /** A BranchPattern. The branches below it form a tree; leaves may be shared. */
  class BranchObject {
    const kind: Kind
    var children: seq<Node>
    ghost const repr: set<BranchObject>

    constructor (kind: Kind, children: seq<Node>)
      requires forall i :: 0 <= i < |children| ==> NodeValid(children[i])
      requires forall i, j :: 0 <= i < j < |children| ==> NodeRepr(children[i]) !! NodeRepr(children[j])
      ensures Valid() && this.kind == kind && this.children == children
      ensures repr == {this} + set i, b | 0 <= i < |children| && b in NodeRepr(children[i]) :: b
    {
      this.kind := kind;
      this.children := children;
      repr := {this} + set i, b | 0 <= i < |children| && b in NodeRepr(children[i]) :: b;
    }

    ghost predicate Valid()
      reads repr
      decreases repr, 0
    {
      && this in repr
      && (forall i :: 0 <= i < |children| ==> NodeRepr(children[i]) <= repr - {this} && NodeValid(children[i]))
      && (forall i, j :: 0 <= i < j < |children| ==> NodeRepr(children[i]) !! NodeRepr(children[j]))
    }

    /** The tree below this object, with references to leaf objects at its tips. */
    ghost function Tree(): Pattern<LeafObject>
      requires Valid()
      reads repr
      decreases repr, 0
    {
      Branch(kind, seq(|children|, i requires 0 <= i < |children| && Valid() reads repr => NodeTree(children[i])))
    }

    /** Replace every leaf below by the first leaf of uniq equal to it. */
    method FixIdentities(uniq: seq<LeafObject>, ghost canon: map<LeafObject, LeafObject>)
      requires Valid() && AllFound(uniq, Flat(Tree()), canon)
      modifies repr
      ensures Valid() && Tree() == Renamed(canon, old(Tree()))
      decreases repr, 1
    {
      ghost var before := Tree().children;
      ghost var flat := Flat(Tree());
      FlatChildren(Tree());
      for i := 0 to |children|
        invariant Valid() && |children| == |before| && AllFound(uniq, flat, canon)
        invariant forall j :: 0 <= j < i ==> NodeTree(children[j]) == Renamed(canon, before[j])
        invariant forall j :: i <= j < |before| ==> NodeTree(children[j]) == before[j]
      {
        assert forall l | l in Flat(before[i]) :: l in flat;
        FixChild(i, uniq, canon);
      }
    }

    /** The tree as `flat` and `transform` read it. */
    method Snapshot() returns (p: Pattern<LeafObject>)
      requires Valid()
      ensures p == Tree()
      decreases repr
    {
      var ps: seq<Pattern<LeafObject>> := [];
      for i := 0 to |children|
        invariant |ps| == i && forall j :: 0 <= j < i ==> ps[j] == NodeTree(children[j])
      {
        match children[i] {
          case LeafNode(l) => ps := ps + [Tip(l)];
          case BranchNode(b) =>
            var q := b.Snapshot();
            ps := ps + [q];
        }
      }
      p := Branch(kind, ps);
    }

    /** One turn of the loop. */
    method FixChild(i: nat, uniq: seq<LeafObject>, ghost canon: map<LeafObject, LeafObject>)
      requires Valid() && i < |children| && AllFound(uniq, Flat(NodeTree(children[i])), canon)
      modifies repr
      ensures Valid() && |children| == |old(children)|
      ensures NodeTree(children[i]) == Renamed(canon, old(NodeTree(children[i])))
      ensures forall j :: 0 <= j < |children| && j != i ==> NodeTree(children[j]) == old(NodeTree(children[j]))
      decreases repr, 0
    {
      match children[i] {
        case LeafNode(l) =>
          assert l in Flat(NodeTree(children[i]));
          var k := IndexOf(uniq, l);
          children := children[i := LeafNode(uniq[k])];
        case BranchNode(b) =>
          b.FixIdentities(uniq, canon);
      }
    }
  }

  /** The tree with its leaves replaced according to a map. */
  function Renamed<L(==)>(m: map<L, L>, p: Pattern<L>): Pattern<L>
    decreases p
  {
    match p
    case Tip(l) => Tip(if l in m then m[l] else l)
    case Branch(k, ps) => Branch(k, seq(|ps|, i requires 0 <= i < |ps| => Renamed(m, ps[i])))
  }

  /** uniq[k] is the first leaf equal to o. */
  ghost predicate IsFirst(uniq: seq<LeafObject>, k: nat, o: LeafObject)
    reads uniq, o
  {
    k < |uniq| && uniq[k].leaf == o.leaf && forall j :: 0 <= j < k ==> uniq[j].leaf != o.leaf
  }

  /** uniq has a leaf equal to o, and the first one is canon[o]. */
  ghost predicate Finds(uniq: seq<LeafObject>, o: LeafObject, canon: map<LeafObject, LeafObject>)
    reads uniq, o
  {
    o in canon && exists k :: 0 <= k < |uniq| && uniq[k] == canon[o] && IsFirst(uniq, k, o)
  }

  ghost predicate AllFound(uniq: seq<LeafObject>, flat: seq<LeafObject>, canon: map<LeafObject, LeafObject>)
    reads uniq, flat
  {
    forall o | o in flat :: Finds(uniq, o, canon)
  }

  /** list.index, by equality of contents. */
  method IndexOf(uniq: seq<LeafObject>, o: LeafObject) returns (k: nat)
    requires exists i :: 0 <= i < |uniq| && uniq[i].leaf == o.leaf
    ensures IsFirst(uniq, k, o)
  {
    k := 0;
    while uniq[k].leaf != o.leaf
      invariant k < |uniq| && forall j :: 0 <= j < k ==> uniq[j].leaf != o.leaf
      decreases |uniq| - k
    {
      k := k + 1;
    }
  }

  // ----- list(set(flat)) -----

  ghost predicate HasFirst(uniq: seq<LeafObject>, o: LeafObject)
    reads uniq, o
  {
    exists k :: IsFirst(uniq, k, o)
  }

  /** One leaf for each content, whatever the order. */
  method Distinct(flat: seq<LeafObject>) returns (uniq: seq<LeafObject>)
    ensures forall u | u in uniq :: u in flat
    ensures forall o | o in flat :: HasFirst(uniq, o)
    ensures forall i, j :: 0 <= i < j < |uniq| ==> uniq[i].leaf != uniq[j].leaf
  {
    uniq := [];
    for n := 0 to |flat|
      invariant forall u | u in uniq :: u in flat
      invariant forall i :: 0 <= i < n ==> HasFirst(uniq, flat[i])
      invariant forall i, j :: 0 <= i < j < |uniq| ==> uniq[i].leaf != uniq[j].leaf
    {
      var before := uniq;
      var k := 0;
      while k < |uniq| && uniq[k].leaf != flat[n].leaf
        invariant k <= |uniq| && forall j :: 0 <= j < k ==> uniq[j].leaf != flat[n].leaf
      {
        k := k + 1;
      }
      if k == |uniq| {
        uniq := uniq + [flat[n]];
      }
      assert IsFirst(uniq, k, flat[n]);
      forall i | 0 <= i < n ensures HasFirst(uniq, flat[i]) {
        assert HasFirst(before, flat[i]);
        var k' :| IsFirst(before, k', flat[i]);
        assert IsFirst(uniq, k', flat[i]);
      }
    }
  }

  // ----- Accumulating values -----

  predicate TakesValue(l: Leaf) {
    l.Argument? || (l.Option? && l.argcount != 0)
  }

  /** A leaf that takes a value holds None, a string or a list. */
  predicate Typed(l: Leaf) {
    TakesValue(l) ==> l.value.Null? || l.value.Str? || l.value.List?
  }

  /** e.value = v */
  function WithValue(l: Leaf, v: Value): (r: Leaf)
    ensures r.value == v && r.Name() == l.Name() && TakesValue(r) == TakesValue(l)
  {
    match l
    case Argument(n, _) => Argument(n, v)
    case Command(n, _) => Command(n, v)
    case Option(short, long, c, _) => Option(short, long, c, v)
  }

  /** Nothing else is lost. */
  lemma WithValueKeeps(l: Leaf, v: Value)
    ensures WithValue(WithValue(l, v), l.value) == l
  {
  }

  /** The list that a value becomes. */
  function Words(v: Value): seq<string> {
    match v
    case Str(s) => Split(s)
    case List(items) => items
    case _ => []
  }

  /** A list for a leaf that takes values, zero for a command or a flag. */
  function Accumulating(l: Leaf): (r: Leaf)
    requires Typed(l)
    ensures Typed(r) && r == WithValue(l, r.value)
    ensures if TakesValue(l) then r.value.List? else r.value == Int(0)
    ensures if l.Command? || (l.Option? && l.argcount == 0) then r.value == Int(0)
            else match l.value
              case Null => r.value == List([])
              case Str(s) => r.value == List(Split(s))
              case _ => r == l
  {
    WithValue(l, AccumulatingValue(l))
  }

  function AccumulatingValue(l: Leaf): Value {
    if TakesValue(l) then List(Words(l.value)) else Int(0)
  }

  // ----- fix_repeating_arguments -----

  /** case.count(o), by equality of contents. */
  function Count(leaves: seq<LeafObject>, o: LeafObject): nat
    reads leaves, o
  {
    if leaves == [] then 0 else (if leaves[0].leaf == o.leaf then 1 else 0) + Count(leaves[1..], o)
  }

  lemma {:induction false} CountAtLeast(leaves: seq<LeafObject>, o: LeafObject)
    ensures multiset(leaves)[o] <= Count(leaves, o)
    ensures Count(leaves, o) == multiset(leaves)[o] || exists x :: x in leaves && x != o && x.leaf == o.leaf
    decreases |leaves|
  {
    if leaves != [] {
      CountAtLeast(leaves[1..], o);
      SplitHead(leaves);
    }
  }

  method Repeated(leaves: seq<LeafObject>) returns (es: seq<LeafObject>)
    ensures forall o :: o in es <==> o in leaves && Count(leaves, o) > 1
  {
    es := [];
    for i := 0 to |leaves|
      invariant forall o :: o in es <==> o in leaves[..i] && Count(leaves, o) > 1
    {
      assert leaves[..i + 1] == leaves[..i] + [leaves[i]];
      if Count(leaves, leaves[i]) > 1 {
        es := es + [leaves[i]];
      }
    }
    assert leaves[..|leaves|] == leaves;
  }

  /** The content of a leaf, once it is known whether some case repeats it. */
  function Target(l: Leaf, repeated: bool): Leaf
    requires Typed(l)
  {
    if repeated then Accumulating(l) else l
  }

  /** Every leaf holds its target, given the initial contents and the leaves repeated so far. */
  ghost predicate OnTarget(flat: set<LeafObject>, init: map<LeafObject, Leaf>, hit: set<LeafObject>)
    reads flat
  {
    forall o | o in flat :: o in init && Typed(init[o]) && o.leaf == Target(init[o], o in hit)
  }

  /** Different leaves have different initial contents. */
  ghost predicate Injective(init: map<LeafObject, Leaf>) {
    forall x, y | x in init && y in init && init[x] == init[y] :: x == y
  }

  method AccumulateAll(es: seq<LeafObject>, ghost flat: set<LeafObject>, ghost start: map<LeafObject, Leaf>)
    requires forall o | o in flat :: o in start && o.leaf == start[o] && Typed(start[o])
    requires forall e | e in es :: e in flat
    modifies flat
    ensures forall o | o in flat :: o.leaf == if o in es then Accumulating(start[o]) else start[o]
  {
    for k := 0 to |es|
      invariant forall o | o in flat :: o.leaf == if o in es[..k] then Accumulating(start[o]) else start[o]
    {
      assert es[..k + 1] == es[..k] + [es[k]];
      es[k].leaf := Accumulating(es[k].leaf);
    }
    assert es[..|es|] == es;
  }

  /** A leaf that only looks repeated, because another one accumulates to the same content, already
      accumulates: giving it an accumulating value again changes nothing. */
  lemma OnlyLooksRepeated(x: Leaf, y: Leaf, xHit: bool, yHit: bool)
    requires Typed(x) && Typed(y) && x != y && Target(x, xHit) == Target(y, yHit)
    ensures Accumulating(Target(x, xHit)) == Target(x, xHit)
  {
  }

  /** One case. */
  method FixCase(leaves: seq<LeafObject>, ghost flat: set<LeafObject>, ghost init: map<LeafObject, Leaf>,
                 ghost hit: set<LeafObject>)
    returns (ghost hit': set<LeafObject>)
    requires OnTarget(flat, init, hit) && Injective(init) && forall o | o in leaves :: o in flat
    modifies flat
    ensures OnTarget(flat, init, hit')
    ensures forall o | o in flat :: o in hit' <==> o in hit || multiset(leaves)[o] > 1
  {
    var es := Repeated(leaves);
    ghost var start := map o | o in flat :: o.leaf;
    ghost var twice := set o | o in flat && multiset(leaves)[o] > 1;
    hit' := hit + twice;
    forall o | o in flat ensures
      (if o in es then Accumulating(start[o]) else start[o]) == Target(init[o], o in hit')
    {
      CountAtLeast(leaves, o);
      if o in es && o !in twice {
        var x :| x in leaves && x != o && x.leaf == o.leaf;
        OnlyLooksRepeated(init[o], init[x], o in hit, x in hit);
      }
    }
    AccumulateAll(es, flat, start);
  }

  // ----- fix -----

  /** o occurs more than once in some case of the expansion of the tree. */
  ghost predicate Repeats(tree: Pattern<LeafObject>, o: LeafObject) {
    exists c :: c in Expand(tree) && c[o] > 1
  }

  /** The leaves of the cases are leaves of the tree. */
  lemma {:induction false} ExpandWithinFlat<L>(p: Pattern<L>, c: Bag<L>, l: L)
    requires c in Expand(p) && l in c
    ensures l in Flat(p)
    decreases p, 0
  {
    match p
    case Tip(_) =>
    case Branch(Either, ps) => EitherWithinFlat(ps, c, l);
    case Branch(OneOrMore, ps) =>
      CrossMember(ExpandAll(ps), ExpandAll(ps), c);
      var a, b :| a in ExpandAll(ps) && b in ExpandAll(ps) && c == a + b;
      AllWithinFlat(ps, if l in a then a else b, l);
    case Branch(_, ps) => AllWithinFlat(ps, c, l);
  }

  lemma {:induction false} AllWithinFlat<L>(ps: seq<Pattern<L>>, c: Bag<L>, l: L)
    requires c in ExpandAll(ps) && l in c
    ensures l in FlatAll(ps)
    decreases ps, 1
  {
    if ps != [] {
      CrossMember(Expand(ps[0]), ExpandAll(ps[1..]), c);
      var a, b :| a in Expand(ps[0]) && b in ExpandAll(ps[1..]) && c == a + b;
      if l in a {
        ExpandWithinFlat(ps[0], a, l);
      } else {
        AllWithinFlat(ps[1..], b, l);
      }
    }
  }

  lemma {:induction false} EitherWithinFlat<L>(ps: seq<Pattern<L>>, c: Bag<L>, l: L)
    requires c in ExpandEither(ps) && l in c
    ensures l in FlatAll(ps)
    decreases ps, 1
  {
    if c in Expand(ps[0]) {
      ExpandWithinFlat(ps[0], c, l);
    } else {
      EitherWithinFlat(ps[1..], c, l);
    }
  }

  /** Some of the first n cases repeats o. */
  ghost predicate RepeatedBy(cases: seq<seq<LeafObject>>, n: nat, o: LeafObject)
    requires n <= |cases|
  {
    exists i :: 0 <= i < n && multiset(cases[i])[o] > 1
  }

  lemma RepeatedByNext(cases: seq<seq<LeafObject>>, n: nat, o: LeafObject)
    requires n < |cases|
    ensures RepeatedBy(cases, n + 1, o) <==> RepeatedBy(cases, n, o) || multiset(cases[n])[o] > 1
  {
  }

  /** The loop over the cases. */
  method FixCases(cases: seq<seq<LeafObject>>, ghost flat: set<LeafObject>, ghost init: map<LeafObject, Leaf>)
    requires OnTarget(flat, init, {}) && Injective(init)
    requires forall i, o | 0 <= i < |cases| && o in cases[i] :: o in flat
    modifies flat
    ensures forall o | o in flat :: o.leaf == Target(init[o], RepeatedBy(cases, |cases|, o))
  {
    ghost var hit: set<LeafObject> := {};
    for n := 0 to |cases|
      invariant OnTarget(flat, init, hit)
      invariant forall o | o in flat :: o in hit <==> RepeatedBy(cases, n, o)
    {
      hit := FixCase(cases[n], flat, init, hit);
      forall o | o in flat ensures o in hit <==> RepeatedBy(cases, n + 1, o) {
        RepeatedByNext(cases, n, o);
      }
    }
  }

  ghost function BagList(cases: seq<seq<LeafObject>>): (r: seq<Bag<LeafObject>>)
    ensures |r| == |cases| && forall i :: 0 <= i < |cases| ==> r[i] == multiset(cases[i])
  {
    seq(|cases|, i requires 0 <= i < |cases| => multiset(cases[i]))
  }

  /** The cases of transform as lists of leaf objects. */
  method CasesOf(tree: Pattern<LeafObject>) returns (cases: seq<seq<LeafObject>>)
    ensures Same(BagList(cases), Expand(tree))
  {
    var either, result := Transform(tree);
    cases := seq(|result|, i requires 0 <= i < |result| => Leaves(result[i]));
    assert BagList(cases) == Cases(result);
  }

  lemma SameMember<T>(xs: seq<Bag<T>>, ys: seq<Bag<T>>, i: nat)
    requires Same(xs, ys) && i < |xs|
    ensures xs[i] in ys
  {
    assert xs[i] in multiset(xs);
    assert xs[i] in multiset(ys);
  }

  lemma RepeatsIsRepeatedBy(tree: Pattern<LeafObject>, cases: seq<seq<LeafObject>>, o: LeafObject)
    requires Same(BagList(cases), Expand(tree))
    ensures RepeatedBy(cases, |cases|, o) <==> Repeats(tree, o)
  {
    if i :| 0 <= i < |cases| && multiset(cases[i])[o] > 1 {
      SameMember(BagList(cases), Expand(tree), i);
    }
    if c :| c in Expand(tree) && c[o] > 1 {
      var k :| 0 <= k < |Expand(tree)| && Expand(tree)[k] == c;
      SameMember(Expand(tree), BagList(cases), k);
      var i :| 0 <= i < |cases| && BagList(cases)[i] == c;
      assert multiset(cases[i])[o] > 1;
    }
  }

  lemma CaseWithin(tree: Pattern<LeafObject>, cases: seq<seq<LeafObject>>, i: nat, o: LeafObject)
    requires Same(BagList(cases), Expand(tree)) && i < |cases| && o in cases[i]
    ensures o in Flat(tree)
  {
    SameMember(BagList(cases), Expand(tree), i);
    ExpandWithinFlat(tree, multiset(cases[i]), o);
  }

  /** fix_repeating_arguments on a tree whose equal leaves are one object: exactly the leaves that
      some case repeats are given an accumulating value. */
  method FixRepeatingArguments(tree: Pattern<LeafObject>, ghost init: map<LeafObject, Leaf>)
    requires OnTarget(LeafSet(tree), init, {}) && Injective(init)
    modifies LeafSet(tree)
    ensures forall o | o in LeafSet(tree) :: o.leaf == Target(init[o], Repeats(tree, o))
  {
    var cases := CasesOf(tree);
    ghost var flat := LeafSet(tree);
    forall i, o | 0 <= i < |cases| && o in cases[i] ensures o in flat {
      CaseWithin(tree, cases, i, o);
    }
    FixCases(cases, flat, init);
    forall o | o in flat ensures RepeatedBy(cases, |cases|, o) <==> Repeats(tree, o) {
      RepeatsIsRepeatedBy(tree, cases, o);
    }
  }

  /** What every leaf of the renamed tree is. */
  lemma {:induction false} RenamedFlat(m: map<LeafObject, LeafObject>, p: Pattern<LeafObject>)
    ensures |Flat(Renamed(m, p))| == |Flat(p)|
    ensures forall i :: 0 <= i < |Flat(p)| ==>
      Flat(Renamed(m, p))[i] == if Flat(p)[i] in m then m[Flat(p)[i]] else Flat(p)[i]
    decreases p, 0
  {
    if p.Branch? {
      RenamedFlatAll(m, p.children);
    }
  }

  lemma {:induction false} RenamedFlatAll(m: map<LeafObject, LeafObject>, ps: seq<Pattern<LeafObject>>)
    ensures var qs := seq(|ps|, i requires 0 <= i < |ps| => Renamed(m, ps[i]));
      && |FlatAll(qs)| == |FlatAll(ps)|
      && forall i :: 0 <= i < |FlatAll(ps)| ==>
        FlatAll(qs)[i] == if FlatAll(ps)[i] in m then m[FlatAll(ps)[i]] else FlatAll(ps)[i]
    decreases ps, 1
  {
    if ps != [] {
      var tail := ps[1..];
      var qs := seq(|ps|, i requires 0 <= i < |ps| => Renamed(m, ps[i]));
      assert qs[1..] == seq(|tail|, i requires 0 <= i < |tail| => Renamed(m, tail[i]));
      RenamedFlat(m, ps[0]);
      RenamedFlatAll(m, tail);
    }
  }

  ghost function First(uniq: seq<LeafObject>, o: LeafObject): (u: LeafObject)
    requires HasFirst(uniq, o)
    reads uniq, o
    ensures exists k :: 0 <= k < |uniq| && uniq[k] == u && IsFirst(uniq, k, o)
  {
    var k: nat :| IsFirst(uniq, k, o);
    uniq[k]
  }

  /** Leaves that were given the same representative are those with the same content. */
  lemma SameRepresentative(uniq: seq<LeafObject>, canon: map<LeafObject, LeafObject>, x: LeafObject, y: LeafObject)
    requires Finds(uniq, x, canon) && Finds(uniq, y, canon)
    ensures canon[x] in uniq && canon[x].leaf == x.leaf
    ensures canon[x] == canon[y] <==> x.leaf == y.leaf
  {
  }

  /** The leaves after fix_identities, by position: each has the content it had, and two are the
      same object if and only if their contents were equal. */
  ghost predicate United(before: seq<LeafObject>, after: seq<LeafObject>, init: map<LeafObject, Leaf>) {
    && |after| == |before|
    && (forall i :: 0 <= i < |after| ==> before[i] in init && after[i] in init && init[after[i]] == init[before[i]])
    && (forall i, j :: 0 <= i < |after| && 0 <= j < |after| ==>
          (after[i] == after[j] <==> init[before[i]] == init[before[j]]))
  }

  lemma RenamingUnites(tree: Pattern<LeafObject>, uniq: seq<LeafObject>, canon: map<LeafObject, LeafObject>,
                       init: map<LeafObject, Leaf>)
    requires AllFound(uniq, Flat(tree), canon) && forall u | u in uniq :: u in Flat(tree)
    requires forall o | o in Flat(tree) :: o in init && init[o] == o.leaf
    ensures United(Flat(tree), Flat(Renamed(canon, tree)), init)
    ensures LeafSet(Renamed(canon, tree)) <= LeafSet(tree)
  {
    var before, after := Flat(tree), Flat(Renamed(canon, tree));
    RenamedFlat(canon, tree);
    forall i | 0 <= i < |before| ensures before[i] in canon {
      assert Finds(uniq, before[i], canon);
    }
    forall i | 0 <= i < |before|
      ensures after[i] == canon[before[i]] && after[i] in before && after[i].leaf == before[i].leaf
    {
      assert Finds(uniq, before[i], canon);
      SameRepresentative(uniq, canon, before[i], before[i]);
    }
    forall i, j | 0 <= i < |before| && 0 <= j < |before|
      ensures after[i] == after[j] <==> init[before[i]] == init[before[j]]
    {
      assert Finds(uniq, before[i], canon) && Finds(uniq, before[j], canon);
      SameRepresentative(uniq, canon, before[i], before[j]);
    }
  }

  /** fix_identities from the root. */
  method Unite(pattern: BranchObject, ghost init: map<LeafObject, Leaf>)
    requires pattern.Valid() && OnTarget(LeafSet(pattern.Tree()), init, {})
    modifies pattern.repr
    ensures pattern.Valid() && exists canon :: pattern.Tree() == Renamed(canon, old(pattern.Tree()))
    ensures United(Flat(old(pattern.Tree())), Flat(pattern.Tree()), init)
    ensures LeafSet(pattern.Tree()) <= LeafSet(old(pattern.Tree()))
  {
    var tree := pattern.Snapshot();
    var flat := Flat(tree);
    var uniq := Distinct(flat);
    ghost var canon := map o | o in LeafSet(tree) :: First(uniq, o);
    assert AllFound(uniq, flat, canon);
    RenamingUnites(tree, uniq, canon, init);
    pattern.FixIdentities(uniq, canon);
  }

  // ----- Equal leaves after the values have changed -----

  /** The tree of the contents of its leaves. */
  ghost function Valued(init: map<LeafObject, Leaf>, p: Pattern<LeafObject>): Pattern<Leaf>
    requires forall o | o in Flat(p) :: o in init
    decreases p
  {
    match p
    case Tip(o) => Tip(init[o])
    case Branch(k, ps) =>
      FlatChildren(p);
      Branch(k, seq(|ps|, i requires 0 <= i < |ps| => Valued(init, ps[i])))
  }

  /** l occurs more than once in some case. */
  ghost predicate RepeatedIn(p: Pattern<Leaf>, l: Leaf) {
    exists c :: c in Expand(p) && c[l] > 1
  }

  /** One class and one name, whatever the value. */
  predicate SameKey(l: Leaf, m: Leaf) {
    WithValue(l, Null) == WithValue(m, Null)
  }

  /** Two leaves of one key with different values end up with the same value. */
  ghost predicate Collide(l: Leaf, lRepeated: bool, m: Leaf, mRepeated: bool) {
    && SameKey(l, m) && l.value != m.value
    && if lRepeated && mRepeated then !TakesValue(l) || Words(l.value) == Words(m.value)
       else if lRepeated then m.value == AccumulatingValue(l)
       else mRepeated && l.value == AccumulatingValue(m)
  }

  /** No two leaves of a tree collide. */
  ghost predicate NoneCollide(p: Pattern<Leaf>) {
    forall l, m | l in Flat(p) && m in Flat(p) :: !Collide(l, RepeatedIn(p, l), m, RepeatedIn(p, m))
  }

  lemma CollideIff(l: Leaf, lRepeated: bool, m: Leaf, mRepeated: bool)
    requires Typed(l) && Typed(m)
    ensures Collide(l, lRepeated, m, mRepeated) <==> l != m && Target(l, lRepeated) == Target(m, mRepeated)
  {
  }

  /** A leaf as the parser or an options section makes it: its value is None or a string, False for a
      command or a flag. */
  predicate FromText(l: Leaf) {
    if TakesValue(l) then l.value.Null? || l.value.Str? else l.value == Bool(false)
  }

  /** Such leaves collide exactly when both are repeated and their defaults split into the same words. */
  lemma CollideFromText(l: Leaf, lRepeated: bool, m: Leaf, mRepeated: bool)
    requires FromText(l) && FromText(m) && SameKey(l, m) && l != m
    ensures Collide(l, lRepeated, m, mRepeated) <==> lRepeated && mRepeated && Words(l.value) == Words(m.value)
  {
  }

  lemma {:induction false} ValuedFlat(init: map<LeafObject, Leaf>, p: Pattern<LeafObject>)
    requires forall o | o in Flat(p) :: o in init
    ensures |Flat(Valued(init, p))| == |Flat(p)|
    ensures forall i :: 0 <= i < |Flat(p)| ==> Flat(Valued(init, p))[i] == init[Flat(p)[i]]
    decreases p, 0
  {
    if p.Branch? {
      FlatChildren(p);
      ValuedFlatAll(init, p.children);
    }
  }

  lemma {:induction false} ValuedFlatAll(init: map<LeafObject, Leaf>, ps: seq<Pattern<LeafObject>>)
    requires forall i, o | 0 <= i < |ps| && o in Flat(ps[i]) :: o in init
    ensures forall o | o in FlatAll(ps) :: o in init
    ensures var vs := seq(|ps|, i requires 0 <= i < |ps| => Valued(init, ps[i]));
      && |FlatAll(vs)| == |FlatAll(ps)|
      && forall i :: 0 <= i < |FlatAll(ps)| ==> FlatAll(vs)[i] == init[FlatAll(ps)[i]]
    decreases ps, 1
  {
    if ps != [] {
      var tail := ps[1..];
      var vs := seq(|ps|, i requires 0 <= i < |ps| => Valued(init, ps[i]));
      forall i, o | 0 <= i < |tail| && o in Flat(tail[i]) ensures o in init {
        assert tail[i] == ps[i + 1];
      }
      assert vs[1..] == seq(|tail|, i requires 0 <= i < |tail| => Valued(init, tail[i]));
      assert forall o | o in Flat(ps[0]) :: o in init;
      ValuedFlat(init, ps[0]);
      ValuedFlatAll(init, tail);
    }
  }

  /** Replacing leaves by leaves with the same content keeps the tree of contents. */
  lemma {:induction false} ValuedRenamed(init: map<LeafObject, Leaf>, m: map<LeafObject, LeafObject>,
                                         p: Pattern<LeafObject>)
    requires forall o | o in Flat(p) :: o in init && (o in m ==> m[o] in init && init[m[o]] == init[o])
    ensures forall o | o in Flat(Renamed(m, p)) :: o in init
    ensures Valued(init, Renamed(m, p)) == Valued(init, p)
    decreases p
  {
    var q := Renamed(m, p);
    RenamedFlat(m, p);
    forall o | o in Flat(q) ensures o in init {
      var i :| 0 <= i < |Flat(q)| && Flat(q)[i] == o;
      assert Flat(p)[i] in Flat(p);
    }
    if p.Branch? {
      FlatChildren(p);
      FlatChildren(q);
      forall i | 0 <= i < |p.children|
        ensures Valued(init, Renamed(m, p).children[i]) == Valued(init, p).children[i] {
        ValuedRenamed(init, m, p.children[i]);
      }
    }
  }

  /** Case by case, the two expansions hold each leaf and its content equally often. */
  ghost predicate Imaged(init: map<LeafObject, Leaf>, xs: seq<Bag<LeafObject>>, ys: seq<Bag<Leaf>>) {
    |xs| == |ys| && forall i, o | 0 <= i < |xs| && o in init :: ys[i][init[o]] == xs[i][o]
  }

  lemma AddAllImaged(init: map<LeafObject, Leaf>, a: Bag<LeafObject>, b: Bag<Leaf>, xs: seq<Bag<LeafObject>>,
                     ys: seq<Bag<Leaf>>)
    requires Imaged(init, [a], [b]) && Imaged(init, xs, ys)
    ensures Imaged(init, AddAll(a, xs), AddAll(b, ys))
  {
    assert forall o | o in init :: [b][0][init[o]] == [a][0][o];
  }

  lemma {:induction false} CrossImaged(init: map<LeafObject, Leaf>, xs: seq<Bag<LeafObject>>, ys: seq<Bag<Leaf>>,
                                       us: seq<Bag<LeafObject>>, vs: seq<Bag<Leaf>>)
    requires Imaged(init, xs, ys) && Imaged(init, us, vs)
    ensures Imaged(init, Cross(xs, us), Cross(ys, vs))
    decreases |xs|
  {
    if xs != [] {
      AddAllImaged(init, xs[0], ys[0], us, vs);
      CrossImaged(init, xs[1..], ys[1..], us, vs);
    }
  }

  lemma {:induction false} ExpandImaged(init: map<LeafObject, Leaf>, p: Pattern<LeafObject>)
    requires Injective(init) && forall o | o in Flat(p) :: o in init
    ensures Imaged(init, Expand(p), Expand(Valued(init, p)))
    decreases p, 0
  {
    match p
    case Tip(o) =>
    case Branch(k, ps) =>
      FlatChildren(p);
      var vs := Valued(init, p).children;
      match k {
        case Either => EitherImaged(init, ps, vs);
        case OneOrMore =>
          AllImaged(init, ps, vs);
          CrossImaged(init, ExpandAll(ps), ExpandAll(vs), ExpandAll(ps), ExpandAll(vs));
        case _ => AllImaged(init, ps, vs);
      }
  }

  ghost predicate ChildrenValued(init: map<LeafObject, Leaf>, ps: seq<Pattern<LeafObject>>, vs: seq<Pattern<Leaf>>) {
    && |vs| == |ps| && (forall i, o | 0 <= i < |ps| && o in Flat(ps[i]) :: o in init)
    && (forall i :: 0 <= i < |ps| ==> vs[i] == Valued(init, ps[i]))
  }

  lemma {:induction false} AllImaged(init: map<LeafObject, Leaf>, ps: seq<Pattern<LeafObject>>, vs: seq<Pattern<Leaf>>)
    requires Injective(init) && ChildrenValued(init, ps, vs)
    ensures Imaged(init, ExpandAll(ps), ExpandAll(vs))
    decreases ps, 1
  {
    if ps != [] {
      assert ChildrenValued(init, ps[1..], vs[1..]);
      ExpandImaged(init, ps[0]);
      AllImaged(init, ps[1..], vs[1..]);
      CrossImaged(init, Expand(ps[0]), Expand(vs[0]), ExpandAll(ps[1..]), ExpandAll(vs[1..]));
    }
  }

  lemma {:induction false} EitherImaged(init: map<LeafObject, Leaf>, ps: seq<Pattern<LeafObject>>,
                                        vs: seq<Pattern<Leaf>>)
    requires Injective(init) && ChildrenValued(init, ps, vs)
    ensures Imaged(init, ExpandEither(ps), ExpandEither(vs))
    decreases ps, 1
  {
    if ps != [] {
      assert ChildrenValued(init, ps[1..], vs[1..]);
      ExpandImaged(init, ps[0]);
      EitherImaged(init, ps[1..], vs[1..]);
    }
  }

  /** When equal leaves are one object, an object is repeated exactly when its content is. */
  lemma RepeatsByContent(init: map<LeafObject, Leaf>, p: Pattern<LeafObject>, o: LeafObject)
    requires Injective(init) && (forall x | x in Flat(p) :: x in init) && o in init
    ensures Repeats(p, o) <==> RepeatedIn(Valued(init, p), init[o])
  {
    ExpandImaged(init, p);
    var xs, ys := Expand(p), Expand(Valued(init, p));
    if c :| c in xs && c[o] > 1 {
      var i :| 0 <= i < |xs| && xs[i] == c;
      assert ys[i] in ys && ys[i][init[o]] > 1;
    }
    if d :| d in ys && d[init[o]] > 1 {
      var i :| 0 <= i < |ys| && ys[i] == d;
      assert xs[i] in xs && xs[i][o] > 1;
    }
  }

  // ----- fix() -----

  /** Equal leaves are one object. */
  ghost predicate EqualIsSame(leaves: set<LeafObject>)
    reads leaves
  {
    forall x, y | x in leaves && y in leaves && x.leaf == y.leaf :: x == y
  }

  lemma PairCollides(tree: Pattern<LeafObject>, init: map<LeafObject, Leaf>, x: LeafObject, y: LeafObject)
    requires Injective(init) && forall o | o in Flat(tree) :: o in init && Typed(init[o])
    requires x in Flat(tree) && y in Flat(tree)
    requires x.leaf == Target(init[x], Repeats(tree, x)) && y.leaf == Target(init[y], Repeats(tree, y))
    ensures var p := Valued(init, tree);
      Collide(init[x], RepeatedIn(p, init[x]), init[y], RepeatedIn(p, init[y])) <==> x != y && x.leaf == y.leaf
  {
    RepeatsByContent(init, tree, x);
    RepeatsByContent(init, tree, y);
    CollideIff(init[x], Repeats(tree, x), init[y], Repeats(tree, y));
  }

  lemma ContentOf(tree: Pattern<LeafObject>, init: map<LeafObject, Leaf>, l: Leaf) returns (x: LeafObject)
    requires (forall o | o in Flat(tree) :: o in init) && l in Flat(Valued(init, tree))
    ensures x in Flat(tree) && init[x] == l
  {
    ValuedFlat(init, tree);
    var i :| 0 <= i < |Flat(Valued(init, tree))| && Flat(Valued(init, tree))[i] == l;
    x := Flat(tree)[i];
  }

  lemma HasContent(tree: Pattern<LeafObject>, init: map<LeafObject, Leaf>, x: LeafObject)
    requires (forall o | o in Flat(tree) :: o in init) && x in Flat(tree)
    ensures init[x] in Flat(Valued(init, tree))
  {
    ValuedFlat(init, tree);
    var i :| 0 <= i < |Flat(tree)| && Flat(tree)[i] == x;
    assert Flat(Valued(init, tree))[i] == init[x];
  }

  lemma EqualIsSameIff(tree: Pattern<LeafObject>, init: map<LeafObject, Leaf>)
    requires Injective(init) && forall o | o in Flat(tree) :: o in init && Typed(init[o])
    requires forall o | o in LeafSet(tree) :: o.leaf == Target(init[o], Repeats(tree, o))
    ensures EqualIsSame(LeafSet(tree)) <==> NoneCollide(Valued(init, tree))
  {
    var p := Valued(init, tree);
    if EqualIsSame(LeafSet(tree)) {
      forall l, m | l in Flat(p) && m in Flat(p) ensures !Collide(l, RepeatedIn(p, l), m, RepeatedIn(p, m)) {
        var x := ContentOf(tree, init, l);
        var y := ContentOf(tree, init, m);
        PairCollides(tree, init, x, y);
      }
    } else {
      var x, y :| x in LeafSet(tree) && y in LeafSet(tree) && x.leaf == y.leaf && x != y;
      HasContent(tree, init, x);
      HasContent(tree, init, y);
      PairCollides(tree, init, x, y);
    }
  }

  /** fix() on a tree: afterwards two leaves are one object if and only if they were equal, the tree
      differs from the old one in its leaf objects only, exactly the leaves that some case repeats
      accumulate, and leaves that are equal now are one object if and only if no two different ones
      collided. That last condition, and which leaves repeat, are about the contents before. */
  method Fix(pattern: BranchObject, ghost init: map<LeafObject, Leaf>)
    requires pattern.Valid() && OnTarget(LeafSet(pattern.Tree()), init, {})
    modifies pattern.repr, LeafSet(pattern.Tree())
    ensures pattern.Valid() && exists canon :: pattern.Tree() == Renamed(canon, old(pattern.Tree()))
    ensures United(Flat(old(pattern.Tree())), Flat(pattern.Tree()), init)
    ensures forall o | o in LeafSet(pattern.Tree()) :: o.leaf == Target(init[o], Repeats(pattern.Tree(), o))
    ensures forall o | o in LeafSet(pattern.Tree()) ::
      Repeats(pattern.Tree(), o) <==> RepeatedIn(Valued(init, old(pattern.Tree())), init[o])
    ensures EqualIsSame(LeafSet(pattern.Tree())) <==> NoneCollide(Valued(init, old(pattern.Tree())))
  {
    ghost var tree := pattern.Tree();
    ghost var before := Flat(tree);
    Unite(pattern, init);
    var fixed := pattern.Snapshot();
    ghost var kept := map o | o in LeafSet(fixed) :: init[o];
    forall x, y | x in kept && y in kept && kept[x] == kept[y] ensures x == y {
      UnitedInjective(before, Flat(fixed), init, x, y);
    }
    FixRepeatingArguments(fixed, kept);
    UnitedValued(tree, fixed, init, kept);
    forall o | o in LeafSet(fixed) ensures Repeats(fixed, o) <==> RepeatedIn(Valued(init, tree), init[o]) {
      RepeatsByContent(kept, fixed, o);
    }
    EqualIsSameIff(fixed, kept);
  }

  /** The tree of contents is the same before and after leaves are united. */
  lemma UnitedValued(tree: Pattern<LeafObject>, fixed: Pattern<LeafObject>, init: map<LeafObject, Leaf>,
                     kept: map<LeafObject, Leaf>)
    requires exists canon :: fixed == Renamed(canon, tree)
    requires United(Flat(tree), Flat(fixed), init)
    requires (forall o | o in Flat(fixed) :: o in kept && o in init && kept[o] == init[o])
    ensures forall o | o in Flat(tree) :: o in init
    ensures Valued(kept, fixed) == Valued(init, tree)
  {
    var canon :| fixed == Renamed(canon, tree);
    RenamedFlat(canon, tree);
    ValuedRenamed(init, canon, tree);
    ValuedSame(init, kept, fixed);
  }

  lemma {:induction false} ValuedSame(init: map<LeafObject, Leaf>, kept: map<LeafObject, Leaf>, p: Pattern<LeafObject>)
    requires forall o | o in Flat(p) :: o in init && o in kept && init[o] == kept[o]
    ensures Valued(init, p) == Valued(kept, p)
    decreases p
  {
    if p.Branch? {
      FlatChildren(p);
      forall i | 0 <= i < |p.children| ensures Valued(init, p).children[i] == Valued(kept, p).children[i] {
        ValuedSame(init, kept, p.children[i]);
      }
    }
  }

  lemma UnitedInjective(before: seq<LeafObject>, after: seq<LeafObject>, init: map<LeafObject, Leaf>, x: LeafObject,
                        y: LeafObject)
    requires United(before, after, init) && x in after && y in after && init[x] == init[y]
    ensures x == y
  {
  }

  // ----- When equal leaves stay apart -----

  /** Leaves of one class and name hold one value. */
  ghost predicate KeysDecide(p: Pattern<Leaf>) {
    forall l, m | l in Flat(p) && m in Flat(p) && SameKey(l, m) :: l == m
  }

  /** That is enough for none to collide. */
  lemma StaysUnited(p: Pattern<Leaf>)
    requires KeysDecide(p)
    ensures NoneCollide(p)
  {
  }

  const WITHOUT_DEFAULT := Option(Nothing, Just("--foo"), 1, Null)
  const EMPTY_DEFAULT := Option(Nothing, Just("--foo"), 1, Str(""))

  /** docopt puts the listed options that the pattern does not name under every shortcut. */
  function Filled<L>(p: Pattern<L>, listed: seq<L>): Pattern<L>
    decreases p
  {
    match p
    case Tip(l) => p
    case Branch(OptionsShortcut, _) =>
      Branch(OptionsShortcut, seq(|listed|, i requires 0 <= i < |listed| => Tip(listed[i])))
    case Branch(k, ps) => Branch(k, seq(|ps|, i requires 0 <= i < |ps| => Filled(ps[i], listed)))
  }

  /** The usage `prog [options] [options]` when two options are listed. */
  function OptionsTwice<L>(a: L, b: L): Pattern<L> {
    var options := Branch(Optional, [Branch(OptionsShortcut, [Tip(a), Tip(b)])]);
    Branch(Required, [Branch(Required, [options, options])])
  }

  lemma ExpandTwo<L>(p: Pattern<L>, q: Pattern<L>, x: Bag<L>, y: Bag<L>)
    requires Expand(p) == [x] && Expand(q) == [y]
    ensures ExpandAll([p, q]) == [x + y]
  {
    assert [p, q][1..] == [q];
    ExpandOne(q);
    assert Cross([x], [y]) == AddAll(x, [y]);
  }

  lemma FlatTwo<L>(p: Pattern<L>, q: Pattern<L>)
    ensures FlatAll([p]) == Flat(p) && FlatAll([p, q]) == Flat(p) + Flat(q)
  {
    assert [p, q][1..] == [q] && [p][1..] == [] && [q][1..] == [];
    assert Flat(p) + [] == Flat(p) && Flat(q) + [] == Flat(q);
  }

  lemma OptionsTwiceExpands(l: Leaf, m: Leaf)
    requires l != m
    ensures RepeatedIn(OptionsTwice(l, m), l) && RepeatedIn(OptionsTwice(l, m), m)
    ensures Flat(OptionsTwice(l, m)) == [l, m, l, m]
  {
    var one := multiset{l} + multiset{m};
    var shortcut := Branch(OptionsShortcut, [Tip(l), Tip(m)]);
    var b := Branch(Optional, [shortcut]);
    ExpandTwo(Tip(l), Tip(m), multiset{l}, multiset{m});
    ExpandOne(shortcut);
    ExpandTwo(b, b, one, one);
    var r := Branch(Required, [b, b]);
    ExpandOne(r);
    assert Expand(OptionsTwice(l, m)) == [one + one];
    assert (one + one) in Expand(OptionsTwice(l, m)) && (one + one)[l] > 1 && (one + one)[m] > 1;
    FlatTwo(Tip(l), Tip(m));
    FlatTwo(shortcut, shortcut);
    FlatTwo(b, b);
    FlatTwo(r, r);
    assert [l] + [m] == [l, m] && [l, m] + [l, m] == [l, m, l, m];
  }

  lemma DefaultsAgree()
    ensures FromText(WITHOUT_DEFAULT) && FromText(EMPTY_DEFAULT) && SameKey(WITHOUT_DEFAULT, EMPTY_DEFAULT)
    ensures WITHOUT_DEFAULT.value != EMPTY_DEFAULT.value
    ensures Words(WITHOUT_DEFAULT.value) == Words(EMPTY_DEFAULT.value) == []
  {
  }

  lemma RepeatedCollide(p: Pattern<Leaf>, l: Leaf, m: Leaf)
    requires l in Flat(p) && m in Flat(p) && RepeatedIn(p, l) && RepeatedIn(p, m)
    requires SameKey(l, m) && l.value != m.value && Words(l.value) == Words(m.value)
    ensures !NoneCollide(p)
  {
    assert Collide(l, RepeatedIn(p, l), m, RepeatedIn(p, m));
  }

  /** There the two options end up equal and stay two objects: both become an empty list. */
  lemma KeysMatter()
    ensures FromText(WITHOUT_DEFAULT) && FromText(EMPTY_DEFAULT)
    ensures !NoneCollide(OptionsTwice(WITHOUT_DEFAULT, EMPTY_DEFAULT))
  {
    DefaultsAgree();
    OptionsTwiceExpands(WITHOUT_DEFAULT, EMPTY_DEFAULT);
    RepeatedCollide(OptionsTwice(WITHOUT_DEFAULT, EMPTY_DEFAULT), WITHOUT_DEFAULT, EMPTY_DEFAULT);
  }

  /** [options], filled with two options. */
  method Shortcut(a: LeafObject, b: LeafObject) returns (branch: BranchObject)
    ensures branch.Valid() && fresh(branch.repr)
    ensures branch.Tree() == Branch(Optional, [Branch(OptionsShortcut, [Tip(a), Tip(b)])])
  {
    var shortcut := new BranchObject(OptionsShortcut, [LeafNode(a), LeafNode(b)]);
    assert shortcut.Tree() == Branch(OptionsShortcut, [Tip(a), Tip(b)]);
    branch := new BranchObject(Optional, [BranchNode(shortcut)]);
  }

  /** A usage of two parts: parse_pattern of a group of a sequence. */
  method Usage(first: BranchObject, second: BranchObject) returns (pattern: BranchObject)
    requires first.Valid() && second.Valid() && first.repr !! second.repr
    ensures pattern.Valid() && fresh(pattern.repr - first.repr - second.repr)
    ensures pattern.Tree() == Branch(Required, [Branch(Required, [first.Tree(), second.Tree()])])
  {
    var both := new BranchObject(Required, [BranchNode(first), BranchNode(second)]);
    assert both.Tree() == Branch(Required, [first.Tree(), second.Tree()]);
    pattern := new BranchObject(Required, [BranchNode(both)]);
  }

  ghost predicate IsOptionsTwice(p: Pattern<LeafObject>, a: LeafObject, b: LeafObject, c: LeafObject, d: LeafObject) {
    var first, second := Branch(OptionsShortcut, [Tip(a), Tip(b)]), Branch(OptionsShortcut, [Tip(c), Tip(d)]);
    p == Branch(Required, [Branch(Required, [Branch(Optional, [first]), Branch(Optional, [second])])])
  }

  lemma OptionsTwiceValued(init: map<LeafObject, Leaf>, a: LeafObject, b: LeafObject, c: LeafObject, d: LeafObject,
                           p: Pattern<LeafObject>)
    requires a in init && b in init && c in init && d in init && init[a] == init[c] && init[b] == init[d]
    requires IsOptionsTwice(p, a, b, c, d)
    ensures LeafSet(p) == {a, b, c, d} && (forall o | o in Flat(p) :: o in init)
    ensures Valued(init, p) == OptionsTwice(init[a], init[b])
  {
    var first, second := Branch(OptionsShortcut, [Tip(a), Tip(b)]), Branch(OptionsShortcut, [Tip(c), Tip(d)]);
    var left, right := Branch(Optional, [first]), Branch(Optional, [second]);
    var both := Branch(Required, [left, right]);
    FlatTwo(Tip(a), Tip(b));
    FlatTwo(Tip(c), Tip(d));
    FlatTwo(first, second);
    FlatTwo(second, first);
    FlatTwo(left, right);
    FlatTwo(both, both);
    assert Flat(p) == [a, b, c, d];
    assert Valued(init, first) == Valued(init, second) == Branch(OptionsShortcut, [Tip(init[a]), Tip(init[b])]);
    assert Valued(init, left) == Branch(Optional, [Valued(init, first)]);
    assert Valued(init, right) == Branch(Optional, [Valued(init, second)]);
    assert Valued(init, both) == Branch(Required, [Valued(init, left), Valued(init, right)]);
  }

  method UsageOf(a: LeafObject, b: LeafObject, c: LeafObject, d: LeafObject) returns (pattern: BranchObject)
    ensures pattern.Valid() && fresh(pattern.repr) && IsOptionsTwice(pattern.Tree(), a, b, c, d)
  {
    var first := Shortcut(a, b);
    var second := Shortcut(c, d);
    pattern := Usage(first, second);
  }

  lemma UsageCollides(init: map<LeafObject, Leaf>, a: LeafObject, b: LeafObject, c: LeafObject, d: LeafObject,
                      p: Pattern<LeafObject>)
    requires a in init && b in init && c in init && d in init && IsOptionsTwice(p, a, b, c, d)
    requires init[a] == init[c] == WITHOUT_DEFAULT && init[b] == init[d] == EMPTY_DEFAULT
    ensures LeafSet(p) == {a, b, c, d} && (forall o | o in Flat(p) :: o in init)
    ensures !NoneCollide(Valued(init, p))
  {
    OptionsTwiceValued(init, a, b, c, d, p);
    KeysMatter();
  }

  /** fix on a tree whose leaves collide. */
  method FixColliding(pattern: BranchObject, ghost init: map<LeafObject, Leaf>)
    requires pattern.Valid() && OnTarget(LeafSet(pattern.Tree()), init, {})
    requires !NoneCollide(Valued(init, pattern.Tree()))
    modifies pattern.repr, LeafSet(pattern.Tree())
    ensures pattern.Valid() && !EqualIsSame(LeafSet(pattern.Tree()))
  {
    Fix(pattern, init);
  }

  /** fix on that tree. */
  method FixUsage(a: LeafObject, b: LeafObject, c: LeafObject, d: LeafObject, ghost init: map<LeafObject, Leaf>)
      returns (pattern: BranchObject)
    requires OnTarget({a, b, c, d}, init, {})
    requires init[a] == init[c] == WITHOUT_DEFAULT && init[b] == init[d] == EMPTY_DEFAULT
    modifies {a, b, c, d}
    ensures pattern.Valid() && !EqualIsSame(LeafSet(pattern.Tree()))
  {
    pattern := UsageOf(a, b, c, d);
    UsageCollides(init, a, b, c, d, pattern.Tree());
    FixColliding(pattern, init);
  }

  method FixOptionsTwice() returns (pattern: BranchObject)
    ensures pattern.Valid() && !EqualIsSame(LeafSet(pattern.Tree()))
  {
    var a := new LeafObject(WITHOUT_DEFAULT);
    var b := new LeafObject(EMPTY_DEFAULT);
    var c := new LeafObject(WITHOUT_DEFAULT);
    var d := new LeafObject(EMPTY_DEFAULT);
    pattern := FixUsage(a, b, c, d,
      map[a := WITHOUT_DEFAULT, b := EMPTY_DEFAULT, c := WITHOUT_DEFAULT, d := EMPTY_DEFAULT]);
  }
}
