/**
 `transform` of sw/ab_cal_scripts/lib/docopt.py: expand a pattern into one alternative of cases.
 */
module DocoptTransform {
  import opened Bags
  import opened DocoptPattern
  import opened Wrappers

  // ----- What the expansion means, by recursion on the tree -----

  /** One case per way to choose: an alternative of each Either, and twice the body of OneOrMore. */
  function Expand<L>(p: Pattern<L>): seq<Bag<L>>
    decreases p, 0
  {
    match p
    case Tip(l) => [multiset{l}]
    case Branch(Either, ps) => ExpandEither(ps)
    case Branch(OneOrMore, ps) => Cross(ExpandAll(ps), ExpandAll(ps))
    case Branch(_, ps) => ExpandAll(ps)
  }

  function ExpandAll<L>(ps: seq<Pattern<L>>): seq<Bag<L>>
    decreases ps, 1
  {
    if ps == [] then [multiset{}] else Cross(Expand(ps[0]), ExpandAll(ps[1..]))
  }

  function ExpandEither<L>(ps: seq<Pattern<L>>): seq<Bag<L>>
    decreases ps, 1
  {
    if ps == [] then [] else Expand(ps[0]) + ExpandEither(ps[1..])
  }

  lemma {:induction false} ExpandAppend<L>(ps: seq<Pattern<L>>, qs: seq<Pattern<L>>)
    ensures ExpandAll(ps + qs) == Cross(ExpandAll(ps), ExpandAll(qs))
    decreases ps
  {
    if ps == [] {
      assert ps + qs == qs;
      AddNone(ExpandAll(qs));
    } else {
      assert (ps + qs)[1..] == ps[1..] + qs;
      ExpandAppend(ps[1..], qs);
      CrossAssoc(Expand(ps[0]), ExpandAll(ps[1..]), ExpandAll(qs));
    }
  }

  lemma ExpandOne<L>(p: Pattern<L>)
    ensures ExpandAll([p]) == Expand(p)
  {
    CrossUnit(Expand(p));
  }

  /** A group means the same with one of its members moved to the front. */
  lemma ExpandMove<L>(before: seq<Pattern<L>>, p: Pattern<L>, after: seq<Pattern<L>>)
    ensures Same(ExpandAll(before + [p] + after), Cross(Expand(p), ExpandAll(before + after)))
  {
    ExpandAppend(before + [p], after);
    ExpandAppend(before, [p]);
    ExpandOne(p);
    ExpandAppend(before, after);
    CrossAssoc(ExpandAll(before), Expand(p), ExpandAll(after));
    CrossSwap(ExpandAll(before), Expand(p), ExpandAll(after));
  }

  // ----- The worklist -----

  function ExpandGroups<L>(groups: seq<seq<Pattern<L>>>): seq<Bag<L>> {
    if groups == [] then [] else ExpandAll(groups[0]) + ExpandGroups(groups[1..])
  }

  lemma {:induction false} GroupsAppend<L>(gs: seq<seq<Pattern<L>>>, hs: seq<seq<Pattern<L>>>)
    ensures ExpandGroups(gs + hs) == ExpandGroups(gs) + ExpandGroups(hs)
  {
    if gs == [] {
      assert gs + hs == hs;
    } else {
      assert (gs + hs)[1..] == gs[1..] + hs;
      GroupsAppend(gs[1..], hs);
    }
  }

  /** One group for each alternative. */
  function Alternatives<L>(ps: seq<Pattern<L>>, rest: seq<Pattern<L>>): seq<seq<Pattern<L>>>
    decreases |ps|
  {
    if ps == [] then [] else [[ps[0]] + rest] + Alternatives(ps[1..], rest)
  }

  /** The groups that replace a group whose first branch is `child`; `rest` is the group without it. */
  function Replacements<L>(child: Pattern<L>, rest: seq<Pattern<L>>): seq<seq<Pattern<L>>>
    requires child.Branch?
  {
    match child.kind
    case Either => Alternatives(child.children, rest)
    case OneOrMore => [child.children + child.children + rest]
    case _ => [child.children + rest]
  }

  lemma {:induction false} EitherReplaced<L>(ps: seq<Pattern<L>>, rest: seq<Pattern<L>>)
    ensures ExpandGroups(Alternatives(ps, rest)) == Cross(ExpandEither(ps), ExpandAll(rest))
    decreases |ps|
  {
    if ps != [] {
      EitherReplaced(ps[1..], rest);
      CrossAppendLeft(Expand(ps[0]), ExpandEither(ps[1..]), ExpandAll(rest));
      assert ([ps[0]] + rest)[1..] == rest;
    }
  }

  /** Replacing a group does not change what it means. */
  lemma Replaced<L>(child: Pattern<L>, rest: seq<Pattern<L>>)
    requires child.Branch?
    ensures ExpandGroups(Replacements(child, rest)) == Cross(Expand(child), ExpandAll(rest))
  {
    var ps := child.children;
    match child.kind {
      case Either => EitherReplaced(ps, rest);
      case OneOrMore =>
        ExpandAppend(ps + ps, rest);
        ExpandAppend(ps, ps);
      case _ => ExpandAppend(ps, rest);
    }
  }

  // ----- Termination: sums of products -----

  function Weight<L>(p: Pattern<L>): (n: nat)
    ensures n > 0
    decreases p, 0
  {
    match p
    case Tip(_) => 1
    case Branch(Either, ps) => 1 + WeightSum(ps)
    case Branch(OneOrMore, ps) => 1 + WeightProduct(ps) * WeightProduct(ps)
    case Branch(_, ps) => 1 + WeightProduct(ps)
  }

  function WeightProduct<L>(ps: seq<Pattern<L>>): (n: nat)
    ensures n > 0
    decreases ps, 1
  {
    if ps == [] then 1 else Weight(ps[0]) * WeightProduct(ps[1..])
  }

  function WeightSum<L>(ps: seq<Pattern<L>>): nat
    decreases ps, 1
  {
    if ps == [] then 0 else Weight(ps[0]) + WeightSum(ps[1..])
  }

  function Work<L>(groups: seq<seq<Pattern<L>>>): nat {
    if groups == [] then 0 else WeightProduct(groups[0]) + Work(groups[1..])
  }

  lemma {:induction false} WorkAppend<L>(gs: seq<seq<Pattern<L>>>, hs: seq<seq<Pattern<L>>>)
    ensures Work(gs + hs) == Work(gs) + Work(hs)
  {
    if gs == [] {
      assert gs + hs == hs;
    } else {
      assert (gs + hs)[1..] == gs[1..] + hs;
      WorkAppend(gs[1..], hs);
    }
  }

  lemma MulAssoc(a: nat, b: nat, c: nat)
    ensures a * (b * c) == (a * b) * c == b * (a * c)
  {
  }

  lemma {:induction false} ProductAppend<L>(ps: seq<Pattern<L>>, qs: seq<Pattern<L>>)
    ensures WeightProduct(ps + qs) == WeightProduct(ps) * WeightProduct(qs)
    decreases ps
  {
    if ps == [] {
      assert ps + qs == qs;
    } else {
      assert (ps + qs)[1..] == ps[1..] + qs;
      ProductAppend(ps[1..], qs);
      MulAssoc(Weight(ps[0]), WeightProduct(ps[1..]), WeightProduct(qs));
    }
  }

  lemma ProductMove<L>(before: seq<Pattern<L>>, p: Pattern<L>, after: seq<Pattern<L>>)
    ensures WeightProduct(before + [p] + after) == Weight(p) * WeightProduct(before + after)
  {
    ProductAppend(before + [p], after);
    ProductAppend(before, [p]);
    ProductAppend(before, after);
    assert WeightProduct([p]) == Weight(p) * WeightProduct<L>([]);
    MulAssoc(WeightProduct(before), Weight(p), WeightProduct(after));
  }

  lemma Distribute(a: nat, b: nat, c: nat)
    ensures (a + b) * c == a * c + b * c
  {
  }

  lemma {:induction false} EitherWork<L>(ps: seq<Pattern<L>>, rest: seq<Pattern<L>>)
    ensures Work(Alternatives(ps, rest)) == WeightSum(ps) * WeightProduct(rest)
    decreases |ps|
  {
    if ps != [] {
      EitherWork(ps[1..], rest);
      assert ([ps[0]] + rest)[1..] == rest;
      Distribute(Weight(ps[0]), WeightSum(ps[1..]), WeightProduct(rest));
    }
  }

  lemma WorkOfOne<L>(g: seq<Pattern<L>>)
    ensures Work([g]) == WeightProduct(g)
  {
  }

  lemma LessWork<L>(child: Pattern<L>, rest: seq<Pattern<L>>)
    requires child.Branch?
    ensures Work(Replacements(child, rest)) < Weight(child) * WeightProduct(rest)
  {
    var ps, r := child.children, WeightProduct(rest);
    match child.kind {
      case Either =>
        EitherWork(ps, rest);
        Distribute(1, WeightSum(ps), r);
      case OneOrMore =>
        ProductAppend(ps + ps, rest);
        ProductAppend(ps, ps);
        WorkOfOne(ps + ps + rest);
        Distribute(1, WeightProduct(ps) * WeightProduct(ps), r);
      case _ =>
        ProductAppend(ps, rest);
        WorkOfOne(ps + rest);
        Distribute(1, WeightProduct(ps), r);
    }
  }

  // ----- The loop -----

  ghost predicate Tips<L>(ps: seq<Pattern<L>>) {
    forall i :: 0 <= i < |ps| ==> ps[i].Tip?
  }

  /** The leaves of a case of the result. */
  function Leaves<L>(ps: seq<Pattern<L>>): (ls: seq<L>)
    requires Tips(ps)
    ensures |ls| == |ps|
  {
    if ps == [] then [] else [ps[0].leaf] + Leaves(ps[1..])
  }

  lemma {:induction false} ExpandTips<L>(ps: seq<Pattern<L>>)
    requires Tips(ps)
    ensures ExpandAll(ps) == [multiset(Leaves(ps))] && WeightProduct(ps) == 1
    decreases ps
  {
    if ps != [] {
      ExpandTips(ps[1..]);
      SplitHead(Leaves(ps));
      var tail := multiset(Leaves(ps[1..]));
      assert Cross([multiset{ps[0].leaf}], [tail]) == AddAll(multiset{ps[0].leaf}, [tail]) + [];
    }
  }

  ghost predicate AllTips<L>(result: seq<seq<Pattern<L>>>) {
    forall i :: 0 <= i < |result| ==> Tips(result[i])
  }

  /** The cases of the result, as bags of leaves. */
  ghost function Cases<L>(result: seq<seq<Pattern<L>>>): (r: seq<Bag<L>>)
    requires AllTips(result)
    ensures |r| == |result| && forall i :: 0 <= i < |r| ==> r[i] == multiset(Leaves(result[i]))
  {
    seq(|result|, i requires 0 <= i < |result| => multiset(Leaves(result[i])))
  }

  /** list.remove: delete the first element equal to x. */
  function Remove<T(==)>(xs: seq<T>, x: T): seq<T> {
    if xs == [] then [] else if xs[0] == x then xs[1..] else [xs[0]] + Remove(xs[1..], x)
  }

  lemma {:induction false} RemoveAt<T>(xs: seq<T>, k: nat)
    requires k < |xs| && forall i :: 0 <= i < k ==> xs[i] != xs[k]
    ensures Remove(xs, xs[k]) == xs[..k] + xs[k + 1..]
  {
    if k > 0 {
      RemoveAt(xs[1..], k - 1);
    }
  }

  /** One turn of the worklist loop: the meaning of the group, and its share of the measure. */
  lemma StepKeeps<L>(group: seq<Pattern<L>>, k: nat, rest: seq<Pattern<L>>)
    requires k < |group| && group[k].Branch? && rest == group[..k] + group[k + 1..]
    ensures Same(ExpandAll(group), ExpandGroups(Replacements(group[k], rest)))
    ensures Work(Replacements(group[k], rest)) < WeightProduct(group)
  {
    assert group == group[..k] + [group[k]] + group[k + 1..];
    ExpandMove(group[..k], group[k], group[k + 1..]);
    Replaced(group[k], rest);
    ProductMove(group[..k], group[k], group[k + 1..]);
    LessWork(group[k], rest);
  }

  /** child is the first branch of the group, and rest the group without it. */
  ghost predicate IsFirstBranch<L>(group: seq<Pattern<L>>, child: Pattern<L>, rest: seq<Pattern<L>>) {
    exists k :: 0 <= k < |group| && group[k] == child && rest == group[..k] + group[k + 1..]
      && child.Branch? && forall i :: 0 <= i < k ==> group[i].Tip?
  }

  /** [c for c in children if type(c) in parents][0], and list.remove of it. */
  method TakeBranch<L(==)>(children: seq<Pattern<L>>) returns (taken: Maybe<(Pattern<L>, seq<Pattern<L>>)>)
    ensures taken.Just? ==> IsFirstBranch(children, taken.value.0, taken.value.1)
    ensures taken.Nothing? ==> Tips(children)
  {
    var k := 0;
    while k < |children| && children[k].Tip?
      invariant k <= |children|
      invariant forall i :: 0 <= i < k ==> children[i].Tip?
    {
      k := k + 1;
    }
    if k < |children| {
      RemoveAt(children, k);
      taken := Just((children[k], Remove(children, children[k])));
    } else {
      taken := Nothing;
    }
  }

  method Append<L(==)>(waiting: seq<seq<Pattern<L>>>, child: Pattern<L>, rest: seq<Pattern<L>>)
    returns (groups: seq<seq<Pattern<L>>>)
    requires child.Branch?
    ensures groups == waiting + Replacements(child, rest)
  {
    groups := waiting;
    if child.kind == Either {
      var ps := child.children;
      for i := 0 to |ps|
        invariant groups + Alternatives(ps[i..], rest) == waiting + Alternatives(ps, rest)
      {
        groups := groups + [[ps[i]] + rest];
        assert ps[i..][1..] == ps[i + 1..];
      }
      assert ps[|ps|..] == [];
    } else if child.kind == OneOrMore {
      groups := groups + [child.children + child.children + rest];
    } else {
      groups := groups + [child.children + rest];
    }
  }

  /** What is done and what is waiting together mean the pattern. */
  ghost predicate Progress<L>(result: seq<seq<Pattern<L>>>, groups: seq<seq<Pattern<L>>>, pattern: Pattern<L>) {
    AllTips(result) && Same(Cases(result) + ExpandGroups(groups), Expand(pattern))
  }

  lemma TurnKeeps<L>(result: seq<seq<Pattern<L>>>, group: seq<Pattern<L>>, waiting: seq<seq<Pattern<L>>>,
                     child: Pattern<L>, rest: seq<Pattern<L>>, pattern: Pattern<L>)
    requires IsFirstBranch(group, child, rest) && Progress(result, [group] + waiting, pattern)
    ensures child.Branch? && Progress(result, waiting + Replacements(child, rest), pattern)
    ensures Work(waiting + Replacements(child, rest)) < Work([group] + waiting)
  {
    var k :| 0 <= k < |group| && group[k] == child && rest == group[..k] + group[k + 1..];
    StepKeeps(group, k, rest);
    GroupsAppend(waiting, Replacements(child, rest));
    WorkAppend(waiting, Replacements(child, rest));
    assert ([group] + waiting)[1..] == waiting;
  }

  lemma CasesSnoc<L>(result: seq<seq<Pattern<L>>>, group: seq<Pattern<L>>)
    requires AllTips(result) && Tips(group)
    ensures AllTips(result + [group]) && Cases(result + [group]) == Cases(result) + [multiset(Leaves(group))]
  {
  }

  lemma CaseDone<L>(result: seq<seq<Pattern<L>>>, group: seq<Pattern<L>>, waiting: seq<seq<Pattern<L>>>,
                    pattern: Pattern<L>)
    requires Tips(group) && Progress(result, [group] + waiting, pattern)
    ensures Progress(result + [group], waiting, pattern)
    ensures Work(waiting) < Work([group] + waiting)
  {
    ExpandTips(group);
    assert ([group] + waiting)[1..] == waiting;
    CasesSnoc(result, group);
    SameSplit(Cases(result), [multiset(Leaves(group))], ExpandGroups(waiting));
  }

  lemma SameSplit<T>(xs: seq<T>, ys: seq<T>, zs: seq<T>)
    ensures multiset(xs + (ys + zs)) == multiset((xs + ys) + zs)
  {
  }

  lemma Begin<L>(pattern: Pattern<L>)
    ensures Progress([], [[pattern]], pattern)
  {
    ExpandOne(pattern);
    assert [[pattern]][1..] == [];
    assert Cases<L>([]) + ExpandGroups([[pattern]]) == Expand(pattern);
  }

  lemma End<L>(result: seq<seq<Pattern<L>>>, pattern: Pattern<L>)
    requires Progress(result, [], pattern)
    ensures AllTips(result) && Same(Cases(result), Expand(pattern))
  {
  }

  /** One turn of the loop on the first group: either it is a finished case, or others replace it. */
  method Turn<L(==)>(done: seq<seq<Pattern<L>>>, groups: seq<seq<Pattern<L>>>, ghost pattern: Pattern<L>)
    returns (done': seq<seq<Pattern<L>>>, groups': seq<seq<Pattern<L>>>)
    requires groups != [] && Progress(done, groups, pattern)
    ensures Progress(done', groups', pattern)
    ensures Work(groups') < Work(groups)
  {
    var children, waiting := groups[0], groups[1..];
    assert groups == [children] + waiting;
    var taken := TakeBranch(children);
    match taken {
      case Just((child, rest)) =>
        TurnKeeps(done, children, waiting, child, rest, pattern);
        groups' := Append(waiting, child, rest);
        done' := done;
      case Nothing =>
        CaseDone(done, children, waiting, pattern);
        done' := done + [children];
        groups' := waiting;
    }
  }

  method Drain<L(==)>(start: seq<seq<Pattern<L>>>, ghost pattern: Pattern<L>) returns (result: seq<seq<Pattern<L>>>)
    requires Progress([], start, pattern)
    ensures Progress(result, [], pattern)
  {
    var groups := start;
    result := [];
    while groups != []
      invariant Progress(result, groups, pattern)
      decreases Work(groups)
    {
      result, groups := Turn(result, groups, pattern);
    }
  }

  /** Every case of the result has leaves only, and the cases are those of the expansion, each as
      often as the choices of the pattern produce it. */
  method Transform<L(==)>(pattern: Pattern<L>) returns (either: Pattern<L>, result: seq<seq<Pattern<L>>>)
    ensures either == Branch(Either, seq(|result|, i requires 0 <= i < |result| => Branch(Required, result[i])))
    ensures AllTips(result) && Same(Cases(result), Expand(pattern))
  {
    Begin(pattern);
    result := Drain([[pattern]], pattern);
    End(result, pattern);
    either := Branch(Either, seq(|result|, i requires 0 <= i < |result| => Branch(Required, result[i])));
  }
}
