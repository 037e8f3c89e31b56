/**
 The pattern trees of sw/ab_cal_scripts/lib/docopt.py.
 */
module DocoptPattern {
  import opened Wrappers


  /** The Python values a leaf can hold. */
  datatype Value = Null | Bool(b: bool) | Str(s: string) | Int(i: int) | List(items: seq<string>)

  /** The subclasses of LeafPattern. */
  datatype Leaf =
    | Argument(argName: Maybe<string>, value: Value)
    | Command(cmdName: string, value: Value)
    | Option(short: Maybe<string>, long: Maybe<string>, argcount: nat, value: Value)
  {
    function Name(): Maybe<string> {
      match this
      case Argument(n, _) => n
      case Command(n, _) => Just(n)
      case Option(s, l, _, _) => if l.Just? && l.value != "" then l else s
    }
  }

  /** The subclasses of BranchPattern. */
  datatype Kind = Required | Optional | OptionsShortcut | OneOrMore | Either

  /** A tree over any type of leaves: leaf values, or references to leaf objects. */
  datatype Pattern<L> = Tip(leaf: L) | Branch(kind: Kind, children: seq<Pattern<L>>)

  /** A leaf is an instance of itself. */
  const ITSELF: (Leaf, Leaf) -> bool := (l, x) => l == x

  // ----- The leaves of a pattern -----

  /** flat(): the leaves from left to right. */
  function Flat<L>(p: Pattern<L>): seq<L>
    decreases p, 0
  {
    match p
    case Tip(l) => [l]
    case Branch(_, ps) => FlatAll(ps)
  }

  function FlatAll<L>(ps: seq<Pattern<L>>): seq<L>
    decreases ps, 1
  {
    if ps == [] then [] else Flat(ps[0]) + FlatAll(ps[1..])
  }

  /** set(flat()) */
  function LeafSet<L(==)>(p: Pattern<L>): set<L> {
    set l | l in Flat(p)
  }

  lemma {:induction false} FlatAllHas<L>(ps: seq<Pattern<L>>, i: nat, l: L)
    requires i < |ps| && l in Flat(ps[i])
    ensures l in FlatAll(ps)
  {
    if i > 0 {
      FlatAllHas(ps[1..], i - 1, l);
    }
  }

  lemma FlatChildren<L>(p: Pattern<L>)
    requires p.Branch?
    ensures forall i, l | 0 <= i < |p.children| && l in Flat(p.children[i]) :: l in Flat(p)
  {
    forall i, l | 0 <= i < |p.children| && l in Flat(p.children[i]) ensures l in Flat(p) {
      FlatAllHas(p.children, i, l);
    }
  }

  // ----- The language of a pattern -----

  /** w is a word of p, where `fits(l, x)` says that x is an instance of the leaf l. */
  ghost predicate Word<L, X>(fits: (L, X) -> bool, p: Pattern<L>, w: seq<X>)
    decreases p, 0, 0
  {
    match p
    case Tip(l) => |w| == 1 && fits(l, w[0])
    case Branch(Required, ps) => Sequence(fits, ps, w)
    case Branch(Optional, ps) => Options(fits, ps, w)
    case Branch(OptionsShortcut, ps) => Options(fits, ps, w)
    case Branch(Either, ps) => exists i :: 0 <= i < |ps| && Word(fits, ps[i], w)
    case Branch(OneOrMore, ps) => exists n: nat :: n >= 1 && Repeated(fits, ps, n, w)
  }

  /** One word of each pattern, in order. */
  ghost predicate Sequence<L, X>(fits: (L, X) -> bool, ps: seq<Pattern<L>>, w: seq<X>)
    decreases ps, 0, |ps|
  {
    if ps == [] then w == []
    else exists k :: 0 <= k <= |w| && Word(fits, ps[0], w[..k]) && Sequence(fits, ps[1..], w[k..])
  }

  /** One word or nothing of each pattern, in order. */
  ghost predicate Options<L, X>(fits: (L, X) -> bool, ps: seq<Pattern<L>>, w: seq<X>)
    decreases ps, 0, |ps|
  {
    if ps == [] then w == []
    else exists k :: 0 <= k <= |w| && (k == 0 || Word(fits, ps[0], w[..k])) && Options(fits, ps[1..], w[k..])
  }

  /** n sequences of words of the patterns, one after the other. */
  ghost predicate Repeated<L, X>(fits: (L, X) -> bool, ps: seq<Pattern<L>>, n: nat, w: seq<X>)
    decreases ps, 1, n
  {
    if n == 0 then w == []
    else exists k :: 0 <= k <= |w| && Sequence(fits, ps, w[..k]) && Repeated(fits, ps, n - 1, w[k..])
  }
}
