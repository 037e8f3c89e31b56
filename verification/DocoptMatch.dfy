/**
 The greedy matcher of sw/ab_cal_scripts/lib/docopt.py, for patterns whose leaves do not
 accumulate (no leaf holds a number or a list): there `match` is a function of its inputs.
 */
module DocoptMatch {
  import opened DocoptPattern
  import opened Wrappers

  /** What `match` returns. */
  datatype Outcome = Outcome(matched: bool, left: seq<Leaf>, collected: seq<Leaf>)

  /** No accumulating leaf, and one child under every OneOrMore, as its `match` asserts. */
  predicate Matchable(p: Pattern<Leaf>)
    decreases p
  {
    match p
    case Tip(l) => !l.value.Int? && !l.value.List?
    case Branch(k, ps) => (k == OneOrMore ==> |ps| == 1) && forall i :: 0 <= i < |ps| ==> Matchable(ps[i])
  }

  predicate AllMatchable(ps: seq<Pattern<Leaf>>) {
    forall i :: 0 <= i < |ps| ==> Matchable(ps[i])
  }

  // ----- Leaves -----

  /** The position of the first Argument, |left| when there is none. */
  function FirstArgument(left: seq<Leaf>): (n: nat)
    ensures n <= |left| && (n < |left| ==> left[n].Argument?)
    ensures forall i :: 0 <= i < n ==> !left[i].Argument?
  {
    if left == [] || left[0].Argument? then 0 else 1 + FirstArgument(left[1..])
  }

  /** The position of the first leaf with that name, |left| when there is none. */
  function FirstNamed(name: Maybe<string>, left: seq<Leaf>): (n: nat)
    ensures n <= |left| && (n < |left| ==> left[n].Name() == name)
    ensures forall i :: 0 <= i < n ==> left[i].Name() != name
  {
    if left == [] || left[0].Name() == name then 0 else 1 + FirstNamed(name, left[1..])
  }

  /** The element a leaf takes from the argument vector, and what it collects for it. */
  function SingleMatch(l: Leaf, left: seq<Leaf>): (r: Maybe<(nat, Leaf)>)
    ensures r.Just? ==> r.value.0 < |left|
  {
    match l
    case Argument(name, _) =>
      var n := FirstArgument(left);
      if n < |left| then Just((n, Argument(name, left[n].value))) else Nothing
    case Command(name, _) =>
      var n := FirstArgument(left);
      if n < |left| && left[n].value == Str(name) then Just((n, Command(name, Bool(true)))) else Nothing
    case Option(_, _, _, _) =>
      var n := FirstNamed(l.Name(), left);
      if n < |left| then Just((n, left[n])) else Nothing
  }

  function MatchLeaf(l: Leaf, left: seq<Leaf>, collected: seq<Leaf>): Outcome {
    match SingleMatch(l, left)
    case Nothing => Outcome(false, left, collected)
    case Just((pos, found)) => Outcome(true, left[..pos] + left[pos + 1..], collected + [found])
  }

  // ----- Branches -----

  function Match(p: Pattern<Leaf>, left: seq<Leaf>, collected: seq<Leaf>): (r: Outcome)
    requires Matchable(p)
    ensures r.left == left || |r.left| < |left|
    decreases p, 0, 0
  {
    match p
    case Tip(l) => MatchLeaf(l, left, collected)
    case Branch(kind, ps) => MatchBranch(kind, ps, left, collected)
  }

  function MatchBranch(kind: Kind, ps: seq<Pattern<Leaf>>, left: seq<Leaf>, collected: seq<Leaf>): (r: Outcome)
    requires AllMatchable(ps) && (kind == OneOrMore ==> |ps| == 1)
    ensures r.left == left || |r.left| < |left|
    decreases ps, 2, 0
  {
    match kind
    case Required =>
      var r := MatchAll(ps, left, collected);
      if r.matched then r else Outcome(false, left, collected)
    case OneOrMore =>
      var r := MatchLoop(ps[0], Nothing, left, collected, 0);
      if r.matched then r else Outcome(false, left, collected)
    case Either =>
      var outcomes := Outcomes(ps, left, collected);
      if outcomes == [] then Outcome(false, left, collected) else Shortest(outcomes)
    case _ => MatchAny(ps, left, collected)
  }

  /** Each child in turn on what the one before it left, until one fails. */
  function MatchAll(ps: seq<Pattern<Leaf>>, left: seq<Leaf>, collected: seq<Leaf>): (r: Outcome)
    requires AllMatchable(ps)
    ensures r.left == left || |r.left| < |left|
    decreases ps, 0, 0
  {
    if ps == [] then Outcome(true, left, collected)
    else
      var r := Match(ps[0], left, collected);
      if r.matched then MatchAll(ps[1..], r.left, r.collected) else r
  }

  /** Each child in turn, whether or not it matches. */
  function MatchAny(ps: seq<Pattern<Leaf>>, left: seq<Leaf>, collected: seq<Leaf>): (r: Outcome)
    requires AllMatchable(ps)
    ensures r.left == left || |r.left| < |left|
    decreases ps, 0, 0
  {
    if ps == [] then Outcome(true, left, collected)
    else
      var r := Match(ps[0], left, collected);
      MatchAny(ps[1..], r.left, r.collected)
  }

  /** The loop of OneOrMore from the top of an iteration; `last` is what the previous one left. */
  function MatchLoop(p: Pattern<Leaf>, last: Maybe<seq<Leaf>>, left: seq<Leaf>, collected: seq<Leaf>,
                     times: nat): (r: Outcome)
    requires Matchable(p) && (last.Just? ==> last.value == left)
    ensures r.left == left || |r.left| < |left|
    decreases p, 1, |left| + if last.Just? then 0 else 1
  {
    var r := Match(p, left, collected);
    var n := if r.matched then times + 1 else times;
    if r.matched && last != Just(r.left) then MatchLoop(p, Just(r.left), r.left, r.collected, n)
    else Outcome(n >= 1, r.left, r.collected)
  }

  /** The outcomes of the alternatives that match, in order. */
  function Outcomes(ps: seq<Pattern<Leaf>>, left: seq<Leaf>, collected: seq<Leaf>): (rs: seq<Outcome>)
    requires AllMatchable(ps)
    ensures forall i :: 0 <= i < |rs| ==> rs[i].matched && (rs[i].left == left || |rs[i].left| < |left|)
    decreases ps, 0, 0
  {
    if ps == [] then []
    else
      var r := Match(ps[0], left, collected);
      (if r.matched then [r] else []) + Outcomes(ps[1..], left, collected)
  }

  /** min(outcomes, key=len of left): the first of those that leave least. */
  function Shortest(rs: seq<Outcome>): (r: Outcome)
    requires rs != []
    ensures r in rs && forall s :: s in rs ==> |r.left| <= |s.left|
  {
    if |rs| == 1 then rs[0]
    else
      var r := Shortest(rs[1..]);
      if |r.left| < |rs[0].left| then r else rs[0]
  }

  /** What each alternative gives. */
  function Tried(ps: seq<Pattern<Leaf>>, left: seq<Leaf>, collected: seq<Leaf>): (rs: seq<Outcome>)
    requires AllMatchable(ps)
    ensures |rs| == |ps| && forall i :: 0 <= i < |ps| ==> rs[i] == Match(ps[i], left, collected)
  {
    seq(|ps|, i requires 0 <= i < |ps| => Match(ps[i], left, collected))
  }

  function Matching(rs: seq<Outcome>): seq<Outcome> {
    if rs == [] then [] else (if rs[0].matched then [rs[0]] else []) + Matching(rs[1..])
  }

  lemma {:induction false} OutcomesMatching(ps: seq<Pattern<Leaf>>, left: seq<Leaf>, collected: seq<Leaf>)
    requires AllMatchable(ps)
    ensures Outcomes(ps, left, collected) == Matching(Tried(ps, left, collected))
    decreases |ps|
  {
    if ps != [] {
      OutcomesMatching(ps[1..], left, collected);
      assert Tried(ps, left, collected)[1..] == Tried(ps[1..], left, collected);
    }
  }

  /** Of those that match, i leaves least, and no earlier one leaves as little. */
  ghost predicate Wins(rs: seq<Outcome>, i: int) {
    && 0 <= i < |rs| && rs[i].matched
    && forall j :: 0 <= j < |rs| && rs[j].matched ==>
      |rs[i].left| <= |rs[j].left| && (j < i ==> |rs[i].left| < |rs[j].left|)
  }

  lemma WinsBehind(first: Outcome, rest: seq<Outcome>, i: int)
    requires Wins(rest, i)
    ensures if first.matched && |first.left| <= |rest[i].left| then Wins([first] + rest, 0)
            else Wins([first] + rest, i + 1)
  {
    var rs := [first] + rest;
    assert forall j :: 1 <= j < |rs| ==> rs[j] == rest[j - 1];
  }

  lemma ShortestBehind(first: Outcome, rest: seq<Outcome>)
    requires rest != []
    ensures Shortest([first] + rest) == if |Shortest(rest).left| < |first.left| then Shortest(rest) else first
  {
    assert ([first] + rest)[1..] == rest;
  }

  ghost predicate Winner(rs: seq<Outcome>, i: int) {
    if Matching(rs) == [] then forall j :: 0 <= j < |rs| ==> !rs[j].matched
    else Wins(rs, i) && rs[i] == Shortest(Matching(rs))
  }

  lemma MatchingCons(first: Outcome, rest: seq<Outcome>)
    ensures Matching([first] + rest) == if first.matched then [first] + Matching(rest) else Matching(rest)
  {
    assert ([first] + rest)[1..] == rest;
  }

  lemma OnlyWinner(first: Outcome, rest: seq<Outcome>)
    requires Matching(rest) == [] && forall j :: 0 <= j < |rest| ==> !rest[j].matched
    ensures Winner([first] + rest, 0)
  {
    var rs := [first] + rest;
    MatchingCons(first, rest);
    assert forall j :: 1 <= j < |rs| ==> rs[j] == rest[j - 1];
  }

  lemma WinnerBehind(first: Outcome, rest: seq<Outcome>, k: int) returns (i: int)
    requires Matching(rest) != [] && Wins(rest, k) && rest[k] == Shortest(Matching(rest))
    ensures Winner([first] + rest, i)
  {
    MatchingCons(first, rest);
    WinsBehind(first, rest, k);
    ShortestBehind(first, Matching(rest));
    i := if first.matched && |first.left| <= |rest[k].left| then 0 else k + 1;
  }

  lemma {:induction false} ShortestWins(rs: seq<Outcome>) returns (i: int)
    ensures Winner(rs, i)
    decreases |rs|
  {
    i := 0;
    if rs != [] {
      var first, rest := rs[0], rs[1..];
      assert rs == [first] + rest;
      var k := ShortestWins(rest);
      if Matching(rest) == [] {
        OnlyWinner(first, rest);
      } else {
        i := WinnerBehind(first, rest, k);
      }
    }
  }

  /** Of the alternatives that match, the outcome is that of one that leaves least, of several such the
      first; there is none exactly when no alternative matches. */
  ghost predicate FirstLeast(ps: seq<Pattern<Leaf>>, left: seq<Leaf>, collected: seq<Leaf>, r: Outcome)
    requires AllMatchable(ps)
  {
    if r.matched then exists i :: IsFirstLeast(ps, left, collected, r, i)
    else r == Outcome(false, left, collected) && forall j :: 0 <= j < |ps| ==> !Match(ps[j], left, collected).matched
  }

  ghost predicate IsFirstLeast(ps: seq<Pattern<Leaf>>, left: seq<Leaf>, collected: seq<Leaf>, r: Outcome, i: int)
    requires AllMatchable(ps)
  {
    && 0 <= i < |ps| && r == Match(ps[i], left, collected) && r.matched
    && forall j :: 0 <= j < |ps| && Match(ps[j], left, collected).matched ==>
      var s := Match(ps[j], left, collected);
      |r.left| <= |s.left| && (j < i ==> |r.left| < |s.left|)
  }

  lemma WinsIsFirstLeast(ps: seq<Pattern<Leaf>>, left: seq<Leaf>, collected: seq<Leaf>, i: int)
    requires AllMatchable(ps) && Wins(Tried(ps, left, collected), i)
    ensures IsFirstLeast(ps, left, collected, Tried(ps, left, collected)[i], i)
  {
    var rs := Tried(ps, left, collected);
    forall j | 0 <= j < |ps| ensures Match(ps[j], left, collected) == rs[j] {
    }
  }

  lemma OutcomesMean(ps: seq<Pattern<Leaf>>, left: seq<Leaf>, collected: seq<Leaf>)
    requires AllMatchable(ps)
    ensures var outcomes := Outcomes(ps, left, collected);
      FirstLeast(ps, left, collected, if outcomes == [] then Outcome(false, left, collected) else Shortest(outcomes))
  {
    var rs := Tried(ps, left, collected);
    OutcomesMatching(ps, left, collected);
    var i := ShortestWins(rs);
    if Matching(rs) == [] {
      forall j | 0 <= j < |ps| ensures !Match(ps[j], left, collected).matched {
        assert !rs[j].matched;
      }
    } else {
      WinsIsFirstLeast(ps, left, collected, i);
    }
  }

  lemma EitherMeans(ps: seq<Pattern<Leaf>>, left: seq<Leaf>, collected: seq<Leaf>)
    requires AllMatchable(ps)
    ensures FirstLeast(ps, left, collected, Match(Branch(Either, ps), left, collected))
  {
    OutcomesMean(ps, left, collected);
    assert Match(Branch(Either, ps), left, collected) == MatchBranch(Either, ps, left, collected);
  }

  // ----- The loops of the source -----

  method MatchPattern(p: Pattern<Leaf>, left: seq<Leaf>, collected: seq<Leaf>) returns (r: Outcome)
    requires Matchable(p)
    ensures r == Match(p, left, collected)
    decreases p, 0, 0
  {
    match p
    case Tip(l) => r := MatchLeaf(l, left, collected);
    case Branch(Required, ps) => r := MatchRequired(ps, left, collected);
    case Branch(OneOrMore, ps) => r := MatchOneOrMore(ps, left, collected);
    case Branch(Either, ps) => r := MatchEither(ps, left, collected);
    case Branch(_, ps) => r := MatchOptional(ps, left, collected);
  }

  method MatchRequired(ps: seq<Pattern<Leaf>>, left: seq<Leaf>, collected: seq<Leaf>) returns (r: Outcome)
    requires AllMatchable(ps)
    ensures var s := MatchAll(ps, left, collected);
      r == if s.matched then s else Outcome(false, left, collected)
    decreases ps, 1, 0
  {
    var l, c := left, collected;
    for i := 0 to |ps|
      invariant MatchAll(ps[i..], l, c) == MatchAll(ps, left, collected)
    {
      assert ps[i..][1..] == ps[i + 1..];
      var s := MatchPattern(ps[i], l, c);
      if !s.matched {
        return Outcome(false, left, collected);
      }
      l, c := s.left, s.collected;
    }
    r := Outcome(true, l, c);
  }

  method MatchOptional(ps: seq<Pattern<Leaf>>, left: seq<Leaf>, collected: seq<Leaf>) returns (r: Outcome)
    requires AllMatchable(ps)
    ensures r == MatchAny(ps, left, collected)
    decreases ps, 1, 0
  {
    var l, c := left, collected;
    for i := 0 to |ps|
      invariant MatchAny(ps[i..], l, c) == MatchAny(ps, left, collected)
    {
      assert ps[i..][1..] == ps[i + 1..];
      var s := MatchPattern(ps[i], l, c);
      l, c := s.left, s.collected;
    }
    r := Outcome(true, l, c);
  }

  method MatchOneOrMore(ps: seq<Pattern<Leaf>>, left: seq<Leaf>, collected: seq<Leaf>) returns (r: Outcome)
    requires AllMatchable(ps) && |ps| == 1
    ensures var s := MatchLoop(ps[0], Nothing, left, collected, 0);
      r == if s.matched then s else Outcome(false, left, collected)
    decreases ps, 1, 0
  {
    var l, c, last: Maybe<seq<Leaf>>, matched, times := left, collected, Nothing, true, 0;
    while matched
      invariant last.Just? ==> last.value == l
      invariant matched ==>
        MatchLoop(ps[0], last, l, c, times) == MatchLoop(ps[0], Nothing, left, collected, 0)
      invariant !matched ==> Outcome(times >= 1, l, c) == MatchLoop(ps[0], Nothing, left, collected, 0)
      decreases matched, |l| + if last.Just? then 0 else 1
    {
      var s := MatchPattern(ps[0], l, c);
      matched, l, c := s.matched, s.left, s.collected;
      times := times + if matched then 1 else 0;
      if last == Just(l) {
        break;
      }
      last := Just(l);
    }
    r := if times >= 1 then Outcome(true, l, c) else Outcome(false, left, collected);
  }

  /** One alternative more. */
  lemma OutcomesStep(ps: seq<Pattern<Leaf>>, i: nat, left: seq<Leaf>, collected: seq<Leaf>, before: seq<Outcome>)
    requires AllMatchable(ps) && i < |ps|
    ensures var s := Match(ps[i], left, collected);
      before + Outcomes(ps[i..], left, collected) ==
        (if s.matched then before + [s] else before) + Outcomes(ps[i + 1..], left, collected)
  {
    var s, rest := Match(ps[i], left, collected), Outcomes(ps[i + 1..], left, collected);
    assert ps[i..][1..] == ps[i + 1..];
    assert Outcomes(ps[i..], left, collected) == (if s.matched then [s] else []) + rest;
    assert before + ([s] + rest) == (before + [s]) + rest;
    assert before + ([] + rest) == before + rest;
  }

  method MatchEither(ps: seq<Pattern<Leaf>>, left: seq<Leaf>, collected: seq<Leaf>) returns (r: Outcome)
    requires AllMatchable(ps)
    ensures var outcomes := Outcomes(ps, left, collected);
      r == if outcomes == [] then Outcome(false, left, collected) else Shortest(outcomes)
    ensures FirstLeast(ps, left, collected, r)
    decreases ps, 1, 0
  {
    ghost var all := Outcomes(ps, left, collected);
    var outcomes := [];
    assert ps[0..] == ps && [] + all == all;
    for i := 0 to |ps|
      invariant outcomes + Outcomes(ps[i..], left, collected) == all
    {
      OutcomesStep(ps, i, left, collected, outcomes);
      var s := MatchPattern(ps[i], left, collected);
      if s.matched {
        outcomes := outcomes + [s];
      }
    }
    assert outcomes + [] == outcomes == all;
    OutcomesMean(ps, left, collected);
    r := if outcomes == [] then Outcome(false, left, collected) else Shortest(outcomes);
  }
}
