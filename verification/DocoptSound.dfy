/**
 What a successful match means: it is a run of some word of the pattern, leaf by leaf.
 */
module DocoptSound {
  import opened DocoptMatch
  import opened DocoptPattern
  import opened Wrappers

  /** Each leaf in turn on what the one before it left: no choice is made any more. */
  function MatchWord(ls: seq<Leaf>, left: seq<Leaf>, collected: seq<Leaf>): Outcome
    decreases |ls|
  {
    if ls == [] then Outcome(true, left, collected)
    else
      var r := MatchLeaf(ls[0], left, collected);
      if r.matched then MatchWord(ls[1..], r.left, r.collected) else r
  }

  lemma {:induction false} MatchWordAppend(v: seq<Leaf>, w: seq<Leaf>, left: seq<Leaf>, collected: seq<Leaf>)
    ensures var r := MatchWord(v, left, collected);
      MatchWord(v + w, left, collected) == if r.matched then MatchWord(w, r.left, r.collected) else r
    decreases |v|
  {
    if v == [] {
      assert v + w == w;
    } else {
      var r := MatchLeaf(v[0], left, collected);
      assert (v + w)[1..] == v[1..] + w;
      MatchWordAppend(v[1..], w, r.left, r.collected);
    }
  }

  // ----- A match is a run of a word -----

  /** r is what running the word gives. */
  ghost predicate Runs(ls: seq<Leaf>, left: seq<Leaf>, collected: seq<Leaf>, r: Outcome) {
    r.matched && r == MatchWord(ls, left, collected)
  }

  lemma RunsThen(v: seq<Leaf>, left: seq<Leaf>, collected: seq<Leaf>, r: Outcome, w: seq<Leaf>, s: Outcome)
    requires Runs(v, left, collected, r) && Runs(w, r.left, r.collected, s)
    ensures Runs(v + w, left, collected, s)
  {
    MatchWordAppend(v, w, left, collected);
  }

  /** A failed match returns its inputs. */
  lemma FailureRestores(p: Pattern<Leaf>, left: seq<Leaf>, collected: seq<Leaf>)
    requires Matchable(p) && !Match(p, left, collected).matched
    ensures Match(p, left, collected) == Outcome(false, left, collected)
  {
    if p.Branch? {
      AnyMatches(p.children, left, collected);
    }
  }

  lemma {:induction false} AnyMatches(ps: seq<Pattern<Leaf>>, left: seq<Leaf>, collected: seq<Leaf>)
    requires AllMatchable(ps)
    ensures MatchAny(ps, left, collected).matched
    decreases |ps|
  {
    if ps != [] {
      var r := Match(ps[0], left, collected);
      AnyMatches(ps[1..], r.left, r.collected);
    }
  }

  lemma {:induction false} MatchRuns(p: Pattern<Leaf>, left: seq<Leaf>, collected: seq<Leaf>) returns (ls: seq<Leaf>)
    requires Matchable(p) && Match(p, left, collected).matched
    ensures Runs(ls, left, collected, Match(p, left, collected)) && Word(ITSELF, p, ls)
    decreases p, 0, 0
  {
    match p
    case Tip(l) => ls := [l];
    case Branch(Required, ps) => ls := AllRun(ps, left, collected);
    case Branch(Optional, ps) => ls := AnyRun(ps, left, collected);
    case Branch(OptionsShortcut, ps) => ls := AnyRun(ps, left, collected);
    case Branch(OneOrMore, ps) =>
      var n;
      n, ls := LoopRuns(ps[0], Nothing, left, collected, 0);
      RepeatedOne(ps, n, ls);
    case Branch(Either, ps) =>
      var i;
      i, ls := OutcomeRuns(ps, left, collected, Match(p, left, collected));
  }

  lemma {:induction false} AllRun(ps: seq<Pattern<Leaf>>, left: seq<Leaf>, collected: seq<Leaf>) returns (ls: seq<Leaf>)
    requires AllMatchable(ps) && MatchAll(ps, left, collected).matched
    ensures Runs(ls, left, collected, MatchAll(ps, left, collected)) && Sequence(ITSELF, ps, ls)
    decreases ps, 0, 0
  {
    if ps == [] {
      ls := [];
    } else {
      var r := Match(ps[0], left, collected);
      var v := MatchRuns(ps[0], left, collected);
      var w := AllRun(ps[1..], r.left, r.collected);
      ls := v + w;
      RunsThen(v, left, collected, r, w, MatchAll(ps, left, collected));
      assert ls[..|v|] == v && ls[|v|..] == w;
    }
  }

  lemma {:induction false} AnyRun(ps: seq<Pattern<Leaf>>, left: seq<Leaf>, collected: seq<Leaf>) returns (ls: seq<Leaf>)
    requires AllMatchable(ps)
    ensures Runs(ls, left, collected, MatchAny(ps, left, collected)) && Options(ITSELF, ps, ls)
    decreases ps, 0, 0
  {
    if ps == [] {
      ls := [];
    } else {
      var r := Match(ps[0], left, collected);
      var w := AnyRun(ps[1..], r.left, r.collected);
      if r.matched {
        var v := MatchRuns(ps[0], left, collected);
        ls := v + w;
        RunsThen(v, left, collected, r, w, MatchAny(ps, left, collected));
        assert ls[..|v|] == v && ls[|v|..] == w;
      } else {
        FailureRestores(ps[0], left, collected);
        ls := w;
        assert ls[..0] == [] && ls[0..] == w;
      }
    }
  }

  /** n words of p, one after the other. */
  ghost predicate Times(p: Pattern<Leaf>, n: nat, w: seq<Leaf>)
    decreases n
  {
    if n == 0 then w == [] else exists k :: 0 <= k <= |w| && Word(ITSELF, p, w[..k]) && Times(p, n - 1, w[k..])
  }

  lemma TimesCons(p: Pattern<Leaf>, v: seq<Leaf>, m: nat, w: seq<Leaf>)
    requires Word(ITSELF, p, v) && Times(p, m, w)
    ensures Times(p, m + 1, v + w)
  {
    assert (v + w)[..|v|] == v && (v + w)[|v|..] == w;
  }

  lemma {:induction false} RepeatedOne(ps: seq<Pattern<Leaf>>, n: nat, w: seq<Leaf>)
    requires |ps| == 1 && Times(ps[0], n, w)
    ensures Repeated(ITSELF, ps, n, w)
    decreases n
  {
    if n > 0 {
      var k :| 0 <= k <= |w| && Word(ITSELF, ps[0], w[..k]) && Times(ps[0], n - 1, w[k..]);
      var v := w[..k];
      assert v[..|v|] == v && v[|v|..] == [];
      assert Sequence(ITSELF, ps[1..], v[|v|..]);
      assert Sequence(ITSELF, ps, v);
      RepeatedOne(ps, n - 1, w[k..]);
    }
  }

  /** n words of p, one after the other, run with that outcome. */
  ghost predicate TimesRun(p: Pattern<Leaf>, n: nat, ls: seq<Leaf>, left: seq<Leaf>, collected: seq<Leaf>, r: Outcome) {
    Runs(ls, left, collected, r) && Times(p, n, ls)
  }

  /** The last iteration: it leaves the loop. */
  lemma LastTurnRuns(p: Pattern<Leaf>, left: seq<Leaf>, collected: seq<Leaf>) returns (n: nat, ls: seq<Leaf>)
    requires Matchable(p)
    ensures var r := Match(p, left, collected);
      TimesRun(p, n, ls, left, collected, Outcome(true, r.left, r.collected)) && (r.matched ==> n >= 1)
    decreases p, 0, 1
  {
    var r := Match(p, left, collected);
    if r.matched {
      ls := MatchRuns(p, left, collected);
      n := 1;
      TimesCons(p, ls, 0, []);
      assert ls + [] == ls;
    } else {
      FailureRestores(p, left, collected);
      n, ls := 0, [];
    }
  }

  lemma JoinRuns(p: Pattern<Leaf>, left: seq<Leaf>, collected: seq<Leaf>, r: Outcome, s: Outcome, v: seq<Leaf>,
                 m: nat, w: seq<Leaf>)
    requires Runs(v, left, collected, r) && Word(ITSELF, p, v) && TimesRun(p, m, w, r.left, r.collected, s)
    ensures TimesRun(p, m + 1, v + w, left, collected, s)
  {
    RunsThen(v, left, collected, r, w, s);
    TimesCons(p, v, m, w);
  }

  lemma LoopTurns(p: Pattern<Leaf>, last: Maybe<seq<Leaf>>, left: seq<Leaf>, collected: seq<Leaf>, times: nat)
    requires Matchable(p) && (last.Just? ==> last.value == left)
    ensures var r := Match(p, left, collected);
      MatchLoop(p, last, left, collected, times) ==
      if r.matched && last != Just(r.left) then MatchLoop(p, Just(r.left), r.left, r.collected, times + 1)
      else Outcome(times >= 1 || r.matched, r.left, r.collected)
  {
  }

  lemma {:induction false} LoopRuns(p: Pattern<Leaf>, last: Maybe<seq<Leaf>>, left: seq<Leaf>, collected: seq<Leaf>,
                                    times: nat)
    returns (n: nat, ls: seq<Leaf>)
    requires Matchable(p) && (last.Just? ==> last.value == left)
    requires MatchLoop(p, last, left, collected, times).matched
    ensures TimesRun(p, n, ls, left, collected, MatchLoop(p, last, left, collected, times)) && n + times >= 1
    decreases p, 1, |left| + if last.Just? then 0 else 1
  {
    var r := Match(p, left, collected);
    LoopTurns(p, last, left, collected, times);
    if r.matched && last != Just(r.left) {
      var s := MatchLoop(p, Just(r.left), r.left, r.collected, times + 1);
      var v := MatchRuns(p, left, collected);
      var m, w := LoopRuns(p, Just(r.left), r.left, r.collected, times + 1);
      n, ls := m + 1, v + w;
      JoinRuns(p, left, collected, r, s, v, m, w);
    } else {
      n, ls := LastTurnRuns(p, left, collected);
    }
  }

  lemma {:induction false} OutcomeRuns(ps: seq<Pattern<Leaf>>, left: seq<Leaf>, collected: seq<Leaf>, r: Outcome)
    returns (i: nat, ls: seq<Leaf>)
    requires AllMatchable(ps) && r in Outcomes(ps, left, collected)
    ensures Runs(ls, left, collected, r) && i < |ps| && Word(ITSELF, ps[i], ls)
    decreases ps, 0, 0
  {
    if Match(ps[0], left, collected).matched && r == Match(ps[0], left, collected) {
      i := 0;
      ls := MatchRuns(ps[0], left, collected);
    } else {
      i, ls := OutcomeRuns(ps[1..], left, collected, r);
      i := i + 1;
    }
  }

  // ----- What running a word keeps -----

  /** The element of the argument vector behind a leaf: collecting renames positional elements. */
  function Token(x: Leaf): Leaf {
    match x
    case Argument(_, v) => Argument(Nothing, v)
    case Command(n, Bool(true)) => Argument(Nothing, Str(n))
    case _ => x
  }

  function TokenList(xs: seq<Leaf>): (r: seq<Leaf>)
    ensures |r| == |xs| && forall i :: 0 <= i < |xs| ==> r[i] == Token(xs[i])
  {
    seq(|xs|, i requires 0 <= i < |xs| => Token(xs[i]))
  }

  function Tokens(xs: seq<Leaf>): multiset<Leaf> {
    multiset(TokenList(xs))
  }

  lemma TokensAppend(xs: seq<Leaf>, ys: seq<Leaf>)
    ensures Tokens(xs + ys) == Tokens(xs) + Tokens(ys)
  {
    assert TokenList(xs + ys) == TokenList(xs) + TokenList(ys);
  }

  ghost predicate Subsequence(xs: seq<Leaf>, ys: seq<Leaf>) {
    if xs == [] then true
    else ys != [] && ((xs[0] == ys[0] && Subsequence(xs[1..], ys[1..])) || Subsequence(xs, ys[1..]))
  }

  lemma {:induction false} SubsequenceRefl(xs: seq<Leaf>)
    ensures Subsequence(xs, xs)
  {
    if xs != [] {
      SubsequenceRefl(xs[1..]);
    }
  }

  lemma {:induction false} SubsequenceTrans(xs: seq<Leaf>, ys: seq<Leaf>, zs: seq<Leaf>)
    requires Subsequence(xs, ys) && Subsequence(ys, zs)
    ensures Subsequence(xs, zs)
    decreases |xs| + |ys| + |zs|
  {
    if xs != [] {
      if ys[0] == zs[0] && Subsequence(ys[1..], zs[1..]) {
        if xs[0] == ys[0] && Subsequence(xs[1..], ys[1..]) {
          SubsequenceTrans(xs[1..], ys[1..], zs[1..]);
        } else {
          SubsequenceTrans(xs, ys[1..], zs[1..]);
        }
      } else {
        SubsequenceTrans(xs, ys, zs[1..]);
      }
    }
  }

  lemma {:induction false} SubsequenceWithout(xs: seq<Leaf>, n: nat)
    requires n < |xs|
    ensures Subsequence(xs[..n] + xs[n + 1..], xs)
  {
    var ys := xs[..n] + xs[n + 1..];
    if n == 0 {
      assert ys == xs[1..];
      SubsequenceRefl(ys);
      SubsequenceSkip(ys, xs);
    } else {
      SubsequenceWithout(xs[1..], n - 1);
      assert ys[0] == xs[0] && ys[1..] == xs[1..][..n - 1] + xs[1..][n..];
    }
  }

  lemma SubsequenceSkip(ys: seq<Leaf>, xs: seq<Leaf>)
    requires xs != [] && Subsequence(ys, xs[1..])
    ensures Subsequence(ys, xs)
  {
  }

  /** x is what the leaf l collects for some element. */
  predicate FitsLeaf(l: Leaf, x: Leaf) {
    match l
    case Argument(name, _) => x.Argument? && x.argName == name
    case Command(name, _) => x == Command(name, Bool(true))
    case Option(_, _, _, _) => x.Name() == l.Name()
  }

  /** What a leaf collects fits it, and stands for the element it takes. */
  lemma LeafCollects(l: Leaf, left: seq<Leaf>)
    requires SingleMatch(l, left).Just?
    ensures var (pos, found) := SingleMatch(l, left).value;
      FitsLeaf(l, found) && Token(found) == Token(left[pos])
  {
  }

  function Without(left: seq<Leaf>, pos: nat): seq<Leaf>
    requires pos < |left|
  {
    left[..pos] + left[pos + 1..]
  }

  lemma TokensWithout(left: seq<Leaf>, pos: nat)
    requires pos < |left|
    ensures Tokens(left) == multiset{Token(left[pos])} + Tokens(Without(left, pos))
  {
    assert left == left[..pos] + [left[pos]] + left[pos + 1..];
    TokensAppend(left[..pos] + [left[pos]], left[pos + 1..]);
    TokensAppend(left[..pos], [left[pos]]);
    TokensAppend(left[..pos], left[pos + 1..]);
    assert TokenList([left[pos]]) == [Token(left[pos])];
  }

  /** What a run collects, and what it leaves. */
  function Run(ls: seq<Leaf>, left: seq<Leaf>): (r: Maybe<(seq<Leaf>, seq<Leaf>)>)
    ensures r.Just? ==> |r.value.0| == |ls|
    decreases |ls|
  {
    if ls == [] then Just(([], left))
    else match SingleMatch(ls[0], left)
      case Nothing => Nothing
      case Just((pos, found)) =>
        match Run(ls[1..], Without(left, pos))
        case Nothing => Nothing
        case Just((more, rest)) => Just(([found] + more, rest))
  }

  lemma {:induction false} MatchWordIsRun(ls: seq<Leaf>, left: seq<Leaf>, collected: seq<Leaf>)
    requires MatchWord(ls, left, collected).matched
    ensures var r := MatchWord(ls, left, collected);
      Run(ls, left).Just? && r.collected == collected + Run(ls, left).value.0 && r.left == Run(ls, left).value.1
    decreases |ls|
  {
    if ls == [] {
      assert collected + [] == collected;
    } else {
      var (pos, found) := SingleMatch(ls[0], left).value;
      MatchWordIsRun(ls[1..], Without(left, pos), collected + [found]);
      var more := Run(ls[1..], Without(left, pos)).value.0;
      assert (collected + [found]) + more == collected + ([found] + more);
    }
  }

  /** Every collected leaf fits its pattern leaf. */
  lemma {:induction false} RunFits(ls: seq<Leaf>, left: seq<Leaf>, i: nat)
    requires Run(ls, left).Just? && i < |ls|
    ensures FitsLeaf(ls[i], Run(ls, left).value.0[i])
    decreases |ls|
  {
    LeafCollects(ls[0], left);
    if i > 0 {
      RunFits(ls[1..], Without(left, SingleMatch(ls[0], left).value.0), i - 1);
    }
  }

  /** No element is lost or invented. */
  lemma {:induction false} RunKeepsTokens(ls: seq<Leaf>, left: seq<Leaf>)
    requires Run(ls, left).Just?
    ensures Tokens(left) == Tokens(Run(ls, left).value.0) + Tokens(Run(ls, left).value.1)
    ensures |left| == |ls| + |Run(ls, left).value.1|
    decreases |ls|
  {
    var (word, rest) := Run(ls, left).value;
    if ls == [] {
      assert TokenList(word) == [];
    } else {
      var pos := SingleMatch(ls[0], left).value.0;
      RunKeepsTokens(ls[1..], Without(left, pos));
      LeafCollects(ls[0], left);
      TokensWithout(left, pos);
      TokensWithout(word, 0);
      assert Without(word, 0) == word[1..];
    }
  }

  lemma {:induction false} RunLeavesSubsequence(ls: seq<Leaf>, left: seq<Leaf>)
    requires Run(ls, left).Just?
    ensures Subsequence(Run(ls, left).value.1, left)
    decreases |ls|
  {
    if ls == [] {
      SubsequenceRefl(left);
    } else {
      var pos := SingleMatch(ls[0], left).value.0;
      RunLeavesSubsequence(ls[1..], Without(left, pos));
      SubsequenceWithout(left, pos);
      SubsequenceTrans(Run(ls, left).value.1, Without(left, pos), left);
    }
  }

  // ----- Positional arguments keep their order -----

  /** The shape of a parsed argument vector: options, and positional arguments without a name. */
  ghost predicate ArgumentVector(left: seq<Leaf>) {
    forall i :: 0 <= i < |left| ==> left[i].Option? || (left[i].Argument? && left[i].argName == Nothing)
  }

  /** Every option leaf has a name. */
  ghost predicate Named(ls: seq<Leaf>) {
    forall i :: 0 <= i < |ls| && ls[i].Option? ==> ls[i].Name() != Nothing
  }

  function PositionalValue(x: Leaf): seq<Value> {
    match x
    case Argument(_, v) => [v]
    case Command(n, _) => [Str(n)]
    case Option(_, _, _, _) => []
  }

  /** The values of the positional elements, in order. */
  function Positional(xs: seq<Leaf>): seq<Value> {
    if xs == [] then [] else PositionalValue(xs[0]) + Positional(xs[1..])
  }

  lemma {:induction false} PositionalAppend(xs: seq<Leaf>, ys: seq<Leaf>)
    ensures Positional(xs + ys) == Positional(xs) + Positional(ys)
  {
    if xs == [] {
      assert xs + ys == ys;
    } else {
      assert (xs + ys)[1..] == xs[1..] + ys;
      PositionalAppend(xs[1..], ys);
    }
  }

  lemma {:induction false} NoneBefore(left: seq<Leaf>, pos: nat)
    requires pos <= |left| && forall i :: 0 <= i < pos ==> left[i].Option?
    ensures Positional(left[..pos]) == []
    decreases pos
  {
    if pos > 0 {
      assert left[..pos][1..] == left[1..][..pos - 1];
      NoneBefore(left[1..], pos - 1);
    }
  }

  lemma PositionalSplit(left: seq<Leaf>, pos: nat)
    requires pos < |left|
    ensures Positional(left) == Positional(left[..pos]) + (PositionalValue(left[pos]) + Positional(left[pos + 1..]))
    ensures Positional(Without(left, pos)) == Positional(left[..pos]) + Positional(left[pos + 1..])
  {
    assert left == left[..pos] + left[pos..];
    PositionalAppend(left[..pos], left[pos..]);
    assert left[pos..][1..] == left[pos + 1..];
    PositionalAppend(left[..pos], left[pos + 1..]);
  }

  /** A positional leaf takes the first positional element, an option leaf an option. */
  lemma TakesWhich(l: Leaf, left: seq<Leaf>)
    requires ArgumentVector(left) && SingleMatch(l, left).Just? && (l.Option? ==> l.Name() != Nothing)
    ensures var (pos, found) := SingleMatch(l, left).value;
      PositionalValue(left[pos]) == PositionalValue(found)
        && (PositionalValue(found) == [] || forall i :: 0 <= i < pos ==> left[i].Option?)
  {
  }

  lemma StillVector(left: seq<Leaf>, pos: nat)
    requires ArgumentVector(left) && pos < |left|
    ensures ArgumentVector(Without(left, pos))
  {
  }

  /** Removing an element with no positional value, or the first that has one. */
  lemma RemoveInOrder(left: seq<Leaf>, pos: nat, values: seq<Value>)
    requires pos < |left| && PositionalValue(left[pos]) == values
    requires values == [] || forall i :: 0 <= i < pos ==> left[i].Option?
    ensures Positional(left) == values + Positional(Without(left, pos))
  {
    PositionalSplit(left, pos);
    if values != [] {
      NoneBefore(left, pos);
    }
    OneIsEmpty(Positional(left[..pos]), values, Positional(left[pos + 1..]));
  }

  lemma OneIsEmpty(before: seq<Value>, values: seq<Value>, after: seq<Value>)
    requires before == [] || values == []
    ensures before + (values + after) == values + (before + after)
  {
    if before == [] {
      assert before + (values + after) == values + after && before + after == after;
    } else {
      assert values + after == after && values + (before + after) == before + after;
    }
  }

  /** One take removes the first positional value, or none. */
  lemma TakeInOrder(l: Leaf, left: seq<Leaf>)
    requires ArgumentVector(left) && SingleMatch(l, left).Just? && (l.Option? ==> l.Name() != Nothing)
    ensures var (pos, found) := SingleMatch(l, left).value;
      ArgumentVector(Without(left, pos)) && Positional(left) == PositionalValue(found) + Positional(Without(left, pos))
  {
    var (pos, found) := SingleMatch(l, left).value;
    TakesWhich(l, left);
    StillVector(left, pos);
    RemoveInOrder(left, pos, PositionalValue(found));
  }

  lemma {:induction false} RunInOrder(ls: seq<Leaf>, left: seq<Leaf>)
    requires ArgumentVector(left) && Named(ls) && Run(ls, left).Just?
    ensures Positional(left) == Positional(Run(ls, left).value.0) + Positional(Run(ls, left).value.1)
    decreases |ls|
  {
    if ls != [] {
      var (pos, found) := SingleMatch(ls[0], left).value;
      var (more, rest) := Run(ls[1..], Without(left, pos)).value;
      TakeInOrder(ls[0], left);
      RunInOrder(ls[1..], Without(left, pos));
      assert Run(ls, left).value == ([found] + more, rest);
      assert ([found] + more)[1..] == more;
      assert PositionalValue(found) + (Positional(more) + Positional(rest)) ==
        (PositionalValue(found) + Positional(more)) + Positional(rest);
    }
  }

  // ----- The theorem -----

  /** What it means for `found` to be collected for the word ls out of `left`, leaving `rest`. */
  ghost predicate Takes(ls: seq<Leaf>, left: seq<Leaf>, found: seq<Leaf>, rest: seq<Leaf>) {
    && |found| == |ls|
    && (forall i :: 0 <= i < |ls| ==> FitsLeaf(ls[i], found[i]))
    && Tokens(left) == Tokens(found) + Tokens(rest)
    && Subsequence(rest, left)
    && (ArgumentVector(left) && Named(ls) ==> Positional(left) == Positional(found) + Positional(rest))
  }

  /** A match collects, for some word of the pattern, one fitting leaf per leaf of the word; it neither
      loses nor invents elements, leaves a subsequence, and keeps positional arguments in order. A
      failed match changes nothing. */
  lemma Soundness(p: Pattern<Leaf>, left: seq<Leaf>, collected: seq<Leaf>)
    requires Matchable(p)
    ensures var r := Match(p, left, collected);
      && |r.left| + |r.collected| == |left| + |collected|
      && (r.matched ==> collected <= r.collected)
      && (r.matched ==> exists ls :: Word(ITSELF, p, ls) && Takes(ls, left, r.collected[|collected|..], r.left))
      && (!r.matched ==> r == Outcome(false, left, collected))
  {
    var r := Match(p, left, collected);
    if r.matched {
      var ls := MatchRuns(p, left, collected);
      MatchWordIsRun(ls, left, collected);
      RunTakes(ls, left);
      assert r.collected[|collected|..] == Run(ls, left).value.0;
    } else {
      FailureRestores(p, left, collected);
    }
  }

  lemma RunTakes(ls: seq<Leaf>, left: seq<Leaf>)
    requires Run(ls, left).Just?
    ensures Takes(ls, left, Run(ls, left).value.0, Run(ls, left).value.1)
    ensures |left| == |ls| + |Run(ls, left).value.1|
  {
    forall i | 0 <= i < |ls| ensures FitsLeaf(ls[i], Run(ls, left).value.0[i]) {
      RunFits(ls, left, i);
    }
    RunKeepsTokens(ls, left);
    RunLeavesSubsequence(ls, left);
    if ArgumentVector(left) && Named(ls) {
      RunInOrder(ls, left);
    }
  }

  // ----- OneOrMore stops at a fixed point -----

  lemma NothingTaken(p: Pattern<Leaf>, left: seq<Leaf>, collected: seq<Leaf>)
    requires Matchable(p) && Match(p, left, collected).left == left
    ensures Match(p, left, collected).collected == collected
  {
    Soundness(p, left, collected);
  }

  lemma {:induction false} LoopFixedPoint(p: Pattern<Leaf>, last: Maybe<seq<Leaf>>, left: seq<Leaf>,
                                          collected: seq<Leaf>, times: nat)
    requires Matchable(p) && (last.Just? ==> last.value == left)
    ensures var r := MatchLoop(p, last, left, collected, times);
      Match(p, r.left, r.collected).left == r.left && (times >= 1 ==> r.matched)
    ensures !MatchLoop(p, last, left, collected, times).matched ==> !Match(p, left, collected).matched
    decreases |left| + if last.Just? then 0 else 1
  {
    var r := Match(p, left, collected);
    if r.matched && last != Just(r.left) {
      LoopFixedPoint(p, Just(r.left), r.left, r.collected, times + 1);
    } else if r.matched {
      NothingTaken(p, left, collected);
    } else {
      FailureRestores(p, left, collected);
    }
  }

  /** Where OneOrMore stops, its child fails or takes nothing. */
  lemma OneOrMoreExhausts(p: Pattern<Leaf>, left: seq<Leaf>, collected: seq<Leaf>)
    requires Matchable(p) && p.Branch? && p.kind == OneOrMore
    ensures var r := Match(p, left, collected);
      var s := Match(p.children[0], r.left, r.collected);
      s.left == r.left && s.collected == r.collected
  {
    var child := p.children[0];
    LoopFixedPoint(child, Nothing, left, collected, 0);
    assert Match(p, left, collected) == MatchBranch(OneOrMore, p.children, left, collected);
    if !MatchLoop(child, Nothing, left, collected, 0).matched {
      FailureRestores(child, left, collected);
    }
    var r := Match(p, left, collected);
    NothingTaken(child, r.left, r.collected);
  }

  // ----- The matcher is greedy -----

  /** It does not backtrack into an optional: for `[<a>] <b>` one argument is not enough, although
      the word <b> alone is in the language and runs on it. */
  lemma GreedyMisses()
    ensures var a, b, x := Argument(Just("<a>"), Null), Argument(Just("<b>"), Null), Argument(Nothing, Str("x"));
      var p := Branch(Required, [Branch(Optional, [Tip(a)]), Tip(b)]);
      !Match(p, [x], []).matched && Word(ITSELF, p, [b]) && MatchWord([b], [x], []).matched
  {
    var a, b, x := Argument(Just("<a>"), Null), Argument(Just("<b>"), Null), Argument(Nothing, Str("x"));
    var opt := Branch(Optional, [Tip(a)]);
    var ps := [opt, Tip(b)];
    assert ps[1..] == [Tip(b)] && [Tip(a)][1..] == [] && [Tip(b)][1..] == [];
    assert FirstArgument([x]) == 0 && [x][..0] + [x][1..] == [];
    assert MatchLeaf(a, [x], []).left == [];
    var r := Match(Tip(a), [x], []);
    assert MatchAny([], r.left, r.collected).left == [];
    assert Match(opt, [x], []) == MatchBranch(Optional, [Tip(a)], [x], []) == MatchAny([Tip(a)], [x], []);
    assert Match(opt, [x], []).left == [];
    var c := Match(opt, [x], []).collected;
    assert !MatchLeaf(b, [], c).matched;
    assert !MatchAll([Tip(b)], [], c).matched;
    assert !MatchAll(ps, [x], []).matched;
    assert !MatchBranch(Required, ps, [x], []).matched;
    var w := [b];
    assert w[..0] == [] && w[0..] == w && w[..1] == w && w[1..] == [];
    assert Options(ITSELF, [Tip(a)], w[..0]);
    assert Word(ITSELF, opt, w[..0]);
    assert Sequence(ITSELF, [], w[1..]);
    assert Sequence(ITSELF, ps[1..], w[0..]);
  }
}
