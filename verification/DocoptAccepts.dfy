/**
 When docopt accepts an argument vector: its main function wants a match that leaves nothing
 (sw/ab_cal_scripts/lib/docopt.py:578-579).
 */
module DocoptAccepts {
  import opened DocoptComplete
  import opened DocoptMatch
  import opened DocoptPattern
  import opened DocoptSound
  import opened Wrappers

  predicate Accepts(p: Pattern<Leaf>, left: seq<Leaf>)
    requires Matchable(p)
  {
    var r := Match(p, left, []);
    r.matched && r.left == []
  }

  /** w runs on all of the arguments. */
  ghost predicate UsesAll(w: seq<Leaf>, left: seq<Leaf>) {
    Run(w, left).Just? && Run(w, left).value.1 == []
  }

  /** Some word of the pattern uses all of the arguments. */
  ghost predicate Described(p: Pattern<Leaf>, left: seq<Leaf>) {
    exists w :: Word(ITSELF, p, w) && UsesAll(w, left)
  }

  /** Every leaf is optional by itself. */
  predicate Loose(p: Pattern<Leaf>)
    decreases p
  {
    match p
    case Tip(_) => false
    case Branch(Required, ps) => forall i :: 0 <= i < |ps| ==> Loose(ps[i])
    case Branch(Either, _) => false
    case Branch(OneOrMore, _) => false
    case Branch(_, ps) => forall i :: 0 <= i < |ps| ==> ps[i].Tip? || Loose(ps[i])
  }

  predicate AllLoose(ps: seq<Pattern<Leaf>>) {
    forall i :: 0 <= i < |ps| ==> Loose(ps[i])
  }

  predicate AllOptional(ps: seq<Pattern<Leaf>>) {
    forall i :: 0 <= i < |ps| ==> ps[i].Tip? || Loose(ps[i])
  }

  /** Nothing that a choice takes could be put to better use later. */
  predicate Thorough(p: Pattern<Leaf>, vector: bool)
    decreases p, 0
  {
    match p
    case Tip(_) => true
    case Branch(Required, ps) => ThoroughSequence(ps, vector)
    case Branch(OneOrMore, ps) => forall i :: 0 <= i < |ps| ==> ChoiceFree(ps[i])
    case Branch(Either, ps) => forall i :: 0 <= i < |ps| ==> Thorough(ps[i], vector)
    case Branch(_, ps) => ThoroughOptions(ps, vector)
  }

  /** In a sequence, a pattern that chooses is the last one, or, on an argument vector, apart from those
      behind it, or it and they have optional leaves only. */
  predicate ThoroughSequence(ps: seq<Pattern<Leaf>>, vector: bool)
    decreases ps, 1
  {
    || AllLoose(ps)
    || (ChoiceFree(ps[0]) && ThoroughSequence(ps[1..], vector))
    || (Thorough(ps[0], vector) && ps[1..] == [])
    || (Thorough(ps[0], vector) && vector && Apart(ps[0], ps[1..]) && ThoroughSequence(ps[1..], vector))
  }

  /** The same for patterns that may each be left out. */
  predicate ThoroughOptions(ps: seq<Pattern<Leaf>>, vector: bool)
    decreases ps, 1
  {
    || AllOptional(ps)
    || (Thorough(ps[0], vector) && ps[1..] == [])
    || (Thorough(ps[0], vector) && vector && Apart(ps[0], ps[1..]) && ThoroughOptions(ps[1..], vector))
  }

  // ----- Optional leaves: the greedy way takes the most -----

  /** What is left when each leaf in turn takes what it can. */
  function Greedy(ls: seq<Leaf>, left: seq<Leaf>): seq<Leaf> {
    if ls == [] then left else Greedy(ls[1..], MatchLeaf(ls[0], left, []).left)
  }

  lemma {:induction false} GreedyAppend(a: seq<Leaf>, b: seq<Leaf>, left: seq<Leaf>)
    ensures Greedy(a + b, left) == Greedy(b, Greedy(a, left))
    decreases |a|
  {
    if a == [] {
      assert a + b == b;
    } else {
      assert (a + b)[1..] == a[1..] + b;
      GreedyAppend(a[1..], b, MatchLeaf(a[0], left, []).left);
    }
  }

  /** Positions of two elements, after the other one is taken out. */
  function After(pos: nat, q: nat): int {
    if q < pos then pos - 1 else pos
  }

  lemma WithoutTwice(left: seq<Leaf>, pos: nat, q: nat)
    requires pos < |left| && q < |left| && pos != q
    ensures 0 <= After(pos, q) < |left| - 1 && 0 <= After(q, pos) < |left| - 1
    ensures Without(left, q)[After(pos, q)] == left[pos]
    ensures Without(Without(left, pos), After(q, pos)) == Without(Without(left, q), After(pos, q))
  {
    if pos < q {
      WithoutBoth(left, pos, q);
    } else {
      WithoutBoth(left, q, pos);
    }
  }

  lemma WithoutBoth(left: seq<Leaf>, lo: nat, hi: nat)
    requires lo < hi < |left|
    ensures Without(Without(left, lo), hi - 1) == Without(Without(left, hi), lo)
  {
    var rest := left[..lo] + left[lo + 1..hi] + left[hi + 1..];
    assert Without(left, lo)[..hi - 1] == left[..lo] + left[lo + 1..hi];
    assert Without(Without(left, lo), hi - 1) == rest;
    assert Without(left, hi)[lo + 1..] == left[lo + 1..hi] + left[hi + 1..];
    assert Without(Without(left, hi), lo) == rest;
  }

  lemma CandidateFirst(l: Leaf, left: seq<Leaf>, pos: nat)
    requires pos < |left| && Picks(l, left[pos]) && forall i :: 0 <= i < pos ==> !Picks(l, left[i])
    ensures Candidate(l, left) == pos
  {
  }

  /** Taking out another element does not change what a leaf takes. */
  lemma TakesStill(l: Leaf, left: seq<Leaf>, q: nat)
    requires SingleMatch(l, left).Just? && q < |left| && q != Candidate(l, left)
    ensures SingleMatch(l, Without(left, q)).Just?
    ensures Candidate(l, Without(left, q)) == After(Candidate(l, left), q)
  {
    var pos := Candidate(l, left);
    WithoutTwice(left, pos, q);
    var rest := Without(left, q);
    forall i | 0 <= i < After(pos, q) ensures !Picks(l, rest[i]) {
      assert rest[i] == left[if i < q then i else i + 1];
    }
    CandidateFirst(l, rest, After(pos, q));
  }

  /** A word still runs, but for one leaf at most, when an element that a leaf would take is gone. */
  lemma {:induction false} DropOne(l: Leaf, w: seq<Leaf>, left: seq<Leaf>) returns (w': seq<Leaf>)
    requires SingleMatch(l, left).Just? && Run(w, left).Just?
    ensures Subsequence(w', w) && |w'| + 1 >= |w|
    ensures Run(w', Without(left, Candidate(l, left))).Just?
    decreases |w|
  {
    var pos := Candidate(l, left);
    if w == [] {
      w' := [];
    } else {
      var q := Candidate(w[0], left);
      assert SingleMatch(w[0], left).value.0 == q;
      if q == pos {
        w' := w[1..];
        SubsequenceRefl(w');
      } else {
        TakesStill(l, left, q);
        TakesStill(w[0], left, pos);
        WithoutTwice(left, pos, q);
        var u := DropOne(l, w[1..], Without(left, q));
        w' := [w[0]] + u;
        assert w'[1..] == u;
      }
    }
  }

  /** Of all the choices of leaves that run in that order, the greedy one takes the most. */
  lemma {:induction false} GreedyTakesMost(ls: seq<Leaf>, w: seq<Leaf>, left: seq<Leaf>)
    requires Subsequence(w, ls) && Run(w, left).Just?
    ensures |Greedy(ls, left)| + |w| <= |left|
    decreases |ls|
  {
    if ls != [] {
      var skipped := Subsequence(w, ls[1..]);
      if SingleMatch(ls[0], left).Nothing? {
        assert w == [] || skipped;
        GreedyTakesMost(ls[1..], w, left);
      } else {
        var rest := Without(left, Candidate(ls[0], left));
        assert MatchLeaf(ls[0], left, []).left == rest;
        if skipped {
          var w' := DropOne(ls[0], w, left);
          SubsequenceTrans(w', w, ls[1..]);
          GreedyTakesMost(ls[1..], w', rest);
        } else {
          GreedyTakesMost(ls[1..], w[1..], rest);
        }
      }
    }
  }

  /** Matching a pattern of optional leaves is the greedy way through them. */
  lemma {:induction false} LooseMatch(p: Pattern<Leaf>, left: seq<Leaf>, collected: seq<Leaf>)
    requires Matchable(p) && Loose(p)
    ensures Match(p, left, collected).matched && Match(p, left, collected).left == Greedy(Flat(p), left)
    decreases p, 0
  {
    match p
    case Branch(Required, ps) => LooseMatchAll(ps, left, collected);
    case Branch(Optional, ps) => LooseMatchAny(ps, left, collected);
    case Branch(OptionsShortcut, ps) => LooseMatchAny(ps, left, collected);
  }

  lemma {:induction false} LooseMatchAll(ps: seq<Pattern<Leaf>>, left: seq<Leaf>, collected: seq<Leaf>)
    requires AllMatchable(ps) && AllLoose(ps)
    ensures MatchAll(ps, left, collected).matched
    ensures MatchAll(ps, left, collected).left == Greedy(FlatAll(ps), left)
    decreases ps, 1
  {
    if ps != [] {
      LooseMatch(ps[0], left, collected);
      var r := Match(ps[0], left, collected);
      LooseMatchAll(ps[1..], r.left, r.collected);
      GreedyAppend(Flat(ps[0]), FlatAll(ps[1..]), left);
    }
  }

  lemma {:induction false} LooseMatchAny(ps: seq<Pattern<Leaf>>, left: seq<Leaf>, collected: seq<Leaf>)
    requires AllMatchable(ps) && AllOptional(ps)
    ensures MatchAny(ps, left, collected).matched
    ensures MatchAny(ps, left, collected).left == Greedy(FlatAll(ps), left)
    decreases ps, 1
  {
    if ps != [] {
      var r := Match(ps[0], left, collected);
      if ps[0].Tip? {
        var l := ps[0].leaf;
        assert r.left == MatchLeaf(l, left, []).left;
        assert [l][1..] == [] && Greedy([l], left) == r.left;
      } else {
        LooseMatch(ps[0], left, collected);
      }
      LooseMatchAny(ps[1..], r.left, r.collected);
      GreedyAppend(Flat(ps[0]), FlatAll(ps[1..]), left);
    }
  }

  lemma {:induction false} SubsequenceAppend(v: seq<Leaf>, xs: seq<Leaf>, u: seq<Leaf>, ys: seq<Leaf>)
    requires Subsequence(v, xs) && Subsequence(u, ys)
    ensures Subsequence(v + u, xs + ys)
    decreases |xs|
  {
    if xs == [] {
      assert v + u == u && xs + ys == ys;
    } else {
      assert (xs + ys)[1..] == xs[1..] + ys;
      if v == [] {
        SubsequenceAppend(v, xs[1..], u, ys);
      } else if v[0] == xs[0] && Subsequence(v[1..], xs[1..]) {
        SubsequenceAppend(v[1..], xs[1..], u, ys);
        assert (v + u)[1..] == v[1..] + u;
      } else {
        SubsequenceAppend(v, xs[1..], u, ys);
      }
    }
  }

  /** A word leaves leaves out, and that is all. */
  lemma {:induction false} LooseWord(p: Pattern<Leaf>, w: seq<Leaf>)
    requires Loose(p) && Word(ITSELF, p, w)
    ensures Subsequence(w, Flat(p))
    decreases p, 0
  {
    match p
    case Branch(Required, ps) => LooseSequence(ps, w);
    case Branch(Optional, ps) => LooseOptions(ps, w);
    case Branch(OptionsShortcut, ps) => LooseOptions(ps, w);
  }

  lemma {:induction false} LooseSequence(ps: seq<Pattern<Leaf>>, w: seq<Leaf>)
    requires AllLoose(ps) && Sequence(ITSELF, ps, w)
    ensures Subsequence(w, FlatAll(ps))
    decreases ps, 1
  {
    if ps != [] {
      var v, u := SequenceSplit(ps, w);
      LooseWord(ps[0], v);
      LooseSequence(ps[1..], u);
      SubsequenceAppend(v, Flat(ps[0]), u, FlatAll(ps[1..]));
    }
  }

  lemma {:induction false} LooseOptions(ps: seq<Pattern<Leaf>>, w: seq<Leaf>)
    requires AllOptional(ps) && Options(ITSELF, ps, w)
    ensures Subsequence(w, FlatAll(ps))
    decreases ps, 1
  {
    if ps != [] {
      var v, u := OptionsSplit(ps, w);
      if v != [] && ps[0].Tip? {
        TipWord(ps[0].leaf, v);
        SubsequenceRefl(v);
      } else if v != [] {
        LooseWord(ps[0], v);
      }
      LooseOptions(ps[1..], u);
      SubsequenceAppend(v, Flat(ps[0]), u, FlatAll(ps[1..]));
    }
  }

  // ----- No word takes more than the match -----

  /** p matches and takes at least n elements. */
  ghost predicate TakesAtLeast(r: Outcome, left: seq<Leaf>, n: nat) {
    r.matched && |r.left| + n <= |left|
  }

  lemma RunLength(w: seq<Leaf>, left: seq<Leaf>)
    requires Run(w, left).Just?
    ensures |left| == |w| + |Run(w, left).value.1|
  {
    RunTakes(w, left);
  }

  lemma {:induction false} MatchTakesMost(p: Pattern<Leaf>, w: seq<Leaf>, vector: bool, left: seq<Leaf>,
                                          collected: seq<Leaf>)
    requires Matchable(p) && Thorough(p, vector) && (vector ==> ArgumentVector(left))
    requires Word(ITSELF, p, w) && Run(w, left).Just?
    ensures TakesAtLeast(Match(p, left, collected), left, |w|)
    decreases p, 0
  {
    match p
    case Tip(_) =>
      FirstExact(p, w, left, collected);
      RunLength(w, left);
    case Branch(Required, ps) => SequenceTakesMost(ps, w, vector, left, collected);
    case Branch(OneOrMore, ps) =>
      var n: nat :| n >= 1 && Repeated(ITSELF, ps, n, w);
      RepeatedTimes(ps, n, w);
      LoopTakesMost(ps[0], n, w, left, collected);
    case Branch(Either, ps) =>
      var i :| 0 <= i < |ps| && Word(ITSELF, ps[i], w);
      MatchTakesMost(ps[i], w, vector, left, collected);
      OutcomesHave(ps, i, left, collected);
    case Branch(_, ps) => OptionsTakeMost(ps, w, vector, left, collected);
  }

  /** After p has taken what it can, the rest of the word still runs. */
  lemma RestRunsOn(p: Pattern<Leaf>, rest: seq<Pattern<Leaf>>, v: seq<Leaf>, u: seq<Leaf>, left: seq<Leaf>,
                   collected: seq<Leaf>)
    requires Matchable(p) && Apart(p, rest) && ArgumentVector(left)
    requires Within(v, Flat(p)) && Within(u, FlatAll(rest)) && Run(v + u, left).Just?
    ensures Run(u, Match(p, left, collected).left).Just? && ArgumentVector(Match(p, left, collected).left)
  {
    RunAppend(v, u, left);
    RestRunsAfterMatch(p, rest, v, u, left, collected);
    MatchKeepsVector(p, left, collected);
  }

  lemma OptionsSplit(ps: seq<Pattern<Leaf>>, w: seq<Leaf>) returns (v: seq<Leaf>, u: seq<Leaf>)
    requires ps != [] && Options(ITSELF, ps, w)
    ensures w == v + u && (v == [] || Word(ITSELF, ps[0], v)) && Options(ITSELF, ps[1..], u)
    ensures Within(v, Flat(ps[0])) && Within(u, FlatAll(ps[1..]))
  {
    var k :| 0 <= k <= |w| && (k == 0 || Word(ITSELF, ps[0], w[..k])) && Options(ITSELF, ps[1..], w[k..]);
    v, u := w[..k], w[k..];
    forall l | l in v ensures l in Flat(ps[0]) {
      WordWithin(ps[0], v, l);
    }
    forall l | l in u ensures l in FlatAll(ps[1..]) {
      OptionsWithin(ps[1..], u, l);
    }
  }

  lemma {:induction false} SequenceTakesMost(ps: seq<Pattern<Leaf>>, w: seq<Leaf>, vector: bool, left: seq<Leaf>,
                                             collected: seq<Leaf>)
    requires AllMatchable(ps) && ThoroughSequence(ps, vector) && (vector ==> ArgumentVector(left))
    requires Sequence(ITSELF, ps, w) && Run(w, left).Just?
    ensures TakesAtLeast(MatchAll(ps, left, collected), left, |w|)
    decreases ps, 1
  {
    if AllLoose(ps) {
      LooseMatchAll(ps, left, collected);
      LooseSequence(ps, w);
      GreedyTakesMost(FlatAll(ps), w, left);
    } else {
      var v, u := SequenceSplit(ps, w);
      RunAppend(v, u, left);
      var r := Match(ps[0], left, collected);
      if ChoiceFree(ps[0]) && ThoroughSequence(ps[1..], vector) {
        FirstExact(ps[0], v, left, collected);
        RunLength(v, left);
        if vector {
          MatchKeepsVector(ps[0], left, collected);
        }
        SequenceTakesMost(ps[1..], u, vector, r.left, r.collected);
      } else {
        MatchTakesMost(ps[0], v, vector, left, collected);
        if ps[1..] != [] {
          RestRunsOn(ps[0], ps[1..], v, u, left, collected);
          SequenceTakesMost(ps[1..], u, vector, r.left, r.collected);
        }
      }
    }
  }

  lemma {:induction false} OptionsTakeMost(ps: seq<Pattern<Leaf>>, w: seq<Leaf>, vector: bool, left: seq<Leaf>,
                                           collected: seq<Leaf>)
    requires AllMatchable(ps) && ThoroughOptions(ps, vector) && (vector ==> ArgumentVector(left))
    requires Options(ITSELF, ps, w) && Run(w, left).Just?
    ensures TakesAtLeast(MatchAny(ps, left, collected), left, |w|)
    decreases ps, 1
  {
    if AllOptional(ps) {
      LooseMatchAny(ps, left, collected);
      LooseOptions(ps, w);
      GreedyTakesMost(FlatAll(ps), w, left);
    } else {
      var v, u := OptionsSplit(ps, w);
      RunAppend(v, u, left);
      var r := Match(ps[0], left, collected);
      if v != [] {
        MatchTakesMost(ps[0], v, vector, left, collected);
      }
      if ps[1..] != [] {
        RestRunsOn(ps[0], ps[1..], v, u, left, collected);
        OptionsTakeMost(ps[1..], u, vector, r.left, r.collected);
      }
    }
  }

  lemma {:induction false} RepeatedTimes(ps: seq<Pattern<Leaf>>, n: nat, w: seq<Leaf>)
    requires |ps| == 1 && Repeated(ITSELF, ps, n, w)
    ensures Times(ps[0], n, w)
    decreases n
  {
    if n > 0 {
      var k :| 0 <= k <= |w| && Sequence(ITSELF, ps, w[..k]) && Repeated(ITSELF, ps, n - 1, w[k..]);
      assert ps == [ps[0]];
      SequenceOne(ps[0], w[..k]);
      RepeatedTimes(ps, n - 1, w[k..]);
    }
  }

  lemma FirstTurn(p: Pattern<Leaf>, n: nat, w: seq<Leaf>) returns (v: seq<Leaf>, u: seq<Leaf>)
    requires n > 0 && Times(p, n, w)
    ensures w == v + u && Word(ITSELF, p, v) && Times(p, n - 1, u)
  {
    var k :| 0 <= k <= |w| && Word(ITSELF, p, w[..k]) && Times(p, n - 1, w[k..]);
    v, u := w[..k], w[k..];
  }

  /** p has no word that takes anything from what is left. */
  ghost predicate Exhausted(p: Pattern<Leaf>, left: seq<Leaf>) {
    forall v | Word(ITSELF, p, v) && Run(v, left).Just? :: v == []
  }

  /** Two words of a pattern without choices take the same. */
  lemma SameTurn(p: Pattern<Leaf>, v: seq<Leaf>, v': seq<Leaf>, left: seq<Leaf>)
    requires Matchable(p) && ChoiceFree(p) && Word(ITSELF, p, v) && Word(ITSELF, p, v')
    requires Run(v, left).Just? && Run(v', left).Just?
    ensures |v| == |v'| && Run(v, left).value.1 == Run(v', left).value.1
  {
    FirstExact(p, v, left, []);
    FirstExact(p, v', left, []);
    RunLength(v, left);
    RunLength(v', left);
  }

  /** The word of m turns runs. */
  ghost predicate Turns(p: Pattern<Leaf>, m: nat, w: seq<Leaf>, left: seq<Leaf>) {
    Times(p, m, w) && Run(w, left).Just?
  }

  /** It runs and leaves nothing to take. */
  ghost predicate LastTurns(p: Pattern<Leaf>, m: nat, w: seq<Leaf>, left: seq<Leaf>) {
    Turns(p, m, w, left) && Exhausted(p, Run(w, left).value.1)
  }

  lemma TurnOff(p: Pattern<Leaf>, m: nat, w: seq<Leaf>, left: seq<Leaf>) returns (v: seq<Leaf>, u: seq<Leaf>)
    requires m > 0 && Turns(p, m, w, left)
    ensures w == v + u && Word(ITSELF, p, v) && Run(v, left).Just? && Turns(p, m - 1, u, Run(v, left).value.1)
    ensures LastTurns(p, m, w, left) ==> LastTurns(p, m - 1, u, Run(v, left).value.1)
  {
    v, u := FirstTurn(p, m, w);
    RunAppend(v, u, left);
  }

  lemma NoTurns(p: Pattern<Leaf>, w: seq<Leaf>, left: seq<Leaf>, v: seq<Leaf>)
    requires LastTurns(p, 0, w, left) && Word(ITSELF, p, v) && Run(v, left).Just?
    ensures v == []
  {
    assert w == [] && Run(w, left).value.1 == left;
  }

  /** The first turns of two words take the same. */
  lemma TurnBoth(p: Pattern<Leaf>, n: nat, w: seq<Leaf>, m: nat, ls: seq<Leaf>, left: seq<Leaf>)
    returns (u: seq<Leaf>, u': seq<Leaf>, rest: seq<Leaf>)
    requires Matchable(p) && ChoiceFree(p) && n > 0 && m > 0 && Turns(p, n, w, left) && LastTurns(p, m, ls, left)
    ensures Turns(p, n - 1, u, rest) && LastTurns(p, m - 1, u', rest) && |w| - |u| == |ls| - |u'|
  {
    var v, v';
    v, u := TurnOff(p, n, w, left);
    v', u' := TurnOff(p, m, ls, left);
    SameTurn(p, v, v', left);
    rest := Run(v, left).value.1;
  }

  /** Turns until nothing more can be taken take at least as much as any number of turns that runs. */
  lemma {:induction false} TurnsTakeMost(p: Pattern<Leaf>, n: nat, w: seq<Leaf>, m: nat, ls: seq<Leaf>, left: seq<Leaf>)
    requires Matchable(p) && ChoiceFree(p) && Turns(p, n, w, left) && LastTurns(p, m, ls, left)
    ensures |w| <= |ls|
    decreases n
  {
    if n > 0 {
      if m == 0 {
        var v, u := TurnOff(p, n, w, left);
        NoTurns(p, ls, left, v);
        TurnsTakeMost(p, n - 1, u, m, ls, left);
      } else {
        var u, u', rest := TurnBoth(p, n, w, m, ls, left);
        TurnsTakeMost(p, n - 1, u, m - 1, u', rest);
      }
    }
  }

  lemma LoopExhausts(p: Pattern<Leaf>, left: seq<Leaf>, collected: seq<Leaf>)
    requires Matchable(p) && ChoiceFree(p)
    ensures Exhausted(p, MatchLoop(p, Nothing, left, collected, 0).left)
  {
    var r := MatchLoop(p, Nothing, left, collected, 0);
    LoopFixedPoint(p, Nothing, left, collected, 0);
    forall v | Word(ITSELF, p, v) && Run(v, r.left).Just? ensures v == [] {
      FirstExact(p, v, r.left, r.collected);
      RunLength(v, r.left);
    }
  }

  lemma LoopTakesMost(p: Pattern<Leaf>, n: nat, w: seq<Leaf>, left: seq<Leaf>, collected: seq<Leaf>)
    requires Matchable(p) && ChoiceFree(p) && Times(p, n, w) && n > 0 && Run(w, left).Just?
    ensures TakesAtLeast(MatchLoop(p, Nothing, left, collected, 0), left, |w|)
  {
    var v, u := FirstTurn(p, n, w);
    RunAppend(v, u, left);
    FirstExact(p, v, left, collected);
    LoopFixedPoint(p, Nothing, left, collected, 0);
    var m, ls := LoopRuns(p, Nothing, left, collected, 0);
    MatchWordIsRun(ls, left, collected);
    LoopExhausts(p, left, collected);
    TurnsTakeMost(p, n, w, m, ls, left);
    RunLength(ls, left);
  }

  /** Matching such a pattern leaves no more than running any of its words. */
  lemma LeavesLeast(p: Pattern<Leaf>, w: seq<Leaf>, vector: bool, left: seq<Leaf>, collected: seq<Leaf>)
    requires Matchable(p) && Thorough(p, vector) && (vector ==> ArgumentVector(left))
    requires Word(ITSELF, p, w) && MatchWord(w, left, collected).matched
    ensures var r := Match(p, left, collected);
      r.matched && |r.left| <= |MatchWord(w, left, collected).left|
  {
    MatchWordIsRun(w, left, collected);
    RunLength(w, left);
    MatchTakesMost(p, w, vector, left, collected);
  }

  lemma AcceptedDescribed(p: Pattern<Leaf>, left: seq<Leaf>)
    requires Matchable(p) && Accepts(p, left)
    ensures Described(p, left)
  {
    var w := MatchRuns(p, left, []);
    MatchWordIsRun(w, left, []);
    assert UsesAll(w, left);
  }

  /** docopt accepts exactly the arguments that some word of such a pattern describes. */
  lemma AcceptsIff(p: Pattern<Leaf>, vector: bool, left: seq<Leaf>)
    requires Matchable(p) && Thorough(p, vector) && (vector ==> ArgumentVector(left))
    ensures Accepts(p, left) <==> Described(p, left)
  {
    if Accepts(p, left) {
      AcceptedDescribed(p, left);
    } else if w :| Word(ITSELF, p, w) && UsesAll(w, left) {
      RunLength(w, left);
      MatchTakesMost(p, w, vector, left, []);
    }
  }

  // ----- Patterns that are not thorough -----

  /** On every argument vector, docopt accepts what the pattern describes. */
  ghost predicate AcceptsEvery(p: Pattern<Leaf>)
    requires Matchable(p)
  {
    forall left | ArgumentVector(left) :: Accepts(p, left) <==> Described(p, left)
  }

  /** l takes x when it comes to it. */
  predicate CanTake(l: Leaf, x: Leaf) {
    Picks(l, x) && (l.Command? ==> x.value == Str(l.cmdName))
  }

  lemma TakersCompete(a: Leaf, b: Leaf, x: Leaf)
    requires CanTake(a, x) && CanTake(b, x) && (x.Option? || (x.Argument? && x.argName == Nothing))
    requires (a.Option? ==> a.Name() != Nothing) && (b.Option? ==> b.Name() != Nothing)
    ensures Compete(a, b)
  {
  }

  lemma OneTaker(a: Leaf, b: Leaf, x: Leaf)
    requires !Compete(a, b) && CanTake(b, x) && (x.Option? || (x.Argument? && x.argName == Nothing))
    requires (a.Option? ==> a.Name() != Nothing) && (b.Option? ==> b.Name() != Nothing)
    ensures !CanTake(a, x)
  {
  }

  lemma RunOne(l: Leaf, left: seq<Leaf>)
    ensures Run([l], left).Just? <==> SingleMatch(l, left).Just?
    ensures SingleMatch(l, left).Just? ==> CanTake(l, left[Candidate(l, left)])
    ensures SingleMatch(l, left).Just? ==>
      Run([l], left).value.1 == MatchLeaf(l, left, []).left == Without(left, Candidate(l, left))
  {
    assert [l][1..] == [];
  }

  lemma RunTwo(l: Leaf, m: Leaf, left: seq<Leaf>)
    ensures Run([l, m], left).Just? <==>
      SingleMatch(l, left).Just? && SingleMatch(m, MatchLeaf(l, left, []).left).Just?
    ensures Run([l, m], left).Just? ==>
      Run([l, m], left).value.1 == MatchLeaf(m, MatchLeaf(l, left, []).left, []).left
  {
    assert [l, m] == [l] + [m];
    RunAppend([l], [m], left);
    RunOne(l, left);
    if SingleMatch(l, left).Just? {
      RunOne(m, MatchLeaf(l, left, []).left);
    }
  }

  /** A leaf that takes x takes it out of [x]. */
  lemma TakesOnly(l: Leaf, x: Leaf)
    requires CanTake(l, x)
    ensures SingleMatch(l, [x]).Just? && MatchLeaf(l, [x], []).left == []
  {
    CandidateFirst(l, [x], 0);
    RunOne(l, [x]);
  }

  lemma TakesFirst(l: Leaf, x: Leaf, y: Leaf)
    requires CanTake(l, x)
    ensures SingleMatch(l, [x, y]).Just? && MatchLeaf(l, [x, y], []).left == [y]
  {
    CandidateFirst(l, [x, y], 0);
    RunOne(l, [x, y]);
  }

  /** The match of `[a] b` that is missed is missed by docopt, and no other is. */
  lemma OptionalThenAccepts(a: Leaf, b: Leaf)
    requires Matchable(OptionalThen(a, b)) && Named([a, b])
    ensures AcceptsEvery(OptionalThen(a, b)) <==> !Compete(a, b)
  {
    var p := OptionalThen(a, b);
    if Compete(a, b) {
      var left := [Contested(a, b)];
      ContestedTaken(a, b);
      OptionalThenMatch(a, b, left);
      OptionalThenWords(a, b, [b]);
      RunOne(b, left);
      assert Word(ITSELF, p, [b]) && UsesAll([b], left);
      assert ArgumentVector(left) && !Accepts(p, left) && Described(p, left);
    } else {
      forall left | ArgumentVector(left) ensures Accepts(p, left) <==> Described(p, left) {
        if Accepts(p, left) {
          AcceptedDescribed(p, left);
        } else if w :| Word(ITSELF, p, w) && UsesAll(w, left) {
          OptionalThenAll(a, b, w, left);
        }
      }
    }
  }

  lemma OptionalThenAll(a: Leaf, b: Leaf, w: seq<Leaf>, left: seq<Leaf>)
    requires Matchable(OptionalThen(a, b)) && Named([a, b]) && !Compete(a, b) && ArgumentVector(left)
    requires Word(ITSELF, OptionalThen(a, b), w) && UsesAll(w, left)
    ensures Accepts(OptionalThen(a, b), left)
  {
    OptionalThenWords(a, b, w);
    OptionalThenMatch(a, b, left);
    RunLength(w, left);
    if w == [b] {
      RunOne(b, left);
      RunOne(a, left);
      assert [a, b][0] == a && [a, b][1] == b;
      OneTaker(a, b, left[0]);
    } else {
      RunTwo(a, b, left);
    }
  }

  /** [a] [(b c)] */
  function OptionalGroup(a: Leaf, b: Leaf, c: Leaf): Pattern<Leaf> {
    Branch(Required, [Branch(Optional, [Tip(a)]), Branch(Optional, [Branch(Required, [Tip(b), Tip(c)])])])
  }

  /** a can take what the group needs: what b would take, or what c would while b takes something else. */
  predicate Contend(a: Leaf, b: Leaf, c: Leaf) {
    Compete(a, b) || (Compete(a, c) && (a.Option? || b.Option?))
  }

  lemma GroupWord(b: Leaf, c: Leaf, w: seq<Leaf>)
    ensures Word(ITSELF, Branch(Required, [Tip(b), Tip(c)]), w) <==> w == [b, c]
  {
    var ps := [Tip(b), Tip(c)];
    assert ps[1..] == [Tip(c)];
    if Sequence(ITSELF, ps, w) {
      var v, u := SequenceSplit(ps, w);
      TipWord(b, v);
      SequenceOne(Tip(c), u);
      TipWord(c, u);
    }
    if w == [b, c] {
      TipWord(b, w[..1]);
      SequenceOne(Tip(c), w[1..]);
      TipWord(c, w[1..]);
      assert Word(ITSELF, ps[0], w[..1]) && Sequence(ITSELF, ps[1..], w[1..]);
    }
  }

  lemma OptionalWords(p: Pattern<Leaf>, q: Pattern<Leaf>, w: seq<Leaf>)
    returns (v: seq<Leaf>, u: seq<Leaf>)
    requires Word(ITSELF, Branch(Required, [Branch(Optional, [p]), Branch(Optional, [q])]), w)
    ensures w == v + u && (v == [] || Word(ITSELF, p, v)) && (u == [] || Word(ITSELF, q, u))
  {
    var ps := [Branch(Optional, [p]), Branch(Optional, [q])];
    assert ps[1..] == [ps[1]];
    v, u := SequenceSplit(ps, w);
    OptionsOne(p, v);
    SequenceOne(ps[1], u);
    OptionsOne(q, u);
  }

  lemma GroupIsWord(a: Leaf, b: Leaf, c: Leaf)
    ensures Word(ITSELF, OptionalGroup(a, b, c), [b, c])
  {
    var group := Branch(Required, [Tip(b), Tip(c)]);
    var ps, w := OptionalGroup(a, b, c).children, [b, c];
    GroupWord(b, c, w);
    OptionsOne(Tip(a), []);
    OptionsOne(group, w);
    assert ps[1..] == [ps[1]];
    SequenceOne(ps[1], w);
    assert w[..0] == [] && w[0..] == w && Word(ITSELF, ps[0], w[..0]) && Sequence(ITSELF, ps[1..], w[0..]);
  }

  lemma OptionalOne(p: Pattern<Leaf>, left: seq<Leaf>, collected: seq<Leaf>)
    requires Matchable(p)
    ensures Matchable(Branch(Optional, [p]))
    ensures var r := Match(Branch(Optional, [p]), left, collected);
      r.matched && r.left == Match(p, left, collected).left
  {
    var ps := [p];
    var r := Match(ps[0], left, collected);
    assert ps[1..] == [] && MatchAny(ps, left, collected) == MatchAny(ps[1..], r.left, r.collected);
    assert Match(Branch(Optional, ps), left, collected) == MatchAny(ps, left, collected);
  }

  lemma GroupMatches(b: Leaf, c: Leaf, left: seq<Leaf>, collected: seq<Leaf>)
    requires Matchable(Branch(Required, [Tip(b), Tip(c)]))
    ensures Match(Branch(Required, [Tip(b), Tip(c)]), left, collected).left ==
      if Run([b, c], left).Just? then Run([b, c], left).value.1 else left
  {
    var p := Branch(Required, [Tip(b), Tip(c)]);
    GroupWord(b, c, [b, c]);
    if Run([b, c], left).Just? {
      assert ChoiceFree(Tip(b)) && ChoiceFree(Tip(c));
      FirstExact(p, [b, c], left, collected);
    } else if Match(p, left, collected).matched {
      var w := MatchRuns(p, left, collected);
      GroupWord(b, c, w);
      MatchWordIsRun(w, left, collected);
    } else {
      FailureRestores(p, left, collected);
    }
  }

  lemma OptionalGroupMatch(a: Leaf, b: Leaf, c: Leaf, left: seq<Leaf>)
    requires Matchable(OptionalGroup(a, b, c))
    ensures var r := Match(OptionalGroup(a, b, c), left, []);
      var rest := MatchLeaf(a, left, []).left;
      r.matched && r.left == if Run([b, c], rest).Just? then Run([b, c], rest).value.1 else rest
  {
    var ps := OptionalGroup(a, b, c).children;
    assert Matchable(ps[0]) && Matchable(ps[1]);
    assert Matchable(ps[0].children[0]) && Matchable(ps[1].children[0]);
    OptionalOne(Tip(a), left, []);
    var r := Match(ps[0], left, []);
    OptionalOne(ps[1].children[0], r.left, r.collected);
    GroupMatches(b, c, r.left, r.collected);
    var s := Match(ps[1], r.left, r.collected);
    assert ps[1..] == [ps[1]] && [ps[1]][1..] == [];
    assert MatchAll([ps[1]], r.left, r.collected) == MatchAll([], s.left, s.collected);
    assert MatchAll(ps, left, []) == MatchAll([ps[1]], r.left, r.collected);
  }

  /** Exactly when docopt rejects arguments that `[a] [(b c)]` describes. */
  lemma OptionalGroupIff(a: Leaf, b: Leaf, c: Leaf)
    requires Matchable(OptionalGroup(a, b, c)) && Named([a, b, c])
    ensures AcceptsEvery(OptionalGroup(a, b, c)) <==> !Contend(a, b, c)
  {
    var p := OptionalGroup(a, b, c);
    if Contend(a, b, c) {
      var left := GroupMissed(a, b, c);
    } else {
      forall left | ArgumentVector(left) ensures Accepts(p, left) <==> Described(p, left) {
        if Accepts(p, left) {
          AcceptedDescribed(p, left);
        } else if w :| Word(ITSELF, p, w) && UsesAll(w, left) {
          OptionalGroupAll(a, b, c, w, left);
        }
      }
    }
  }

  lemma ContestedByBoth(a: Leaf, b: Leaf)
    requires Compete(a, b)
    ensures CanTake(a, Contested(a, b)) && CanTake(b, Contested(a, b)) && ArgumentVector([Contested(a, b)])
    ensures Contested(a, b).Option? == b.Option?
  {
  }

  /** Arguments of which a takes one that the group needs. */
  lemma GroupMissed(a: Leaf, b: Leaf, c: Leaf) returns (left: seq<Leaf>)
    requires Matchable(OptionalGroup(a, b, c)) && Contend(a, b, c)
    ensures ArgumentVector(left) && !Accepts(OptionalGroup(a, b, c), left) && Described(OptionalGroup(a, b, c), left)
  {
    var x := if Compete(a, b) then Contested(a, b) else Contested(b, b);
    var y := if Compete(a, b) then Contested(c, c) else Contested(a, c);
    left := [x, y];
    ContestedByBoth(if Compete(a, b) then a else b, b);
    ContestedByBoth(if Compete(a, b) then c else a, c);
    assert [x][0] == x && [y][0] == y;
    TakesEither(a, x, y);
    GroupUsesBoth(a, b, c, x, y);
    OneTooFew(a, b, c, left);
  }

  lemma TakesEither(a: Leaf, x: Leaf, y: Leaf)
    requires CanTake(a, x) || (CanTake(a, y) && !Picks(a, x))
    ensures SingleMatch(a, [x, y]).Just?
  {
    if CanTake(a, x) {
      TakesFirst(a, x, y);
    } else {
      CandidateFirst(a, [x, y], 1);
    }
  }

  lemma GroupUsesBoth(a: Leaf, b: Leaf, c: Leaf, x: Leaf, y: Leaf)
    requires CanTake(b, x) && CanTake(c, y)
    ensures Described(OptionalGroup(a, b, c), [x, y])
  {
    TakesFirst(b, x, y);
    TakesOnly(c, y);
    RunTwo(b, c, [x, y]);
    GroupIsWord(a, b, c);
    assert UsesAll([b, c], [x, y]);
  }

  lemma OneTooFew(a: Leaf, b: Leaf, c: Leaf, left: seq<Leaf>)
    requires Matchable(OptionalGroup(a, b, c)) && |left| == 2 && SingleMatch(a, left).Just?
    ensures !Accepts(OptionalGroup(a, b, c), left)
  {
    var rest := MatchLeaf(a, left, []).left;
    OptionalGroupMatch(a, b, c, left);
    if Run([b, c], rest).Just? {
      RunLength([b, c], rest);
    }
  }

  lemma OwnGroupMissed(a: Leaf, b: Leaf)
    requires a.Option? && b.Option? && !a.value.Int? && !a.value.List? && !b.value.Int? && !b.value.List?
    ensures var p := OptionalGroup(a, a, b);
      ArgumentVector([a, b]) && Matchable(p) && Described(p, [a, b]) && !Accepts(p, [a, b])
  {
    GroupUsesBoth(a, a, b, a, b);
    TakesFirst(a, a, b);
    var group := Branch(Required, [Tip(a), Tip(b)]);
    assert Matchable(Tip(a)) && Matchable(Tip(b)) && Matchable(group);
    OptionalOne(Tip(a), [], []);
    OptionalOne(group, [], []);
    OneTooFew(a, a, b, [a, b]);
  }

  const DASH_A := Option(Just("-a"), Nothing, 0, Bool(true))
  const DASH_B := Option(Just("-b"), Nothing, 0, Bool(true))

  /** `[-a] [(-a -b)]` describes -a -b, but -a is gone when its turn in the group comes. */
  lemma GroupMisses()
    ensures var p := OptionalGroup(DASH_A, DASH_A, DASH_B);
      ArgumentVector([DASH_A, DASH_B]) && Matchable(p) && Described(p, [DASH_A, DASH_B]) &&
        !Accepts(p, [DASH_A, DASH_B])
  {
    OwnGroupMissed(DASH_A, DASH_B);
  }

  lemma OptionalGroupAll(a: Leaf, b: Leaf, c: Leaf, w: seq<Leaf>, left: seq<Leaf>)
    requires Matchable(OptionalGroup(a, b, c)) && Named([a, b, c]) && !Contend(a, b, c) && ArgumentVector(left)
    requires Word(ITSELF, OptionalGroup(a, b, c), w) && UsesAll(w, left)
    ensures Accepts(OptionalGroup(a, b, c), left)
  {
    var v, u := OptionalWords(Tip(a), Branch(Required, [Tip(b), Tip(c)]), w);
    TipWord(a, v);
    GroupWord(b, c, u);
    OptionalGroupMatch(a, b, c, left);
    RunLength(w, left);
    RunAppend(v, u, left);
    RunOne(a, left);
    var rest := MatchLeaf(a, left, []).left;
    if Run([b, c], rest).Just? {
      RunLength([b, c], rest);
    }
    if v == [] && u == [b, c] && SingleMatch(a, left).Just? {
      RunTwo(b, c, left);
      NothingContested(a, b, c, left);
    }
  }

  /** Of two elements, c takes the one that b leaves. */
  lemma TakesOther(b: Leaf, c: Leaf, left: seq<Leaf>, pos: nat)
    requires |left| == 2 && SingleMatch(b, left).Just? && SingleMatch(c, MatchLeaf(b, left, []).left).Just?
    requires pos < 2
    ensures CanTake(if pos == Candidate(b, left) then b else c, left[pos])
  {
    RunOne(b, left);
    if pos != Candidate(b, left) {
      var rest := [left[pos]];
      assert MatchLeaf(b, left, []).left == rest;
      RunOne(c, rest);
    }
  }

  /** a takes nothing of two elements that b and c take. */
  lemma NothingContested(a: Leaf, b: Leaf, c: Leaf, left: seq<Leaf>)
    requires Named([a, b, c]) && ArgumentVector(left) && |left| == 2 && SingleMatch(a, left).Just?
    requires SingleMatch(b, left).Just? && SingleMatch(c, MatchLeaf(b, left, []).left).Just?
    ensures Contend(a, b, c)
  {
    assert [a, b, c][0] == a && [a, b, c][1] == b && [a, b, c][2] == c;
    var pos := Candidate(a, left);
    RunOne(a, left);
    TakesOther(b, c, left, pos);
    TakersCompete(a, if pos == Candidate(b, left) then b else c, left[pos]);
  }

  // ----- Usages -----

  lemma AlternativesThorough(ps: seq<Pattern<Leaf>>, vector: bool)
    requires forall i :: 0 <= i < |ps| ==> Thorough(ps[i], vector)
    ensures Thorough(Branch(Required, [Branch(Either, ps)]), vector)
  {
    assert [Branch(Either, ps)][1..] == [];
  }

  lemma ThoroughBeforePositional(p: Pattern<Leaf>, x: Leaf)
    requires !x.Option? && forall l | l in Flat(p) :: l.Option? && l.Name() != Nothing
    requires Thorough(p, true)
    ensures Thorough(Branch(Required, [p, Tip(x)]), true)
  {
    FlatOne(x);
    assert [p, Tip(x)][1..] == [Tip(x)] && [Tip(x)][1..] == [];
    assert OptionNames([Tip(x)]) == {} && Apart(p, [Tip(x)]);
    assert ThoroughSequence([Tip(x)], true);
  }

  lemma ShortcutThorough(shown: seq<Pattern<Leaf>>)
    requires forall i :: 0 <= i < |shown| ==> shown[i].Tip?
    ensures var p := Branch(Optional, [Branch(OptionsShortcut, shown)]);
      Thorough(p, true) && Flat(p) == FlatAll(shown)
  {
    var shortcut := Branch(OptionsShortcut, shown);
    assert AllOptional(shown) && [shortcut][1..] == [];
    assert FlatAll([shortcut]) == Flat(shortcut) + [] == FlatAll(shown);
    assert ThoroughOptions([shortcut], true);
  }

  /** Usages like `<IP#> [--edge=<i>] [--sfd=<i>] [--del=<f>]`, which have any optional leaves behind a
      required one, are thorough; and so is `[options] <file>` on an argument vector. */
  lemma UsagesThorough(x: Leaf, tail: seq<Pattern<Leaf>>, shown: seq<Pattern<Leaf>>)
    requires AllLoose(tail) && (forall i :: 0 <= i < |shown| ==> shown[i].Tip?)
    requires !x.Option? && forall l | l in FlatAll(shown) :: l.Option? && l.Name() != Nothing
    ensures Thorough(Branch(Required, [Tip(x)] + tail), false)
    ensures Thorough(Branch(Required, [Branch(Optional, [Branch(OptionsShortcut, shown)]), Tip(x)]), true)
  {
    assert ([Tip(x)] + tail)[1..] == tail;
    ShortcutThorough(shown);
    ThoroughBeforePositional(Branch(Optional, [Branch(OptionsShortcut, shown)]), x);
  }
}
