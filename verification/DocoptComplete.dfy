/**
 When the greedy matcher of sw/ab_cal_scripts/lib/docopt.py finds a match whenever there is one.
 */
module DocoptComplete {
  import opened DocoptMatch
  import opened DocoptPattern
  import opened Wrappers
  import opened DocoptSound

  /** One word only. */
  predicate ChoiceFree(p: Pattern<Leaf>)
    decreases p
  {
    match p
    case Tip(_) => true
    case Branch(k, ps) => k == Required && forall i :: 0 <= i < |ps| ==> ChoiceFree(ps[i])
  }

  /** Matches whatever is left. */
  predicate CannotFail(p: Pattern<Leaf>)
    decreases p
  {
    match p
    case Tip(_) => false
    case Branch(Required, ps) => forall i :: 0 <= i < |ps| ==> CannotFail(ps[i])
    case Branch(OneOrMore, ps) => forall i :: 0 <= i < |ps| ==> CannotFail(ps[i])
    case Branch(Either, ps) => exists i :: 0 <= i < |ps| && CannotFail(ps[i])
    case Branch(_, ps) => true
  }

  /** The names of the option leaves. */
  function OptionNames(ps: seq<Pattern<Leaf>>): set<Maybe<string>> {
    set l | l in FlatAll(ps) && l.Option? :: l.Name()
  }

  /** p takes options only, and none that the rest could take. */
  predicate Apart(p: Pattern<Leaf>, rest: seq<Pattern<Leaf>>) {
    forall l | l in Flat(p) :: l.Option? && l.Name() != Nothing && l.Name() !in OptionNames(rest)
  }

  /** No choice takes an element away that a later pattern needs. When the arguments are known to be a
      vector of options and unnamed positional elements, a choice of options only takes its own. */
  predicate Committed(p: Pattern<Leaf>, vector: bool)
    decreases p, 0
  {
    match p
    case Tip(_) => true
    case Branch(Required, ps) => CommittedSequence(ps, vector)
    case Branch(OneOrMore, ps) => forall i :: 0 <= i < |ps| ==> Committed(ps[i], vector)
    case Branch(Either, ps) => forall i :: 0 <= i < |ps| ==> Committed(ps[i], vector)
    case Branch(_, ps) => true
  }

  /** In a sequence, a pattern that chooses is the last one, or is followed only by patterns that cannot
      fail, or takes nothing that the patterns after it look at. */
  predicate CommittedSequence(ps: seq<Pattern<Leaf>>, vector: bool)
    decreases ps, 1
  {
    if ps == [] then true
    else if ChoiceFree(ps[0]) then CommittedSequence(ps[1..], vector)
    else
      && Committed(ps[0], vector)
      && ((forall i :: 1 <= i < |ps| ==> CannotFail(ps[i]))
          || (vector && Apart(ps[0], ps[1..]) && CommittedSequence(ps[1..], vector)))
  }

  /** The same success, and then the same outcome. */
  ghost predicate Agree(r: Outcome, s: Outcome) {
    r.matched == s.matched && (r.matched ==> r == s)
  }

  predicate FirstSuch(left: seq<Leaf>, pos: nat, such: Leaf -> bool) {
    pos < |left| && such(left[pos]) && forall i :: 0 <= i < pos ==> !such(left[i])
  }

  /** What a leaf takes: an argument the first positional element, whatever it is, under its own name; a
      command the same, but only when it is the command's word; an option the first one of its name. */
  lemma LeafTakes(l: Leaf, left: seq<Leaf>, pos: nat, found: Leaf)
    ensures SingleMatch(l, left) == Just((pos, found)) <==>
      match l
      case Argument(name, _) =>
        FirstSuch(left, pos, (x: Leaf) => x.Argument?) && found == Argument(name, left[pos].value)
      case Command(name, _) =>
        && FirstSuch(left, pos, (x: Leaf) => x.Argument?)
        && left[pos].value == Str(name) && found == Command(name, Bool(true))
      case Option(_, _, _, _) => FirstSuch(left, pos, (x: Leaf) => x.Name() == l.Name()) && found == left[pos]
  {
  }

  /** Options go by their long names, and by the short ones when they have no long ones. */
  lemma OptionTakes(l: Leaf, x: Leaf)
    requires l.Option? && x.Option?
    requires l.long != Just("") && x.long != Just("")
    ensures SingleMatch(l, [x]).Just? <==>
      if l.long.Just? && x.long.Just? then l.long == x.long
      else if l.long.Just? then x.short == l.long
      else if x.long.Just? then l.short == x.long
      else l.short == x.short
  {
    assert FirstNamed(l.Name(), [x]) == 0 <==> x.Name() == l.Name();
  }

  /** Without choices, matching is running the word. */
  lemma {:induction false} ChoiceFreeExact(p: Pattern<Leaf>, w: seq<Leaf>, left: seq<Leaf>, collected: seq<Leaf>)
    requires Matchable(p) && ChoiceFree(p) && Word(ITSELF, p, w)
    ensures Agree(Match(p, left, collected), MatchWord(w, left, collected))
    decreases p, 0
  {
    match p
    case Tip(l) =>
      assert ITSELF(l, w[0]) && w == [l];
      var r := MatchLeaf(l, left, collected);
      assert w[1..] == [];
    case Branch(_, ps) => ChoiceFreeAll(ps, w, left, collected);
  }

  lemma {:induction false} ChoiceFreeAll(ps: seq<Pattern<Leaf>>, w: seq<Leaf>, left: seq<Leaf>, collected: seq<Leaf>)
    requires AllMatchable(ps) && (forall i :: 0 <= i < |ps| ==> ChoiceFree(ps[i])) && Sequence(ITSELF, ps, w)
    ensures Agree(MatchAll(ps, left, collected), MatchWord(w, left, collected))
    decreases ps, 1
  {
    if ps != [] {
      var k :| 0 <= k <= |w| && Word(ITSELF, ps[0], w[..k]) && Sequence(ITSELF, ps[1..], w[k..]);
      ChoiceFreeExact(ps[0], w[..k], left, collected);
      MatchWordAppend(w[..k], w[k..], left, collected);
      assert w == w[..k] + w[k..];
      var r := Match(ps[0], left, collected);
      if r.matched {
        ChoiceFreeAll(ps[1..], w[k..], r.left, r.collected);
      }
    }
  }

  lemma {:induction false} OutcomesHave(ps: seq<Pattern<Leaf>>, i: nat, left: seq<Leaf>, collected: seq<Leaf>)
    requires AllMatchable(ps) && i < |ps| && Match(ps[i], left, collected).matched
    ensures Match(ps[i], left, collected) in Outcomes(ps, left, collected)
    decreases |ps|
  {
    if i > 0 {
      OutcomesHave(ps[1..], i - 1, left, collected);
    }
  }

  // ----- Patterns that cannot fail -----

  lemma {:induction false} CannotFailMatches(p: Pattern<Leaf>, left: seq<Leaf>, collected: seq<Leaf>)
    requires Matchable(p) && CannotFail(p)
    ensures Match(p, left, collected).matched
    decreases p, 0
  {
    match p
    case Tip(_) =>
    case Branch(Required, ps) => CannotFailAll(ps, left, collected);
    case Branch(OneOrMore, ps) =>
      CannotFailMatches(ps[0], left, collected);
      LoopFixedPoint(ps[0], Nothing, left, collected, 0);
    case Branch(Either, ps) =>
      var i :| 0 <= i < |ps| && CannotFail(ps[i]);
      CannotFailMatches(ps[i], left, collected);
      OutcomesHave(ps, i, left, collected);
    case Branch(_, ps) => AnyMatches(ps, left, collected);
  }

  lemma {:induction false} CannotFailAll(ps: seq<Pattern<Leaf>>, left: seq<Leaf>, collected: seq<Leaf>)
    requires AllMatchable(ps) && forall i :: 0 <= i < |ps| ==> CannotFail(ps[i])
    ensures MatchAll(ps, left, collected).matched
    decreases ps, 1
  {
    if ps != [] {
      CannotFailMatches(ps[0], left, collected);
      var r := Match(ps[0], left, collected);
      CannotFailAll(ps[1..], r.left, r.collected);
    }
  }

  // ----- What a word looks at -----

  /** The positional elements, and those with one of the names. */
  function Seen(names: set<Maybe<string>>, left: seq<Leaf>): seq<Leaf> {
    if left == [] then []
    else (if left[0].Argument? || left[0].Name() in names then [left[0]] else []) + Seen(names, left[1..])
  }

  ghost predicate Looks(ls: seq<Leaf>, names: set<Maybe<string>>) {
    forall l | l in ls :: l.Option? ==> l.Name() in names
  }

  /** The position that decides whether a leaf matches. */
  function Candidate(l: Leaf, left: seq<Leaf>): (n: nat)
    ensures n <= |left|
  {
    if l.Option? then FirstNamed(l.Name(), left) else FirstArgument(left)
  }

  predicate Picks(l: Leaf, x: Leaf) {
    if l.Option? then x.Name() == l.Name() else x.Argument?
  }

  lemma CandidateCons(l: Leaf, x: Leaf, tail: seq<Leaf>)
    ensures Candidate(l, [x] + tail) == if Picks(l, x) then 0 else 1 + Candidate(l, tail)
  {
    assert ([x] + tail)[1..] == tail;
  }

  lemma SeenCons(names: set<Maybe<string>>, x: Leaf, tail: seq<Leaf>)
    ensures Seen(names, [x] + tail) ==
      if x.Argument? || x.Name() in names then [x] + Seen(names, tail) else Seen(names, tail)
  {
    assert ([x] + tail)[1..] == tail;
  }

  lemma WithoutCons(x: Leaf, tail: seq<Leaf>, n: nat)
    requires n <= |tail|
    ensures Without([x] + tail, n) == if n == 0 then tail else [x] + Without(tail, n - 1)
  {
  }

  /** Position n of all elements is position m of those seen. */
  ghost predicate SamePlace(names: set<Maybe<string>>, left: seq<Leaf>, seen: seq<Leaf>, n: nat, m: nat) {
    && (n < |left| <==> m < |seen|)
    && (n < |left| ==> left[n] == seen[m] && Seen(names, Without(left, n)) == Without(seen, m))
  }

  lemma PlaceKept(names: set<Maybe<string>>, x: Leaf, tail: seq<Leaf>, seen: seq<Leaf>, n: nat, m: nat)
    requires SamePlace(names, tail, seen, n, m) && (x.Argument? || x.Name() in names)
    ensures SamePlace(names, [x] + tail, [x] + seen, n + 1, m + 1)
  {
    if n < |tail| {
      WithoutCons(x, tail, n + 1);
      WithoutCons(x, seen, m + 1);
      SeenCons(names, x, Without(tail, n));
    }
  }

  lemma PlaceSkipped(names: set<Maybe<string>>, x: Leaf, tail: seq<Leaf>, seen: seq<Leaf>, n: nat, m: nat)
    requires SamePlace(names, tail, seen, n, m) && !x.Argument? && x.Name() !in names
    ensures SamePlace(names, [x] + tail, seen, n + 1, m)
  {
    if n < |tail| {
      WithoutCons(x, tail, n + 1);
      SeenCons(names, x, Without(tail, n));
    }
  }

  lemma PlaceFirst(names: set<Maybe<string>>, x: Leaf, tail: seq<Leaf>)
    ensures SamePlace(names, [x] + tail, [x] + Seen(names, tail), 0, 0)
  {
    WithoutCons(x, tail, 0);
    WithoutCons(x, Seen(names, tail), 0);
  }

  lemma PlaceNext(names: set<Maybe<string>>, x: Leaf, tail: seq<Leaf>, n: nat, m: nat, picked: bool)
    requires SamePlace(names, tail, Seen(names, tail), n, m) && (picked ==> x.Argument? || x.Name() in names)
    ensures var seen := Seen(names, [x] + tail);
      SamePlace(names, [x] + tail, seen, if picked then 0 else n + 1,
        if picked then 0 else if x.Argument? || x.Name() in names then m + 1 else m)
  {
    SeenCons(names, x, tail);
    if picked {
      PlaceFirst(names, x, tail);
    } else if x.Argument? || x.Name() in names {
      PlaceKept(names, x, tail, Seen(names, tail), n, m);
    } else {
      PlaceSkipped(names, x, tail, Seen(names, tail), n, m);
    }
  }

  /** A leaf's candidate is seen, and is the candidate among the elements seen. */
  ghost predicate SameCandidate(l: Leaf, names: set<Maybe<string>>, left: seq<Leaf>) {
    SamePlace(names, left, Seen(names, left), Candidate(l, left), Candidate(l, Seen(names, left)))
  }

  lemma {:induction false} CandidateSeen(l: Leaf, names: set<Maybe<string>>, left: seq<Leaf>)
    requires l.Option? ==> l.Name() in names
    ensures SameCandidate(l, names, left)
    decreases |left|
  {
    if left != [] {
      CandidateSeen(l, names, left[1..]);
      CandidateSeenCons(l, names, left[0], left[1..]);
      assert left == [left[0]] + left[1..];
    }
  }

  lemma CandidateSeenCons(l: Leaf, names: set<Maybe<string>>, x: Leaf, tail: seq<Leaf>)
    requires (l.Option? ==> l.Name() in names) && SameCandidate(l, names, tail)
    ensures SameCandidate(l, names, [x] + tail)
  {
    var kept := x.Argument? || x.Name() in names;
    var n, m := Candidate(l, tail), Candidate(l, Seen(names, tail));
    CandidateCons(l, x, tail);
    SeenCons(names, x, tail);
    CandidateCons(l, x, Seen(names, tail));
    PlaceNext(names, x, tail, n, m, Picks(l, x));
    assert Candidate(l, [x] + tail) == if Picks(l, x) then 0 else n + 1;
    assert Candidate(l, Seen(names, [x] + tail)) == if Picks(l, x) then 0 else if kept then m + 1 else m;
  }

  /** Whether a word runs depends on the elements it looks at only. */
  lemma {:induction false} RunSeen(ls: seq<Leaf>, names: set<Maybe<string>>, left: seq<Leaf>)
    requires Looks(ls, names)
    ensures Run(ls, left).Just? <==> Run(ls, Seen(names, left)).Just?
    decreases |ls|
  {
    if ls != [] {
      assert ls[0] in ls;
      CandidateSeen(ls[0], names, left);
      if SingleMatch(ls[0], left).Just? {
        RunSeen(ls[1..], names, Without(left, Candidate(ls[0], left)));
      }
    }
  }

  lemma {:induction false} MatchedIffRun(ls: seq<Leaf>, left: seq<Leaf>, collected: seq<Leaf>)
    ensures MatchWord(ls, left, collected).matched <==> Run(ls, left).Just?
    decreases |ls|
  {
    if ls != [] && SingleMatch(ls[0], left).Just? {
      var (pos, found) := SingleMatch(ls[0], left).value;
      MatchedIffRun(ls[1..], Without(left, pos), collected + [found]);
    }
  }

  lemma {:induction false} SeenWithout(names: set<Maybe<string>>, left: seq<Leaf>, pos: nat)
    requires pos < |left| && !left[pos].Argument? && left[pos].Name() !in names
    ensures Seen(names, Without(left, pos)) == Seen(names, left)
    decreases pos
  {
    if pos == 0 {
      assert Without(left, 0) == left[1..];
    } else {
      SeenWithout(names, left[1..], pos - 1);
      assert Without(left, pos) == [left[0]] + Without(left[1..], pos - 1);
      assert ([left[0]] + Without(left[1..], pos - 1))[1..] == Without(left[1..], pos - 1);
    }
  }

  /** A word of named options takes nothing that is seen under other names. */
  lemma {:induction false} TakesUnseen(ls: seq<Leaf>, names: set<Maybe<string>>, left: seq<Leaf>)
    requires ArgumentVector(left) && Run(ls, left).Just?
    requires forall l | l in ls :: l.Option? && l.Name() != Nothing && l.Name() !in names
    ensures Seen(names, Run(ls, left).value.1) == Seen(names, left)
    decreases |ls|
  {
    if ls != [] {
      assert ls[0] in ls;
      var pos := SingleMatch(ls[0], left).value.0;
      SeenWithout(names, left, pos);
      StillVector(left, pos);
      TakesUnseen(ls[1..], names, Without(left, pos));
    }
  }

  // ----- The leaves of words are leaves of the pattern -----

  lemma {:induction false} WordWithin(p: Pattern<Leaf>, w: seq<Leaf>, l: Leaf)
    requires Word(ITSELF, p, w) && l in w
    ensures l in Flat(p)
    decreases p, 0, 0
  {
    match p
    case Tip(x) => assert ITSELF(x, w[0]);
    case Branch(Required, ps) => SequenceWithin(ps, w, l);
    case Branch(Either, ps) =>
      var i :| 0 <= i < |ps| && Word(ITSELF, ps[i], w);
      WordWithin(ps[i], w, l);
      FlatAllHas(ps, i, l);
    case Branch(OneOrMore, ps) =>
      var n: nat :| n >= 1 && Repeated(ITSELF, ps, n, w);
      RepeatedWithin(ps, n, w, l);
    case Branch(_, ps) => OptionsWithin(ps, w, l);
  }

  lemma {:induction false} SequenceWithin(ps: seq<Pattern<Leaf>>, w: seq<Leaf>, l: Leaf)
    requires Sequence(ITSELF, ps, w) && l in w
    ensures l in FlatAll(ps)
    decreases ps, 0, |ps|
  {
    if ps != [] {
      var k :| 0 <= k <= |w| && Word(ITSELF, ps[0], w[..k]) && Sequence(ITSELF, ps[1..], w[k..]);
      assert w == w[..k] + w[k..];
      if l in w[..k] {
        WordWithin(ps[0], w[..k], l);
      } else {
        SequenceWithin(ps[1..], w[k..], l);
      }
    }
  }

  lemma {:induction false} OptionsWithin(ps: seq<Pattern<Leaf>>, w: seq<Leaf>, l: Leaf)
    requires Options(ITSELF, ps, w) && l in w
    ensures l in FlatAll(ps)
    decreases ps, 0, |ps|
  {
    if ps != [] {
      var k :| 0 <= k <= |w| && (k == 0 || Word(ITSELF, ps[0], w[..k])) && Options(ITSELF, ps[1..], w[k..]);
      assert w == w[..k] + w[k..];
      if l in w[..k] {
        WordWithin(ps[0], w[..k], l);
      } else {
        OptionsWithin(ps[1..], w[k..], l);
      }
    }
  }

  lemma {:induction false} RepeatedWithin(ps: seq<Pattern<Leaf>>, n: nat, w: seq<Leaf>, l: Leaf)
    requires Repeated(ITSELF, ps, n, w) && l in w
    ensures l in FlatAll(ps)
    decreases ps, 1, n
  {
    if n > 0 {
      var k :| 0 <= k <= |w| && Sequence(ITSELF, ps, w[..k]) && Repeated(ITSELF, ps, n - 1, w[k..]);
      assert w == w[..k] + w[k..];
      if l in w[..k] {
        SequenceWithin(ps, w[..k], l);
      } else {
        RepeatedWithin(ps, n - 1, w[k..], l);
      }
    }
  }

  // ----- Completeness -----

  ghost predicate Within(ls: seq<Leaf>, leaves: seq<Leaf>) {
    forall l | l in ls :: l in leaves
  }

  /** Whatever leaves of p were run, the rest runs after the ones if after the others. */
  lemma RestRuns(p: Pattern<Leaf>, rest: seq<Pattern<Leaf>>, v: seq<Leaf>, v': seq<Leaf>, u: seq<Leaf>, left: seq<Leaf>)
    requires ArgumentVector(left) && Apart(p, rest)
    requires Within(v, Flat(p)) && Within(v', Flat(p)) && Within(u, FlatAll(rest))
    requires Run(v, left).Just? && Run(v', left).Just? && Run(u, Run(v, left).value.1).Just?
    ensures Run(u, Run(v', left).value.1).Just?
  {
    var names := OptionNames(rest);
    forall l | l in u ensures l.Option? ==> l.Name() in names {
    }
    TakesUnseen(v, names, left);
    TakesUnseen(v', names, left);
    RunSeen(u, names, Run(v, left).value.1);
    RunSeen(u, names, Run(v', left).value.1);
  }

  lemma {:induction false} RunKeepsVector(ls: seq<Leaf>, left: seq<Leaf>)
    requires ArgumentVector(left) && Run(ls, left).Just?
    ensures ArgumentVector(Run(ls, left).value.1)
    decreases |ls|
  {
    if ls != [] {
      var pos := SingleMatch(ls[0], left).value.0;
      StillVector(left, pos);
      RunKeepsVector(ls[1..], Without(left, pos));
    }
  }

  /** What a match leaves is still a vector. */
  lemma MatchKeepsVector(p: Pattern<Leaf>, left: seq<Leaf>, collected: seq<Leaf>)
    requires Matchable(p) && ArgumentVector(left)
    ensures ArgumentVector(Match(p, left, collected).left)
  {
    if Match(p, left, collected).matched {
      var ls := MatchRuns(p, left, collected);
      MatchWordIsRun(ls, left, collected);
      RunKeepsVector(ls, left);
    } else {
      FailureRestores(p, left, collected);
    }
  }

  /** If some word runs, the pattern matches. */
  lemma {:induction false} WordMatches(p: Pattern<Leaf>, w: seq<Leaf>, vector: bool, left: seq<Leaf>,
                                       collected: seq<Leaf>)
    requires Matchable(p) && Committed(p, vector) && (vector ==> ArgumentVector(left))
    requires Word(ITSELF, p, w) && Run(w, left).Just?
    ensures Match(p, left, collected).matched
    decreases p, 0
  {
    match p
    case Tip(l) =>
      MatchedIffRun(w, left, collected);
      ChoiceFreeExact(p, w, left, collected);
    case Branch(Required, ps) => SequenceMatches(ps, w, vector, left, collected);
    case Branch(OneOrMore, ps) => RepeatedMatches(p, w, vector, left, collected);
    case Branch(Either, ps) =>
      var i :| 0 <= i < |ps| && Word(ITSELF, ps[i], w);
      WordMatches(ps[i], w, vector, left, collected);
      OutcomesHave(ps, i, left, collected);
    case Branch(_, ps) => AnyMatches(ps, left, collected);
  }

  lemma {:induction false} RunAppend(v: seq<Leaf>, u: seq<Leaf>, left: seq<Leaf>)
    ensures Run(v + u, left).Just? <==> Run(v, left).Just? && Run(u, Run(v, left).value.1).Just?
    ensures Run(v + u, left).Just? ==> Run(v + u, left).value.1 == Run(u, Run(v, left).value.1).value.1
    decreases |v|
  {
    if v == [] {
      assert v + u == u;
    } else {
      assert (v + u)[1..] == v[1..] + u;
      if SingleMatch(v[0], left).Just? {
        RunAppend(v[1..], u, Without(left, SingleMatch(v[0], left).value.0));
      }
    }
  }

  /** The word of the first pattern and the rest. */
  lemma SequenceSplit(ps: seq<Pattern<Leaf>>, w: seq<Leaf>) returns (v: seq<Leaf>, u: seq<Leaf>)
    requires ps != [] && Sequence(ITSELF, ps, w)
    ensures w == v + u && Word(ITSELF, ps[0], v) && Sequence(ITSELF, ps[1..], u)
    ensures Within(v, Flat(ps[0])) && Within(u, FlatAll(ps[1..]))
  {
    var k :| 0 <= k <= |w| && Word(ITSELF, ps[0], w[..k]) && Sequence(ITSELF, ps[1..], w[k..]);
    v, u := w[..k], w[k..];
    forall l | l in v ensures l in Flat(ps[0]) {
      WordWithin(ps[0], v, l);
    }
    forall l | l in u ensures l in FlatAll(ps[1..]) {
      SequenceWithin(ps[1..], u, l);
    }
  }

  lemma {:induction false} SequenceMatches(ps: seq<Pattern<Leaf>>, w: seq<Leaf>, vector: bool, left: seq<Leaf>,
                                           collected: seq<Leaf>)
    requires AllMatchable(ps) && CommittedSequence(ps, vector) && (vector ==> ArgumentVector(left))
    requires Sequence(ITSELF, ps, w) && Run(w, left).Just?
    ensures MatchAll(ps, left, collected).matched
    decreases ps, 1
  {
    if ps != [] {
      var v, u := SequenceSplit(ps, w);
      RunAppend(v, u, left);
      var r := Match(ps[0], left, collected);
      if ChoiceFree(ps[0]) {
        FirstExact(ps[0], v, left, collected);
        if vector {
          MatchKeepsVector(ps[0], left, collected);
        }
        SequenceMatches(ps[1..], u, vector, r.left, r.collected);
      } else {
        WordMatches(ps[0], v, vector, left, collected);
        if forall i :: 1 <= i < |ps| ==> CannotFail(ps[i]) {
          CannotFailAll(ps[1..], r.left, r.collected);
        } else {
          MatchKeepsVector(ps[0], left, collected);
          RestRunsAfterMatch(ps[0], ps[1..], v, u, left, collected);
          SequenceMatches(ps[1..], u, vector, r.left, r.collected);
        }
      }
    }
  }

  lemma FirstExact(p: Pattern<Leaf>, v: seq<Leaf>, left: seq<Leaf>, collected: seq<Leaf>)
    requires Matchable(p) && ChoiceFree(p) && Word(ITSELF, p, v) && Run(v, left).Just?
    ensures Match(p, left, collected).matched && Match(p, left, collected).left == Run(v, left).value.1
  {
    MatchedIffRun(v, left, collected);
    ChoiceFreeExact(p, v, left, collected);
    MatchWordIsRun(v, left, collected);
  }

  /** What the greedy match of p takes leaves the rest what any leaves of p leave it. */
  lemma RestRunsAfterMatch(p: Pattern<Leaf>, rest: seq<Pattern<Leaf>>, v: seq<Leaf>, u: seq<Leaf>, left: seq<Leaf>,
                           collected: seq<Leaf>)
    requires Matchable(p) && Apart(p, rest) && ArgumentVector(left)
    requires Within(v, Flat(p)) && Within(u, FlatAll(rest))
    requires Run(v, left).Just? && Run(u, Run(v, left).value.1).Just?
    ensures Run(u, Match(p, left, collected).left).Just?
  {
    if Match(p, left, collected).matched {
      var v' := MatchRuns(p, left, collected);
      MatchWordIsRun(v', left, collected);
      forall l | l in v' ensures l in Flat(p) {
        WordWithin(p, v', l);
      }
      RestRuns(p, rest, v, v', u, left);
    } else {
      FailureRestores(p, left, collected);
      RestRuns(p, rest, v, [], u, left);
    }
  }

  lemma {:induction false} RepeatedMatches(p: Pattern<Leaf>, w: seq<Leaf>, vector: bool, left: seq<Leaf>,
                                           collected: seq<Leaf>)
    requires p.Branch? && p.kind == OneOrMore && Matchable(p) && Committed(p, vector) &&
      (vector ==> ArgumentVector(left))
    requires Word(ITSELF, p, w) && Run(w, left).Just?
    ensures Match(p, left, collected).matched
    decreases p.children, 1
  {
    var ps := p.children;
    var n: nat :| n >= 1 && Repeated(ITSELF, ps, n, w);
    var k :| 0 <= k <= |w| && Sequence(ITSELF, ps, w[..k]) && Repeated(ITSELF, ps, n - 1, w[k..]);
    var v := w[..k];
    assert w == v + w[k..];
    RunAppend(v, w[k..], left);
    var j :| 0 <= j <= |v| && Word(ITSELF, ps[0], v[..j]) && Sequence(ITSELF, ps[1..], v[j..]);
    assert v[..j] == v;
    WordMatches(ps[0], v, vector, left, collected);
    LoopFixedPoint(ps[0], Nothing, left, collected, 0);
  }

  /** A pattern in which no choice takes an element away from a later pattern matches if and only if one
      of its words runs on the arguments. */
  lemma MatchesIff(p: Pattern<Leaf>, vector: bool, left: seq<Leaf>, collected: seq<Leaf>)
    requires Matchable(p) && Committed(p, vector) && (vector ==> ArgumentVector(left))
    ensures Match(p, left, collected).matched <==>
      exists w :: Word(ITSELF, p, w) && MatchWord(w, left, collected).matched
  {
    if Match(p, left, collected).matched {
      var w := MatchRuns(p, left, collected);
      assert Word(ITSELF, p, w) && MatchWord(w, left, collected).matched;
    } else if w :| Word(ITSELF, p, w) && MatchWord(w, left, collected).matched {
      MatchedIffRun(w, left, collected);
      WordMatches(p, w, vector, left, collected);
    }
  }

  /** What transform yields, one Either of Required of leaves, is committed; the matcher then also leaves
      least of all words that run. */
  lemma NormalisedLeavesLeast(ps: seq<Pattern<Leaf>>, w: seq<Leaf>, left: seq<Leaf>, collected: seq<Leaf>)
    requires Matchable(Branch(Either, ps)) && forall i :: 0 <= i < |ps| ==> ChoiceFree(ps[i])
    requires Word(ITSELF, Branch(Either, ps), w) && MatchWord(w, left, collected).matched
    ensures var r := Match(Branch(Either, ps), left, collected);
      r.matched && |r.left| <= |MatchWord(w, left, collected).left|
  {
    var i :| 0 <= i < |ps| && Word(ITSELF, ps[i], w);
    ChoiceFreeExact(ps[i], w, left, collected);
    OutcomesHave(ps, i, left, collected);
  }

  // ----- An optional leaf before a leaf -----

  /** [a] b */
  function OptionalThen(a: Leaf, b: Leaf): Pattern<Leaf> {
    Branch(Required, [Branch(Optional, [Tip(a)]), Tip(b)])
  }

  /** Some element can be taken by either: options of one name, or positional leaves that are not two
      different commands. */
  predicate Compete(a: Leaf, b: Leaf) {
    if a.Option? || b.Option? then a.Option? && b.Option? && a.Name() == b.Name()
    else !(a.Command? && b.Command? && a.cmdName != b.cmdName)
  }

  /** On every argument vector, a match is found if there is one. */
  ghost predicate FindsEvery(p: Pattern<Leaf>)
    requires Matchable(p)
  {
    forall left | ArgumentVector(left) ::
      Match(p, left, []).matched <==> exists w :: Word(ITSELF, p, w) && MatchWord(w, left, []).matched
  }

  lemma OptionalMatch(a: Leaf, left: seq<Leaf>)
    requires Matchable(Branch(Optional, [Tip(a)]))
    ensures Match(Branch(Optional, [Tip(a)]), left, []).left == MatchLeaf(a, left, []).left
    ensures Match(Branch(Optional, [Tip(a)]), left, []).matched
  {
    var ps := [Tip(a)];
    assert ps[0] == Tip(a) && ps[1..] == [];
    assert Matchable(ps[0]);
    var r := Match(ps[0], left, []);
    assert MatchAny(ps[1..], r.left, r.collected) == Outcome(true, r.left, r.collected);
    assert MatchAny(ps, left, []) == MatchAny(ps[1..], r.left, r.collected);
  }

  lemma OptionalThenMatch(a: Leaf, b: Leaf, left: seq<Leaf>)
    requires Matchable(OptionalThen(a, b))
    ensures var rest := MatchLeaf(a, left, []).left;
      && (Match(OptionalThen(a, b), left, []).matched <==> SingleMatch(b, rest).Just?)
      && (SingleMatch(b, rest).Just? ==> Match(OptionalThen(a, b), left, []).left == MatchLeaf(b, rest, []).left)
  {
    var ps := OptionalThen(a, b).children;
    assert Matchable(ps[0]) && Matchable(ps[1]);
    OptionalMatch(a, left);
    var r := Match(ps[0], left, []);
    assert ps[1..] == [Tip(b)];
    assert MatchAll(ps, left, []) == MatchAll([Tip(b)], r.left, r.collected);
    var s := Match(ps[1], r.left, r.collected);
    assert s == MatchLeaf(b, r.left, r.collected);
    assert [Tip(b)][1..] == [];
    assert MatchAll([Tip(b)], r.left, r.collected).matched == s.matched;
  }

  lemma TipWord(l: Leaf, w: seq<Leaf>)
    ensures Word(ITSELF, Tip(l), w) <==> w == [l]
  {
    if |w| == 1 {
      assert ITSELF(l, w[0]) <==> l == w[0];
    }
  }

  lemma SequenceOne(p: Pattern<Leaf>, w: seq<Leaf>)
    ensures Sequence(ITSELF, [p], w) <==> Word(ITSELF, p, w)
  {
    assert [p][1..] == [];
    if Sequence(ITSELF, [p], w) {
      var k :| 0 <= k <= |w| && Word(ITSELF, [p][0], w[..k]) && Sequence(ITSELF, [p][1..], w[k..]);
      assert w[..k] == w;
    }
    if Word(ITSELF, p, w) {
      assert w[..|w|] == w && w[|w|..] == [] && Sequence(ITSELF, [p][1..], w[|w|..]);
    }
  }

  lemma OptionsOne(p: Pattern<Leaf>, w: seq<Leaf>)
    ensures Options(ITSELF, [p], w) <==> w == [] || Word(ITSELF, p, w)
  {
    assert [p][1..] == [];
    if Options(ITSELF, [p], w) {
      var k :| 0 <= k <= |w| && (k == 0 || Word(ITSELF, [p][0], w[..k])) && Options(ITSELF, [p][1..], w[k..]);
      assert k == |w| && w[..k] == w;
    }
    if w == [] || Word(ITSELF, p, w) {
      assert w[..|w|] == w && w[|w|..] == [] && Options(ITSELF, [p][1..], w[|w|..]);
    }
  }

  lemma OptionalThenWords(a: Leaf, b: Leaf, w: seq<Leaf>)
    ensures Word(ITSELF, OptionalThen(a, b), w) <==> w == [b] || w == [a, b]
  {
    var first, ps := Branch(Optional, [Tip(a)]), OptionalThen(a, b).children;
    assert ps[0] == first && ps[1..] == [Tip(b)];
    forall v ensures Word(ITSELF, first, v) <==> v == [] || v == [a] {
      OptionsOne(Tip(a), v);
      TipWord(a, v);
    }
    forall u ensures Sequence(ITSELF, [Tip(b)], u) <==> u == [b] {
      SequenceOne(Tip(b), u);
      TipWord(b, u);
    }
    if Sequence(ITSELF, ps, w) {
      var k :| 0 <= k <= |w| && Word(ITSELF, ps[0], w[..k]) && Sequence(ITSELF, ps[1..], w[k..]);
      assert w == w[..k] + w[k..];
    }
    if w == [b] {
      assert w[..0] == [] && w[0..] == [b] && Word(ITSELF, ps[0], w[..0]) && Sequence(ITSELF, ps[1..], w[0..]);
    }
    if w == [a, b] {
      assert w[..1] == [a] && w[1..] == [b] && Word(ITSELF, ps[0], w[..1]) && Sequence(ITSELF, ps[1..], w[1..]);
    }
  }

  lemma PairRuns(a: Leaf, b: Leaf, left: seq<Leaf>)
    ensures MatchWord([b], left, []).matched <==> SingleMatch(b, left).Just?
    ensures MatchWord([a, b], left, []).matched <==>
      SingleMatch(a, left).Just? && SingleMatch(b, MatchLeaf(a, left, []).left).Just?
  {
    WordOfOne(b, left, []);
    var r := MatchLeaf(a, left, []);
    assert [a, b][0] == a && [a, b][1..] == [b];
    WordOfOne(b, r.left, r.collected);
  }

  lemma WordOfOne(l: Leaf, left: seq<Leaf>, collected: seq<Leaf>)
    ensures MatchWord([l], left, collected).matched <==> SingleMatch(l, left).Just?
  {
    assert [l][1..] == [];
  }

  /** Taking for a leaves what b needs. */
  lemma LeavesForOther(a: Leaf, b: Leaf, left: seq<Leaf>)
    requires !Compete(a, b) && Named([a, b]) && ArgumentVector(left)
    requires SingleMatch(a, left).Just? && SingleMatch(b, left).Just?
    ensures SingleMatch(b, MatchLeaf(a, left, []).left).Just?
  {
    assert [a, b][0] == a && [a, b][1] == b;
    var pos := SingleMatch(a, left).value.0;
    if a.Option? {
      var names := if b.Option? then {b.Name()} else {};
      SeenWithout(names, left, pos);
      RunSeen([b], names, left);
      RunSeen([b], names, Without(left, pos));
    } else if b.Option? {
      var n := FirstNamed(b.Name(), left);
      var rest := Without(left, pos);
      assert n != pos;
      assert rest[if n < pos then n else n - 1] == left[n];
    }
  }

  /** One argument that a takes although b needs it. */
  function Contested(a: Leaf, b: Leaf): Leaf
    requires Compete(a, b)
  {
    match b
    case Option(_, _, _, _) => b
    case Command(n, _) => Argument(Nothing, Str(n))
    case Argument(_, _) => Argument(Nothing, Str(if a.Command? then a.cmdName else ""))
  }

  lemma ContestedTaken(a: Leaf, b: Leaf)
    requires Compete(a, b)
    ensures var left := [Contested(a, b)];
      ArgumentVector(left) && SingleMatch(b, left).Just? && MatchLeaf(a, left, []).left == [] &&
        SingleMatch(b, []).Nothing?
  {
    var left := [Contested(a, b)];
    assert FirstNamed(b.Name(), left) == 0 <==> left[0].Name() == b.Name();
    assert left[..0] + left[1..] == [];
  }

  /** Exactly when the greedy matcher misses a match of `[a] b` on some arguments. */
  lemma OptionalThenIff(a: Leaf, b: Leaf)
    requires Matchable(OptionalThen(a, b)) && Named([a, b])
    ensures FindsEvery(OptionalThen(a, b)) <==> !Compete(a, b)
  {
    var p := OptionalThen(a, b);
    if Compete(a, b) {
      var left := [Contested(a, b)];
      ContestedTaken(a, b);
      OptionalThenMatch(a, b, left);
      OptionalThenWords(a, b, [b]);
      PairRuns(a, b, left);
      assert ArgumentVector(left) && !Match(p, left, []).matched && Word(ITSELF, p, [b]);
    } else {
      forall left | ArgumentVector(left)
        ensures Match(p, left, []).matched <==> exists w :: Word(ITSELF, p, w) && MatchWord(w, left, []).matched {
        FindsPair(a, b, left);
      }
    }
  }

  lemma FindsPair(a: Leaf, b: Leaf, left: seq<Leaf>)
    requires Matchable(OptionalThen(a, b)) && Named([a, b]) && !Compete(a, b) && ArgumentVector(left)
    ensures Match(OptionalThen(a, b), left, []).matched <==>
      exists w :: Word(ITSELF, OptionalThen(a, b), w) && MatchWord(w, left, []).matched
  {
    var p := OptionalThen(a, b);
    if Match(p, left, []).matched {
      var w := MatchRuns(p, left, []);
      assert Word(ITSELF, p, w) && MatchWord(w, left, []).matched;
    } else if w :| Word(ITSELF, p, w) && MatchWord(w, left, []).matched {
      OptionalThenWords(a, b, w);
      PairRuns(a, b, left);
      OptionalThenMatch(a, b, left);
      if SingleMatch(a, left).Just? && SingleMatch(b, left).Just? {
        LeavesForOther(a, b, left);
      }
    }
  }

  // ----- Usages -----

  lemma ApartFromPositional(p: Pattern<Leaf>, x: Leaf)
    requires !x.Option? && forall l | l in Flat(p) :: l.Option? && l.Name() != Nothing
    ensures Committed(p, true) ==> CommittedSequence([p, Tip(x)], true)
  {
    FlatOne(x);
    assert [p, Tip(x)][1..] == [Tip(x)] && [Tip(x)][1..] == [];
    assert OptionNames([Tip(x)]) == {};
    assert Apart(p, [Tip(x)]);
    assert CommittedSequence([Tip(x)], true);
  }

  lemma FlatOne(l: Leaf)
    ensures FlatAll([Tip(l)]) == [l]
  {
    assert [Tip(l)][1..] == [];
  }

  /** Usages like `<IP#> [-c<x>] [-a<y>]` and `[options] <file>` are committed: what follows a choice cannot
      fail, or is apart from it. */
  lemma UsagesCommitted(x: Leaf, o: Leaf, q: Leaf, shown: seq<Pattern<Leaf>>)
    requires !x.Option? && forall l | l in FlatAll(shown) :: l.Option? && l.Name() != Nothing
    ensures Committed(Branch(Required, [Tip(x), Branch(Optional, [Tip(o)]), Branch(Optional, [Tip(q)])]), false)
    ensures Committed(Branch(Required, [Branch(Optional, [Branch(OptionsShortcut, shown)]), Tip(x)]), true)
  {
    var first, second := Branch(Optional, [Tip(o)]), Branch(Optional, [Tip(q)]);
    assert [Tip(x), first, second][1..] == [first, second];
    assert forall i :: 1 <= i < 2 ==> CannotFail([first, second][i]);
    assert CommittedSequence([first, second], false);
    var shortcut := Branch(OptionsShortcut, shown);
    assert Flat(Branch(Optional, [shortcut])) == FlatAll([shortcut]);
    assert [shortcut][1..] == [] && FlatAll([shortcut]) == Flat(shortcut) + [] == FlatAll(shown);
    ApartFromPositional(Branch(Optional, [shortcut]), x);
  }
}
