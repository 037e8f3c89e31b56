/**
 What the cases of `transform` say about the language of a pattern: every case is a word of the
 pattern with its order forgotten, and without optionals and repetitions every word is a case.
 */
module DocoptCases {
  import opened Bags
  import opened DocoptMatch
  import opened DocoptPattern
  import opened Wrappers
  import opened DocoptSound
  import opened DocoptTransform

  /** Built from leaves, Required and Either only. */
  predicate Plain(p: Pattern<Leaf>)
    decreases p
  {
    match p
    case Tip(_) => true
    case Branch(k, ps) => (k == Required || k == Either) && forall i :: 0 <= i < |ps| ==> Plain(ps[i])
  }

  lemma {:induction false} SequenceIsOptions(ps: seq<Pattern<Leaf>>, w: seq<Leaf>)
    requires Sequence(ITSELF, ps, w)
    ensures Options(ITSELF, ps, w)
    decreases |ps|
  {
    if ps != [] {
      var k :| 0 <= k <= |w| && Word(ITSELF, ps[0], w[..k]) && Sequence(ITSELF, ps[1..], w[k..]);
      SequenceIsOptions(ps[1..], w[k..]);
    }
  }

  lemma {:induction false} WordOfCase(p: Pattern<Leaf>, c: Bag<Leaf>) returns (w: seq<Leaf>)
    requires c in Expand(p)
    ensures Word(ITSELF, p, w) && multiset(w) == c
    decreases p, 0
  {
    match p
    case Tip(l) => w := [l];
    case Branch(Either, ps) =>
      var i;
      i, w := AlternativeOfCase(ps, c);
    case Branch(OneOrMore, ps) =>
      CrossMember(ExpandAll(ps), ExpandAll(ps), c);
      var a, b :| a in ExpandAll(ps) && b in ExpandAll(ps) && c == a + b;
      var v := SequenceOfCase(ps, a);
      var u := SequenceOfCase(ps, b);
      w := v + u;
      Twice(ps, v, u);
    case Branch(Required, ps) => w := SequenceOfCase(ps, c);
    case Branch(Optional, ps) =>
      w := SequenceOfCase(ps, c);
      SequenceIsOptions(ps, w);
    case Branch(OptionsShortcut, ps) =>
      w := SequenceOfCase(ps, c);
      SequenceIsOptions(ps, w);
  }

  lemma Twice(ps: seq<Pattern<Leaf>>, v: seq<Leaf>, u: seq<Leaf>)
    requires Sequence(ITSELF, ps, v) && Sequence(ITSELF, ps, u)
    ensures Repeated(ITSELF, ps, 2, v + u)
  {
    var w := v + u;
    assert w[..|v|] == v && w[|v|..] == u && u[..|u|] == u && u[|u|..] == [];
    assert Repeated(ITSELF, ps, 0, u[|u|..]);
    assert Repeated(ITSELF, ps, 1, w[|v|..]);
  }

  lemma {:induction false} SequenceOfCase(ps: seq<Pattern<Leaf>>, c: Bag<Leaf>) returns (w: seq<Leaf>)
    requires c in ExpandAll(ps)
    ensures Sequence(ITSELF, ps, w) && multiset(w) == c
    decreases ps, 1
  {
    if ps == [] {
      w := [];
    } else {
      CrossMember(Expand(ps[0]), ExpandAll(ps[1..]), c);
      var a, b :| a in Expand(ps[0]) && b in ExpandAll(ps[1..]) && c == a + b;
      var v := WordOfCase(ps[0], a);
      var u := SequenceOfCase(ps[1..], b);
      w := v + u;
      assert w[..|v|] == v && w[|v|..] == u;
    }
  }

  lemma {:induction false} AlternativeOfCase(ps: seq<Pattern<Leaf>>, c: Bag<Leaf>) returns (i: nat, w: seq<Leaf>)
    requires c in ExpandEither(ps)
    ensures i < |ps| && Word(ITSELF, ps[i], w) && multiset(w) == c
    decreases ps, 1
  {
    if c in Expand(ps[0]) {
      i := 0;
      w := WordOfCase(ps[0], c);
    } else {
      i, w := AlternativeOfCase(ps[1..], c);
      i := i + 1;
    }
  }

  lemma {:induction false} CaseOfWord(p: Pattern<Leaf>, w: seq<Leaf>)
    requires Plain(p) && Word(ITSELF, p, w)
    ensures multiset(w) in Expand(p)
    decreases p, 0
  {
    match p
    case Tip(l) => assert w == [l];
    case Branch(Either, ps) =>
      var i :| 0 <= i < |ps| && Word(ITSELF, ps[i], w);
      CaseOfWord(ps[i], w);
      CaseOfAlternative(ps, i, multiset(w));
    case Branch(Required, ps) => CaseOfSequence(ps, w);
  }

  lemma {:induction false} CaseOfAlternative(ps: seq<Pattern<Leaf>>, i: nat, c: Bag<Leaf>)
    requires i < |ps| && c in Expand(ps[i])
    ensures c in ExpandEither(ps)
    decreases i
  {
    if i > 0 {
      CaseOfAlternative(ps[1..], i - 1, c);
    }
  }

  lemma {:induction false} CaseOfSequence(ps: seq<Pattern<Leaf>>, w: seq<Leaf>)
    requires (forall i :: 0 <= i < |ps| ==> Plain(ps[i])) && Sequence(ITSELF, ps, w)
    ensures multiset(w) in ExpandAll(ps)
    decreases ps, 1
  {
    if ps != [] {
      var k :| 0 <= k <= |w| && Word(ITSELF, ps[0], w[..k]) && Sequence(ITSELF, ps[1..], w[k..]);
      CaseOfWord(ps[0], w[..k]);
      CaseOfSequence(ps[1..], w[k..]);
      assert w == w[..k] + w[k..];
      CrossMember(Expand(ps[0]), ExpandAll(ps[1..]), multiset(w));
    }
  }

  /** Every case is a word of the pattern, for every pattern; every word of a plain pattern is a case. */
  lemma CasesAreWords(p: Pattern<Leaf>, c: Bag<Leaf>)
    ensures c in Expand(p) ==> exists w :: Word(ITSELF, p, w) && multiset(w) == c
    ensures Plain(p) && (exists w :: Word(ITSELF, p, w) && multiset(w) == c) ==> c in Expand(p)
  {
    if c in Expand(p) {
      var w := WordOfCase(p, c);
    }
    if w :| Plain(p) && Word(ITSELF, p, w) && multiset(w) == c {
      CaseOfWord(p, w);
    }
  }

  /** Nothing left out, and what repeats repeated once: optionals required, and the body of OneOrMore twice. */
  function Unfolded(p: Pattern<Leaf>): Pattern<Leaf>
    decreases p, 0
  {
    match p
    case Tip(_) => p
    case Branch(Either, ps) => Branch(Either, AllUnfolded(ps))
    case Branch(OneOrMore, ps) => Branch(Required, AllUnfolded(ps) + AllUnfolded(ps))
    case Branch(_, ps) => Branch(Required, AllUnfolded(ps))
  }

  function AllUnfolded(ps: seq<Pattern<Leaf>>): (qs: seq<Pattern<Leaf>>)
    ensures |qs| == |ps|
    decreases ps, 1
  {
    if ps == [] then [] else [Unfolded(ps[0])] + AllUnfolded(ps[1..])
  }

  lemma {:induction false} UnfoldedExpands(p: Pattern<Leaf>)
    ensures Plain(Unfolded(p)) && Expand(Unfolded(p)) == Expand(p)
    decreases p, 0
  {
    match p
    case Tip(_) =>
    case Branch(Either, ps) => AllUnfoldedExpand(ps);
    case Branch(OneOrMore, ps) =>
      AllUnfoldedExpand(ps);
      ExpandAppend(AllUnfolded(ps), AllUnfolded(ps));
    case Branch(_, ps) => AllUnfoldedExpand(ps);
  }

  lemma {:induction false} AllUnfoldedExpand(ps: seq<Pattern<Leaf>>)
    ensures forall i :: 0 <= i < |ps| ==> Plain(AllUnfolded(ps)[i])
    ensures ExpandAll(AllUnfolded(ps)) == ExpandAll(ps) && ExpandEither(AllUnfolded(ps)) == ExpandEither(ps)
    decreases ps, 1
  {
    if ps != [] {
      UnfoldedExpands(ps[0]);
      AllUnfoldedExpand(ps[1..]);
      assert AllUnfolded(ps)[1..] == AllUnfolded(ps[1..]);
    }
  }

  /** The cases of any pattern are exactly the words, with their order forgotten, in which nothing optional is
      left out and everything that repeats comes twice. */
  lemma CasesExactly(p: Pattern<Leaf>, c: Bag<Leaf>)
    ensures c in Expand(p) <==> exists w :: Word(ITSELF, Unfolded(p), w) && multiset(w) == c
  {
    UnfoldedExpands(p);
    CasesAreWords(Unfolded(p), c);
  }

  /** A plain pattern matches only as one of its cases: the collected leaves fit that case. */
  lemma MatchIsCase(p: Pattern<Leaf>, left: seq<Leaf>, collected: seq<Leaf>)
    requires Plain(p) && Matchable(p) && Match(p, left, collected).matched
    ensures var r := Match(p, left, collected);
      exists ls :: multiset(ls) in Expand(p) && collected <= r.collected
        && Takes(ls, left, r.collected[|collected|..], r.left)
  {
    Soundness(p, left, collected);
    var r := Match(p, left, collected);
    var ls :| Word(ITSELF, p, ls) && Takes(ls, left, r.collected[|collected|..], r.left);
    CaseOfWord(p, ls);
  }

  // ----- Cases count as words do -----

  /** Every Either has an alternative, as the parser makes them. */
  predicate Filled(p: Pattern<Leaf>)
    decreases p
  {
    match p
    case Tip(_) => true
    case Branch(k, ps) => (k == Either ==> ps != []) && forall i :: 0 <= i < |ps| ==> Filled(ps[i])
  }

  predicate AllFilled(ps: seq<Pattern<Leaf>>) {
    forall i :: 0 <= i < |ps| ==> Filled(ps[i])
  }

  lemma {:induction false} SomeCase(p: Pattern<Leaf>) returns (c: Bag<Leaf>)
    requires Filled(p)
    ensures c in Expand(p)
    decreases p, 0
  {
    match p
    case Tip(l) => c := multiset{l};
    case Branch(Either, ps) =>
      c := SomeCase(ps[0]);
      CaseOfAlternative(ps, 0, c);
    case Branch(OneOrMore, ps) =>
      var a := SomeCases(ps);
      c := a + a;
      CrossMember(ExpandAll(ps), ExpandAll(ps), c);
    case Branch(_, ps) => c := SomeCases(ps);
  }

  lemma {:induction false} SomeCases(ps: seq<Pattern<Leaf>>) returns (c: Bag<Leaf>)
    requires AllFilled(ps)
    ensures c in ExpandAll(ps)
    decreases ps, 1
  {
    c := multiset{};
    if ps != [] {
      var a := SomeCase(ps[0]);
      var b := SomeCases(ps[1..]);
      c := a + b;
      CrossMember(Expand(ps[0]), ExpandAll(ps[1..]), c);
    }
  }

  /** As many as n, as far as none, one and several go. */
  predicate Covers(m: nat, n: nat) {
    (n >= 1 ==> m >= 1) && (n >= 2 ==> m >= 2)
  }

  lemma JoinedCases(ps: seq<Pattern<Leaf>>, a: Bag<Leaf>, b: Bag<Leaf>, v: seq<Leaf>, u: seq<Leaf>, l: Leaf)
    requires ps != [] && a in Expand(ps[0]) && b in ExpandAll(ps[1..])
    requires Covers(a[l], multiset(v)[l]) && Covers(b[l], multiset(u)[l])
    ensures a + b in ExpandAll(ps) && Covers((a + b)[l], multiset(v + u)[l])
  {
    CrossMember(Expand(ps[0]), ExpandAll(ps[1..]), a + b);
  }

  lemma {:induction false} CaseCovers(p: Pattern<Leaf>, w: seq<Leaf>, l: Leaf) returns (c: Bag<Leaf>)
    requires Filled(p) && Word(ITSELF, p, w)
    ensures c in Expand(p) && Covers(c[l], multiset(w)[l])
    decreases p, 0, 0
  {
    match p
    case Tip(x) =>
      c := multiset{x};
      assert w == [x];
    case Branch(Either, ps) =>
      var i :| 0 <= i < |ps| && Word(ITSELF, ps[i], w);
      c := CaseCovers(ps[i], w, l);
      CaseOfAlternative(ps, i, c);
    case Branch(OneOrMore, ps) =>
      var n: nat :| n >= 1 && Repeated(ITSELF, ps, n, w);
      var a, b := TurnsCover(ps, n, w, l);
      c := a + b;
      CrossMember(ExpandAll(ps), ExpandAll(ps), c);
    case Branch(Required, ps) => c := SequenceCovers(ps, w, l);
    case Branch(Optional, ps) => c := OptionsCover(ps, w, l);
    case Branch(OptionsShortcut, ps) => c := OptionsCover(ps, w, l);
  }

  lemma {:induction false} PartCovers(p: Pattern<Leaf>, v: seq<Leaf>, l: Leaf) returns (c: Bag<Leaf>)
    requires Filled(p) && (v == [] || Word(ITSELF, p, v))
    ensures c in Expand(p) && Covers(c[l], multiset(v)[l])
    decreases p, 0, 1
  {
    if v == [] {
      c := SomeCase(p);
    } else {
      c := CaseCovers(p, v, l);
    }
  }

  lemma {:induction false} SequenceCovers(ps: seq<Pattern<Leaf>>, w: seq<Leaf>, l: Leaf) returns (c: Bag<Leaf>)
    requires AllFilled(ps) && Sequence(ITSELF, ps, w)
    ensures c in ExpandAll(ps) && Covers(c[l], multiset(w)[l])
    decreases ps, 0, |ps|
  {
    c := multiset{};
    if ps != [] {
      var k :| 0 <= k <= |w| && Word(ITSELF, ps[0], w[..k]) && Sequence(ITSELF, ps[1..], w[k..]);
      assert w == w[..k] + w[k..];
      var a := CaseCovers(ps[0], w[..k], l);
      var b := SequenceCovers(ps[1..], w[k..], l);
      c := a + b;
      JoinedCases(ps, a, b, w[..k], w[k..], l);
    }
  }

  lemma {:induction false} OptionsCover(ps: seq<Pattern<Leaf>>, w: seq<Leaf>, l: Leaf) returns (c: Bag<Leaf>)
    requires AllFilled(ps) && Options(ITSELF, ps, w)
    ensures c in ExpandAll(ps) && Covers(c[l], multiset(w)[l])
    decreases ps, 0, |ps|
  {
    c := multiset{};
    if ps != [] {
      var k :| 0 <= k <= |w| && (k == 0 || Word(ITSELF, ps[0], w[..k])) && Options(ITSELF, ps[1..], w[k..]);
      assert w == w[..k] + w[k..];
      var a := PartCovers(ps[0], w[..k], l);
      var b := OptionsCover(ps[1..], w[k..], l);
      c := a + b;
      JoinedCases(ps, a, b, w[..k], w[k..], l);
    }
  }

  /** Two turns are enough for any number of them. */
  lemma {:induction false} TurnsCover(ps: seq<Pattern<Leaf>>, n: nat, w: seq<Leaf>, l: Leaf)
    returns (a: Bag<Leaf>, b: Bag<Leaf>)
    requires AllFilled(ps) && Repeated(ITSELF, ps, n, w)
    ensures a in ExpandAll(ps) && b in ExpandAll(ps) && Covers(a[l] + b[l], multiset(w)[l])
    decreases ps, 1, n
  {
    a := SomeCases(ps);
    b := a;
    if n > 0 {
      var k :| 0 <= k <= |w| && Sequence(ITSELF, ps, w[..k]) && Repeated(ITSELF, ps, n - 1, w[k..]);
      assert w == w[..k] + w[k..];
      var first := SequenceCovers(ps, w[..k], l);
      var x, y := TurnsCover(ps, n - 1, w[k..], l);
      if multiset(w[..k])[l] == 0 {
        a, b := x, y;
      } else {
        a, b := first, if x[l] > 0 then x else y;
      }
    }
  }

  /** Some case repeats a leaf if and only if some word does: so fix accumulates exactly the leaves that a
      command line can give more than once. */
  lemma RepeatedAsInWords(p: Pattern<Leaf>, l: Leaf)
    requires Filled(p)
    ensures (exists c :: c in Expand(p) && c[l] > 1) <==> exists w :: Word(ITSELF, p, w) && multiset(w)[l] > 1
  {
    if c :| c in Expand(p) && c[l] > 1 {
      var w := WordOfCase(p, c);
    }
    if w :| Word(ITSELF, p, w) && multiset(w)[l] > 1 {
      var c := CaseCovers(p, w, l);
    }
  }
}
