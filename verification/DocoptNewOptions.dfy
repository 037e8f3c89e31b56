/**
 The round trip for trees whose options the parser first meets in the printed text.
 */
module DocoptNewOptions {
  import opened DocoptGrammar
  import opened DocoptParsed
  import opened DocoptPattern
  import opened DocoptPrint
  import opened Wrappers

  import DocoptOptions

  /** Each name stands for nothing yet, or for what it stands for in `all`. */
  ghost predicate PartOf(known: seq<Leaf>, all: seq<Leaf>) {
    forall long: bool, name: string ::
      Similar(long, name, known) == [] || Similar(long, name, known) == Similar(long, name, all)
  }

  /** What the parser makes of an option it meets for the first time: one name, and an argument exactly
      if one is shown behind a long name. */
  predicate Inferable(o: Leaf) {
    && o.Option?
    && (o == NewOption(Nothing, o.long, if o.argcount == 0 then 0 else 1, Bool(false))
        || o == NewOption(o.short, Nothing, 0, Bool(false)))
  }

  /** The options known so far, out of `all`; the others can be inferred. */
  ghost predicate Partial(known: seq<Leaf>, all: seq<Leaf>) {
    PartOf(known, all) && forall o | o in all :: o in known || Inferable(o)
  }

  /** A token that shows an option of `all` with its argument, or no option. */
  ghost predicate Shows(t: Token, all: seq<Leaf>) {
    match t
    case Long(s) =>
      var n := BeforeEquals(s);
      exists o :: Similar(true, s[..n], all) == [o] && MadeOption(o) && (n < |s| <==> o.argcount != 0)
    case Shorts(s) =>
      |s| >= 2 && exists o ::
        Similar(false, "-" + [s[1]], all) == [o] && MadeOption(o) && (if o.argcount == 0 then |s| == 2 else |s| > 2)
    case _ => true
  }

  ghost predicate Shown(tokens: seq<Token>, all: seq<Leaf>) {
    forall t | t in tokens :: Shows(t, all)
  }

  lemma ShownTail(tokens: seq<Token>, all: seq<Leaf>)
    requires tokens != [] && Shown(tokens, all)
    ensures Shows(tokens[0], all) && Shown(tokens[1..], all)
  {
  }

  /** Knowing only some of the options gives the same patterns and tokens, and in the end `later` are
      known. */
  ghost predicate Agrees(full: Parsing<Parsed>, r: Parsing<Parsed>, all: seq<Leaf>, later: seq<Leaf>) {
    && full.Ok? && full.value.options == all && Shown(full.value.tokens, all)
    && r == Ok(full.value.(options := later)) && Partial(later, all)
  }

  /** The option is known, or new and inferred. */
  lemma Lookup(long: bool, name: string, o: Leaf, known: seq<Leaf>, all: seq<Leaf>)
    requires Partial(known, all) && Similar(long, name, all) == [o]
    ensures Similar(long, name, known) == [o] || (Similar(long, name, known) == [] && Inferable(o))
    ensures o.Option? && (if long then o.long else o.short) == Just(name)
  {
    SimilarMember(long, name, all, o);
    SimilarMember(long, name, known, o);
    assert o in [o];
  }

  lemma AddInferred(long: bool, name: string, o: Leaf, known: seq<Leaf>, all: seq<Leaf>)
    requires Partial(known, all) && Similar(long, name, all) == [o] && Similar(long, name, known) == []
    requires o.Option? && if long then o.short == Nothing else o.long == Nothing
    ensures Partial(known + [o], all)
  {
    Lookup(long, name, o, known, all);
    forall l: bool, n: string
      ensures Similar(l, n, known + [o]) == [] || Similar(l, n, known + [o]) == Similar(l, n, all) {
      DocoptOptions.SimilarAppend(l, n, known, [o]);
      SimilarOne(l, n, o);
      if l == long && n == name {
        assert Similar(l, n, known + [o]) == [o];
      } else {
        assert Similar(l, n, known + [o]) == Similar(l, n, known);
      }
    }
  }

  lemma LongAgrees(s: string, tokens: seq<Token>, known: seq<Leaf>, all: seq<Leaf>) returns (later: seq<Leaf>)
    requires Shows(Long(s), all) && Shown(tokens, all) && Partial(known, all)
    ensures Agrees(ParseLong(s, tokens, all), ParseLong(s, tokens, known), all, later)
  {
    var n := BeforeEquals(s);
    var o :| Similar(true, s[..n], all) == [o] && MadeOption(o) && (n < |s| <==> o.argcount != 0);
    Lookup(true, s[..n], o, known, all);
    assert ParseLong(s, tokens, all) == Ok(Parsed([Tip(o)], tokens, all));
    if Similar(true, s[..n], known) == [o] {
      later := known;
    } else {
      AddInferred(true, s[..n], o, known, all);
      later := known + [o];
    }
  }

  lemma ShortsAgrees(s: string, tokens: seq<Token>, known: seq<Leaf>, all: seq<Leaf>) returns (later: seq<Leaf>)
    requires Shows(Shorts(s), all) && Shown(tokens, all) && Partial(known, all)
    ensures Agrees(ParseShorts(s[1..], tokens, all), ParseShorts(s[1..], tokens, known), all, later)
  {
    var short := "-" + [s[1]];
    var o :| Similar(false, short, all) == [o] && MadeOption(o) && (if o.argcount == 0 then |s| == 2 else |s| > 2);
    var left := s[1..];
    assert left[0] == s[1] && (o.argcount == 0 <==> left[1..] == "");
    Lookup(false, short, o, known, all);
    OneShort(left, tokens, o, all);
    if Similar(false, short, known) == [o] {
      later := known;
      OneShort(left, tokens, o, known);
    } else {
      AddInferred(false, short, o, known, all);
      later := known + [o];
      assert o == NewOption(Just(short), Nothing, 0, Bool(false));
      assert ParseShorts(left[1..], tokens, later) == Ok(Parsed([], tokens, later));
      assert [Tip(o)] + [] == [Tip(o)];
    }
  }

  lemma OneShort(left: string, tokens: seq<Token>, o: Leaf, known: seq<Leaf>)
    requires left != "" && Similar(false, "-" + [left[0]], known) == [o] && MadeOption(o)
    requires o.argcount == 0 <==> left[1..] == ""
    ensures ParseShorts(left, tokens, known) == Ok(Parsed([Tip(o)], tokens, known))
  {
    SimilarMember(false, "-" + [left[0]], known, o);
    assert o in [o];
    assert ParseShorts("", tokens, known) == Ok(Parsed([], tokens, known));
    assert [Tip(o)] + [] == [Tip(o)];
  }

  // ----- The grammar -----

  lemma {:induction false} AtomAgrees(tokens: seq<Token>, known: seq<Leaf>, all: seq<Leaf>) returns (later: seq<Leaf>)
    requires !SeqEnd(tokens) && Shown(tokens, all) && Partial(known, all) && ParseAtom(tokens, all).Ok?
    ensures Agrees(ParseAtom(tokens, all), ParseAtom(tokens, known), all, later)
    decreases |tokens|, 1
  {
    ShownTail(tokens, all);
    match tokens[0]
    case Open(square) => later := BracketAgrees(square, tokens[1..], known, all);
    case Long(s) => later := LongAgrees(s, tokens[1..], known, all);
    case Shorts(s) => later := ShortsAgrees(s, tokens[1..], known, all);
    case _ => later := known;
  }

  lemma {:induction false} BracketAgrees(square: bool, tokens: seq<Token>, known: seq<Leaf>, all: seq<Leaf>)
    returns (later: seq<Leaf>)
    requires Shown(tokens, all) && Partial(known, all) && ParseBracket(square, tokens, all).Ok?
    ensures Agrees(ParseBracket(square, tokens, all), ParseBracket(square, tokens, known), all, later)
    decreases |tokens|, 4
  {
    later := ExprAgrees(tokens, known, all);
    ShownTail(ParseExpr(tokens, all).value.tokens, all);
  }

  lemma {:induction false} SeqAgrees(tokens: seq<Token>, known: seq<Leaf>, all: seq<Leaf>) returns (later: seq<Leaf>)
    requires Shown(tokens, all) && Partial(known, all) && ParseSeq(tokens, all).Ok?
    ensures Agrees(ParseSeq(tokens, all), ParseSeq(tokens, known), all, later)
    decreases |tokens|, 2
  {
    if SeqEnd(tokens) {
      later := known;
    } else {
      var next := AtomAgrees(tokens, known, all);
      var after := ParseAtom(tokens, all).value.tokens;
      if AtEllipsis(after) {
        ShownTail(after, all);
        later := SeqAgrees(after[1..], next, all);
      } else {
        later := SeqAgrees(after, next, all);
      }
    }
  }

  lemma {:induction false} AlternativesAgrees(sofar: seq<Pattern<Leaf>>, tokens: seq<Token>, known: seq<Leaf>,
                                              all: seq<Leaf>)
    returns (later: seq<Leaf>)
    requires Shown(tokens, all) && Partial(known, all) && ParseAlternatives(sofar, tokens, all).Ok?
    ensures Agrees(ParseAlternatives(sofar, tokens, all), ParseAlternatives(sofar, tokens, known), all, later)
    decreases |tokens|, 2
  {
    if !AtBar(tokens) {
      later := known;
    } else {
      ShownTail(tokens, all);
      var mid := SeqAgrees(tokens[1..], known, all);
      var next := ParseSeq(tokens[1..], all).value;
      later := AlternativesAgrees(sofar + Grouped(next.patterns), next.tokens, mid, all);
    }
  }

  lemma {:induction false} ExprAgrees(tokens: seq<Token>, known: seq<Leaf>, all: seq<Leaf>) returns (later: seq<Leaf>)
    requires Shown(tokens, all) && Partial(known, all) && ParseExpr(tokens, all).Ok?
    ensures Agrees(ParseExpr(tokens, all), ParseExpr(tokens, known), all, later)
    decreases |tokens|, 3
  {
    later := SeqAgrees(tokens, known, all);
    var first := ParseSeq(tokens, all).value;
    if AtBar(first.tokens) {
      later := AlternativesAgrees(Grouped(first.patterns), first.tokens, later, all);
    }
  }

  // ----- Printed trees -----

  lemma LongShown(l: Leaf, all: seq<Leaf>)
    requires PrintableLeaf(l, all) && l.Option? && ByLong(l, all)
    ensures Shows(LexLeaf(l, all), all)
  {
    LongLeaf(l, [], all);
    var g, token := l.long.value, PrintLeaf(l, all);
    if l.argcount == 0 {
      assert token == g;
    } else {
      assert token == g + "=X";
      BeforeEqualsAppend(g, "=X");
      assert BeforeEquals("=X") == 0;
    }
    assert token[..BeforeEquals(token)] == g;
    assert MadeOption(l) && Similar(true, token[..BeforeEquals(token)], all) == [l];
  }

  lemma ShortShown(l: Leaf, all: seq<Leaf>)
    requires PrintableLeaf(l, all) && l.Option? && !ByLong(l, all)
    ensures Shows(LexLeaf(l, all), all)
  {
    ShortLeaf(l, [], all);
    var token := PrintLeaf(l, all);
    assert "-" + [token[1]] == l.short.value;
    assert MadeOption(l) && Similar(false, "-" + [token[1]], all) == [l];
  }

  lemma LeafShown(l: Leaf, all: seq<Leaf>)
    requires PrintableLeaf(l, all)
    ensures Shown([LexLeaf(l, all)], all)
  {
    if l.Option? {
      if ByLong(l, all) {
        LongShown(l, all);
      } else {
        ShortShown(l, all);
      }
    }
  }

  lemma {:induction false} AtomShown(p: Pattern<Leaf>, all: seq<Leaf>)
    requires NormalAtom(p, all)
    ensures Shown(PrintAtom(p, all), all)
    decreases p, 0
  {
    match p
    case Tip(l) => LeafShown(l, all);
    case Branch(OptionsShortcut, ps) =>
    case Branch(Required, ps) => ExprShown(ps, all);
    case Branch(Optional, ps) => ExprShown(ps, all);
  }

  lemma {:induction false} ItemShown(p: Pattern<Leaf>, all: seq<Leaf>)
    requires NormalItem(p, all)
    ensures Shown(PrintItem(p, all), all)
    decreases p, 1
  {
    AtomShown(if p.Branch? && p.kind == OneOrMore then p.children[0] else p, all);
  }

  lemma {:induction false} SeqShown(ps: seq<Pattern<Leaf>>, all: seq<Leaf>)
    requires NormalSeq(ps, all)
    ensures Shown(PrintSeq(ps, all), all) && Shown(PrintAlternatives(ps, all), all)
    decreases ps, 1
  {
    if ps != [] {
      ItemShown(ps[0], all);
      if ps[0].Branch? && ps[0].kind == Required && |ps[0].children| > 1 {
        BareSequence(ps[0], all);
        SeqShown(ps[0].children, all);
      }
      SeqShown(ps[1..], all);
    }
  }

  lemma {:induction false} ExprShown(ps: seq<Pattern<Leaf>>, all: seq<Leaf>)
    requires NormalExpr(ps, all)
    ensures Shown(PrintExpr(ps, all), all)
    decreases ps, 2
  {
    SeqShown(if IsChoice(ps) then ps[0].children else ps, all);
  }

  /** Printing a tree in normal form for `all` options, and parsing the text when only some of them are
      known and the others can be inferred, gives the same tree; the options known in the end are
      again some of `all`. */
  lemma RoundTripFromPart(ps: seq<Pattern<Leaf>>, known: seq<Leaf>, all: seq<Leaf>) returns (later: seq<Leaf>)
    requires NormalExpr(ps, all) && Partial(known, all)
    ensures ParsePattern(LexAll(PrintText(ps, all)), known) == Ok((Branch(Required, ps), later)) && Partial(later, all)
  {
    var tokens := PrintExpr(ps, all);
    ExprRoundTrip(ps, [], all);
    assert tokens + [] == tokens;
    ExprLexical(ps, all);
    assert LexAll(PrintText(ps, all)) == tokens;
    ExprShown(ps, all);
    later := ExprAgrees(tokens, known, all);
  }

  /** With no option known at first: a tree whose options have one name each, and no argument behind a
      short name, comes back from its text alone. */
  lemma RoundTripFromNothing(ps: seq<Pattern<Leaf>>, all: seq<Leaf>) returns (later: seq<Leaf>)
    requires NormalExpr(ps, all) && forall o | o in all :: Inferable(o)
    ensures ParsePattern(LexAll(PrintText(ps, all)), []) == Ok((Branch(Required, ps), later))
  {
    later := RoundTripFromPart(ps, [], all);
  }
}
