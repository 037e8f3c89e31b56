/**
 One pass over the tokens of a usage pattern, with a stack of open brackets: it meets the same errors as
 the recursive descent of sw/ab_cal_scripts/lib/docopt.py, learns the same options and finds the leaves
 of the tree in the same order.
 */
module DocoptScan {
  import opened DocoptGrammar
  import opened DocoptPattern
  import opened Wrappers

  // ----- Which token is what -----

  /** What decides about option tokens is their dashes. */
  lemma DashKinds(s: string)
    ensures Lex(s).Long? <==> |s| > 2 && s[0] == '-' && s[1] == '-'
    ensures Lex(s).Shorts? <==> |s| > 1 && s[0] == '-' && s[1] != '-'
    ensures Lex(s).Long? || Lex(s).Shorts? ==> Lex(s).text == s
  {
    DashesMean(s);
    if s != "" && s[0] == '-' {
      assert s !in {"([", "(", "[", ")", "]", "|", "...", "options"};
    }
  }

  lemma DashesMean(s: string)
    ensures IsLong(s) <==> |s| > 2 && s[0] == '-' && s[1] == '-'
    ensures IsShorts(s) && !IsLong(s) <==> |s| > 1 && s[0] == '-' && s[1] != '-'
  {
    if StartsWith(s, "--") && |s| == 2 {
      assert s == "--";
    }
    if StartsWith(s, "-") && |s| == 1 {
      assert s == "-";
    }
  }

  /** Some capital, and no small letter. */
  predicate Capitals(s: string) {
    (exists i :: 0 <= i < |s| && 'A' <= s[i] <= 'Z') && forall i :: 0 <= i < |s| ==> s[i] < 'a' || 'z' < s[i]
  }

  /** Of the other tokens, arguments have angle brackets around them, or capitals and no small letter. */
  lemma ArgumentKind(s: string)
    requires s != "" && s[0] != '-'
    ensures Lex(s).ArgumentWord? <==> (s[0] == '<' && s[|s| - 1] == '>') || Capitals(s)
    ensures Lex(s).ArgumentWord? || Lex(s).CommandWord? ==> Lex(s).text == s
  {
    DashesMean(s);
    assert EndsWith(s, ">") <==> s[|s| - 1] == '>';
    assert StartsWith(s, "<") <==> s[0] == '<';
    CapitalsMean(s);
    if s in {"([", "(", "[", ")", "]", "|", "...", "options"} {
      assert !Capitals(s) && s[0] != '<';
    }
  }

  lemma CapitalsMean(s: string)
    ensures IsUpper(s) <==> Capitals(s)
  {
  }

  // ----- The pass -----

  /** The leaves found, and the options known in the end. */
  datatype Found = Found(leaves: seq<Leaf>, options: seq<Leaf>)

  function After(leaves: seq<Leaf>, r: Parsing<Found>): Parsing<Found> {
    match r
    case Err(_) => r
    case Ok(f) => Ok(f.(leaves := leaves + f.leaves))
  }

  /** `open` holds the open brackets, the last one first; `atom` says that "..." would repeat what has just
      been read. */
  function Scan(tokens: seq<Token>, open: seq<bool>, atom: bool, options: seq<Leaf>): Parsing<Found>
    decreases |tokens|
  {
    if tokens == [] then if open == [] then Ok(Found([], options)) else Err(Unmatched)
    else
      var rest := tokens[1..];
      match tokens[0]
      case Open(square) => Scan(rest, [square] + open, false, options)
      case Close(square) =>
        if open == [] then Err(UnexpectedEnding)
        else if open[0] != square then Err(Unmatched)
        else Scan(rest, open[1..], true, options)
      case Bar => Scan(rest, open, false, options)
      case NoBracket => Err(NoSuchBracket)
      case OptionsWord => Scan(rest, open, true, options)
      case ArgumentWord(s) => After([Argument(Just(s), Null)], Scan(rest, open, true, options))
      case CommandWord(s) => After([Command(s, Bool(false))], Scan(rest, open, true, options))
      case Ellipsis =>
        if atom then Scan(rest, open, false, options)
        else After([Command("...", Bool(false))], Scan(rest, open, true, options))
      case Long(s) =>
        var r :- ParseLong(s, rest, options);
        After(FlatAll(r.patterns), Scan(r.tokens, open, true, r.options))
      case Shorts(s) =>
        var r :- ParseShorts(if s == "" then "" else s[1..], rest, options);
        After(FlatAll(r.patterns), Scan(r.tokens, open, true, r.options))
  }

  lemma AfterTwice(a: seq<Leaf>, b: seq<Leaf>, r: Parsing<Found>)
    ensures After(a, After(b, r)) == After(a + b, r) && After([], r) == r
  {
    if r.Ok? {
      assert a + (b + r.value.leaves) == (a + b) + r.value.leaves && [] + r.value.leaves == r.value.leaves;
    }
  }

  /** A parser that has read up to r.tokens: the pass has the same error, or has found the same leaves and
      goes on there. */
  ghost predicate Reads(r: Parsing<Parsed>, tokens: seq<Token>, open: seq<bool>, before: bool, options: seq<Leaf>,
                        after: bool) {
    Scan(tokens, open, before, options) == match r
      case Err(e) => Err(e)
      case Ok(p) => After(FlatAll(p.patterns), Scan(p.tokens, open, after, p.options))
  }

  lemma {:induction false} FlatAllAppend<L>(a: seq<Pattern<L>>, b: seq<Pattern<L>>)
    ensures FlatAll(a + b) == FlatAll(a) + FlatAll(b)
    decreases |a|
  {
    if a == [] {
      assert a + b == b;
    } else {
      assert (a + b)[1..] == a[1..] + b;
      FlatAllAppend(a[1..], b);
    }
  }

  lemma FlatWrapped<L>(k: Kind, ps: seq<Pattern<L>>)
    ensures FlatAll([Branch(k, ps)]) == FlatAll(ps)
  {
    assert [Branch(k, ps)][1..] == [];
    assert FlatAll(ps) + [] == FlatAll(ps);
  }

  lemma FlatGrouped(ps: seq<Pattern<Leaf>>)
    ensures FlatAll(Grouped(ps)) == FlatAll(ps)
  {
    FlatWrapped(Required, ps);
  }

  lemma FlatTip(l: Leaf)
    ensures FlatAll([Tip(l)]) == [l]
  {
    assert [Tip(l)][1..] == [];
  }

  lemma {:induction false} AtomReads(tokens: seq<Token>, open: seq<bool>, options: seq<Leaf>)
    requires !SeqEnd(tokens)
    ensures Reads(ParseAtom(tokens, options), tokens, open, false, options, true)
    decreases |tokens|, 1
  {
    var rest := tokens[1..];
    match tokens[0]
    case NoBracket =>
    case Open(square) => BracketReads(square, rest, open, options);
    case OptionsWord =>
      FlatWrapped<Leaf>(OptionsShortcut, []);
      AfterTwice([], [], Scan(rest, open, true, options));
    case Long(s) =>
    case Shorts(s) =>
    case ArgumentWord(s) => FlatTip(Argument(Just(s), Null));
    case CommandWord(s) => FlatTip(Command(s, Bool(false)));
    case Ellipsis => FlatTip(Command("...", Bool(false)));
  }

  lemma {:induction false} BracketReads(square: bool, tokens: seq<Token>, open: seq<bool>, options: seq<Leaf>)
    ensures var r := ParseBracket(square, tokens, options);
      Scan(tokens, [square] + open, false, options) == match r
        case Err(e) => Err(e)
        case Ok(p) => After(FlatAll(p.patterns), Scan(p.tokens, open, true, p.options))
    decreases |tokens|, 4
  {
    ExprReads(tokens, [square] + open, options);
    var inner := ParseExpr(tokens, options);
    if inner.Ok? {
      FlatWrapped(if square then Optional else Required, inner.value.patterns);
      assert ([square] + open)[1..] == open;
    }
  }

  /** An expression ends at the end or before a closing bracket. */
  lemma {:induction false} ExprReads(tokens: seq<Token>, open: seq<bool>, options: seq<Leaf>)
    ensures Reads(ParseExpr(tokens, options), tokens, open, false, options, false)
    ensures var r := ParseExpr(tokens, options); r.Ok? ==> r.value.tokens == [] || r.value.tokens[0].Close?
    decreases |tokens|, 3
  {
    SeqReads(tokens, open, options);
    var s := ParseSeq(tokens, options);
    if s.Ok? && AtBar(s.value.tokens) {
      var first := s.value;
      FlatGrouped(first.patterns);
      AlternativesRead(Grouped(first.patterns), first.tokens, open, first.options);
      var r := ParseAlternatives(Grouped(first.patterns), first.tokens, first.options);
      if r.Ok? && |r.value.patterns| > 1 {
        FlatWrapped(Either, r.value.patterns);
      }
    }
  }

  lemma {:induction false} AlternativesRead(sofar: seq<Pattern<Leaf>>, tokens: seq<Token>, open: seq<bool>,
                                            options: seq<Leaf>)
    requires SeqEnd(tokens)
    ensures var r := ParseAlternatives(sofar, tokens, options);
      After(FlatAll(sofar), Scan(tokens, open, false, options)) == match r
        case Err(e) => Err(e)
        case Ok(p) => After(FlatAll(p.patterns), Scan(p.tokens, open, false, p.options))
    ensures var r := ParseAlternatives(sofar, tokens, options);
      r.Ok? ==> r.value.tokens == [] || r.value.tokens[0].Close?
    decreases |tokens|, 2
  {
    if AtBar(tokens) {
      SeqReads(tokens[1..], open, options);
      var next := ParseSeq(tokens[1..], options);
      if next.Ok? {
        var n := next.value;
        FlatGrouped(n.patterns);
        FlatAllAppend(sofar, Grouped(n.patterns));
        AfterTwice(FlatAll(sofar), FlatAll(n.patterns), Scan(n.tokens, open, false, n.options));
        AlternativesRead(sofar + Grouped(n.patterns), n.tokens, open, n.options);
      }
    }
  }

  /** A sequence ends where SeqEnd says; there it does not matter what was read last. */
  lemma {:induction false} SeqReads(tokens: seq<Token>, open: seq<bool>, options: seq<Leaf>)
    ensures Reads(ParseSeq(tokens, options), tokens, open, false, options, false)
    ensures var r := ParseSeq(tokens, options); r.Ok? ==> SeqEnd(r.value.tokens)
    decreases |tokens|, 2
  {
    if SeqEnd(tokens) {
      AfterTwice([], [], Scan(tokens, open, false, options));
    } else {
      AtomReads(tokens, open, options);
      var atom := ParseAtom(tokens, options);
      if atom.Ok? {
        var a := atom.value;
        var rest := if AtEllipsis(a.tokens) then a.tokens[1..] else a.tokens;
        assert Scan(a.tokens, open, true, a.options) == Scan(rest, open, false, a.options);
        SeqReads(rest, open, a.options);
        var r := ParseSeq(rest, a.options);
        if r.Ok? {
          var shown := if AtEllipsis(a.tokens) then [Branch(OneOrMore, a.patterns)] else a.patterns;
          FlatWrapped(OneOrMore, a.patterns);
          FlatAllAppend(shown, r.value.patterns);
          AfterTwice(FlatAll(a.patterns), FlatAll(r.value.patterns),
            Scan(r.value.tokens, open, false, r.value.options));
        }
      }
    }
  }

  /** For all tokens: the parser fails exactly as the pass does, and otherwise its tree has the leaves that
      the pass has found, from left to right, and the options are those the pass has learned. */
  lemma ParseIsScan(tokens: seq<Token>, options: seq<Leaf>)
    ensures Scan(tokens, [], false, options) == match ParsePattern(tokens, options)
      case Err(e) => Err(e)
      case Ok((p, known)) => Ok(Found(Flat(p), known))
  {
    ExprReads(tokens, [], options);
    var r := ParseExpr(tokens, options);
    if r.Ok? && r.value.tokens == [] {
      assert FlatAll(r.value.patterns) + [] == FlatAll(r.value.patterns);
    }
  }
}
