/**
 Printing trees to tokens, and the round trip through the parser.
 */
module DocoptPrint {
  import opened DocoptGrammar
  import opened DocoptPattern
  import opened Wrappers

  // ----- Leaves that one token stands for -----

  /** The option resolves by its long name: it is the only one with that name. */
  ghost predicate ByLong(o: Leaf, options: seq<Leaf>) {
    && o.Option? && o.long.Just? && StartsWith(o.long.value, "--")
    && BeforeEquals(o.long.value) == |o.long.value|
    && (o.long.value != "--" || o.argcount != 0)
    && Similar(true, o.long.value, options) == [o]
  }

  /** The option resolves by its one-letter name. */
  ghost predicate ByShort(o: Leaf, options: seq<Leaf>) {
    && o.Option? && o.short.Just? && |o.short.value| == 2 && o.short.value[0] == '-' && o.short.value[1] != '-'
    && Similar(false, o.short.value, options) == [o]
  }

  /** The leaves a usage pattern can show, when `options` are known. */
  ghost predicate PrintableLeaf(l: Leaf, options: seq<Leaf>) {
    match l
    case Argument(n, v) => v == Null && n.Just? && Lex(n.value) == ArgumentWord(n.value)
    case Command(n, v) => v == Bool(false) && Lex(n) == CommandWord(n)
    case Option(s, g, c, v) => l == NewOption(s, g, c, v) && (ByLong(l, options) || ByShort(l, options))
  }

  /** An option with an argument shows it as X. */
  ghost function PrintLeaf(l: Leaf, options: seq<Leaf>): string
    requires PrintableLeaf(l, options)
  {
    match l
    case Argument(n, _) => n.value
    case Command(n, _) => n
    case Option(s, g, c, _) =>
      if ByLong(l, options) then g.value + if c == 0 then "" else "=X"
      else s.value + if c == 0 then "" else "X"
  }

  // ----- Trees in the parser's normal form -----

  /** What may stand between brackets: alternatives, or a sequence of items. */
  ghost predicate NormalExpr(ps: seq<Pattern<Leaf>>, options: seq<Leaf>)
    decreases ps, 2
  {
    if IsChoice(ps) then |ps[0].children| > 1 && NormalSeq(ps[0].children, options) else NormalSeq(ps, options)
  }

  predicate IsChoice(ps: seq<Pattern<Leaf>>) {
    |ps| == 1 && ps[0].Branch? && ps[0].kind == Either
  }

  ghost predicate NormalSeq(ps: seq<Pattern<Leaf>>, options: seq<Leaf>)
    decreases ps, 1
  {
    forall i :: 0 <= i < |ps| ==> NormalItem(ps[i], options)
  }

  ghost predicate NormalItem(p: Pattern<Leaf>, options: seq<Leaf>)
    decreases p, 1
  {
    if p.Branch? && p.kind == OneOrMore then |p.children| == 1 && NormalAtom(p.children[0], options)
    else NormalAtom(p, options)
  }

  ghost predicate NormalAtom(p: Pattern<Leaf>, options: seq<Leaf>)
    decreases p, 0
  {
    match p
    case Tip(l) => PrintableLeaf(l, options)
    case Branch(OptionsShortcut, ps) => ps == []
    case Branch(Required, ps) => NormalExpr(ps, options)
    case Branch(Optional, ps) => NormalExpr(ps, options)
    case Branch(_, _) => false
  }

  lemma BareSequence(p: Pattern<Leaf>, options: seq<Leaf>)
    requires NormalItem(p, options) && p.Branch? && p.kind == Required && |p.children| > 1
    ensures NormalSeq(p.children, options)
  {
    assert p == Branch(Required, p.children);
    assert NormalAtom(p, options);
    assert NormalExpr(p.children, options);
  }

  ghost function PrintExpr(ps: seq<Pattern<Leaf>>, options: seq<Leaf>): seq<Token>
    requires NormalExpr(ps, options)
    decreases ps, 2
  {
    if IsChoice(ps) then PrintAlternatives(ps[0].children, options) else PrintSeq(ps, options)
  }

  ghost function PrintAlternatives(ps: seq<Pattern<Leaf>>, options: seq<Leaf>): seq<Token>
    requires NormalSeq(ps, options)
    decreases ps, 1
  {
    if ps == [] then []
    else PrintAlternative(ps[0], options)
         + (if |ps| == 1 then [] else [Bar] + PrintAlternatives(ps[1..], options))
  }

  /** A sequence of two or more needs no brackets of its own. */
  ghost function PrintAlternative(p: Pattern<Leaf>, options: seq<Leaf>): seq<Token>
    requires NormalItem(p, options)
    decreases p, 2
  {
    if p.Branch? && p.kind == Required && |p.children| > 1 then
      BareSequence(p, options);
      PrintSeq(p.children, options)
    else PrintItem(p, options)
  }

  ghost function PrintSeq(ps: seq<Pattern<Leaf>>, options: seq<Leaf>): seq<Token>
    requires NormalSeq(ps, options)
    decreases ps, 1
  {
    if ps == [] then [] else PrintItem(ps[0], options) + PrintSeq(ps[1..], options)
  }

  ghost function PrintItem(p: Pattern<Leaf>, options: seq<Leaf>): seq<Token>
    requires NormalItem(p, options)
    decreases p, 1
  {
    if p.Branch? && p.kind == OneOrMore then PrintAtom(p.children[0], options) + [Ellipsis]
    else PrintAtom(p, options)
  }

  ghost function PrintAtom(p: Pattern<Leaf>, options: seq<Leaf>): seq<Token>
    requires NormalAtom(p, options)
    decreases p, 0
  {
    match p
    case Tip(l) => [LexLeaf(l, options)]
    case Branch(OptionsShortcut, ps) => [OptionsWord]
    case Branch(Required, ps) => [Open(false)] + PrintExpr(ps, options) + [Close(false)]
    case Branch(Optional, ps) => [Open(true)] + PrintExpr(ps, options) + [Close(true)]
  }

  // ----- Leaves -----

  ghost function LexLeaf(l: Leaf, options: seq<Leaf>): Token
    requires PrintableLeaf(l, options)
  {
    Lex(PrintLeaf(l, options))
  }

  /** Where an expression must end. */
  predicate ExprEnd(rest: seq<Token>) {
    rest == [] || rest[0].Close?
  }

  /** The first token of an item. */
  predicate Opens(tokens: seq<Token>) {
    !SeqEnd(tokens) && !AtEllipsis(tokens)
  }

  lemma BeforeEqualsAppend(s: string, t: string)
    requires BeforeEquals(s) == |s|
    ensures BeforeEquals(s + t) == |s| + BeforeEquals(t)
  {
    if s == "" {
      assert s + t == t;
    } else {
      assert (s + t)[1..] == s[1..] + t;
      BeforeEqualsAppend(s[1..], t);
    }
  }

  lemma NoOperator(token: string)
    requires StartsWith(token, "-") && |token| > 1
    ensures Lex(token) == if token[1] == '-' && |token| > 2 then Long(token) else Lex(token)
    ensures token[1] != '-' ==> Lex(token) == Shorts(token)
  {
    assert token[0] == '-';
    if token[1] != '-' {
      assert !StartsWith(token, "--");
    } else {
      assert token[..2] == "--";
      assert StartsWith(token, "--");
    }
  }

  lemma LongLeaf(l: Leaf, rest: seq<Token>, options: seq<Leaf>)
    requires PrintableLeaf(l, options) && l.Option? && ByLong(l, options)
    ensures LexLeaf(l, options) == Long(PrintLeaf(l, options))
    ensures ParseLong(PrintLeaf(l, options), rest, options) == Ok(Parsed([Tip(l)], rest, options))
  {
    var g, token := l.long.value, PrintLeaf(l, options);
    assert g[0] == '-' && g[1] == '-';
    if l.argcount == 0 {
      assert token == g;
      assert |g| > 2;
    } else {
      assert token == g + "=X";
      BeforeEqualsAppend(g, "=X");
      assert BeforeEquals("=X") == 0;
    }
    NoOperator(token);
    assert token[..BeforeEquals(token)] == g;
    assert NewOption(l.short, l.long, l.argcount, l.value) == l;
  }

  lemma ShortLeaf(l: Leaf, rest: seq<Token>, options: seq<Leaf>)
    requires PrintableLeaf(l, options) && l.Option? && !ByLong(l, options)
    ensures LexLeaf(l, options) == Shorts(PrintLeaf(l, options))
    ensures ParseShorts(PrintLeaf(l, options)[1..], rest, options) == Ok(Parsed([Tip(l)], rest, options))
  {
    var token := PrintLeaf(l, options);
    NoOperator(token);
    var left := token[1..];
    var short := "-" + [left[0]];
    assert short == l.short.value;
    assert NewOption(Just(short), l.long, l.argcount, l.value) == l;
    assert Similar(false, short, options)[0] == l;
    assert left[1..] == if l.argcount == 0 then "" else "X";
    assert ParseShorts("", rest, options) == Ok(Parsed([], rest, options));
    assert [Tip(l)] + [] == [Tip(l)];
  }

  lemma LeafRoundTrip(l: Leaf, rest: seq<Token>, options: seq<Leaf>)
    requires PrintableLeaf(l, options)
    ensures Opens([LexLeaf(l, options)] + rest)
    ensures ParseAtom([LexLeaf(l, options)] + rest, options) == Ok(Parsed([Tip(l)], rest, options))
  {
    assert ([LexLeaf(l, options)] + rest)[1..] == rest;
    if l.Option? {
      if ByLong(l, options) {
        LongLeaf(l, rest, options);
      } else {
        ShortLeaf(l, rest, options);
      }
    }
  }

  // ----- Steps of the parser -----

  lemma SeqStep(q: Pattern<Leaf>, repeated: bool, tokens: seq<Token>, more: seq<Token>, r: Parsed, options: seq<Leaf>)
    requires Opens(tokens) && !AtEllipsis(more)
    requires ParseAtom(tokens, options) == Ok(Parsed([q], if repeated then [Ellipsis] + more else more, options))
    requires ParseSeq(more, options) == Ok(r)
    ensures ParseSeq(tokens, options) ==
      Ok(r.(patterns := [if repeated then Branch(OneOrMore, [q]) else q] + r.patterns))
  {
  }

  lemma AlternativesStep(sofar: seq<Pattern<Leaf>>, tokens: seq<Token>, ps: seq<Pattern<Leaf>>, after: seq<Token>,
                         options: seq<Leaf>)
    requires ParseSeq(tokens, options) == Ok(Parsed(ps, after, options))
    ensures ParseAlternatives(sofar, [Bar] + tokens, options) == ParseAlternatives(sofar + Grouped(ps), after, options)
  {
  }

  lemma ExprStep(tokens: seq<Token>, ps: seq<Pattern<Leaf>>, after: seq<Token>, alts: seq<Pattern<Leaf>>,
                 rest: seq<Token>, options: seq<Leaf>)
    requires ParseSeq(tokens, options) == Ok(Parsed(ps, after, options)) && AtBar(after)
    requires ParseAlternatives(Grouped(ps), after, options) == Ok(Parsed(alts, rest, options)) && |alts| > 1
    ensures ParseExpr(tokens, options) == Ok(Parsed([Branch(Either, alts)], rest, options))
  {
  }

  lemma BracketStep(square: bool, tokens: seq<Token>, ps: seq<Pattern<Leaf>>, rest: seq<Token>, options: seq<Leaf>)
    requires ParseExpr(tokens, options) == Ok(Parsed(ps, [Close(square)] + rest, options))
    ensures ParseAtom([Open(square)] + tokens, options)
      == Ok(Parsed([Branch(if square then Optional else Required, ps)], rest, options))
  {
  }

  lemma Bracketed(square: bool, inside: seq<Token>, rest: seq<Token>)
    ensures ([Open(square)] + inside + [Close(square)]) + rest == [Open(square)] + (inside + ([Close(square)] + rest))
  {
  }

  // ----- The round trip -----

  lemma {:induction false} AtomRoundTrip(p: Pattern<Leaf>, rest: seq<Token>, options: seq<Leaf>)
    requires NormalAtom(p, options)
    ensures var printed := PrintAtom(p, options) + rest;
      Opens(printed) && ParseAtom(printed, options) == Ok(Parsed([p], rest, options))
    decreases p, 0
  {
    match p
    case Tip(l) => LeafRoundTrip(l, rest, options);
    case Branch(OptionsShortcut, ps) => assert ([OptionsWord] + rest)[1..] == rest;
    case Branch(Required, ps) =>
      ExprRoundTrip(ps, [Close(false)] + rest, options);
      BracketStep(false, PrintExpr(ps, options) + ([Close(false)] + rest), ps, rest, options);
      Bracketed(false, PrintExpr(ps, options), rest);
    case Branch(Optional, ps) =>
      ExprRoundTrip(ps, [Close(true)] + rest, options);
      BracketStep(true, PrintExpr(ps, options) + ([Close(true)] + rest), ps, rest, options);
      Bracketed(true, PrintExpr(ps, options), rest);
  }

  /** A printed item, in front of tokens that parse to r. */
  lemma {:induction false} ItemRoundTrip(p: Pattern<Leaf>, more: seq<Token>, r: Parsed, options: seq<Leaf>)
    requires NormalItem(p, options) && !AtEllipsis(more) && ParseSeq(more, options) == Ok(r)
    ensures var printed := PrintItem(p, options) + more;
      Opens(printed) && ParseSeq(printed, options) == Ok(r.(patterns := [p] + r.patterns))
    decreases p, 1
  {
    if p.Branch? && p.kind == OneOrMore {
      var q := p.children[0];
      assert p == Branch(OneOrMore, [q]);
      AtomRoundTrip(q, [Ellipsis] + more, options);
      assert PrintItem(p, options) + more == PrintAtom(q, options) + ([Ellipsis] + more);
      SeqStep(q, true, PrintItem(p, options) + more, more, r, options);
    } else {
      AtomRoundTrip(p, more, options);
      SeqStep(p, false, PrintItem(p, options) + more, more, r, options);
    }
  }

  lemma {:induction false} SeqRoundTrip(ps: seq<Pattern<Leaf>>, rest: seq<Token>, options: seq<Leaf>)
    requires NormalSeq(ps, options) && SeqEnd(rest)
    ensures var printed := PrintSeq(ps, options) + rest;
      !AtEllipsis(printed) && ParseSeq(printed, options) == Ok(Parsed(ps, rest, options))
    decreases ps, 1
  {
    if ps == [] {
      assert PrintSeq(ps, options) + rest == rest;
    } else {
      var more := PrintSeq(ps[1..], options) + rest;
      SeqRoundTrip(ps[1..], rest, options);
      ItemRoundTrip(ps[0], more, Parsed(ps[1..], rest, options), options);
      assert PrintSeq(ps, options) + rest == PrintItem(ps[0], options) + more;
      assert ps == [ps[0]] + ps[1..];
    }
  }

  /** An alternative parses to a sequence that is grouped to it. */
  lemma {:induction false} AlternativeRoundTrip(p: Pattern<Leaf>, rest: seq<Token>, options: seq<Leaf>)
      returns (ps: seq<Pattern<Leaf>>)
    requires NormalItem(p, options) && SeqEnd(rest)
    ensures ParseSeq(PrintAlternative(p, options) + rest, options) == Ok(Parsed(ps, rest, options))
    ensures Grouped(ps) == [p]
    decreases p, 2
  {
    if p.Branch? && p.kind == Required && |p.children| > 1 {
      ps := p.children;
      BareSequence(p, options);
      SeqRoundTrip(ps, rest, options);
    } else {
      ps := [p];
      ItemRoundTrip(p, rest, Parsed([], rest, options), options);
      assert [p] + [] == [p];
    }
  }

  /** The first alternative of ps is parsed, and `after` waits. */
  lemma {:induction false} AlternativesFirst(sofar: seq<Pattern<Leaf>>, ps: seq<Pattern<Leaf>>, rest: seq<Token>,
                                             after: seq<Token>, options: seq<Leaf>)
    requires NormalSeq(ps, options) && ps != [] && ExprEnd(rest)
    requires after == if |ps| == 1 then rest else [Bar] + (PrintAlternatives(ps[1..], options) + rest)
    ensures ParseAlternatives(sofar, [Bar] + (PrintAlternatives(ps, options) + rest), options)
      == ParseAlternatives(sofar + [ps[0]], after, options)
    decreases ps, 2
  {
    var qs := AlternativeRoundTrip(ps[0], after, options);
    assert PrintAlternatives(ps, options) + rest == PrintAlternative(ps[0], options) + after;
    AlternativesStep(sofar, PrintAlternative(ps[0], options) + after, qs, after, options);
  }

  lemma {:induction false} AlternativesRoundTrip(sofar: seq<Pattern<Leaf>>, ps: seq<Pattern<Leaf>>, rest: seq<Token>,
                                                 options: seq<Leaf>)
    requires NormalSeq(ps, options) && ps != [] && ExprEnd(rest)
    ensures ParseAlternatives(sofar, [Bar] + (PrintAlternatives(ps, options) + rest), options)
      == Ok(Parsed(sofar + ps, rest, options))
    decreases ps, 3
  {
    if |ps| == 1 {
      AlternativesFirst(sofar, ps, rest, rest, options);
      assert ps == [ps[0]];
    } else {
      AlternativesFirst(sofar, ps, rest, [Bar] + (PrintAlternatives(ps[1..], options) + rest), options);
      AlternativesRoundTrip(sofar + [ps[0]], ps[1..], rest, options);
      assert sofar + ps == (sofar + [ps[0]]) + ps[1..];
    }
  }

  lemma {:induction false} ExprRoundTrip(ps: seq<Pattern<Leaf>>, rest: seq<Token>, options: seq<Leaf>)
    requires NormalExpr(ps, options) && ExprEnd(rest)
    ensures ParseExpr(PrintExpr(ps, options) + rest, options) == Ok(Parsed(ps, rest, options))
    decreases ps, 2
  {
    if IsChoice(ps) {
      ChoiceRoundTrip(ps[0].children, rest, options);
      assert ps == [Branch(Either, ps[0].children)];
    } else {
      SeqRoundTrip(ps, rest, options);
    }
  }

  lemma {:induction false} ChoiceRoundTrip(alts: seq<Pattern<Leaf>>, rest: seq<Token>, options: seq<Leaf>)
    requires NormalSeq(alts, options) && |alts| > 1 && ExprEnd(rest)
    ensures ParseExpr(PrintAlternatives(alts, options) + rest, options) ==
      Ok(Parsed([Branch(Either, alts)], rest, options))
    decreases alts, 4
  {
    var after := [Bar] + (PrintAlternatives(alts[1..], options) + rest);
    var qs := AlternativeRoundTrip(alts[0], after, options);
    AlternativesRoundTrip([alts[0]], alts[1..], rest, options);
    assert [alts[0]] + alts[1..] == alts;
    assert PrintAlternatives(alts, options) + rest == PrintAlternative(alts[0], options) + after;
    ExprStep(PrintAlternative(alts[0], options) + after, qs, after, alts, rest, options);
  }

  // ----- From tokens to text -----

  /** The text of a token. */
  function Text(t: Token): string {
    match t
    case Open(square) => if square then "[" else "("
    case Close(square) => if square then "]" else ")"
    case Bar => "|"
    case Ellipsis => "..."
    case OptionsWord => "options"
    case NoBracket => ""
    case _ => t.text
  }

  ghost predicate Lexical(tokens: seq<Token>) {
    forall i :: 0 <= i < |tokens| ==> Lex(Text(tokens[i])) == tokens[i]
  }

  lemma OperatorsLexical()
    ensures Lexical([Open(false)]) && Lexical([Open(true)]) && Lexical([Close(false)]) && Lexical([Close(true)])
    ensures Lexical([Bar]) && Lexical([Ellipsis]) && Lexical([OptionsWord])
  {
  }

  lemma LeafLexical(l: Leaf, options: seq<Leaf>)
    requires PrintableLeaf(l, options)
    ensures Lexical([LexLeaf(l, options)])
  {
  }

  lemma {:induction false} AtomLexical(p: Pattern<Leaf>, options: seq<Leaf>)
    requires NormalAtom(p, options)
    ensures Lexical(PrintAtom(p, options))
    decreases p, 0
  {
    OperatorsLexical();
    match p
    case Tip(l) => LeafLexical(l, options);
    case Branch(OptionsShortcut, ps) =>
    case Branch(Required, ps) => ExprLexical(ps, options);
    case Branch(Optional, ps) => ExprLexical(ps, options);
  }

  lemma {:induction false} ItemLexical(p: Pattern<Leaf>, options: seq<Leaf>)
    requires NormalItem(p, options)
    ensures Lexical(PrintItem(p, options))
    decreases p, 1
  {
    OperatorsLexical();
    AtomLexical(if p.Branch? && p.kind == OneOrMore then p.children[0] else p, options);
  }

  lemma {:induction false} SeqLexical(ps: seq<Pattern<Leaf>>, options: seq<Leaf>)
    requires NormalSeq(ps, options)
    ensures Lexical(PrintSeq(ps, options)) && Lexical(PrintAlternatives(ps, options))
    decreases ps, 1
  {
    OperatorsLexical();
    if ps != [] {
      ItemLexical(ps[0], options);
      if ps[0].Branch? && ps[0].kind == Required && |ps[0].children| > 1 {
        BareSequence(ps[0], options);
        SeqLexical(ps[0].children, options);
      }
      SeqLexical(ps[1..], options);
    }
  }

  lemma {:induction false} ExprLexical(ps: seq<Pattern<Leaf>>, options: seq<Leaf>)
    requires NormalExpr(ps, options)
    ensures Lexical(PrintExpr(ps, options))
    decreases ps, 2
  {
    SeqLexical(if IsChoice(ps) then ps[0].children else ps, options);
  }

  /** The printed tree as a list of strings. */
  ghost function PrintText(ps: seq<Pattern<Leaf>>, options: seq<Leaf>): (text: seq<string>)
    requires NormalExpr(ps, options)
    ensures |text| == |PrintExpr(ps, options)|
    ensures forall i :: 0 <= i < |text| ==> text[i] == Text(PrintExpr(ps, options)[i])
  {
    var tokens := PrintExpr(ps, options);
    seq(|tokens|, i requires 0 <= i < |tokens| => Text(tokens[i]))
  }

  /** Printing a tree in normal form and parsing the text gives the tree back, uses every token, and
      leaves the known options alone. */
  lemma RoundTrip(ps: seq<Pattern<Leaf>>, options: seq<Leaf>)
    requires NormalExpr(ps, options)
    ensures ParsePattern(LexAll(PrintText(ps, options)), options) == Ok((Branch(Required, ps), options))
  {
    ExprRoundTrip(ps, [], options);
    assert PrintExpr(ps, options) + [] == PrintExpr(ps, options);
    ExprLexical(ps, options);
    assert LexAll(PrintText(ps, options)) == PrintExpr(ps, options);
  }
}
