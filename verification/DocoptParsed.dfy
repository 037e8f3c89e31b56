/**
 What the parser returns: trees in normal form for the options it knows in the end, with one value for
 every name.
 */
module DocoptParsed {
  import opened DocoptGrammar
  import opened DocoptPattern
  import opened DocoptPrint
  import opened Wrappers

  import DocoptFix
  import DocoptOptions

  // ----- Known options -----

  /** As Option.__init__ leaves it. */
  predicate MadeOption(o: Leaf) {
    o.Option? && o == NewOption(o.short, o.long, o.argcount, o.value)
  }

  ghost predicate Made(options: seq<Leaf>) {
    forall o | o in options :: MadeOption(o)
  }

  /** Whatever a name stood for it still stands for. */
  ghost predicate Extends(known: seq<Leaf>, later: seq<Leaf>) {
    forall long: bool, name: string :: Similar(long, name, known) != [] ==>
      Similar(long, name, later) == Similar(long, name, known)
  }

  lemma {:induction false} SimilarMember(long: bool, name: string, options: seq<Leaf>, o: Leaf)
    ensures o in Similar(long, name, options) <==>
      o in options && o.Option? && (if long then o.long else o.short) == Just(name)
  {
    if options != [] {
      SimilarMember(long, name, options[1..], o);
    }
  }

  lemma SimilarOne(long: bool, name: string, o: Leaf)
    ensures Similar(long, name, [o]) ==
      if o.Option? && (if long then o.long else o.short) == Just(name) then [o] else []
  {
    assert [o][1..] == [];
  }

  /** A new option with one name that was not known. */
  lemma AddOption(known: seq<Leaf>, o: Leaf, long: bool, name: string)
    requires Made(known) && MadeOption(o) && Similar(long, name, known) == []
    requires if long then o.long == Just(name) && o.short == Nothing else o.short == Just(name) && o.long == Nothing
    ensures Made(known + [o]) && Extends(known, known + [o]) && Similar(long, name, known + [o]) == [o]
  {
    forall l: bool, n: string
      ensures Similar(l, n, known + [o]) == Similar(l, n, known) + (if l == long && n == name then [o] else []) {
      DocoptOptions.SimilarAppend(l, n, known, [o]);
      SimilarOne(l, n, o);
    }
  }

  lemma ExtendsTrans(a: seq<Leaf>, b: seq<Leaf>, c: seq<Leaf>)
    requires Extends(a, b) && Extends(b, c)
    ensures Extends(a, c)
  {
    forall long: bool, name: string | Similar(long, name, a) != []
      ensures Similar(long, name, c) == Similar(long, name, a) {
      assert Similar(long, name, b) == Similar(long, name, a);
    }
  }

  // ----- Leaves -----

  /** A leaf as the parser makes it: an option is the only known one of a name of its own. */
  ghost predicate Resolved(l: Leaf, known: seq<Leaf>) {
    match l
    case Argument(_, v) => v == Null
    case Command(_, v) => v == Bool(false)
    case Option(short, long, _, _) =>
      || (long.Just? && Similar(true, long.value, known) == [l])
      || (short.Just? && Similar(false, short.value, known) == [l])
  }

  ghost predicate AllResolved(p: Pattern<Leaf>, known: seq<Leaf>) {
    forall l | l in Flat(p) :: Resolved(l, known)
  }

  /** What a usage pattern can show: not "..." as a command, not "--" as a short option, and no "..."
      after stacked short options. */
  predicate Showable(p: Pattern<Leaf>)
    decreases p
  {
    match p
    case Tip(l) => !(l.Command? && l.cmdName == "...") && !(l.Option? && l.short == Just("--"))
    case Branch(k, ps) => (k == OneOrMore ==> |ps| == 1) && forall i :: 0 <= i < |ps| ==> Showable(ps[i])
  }

  predicate AllShowable(ps: seq<Pattern<Leaf>>) {
    forall i :: 0 <= i < |ps| ==> Showable(ps[i])
  }

  ghost predicate Fine(p: Pattern<Leaf>, known: seq<Leaf>) {
    AllResolved(p, known) && (Showable(p) ==> NormalAtom(p, known))
  }

  ghost predicate FineAtoms(ps: seq<Pattern<Leaf>>, known: seq<Leaf>) {
    forall i :: 0 <= i < |ps| ==> Fine(ps[i], known)
  }

  ghost predicate FineSeq(ps: seq<Pattern<Leaf>>, known: seq<Leaf>) {
    forall i :: 0 <= i < |ps| ==> AllResolved(ps[i], known) && (Showable(ps[i]) ==> NormalItem(ps[i], known))
  }

  ghost predicate FineExpr(ps: seq<Pattern<Leaf>>, known: seq<Leaf>) {
    && (forall i :: 0 <= i < |ps| ==> AllResolved(ps[i], known))
    && (AllShowable(ps) ==> NormalExpr(ps, known))
  }

  /** Knowing more options changes nothing. */
  lemma LeafLater(l: Leaf, known: seq<Leaf>, later: seq<Leaf>)
    requires Extends(known, later)
    ensures Resolved(l, known) ==> Resolved(l, later)
    ensures PrintableLeaf(l, known) ==> PrintableLeaf(l, later)
  {
  }

  lemma ResolvedLater(p: Pattern<Leaf>, known: seq<Leaf>, later: seq<Leaf>)
    requires Extends(known, later) && AllResolved(p, known)
    ensures AllResolved(p, later)
  {
    forall l | l in Flat(p) ensures Resolved(l, later) {
      LeafLater(l, known, later);
    }
  }

  lemma {:induction false} AtomLater(p: Pattern<Leaf>, known: seq<Leaf>, later: seq<Leaf>)
    requires Extends(known, later) && NormalAtom(p, known)
    ensures NormalAtom(p, later)
    decreases p, 0
  {
    match p
    case Tip(l) => LeafLater(l, known, later);
    case Branch(_, ps) =>
      if NormalExpr(ps, known) {
        ExprLater(ps, known, later);
      }
  }

  lemma {:induction false} ItemLater(p: Pattern<Leaf>, known: seq<Leaf>, later: seq<Leaf>)
    requires Extends(known, later) && NormalItem(p, known)
    ensures NormalItem(p, later)
    decreases p, 1
  {
    AtomLater(if p.Branch? && p.kind == OneOrMore then p.children[0] else p, known, later);
  }

  lemma {:induction false} SeqLater(ps: seq<Pattern<Leaf>>, known: seq<Leaf>, later: seq<Leaf>)
    requires Extends(known, later) && NormalSeq(ps, known)
    ensures NormalSeq(ps, later)
    decreases ps, 1
  {
    forall i | 0 <= i < |ps| ensures NormalItem(ps[i], later) {
      ItemLater(ps[i], known, later);
    }
  }

  lemma {:induction false} ExprLater(ps: seq<Pattern<Leaf>>, known: seq<Leaf>, later: seq<Leaf>)
    requires Extends(known, later) && NormalExpr(ps, known)
    ensures NormalExpr(ps, later)
    decreases ps, 2
  {
    SeqLater(if IsChoice(ps) then ps[0].children else ps, known, later);
  }

  lemma FineSeqLater(ps: seq<Pattern<Leaf>>, known: seq<Leaf>, later: seq<Leaf>)
    requires Extends(known, later) && FineSeq(ps, known)
    ensures FineSeq(ps, later)
  {
    forall i | 0 <= i < |ps| ensures AllResolved(ps[i], later) && (Showable(ps[i]) ==> NormalItem(ps[i], later)) {
      ResolvedLater(ps[i], known, later);
      if Showable(ps[i]) {
        ItemLater(ps[i], known, later);
      }
    }
  }

  // ----- Options -----

  /** What every parser keeps of the waiting tokens and the known options. */
  ghost predicate Kept(known: seq<Leaf>, r: Parsed) {
    Made(r.options) && Extends(known, r.options) && Lexical(r.tokens)
  }

  lemma OneDash(s: string)
    requires |s| == 2 && s[0] == '-' && s != "--"
    ensures s[1] != '-'
  {
  }

  lemma FineOption(o: Leaf, known: seq<Leaf>)
    requires MadeOption(o) && (ByLong(o, known) || (o.short.Just? && Similar(false, o.short.value, known) == [o]))
    requires o.short.Just? && !ByLong(o, known) ==> |o.short.value| == 2 && o.short.value[0] == '-'
    ensures Fine(Tip(o), known)
  {
    if Showable(Tip(o)) && !ByLong(o, known) {
      OneDash(o.short.value);
      assert ByShort(o, known);
    }
  }

  lemma LexicalTail(tokens: seq<Token>)
    requires tokens != [] && Lexical(tokens)
    ensures Lexical(tokens[1..])
  {
  }

  lemma NoEquals(s: string)
    requires forall i :: 0 <= i < |s| ==> s[i] != '='
    ensures BeforeEquals(s) == |s|
  {
  }

  lemma LongPart(token: string)
    requires IsLong(token)
    ensures var n := BeforeEquals(token);
      2 <= n && StartsWith(token[..n], "--") && BeforeEquals(token[..n]) == n && (token[..n] == "--" ==> n < |token|)
  {
    var n := BeforeEquals(token);
    assert token[0] == '-' && token[1] == '-';
    assert n >= 2;
    NoEquals(token[..n]);
  }

  lemma LongFine(token: string, tokens: seq<Token>, options: seq<Leaf>)
    requires IsLong(token) && Lexical(tokens) && Made(options) && ParseLong(token, tokens, options).Ok?
    ensures var r := ParseLong(token, tokens, options).value;
      Kept(options, r) && |r.patterns| == 1 && FineAtoms(r.patterns, r.options)
  {
    var n := BeforeEquals(token);
    var long, similar := token[..n], Similar(true, token[..n], options);
    var r := ParseLong(token, tokens, options).value;
    LongPart(token);
    if |similar| < 1 {
      var o := NewOption(Nothing, Just(long), if n < |token| then 1 else 0, Bool(false));
      AddOption(options, o, true, long);
      FineOption(o, r.options);
    } else {
      SimilarMember(true, long, options, similar[0]);
      assert similar == [similar[0]];
      FineOption(similar[0], options);
      if tokens != [] {
        LexicalTail(tokens);
      }
    }
  }

  lemma FineCons(o: Leaf, known: seq<Leaf>, later: seq<Leaf>, rest: seq<Pattern<Leaf>>)
    requires Fine(Tip(o), known) && Extends(known, later) && FineAtoms(rest, later)
    ensures FineAtoms([Tip(o)] + rest, later)
  {
    ResolvedLater(Tip(o), known, later);
    if Showable(Tip(o)) {
      AtomLater(Tip(o), known, later);
    }
  }

  lemma {:induction false} ShortsFine(left: string, tokens: seq<Token>, options: seq<Leaf>)
    requires Lexical(tokens) && Made(options) && ParseShorts(left, tokens, options).Ok?
    ensures var r := ParseShorts(left, tokens, options).value;
      Kept(options, r) && FineAtoms(r.patterns, r.options) && (left != "" ==> r.patterns != [])
    decreases |left|
  {
    if left != "" {
      var short := "-" + [left[0]];
      var similar := Similar(false, short, options);
      if |similar| < 1 {
        var o := NewOption(Just(short), Nothing, 0, Bool(false));
        var known := options + [o];
        AddOption(options, o, false, short);
        FineOption(o, known);
        ShortsFine(left[1..], tokens, known);
        var r := ParseShorts(left[1..], tokens, known).value;
        ExtendsTrans(options, known, r.options);
        FineCons(o, known, r.options, r.patterns);
      } else {
        var o := similar[0];
        SimilarMember(false, short, options, o);
        assert similar == [o];
        assert o == NewOption(Just(short), o.long, o.argcount, o.value);
        FineOption(o, options);
        if o.argcount == 0 {
          ShortsFine(left[1..], tokens, options);
          var r := ParseShorts(left[1..], tokens, options).value;
          FineCons(o, options, r.options, r.patterns);
        } else if tokens != [] {
          LexicalTail(tokens);
        }
      }
    }
  }

  // ----- The grammar -----

  lemma TipFine(l: Leaf, t: Token, known: seq<Leaf>)
    requires Lex(Text(t)) == t
    requires match t
      case ArgumentWord(s) => l == Argument(Just(s), Null)
      case CommandWord(s) => l == Command(s, Bool(false))
      case Ellipsis => l == Command("...", Bool(false))
      case _ => false
    ensures Fine(Tip(l), known)
  {
  }

  lemma {:induction false} AtomFine(tokens: seq<Token>, options: seq<Leaf>)
    requires !SeqEnd(tokens) && Lexical(tokens) && Made(options) && ParseAtom(tokens, options).Ok?
    ensures var r := ParseAtom(tokens, options).value;
      Kept(options, r) && r.patterns != [] && FineAtoms(r.patterns, r.options)
    decreases |tokens|, 1
  {
    LexicalTail(tokens);
    var rest := tokens[1..];
    match tokens[0]
    case Open(square) => BracketFine(square, rest, options);
    case OptionsWord =>
    case Long(s) =>
      assert Lex(s) == Long(s);
      LongFine(s, rest, options);
    case Shorts(s) =>
      assert Lex(s) == Shorts(s);
      ShortsFine(s[1..], rest, options);
    case ArgumentWord(s) => TipFine(Argument(Just(s), Null), tokens[0], options);
    case CommandWord(s) => TipFine(Command(s, Bool(false)), tokens[0], options);
    case Ellipsis => TipFine(Command("...", Bool(false)), tokens[0], options);
  }

  lemma BranchResolved(kind: Kind, ps: seq<Pattern<Leaf>>, known: seq<Leaf>)
    requires forall i :: 0 <= i < |ps| ==> AllResolved(ps[i], known)
    ensures AllResolved(Branch(kind, ps), known)
  {
    forall l | l in FlatAll(ps) ensures Resolved(l, known) {
      var i := FlatAllFrom(ps, l);
    }
  }

  lemma {:induction false} FlatAllFrom(ps: seq<Pattern<Leaf>>, l: Leaf) returns (i: nat)
    requires l in FlatAll(ps)
    ensures i < |ps| && l in Flat(ps[i])
  {
    if l in Flat(ps[0]) {
      i := 0;
    } else {
      i := FlatAllFrom(ps[1..], l);
      i := i + 1;
    }
  }

  lemma {:induction false} BracketFine(square: bool, tokens: seq<Token>, options: seq<Leaf>)
    requires Lexical(tokens) && Made(options) && ParseBracket(square, tokens, options).Ok?
    ensures var r := ParseBracket(square, tokens, options).value;
      Kept(options, r) && |r.patterns| == 1 && FineAtoms(r.patterns, r.options)
    decreases |tokens|, 4
  {
    ExprFine(tokens, options);
    var inner := ParseExpr(tokens, options).value;
    LexicalTail(inner.tokens);
    BranchResolved(if square then Optional else Required, inner.patterns, inner.options);
  }

  /** An atom, with "..." after it or not, in front of a sequence. */
  lemma ItemFine(atom: seq<Pattern<Leaf>>, repeated: bool, known: seq<Leaf>, rest: seq<Pattern<Leaf>>, later: seq<Leaf>)
    requires FineAtoms(atom, known) && Extends(known, later) && FineSeq(rest, later)
    ensures FineSeq((if repeated then [Branch(OneOrMore, atom)] else atom) + rest, later)
  {
    var items := if repeated then [Branch(OneOrMore, atom)] else atom;
    if repeated {
      BranchResolved(OneOrMore, atom, known);
    }
    forall i | 0 <= i < |items| && Showable(items[i]) ensures NormalItem(items[i], known) {
      if repeated {
        assert Showable(atom[0]) && Fine(atom[0], known);
      } else {
        assert Fine(atom[i], known);
      }
    }
    assert FineSeq(items, known);
    FineSeqLater(items, known, later);
  }

  lemma {:induction false} SeqFine(tokens: seq<Token>, options: seq<Leaf>)
    requires Lexical(tokens) && Made(options) && ParseSeq(tokens, options).Ok?
    ensures var r := ParseSeq(tokens, options).value; Kept(options, r) && FineSeq(r.patterns, r.options)
    decreases |tokens|, 2
  {
    if !SeqEnd(tokens) {
      AtomFine(tokens, options);
      var atom := ParseAtom(tokens, options).value;
      var repeated := AtEllipsis(atom.tokens);
      var after := if repeated then atom.tokens[1..] else atom.tokens;
      SeqFine(after, atom.options);
      var r := ParseSeq(after, atom.options).value;
      ExtendsTrans(options, atom.options, r.options);
      ItemFine(atom.patterns, repeated, atom.options, r.patterns, r.options);
    }
  }

  /** A sequence, as one alternative. */
  lemma GroupedFine(ps: seq<Pattern<Leaf>>, known: seq<Leaf>)
    requires FineSeq(ps, known)
    ensures FineSeq(Grouped(ps), known)
  {
    if |ps| > 1 {
      var q := Branch(Required, ps);
      BranchResolved(Required, ps, known);
      if Showable(q) {
        assert NormalSeq(ps, known);
        assert NormalAtom(q, known);
      }
    }
  }

  lemma {:induction false} AlternativesFine(sofar: seq<Pattern<Leaf>>, tokens: seq<Token>, options: seq<Leaf>)
    requires FineSeq(sofar, options)
    requires Lexical(tokens) && Made(options) && ParseAlternatives(sofar, tokens, options).Ok?
    ensures var r := ParseAlternatives(sofar, tokens, options).value; Kept(options, r) && FineSeq(r.patterns, r.options)
    decreases |tokens|, 2
  {
    if AtBar(tokens) {
      SeqFine(tokens[1..], options);
      var next := ParseSeq(tokens[1..], options).value;
      FineSeqLater(sofar, options, next.options);
      GroupedFine(next.patterns, next.options);
      AlternativesFine(sofar + Grouped(next.patterns), next.tokens, next.options);
      ExtendsTrans(options, next.options, ParseAlternatives(sofar, tokens, options).value.options);
    }
  }

  lemma {:induction false} ExprFine(tokens: seq<Token>, options: seq<Leaf>)
    requires Lexical(tokens) && Made(options) && ParseExpr(tokens, options).Ok?
    ensures var r := ParseExpr(tokens, options).value; Kept(options, r) && FineExpr(r.patterns, r.options)
    decreases |tokens|, 3
  {
    SeqFine(tokens, options);
    var first := ParseSeq(tokens, options).value;
    if !AtBar(first.tokens) {
      SequenceFine(first.patterns, first.options);
    } else {
      GroupedFine(first.patterns, first.options);
      var alternatives := Grouped(first.patterns);
      AlternativesFine(alternatives, first.tokens, first.options);
      var r := ParseAlternatives(alternatives, first.tokens, first.options).value;
      ExtendsTrans(options, first.options, r.options);
      if |r.patterns| > 1 {
        ChoiceFine(r.patterns, r.options);
      } else {
        SequenceFine(r.patterns, r.options);
      }
    }
  }

  lemma SequenceFine(ps: seq<Pattern<Leaf>>, known: seq<Leaf>)
    requires FineSeq(ps, known)
    ensures FineExpr(ps, known)
  {
    if AllShowable(ps) {
      assert forall i :: 0 <= i < |ps| ==> NormalItem(ps[i], known);
      if |ps| == 1 {
        NotChoice(ps[0], known);
      }
    }
  }

  lemma NotChoice(p: Pattern<Leaf>, known: seq<Leaf>)
    requires NormalItem(p, known)
    ensures !(p.Branch? && p.kind == Either)
  {
    assert p.Branch? ==> p == Branch(p.kind, p.children);
  }

  lemma ChoiceFine(ps: seq<Pattern<Leaf>>, known: seq<Leaf>)
    requires FineSeq(ps, known) && |ps| > 1
    ensures FineExpr([Branch(Either, ps)], known)
  {
    var e := Branch(Either, ps);
    BranchResolved(Either, ps, known);
    if AllShowable([e]) {
      assert Showable([e][0]);
      assert IsChoice([e]) && NormalSeq(ps, known);
    }
  }

  // ----- What it means -----

  lemma LexAllLexical(text: seq<string>)
    ensures Lexical(LexAll(text))
  {
  }

  /** A parsed tree is in normal form for the options known in the end, but for the three things a
      usage pattern cannot show; so printing it and parsing again gives it back. */
  lemma ParsedIsNormal(text: seq<string>, options: seq<Leaf>)
    requires Made(options) && ParsePattern(LexAll(text), options).Ok?
    ensures var (p, known) := ParsePattern(LexAll(text), options).value;
      && Made(known) && Extends(options, known)
      && (Showable(p) ==> NormalExpr(p.children, known))
      && (Showable(p) ==> ParsePattern(LexAll(PrintText(p.children, known)), known) == Ok((p, known)))
  {
    LexAllLexical(text);
    ExprFine(LexAll(text), options);
    var (p, known) := ParsePattern(LexAll(text), options).value;
    if Showable(p) {
      assert AllShowable(p.children);
      RoundTrip(p.children, known);
    }
  }

  lemma SameKeyResolved(l: Leaf, m: Leaf, known: seq<Leaf>)
    requires Resolved(l, known) && Resolved(m, known) && DocoptFix.SameKey(l, m)
    ensures l == m
  {
    if l.Option? {
      if l.long.Just? && Similar(true, l.long.value, known) == [l] {
        NameDecides(true, l.long.value, l, m, known);
      } else {
        NameDecides(false, l.short.value, l, m, known);
      }
    }
  }

  lemma NameDecides(long: bool, name: string, l: Leaf, m: Leaf, known: seq<Leaf>)
    requires Similar(long, name, known) == [l] && m.Option? && (if long then m.long else m.short) == Just(name)
    requires Resolved(m, known)
    ensures l == m
  {
    if m.long.Just? && Similar(true, m.long.value, known) == [m] {
      SimilarMember(true, m.long.value, known, m);
    } else {
      SimilarMember(false, m.short.value, known, m);
    }
    SimilarMember(long, name, known, m);
    assert m in [l];
  }

  /** In a parsed tree, leaves of one class and name hold one value; so fix unites whatever is equal
      afterwards. Only the options that docopt fills into [options] can collide. */
  lemma ParsedKeysDecide(text: seq<string>, options: seq<Leaf>)
    requires Made(options) && ParsePattern(LexAll(text), options).Ok?
    ensures var (p, known) := ParsePattern(LexAll(text), options).value;
      DocoptFix.KeysDecide(p) && DocoptFix.NoneCollide(p)
  {
    LexAllLexical(text);
    ExprFine(LexAll(text), options);
    var (p, known) := ParsePattern(LexAll(text), options).value;
    BranchResolved(Required, p.children, known);
    forall l, m | l in Flat(p) && m in Flat(p) && DocoptFix.SameKey(l, m) ensures l == m {
      SameKeyResolved(l, m, known);
    }
    DocoptFix.StaysUnited(p);
  }

  lemma SeqStep(tokens: seq<Token>, p: Pattern<Leaf>, rest: seq<Token>, ps: seq<Pattern<Leaf>>, end: seq<Token>,
                options: seq<Leaf>)
    requires !SeqEnd(tokens) && ParseAtom(tokens, options) == Ok(Parsed([p], rest, options)) && !AtEllipsis(rest)
    requires ParseSeq(rest, options) == Ok(Parsed(ps, end, options))
    ensures ParseSeq(tokens, options) == Ok(Parsed([p] + ps, end, options))
  {
  }

  lemma BracketParses(square: bool, tokens: seq<Token>, ps: seq<Pattern<Leaf>>, rest: seq<Token>, options: seq<Leaf>)
    requires ParseSeq(tokens, options) == Ok(Parsed(ps, [Close(square)] + rest, options))
    ensures ParseAtom([Open(square)] + tokens, options) ==
      Ok(Parsed([Branch(if square then Optional else Required, ps)], rest, options))
  {
    assert ([Open(square)] + tokens)[1..] == tokens;
    assert ([Close(square)] + rest)[1..] == rest;
    assert ParseExpr(tokens, options) == Ok(Parsed(ps, [Close(square)] + rest, options));
  }

  /** [options], with no "..." behind it. */
  lemma ShortcutParses(rest: seq<Token>, ps: seq<Pattern<Leaf>>, end: seq<Token>, options: seq<Leaf>)
    requires !AtEllipsis(rest) && ParseSeq(rest, options) == Ok(Parsed(ps, end, options))
    ensures ParseSeq([Open(true), OptionsWord, Close(true)] + rest, options) ==
      Ok(Parsed([Branch(Optional, [Branch(OptionsShortcut, [])])] + ps, end, options))
  {
    var shortcut, close := Branch(OptionsShortcut, []), [Close(true)] + rest;
    var inner := [OptionsWord] + close;
    assert inner[1..] == close;
    assert ParseAtom(inner, options) == Ok(Parsed([shortcut], close, options));
    SeqStep(inner, shortcut, close, [], close, options);
    assert [shortcut] + [] == [shortcut];
    BracketParses(true, inner, [shortcut], rest, options);
    assert [Open(true)] + inner == [Open(true), OptionsWord, Close(true)] + rest;
    SeqStep([Open(true)] + inner, Branch(Optional, [shortcut]), rest, ps, end, options);
  }

  /** The usage `prog [options] [options]`: what it parses to, and what docopt makes of it with two options
      listed. */
  lemma OptionsTwiceParsed(options: seq<Leaf>, a: Leaf, b: Leaf)
    ensures var tokens := LexAll(["(", "[", "options", "]", "[", "options", "]", ")"]);
      && ParsePattern(tokens, options).Ok?
      && DocoptFix.Filled(ParsePattern(tokens, options).value.0, [a, b]) == DocoptFix.OptionsTwice(a, b)
  {
    var one, close := [Open(true), OptionsWord, Close(true)], [Close(false)];
    assert LexAll(["(", "[", "options", "]", "[", "options", "]", ")"]) == [Open(false)] + (one + (one + close));
    var shortcut := Branch(Optional, [Branch(OptionsShortcut, [])]);
    ShortcutParses(close, [], close, options);
    ShortcutParses(one + close, [shortcut] + [], close, options);
    var two := [shortcut] + ([shortcut] + []);
    assert [Close(false)] + [] == close;
    BracketParses(false, one + (one + close), two, [], options);
    var group := Branch(Required, two);
    SeqStep([Open(false)] + (one + (one + close)), group, [], [], [], options);
    assert [group] + [] == [group];
    TwiceFilled(a, b, two);
  }

  lemma TwiceFilled(a: Leaf, b: Leaf, two: seq<Pattern<Leaf>>)
    requires two == [Branch(Optional, [Branch(OptionsShortcut, [])]), Branch(Optional, [Branch(OptionsShortcut, [])])]
    ensures DocoptFix.Filled(Branch(Required, [Branch(Required, two)]), [a, b]) == DocoptFix.OptionsTwice(a, b)
  {
    var listed, filled := [a, b], Branch(OptionsShortcut, [Tip(a), Tip(b)]);
    assert DocoptFix.Filled(Branch(OptionsShortcut, []), listed).children == [Tip(a), Tip(b)];
    assert DocoptFix.Filled(two[0], listed).children == [filled];
    assert DocoptFix.Filled(two[1], listed).children == [filled];
    assert DocoptFix.Filled(Branch(Required, two), listed).children ==
      [Branch(Optional, [filled]), Branch(Optional, [filled])];
    assert DocoptFix.Filled(Branch(Required, [Branch(Required, two)]), listed).children ==
      [DocoptFix.Filled(Branch(Required, two), listed)];
  }
}
