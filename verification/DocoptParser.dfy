/**
 The parser as sw/ab_cal_scripts/lib/docopt.py runs it: `parse_*` take tokens off one shared list
 and add the options they meet to another. Each method is the function of DocoptGrammar.
 */
module DocoptParser {
  import opened DocoptGrammar
  import opened DocoptPattern
  import opened Wrappers

  /** The class Tokens: a list of strings, taken from the front. */
  class Tokens {
    var items: seq<string>

    constructor (source: seq<string>)
      ensures items == source
    {
      items := source;
    }

    method Move() returns (token: Maybe<string>)
      modifies this
      ensures old(items) == [] ==> token == Nothing && items == []
      ensures old(items) != [] ==> token == Just(old(items)[0]) && items == old(items)[1..]
    {
      token := Nothing;
      if |items| > 0 {
        token := Just(items[0]);
        items := items[1..];
      }
    }

    function Current(): (token: Maybe<string>)
      reads this
      ensures token.Just? <==> items != []
      ensures token.Just? ==> LexAll(items) != [] && LexAll(items)[0] == Lex(token.value)
    {
      if |items| > 0 then Just(items[0]) else Nothing
    }
  }

  /** The list of known options. */
  class Options {
    var items: seq<Leaf>

    constructor (source: seq<Leaf>)
      ensures items == source
    {
      items := source;
    }
  }

  /** The outcome of a method, and the lists after it, are those of the specification. */
  ghost predicate Follows(spec: Parsing<Parsed>, r: Parsing<seq<Pattern<Leaf>>>, tokens: seq<string>,
                          options: seq<Leaf>) {
    match spec
    case Err(e) => r == Err(e)
    case Ok(p) => r == Ok(p.patterns) && LexAll(tokens) == p.tokens && options == p.options
  }

  lemma LexTail(ss: seq<string>)
    requires ss != []
    ensures LexAll(ss)[1..] == LexAll(ss[1..])
  {
  }

  /** Take the argument of an option, unless it was given with it. */
  method MoveValue(given: bool, tokens: Tokens) returns (r: Parsing<seq<Pattern<Leaf>>>)
    modifies tokens
    ensures var spec := TakeValue(given, LexAll(old(tokens.items)));
      match spec
      case Err(e) => r == Err(e)
      case Ok(rest) => r == Ok([]) && LexAll(tokens.items) == rest
  {
    if !given {
      if tokens.Current() in [Nothing, Just("--")] {
        return Err(MissingArgument);
      }
      LexTail(tokens.items);
      var value := tokens.Move();
    }
    r := Ok([]);
  }

  method ParseLongToken(token: string, tokens: Tokens, options: Options) returns (r: Parsing<seq<Pattern<Leaf>>>)
    modifies tokens, options
    ensures Follows(ParseLong(token, LexAll(old(tokens.items)), old(options.items)), r, tokens.items, options.items)
  {
    var n := BeforeEquals(token);
    var long, hasValue := token[..n], n < |token|;
    var similar := Similar(true, long, options.items);
    if |similar| > 1 {
      return Err(NotUnique);
    } else if |similar| < 1 {
      var o := NewOption(Nothing, Just(long), if hasValue then 1 else 0, Bool(false));
      options.items := options.items + [o];
      return Ok([Tip(o)]);
    }
    var o := NewOption(similar[0].short, similar[0].long, similar[0].argcount, similar[0].value);
    if o.argcount == 0 {
      if hasValue {
        return Err(UnexpectedArgument);
      }
    } else {
      var v := MoveValue(hasValue, tokens);
      if v.Err? {
        return v;
      }
    }
    r := Ok([Tip(o)]);
  }

  /** The specification with patterns already parsed in front. */
  ghost function Prefixed(parsed: seq<Pattern<Leaf>>, spec: Parsing<Parsed>): Parsing<Parsed> {
    match spec
    case Err(e) => spec
    case Ok(p) => Ok(p.(patterns := parsed + p.patterns))
  }

  lemma PrefixedTwice(a: seq<Pattern<Leaf>>, b: seq<Pattern<Leaf>>, spec: Parsing<Parsed>)
    ensures Prefixed(a, Prefixed(b, spec)) == Prefixed(a + b, spec)
    ensures Prefixed([], spec) == spec
  {
    if spec.Ok? {
      assert a + (b + spec.value.patterns) == (a + b) + spec.value.patterns;
      assert [] + spec.value.patterns == spec.value.patterns;
    }
  }

  lemma PrefixedNil(parsed: seq<Pattern<Leaf>>, tokens: seq<Token>, options: seq<Leaf>)
    ensures Prefixed(parsed, Ok(Parsed([], tokens, options))) == Ok(Parsed(parsed, tokens, options))
  {
    assert parsed + [] == parsed;
  }

  method ParseShortsToken(token: string, tokens: Tokens, options: Options) returns (r: Parsing<seq<Pattern<Leaf>>>)
    requires token != ""
    modifies tokens, options
    ensures Follows(ParseShorts(token[1..], LexAll(old(tokens.items)), old(options.items)), r, tokens.items,
      options.items)
  {
    ghost var spec := ParseShorts(token[1..], LexAll(tokens.items), options.items);
    var left := token[1..];
    var parsed: seq<Pattern<Leaf>> := [];
    PrefixedTwice([], [], spec);
    while left != ""
      invariant Prefixed(parsed, ParseShorts(left, LexAll(tokens.items), options.items)) == spec
      decreases |left|
    {
      ghost var here := ParseShorts(left, LexAll(tokens.items), options.items);
      var short := "-" + [left[0]];
      left := left[1..];
      var similar := Similar(false, short, options.items);
      var o;
      if |similar| > 1 {
        return Err(NotUnique);
      } else if |similar| < 1 {
        o := NewOption(Just(short), Nothing, 0, Bool(false));
        options.items := options.items + [o];
      } else {
        o := NewOption(Just(short), similar[0].long, similar[0].argcount, similar[0].value);
        if o.argcount != 0 {
          var v := MoveValue(left != "", tokens);
          if v.Err? {
            return v;
          }
          left := "";
        }
      }
      PrefixedNil([Tip(o)], LexAll(tokens.items), options.items);
      assert here == Prefixed([Tip(o)], ParseShorts(left, LexAll(tokens.items), options.items));
      PrefixedTwice(parsed, [Tip(o)], ParseShorts(left, LexAll(tokens.items), options.items));
      parsed := parsed + [Tip(o)];
    }
    PrefixedNil(parsed, LexAll(tokens.items), options.items);
    r := Ok(parsed);
  }

  method ParsePatternTokens(tokens: Tokens, options: Options) returns (r: Parsing<Pattern<Leaf>>)
    modifies tokens, options
    ensures match ParsePattern(LexAll(old(tokens.items)), old(options.items))
      case Err(e) => r == Err(e)
      case Ok((p, known)) => r == Ok(p) && tokens.items == [] && options.items == known
  {
    var e := ParseExprTokens(tokens, options);
    if e.Err? {
      return Err(e.error);
    }
    if tokens.Current() != Nothing {
      return Err(UnexpectedEnding);
    }
    r := Ok(Branch(Required, e.value));
  }

  method ParseExprTokens(tokens: Tokens, options: Options) returns (r: Parsing<seq<Pattern<Leaf>>>)
    modifies tokens, options
    ensures Follows(ParseExpr(LexAll(old(tokens.items)), old(options.items)), r, tokens.items, options.items)
    decreases |tokens.items|, 5
  {
    var s := ParseSeqTokens(tokens, options);
    if s.Err? || tokens.Current() != Just("|") {
      return s;
    }
    r := ParseAlternativesTokens(if |s.value| > 1 then [Branch(Required, s.value)] else s.value, tokens, options);
    if r.Ok? && |r.value| > 1 {
      r := Ok([Branch(Either, r.value)]);
    }
  }

  /** The loop over the alternatives, from the first of them on. */
  method ParseAlternativesTokens(first: seq<Pattern<Leaf>>, tokens: Tokens, options: Options)
      returns (r: Parsing<seq<Pattern<Leaf>>>)
    modifies tokens, options
    ensures Follows(ParseAlternatives(first, LexAll(old(tokens.items)), old(options.items)), r, tokens.items,
      options.items)
    decreases |tokens.items|, 4
  {
    ghost var size := |tokens.items|;
    ghost var spec := ParseAlternatives(first, LexAll(tokens.items), options.items);
    var result := first;
    while tokens.Current() == Just("|")
      invariant |tokens.items| <= size
      invariant ParseAlternatives(result, LexAll(tokens.items), options.items) == spec
      decreases |tokens.items|
    {
      LexTail(tokens.items);
      var bar := tokens.Move();
      var s := ParseSeqTokens(tokens, options);
      if s.Err? {
        return s;
      }
      result := result + if |s.value| > 1 then [Branch(Required, s.value)] else s.value;
    }
    r := Ok(result);
  }

  /** The waiting token ends a sequence. */
  predicate EndsSeq(token: Maybe<string>) {
    token in [Nothing, Just("]"), Just(")"), Just("|")]
  }

  lemma EndsSeqIsSeqEnd(tokens: seq<string>)
    ensures SeqEnd(LexAll(tokens)) <==> EndsSeq(if tokens == [] then Nothing else Just(tokens[0]))
  {
  }

  method ParseSeqTokens(tokens: Tokens, options: Options) returns (r: Parsing<seq<Pattern<Leaf>>>)
    modifies tokens, options
    ensures Follows(ParseSeq(LexAll(old(tokens.items)), old(options.items)), r, tokens.items, options.items)
    decreases |tokens.items|, 3
  {
    ghost var size := |tokens.items|;
    ghost var spec := ParseSeq(LexAll(tokens.items), options.items);
    var result: seq<Pattern<Leaf>> := [];
    PrefixedTwice([], [], spec);
    EndsSeqIsSeqEnd(tokens.items);
    while !EndsSeq(tokens.Current())
      invariant |tokens.items| <= size
      invariant SeqEnd(LexAll(tokens.items)) <==> EndsSeq(tokens.Current())
      invariant Prefixed(result, ParseSeq(LexAll(tokens.items), options.items)) == spec
      decreases |tokens.items|
    {
      var item := ParseItemTokens(tokens, options);
      if item.Err? {
        return item;
      }
      PrefixedTwice(result, item.value, ParseSeq(LexAll(tokens.items), options.items));
      result := result + item.value;
      EndsSeqIsSeqEnd(tokens.items);
    }
    PrefixedNil(result, LexAll(tokens.items), options.items);
    r := Ok(result);
  }

  /** One turn of the loop of parse_seq: an atom, and the "..." after it. */
  method ParseItemTokens(tokens: Tokens, options: Options) returns (r: Parsing<seq<Pattern<Leaf>>>)
    requires !SeqEnd(LexAll(tokens.items))
    modifies tokens, options
    ensures var spec := ParseSeq(LexAll(old(tokens.items)), old(options.items));
      match r
      case Err(e) => spec == Err(e)
      case Ok(item) => spec == Prefixed(item, ParseSeq(LexAll(tokens.items), options.items))
    ensures r.Ok? ==> |tokens.items| < |old(tokens.items)|
    decreases |tokens.items|, 2
  {
    var a := ParseAtomTokens(tokens, options);
    if a.Err? {
      return a;
    }
    var atom := a.value;
    if tokens.Current() == Just("...") {
      atom := [Branch(OneOrMore, atom)];
      LexTail(tokens.items);
      var dots := tokens.Move();
    }
    r := Ok(atom);
  }

  method ParseAtomTokens(tokens: Tokens, options: Options) returns (r: Parsing<seq<Pattern<Leaf>>>)
    requires !SeqEnd(LexAll(tokens.items))
    modifies tokens, options
    ensures Follows(ParseAtom(LexAll(old(tokens.items)), old(options.items)), r, tokens.items, options.items)
    decreases |tokens.items|, 1
  {
    var token := tokens.Current().value;
    LexTail(tokens.items);
    assert LexAll(tokens.items) == [Lex(token)] + LexAll(tokens.items[1..]);
    var opening := tokens.Move();
    if token in ["", "(", "[", "(["] {
      if token in ["", "(["] {
        return Err(NoSuchBracket);
      }
      r := ParseBracketTokens(token, tokens, options);
    } else {
      r := ParseLeafTokens(token, tokens, options);
    }
  }

  /** Behind an opening bracket. */
  method ParseBracketTokens(token: string, tokens: Tokens, options: Options) returns (r: Parsing<seq<Pattern<Leaf>>>)
    requires token in ["(", "["]
    modifies tokens, options
    ensures Follows(ParseBracket(token == "[", LexAll(old(tokens.items)), old(options.items)), r, tokens.items,
      options.items)
    decreases |tokens.items|, 6
  {
    var e := ParseExprTokens(tokens, options);
    if e.Err? {
      return e;
    }
    var closes := tokens.Current() == Just(if token == "(" then ")" else "]");
    if tokens.items != [] {
      LexTail(tokens.items);
    }
    var closing := tokens.Move();
    if !closes {
      return Err(Unmatched);
    }
    r := Ok([Branch(if token == "(" then Required else Optional, e.value)]);
  }

  /** A token that is no bracket and ends no sequence. */
  ghost predicate LeafToken(token: string) {
    var t := Lex(token);
    !t.NoBracket? && !t.Open? && !t.Close? && !t.Bar?
  }

  lemma LeafAtom(token: string, rest: seq<Token>, options: seq<Leaf>)
    requires LeafToken(token)
    ensures ParseAtom([Lex(token)] + rest, options) ==
      if token == "options" then Ok(Parsed([Branch(OptionsShortcut, [])], rest, options))
      else if IsLong(token) then ParseLong(token, rest, options)
      else if IsShorts(token) then ParseShorts(token[1..], rest, options)
      else if IsArgument(token) then Ok(Parsed([Tip(Argument(Just(token), Null))], rest, options))
      else Ok(Parsed([Tip(Command(token, Bool(false)))], rest, options))
  {
    var all := [Lex(token)] + rest;
    assert all[0] == Lex(token) && all[1..] == rest;
  }

  method ParseLeafTokens(token: string, tokens: Tokens, options: Options) returns (r: Parsing<seq<Pattern<Leaf>>>)
    requires LeafToken(token)
    modifies tokens, options
    ensures Follows(ParseAtom([Lex(token)] + LexAll(old(tokens.items)), old(options.items)), r, tokens.items,
      options.items)
  {
    LeafAtom(token, LexAll(tokens.items), options.items);
    if token == "options" {
      r := Ok([Branch(OptionsShortcut, [])]);
    } else if IsLong(token) {
      r := ParseLongToken(token, tokens, options);
    } else if IsShorts(token) {
      r := ParseShortsToken(token, tokens, options);
    } else if IsArgument(token) {
      r := Ok([Tip(Argument(Just(token), Null))]);
    } else {
      r := Ok([Tip(Command(token, Bool(false)))]);
    }
  }
}
