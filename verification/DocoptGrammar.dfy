/**
 The recursive-descent parser of usage patterns of sw/ab_cal_scripts/lib/docopt.py, as functions
 from the tokens that are waiting to the trees, the tokens left and the known options.
 */
module DocoptGrammar {
  import opened DocoptPattern
  import opened Wrappers

  datatype Error =
    | NotUnique            // "... is not a unique prefix", "... is specified ambiguously"
    | UnexpectedArgument   // "... must not have an argument"
    | MissingArgument      // "... requires argument"
    | Unmatched            // "unmatched '('"
    | UnexpectedEnding     // "unexpected ending"
    | NoSuchBracket        // KeyError on a token that is a substring of "([" but no bracket

  datatype Parsed = Parsed(patterns: seq<Pattern<Leaf>>, tokens: seq<Token>, options: seq<Leaf>)

  type Parsing<+T> = Result<T, Error>

  // ----- Tokens -----

  predicate StartsWith(s: string, prefix: string) {
    prefix <= s
  }

  predicate EndsWith(s: string, suffix: string) {
    |suffix| <= |s| && s[|s| - |suffix|..] == suffix
  }

  predicate HasUpper(s: string) {
    exists i :: 0 <= i < |s| && 'A' <= s[i] <= 'Z'
  }

  predicate HasLower(s: string) {
    exists i :: 0 <= i < |s| && 'a' <= s[i] <= 'z'
  }

  /** str.isupper: some letter, and none in lower case. */
  predicate IsUpper(s: string) {
    HasUpper(s) && !HasLower(s)
  }

  /** The length of s up to its first '='. */
  function BeforeEquals(s: string): (n: nat)
    ensures n <= |s| && (n < |s| ==> s[n] == '=')
    ensures forall i :: 0 <= i < n ==> s[i] != '='
  {
    if s == "" || s[0] == '=' then 0 else 1 + BeforeEquals(s[1..])
  }

  predicate IsLong(token: string) {
    StartsWith(token, "--") && token != "--"
  }

  predicate IsShorts(token: string) {
    StartsWith(token, "-") && token != "-" && token != "--"
  }

  predicate IsArgument(token: string) {
    (StartsWith(token, "<") && EndsWith(token, ">")) || IsUpper(token)
  }

  /** What the parser distinguishes about a token. */
  datatype Token =
    | Open(square: bool)
    | Close(square: bool)
    | Bar
    | Ellipsis
    | OptionsWord
    | Long(text: string)
    | Shorts(text: string)
    | ArgumentWord(text: string)
    | CommandWord(text: string)
    | NoBracket

  function Lex(s: string): Token {
    if s == "" || s == "([" then NoBracket
    else if s == "(" then Open(false)
    else if s == "[" then Open(true)
    else if s == ")" then Close(false)
    else if s == "]" then Close(true)
    else if s == "|" then Bar
    else if s == "..." then Ellipsis
    else if s == "options" then OptionsWord
    else if IsLong(s) then Long(s)
    else if IsShorts(s) then Shorts(s)
    else if IsArgument(s) then ArgumentWord(s)
    else CommandWord(s)
  }

  function LexAll(ss: seq<string>): (tokens: seq<Token>)
    ensures |tokens| == |ss| && forall i :: 0 <= i < |ss| ==> tokens[i] == Lex(ss[i])
  {
    seq(|ss|, i requires 0 <= i < |ss| => Lex(ss[i]))
  }

  // ----- Options -----

  /** Option.__init__: a False value of an option with an argument becomes None. */
  function NewOption(short: Maybe<string>, long: Maybe<string>, argcount: nat, value: Value): Leaf {
    Option(short, long, argcount, if value == Bool(false) && argcount != 0 then Null else value)
  }

  /** The known options with that long, or short, name. */
  function Similar(long: bool, name: string, options: seq<Leaf>): (similar: seq<Leaf>)
    ensures forall i :: 0 <= i < |similar| ==> similar[i].Option?
  {
    if options == [] then []
    else
      var o := options[0];
      (if o.Option? && (if long then o.long else o.short) == Just(name) then [o] else []) +
        Similar(long, name, options[1..])
  }

  /** The argument of an option: given with it, or the next token. Its text is not kept. */
  function TakeValue(given: bool, tokens: seq<Token>): Parsing<seq<Token>> {
    if given then Ok(tokens)
    else if tokens == [] || tokens[0] == CommandWord("--") then Err(MissingArgument)
    else Ok(tokens[1..])
  }

  predicate Consumes(tokens: seq<Token>, r: Parsing<Parsed>, atLeast: nat) {
    r.Ok? ==> |r.value.tokens| + atLeast <= |tokens|
  }

  /** parse_long on a token that starts with "--"; `tokens` come after it. */
  function ParseLong(token: string, tokens: seq<Token>, options: seq<Leaf>): (r: Parsing<Parsed>)
    ensures Consumes(tokens, r, 0)
  {
    var n := BeforeEquals(token);
    var long, hasValue := token[..n], n < |token|;
    var similar := Similar(true, long, options);
    if |similar| > 1 then Err(NotUnique)
    else if |similar| < 1 then
      var o := NewOption(Nothing, Just(long), if hasValue then 1 else 0, Bool(false));
      Ok(Parsed([Tip(o)], tokens, options + [o]))
    else
      var s := similar[0];
      var o := NewOption(s.short, s.long, s.argcount, s.value);
      if o.argcount == 0 then
        if hasValue then Err(UnexpectedArgument) else Ok(Parsed([Tip(o)], tokens, options))
      else
        var rest :- TakeValue(hasValue, tokens);
        Ok(Parsed([Tip(o)], rest, options))
  }

  /** The loop of parse_shorts on the characters `left` of the token. */
  function ParseShorts(left: string, tokens: seq<Token>, options: seq<Leaf>): (r: Parsing<Parsed>)
    ensures Consumes(tokens, r, 0)
    decreases |left|
  {
    if left == "" then Ok(Parsed([], tokens, options))
    else
      var short := "-" + [left[0]];
      var similar := Similar(false, short, options);
      if |similar| > 1 then Err(NotUnique)
      else if |similar| < 1 then
        var o := NewOption(Just(short), Nothing, 0, Bool(false));
        var r :- ParseShorts(left[1..], tokens, options + [o]);
        Ok(r.(patterns := [Tip(o)] + r.patterns))
      else
        var s := similar[0];
        var o := NewOption(Just(short), s.long, s.argcount, s.value);
        if o.argcount == 0 then
          var r :- ParseShorts(left[1..], tokens, options);
          Ok(r.(patterns := [Tip(o)] + r.patterns))
        else
          var rest :- TakeValue(left[1..] != "", tokens);
          Ok(Parsed([Tip(o)], rest, options))
  }

  // ----- The grammar -----

  predicate AtBar(tokens: seq<Token>) {
    tokens != [] && tokens[0].Bar?
  }

  /** The end of the tokens, or a token no atom starts with. */
  predicate SeqEnd(tokens: seq<Token>) {
    tokens == [] || tokens[0].Close? || tokens[0].Bar?
  }

  predicate AtEllipsis(tokens: seq<Token>) {
    tokens != [] && tokens[0].Ellipsis?
  }

  /** An alternative of several patterns becomes one. */
  function Grouped(ps: seq<Pattern<Leaf>>): seq<Pattern<Leaf>> {
    if |ps| > 1 then [Branch(Required, ps)] else ps
  }

  /** seq ( '|' seq )* */
  function ParseExpr(tokens: seq<Token>, options: seq<Leaf>): (r: Parsing<Parsed>)
    ensures Consumes(tokens, r, 0)
    decreases |tokens|, 3
  {
    var first :- ParseSeq(tokens, options);
    if !AtBar(first.tokens) then Ok(first)
    else
      var r :- ParseAlternatives(Grouped(first.patterns), first.tokens, first.options);
      Ok(if |r.patterns| > 1 then r.(patterns := [Branch(Either, r.patterns)]) else r)
  }

  /** ( '|' seq )*, added to the alternatives so far */
  function ParseAlternatives(sofar: seq<Pattern<Leaf>>, tokens: seq<Token>, options: seq<Leaf>): (r: Parsing<Parsed>)
    ensures Consumes(tokens, r, 0)
    decreases |tokens|, 2
  {
    if !AtBar(tokens) then Ok(Parsed(sofar, tokens, options))
    else
      var next :- ParseSeq(tokens[1..], options);
      ParseAlternatives(sofar + Grouped(next.patterns), next.tokens, next.options)
  }

  /** ( atom [ '...' ] )* */
  function ParseSeq(tokens: seq<Token>, options: seq<Leaf>): (r: Parsing<Parsed>)
    ensures Consumes(tokens, r, 0)
    decreases |tokens|, 2
  {
    if SeqEnd(tokens) then Ok(Parsed([], tokens, options))
    else
      var atom :- ParseAtom(tokens, options);
      if AtEllipsis(atom.tokens) then
        var r :- ParseSeq(atom.tokens[1..], atom.options);
        Ok(r.(patterns := [Branch(OneOrMore, atom.patterns)] + r.patterns))
      else
        var r :- ParseSeq(atom.tokens, atom.options);
        Ok(r.(patterns := atom.patterns + r.patterns))
  }

  /** '(' expr ')' | '[' expr ']' | 'options' | long | shorts | argument | command */
  function ParseAtom(tokens: seq<Token>, options: seq<Leaf>): (r: Parsing<Parsed>)
    requires !SeqEnd(tokens)
    ensures Consumes(tokens, r, 1)
    decreases |tokens|, 1
  {
    var rest := tokens[1..];
    match tokens[0]
    case NoBracket => Err(NoSuchBracket)
    case Open(square) => ParseBracket(square, rest, options)
    case OptionsWord => Ok(Parsed([Branch(OptionsShortcut, [])], rest, options))
    case Long(s) => ParseLong(s, rest, options)
    case Shorts(s) => ParseShorts(if s == "" then "" else s[1..], rest, options)
    case ArgumentWord(s) => Ok(Parsed([Tip(Argument(Just(s), Null))], rest, options))
    case CommandWord(s) => Ok(Parsed([Tip(Command(s, Bool(false)))], rest, options))
    case Ellipsis => Ok(Parsed([Tip(Command("...", Bool(false)))], rest, options))
  }

  /** What follows an opening bracket, up to and with the closing one. */
  function ParseBracket(square: bool, tokens: seq<Token>, options: seq<Leaf>): (r: Parsing<Parsed>)
    ensures Consumes(tokens, r, 0)
    decreases |tokens|, 4
  {
    var inner :- ParseExpr(tokens, options);
    if inner.tokens == [] || inner.tokens[0] != Close(square) then Err(Unmatched)
    else Ok(Parsed([Branch(if square then Optional else Required, inner.patterns)], inner.tokens[1..], inner.options))
  }

  /** parse_pattern on tokens: a whole usage pattern. */
  function ParsePattern(tokens: seq<Token>, options: seq<Leaf>): Parsing<(Pattern<Leaf>, seq<Leaf>)> {
    var r :- ParseExpr(tokens, options);
    if r.tokens != [] then Err(UnexpectedEnding) else Ok((Branch(Required, r.patterns), r.options))
  }
}
