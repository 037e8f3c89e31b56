/**
 What the parser of sw/ab_cal_scripts/lib/docopt.py makes of an option token, in terms of the characters
 of the token and of the options that have its name.
 */
module DocoptOptions {
  import opened DocoptGrammar
  import opened DocoptPattern
  import opened Wrappers

  predicate Known(o: Leaf, long: bool, name: string) {
    o.Option? && (if long then o.long else o.short) == Just(name)
  }

  ghost predicate Unknown(long: bool, name: string, options: seq<Leaf>) {
    forall i :: 0 <= i < |options| ==> !Known(options[i], long, name)
  }

  ghost predicate Ambiguous(long: bool, name: string, options: seq<Leaf>) {
    exists i, j :: 0 <= i < j < |options| && Known(options[i], long, name) && Known(options[j], long, name)
  }

  /** o is the one option of that name. */
  ghost predicate Unique(o: Leaf, long: bool, name: string, options: seq<Leaf>) {
    exists i :: 0 <= i < |options| && options[i] == o && Known(o, long, name)
      && forall j :: 0 <= j < |options| && j != i ==> !Known(options[j], long, name)
  }

  /** How many known options have the name decides which of the three holds. */
  ghost predicate Counted(long: bool, name: string, options: seq<Leaf>, similar: seq<Leaf>) {
    && (|similar| == 0 <==> Unknown(long, name, options))
    && (|similar| > 1 <==> Ambiguous(long, name, options))
    && forall o :: similar == [o] <==> Unique(o, long, name, options)
  }

  lemma UnknownBehind(long: bool, name: string, first: Leaf, rest: seq<Leaf>)
    ensures Unknown(long, name, [first] + rest) <==> !Known(first, long, name) && Unknown(long, name, rest)
  {
    var all := [first] + rest;
    if Unknown(long, name, all) {
      forall i | 0 <= i < |rest| ensures !Known(rest[i], long, name) {
        assert rest[i] == all[i + 1];
      }
      assert all[0] == first;
    }
  }

  lemma KnownFirst(long: bool, name: string, first: Leaf, rest: seq<Leaf>)
    requires Known(first, long, name)
    ensures Ambiguous(long, name, [first] + rest) <==> !Unknown(long, name, rest)
  {
    var all := [first] + rest;
    if Ambiguous(long, name, all) {
      var i, j :| 0 <= i < j < |all| && Known(all[i], long, name) && Known(all[j], long, name);
      assert Known(rest[j - 1], long, name);
    }
    if !Unknown(long, name, rest) {
      var i :| 0 <= i < |rest| && Known(rest[i], long, name);
      assert Known(all[0], long, name) && Known(all[i + 1], long, name);
    }
  }

  lemma UnknownFirst(long: bool, name: string, first: Leaf, rest: seq<Leaf>)
    requires !Known(first, long, name)
    ensures Ambiguous(long, name, [first] + rest) <==> Ambiguous(long, name, rest)
  {
    var all := [first] + rest;
    if Ambiguous(long, name, all) {
      var i, j :| 0 <= i < j < |all| && Known(all[i], long, name) && Known(all[j], long, name);
      assert Known(rest[i - 1], long, name) && Known(rest[j - 1], long, name);
    }
    if Ambiguous(long, name, rest) {
      var i, j :| 0 <= i < j < |rest| && Known(rest[i], long, name) && Known(rest[j], long, name);
      assert Known(all[i + 1], long, name) && Known(all[j + 1], long, name);
    }
  }

  lemma FirstUnique(o: Leaf, long: bool, name: string, first: Leaf, rest: seq<Leaf>)
    requires Known(first, long, name)
    ensures Unique(o, long, name, [first] + rest) <==> o == first && Unknown(long, name, rest)
  {
    var all := [first] + rest;
    assert forall i :: 1 <= i < |all| ==> all[i] == rest[i - 1];
    assert forall i :: 0 <= i < |rest| ==> rest[i] == all[i + 1];
    if o == first && Unknown(long, name, rest) {
      assert all[0] == o;
    }
    if Unique(o, long, name, all) {
      assert Known(all[0], long, name);
    }
  }

  lemma CountedBehind(long: bool, name: string, first: Leaf, rest: seq<Leaf>, similar: seq<Leaf>)
    requires Counted(long, name, rest, similar)
    ensures Counted(long, name, [first] + rest, if Known(first, long, name) then [first] + similar else similar)
  {
    UnknownBehind(long, name, first, rest);
    if Known(first, long, name) {
      KnownFirst(long, name, first, rest);
      forall o ensures Unique(o, long, name, [first] + rest) <==> [first] + similar == [o] {
        FirstUnique(o, long, name, first, rest);
        assert [first] + similar == [o] ==> |similar| == 0 && ([first] + similar)[0] == o;
      }
    } else {
      UnknownFirst(long, name, first, rest);
      forall o ensures Unique(o, long, name, [first] + rest) <==> Unique(o, long, name, rest) {
        UniqueBehind(o, long, name, first, rest);
      }
    }
  }

  lemma UniqueBehind(o: Leaf, long: bool, name: string, first: Leaf, rest: seq<Leaf>)
    requires !Known(first, long, name)
    ensures Unique(o, long, name, [first] + rest) <==> Unique(o, long, name, rest)
  {
    var all := [first] + rest;
    assert forall i :: 1 <= i < |all| ==> all[i] == rest[i - 1];
    if Unique(o, long, name, rest) {
      var i :| 0 <= i < |rest| && rest[i] == o && Known(o, long, name)
        && forall j :: 0 <= j < |rest| && j != i ==> !Known(rest[j], long, name);
      assert all[i + 1] == o;
    }
    if Unique(o, long, name, all) {
      var i :| 0 <= i < |all| && all[i] == o && Known(o, long, name)
        && forall j :: 0 <= j < |all| && j != i ==> !Known(all[j], long, name);
      assert rest[i - 1] == o;
      forall j | 0 <= j < |rest| && j != i - 1 ensures !Known(rest[j], long, name) {
        assert rest[j] == all[j + 1];
      }
    }
  }

  lemma {:induction false} SimilarCounts(long: bool, name: string, options: seq<Leaf>)
    ensures Counted(long, name, options, Similar(long, name, options))
    decreases |options|
  {
    if options != [] {
      SimilarCounts(long, name, options[1..]);
      CountedBehind(long, name, options[0], options[1..], Similar(long, name, options[1..]));
      assert options == [options[0]] + options[1..];
    }
  }

  // ----- Long options -----

  /** As Option.__init__ leaves the value of a known option. */
  predicate SameBut(o: Leaf, k: Leaf) {
    && o.Option? && k.Option? && o.argcount == k.argcount
    && o.value == if k.value == Bool(false) && k.argcount != 0 then Null else k.value
  }

  predicate NoArgument(tokens: seq<Token>) {
    tokens == [] || tokens[0] == CommandWord("--")
  }

  lemma BeforeText(name: string, more: string)
    requires '=' !in name && (more == "" || more[0] == '=')
    ensures BeforeEquals(name + more) == |name|
    decreases |name|
  {
    if name == "" {
      assert name + more == more;
    } else {
      assert (name + more)[0] == name[0] && name[0] in name;
      assert (name + more)[1..] == name[1..] + more;
      BeforeText(name[1..], more);
    }
  }

  /** What a token `--name` or `--name=value` means, for any known options: when it is which error, which
      leaf it becomes, what becomes known and whether the next token is its argument. */
  lemma LongMeans(name: string, given: Maybe<string>, tokens: seq<Token>, options: seq<Leaf>)
    requires '=' !in name
    ensures var token := if given.Just? then name + "=" + given.value else name;
      var r := ParseLong(token, tokens, options);
      && (r == Err(NotUnique) <==> Ambiguous(true, name, options))
      && (r == Err(UnexpectedArgument) <==>
            given.Just? && exists k :: Unique(k, true, name, options) && k.argcount == 0)
      && (r == Err(MissingArgument) <==>
            given.Nothing? && NoArgument(tokens) && exists k :: Unique(k, true, name, options) && k.argcount != 0)
      && (r.Err? ==> r.error in {NotUnique, UnexpectedArgument, MissingArgument})
      && (r.Ok? && Unknown(true, name, options) ==>
            var o := if given.Just? then Option(Nothing, Just(name), 1, Null)
                     else Option(Nothing, Just(name), 0, Bool(false));
            r.value == Parsed([Tip(o)], tokens, options + [o]))
      && (forall k | r.Ok? && Unique(k, true, name, options) ::
            && r.value.options == options
            && r.value.tokens == (if k.argcount != 0 && given.Nothing? then tokens[1..] else tokens)
            && |r.value.patterns| == 1 && r.value.patterns[0].Tip?
            && var o := r.value.patterns[0].leaf; SameBut(o, k) && o.long == Just(name) && o.short == k.short)
  {
    var more := if given.Just? then "=" + given.value else "";
    BeforeText(name, more);
    SimilarCounts(true, name, options);
    var token := if given.Just? then name + "=" + given.value else name;
    assert token == name + more && token[..|name|] == name;
    var similar := Similar(true, name, options);
    if |similar| == 1 {
      assert similar == [similar[0]] && Unique(similar[0], true, name, options);
    }
  }

  // ----- Stacked short options -----

  function Short(c: char): string {
    "-" + [c]
  }

  /** What an unknown letter becomes. */
  function NewShort(c: char): Leaf {
    Option(Just(Short(c)), Nothing, 0, Bool(false))
  }

  /** o is the leaf of this letter. */
  ghost predicate IsLetter(o: Leaf, c: char, options: seq<Leaf>) {
    && o.Option? && o.short == Just(Short(c))
    && (Unknown(false, Short(c), options) ==> o == NewShort(c))
    && forall k | Unique(k, false, Short(c), options) :: SameBut(o, k) && o.long == k.long
  }

  /** What the known options say about letters: which two options have, which belong to an option with an
      argument, and which leaf each becomes. */
  datatype Letters = Letters(ambiguous: iset<char>, taking: iset<char>, leaves: iset<(Leaf, char)>)

  ghost function LettersOf(options: seq<Leaf>): Letters {
    Letters(iset c: char | Ambiguous(false, Short(c), options),
            iset c: char | exists k :: Unique(k, false, Short(c), options) && k.argcount != 0,
            iset o: Leaf, c: char | IsLetter(o, c, options) :: (o, c))
  }

  /** Nothing stops the loop before letter i. */
  ghost predicate Reached(left: string, i: int, letters: Letters) {
    forall j :: 0 <= j < i <= |left| ==> left[j] !in letters.ambiguous && left[j] !in letters.taking
  }

  ghost predicate LettersMean(left: string, tokens: seq<Token>, letters: Letters, r: Parsed) {
    var n := |r.patterns|;
    && n <= |left| && Reached(left, n - 1, letters)
    && (forall i :: 0 <= i < n ==> r.patterns[i].Tip? && (r.patterns[i].leaf, left[i]) in letters.leaves)
    && (n < |left| ==> n > 0 && left[n - 1] in letters.taking)
    && if n > 0 && n == |left| && left[n - 1] in letters.taking then tokens != [] && r.tokens == tokens[1..]
       else r.tokens == tokens
  }

  /** An ambiguous letter is reached. */
  ghost predicate ReachesAmbiguous(left: string, letters: Letters) {
    exists i :: 0 <= i < |left| && Reached(left, i, letters) && left[i] in letters.ambiguous
  }

  /** The last letter is reached, and takes an argument. */
  ghost predicate EndsTaking(left: string, letters: Letters) {
    left != "" && Reached(left, |left| - 1, letters) && left[|left| - 1] in letters.taking
  }

  ghost predicate ShortsOutcome(left: string, tokens: seq<Token>, letters: Letters, r: Parsing<Parsed>) {
    && (r == Err(NotUnique) <==> ReachesAmbiguous(left, letters))
    && (r == Err(MissingArgument) <==> EndsTaking(left, letters) && NoArgument(tokens))
    && (r.Err? ==> r.error in {NotUnique, MissingArgument})
    && (r.Ok? ==> LettersMean(left, tokens, letters, r.value))
  }

  lemma {:induction false} SimilarAppend(long: bool, name: string, a: seq<Leaf>, b: seq<Leaf>)
    ensures Similar(long, name, a + b) == Similar(long, name, a) + Similar(long, name, b)
  {
    if a == [] {
      assert a + b == b;
    } else {
      assert (a + b)[1..] == a[1..] + b;
      SimilarAppend(long, name, a[1..], b);
    }
  }

  /** The known options with a new letter among them. */
  lemma WithNewShort(c: char, d: char, options: seq<Leaf>)
    requires Unknown(false, Short(c), options)
    ensures var later := options + [NewShort(c)];
      && (Ambiguous(false, Short(d), later) <==> Ambiguous(false, Short(d), options))
      && (Unknown(false, Short(d), later) <==> Unknown(false, Short(d), options) && d != c)
      && forall k :: Unique(k, false, Short(d), later) <==>
        Unique(k, false, Short(d), options) || (d == c && k == NewShort(c))
  {
    var o := NewShort(c);
    var s, t := Similar(false, Short(d), options), Similar(false, Short(d), options + [o]);
    SimilarCounts(false, Short(d), options);
    SimilarCounts(false, Short(d), options + [o]);
    SimilarAppend(false, Short(d), options, [o]);
    assert [o][1..] == [];
    assert Short(c)[1] == c && Short(d)[1] == d;
    assert t == if c == d then s + [o] else s + [];
    if c == d {
      assert s == [] && t == [o];
    }
  }

  lemma NewShortSame(c: char, options: seq<Leaf>)
    requires Unknown(false, Short(c), options)
    ensures LettersOf(options + [NewShort(c)]) == LettersOf(options)
  {
    var later := options + [NewShort(c)];
    var a, b := LettersOf(options), LettersOf(later);
    forall d: char ensures (d in a.ambiguous <==> d in b.ambiguous) && (d in a.taking <==> d in b.taking) {
      WithNewShort(c, d, options);
    }
    forall o: Leaf, d: char ensures IsLetter(o, d, options) <==> IsLetter(o, d, later) {
      WithNewShort(c, d, options);
      if d == c {
        assert Unique(NewShort(c), false, Short(d), later);
      }
    }
    assert a.leaves == b.leaves;
  }

  lemma ReachedBehind(c: char, rest: string, i: nat, letters: Letters)
    requires c !in letters.ambiguous && c !in letters.taking && i <= |rest|
    ensures Reached([c] + rest, i + 1, letters) <==> Reached(rest, i, letters)
  {
    var left := [c] + rest;
    if Reached(rest, i, letters) {
      assert forall j :: 1 <= j < i + 1 ==> left[j] == rest[j - 1];
    }
    if Reached(left, i + 1, letters) {
      forall j | 0 <= j < i ensures rest[j] !in letters.ambiguous && rest[j] !in letters.taking {
        assert left[j + 1] == rest[j];
      }
    }
  }

  /** A letter that does not stop the loop, in front of others: the leaves. */
  lemma LettersBehind(c: char, rest: string, tokens: seq<Token>, letters: Letters, o: Leaf, r: Parsed)
    requires c !in letters.ambiguous && c !in letters.taking && (o, c) in letters.leaves
    requires LettersMean(rest, tokens, letters, r)
    ensures LettersMean([c] + rest, tokens, letters, r.(patterns := [Tip(o)] + r.patterns))
  {
    var left, ps, n := [c] + rest, [Tip(o)] + r.patterns, |r.patterns|;
    if n > 0 {
      ReachedBehind(c, rest, n - 1, letters);
      assert left[n] == rest[n - 1];
    }
    forall i | 0 <= i < n + 1 ensures ps[i].Tip? && (ps[i].leaf, left[i]) in letters.leaves {
      assert i > 0 ==> ps[i] == r.patterns[i - 1] && left[i] == rest[i - 1];
    }
  }

  lemma AmbiguousBehind(c: char, rest: string, letters: Letters)
    requires c !in letters.ambiguous && c !in letters.taking
    ensures ReachesAmbiguous([c] + rest, letters) <==> ReachesAmbiguous(rest, letters)
  {
    var left := [c] + rest;
    if ReachesAmbiguous(rest, letters) {
      var i :| 0 <= i < |rest| && Reached(rest, i, letters) && rest[i] in letters.ambiguous;
      ReachedBehind(c, rest, i, letters);
      assert left[i + 1] == rest[i];
    }
    if ReachesAmbiguous(left, letters) {
      var i :| 0 <= i < |left| && Reached(left, i, letters) && left[i] in letters.ambiguous;
      assert left[i] == if i == 0 then c else rest[i - 1];
      ReachedBehind(c, rest, i - 1, letters);
    }
  }

  lemma EndBehind(c: char, rest: string, letters: Letters)
    requires c !in letters.ambiguous && c !in letters.taking
    ensures EndsTaking([c] + rest, letters) <==> EndsTaking(rest, letters)
  {
    var left := [c] + rest;
    if rest != "" {
      ReachedBehind(c, rest, |rest| - 1, letters);
      assert left[|left| - 1] == rest[|rest| - 1];
    } else {
      assert left == [c];
    }
  }

  lemma OutcomeBehind(c: char, rest: string, tokens: seq<Token>, letters: Letters, o: Leaf, r: Parsing<Parsed>,
                      all: Parsing<Parsed>)
    requires c !in letters.ambiguous && c !in letters.taking && (o, c) in letters.leaves
    requires ShortsOutcome(rest, tokens, letters, r)
    requires all == if r.Ok? then Ok(r.value.(patterns := [Tip(o)] + r.value.patterns)) else r
    ensures ShortsOutcome([c] + rest, tokens, letters, all)
  {
    AmbiguousBehind(c, rest, letters);
    EndBehind(c, rest, letters);
    if r.Ok? {
      LettersBehind(c, rest, tokens, letters, o, r.value);
    }
  }

  /** The letter that takes an argument ends the token. */
  lemma LastLetter(c: char, rest: string, tokens: seq<Token>, letters: Letters, o: Leaf, options: seq<Leaf>)
    requires c in letters.taking && c !in letters.ambiguous && (o, c) in letters.leaves
    ensures var r := if rest != "" then Ok(Parsed([Tip(o)], tokens, options))
                     else if NoArgument(tokens) then Err(MissingArgument)
                     else Ok(Parsed([Tip(o)], tokens[1..], options));
      ShortsOutcome([c] + rest, tokens, letters, r)
  {
    var left := [c] + rest;
    assert left[0] == c;
    assert forall i :: 0 < i <= |left| ==> !Reached(left, i, letters);
  }

  /** Two options of the letter: the loop stops. */
  lemma AmbiguousLetter(c: char, rest: string, tokens: seq<Token>, letters: Letters)
    requires c in letters.ambiguous && c !in letters.taking
    ensures ShortsOutcome([c] + rest, tokens, letters, Err(NotUnique))
  {
    var left := [c] + rest;
    assert left[0] == c && Reached(left, 0, letters);
    assert forall i :: 0 < i <= |left| ==> !Reached(left, i, letters);
  }

  /** The letter, by how many options have it. */
  lemma LetterIs(c: char, options: seq<Leaf>)
    ensures var similar, letters := Similar(false, Short(c), options), LettersOf(options);
      && (c in letters.ambiguous <==> |similar| > 1)
      && (c in letters.taking <==> |similar| == 1 && similar[0].argcount != 0)
      && (similar == [] ==> Unknown(false, Short(c), options) && (NewShort(c), c) in letters.leaves)
      && (|similar| == 1 ==> var k := similar[0];
            (NewOption(Just(Short(c)), k.long, k.argcount, k.value), c) in letters.leaves)
  {
    SimilarCounts(false, Short(c), options);
    var similar := Similar(false, Short(c), options);
    if |similar| == 1 {
      var k := similar[0];
      assert similar == [k];
      forall k' | Unique(k', false, Short(c), options) ensures k' == k {
        assert similar == [k'];
      }
      assert IsLetter(NewOption(Just(Short(c)), k.long, k.argcount, k.value), c, options);
    } else {
      assert forall k :: similar != [k];
      assert similar == [] ==> IsLetter(NewShort(c), c, options);
    }
  }

  /** What a token of stacked short options means: one leaf per letter, in order, up to and with the first
      that takes an argument; which errors there are, and when; and that the next token is taken exactly
      when the letter that takes an argument is the last. */
  lemma {:induction false} ShortsMean(left: string, tokens: seq<Token>, options: seq<Leaf>)
    ensures ShortsOutcome(left, tokens, LettersOf(options), ParseShorts(left, tokens, options))
    decreases |left|
  {
    if left != "" {
      var c, rest, letters := left[0], left[1..], LettersOf(options);
      assert left == [c] + rest;
      LetterIs(c, options);
      var similar := Similar(false, Short(c), options);
      if |similar| > 1 {
        AmbiguousLetter(c, rest, tokens, letters);
      } else if |similar| == 0 {
        ShortsMean(rest, tokens, options + [NewShort(c)]);
        NewShortSame(c, options);
        OutcomeBehind(c, rest, tokens, letters, NewShort(c), ParseShorts(rest, tokens, options + [NewShort(c)]),
          ParseShorts(left, tokens, options));
      } else {
        var k := similar[0];
        var o := NewOption(Just(Short(c)), k.long, k.argcount, k.value);
        if k.argcount != 0 {
          LastLetter(c, rest, tokens, letters, o, options);
        } else {
          ShortsMean(rest, tokens, options);
          OutcomeBehind(c, rest, tokens, letters, o, ParseShorts(rest, tokens, options),
            ParseShorts(left, tokens, options));
        }
      }
    }
  }

  /** Letter i occurs there for the first time. */
  predicate First(left: string, i: nat)
    requires i < |left|
  {
    forall j :: 0 <= j < i ==> left[j] != left[i]
  }

  lemma FirstBehind(c: char, rest: string, i: nat)
    requires i < |rest|
    ensures First([c] + rest, i + 1) <==> First(rest, i) && rest[i] != c
  {
    var left := [c] + rest;
    assert left[0] == c && left[i + 1] == rest[i];
    if First(rest, i) && rest[i] != c {
      assert forall j :: 1 <= j < i + 1 ==> left[j] == rest[j - 1];
    }
    if First(left, i + 1) {
      forall j | 0 <= j < i ensures rest[j] != rest[i] {
        assert left[j + 1] == rest[j];
      }
    }
  }

  /** The options known later are those known before and, in order, one for each letter that was not known
      when it was first met; p says which letters these are. */
  ghost predicate Newly(p: seq<int>, left: string, n: int, options: seq<Leaf>, later: seq<Leaf>) {
    && 0 <= n <= |left| && |later| == |options| + |p| && later[..|options|] == options
    && (forall k :: 0 <= k < |p| ==> 0 <= p[k] < n && later[|options| + k] == NewShort(left[p[k]]))
    && (forall a, b :: 0 <= a < b < |p| ==> p[a] < p[b])
    && forall i :: 0 <= i < n ==>
      (i in p <==> Unknown(false, Short(left[i]), options) && First(left, i))
  }

  function Shifted(p: seq<int>): (r: seq<int>)
    ensures |r| == |p| && forall k :: 0 <= k < |p| ==> r[k] == p[k] + 1
    ensures forall i :: i in r <==> i - 1 in p
  {
    var r := seq(|p|, k requires 0 <= k < |p| => p[k] + 1);
    assert forall k :: 0 <= k < |p| ==> r[k] in r && p[k] in p;
    r
  }

  lemma NewlyKnown(c: char, rest: string, p: seq<int>, n: int, options: seq<Leaf>, later: seq<Leaf>)
    requires !Unknown(false, Short(c), options) && Newly(p, rest, n, options, later)
    ensures Newly(Shifted(p), [c] + rest, n + 1, options, later)
  {
    var left, q := [c] + rest, Shifted(p);
    forall i | 0 <= i < n + 1 ensures i in q <==> Unknown(false, Short(left[i]), options) && First(left, i) {
      if i == 0 {
        assert -1 !in p;
      } else {
        assert left[i] == rest[i - 1];
        FirstBehind(c, rest, i - 1);
      }
    }
  }

  lemma NewlyUnknown(c: char, rest: string, p: seq<int>, n: int, options: seq<Leaf>, later: seq<Leaf>)
    requires Unknown(false, Short(c), options) && Newly(p, rest, n, options + [NewShort(c)], later)
    ensures Newly([0] + Shifted(p), [c] + rest, n + 1, options, later)
  {
    var left, q := [c] + rest, [0] + Shifted(p);
    forall i | 0 <= i < n + 1 ensures i in q <==> Unknown(false, Short(left[i]), options) && First(left, i) {
      assert i in q <==> i == 0 || i - 1 in p;
      if i > 0 {
        assert left[i] == rest[i - 1];
        WithNewShort(c, left[i], options);
        FirstBehind(c, rest, i - 1);
      }
    }
    NewlyAppended(c, rest, p, n, options, later);
  }

  lemma NewlyAppended(c: char, rest: string, p: seq<int>, n: int, options: seq<Leaf>, later: seq<Leaf>)
    requires Newly(p, rest, n, options + [NewShort(c)], later)
    ensures var left, q := [c] + rest, [0] + Shifted(p);
      && |later| == |options| + |q| && later[..|options|] == options
      && forall k :: 0 <= k < |q| ==> 0 <= q[k] < n + 1 && later[|options| + k] == NewShort(left[q[k]])
  {
    var left, q := [c] + rest, [0] + Shifted(p);
    var known := options + [NewShort(c)];
    assert later[..|known|] == known && later[..|options|] == known[..|options|] == options;
    assert later[|options|] == known[|options|] == NewShort(c);
    forall k | 1 <= k < |q| ensures later[|options| + k] == NewShort(left[q[k]]) {
      assert q[k] == p[k - 1] + 1 && left[q[k]] == rest[p[k - 1]];
      assert later[|known| + (k - 1)] == NewShort(rest[p[k - 1]]);
    }
  }

  lemma {:induction false} ShortsLearn(left: string, tokens: seq<Token>, options: seq<Leaf>) returns (p: seq<int>)
    requires ParseShorts(left, tokens, options).Ok?
    ensures var r := ParseShorts(left, tokens, options).value;
      Newly(p, left, |r.patterns|, options, r.options)
    decreases |left|
  {
    p := [];
    if left != "" {
      var c, rest := left[0], left[1..];
      assert left == [c] + rest;
      SimilarCounts(false, Short(c), options);
      var similar := Similar(false, Short(c), options);
      if |similar| == 0 {
        p := ShortsLearn(rest, tokens, options + [NewShort(c)]);
        var r := ParseShorts(rest, tokens, options + [NewShort(c)]).value;
        NewlyUnknown(c, rest, p, |r.patterns|, options, r.options);
        p := [0] + Shifted(p);
      } else if similar[0].argcount == 0 {
        p := ShortsLearn(rest, tokens, options);
        var r := ParseShorts(rest, tokens, options).value;
        NewlyKnown(c, rest, p, |r.patterns|, options, r.options);
        p := Shifted(p);
      }
    }
  }
}
