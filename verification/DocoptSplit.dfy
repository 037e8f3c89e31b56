/**
 str.split() for ASCII, which sw/ab_cal_scripts/lib/docopt.py applies to default values.
 */
module DocoptSplit {

  predicate IsSpace(c: char) {
    c == ' ' || '\t' <= c <= '\r'
  }

  /** The length of the first run of characters that are all spaces, or all not. */
  function RunLength(s: string, space: bool): (n: nat)
    ensures n <= |s| && (s != "" && IsSpace(s[0]) == space ==> n > 0)
    ensures forall i :: 0 <= i < n ==> IsSpace(s[i]) == space
    ensures n < |s| ==> IsSpace(s[n]) != space
  {
    if s == "" || IsSpace(s[0]) != space then 0 else 1 + RunLength(s[1..], space)
  }

  /** The words between white space. */
  function Split(s: string): seq<string>
    decreases |s|
  {
    if s == "" then []
    else if IsSpace(s[0]) then Split(s[RunLength(s, true)..])
    else [s[..RunLength(s, false)]] + Split(s[RunLength(s, false)..])
  }

  /** w stands in s at position a, and reaches as far as it can without white space. */
  ghost predicate WordAt(s: string, w: string, a: int) {
    && 0 <= a < a + |w| <= |s| && s[a..a + |w|] == w
    && (forall i :: a <= i < a + |w| ==> !IsSpace(s[i]))
    && (a == 0 || IsSpace(s[a - 1])) && (a + |w| == |s| || IsSpace(s[a + |w|]))
  }

  /** The words stand in s at those positions, in order. */
  ghost predicate WordsAt(s: string, words: seq<string>, at: seq<int>) {
    && |at| == |words| && (forall k :: 0 <= k < |at| ==> WordAt(s, words[k], at[k]))
    && forall k, l :: 0 <= k < l < |at| ==> at[k] < at[l]
  }

  /** Position i is in one of the words. */
  ghost predicate InWord(words: seq<string>, at: seq<int>, i: int) {
    exists k :: 0 <= k < |at| == |words| && at[k] <= i < at[k] + |words[k]|
  }

  ghost predicate NoneMissed(s: string, words: seq<string>, at: seq<int>) {
    forall i :: 0 <= i < |s| && !IsSpace(s[i]) ==> InWord(words, at, i)
  }

  function Moved(at: seq<int>, n: int): (r: seq<int>)
    ensures |r| == |at| && forall k :: 0 <= k < |at| ==> r[k] == at[k] + n
  {
    seq(|at|, k requires 0 <= k < |at| => at[k] + n)
  }

  /** Behind n characters whose last one is white, or in front of white space. */
  lemma WordMoved(s: string, n: nat, w: string, a: int)
    requires n <= |s| && WordAt(s[n..], w, a) && (n == 0 || a > 0 || IsSpace(s[n - 1]))
    ensures WordAt(s, w, a + n)
  {
    var rest := s[n..];
    assert forall i :: 0 <= i < |rest| ==> rest[i] == s[i + n];
    assert s[a + n..a + n + |w|] == rest[a..a + |w|];
    forall i | a + n <= i < a + n + |w| ensures !IsSpace(s[i]) {
      assert s[i] == rest[i - n];
    }
    assert a > 0 ==> s[a + n - 1] == rest[a - 1];
    assert a + |w| < |rest| ==> s[a + n + |w|] == rest[a + |w|];
  }

  lemma WordsMoved(s: string, n: nat, words: seq<string>, at: seq<int>)
    requires n <= |s| && WordsAt(s[n..], words, at)
    requires n == 0 || IsSpace(s[n - 1]) || n == |s| || IsSpace(s[n])
    ensures WordsAt(s, words, Moved(at, n))
  {
    forall k | 0 <= k < |at| ensures WordAt(s, words[k], at[k] + n) {
      assert WordAt(s[n..], words[k], at[k]);
      if at[k] == 0 {
        assert s[n..][0] == s[n];
      }
      WordMoved(s, n, words[k], at[k]);
    }
  }

  lemma FoundMoved(s: string, n: nat, words: seq<string>, at: seq<int>, i: int)
    requires n <= i < |s| && |at| == |words| && NoneMissed(s[n..], words, at) && !IsSpace(s[i])
    ensures InWord(words, Moved(at, n), i)
  {
    assert s[n..][i - n] == s[i];
    var k :| 0 <= k < |at| == |words| && at[k] <= i - n < at[k] + |words[k]|;
    assert Moved(at, n)[k] == at[k] + n;
  }

  lemma InLater(first: string, words: seq<string>, at: seq<int>, i: int)
    requires |at| == |words| && InWord(words, at, i)
    ensures InWord([first] + words, [0] + at, i)
  {
    var k :| 0 <= k < |at| == |words| && at[k] <= i < at[k] + |words[k]|;
    assert ([0] + at)[k + 1] == at[k] && ([first] + words)[k + 1] == words[k];
  }

  lemma FirstWord(s: string, n: nat, words: seq<string>, at: seq<int>)
    requires 0 < n <= |s| && WordAt(s, s[..n], 0) && WordsAt(s, words, at) && forall k :: 0 <= k < |at| ==> at[k] >= n
    ensures WordsAt(s, [s[..n]] + words, [0] + at)
  {
    var all, places := [s[..n]] + words, [0] + at;
    forall k | 0 <= k < |places| ensures WordAt(s, all[k], places[k]) {
      assert k > 0 ==> all[k] == words[k - 1] && places[k] == at[k - 1];
    }
  }

  /** The words of the text, each as long as it can be, in order and without a gap that is not white space;
      white space is the blank and the codes from 9 to 13. */
  lemma {:induction false} SplitMeans(s: string) returns (at: seq<int>)
    ensures WordsAt(s, Split(s), at) && NoneMissed(s, Split(s), at)
    ensures forall c: char :: IsSpace(c) <==> c as int == 32 || 9 <= c as int <= 13
    decreases |s|
  {
    at := [];
    if s != "" {
      var space := IsSpace(s[0]);
      var n := RunLength(s, space);
      var rest := s[n..];
      var later := SplitMeans(rest);
      at := Moved(later, n);
      WordsMoved(s, n, Split(rest), later);
      forall i | n <= i < |s| && !IsSpace(s[i]) ensures InWord(Split(rest), at, i) {
        FoundMoved(s, n, Split(rest), later, i);
      }
      if !space {
        FirstWord(s, n, Split(rest), at);
        forall i | 0 <= i < |s| && !IsSpace(s[i]) ensures InWord([s[..n]] + Split(rest), [0] + at, i) {
          if i < n {
            assert ([0] + at)[0] == 0 && ([s[..n]] + Split(rest))[0] == s[..n];
          } else {
            InLater(s[..n], Split(rest), at, i);
          }
        }
        at := [0] + at;
      }
    }
  }
}
