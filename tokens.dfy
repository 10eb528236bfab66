/** Splitting a line into whitespace-separated tokens, as Rust's
    `str::split_whitespace` does: tokens are the maximal runs of characters
    that are not Unicode White_Space, in order; runs of whitespace of any
    length, leading or trailing, produce no empty tokens. */
module Tokens {

  /** The characters with the Unicode White_Space property. */
  predicate IsWhitespace(c: char) {
    || '\t' <= c <= '\r'
    || c == ' '
    || c == '\U{85}'
    || c == '\U{A0}'
    || c == '\U{1680}'
    || '\U{2000}' <= c <= '\U{200A}'
    || c == '\U{2028}'
    || c == '\U{2029}'
    || c == '\U{202F}'
    || c == '\U{205F}'
    || c == '\U{3000}'
  }

  /** A token: non-empty and free of whitespace. */
  predicate IsWord(t: string) {
    t != [] && forall i | 0 <= i < |t| :: !IsWhitespace(t[i])
  }

  /** The length of the run of non-whitespace characters that starts `s`. */
  function WordLength(s: string): (n: nat)
    ensures n <= |s|
    ensures forall i | 0 <= i < n :: !IsWhitespace(s[i])
    ensures n < |s| ==> IsWhitespace(s[n])
  {
    if s == [] || IsWhitespace(s[0]) then 0 else 1 + WordLength(s[1..])
  }

  /** The tokens of `s`, in order. */
  function SplitWhitespace(s: string): (ts: seq<string>)
    ensures forall k | 0 <= k < |ts| :: IsWord(ts[k])
    decreases |s|
  {
    if s == [] then []
    else if IsWhitespace(s[0]) then SplitWhitespace(s[1..])
    else
      var n := WordLength(s);
      [s[..n]] + SplitWhitespace(s[n..])
  }

  /** Tokens written out with one space between neighbours. */
  function Join(ts: seq<string>): string {
    if ts == [] then []
    else if |ts| == 1 then ts[0]
    else ts[0] + [' '] + Join(ts[1..])
  }

  /** A word followed by whitespace or by nothing is split off as one token. */
  lemma {:induction false} WordThenRest(w: string, s: string)
    requires IsWord(w)
    requires s == [] || IsWhitespace(s[0])
    ensures SplitWhitespace(w + s) == [w] + SplitWhitespace(s)
  {
    WordLengthOfWord(w, s);
    assert (w + s)[..|w|] == w;
    assert (w + s)[|w|..] == s;
  }

  lemma {:induction false} WordLengthOfWord(w: string, s: string)
    requires forall i | 0 <= i < |w| :: !IsWhitespace(w[i])
    requires s == [] || IsWhitespace(s[0])
    ensures WordLength(w + s) == |w|
    decreases |w|
  {
    if w != [] {
      assert (w + s)[1..] == w[1..] + s;
      WordLengthOfWord(w[1..], s);
    }
  }

  /** Splitting undoes joining: no token is lost, merged, split or reordered. */
  lemma {:induction false} SplitJoin(ts: seq<string>)
    requires forall k | 0 <= k < |ts| :: IsWord(ts[k])
    ensures SplitWhitespace(Join(ts)) == ts
  {
    if ts == [] {
    } else if |ts| == 1 {
      WordThenRest(ts[0], []);
      assert ts[0] + [] == ts[0];
    } else {
      var rest := [' '] + Join(ts[1..]);
      assert Join(ts) == ts[0] + rest;
      WordThenRest(ts[0], rest);
      assert rest[1..] == Join(ts[1..]);
      SplitJoin(ts[1..]);
      assert [ts[0]] + ts[1..] == ts;
    }
  }

  /** A line made of a non-whitespace tag and a space splits into the tag
      and the tokens of the rest of the line. */
  lemma {:induction false} SplitAfterTag(c: char, rest: string)
    requires !IsWhitespace(c)
    ensures SplitWhitespace([c, ' '] + rest) == [[c]] + SplitWhitespace(rest)
  {
    WordThenRest([c], [' '] + rest);
    assert [c] + ([' '] + rest) == [c, ' '] + rest;
    assert ([' '] + rest)[1..] == rest;
  }
}
