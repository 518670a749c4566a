/** Whitespace tokenisation as formatted `>>` extraction sees a line:
    a token is a maximal run of non-whitespace characters. */
module Tokens {

  /** The characters the C locale classifies as white space. */
  predicate IsSpace(c: char) {
    c == ' ' || c == '\t' || c == '\n' || c == '\r' || c == '\U{0B}' || c == '\U{0C}'
  }

  /** A non-empty run of non-whitespace characters. */
  predicate IsToken(w: string) {
    |w| > 0 && forall i :: 0 <= i < |w| ==> !IsSpace(w[i])
  }

  predicate AllTokens(ws: seq<string>) {
    forall i :: 0 <= i < |ws| ==> IsToken(ws[i])
  }

  /** Scans `s` left to right; `cur` is the token read so far. */
  function Split(s: string, cur: string): (ws: seq<string>)
    requires cur == [] || IsToken(cur)
    ensures AllTokens(ws)
    ensures s == [] ==> |ws| <= 1
    decreases |s|
  {
    if s == [] then
      (if cur == [] then [] else [cur])
    else if IsSpace(s[0]) then
      (if cur == [] then Split(s[1..], []) else [cur] + Split(s[1..], []))
    else
      Split(s[1..], cur + [s[0]])
  }

  /** The tokens of a line, in order. */
  function Words(s: string): (ws: seq<string>)
    ensures AllTokens(ws)
  {
    Split(s, [])
  }

  /** Tokens separated by one space each. */
  function Join(ws: seq<string>): string
  {
    if |ws| == 0 then []
    else if |ws| == 1 then ws[0]
    else ws[0] + " " + Join(ws[1..])
  }

  /** Reading a whitespace-free stretch only extends the current token. */
  lemma {:induction false} SplitAcrossToken(w: string, rest: string, cur: string)
    requires cur == [] || IsToken(cur)
    requires forall i :: 0 <= i < |w| ==> !IsSpace(w[i])
    ensures cur + w == [] || IsToken(cur + w)
    ensures Split(w + rest, cur) == Split(rest, cur + w)
    decreases |w|
  {
    if w == [] {
      assert w + rest == rest;
      assert cur + w == cur;
    } else {
      assert (w + rest)[0] == w[0];
      assert (w + rest)[1..] == w[1..] + rest;
      assert cur + w == (cur + [w[0]]) + w[1..];
      SplitAcrossToken(w[1..], rest, cur + [w[0]]);
    }
  }

  lemma {:induction false} SplitTrailingSpace(s: string, c: char, cur: string)
    requires cur == [] || IsToken(cur)
    requires IsSpace(c)
    ensures Split(s + [c], cur) == Split(s, cur)
    decreases |s|
  {
    if s == [] {
      assert s + [c] == [c];
      assert [c][1..] == [];
    } else {
      assert (s + [c])[0] == s[0];
      assert (s + [c])[1..] == s[1..] + [c];
      if IsSpace(s[0]) {
        SplitTrailingSpace(s[1..], c, []);
      } else {
        SplitTrailingSpace(s[1..], c, cur + [s[0]]);
      }
    }
  }

  /** A whitespace character at the end of a line, such as the newline a
      line reader keeps, adds no token. */
  lemma TrailingSpaceIgnored(s: string, c: char)
    requires IsSpace(c)
    ensures Words(s + [c]) == Words(s)
  {
    SplitTrailingSpace(s, c, []);
  }

  /** Joining tokens with spaces and splitting the line again gives them back. */
  lemma {:induction false} WordsJoin(ws: seq<string>)
    requires AllTokens(ws)
    ensures Words(Join(ws)) == ws
    decreases |ws|
  {
    if |ws| == 0 {
    } else if |ws| == 1 {
      SplitAcrossToken(ws[0], [], []);
      assert ws[0] + [] == ws[0];
      assert [] + ws[0] == ws[0];
    } else {
      var w := ws[0];
      var tail := Join(ws[1..]);
      assert IsToken(ws[0]);
      assert Join(ws) == w + (" " + tail);
      SplitAcrossToken(w, " " + tail, []);
      assert [] + w == w;
      assert (" " + tail)[1..] == tail;
      assert Split(" " + tail, w) == [w] + Split(tail, []);
      WordsJoin(ws[1..]);
      assert ws == [w] + ws[1..];
    }
  }
}
