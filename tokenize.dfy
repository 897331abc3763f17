/**
 The per-line text pipeline of `importFile`: scrub every character other than
 an ASCII letter, digit or space to a space, lower-case the line, split it at
 runs of spaces the way `String.split("\\s+")` does, and keep the non-empty
 pieces as tokens.
 */
module Tokenize {

  predicate IsAsciiAlnum(c: char) {
    'A' <= c <= 'Z' || 'a' <= c <= 'z' || '0' <= c <= '9'
  }

  /** The characters the pattern `[^A-Za-z0-9 ]` does not match. */
  predicate IsKept(c: char) {
    IsAsciiAlnum(c) || c == ' '
  }

  /** The characters a cleaned line is made of. */
  predicate IsLowerKept(c: char) {
    'a' <= c <= 'z' || '0' <= c <= '9' || c == ' '
  }

  /** `replaceAll("[^A-Za-z0-9 ]", " ")`: one character for one character. */
  function Normalize(line: string): (r: string)
    ensures |r| == |line|
    ensures forall i :: 0 <= i < |r| ==> IsKept(r[i])
    ensures forall i :: 0 <= i < |line| && IsKept(line[i]) ==> r[i] == line[i]
    ensures forall i :: 0 <= i < |line| && !IsKept(line[i]) ==> r[i] == ' '
  {
    if line == [] then []
    else [if IsKept(line[0]) then line[0] else ' '] + Normalize(line[1..])
  }

  function LowerChar(c: char): char {
    if 'A' <= c <= 'Z' then (c as int - 'A' as int + 'a' as int) as char else c
  }

  /** `toLowerCase()` on the ASCII range, the only one left after `Normalize`. */
  function LowerCase(s: string): (r: string)
    ensures |r| == |s|
    ensures forall i :: 0 <= i < |s| && 'A' <= s[i] <= 'Z' ==> r[i] as int == s[i] as int + 32
    ensures forall i :: 0 <= i < |s| && !('A' <= s[i] <= 'Z') ==> r[i] == s[i]
  {
    if s == [] then [] else [LowerChar(s[0])] + LowerCase(s[1..])
  }

  /** A line after the first two steps: spaces exactly where the line held
      anything but an ASCII letter or digit, lower-case letters elsewhere. */
  function Clean(line: string): (r: string)
    ensures |r| == |line|
    ensures forall i :: 0 <= i < |r| ==> IsLowerKept(r[i])
    ensures forall i :: 0 <= i < |line| ==> (r[i] == ' ' <==> !IsAsciiAlnum(line[i]))
    ensures forall i :: 0 <= i < |line| && IsAsciiAlnum(line[i]) ==> r[i] == LowerChar(line[i])
  {
    LowerCase(Normalize(line))
  }

  /** Cleaning a cleaned line changes nothing. */
  lemma CleanIdempotent(line: string)
    ensures Clean(Clean(line)) == Clean(line)
  {
    var c := Clean(line);
    forall i | 0 <= i < |c|
      ensures Clean(c)[i] == c[i]
    {
      if c[i] != ' ' {
        assert IsAsciiAlnum(c[i]);
      }
    }
  }

  /** Index of the first space of `s`, or `|s|` when it has none. */
  function FirstSpace(s: string): (i: nat)
    ensures i <= |s|
    ensures i < |s| ==> s[i] == ' '
    ensures forall k :: 0 <= k < i ==> s[k] != ' '
  {
    if s == [] || s[0] == ' ' then 0 else 1 + FirstSpace(s[1..])
  }

  /** End of the run of spaces that starts at `i`. */
  function SpaceRunEnd(s: string, i: nat): (j: nat)
    requires i <= |s|
    ensures i <= j <= |s|
    ensures forall k :: i <= k < j ==> s[k] == ' '
    ensures j < |s| ==> s[j] != ' '
    decreases |s| - i
  {
    if i < |s| && s[i] == ' ' then SpaceRunEnd(s, i + 1) else i
  }

  /** The pieces a regular-expression split at runs of spaces cuts `s` into:
      a leading "" when `s` starts with a space, a trailing "" when it ends
      with one. */
  function Fields(s: string): (r: seq<string>)
    ensures |r| >= 1
    ensures forall p :: p in r ==> ' ' !in p
    decreases |s|
  {
    var i := FirstSpace(s);
    if i == |s| then [s]
    else
      var j := SpaceRunEnd(s, i);
      [s[..i]] + Fields(s[j..])
  }

  function DropTrailingEmpty(xs: seq<string>): (r: seq<string>)
    ensures |r| <= |xs| && r == xs[..|r|]
    ensures r != [] ==> r[|r| - 1] != ""
    ensures forall k :: |r| <= k < |xs| ==> xs[k] == ""
  {
    if xs != [] && xs[|xs| - 1] == "" then DropTrailingEmpty(xs[..|xs| - 1]) else xs
  }

  /** `s.split("\\s+")` for a line whose only whitespace character is the
      space: no separator gives `[s]`; otherwise the fields, without the
      trailing empty ones. */
  function Split(s: string): (r: seq<string>)
    ensures ' ' !in s ==> r == [s]
    ensures ' ' in s && r != [] ==> r[|r| - 1] != ""
    ensures forall p :: p in r ==> ' ' !in p
  {
    if ' ' !in s then [s] else DropTrailingEmpty(Fields(s))
  }

  /** The pieces that pass the `!splitter[i].equals("")` test, in order. */
  function NonEmpty(ps: seq<string>): (r: seq<string>)
    ensures |r| <= |ps|
    ensures forall t :: t in r ==> t != "" && t in ps
    ensures forall p :: p in ps && p != "" ==> p in r
    ensures "" !in r
    ensures forall p :: p != "" ==> multiset(r)[p] == multiset(ps)[p]
  {
    if ps == [] then []
    else
      assert ps == ps[..|ps| - 1] + [ps[|ps| - 1]];
      NonEmpty(ps[..|ps| - 1]) + (if ps[|ps| - 1] == "" then [] else [ps[|ps| - 1]])
  }

  /** Reference definition of the words of a line: skip a space, or take
      the longest prefix without one. */
  function Words(s: string): seq<string>
    decreases |s|
  {
    if s == [] then []
    else if s[0] == ' ' then Words(s[1..])
    else
      var k := FirstSpace(s);
      [s[..k]] + Words(s[k..])
  }

  /** Each word is non-empty and made of non-space characters of the line. */
  lemma {:induction false} WordsShape(s: string)
    ensures forall w :: w in Words(s) ==> w != [] && forall c :: c in w ==> c in s && c != ' '
    decreases |s|
  {
    if s == [] {
    } else if s[0] == ' ' {
      WordsShape(s[1..]);
    } else {
      var k := FirstSpace(s);
      WordsShape(s[k..]);
      forall w | w in Words(s)
        ensures w != [] && forall c :: c in w ==> c in s && c != ' '
      {
        if w != s[..k] {
          assert w in Words(s[k..]);
        }
      }
    }
  }

  lemma {:induction false} NonEmptyAppend(a: seq<string>, b: seq<string>)
    ensures NonEmpty(a + b) == NonEmpty(a) + NonEmpty(b)
    decreases |b|
  {
    if b == [] {
      assert a + b == a;
    } else {
      var b' := b[..|b| - 1];
      assert (a + b)[..|a + b| - 1] == a + b';
      NonEmptyAppend(a, b');
    }
  }

  lemma {:induction false} NonEmptyDropTrailing(xs: seq<string>)
    ensures NonEmpty(DropTrailingEmpty(xs)) == NonEmpty(xs)
    decreases |xs|
  {
    if xs != [] && xs[|xs| - 1] == "" {
      NonEmptyDropTrailing(xs[..|xs| - 1]);
    }
  }

  /** A run of spaces in front of the rest of a line adds no word. */
  lemma {:induction false} SkipSpaces(s: string, i: nat, j: nat)
    requires i <= j <= |s|
    requires forall k :: i <= k < j ==> s[k] == ' '
    ensures Words(s[i..]) == Words(s[j..])
    decreases j - i
  {
    if i < j {
      assert s[i..][1..] == s[i + 1..];
      SkipSpaces(s, i + 1, j);
    }
  }

  lemma {:induction false} FieldsAreWords(s: string)
    ensures NonEmpty(Fields(s)) == Words(s)
    decreases |s|
  {
    var i := FirstSpace(s);
    if i == |s| {
      WordWithoutSpace(s);
    } else {
      var j := SpaceRunEnd(s, i);
      var rest := Fields(s[j..]);
      assert Fields(s) == [s[..i]] + rest;
      FieldsAreWords(s[j..]);
      NonEmptyAppend([s[..i]], rest);
      SkipSpaces(s, i, j);
      if i == 0 {
        assert NonEmpty([s[..i]]) == [] by { assert [s[..i]][..0] == []; }
        assert s[0..] == s;
      } else {
        assert NonEmpty([s[..i]]) == [s[..i]] by { assert [s[..i]][..0] == []; }
        assert Words(s) == [s[..i]] + Words(s[i..]);
      }
    }
  }

  lemma WordWithoutSpace(s: string)
    requires FirstSpace(s) == |s|
    ensures Fields(s) == [s]
    ensures NonEmpty([s]) == Words(s)
  {
    assert [s][..0] == [];
    if s != [] {
      assert s[..|s|] == s && s[|s|..] == [];
      assert Words(s) == [s] + Words([]);
    }
  }

  /** Splitting at runs of spaces and dropping the empty pieces yields
      exactly the words of the line. */
  lemma SplitThenFilterIsWords(s: string)
    ensures NonEmpty(Split(s)) == Words(s)
  {
    FieldsAreWords(s);
    if ' ' in s {
      NonEmptyDropTrailing(Fields(s));
    } else {
      assert FirstSpace(s) == |s|;
    }
  }

  /** The `splitter` array of one line. */
  function Pieces(line: string): seq<string> {
    Split(Clean(line))
  }

  /** The tokens one line contributes, in order. */
  function Tokens(line: string): (r: seq<string>)
    ensures forall t :: t in r ==> t != [] && forall c :: c in t ==> 'a' <= c <= 'z' || '0' <= c <= '9'
  {
    SplitThenFilterIsWords(Clean(line));
    WordsShape(Clean(line));
    NonEmpty(Pieces(line))
  }

  lemma TokensAreWords(line: string)
    ensures Tokens(line) == Words(Clean(line))
  {
    SplitThenFilterIsWords(Clean(line));
  }

  /** A line with no ASCII letter or digit has no tokens. */
  lemma PunctuationOnlyLine(line: string)
    requires forall i :: 0 <= i < |line| ==> !IsAsciiAlnum(line[i])
    ensures Tokens(line) == []
  {
    var c := Clean(line);
    TokensAreWords(line);
    SkipSpaces(c, 0, |c|);
    assert c[0..] == c;
  }

  /** Tokenizing an already-cleaned line gives the same tokens. */
  lemma TokensOfCleaned(line: string)
    ensures Pieces(Clean(line)) == Pieces(line)
    ensures Tokens(Clean(line)) == Tokens(line)
  {
    CleanIdempotent(line);
  }
}
