/**
 What `importFile` computes, as pure functions over the lines of a document:
 the frequency map is built by one left-to-right pass over the lines and,
 within a line, over the pieces of its split. The lemmas show that the map
 is the multiset of the document's tokens, whatever the order of the pass.
 */
module Aggregation {
  import opened Tokenize
  import opened WordVectors

  /** One token reaching lines 77-80: a new word enters with count 1, a
      known one is incremented. */
  function AddToken(m: Frequencies, t: Word): (r: Frequencies)
    ensures r.Keys == m.Keys + {t}
    ensures Count(r, t) == Count(m, t) + 1
    ensures forall w :: w != t ==> Count(r, w) == Count(m, w)
  {
    if t in m then m[t := m[t] + 1] else m[t := 1]
  }

  /** The inner loop of lines 75-82 over the pieces of one line. */
  function AddPieces(m: Frequencies, ps: seq<string>): Frequencies {
    if ps == [] then m
    else
      var m' := AddPieces(m, ps[..|ps| - 1]);
      var p := ps[|ps| - 1];
      if p == "" then m' else AddToken(m', p)
  }

  /** The frequency map after the lines of `lines`, in order. */
  function Aggregate(lines: seq<string>): Frequencies {
    if lines == [] then map[]
    else AddPieces(Aggregate(lines[..|lines| - 1]), Pieces(lines[|lines| - 1]))
  }

  /** Every token of the document, in reading order. */
  function AllTokens(lines: seq<string>): seq<Word> {
    if lines == [] then []
    else AllTokens(lines[..|lines| - 1]) + Tokens(lines[|lines| - 1])
  }

  /** One more line: its pieces are added to the map, its tokens to the
      document's. */
  lemma AggregateStep(lines: seq<string>, k: nat)
    requires k < |lines|
    ensures Aggregate(lines[..k + 1]) == AddPieces(Aggregate(lines[..k]), Pieces(lines[k]))
    ensures |AllTokens(lines[..k + 1])| == |AllTokens(lines[..k])| + |NonEmpty(Pieces(lines[k]))|
  {
    assert lines[..k + 1][..k] == lines[..k];
  }

  lemma {:induction false} AddPiecesCounts(m: Frequencies, ps: seq<string>)
    requires Positive(m)
    ensures Positive(AddPieces(m, ps))
    ensures forall w :: Count(AddPieces(m, ps), w) == Count(m, w) + multiset(NonEmpty(ps))[w]
    decreases |ps|
  {
    if ps != [] {
      var init, p := ps[..|ps| - 1], ps[|ps| - 1];
      AddPiecesCounts(m, init);
      if p != "" {
        AddTokenCounts(AddPieces(m, init), p, m, NonEmpty(init));
        assert NonEmpty(ps) == NonEmpty(init) + [p];
      }
    }
  }

  /** One token added on top of counts that already record `ts`. */
  lemma AddTokenCounts(m': Frequencies, p: Word, m: Frequencies, ts: seq<Word>)
    requires Positive(m')
    requires forall w :: Count(m', w) == Count(m, w) + multiset(ts)[w]
    ensures Positive(AddToken(m', p))
    ensures forall w :: Count(AddToken(m', p), w) == Count(m, w) + multiset(ts + [p])[w]
  {
  }

  /** The frequency map counts every token exactly as often as it occurs,
      and holds no other word: counts are at least 1. */
  lemma {:induction false} AggregateCounts(lines: seq<string>)
    ensures Positive(Aggregate(lines))
    ensures forall w :: Count(Aggregate(lines), w) == multiset(AllTokens(lines))[w]
    decreases |lines|
  {
    if lines != [] {
      var init := lines[..|lines| - 1];
      AggregateCounts(init);
      AddPiecesCounts(Aggregate(init), Pieces(lines[|lines| - 1]));
    }
  }

  /** The keys are exactly the tokens seen, so the distinct-word count
      `wordList.size()` is the number of distinct tokens. */
  lemma AggregateKeys(lines: seq<string>)
    ensures Aggregate(lines).Keys == set t | t in AllTokens(lines)
    ensures |Aggregate(lines)| == |set t | t in AllTokens(lines)|
  {
    var m := Aggregate(lines);
    AggregateCounts(lines);
    forall w
      ensures w in m <==> w in AllTokens(lines)
    {
      assert Count(m, w) == multiset(AllTokens(lines))[w];
    }
    assert m.Keys == set t | t in AllTokens(lines);
  }

  /** The map is empty exactly when the document has no token. */
  lemma AggregateEmpty(lines: seq<string>)
    ensures Aggregate(lines) == map[] <==> AllTokens(lines) == []
  {
    AggregateKeys(lines);
    if AllTokens(lines) != [] {
      assert AllTokens(lines)[0] in Aggregate(lines);
    }
  }

  lemma TotalAddToken(m: Frequencies, t: Word)
    ensures Total(AddToken(m, t)) == Total(m) + 1
  {
    var r := AddToken(m, t);
    if t in m {
      assert r.Keys == m.Keys;
      SumRemove(m.Keys, CountOf(r), t);
      SumRemove(m.Keys, CountOf(m), t);
      SumCongruent(m.Keys - {t}, CountOf(r), CountOf(m));
    } else {
      assert r.Keys - {t} == m.Keys;
      SumRemove(r.Keys, CountOf(r), t);
      SumCongruent(m.Keys, CountOf(r), CountOf(m));
    }
  }

  lemma {:induction false} TotalAddPieces(m: Frequencies, ps: seq<string>)
    ensures Total(AddPieces(m, ps)) == Total(m) + |NonEmpty(ps)|
    decreases |ps|
  {
    if ps != [] {
      TotalAddPieces(m, ps[..|ps| - 1]);
      if ps[|ps| - 1] != "" {
        TotalAddToken(AddPieces(m, ps[..|ps| - 1]), ps[|ps| - 1]);
      }
    }
  }

  /** The `words` counter equals the sum of all counts in the map. */
  lemma {:induction false} AggregateTotal(lines: seq<string>)
    ensures Total(Aggregate(lines)) == |AllTokens(lines)|
    decreases |lines|
  {
    if lines == [] {
      assert Aggregate(lines).Keys == {};
    } else {
      var init := lines[..|lines| - 1];
      AggregateTotal(init);
      TotalAddPieces(Aggregate(init), Pieces(lines[|lines| - 1]));
    }
  }

  /** A line with no tokens leaves the map and the word count unchanged. */
  lemma SilentLine(lines: seq<string>, line: string)
    requires Tokens(line) == []
    ensures Aggregate(lines + [line]) == Aggregate(lines)
    ensures AllTokens(lines + [line]) == AllTokens(lines)
  {
    assert (lines + [line])[..|lines|] == lines;
    var m := Aggregate(lines);
    AggregateCounts(lines);
    AddPiecesCounts(m, Pieces(line));
    CountsDetermineMap(AddPieces(m, Pieces(line)), m);
  }

  /** Two documents with the same tokens, counted with multiplicity, have
      the same frequency map: neither line order nor word order matters. */
  lemma AggregateDependsOnlyOnTokens(lines1: seq<string>, lines2: seq<string>)
    requires multiset(AllTokens(lines1)) == multiset(AllTokens(lines2))
    ensures Aggregate(lines1) == Aggregate(lines2)
  {
    AggregateCounts(lines1);
    AggregateCounts(lines2);
    CountsDetermineMap(Aggregate(lines1), Aggregate(lines2));
  }

  function CleanAll(lines: seq<string>): (r: seq<string>)
    ensures |r| == |lines|
    ensures forall i :: 0 <= i < |lines| ==> r[i] == Clean(lines[i])
  {
    if lines == [] then [] else CleanAll(lines[..|lines| - 1]) + [Clean(lines[|lines| - 1])]
  }

  /** Aggregating the cleaned text of a document gives back the same
      frequency map and the same tokens. */
  lemma {:induction false} AggregateOfCleaned(lines: seq<string>)
    ensures Aggregate(CleanAll(lines)) == Aggregate(lines)
    ensures AllTokens(CleanAll(lines)) == AllTokens(lines)
    decreases |lines|
  {
    if lines != [] {
      var init := lines[..|lines| - 1];
      var c := CleanAll(lines);
      assert c[..|c| - 1] == CleanAll(init);
      AggregateOfCleaned(init);
      TokensOfCleaned(lines[|lines| - 1]);
    }
  }

  /** The integer parts of the cosine of two documents: non-negative, at
      most 1, equal to 1 for the same counts, 0 for disjoint vocabularies,
      and undefined exactly when a document has no token. */
  lemma DocumentCosine(lines1: seq<string>, lines2: seq<string>)
    ensures 0 <= Dot(Aggregate(lines1), Aggregate(lines2))
    ensures Sq(Dot(Aggregate(lines1), Aggregate(lines2)))
            <= SumSquares(Aggregate(lines1)) * SumSquares(Aggregate(lines2))
    ensures Aggregate(lines1) == Aggregate(lines2) ==>
              Dot(Aggregate(lines1), Aggregate(lines2)) == SumSquares(Aggregate(lines1))
    ensures Aggregate(lines1).Keys !! Aggregate(lines2).Keys ==>
              Dot(Aggregate(lines1), Aggregate(lines2)) == 0
    ensures SumSquares(Aggregate(lines1)) == 0 <==> AllTokens(lines1) == []
    ensures SumSquares(Aggregate(lines2)) == 0 <==> AllTokens(lines2) == []
  {
    AggregateCounts(lines1);
    AggregateCounts(lines2);
    CosineFacts(Aggregate(lines1), Aggregate(lines2));
    AggregateEmpty(lines1);
    AggregateEmpty(lines2);
  }
}
