/**
 The imperative core of `TextCompare`: `importFile` fills a table of `Node`s
 in place, `innerProduct` and `norm` run over a table's nodes, and `main`
 picks the smaller table to drive the dot product. Each method is proved
 against the pure definitions of modules Aggregation and WordVectors.
 */
module TextCompare {
  import opened Tokenize
  import opened WordVectors
  import opened Aggregation

  /** A word and its number of occurrences so far. */
  class Node {
    const word: Word
    var frequency: int

    constructor (word: Word)
      ensures this.word == word && frequency == 1
    {
      this.word := word;
      frequency := 1;
    }

    method Increment()
      modifies this
      ensures frequency == old(frequency) + 1
    {
      frequency := frequency + 1;
    }
  }

  /** The `Hashtable<String, Node>` of one document. */
  type WordList = map<Word, Node>

  /** Every node is filed under its own word, so no node is shared by two keys. */
  predicate Indexed(x: WordList) {
    forall w :: w in x ==> x[w].word == w
  }

  /** The frequency map a table stands for. */
  function Counts(x: WordList): (m: Frequencies)
    reads x.Values
    ensures m.Keys == x.Keys
  {
    map w | w in x :: x[w].frequency
  }

  /** Lines 78-80 for one token `t`: increment its node, or file a new
      node with count 1 under it. */
  method Record(wordList: WordList, t: Word) returns (r: WordList)
    requires Indexed(wordList)
    modifies wordList.Values
    ensures Indexed(r)
    ensures Counts(r) == AddToken(old(Counts(wordList)), t)
    ensures forall w :: w in r ==> r[w] in wordList.Values || fresh(r[w])
  {
    if t in wordList {
      var node := wordList[t];
      node.Increment();
      r := wordList;
      forall w | w in r
        ensures Counts(r)[w] == AddToken(old(Counts(wordList)), t)[w]
      {
        if w != t {
          assert r[w].word != node.word;
        }
      }
    } else {
      var node := new Node(t);
      r := wordList[t := node];
    }
  }

  /** The `for` loop of lines 75-82 over the `splitter` array of one line:
      every non-empty piece bumps `words` and is recorded in the table. */
  method ImportPieces(wordList: WordList, words: int, splitter: seq<string>)
    returns (r: WordList, words': int)
    requires Indexed(wordList)
    modifies wordList.Values
    ensures Indexed(r)
    ensures Counts(r) == AddPieces(old(Counts(wordList)), splitter)
    ensures words' == words + |NonEmpty(splitter)|
    ensures forall w :: w in r ==> r[w] in wordList.Values || fresh(r[w])
  {
    r, words' := wordList, words;
    for i := 0 to |splitter|
      invariant Indexed(r)
      invariant forall w :: w in r ==> r[w] in wordList.Values || fresh(r[w])
      invariant Counts(r) == AddPieces(old(Counts(wordList)), splitter[..i])
      invariant words' == words + |NonEmpty(splitter[..i])|
    {
      assert splitter[..i + 1][..i] == splitter[..i];
      if splitter[i] != "" {
        words' := words' + 1;
        r := Record(r, splitter[i]);
      }
    }
    assert splitter[..|splitter|] == splitter;
  }

  /** `importFile` on the lines of a file (a missing file has none): returns
      the table and the `lines` and `words` counters it reports. */
  method ImportFile(file: seq<string>) returns (wordList: WordList, lines: int, words: int)
    ensures Indexed(wordList)
    ensures Counts(wordList) == Aggregate(file)
    ensures lines == |file|
    ensures words == |AllTokens(file)|
  {
    wordList := map[];
    lines, words := 0, 0;
    while lines < |file|
      invariant 0 <= lines <= |file|
      invariant Indexed(wordList)
      invariant forall w :: w in wordList ==> fresh(wordList[w])
      invariant Counts(wordList) == Aggregate(file[..lines])
      invariant words == |AllTokens(file[..lines])|
    {
      var str := Normalize(file[lines]);
      str := LowerCase(str);
      var splitter := Split(str);
      assert splitter == Pieces(file[lines]);
      wordList, words := ImportPieces(wordList, words, splitter);
      AggregateStep(file, lines);
      lines := lines + 1;
    }
    assert file[..lines] == file;
  }

  /** `innerProduct(x, y)`: over the nodes of `x`, the products of the
      counts of the words `y` also holds. */
  method InnerProduct(x: WordList, y: WordList) returns (innerProduct: int)
    requires Indexed(x)
    ensures innerProduct == Dot(Counts(x), Counts(y))
  {
    ghost var cx, cy := Counts(x), Counts(y);
    innerProduct := 0;
    var rest := x.Values;
    ghost var todo := x.Keys;
    while rest != {}
      invariant rest <= x.Values && todo <= x.Keys
      invariant forall w :: w in x ==> (w in todo <==> x[w] in rest)
      invariant innerProduct + Sum(todo, ProductOf(cx, cy)) == Dot(cx, cy)
      decreases rest
    {
      var comp :| comp in rest;
      ghost var w :| w in x && x[w] == comp;
      assert comp.word == w;
      SumRemove(todo, ProductOf(cx, cy), w);
      if comp.word in y {
        var mirror := y[comp.word];
        innerProduct := innerProduct + comp.frequency * mirror.frequency;
      }
      rest := rest - {comp};
      todo := todo - {w};
    }
    assert todo == {};
  }

  /** `norm(x)` without its final square root: the sum of the squared
      counts of the nodes of `x`. */
  method Norm(x: WordList) returns (norm: int)
    requires Indexed(x)
    ensures norm == SumSquares(Counts(x))
  {
    ghost var cx := Counts(x);
    norm := 0;
    var rest := x.Values;
    ghost var todo := x.Keys;
    while rest != {}
      invariant rest <= x.Values && todo <= x.Keys
      invariant forall w :: w in x ==> (w in todo <==> x[w] in rest)
      invariant norm + Sum(todo, SquareOf(cx)) == SumSquares(cx)
      decreases rest
    {
      var next :| next in rest;
      ghost var w :| w in x && x[w] == next;
      assert next.word == w;
      SumRemove(todo, SquareOf(cx), w);
      norm := norm + Sq(next.frequency);
      rest := rest - {next};
      todo := todo - {w};
    }
    assert todo == {};
  }

  /** Lines 37-39 of `main` without the floating-point steps: the dot
      product, driven by the smaller table, and the two squared norms. */
  method Similarity(f1: WordList, f2: WordList) returns (numerator: int, normSq1: int, normSq2: int)
    requires Indexed(f1) && Indexed(f2)
    ensures numerator == Dot(Counts(f1), Counts(f2))
    ensures normSq1 == SumSquares(Counts(f1)) && normSq2 == SumSquares(Counts(f2))
  {
    if |f1| <= |f2| {
      numerator := InnerProduct(f1, f2);
    } else {
      numerator := InnerProduct(f2, f1);
      DotSymmetric(Counts(f2), Counts(f1));
    }
    normSq1 := Norm(f1);
    normSq2 := Norm(f2);
  }

  /** Lines 33-39 of `main` on two files, up to the floating-point steps:
      the numerator and the squares of the two norms of the cosine. What
      they satisfy is stated by Aggregation.DocumentCosine. */
  method CompareDocuments(file1: seq<string>, file2: seq<string>)
    returns (numerator: int, normSq1: int, normSq2: int)
    ensures numerator == Dot(Aggregate(file1), Aggregate(file2))
    ensures normSq1 == SumSquares(Aggregate(file1)) && normSq2 == SumSquares(Aggregate(file2))
  {
    var f1, _, _ := ImportFile(file1);
    ghost var c1 := Counts(f1);
    var f2, _, _ := ImportFile(file2);
    assert Counts(f1) == c1;
    numerator, normSq1, normSq2 := Similarity(f1, f2);
  }
}
