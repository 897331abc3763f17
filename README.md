# TextCompare in Dafny

`TextCompare` compares two text files as bags of words. `importFile` reads a file line by line. Each line goes through four steps:

1. Every character other than an ASCII letter, digit or space becomes a space.
2. The line is lower-cased.
3. The line is split at runs of whitespace.
4. Every non-empty piece is recorded in a `Hashtable<String, Node>` whose nodes count occurrences.

`main` then computes the cosine of the angle between the two frequency vectors. The numerator is `innerProduct`, which iterates the smaller table. The denominator is the product of the two `norm`s.

This project models that core in four modules:

- **`Tokenize`** holds the per-line pipeline as pure functions. `Split` is an exact model of `String.split("\\s+")` on lines whose only whitespace is the space: a leading empty piece is kept, trailing ones are dropped, and a line without a separator is returned whole. It is proved equal, after the empty pieces are dropped, to an independent reference definition `Words`.
- **`WordVectors`** treats frequency maps as integer vectors. It defines their total, dot product and sum of squares as sums over key sets, so no iteration order enters. It proves the dot product symmetric, 0 for disjoint vocabularies, equal to the sum of squares on the diagonal, and bounded by Cauchy–Schwarz. It also holds the overflow finding below.
- **`Aggregation`** holds the pure specification of what `importFile` builds: the left-to-right fold `Aggregate` over lines and pieces, and the token sequence `AllTokens`. It proves that the map is the multiset of the document's tokens, with all counts at least 1. It also proves that the keys are the distinct tokens and that the total of the counts is the number of tokens.
- **`TextCompare`** is the imperative code:
  - the class `Node`, with an immutable `word` and a mutable `frequency`;
  - `ImportFile`, with its `while` loop over lines and `for` loop over pieces, updating the table of nodes in place and counting `lines` and `words`;
  - `InnerProduct` and `Norm`, looping over the node set of a table;
  - the size-based branch of `main`.

  Each method is proved against the specification functions of the other modules.

Counts here are unbounded integers, and the accumulations of `innerProduct` and `norm` are exact integers. The square root, the division and `acos` are not modelled.

## Model

| member | source | states |
|---|---|---|
| Tokenize.Normalize | TextCompare.java:71 | keeps the length; every output character is an ASCII letter, digit or space; kept characters are unchanged and every other character becomes one space (runs are not collapsed) |
| Tokenize.LowerCase | TextCompare.java:72 | keeps the length; each `A`–`Z` moves up by 32 to its lower-case letter; every other character is unchanged |
| Tokenize.Clean | TextCompare.java:71-72 | the cleaned line has the same length, holds only `a`–`z`, `0`–`9` and spaces, has a space exactly where the input had no ASCII letter or digit, and holds the lower-cased letter or digit elsewhere |
| Tokenize.CleanIdempotent | TextCompare.java:71-72 | cleaning a cleaned line changes nothing |
| Tokenize.Split | TextCompare.java:73 | a line without a space is returned as the one piece `[s]`; otherwise the last piece is non-empty (trailing empty strings are removed); no piece contains a space |
| Tokenize.NonEmpty | TextCompare.java:76 | keeps exactly the non-empty pieces: the result holds no empty string, every kept piece comes from the input, and every non-empty piece occurs in the result as often as in the input (so each occurrence reaches the counters); `SplitThenFilterIsWords` fixes their order |
| Tokenize.SplitThenFilterIsWords | TextCompare.java:73-76 | splitting at runs of spaces and dropping the empty pieces gives exactly the reference words of the line (skip a space, or take the longest space-free prefix) |
| Tokenize.Pieces | TextCompare.java:71-73 | definition of the `splitter` array of one line, `Split(Clean(line))`; its pieces are characterised by `Tokenize.Split`, `Tokenize.Clean` and `Tokenize.TokensOfCleaned` |
| Tokenize.Tokens | TextCompare.java:71-76 | every token a line contributes is non-empty and made only of lower-case ASCII letters and digits |
| Tokenize.TokensAreWords | TextCompare.java:71-76 | the tokens of a line are the reference words of its cleaned text |
| Tokenize.PunctuationOnlyLine | TextCompare.java:71-76 | a line with no ASCII letter or digit contributes no token |
| Tokenize.TokensOfCleaned | TextCompare.java:71-76 | tokenizing an already-cleaned line gives the same pieces and tokens |
| Aggregation.AddToken | TextCompare.java:78-80 | recording token `t` adds `t` to the keys, raises its count by 1 (from 0 when new), and leaves every other word's count unchanged |
| Aggregation.AddPieces | TextCompare.java:75-82 | definition of the inner `for` loop as a fold of `AddToken` over the non-empty pieces of one line; its effect is stated by `Aggregation.AddPiecesCounts` and `Aggregation.TotalAddPieces` |
| Aggregation.Aggregate | TextCompare.java:69-85 | definition of the map `importFile` builds, a left-to-right fold of `AddPieces` over the lines; its properties are stated by `Aggregation.AggregateCounts`, `Aggregation.AggregateKeys`, `Aggregation.AggregateTotal` and `Aggregation.AggregateEmpty` |
| Aggregation.AllTokens | TextCompare.java:69-82 | definition of the sequence of tokens that reach `words++`, line after line; `Aggregation.AggregateCounts` equates its multiset with the map and `Aggregation.AggregateTotal` its length with the total of the counts |
| Aggregation.AggregateStep | TextCompare.java:69-85 | one more line adds its pieces to the map and its non-empty pieces to the word count |
| Aggregation.AddPiecesCounts | TextCompare.java:75-82 | processing the pieces of one line keeps all counts at least 1 and adds to each word's count the number of times it occurs among the non-empty pieces |
| Aggregation.AggregateCounts | TextCompare.java:69-85 | every count in the map is at least 1, and each word's count is its number of occurrences among the document's tokens |
| Aggregation.AggregateKeys | TextCompare.java:75-92 | the keys are exactly the set of tokens seen, so the distinct-word count `wordList.size()` is the number of distinct tokens |
| Aggregation.AggregateEmpty | TextCompare.java:61-85 | the map is empty exactly when the document has no token (in particular for zero lines) |
| Aggregation.TotalAddToken | TextCompare.java:77-80 | recording one token raises the sum of all counts by exactly 1 |
| Aggregation.TotalAddPieces | TextCompare.java:75-82 | processing one line raises the sum of all counts by the number of its non-empty pieces, the amount `words` is raised by |
| Aggregation.AggregateTotal | TextCompare.java:62-92 | the sum of all counts equals the number of tokens, which is the `words` counter |
| Aggregation.SilentLine | TextCompare.java:75-82 | a line with no tokens leaves the map and the token sequence (so `words`) unchanged |
| Aggregation.AggregateDependsOnlyOnTokens | TextCompare.java:69-85 | two documents with the same multiset of tokens get the same map, whatever the order of lines and words |
| Aggregation.AggregateOfCleaned | TextCompare.java:69-85 | importing the cleaned lines of a document gives the same map and the same tokens |
| Aggregation.CleanAll | TextCompare.java:71-72 | cleans every line of a document, keeping the number of lines |
| Aggregation.DocumentCosine | TextCompare.java:37-39 | for two documents: the numerator is non-negative and its square is at most the product of the squared norms, so the cosine lies in [0, 1]; identical maps give the same numerator and squared norm (cosine 1); disjoint vocabularies give 0; a squared norm is 0 exactly when that document has no token |
| WordVectors.Dot | TextCompare.java:110-123 | definition of the exact inner product as a sum over the keys of the first map, in no order; its properties are stated by `WordVectors.DotSymmetric`, `WordVectors.DotSelf`, `WordVectors.DotDisjoint`, `WordVectors.DotNonNegative` and `WordVectors.CauchySchwarz` |
| WordVectors.SumSquares | TextCompare.java:135-142 | definition of the sum of squared counts that `norm` takes the square root of; its properties are stated by `WordVectors.SumSquaresZero` and `WordVectors.DotSelf` |
| WordVectors.DotSymmetric | TextCompare.java:37-39 | `innerProduct(x, y) == innerProduct(y, x)`, so both arms of the size-based branch compute the same numerator |
| WordVectors.DotOverCommonKeys | TextCompare.java:110-123 | the dot product equals the sum over the words both maps hold |
| WordVectors.DotDisjoint | TextCompare.java:110-123 | maps with disjoint key sets have dot product 0 |
| WordVectors.DotSelf | TextCompare.java:110-142 | the dot product of a map with itself is its sum of squares |
| WordVectors.DotNonNegative | TextCompare.java:110-123 | with counts at least 1 the dot product is non-negative |
| WordVectors.SumSquaresZero | TextCompare.java:135-142 | the sum of squares is non-negative, and for counts at least 1 it is 0 exactly when the map is empty |
| WordVectors.CountsDetermineMap | TextCompare.java:78-80 | two maps whose counts are all at least 1 and agree on every word are equal |
| WordVectors.CauchySchwarz | TextCompare.java:38-41 | the square of the dot product is at most the product of the sums of squares, so the argument of `acos` is at most 1 before rounding |
| WordVectors.CosineFacts | TextCompare.java:37-41 | for maps with counts at least 1: the dot product is symmetric and non-negative and satisfies Cauchy–Schwarz; equal maps give dot product equal to the sum of squares; disjoint keys give 0; the sum of squares is 0 exactly for the empty map |
| WordVectors.Int32 | TextCompare.java:118 | Java `int` arithmetic: the result is in the 32-bit range, congruent to the exact value modulo 2^32, and equal to it when it fits |
| WordVectors.DotAsWritten | TextCompare.java:118 | definition of `innerProduct` as written, each product wrapped to a Java `int` by `WordVectors.Int32`; `WordVectors.InnerProductOverflows` and `WordVectors.DotAsWrittenExactForSmallCounts` state where it differs from and agrees with `WordVectors.Dot` |
| WordVectors.InnerProductOverflows | TextCompare.java:118 | a document with one word occurring 46341 times, compared with itself, gives the as-written numerator -2147479015, while the exact dot product and sum of squares are 2147488281 |
| WordVectors.DotAsWrittenExactForSmallCounts | TextCompare.java:118 | when no count exceeds 46340, the as-written product sum equals the exact dot product |
| TextCompare.Node.constructor | TextCompare.java:180-183 | a new node holds its word with frequency 1 |
| TextCompare.Node.Increment | TextCompare.java:189-191 | raises the frequency by exactly 1 |
| TextCompare.Record | TextCompare.java:78-80 | on a table whose nodes are filed under their own words, the new table's counts are `AddToken` of the old ones; nodes stay filed under their words; every node is an old one or newly allocated |
| TextCompare.ImportPieces | TextCompare.java:75-82 | the `for` loop over one line's pieces: the table's counts become `AddPieces` of the old ones, and `words` grows by the number of non-empty pieces |
| TextCompare.ImportFile | TextCompare.java:60-95 | the table's counts are `Aggregate` of the lines; every node is filed under its own word; `lines` is the number of lines, including those without tokens; `words` is the number of tokens (0 and an empty table for a file with no lines) |
| TextCompare.InnerProduct | TextCompare.java:110-123 | iterating over the nodes of `x` in any order gives the exact dot product of the two tables' counts |
| TextCompare.Norm | TextCompare.java:135-142 | iterating over the nodes in any order gives the exact sum of squared counts, the value `norm` takes the square root of |
| TextCompare.Similarity | TextCompare.java:37-39 | whichever table is smaller drives `InnerProduct`, and the numerator is the dot product of the first table with the second; the two squared norms are the sums of squares |
| TextCompare.CompareDocuments | TextCompare.java:33-39 | for two files: the numerator and the squared norms are the dot product and the sums of squares of the two documents' `Aggregate` maps |

The `words` counter equals the sum of all counts after every line. `ImportFile`'s loop invariant keeps `Counts(wordList) == Aggregate(file[..lines])` and `words == |AllTokens(file[..lines])|`, and `Aggregation.AggregateTotal` equates the two for every prefix.

## Left out

- Opening the file, reading it with `Scanner`, and the `FileNotFoundException` path with its message (lines 64-66, 86-90). The file is a sequence of lines; a missing file is the empty sequence.
- All printing (lines 28, 43-44, 89, 92). The values line 92 prints are the outputs of `ImportFile` (and `|wordList|`, see `Aggregation.AggregateKeys`).
- The argument-count check and `System.exit` (lines 27-30).
- `Stopwatch` (lines 22, 44, 154-165): it reads a wall clock.
- `Math.sqrt`, the division and `Math.acos` (lines 38-41, 142). These are floating point. The model stops at the integer numerator and the integer squared norms. `Aggregation.DocumentCosine` proves the cosine lies in [0, 1]. An empty document gives a zero norm and a 0/0 division, which the code does not guard against; the model only proves when the squared norm is 0.
- The `double` accumulators of `innerProduct` and `norm` are modelled as exact integers. They are exact while the sums stay below 2^53.
- The Hashtable enumeration order (lines 112, 137). `InnerProduct` and `Norm` pick an arbitrary remaining node each step, so the proof covers every order.
- Node.frequency, ImportFile's `lines` and `words`: Java `int` counters, modelled as unbounded integers. They wrap only after 2^31 - 1 occurrences.
- `getWord` and `getFrequency` (lines 185-195) are read as the fields themselves.
- Tokenize.LowerCase: models `toLowerCase()` under a default locale other than Turkish or Azerbaijani, where it maps exactly `A`–`Z` to `a`–`z` on the ASCII text left by line 71. Line 72 uses the default locale; under a Turkish or Azerbaijani one it maps `I` to the dotless `ı` (U+0131). Then tokens of the program contain `ı`, such as "ın" from "IN", which differ from the tokens of the same word written in lower case, and the `a`–`z`/`0`–`9` shape stated by `Tokenize.Clean` and `Tokenize.Tokens` does not hold. The model does not capture that behaviour.
- Tokenize.Split: splits only at the space character. After line 71 the space is the only whitespace left, so `\s` can match nothing else. Java regular expressions in general are not modelled.

## Findings

| source | as written | input that shows it | evidently intended | confidence | as-written member | corrected member |
|---|---|---|---|---|---|---|
| TextCompare.java:118 | `comp.getFrequency()*mirror.getFrequency()` multiplies two `int`s, so the product wraps to 32 bits before it is added to the `double` accumulator | a file in which one word occurs 46341 times, compared with itself: the product 2147488281 wraps to -2147479015, so the cosine is about -1 and the reported distance is about π instead of 0 | the exact product of the two counts, as `norm` computes with `Math.pow` | high; not executed | WordVectors.InnerProductOverflows | TextCompare.InnerProduct |
