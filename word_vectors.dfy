/**
 Frequency maps seen as sparse integer vectors indexed by words, and the
 integer sums `innerProduct` and `norm` accumulate over them. Every sum is
 taken over a set of keys, so no enumeration order enters the definitions.
 */
module WordVectors {

  type Word = string

  /** A frequency map: word to number of occurrences. */
  type Frequencies = map<Word, int>

  /** The coordinate of `w`: its count, or 0 for a word the map lacks. */
  function Count(m: Frequencies, w: Word): int {
    if w in m then m[w] else 0
  }

  /** Every entry was created at 1 and only ever incremented. */
  predicate Positive(m: Frequencies) {
    forall w :: w in m ==> m[w] >= 1
  }

  function Sq(n: int): int {
    n * n
  }

  /** Sum of `f` over a finite set of words, in no particular order. */
  ghost function Sum(keys: set<Word>, f: Word -> int): int
    decreases keys
  {
    if keys == {} then 0
    else
      var w :| w in keys;
      f(w) + Sum(keys - {w}, f)
  }

  function CountOf(m: Frequencies): Word -> int {
    w => Count(m, w)
  }

  function ProductOf(a: Frequencies, b: Frequencies): Word -> int {
    w => Count(a, w) * Count(b, w)
  }

  function SquareOf(m: Frequencies): Word -> int {
    w => Sq(Count(m, w))
  }

  /** Total number of words behind a frequency map. */
  ghost function Total(m: Frequencies): int {
    Sum(m.Keys, CountOf(m))
  }

  /** The dot product as `innerProduct(a, b)` accumulates it: over the keys
      of its first argument, words absent from the second adding 0. */
  ghost function Dot(a: Frequencies, b: Frequencies): int {
    Sum(a.Keys, ProductOf(a, b))
  }

  /** The squared Euclidean norm, the sum `norm` takes the square root of. */
  ghost function SumSquares(m: Frequencies): int {
    Sum(m.Keys, SquareOf(m))
  }

  /** Taking any element out of a sum first gives the same sum. */
  lemma {:induction false} SumRemove(keys: set<Word>, f: Word -> int, w: Word)
    requires w in keys
    ensures Sum(keys, f) == f(w) + Sum(keys - {w}, f)
    decreases keys
  {
    var v :| v in keys && Sum(keys, f) == f(v) + Sum(keys - {v}, f);
    if v != w {
      SumRemove(keys - {v}, f, w);
      SumRemove(keys - {w}, f, v);
      assert keys - {v} - {w} == keys - {w} - {v};
    }
  }

  /** Sums of functions that agree on the keys are equal. */
  lemma {:induction false} SumCongruent(keys: set<Word>, f: Word -> int, g: Word -> int)
    requires forall w :: w in keys ==> f(w) == g(w)
    ensures Sum(keys, f) == Sum(keys, g)
    decreases keys
  {
    if keys != {} {
      var w :| w in keys;
      SumRemove(keys, f, w);
      SumRemove(keys, g, w);
      SumCongruent(keys - {w}, f, g);
    }
  }

  /** Keys on which `f` is 0 can be dropped from a sum. */
  lemma {:induction false} SumDropZeros(keys: set<Word>, sub: set<Word>, f: Word -> int)
    requires sub <= keys
    requires forall w :: w in keys - sub ==> f(w) == 0
    ensures Sum(keys, f) == Sum(sub, f)
    decreases keys
  {
    if keys - sub != {} {
      var w :| w in keys - sub;
      SumRemove(keys, f, w);
      SumDropZeros(keys - {w}, sub, f);
    } else {
      forall w | w in keys
        ensures w in sub
      {
        assert w !in keys - sub;
      }
      assert keys == sub;
    }
  }

  lemma {:induction false} SumNonNegative(keys: set<Word>, f: Word -> int)
    requires forall w :: w in keys ==> f(w) >= 0
    ensures Sum(keys, f) >= 0
    decreases keys
  {
    if keys != {} {
      var w :| w in keys;
      SumRemove(keys, f, w);
      SumNonNegative(keys - {w}, f);
    }
  }

  /** A sum of positive terms over a non-empty set is positive. */
  lemma SumPositive(keys: set<Word>, f: Word -> int)
    requires forall w :: w in keys ==> f(w) >= 1
    ensures keys != {} ==> Sum(keys, f) >= 1
  {
    if keys != {} {
      var w :| w in keys;
      SumRemove(keys, f, w);
      SumNonNegative(keys - {w}, f);
    }
  }

  /** A map whose counts are all at least 1 is determined by its counts. */
  lemma CountsDetermineMap(m1: Frequencies, m2: Frequencies)
    requires Positive(m1) && Positive(m2)
    requires forall w :: Count(m1, w) == Count(m2, w)
    ensures m1 == m2
  {
    forall w
      ensures w in m1 <==> w in m2
    {
      assert Count(m1, w) == Count(m2, w);
    }
    assert m1.Keys == m2.Keys;
    forall w | w in m1
      ensures m1[w] == m2[w]
    {
      assert Count(m1, w) == Count(m2, w);
    }
  }

  lemma SumSingleton(w: Word, f: Word -> int)
    ensures Sum({w}, f) == f(w)
  {
    SumRemove({w}, f, w);
    assert {w} - {w} == {};
  }

  /** The sum over the common keys: the form in which the dot product is
      visibly independent of which map drives the iteration. */
  lemma DotOverCommonKeys(a: Frequencies, b: Frequencies)
    ensures Dot(a, b) == Sum(a.Keys * b.Keys, ProductOf(a, b))
  {
    SumDropZeros(a.Keys, a.Keys * b.Keys, ProductOf(a, b));
  }

  /** `innerProduct(x, y) == innerProduct(y, x)`: both arms of the
      size-based choice compute the same numerator. */
  lemma DotSymmetric(a: Frequencies, b: Frequencies)
    ensures Dot(a, b) == Dot(b, a)
  {
    DotOverCommonKeys(a, b);
    DotOverCommonKeys(b, a);
    assert b.Keys * a.Keys == a.Keys * b.Keys;
    SumCongruent(a.Keys * b.Keys, ProductOf(a, b), ProductOf(b, a));
  }

  /** Documents with no word in common have dot product 0. */
  lemma DotDisjoint(a: Frequencies, b: Frequencies)
    requires a.Keys !! b.Keys
    ensures Dot(a, b) == 0
  {
    DotOverCommonKeys(a, b);
    assert a.Keys * b.Keys == {};
  }

  /** The dot product of a map with itself is its sum of squares. */
  lemma DotSelf(a: Frequencies)
    ensures Dot(a, a) == SumSquares(a)
  {
    SumCongruent(a.Keys, ProductOf(a, a), SquareOf(a));
  }

  lemma DotNonNegative(a: Frequencies, b: Frequencies)
    requires Positive(a) && Positive(b)
    ensures Dot(a, b) >= 0
  {
    SumNonNegative(a.Keys, ProductOf(a, b));
  }

  /** The sum of squares is never negative, and for a map whose counts are
      all at least 1 it is 0 exactly when the map is empty. */
  lemma SumSquaresZero(a: Frequencies)
    ensures SumSquares(a) >= 0
    ensures Positive(a) ==> (SumSquares(a) == 0 <==> a == map[])
  {
    SumNonNegative(a.Keys, SquareOf(a));
    if Positive(a) {
      SumPositive(a.Keys, SquareOf(a));
    }
    if a == map[] {
      assert a.Keys == {};
    }
  }

  /** What the integer parts of the cosine `Dot(a, b) / sqrt(SumSquares(a)
      * SumSquares(b))` satisfy for two frequency maps. */
  lemma CosineFacts(a: Frequencies, b: Frequencies)
    requires Positive(a) && Positive(b)
    ensures 0 <= Dot(a, b) == Dot(b, a)
    ensures Sq(Dot(a, b)) <= SumSquares(a) * SumSquares(b)
    ensures a == b ==> Dot(a, b) == SumSquares(a) == SumSquares(b)
    ensures a.Keys !! b.Keys ==> Dot(a, b) == 0
    ensures SumSquares(a) == 0 <==> a == map[]
    ensures SumSquares(b) == 0 <==> b == map[]
  {
    DotSymmetric(a, b);
    DotNonNegative(a, b);
    CauchySchwarz(a, b);
    DotSelf(a);
    if a.Keys !! b.Keys {
      DotDisjoint(a, b);
    }
    SumSquaresZero(a);
    SumSquaresZero(b);
  }

  lemma MulMonotone(x: int, y: int, x': int, y': int)
    requires 0 <= x <= x' && 0 <= y <= y'
    ensures x * y <= x' * y'
  {
    assert x * y <= x' * y;
    assert x' * y <= x' * y';
  }

  lemma SquareMonotone(u: int, v: int)
    requires 0 <= v && u * u <= v * v
    ensures u <= v
  {
    if u > v {
      MulMonotone(v, v, u, v);
      MulMonotone(u, v, u, u);
      assert false;
    }
  }

  lemma SquareNonNegative(z: int)
    ensures z * z >= 0
  {
    if z < 0 {
      MulMonotone(-z, -z, -z, -z);
      assert z * z == (-z) * (-z);
    } else {
      MulMonotone(0, 0, z, z);
    }
  }

  lemma SquareOfSum(x: int, y: int)
    ensures (x + y) * (x + y) == x * x + 2 * (x * y) + y * y
  {
  }

  lemma SquareOfSumMinusDifference(x: int, y: int)
    ensures (x + y) * (x + y) == (x - y) * (x - y) + 4 * (x * y)
  {
  }

  lemma ProductOfSums(a: int, sa: int, b: int, sb: int)
    ensures (a + sa) * (b + sb) == a * b + (a * sb + b * sa) + sa * sb
  {
  }

  lemma SquareOfProduct(x: int, y: int)
    ensures (x * y) * (x * y) == (x * x) * (y * y)
  {
  }

  lemma Rearrange(a: int, b: int, sa: int, sb: int)
    ensures (a * sb) * (b * sa) == (a * b) * (sa * sb)
  {
  }

  /** The cross term is bounded by the arithmetic mean of the two mixed
      products (stated over the products themselves). */
  lemma CrossTermBound(ss: int, pp: int, ab: int, q: int, x: int, y: int, sp: int)
    requires 0 <= ss <= ab && 0 <= pp <= q && 0 <= x && 0 <= y
    requires x * y == ab * q && sp * sp == ss * pp
    ensures 2 * sp <= x + y
  {
    MulMonotone(ss, pp, ab, q);
    SquareOfSumMinusDifference(x, y);
    SquareNonNegative(x - y);
    SquareOfProduct(2, sp);
    SquareMonotone(2 * sp, x + y);
  }

  /** One step of Cauchy-Schwarz: adding a term whose square is bounded by
      the product of the two new squares keeps the bound. */
  lemma CauchySchwarzStep(s: int, a: int, b: int, p: int, sa: int, sb: int)
    requires 0 <= a && 0 <= b && 0 <= sa && 0 <= sb
    requires s * s <= a * b && p * p <= sa * sb
    ensures (s + p) * (s + p) <= (a + sa) * (b + sb)
  {
    MulMonotone(0, 0, a, sb);
    MulMonotone(0, 0, b, sa);
    SquareNonNegative(s);
    SquareNonNegative(p);
    Rearrange(a, b, sa, sb);
    SquareOfProduct(s, p);
    CrossTermBound(s * s, p * p, a * b, sa * sb, a * sb, b * sa, s * p);
    SquareOfSum(s, p);
    ProductOfSums(a, sa, b, sb);
  }

  lemma {:induction false} CauchySchwarzSum(keys: set<Word>, p: Word -> int, sa: Word -> int, sb: Word -> int)
    requires forall w :: w in keys ==> 0 <= sa(w) && 0 <= sb(w) && p(w) * p(w) <= sa(w) * sb(w)
    ensures Sum(keys, p) * Sum(keys, p) <= Sum(keys, sa) * Sum(keys, sb)
    decreases keys
  {
    if keys != {} {
      var w :| w in keys;
      var rest := keys - {w};
      SumRemove(keys, p, w);
      SumRemove(keys, sa, w);
      SumRemove(keys, sb, w);
      CauchySchwarzSum(rest, p, sa, sb);
      SumNonNegative(rest, sa);
      SumNonNegative(rest, sb);
      CauchySchwarzStep(Sum(rest, p), Sum(rest, sa), Sum(rest, sb), p(w), sa(w), sb(w));
    }
  }

  /** One coordinate of Cauchy-Schwarz, where it holds with equality. */
  lemma TermBound(x: int, y: int)
    ensures 0 <= Sq(x) && 0 <= Sq(y)
    ensures (x * y) * (x * y) <= Sq(x) * Sq(y)
  {
    SquareNonNegative(x);
    SquareNonNegative(y);
    SquareOfProduct(x, y);
  }

  /** The square of the dot product is at most the product of the squared
      norms, so the cosine `innerProduct / (norm * norm)` lies in [-1, 1]
      before any rounding. */
  lemma CauchySchwarz(a: Frequencies, b: Frequencies)
    ensures Sq(Dot(a, b)) <= SumSquares(a) * SumSquares(b)
  {
    var all := a.Keys + b.Keys;
    SumDropZeros(all, a.Keys, ProductOf(a, b));
    SumDropZeros(all, a.Keys, SquareOf(a));
    SumDropZeros(all, b.Keys, SquareOf(b));
    forall w | w in all
      ensures 0 <= SquareOf(a)(w) && 0 <= SquareOf(b)(w)
      ensures ProductOf(a, b)(w) * ProductOf(a, b)(w) <= SquareOf(a)(w) * SquareOf(b)(w)
    {
      TermBound(Count(a, w), Count(b, w));
    }
    CauchySchwarzSum(all, ProductOf(a, b), SquareOf(a), SquareOf(b));
  }

  /** Java's `int` multiplication: the exact product reduced to 32-bit two's
      complement. */
  function Int32(v: int): (r: int)
    ensures -0x8000_0000 <= r < 0x8000_0000
    ensures (v - r) % 0x1_0000_0000 == 0
    ensures -0x8000_0000 <= v < 0x8000_0000 ==> r == v
  {
    (v + 0x8000_0000) % 0x1_0000_0000 - 0x8000_0000
  }

  function ProductAsWritten(a: Frequencies, b: Frequencies): Word -> int {
    w => Int32(Count(a, w) * Count(b, w))
  }

  /** `innerProduct` as written: `comp.getFrequency()*mirror.getFrequency()`
      is an `int` product, which wraps before it is added to the `double`. */
  ghost function DotAsWritten(a: Frequencies, b: Frequencies): int {
    Sum(a.Keys, ProductAsWritten(a, b))
  }

  /** A document in which one word occurs 46341 times, compared with itself:
      the numerator comes out negative while the squared norm is positive,
      so the reported angle exceeds a right angle instead of being 0. */
  lemma InnerProductOverflows()
    ensures DotAsWritten(map["the" := 46341], map["the" := 46341]) == -2147479015
    ensures Dot(map["the" := 46341], map["the" := 46341]) == 2147488281
    ensures SumSquares(map["the" := 46341]) == 2147488281
  {
    var a := map["the" := 46341];
    assert a.Keys == {"the"};
    SumSingleton("the", ProductAsWritten(a, a));
    SumSingleton("the", ProductOf(a, a));
    DotSelf(a);
  }

  /** While no count exceeds 46340 every product fits in an `int` and the
      code as written computes the exact dot product. */
  lemma DotAsWrittenExactForSmallCounts(a: Frequencies, b: Frequencies)
    requires forall w :: w in a ==> 0 <= a[w] <= 46340
    requires forall w :: w in b ==> 0 <= b[w] <= 46340
    ensures DotAsWritten(a, b) == Dot(a, b)
  {
    forall w | w in a.Keys
      ensures ProductAsWritten(a, b)(w) == ProductOf(a, b)(w)
    {
      MulMonotone(Count(a, w), Count(b, w), 46340, 46340);
    }
    SumCongruent(a.Keys, ProductAsWritten(a, b), ProductOf(a, b));
  }
}
