/**
 * The Kotlin collection operations the analysis is written with (`map`,
 * `filter`, `count`, `maxOf`, `sumOf`, `maxByOrNull`), over immutable
 * sequences, each with the behaviour of the standard library's loop.
 */
module Collections {
  import opened Wrappers

  /** `xs.map(f)`. */
  function Map<T, U>(xs: seq<T>, f: T -> U): (r: seq<U>)
    ensures |r| == |xs|
    ensures forall i :: 0 <= i < |xs| ==> r[i] == f(xs[i])
  {
    seq(|xs|, i requires 0 <= i < |xs| => f(xs[i]))
  }

  /**
   * `s` can be obtained from `t` by deleting elements, keeping the order of
   * the rest (greedy matching decides this).
   */
  ghost predicate SubsequenceOf<T>(s: seq<T>, t: seq<T>)
    decreases |t|
  {
    if s == [] then true
    else if t == [] then false
    else if s[0] == t[0] then SubsequenceOf(s[1..], t[1..])
    else SubsequenceOf(s, t[1..])
  }

  /** The predicate that holds exactly where `p` does not. */
  function Negate<T>(p: T -> bool): T -> bool {
    x => !p(x)
  }

  /** `xs.filter(p)`: the elements satisfying `p`, in their original order. */
  function Filter<T>(xs: seq<T>, p: T -> bool): (r: seq<T>)
    ensures |r| <= |xs|
    ensures forall x :: x in r ==> x in xs && p(x)
    ensures forall x :: x in xs && p(x) ==> x in r
    ensures SubsequenceOf(r, xs)
  {
    if |xs| == 0 then []
    else
      var rest := Filter(xs[1..], p);
      if p(xs[0]) then
        assert ([xs[0]] + rest)[1..] == rest;
        [xs[0]] + rest
      else
        rest
  }

  /** `xs.count(p)`: how many elements satisfy `p`. */
  function Count<T>(xs: seq<T>, p: T -> bool): (n: nat)
    ensures n <= |xs|
    ensures n == 0 <==> forall x :: x in xs ==> !p(x)
  {
    if |xs| == 0 then 0
    else
      assert forall x :: x in xs ==> x == xs[0] || x in xs[1..];
      (if p(xs[0]) then 1 else 0) + Count(xs[1..], p)
  }

  /** Counting the matches is the same as measuring the filtered list. */
  lemma {:induction false} CountIsFilterLength<T>(xs: seq<T>, p: T -> bool)
    ensures Count(xs, p) == |Filter(xs, p)|
  {
    if |xs| > 0 {
      CountIsFilterLength(xs[1..], p);
    }
  }

  /** A filter that every element passes returns its input unchanged. */
  lemma {:induction false} FilterKeepsAll<T>(xs: seq<T>, p: T -> bool)
    requires forall x :: x in xs ==> p(x)
    ensures Filter(xs, p) == xs
  {
    if |xs| > 0 {
      assert xs[0] in xs;
      FilterKeepsAll(xs[1..], p);
      assert [xs[0]] + xs[1..] == xs;
    }
  }

  /** Filtering twice by the same predicate is filtering once. */
  lemma FilterIdempotent<T>(xs: seq<T>, p: T -> bool)
    ensures Filter(Filter(xs, p), p) == Filter(xs, p)
  {
    FilterKeepsAll(Filter(xs, p), p);
  }

  /**
   * The elements that pass `p` and those that fail it together make up
   * the input, each element exactly as often as it occurs there.
   */
  lemma {:induction false} FilterPartition<T>(xs: seq<T>, p: T -> bool)
    ensures multiset(Filter(xs, p)) + multiset(Filter(xs, Negate(p))) == multiset(xs)
    ensures |Filter(xs, p)| + |Filter(xs, Negate(p))| == |xs|
  {
    if |xs| > 0 {
      FilterPartition(xs[1..], p);
      assert xs == [xs[0]] + xs[1..];
      assert multiset(xs) == multiset{xs[0]} + multiset(xs[1..]);
    }
  }

  /** The largest of two reals (`maxOf(a, b)`). */
  function Max(a: real, b: real): real {
    if a < b then b else a
  }

  /** The smallest of two reals. */
  function Min(a: real, b: real): real {
    if b < a then b else a
  }

  /** `xs.maxOf { it }`: the running maximum, scanned from the front. */
  function MaxOf(xs: seq<real>): (m: real)
    requires |xs| > 0
    ensures forall i :: 0 <= i < |xs| ==> xs[i] <= m
  {
    if |xs| == 1 then xs[0]
    else
      var init := xs[..|xs| - 1];
      assert forall i :: 0 <= i < |xs| - 1 ==> init[i] == xs[i];
      Max(MaxOf(init), xs[|xs| - 1])
  }

  /** The running minimum, scanned from the front. */
  function MinOf(xs: seq<real>): (m: real)
    requires |xs| > 0
    ensures forall i :: 0 <= i < |xs| ==> m <= xs[i]
  {
    if |xs| == 1 then xs[0]
    else
      var init := xs[..|xs| - 1];
      assert forall i :: 0 <= i < |xs| - 1 ==> init[i] == xs[i];
      Min(MinOf(init), xs[|xs| - 1])
  }

  /** The maximum is one of the elements. */
  lemma {:induction false} MaxOfAttained(xs: seq<real>)
    requires |xs| > 0
    ensures exists i :: 0 <= i < |xs| && xs[i] == MaxOf(xs)
  {
    if |xs| > 1 {
      var init := xs[..|xs| - 1];
      MaxOfAttained(init);
      var i :| 0 <= i < |init| && init[i] == MaxOf(init);
      assert xs[i] == init[i];
      assert MaxOf(xs) == Max(MaxOf(init), xs[|xs| - 1]);
      if MaxOf(xs) != xs[|xs| - 1] {
        assert xs[i] == MaxOf(xs);
      }
    } else {
      assert xs[0] == MaxOf(xs);
    }
  }

  /** The minimum is one of the elements. */
  lemma {:induction false} MinOfAttained(xs: seq<real>)
    requires |xs| > 0
    ensures exists i :: 0 <= i < |xs| && xs[i] == MinOf(xs)
  {
    if |xs| > 1 {
      var init := xs[..|xs| - 1];
      MinOfAttained(init);
      var i :| 0 <= i < |init| && init[i] == MinOf(init);
      assert xs[i] == init[i];
      assert MinOf(xs) == Min(MinOf(init), xs[|xs| - 1]);
      if MinOf(xs) != xs[|xs| - 1] {
        assert xs[i] == MinOf(xs);
      }
    } else {
      assert xs[0] == MinOf(xs);
    }
  }

  /** `xs.sumOf { it }`, accumulated from the front. */
  function SumOf(xs: seq<real>): real {
    if |xs| == 0 then 0.0 else SumOf(xs[..|xs| - 1]) + xs[|xs| - 1]
  }

  /** A sum of `n` terms, none below `lo`, is at least `n * lo`. */
  lemma {:induction false} SumAtLeast(xs: seq<real>, lo: real)
    requires forall i :: 0 <= i < |xs| ==> lo <= xs[i]
    ensures (|xs| as real) * lo <= SumOf(xs)
  {
    if |xs| > 0 {
      var init := xs[..|xs| - 1];
      assert forall i :: 0 <= i < |init| ==> init[i] == xs[i];
      SumAtLeast(init, lo);
      assert (|xs| as real) * lo == (|init| as real) * lo + lo;
    }
  }

  /** A sum of `n` terms, none above `hi`, is at most `n * hi`. */
  lemma {:induction false} SumAtMost(xs: seq<real>, hi: real)
    requires forall i :: 0 <= i < |xs| ==> xs[i] <= hi
    ensures SumOf(xs) <= (|xs| as real) * hi
  {
    if |xs| > 0 {
      var init := xs[..|xs| - 1];
      assert forall i :: 0 <= i < |init| ==> init[i] == xs[i];
      SumAtMost(init, hi);
      assert (|xs| as real) * hi == (|init| as real) * hi + hi;
    }
  }

  /** Dividing `n * b <= s` by a positive `n`. */
  lemma DivideLower(s: real, n: real, b: real)
    requires n > 0.0 && n * b <= s
    ensures b <= s / n
  {
    var q := s / n;
    assert n * q == s;
    assert n * (b - q) <= 0.0;
  }

  /** Dividing `s <= n * b` by a positive `n`. */
  lemma DivideUpper(s: real, n: real, b: real)
    requires n > 0.0 && s <= n * b
    ensures s / n <= b
  {
    var q := s / n;
    assert n * q == s;
    assert n * (q - b) <= 0.0;
  }

  /** The arithmetic mean `xs.sum() / xs.size`: `size` copies of it add up to the sum. */
  function Mean(xs: seq<real>): (m: real)
    requires |xs| > 0
    ensures m * (|xs| as real) == SumOf(xs)
  {
    SumOf(xs) / (|xs| as real)
  }

  /** Bounds that hold for every element of a non-empty list hold for its arithmetic mean. */
  lemma MeanWithin(xs: seq<real>, lo: real, hi: real)
    requires |xs| > 0
    requires forall i :: 0 <= i < |xs| ==> lo <= xs[i] <= hi
    ensures lo <= Mean(xs) <= hi
  {
    SumAtLeast(xs, lo);
    SumAtMost(xs, hi);
    DivideLower(SumOf(xs), |xs| as real, lo);
    DivideUpper(SumOf(xs), |xs| as real, hi);
  }

  /** The arithmetic mean of a non-empty list lies between its least and greatest element. */
  lemma MeanBounds(xs: seq<real>)
    requires |xs| > 0
    ensures MinOf(xs) <= Mean(xs) <= MaxOf(xs)
  {
    MeanWithin(xs, MinOf(xs), MaxOf(xs));
  }

  /**
   * The position `maxByOrNull` settles on: it keeps the first element and
   * replaces it only by a later one whose key is strictly larger, so the
   * earliest maximal element wins.
   */
  function IndexOfMaxBy<T>(xs: seq<T>, key: T -> real): (i: nat)
    requires |xs| > 0
    ensures i < |xs|
    ensures forall j :: 0 <= j < |xs| ==> key(xs[j]) <= key(xs[i])
    ensures forall j :: 0 <= j < i ==> key(xs[j]) < key(xs[i])
  {
    if |xs| == 1 then 0
    else
      var init := xs[..|xs| - 1];
      assert forall j :: 0 <= j < |xs| - 1 ==> init[j] == xs[j];
      var m := IndexOfMaxBy(init, key);
      if key(xs[m]) < key(xs[|xs| - 1]) then |xs| - 1 else m
  }

  /**
   * `xs.maxByOrNull(key)`: `null` for an empty list, otherwise an element
   * with the largest key, the earliest one on a tie.
   */
  function MaxByOrNull<T>(xs: seq<T>, key: T -> real): (r: Option<T>)
    ensures r.None? <==> |xs| == 0
  {
    if |xs| == 0 then None
    else
      var i := IndexOfMaxBy(xs, key);
      Some(xs[i])
  }

  /**
   * The position of the first occurrence of `x`; with it the first-wins
   * tie-break of `maxByOrNull` is stated on the element it returns.
   */
  function IndexOf<T(==)>(xs: seq<T>, x: T): (i: nat)
    requires x in xs
    ensures i < |xs| && xs[i] == x
    ensures forall j :: 0 <= j < i ==> xs[j] != x
  {
    if xs[0] == x then 0 else 1 + IndexOf(xs[1..], x)
  }

  /** `xs.map { x -> x to f(x) }`: each element paired with its image. */
  function Tag<T, U>(xs: seq<T>, f: T -> U): (r: seq<(T, U)>)
    ensures |r| == |xs|
    ensures forall i :: 0 <= i < |xs| ==> r[i] == (xs[i], f(xs[i]))
  {
    Map(xs, x => (x, f(x)))
  }

  /** The selector `{ it.second }`, with the second component ranked by `rank`. */
  function SecondBy<T, U>(rank: U -> real): ((T, U)) -> real {
    (p: (T, U)) => rank(p.1)
  }

  /**
   * `xs.map { x -> x to f(x) }.maxByOrNull { it.second }` on a non-empty
   * list: a pair of an element and its own image, no element ranks higher,
   * and the earliest of the highest-ranked elements is the one chosen.
   */
  lemma MaxByTagged<T, U>(xs: seq<T>, f: T -> U, rank: U -> real)
    requires |xs| > 0
    ensures MaxByOrNull(Tag(xs, f), SecondBy(rank)).Some?
    ensures MaxByOrNull(Tag(xs, f), SecondBy(rank)).value.0 in xs
    ensures var best := MaxByOrNull(Tag(xs, f), SecondBy(rank)).value;
      best.1 == f(best.0)
    ensures var best := MaxByOrNull(Tag(xs, f), SecondBy(rank)).value;
      forall j :: 0 <= j < |xs| ==> rank(f(xs[j])) <= rank(best.1)
    ensures var best := MaxByOrNull(Tag(xs, f), SecondBy(rank)).value;
      forall j :: 0 <= j < IndexOf(xs, best.0) ==> rank(f(xs[j])) < rank(best.1)
  {
    var tagged, key := Tag(xs, f), SecondBy(rank);
    var i := IndexOfMaxBy(tagged, key);
    assert MaxByOrNull(tagged, key) == Some(tagged[i]);
    assert forall j :: 0 <= j < |xs| ==> key(tagged[j]) == rank(f(xs[j]));
    assert IndexOf(xs, xs[i]) <= i;
  }
}

