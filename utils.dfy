/**
 * Random value and string generators of the benchmark, and its in-place
 * array scramble.
 *
 * Math.random() is the only source of randomness. It is modelled as a
 * nondeterministic draw `r` from [0, 1) (`Random`), and every property below
 * is stated over all possible draws. The generators that are one expression
 * over their draws (randomInt, randomLetter, randomPhoneNumber) are functions
 * of those draws; the generators that build a string in a loop, and the
 * scramble, are methods that draw as they go.
 */
module Utils {

  /** A value Math.random() can return: a number in [0, 1). */
  type Unit = r: real | 0.0 <= r < 1.0

  /** An optional argument: JavaScript's `undefined`/`null` is `None`. */
  datatype Option<T> = None | Some(value: T)

  /** One call of Math.random(): any number in [0, 1). */
  method Random() returns (r: Unit)
  {
    r :| true;
  }

  /** Character codes of 'a' and 'A'. */
  const KeyCodeLowerA: int := 'a' as int
  const KeyCodeUpperA: int := 'A' as int

  predicate IsLetter(c: char) { 'a' <= c <= 'z' || 'A' <= c <= 'Z' }

  predicate IsDigit(c: char) { '0' <= c <= '9' }

  predicate AllLetters(s: string) { forall i :: 0 <= i < |s| ==> IsLetter(s[i]) }

  predicate AllAlphaNumeric(s: string)
  {
    forall i :: 0 <= i < |s| ==> IsLetter(s[i]) || IsDigit(s[i])
  }

  /** Number of iterations of a `for (i = 0; i < n; i++)` loop. */
  function Iterations(n: int): nat { if n < 0 then 0 else n }

  /** Width of the interval randomInt scales its draw by. */
  function Span(lower: int, higher: int, inclusive: bool): int
  {
    higher - lower + (if inclusive then 1 else 0)
  }

  /** Math.floor(r * span) lies in [0, span) for a positive span and in
      [span, 0] otherwise. */
  lemma ScaledFloorBounds(r: Unit, span: int)
    ensures span > 0 ==> 0 <= (r * span as real).Floor < span
    ensures span <= 0 ==> span <= (r * span as real).Floor <= 0
  {
    var s := span as real;
    var x := r * s;
    if span > 0 {
      assert s - x == (1.0 - r) * s;
      ProductPositive(1.0 - r, s);
      ProductNonNegative(r, s);
    } else {
      assert x - s == (1.0 - r) * -s;
      ProductNonNegative(1.0 - r, -s);
      ProductNonNegative(r, -s);
      assert r * -s == -x;
    }
  }

  lemma ProductPositive(a: real, b: real)
    requires a > 0.0 && b > 0.0
    ensures a * b > 0.0
  {
  }

  lemma ProductNonNegative(a: real, b: real)
    requires a >= 0.0 && b >= 0.0
    ensures a * b >= 0.0
  {
  }

  /**
   * randomInt(lower, higher, inclusive) for the draw r:
   * Math.floor(r * (higher - lower + (inclusive ? 1 : 0)) + lower).
   */
  function RandomInt(lower: int, higher: int, inclusive: bool, r: Unit): (v: int)
    ensures !inclusive && lower < higher ==> lower <= v < higher
    ensures inclusive && lower <= higher ==> lower <= v <= higher
    ensures Span(lower, higher, inclusive) <= 0 ==>
              lower + Span(lower, higher, inclusive) <= v <= lower
  {
    var span := Span(lower, higher, inclusive);
    ScaledFloorBounds(r, span);
    (r * span as real).Floor + lower
  }

  /** Every integer of the interval is the outcome of some draw, so the
      bounds of RandomInt are exact. */
  lemma RandomIntCovers(lower: int, higher: int, inclusive: bool, v: int)
    requires lower <= v < lower + Span(lower, higher, inclusive)
    ensures exists r: Unit :: RandomInt(lower, higher, inclusive, r) == v
  {
    var span := Span(lower, higher, inclusive);
    var r: Unit := (v - lower) as real / span as real;
    assert r * span as real == (v - lower) as real;
    assert RandomInt(lower, higher, inclusive, r) == v;
  }

  /**
   * randomLetter() for its two draws: the first picks one of 26 letters, the
   * second picks upper case when it exceeds 0.5.
   */
  function RandomLetter(r1: Unit, r2: Unit): (c: char)
    ensures IsLetter(c)
    ensures 'A' <= c <= 'Z' <==> r2 > 0.5
  {
    var letter := (r1 * 26.0).Floor;
    var uppercase := r2 > 0.5;
    ScaledFloorBounds(r1, 26);
    (letter + (if uppercase then KeyCodeUpperA else KeyCodeLowerA)) as char
  }

  /** Every letter, of either case, is the outcome of some pair of draws. */
  lemma RandomLetterCovers(c: char)
    requires IsLetter(c)
    ensures exists r1: Unit, r2: Unit :: RandomLetter(r1, r2) == c
  {
    var upper := 'A' <= c <= 'Z';
    var k := c as int - (if upper then KeyCodeUpperA else KeyCodeLowerA);
    var r1: Unit := k as real / 26.0;
    var r2: Unit := if upper then 0.75 else 0.25;
    assert (r1 * 26.0).Floor == k;
    assert RandomLetter(r1, r2) == c;
  }

  /**
   * randomWord(lower, higher): `lower` letters, or, when `higher` is given,
   * randomInt(lower, higher) letters.
   */
  method RandomWord(lower: int, higher: Option<int>) returns (word: string)
    ensures AllLetters(word)
    ensures higher.None? ==> |word| == Iterations(lower)
    ensures higher.Some? && 0 <= lower < higher.value ==> lower <= |word| < higher.value
    ensures higher.Some? && lower < higher.value ==>
              |word| < (if higher.value > 0 then higher.value else 1)
    ensures higher.Some? && higher.value <= lower ==>
              Iterations(higher.value) <= |word| <= Iterations(lower)
  {
    word := "";
    var numChars := lower;
    if higher.Some? {
      var r := Random();
      numChars := RandomInt(lower, higher.value, false, r);
    }
    var i := 0;
    while i < numChars
      invariant 0 <= i <= Iterations(numChars)
      invariant |word| == i
      invariant AllLetters(word)
    {
      var r1 := Random();
      var r2 := Random();
      word := word + [RandomLetter(r1, r2)];
      i := i + 1;
    }
  }

  /** randomPhoneNumber() for its draw: randomInt(1000000000, 10000000000). */
  function RandomPhoneNumber(r: Unit): (v: int)
    ensures 1000000000 <= v < 10000000000
  {
    RandomInt(1000000000, 10000000000, false, r)
  }

  /** The words of a paragraph joined by single spaces. */
  function Join(words: seq<string>): string
  {
    if |words| == 0 then ""
    else if |words| == 1 then words[0]
    else Join(words[..|words| - 1]) + " " + words[|words| - 1]
  }

  /** Splits a string at every space; the reference against which Join is
      checked. */
  function Split(s: string): (parts: seq<string>)
    ensures |parts| >= 1
  {
    if s == [] then [[]]
    else
      var rest := Split(s[1..]);
      if s[0] == ' ' then [[]] + rest
      else [[s[0]] + rest[0]] + rest[1..]
  }

  lemma {:induction false} SplitAtSpace(a: string, b: string)
    ensures Split(a + " " + b) == Split(a) + Split(b)
    decreases |a|
  {
    if a == [] {
      assert a + " " + b == [' '] + b;
    } else {
      assert (a + " " + b)[1..] == a[1..] + " " + b;
      SplitAtSpace(a[1..], b);
    }
  }

  lemma {:induction false} SplitWord(w: string)
    requires AllLetters(w)
    ensures Split(w) == [w]
    decreases |w|
  {
    if w != [] {
      SplitWord(w[1..]);
      assert [w[0]] + w[1..] == w;
    }
  }

  /** Joining words that contain no space and splitting the result again
      gives back exactly those words. */
  lemma {:induction false} SplitJoin(words: seq<string>)
    requires |words| >= 1
    requires forall k :: 0 <= k < |words| ==> AllLetters(words[k])
    ensures Split(Join(words)) == words
    decreases |words|
  {
    var n := |words|;
    SplitWord(words[n - 1]);
    if n > 1 {
      SplitJoin(words[..n - 1]);
      SplitAtSpace(Join(words[..n - 1]), words[n - 1]);
      assert words[..n - 1] + [words[n - 1]] == words;
    }
  }

  /**
   * randomParagraph(numWords): a first word of 3 to 9 letters, then, for each
   * further word, a space and another such word.
   */
  method RandomParagraph(numWords: int) returns (paragraph: string)
    ensures var words := Split(paragraph);
      |words| == (if numWords <= 1 then 1 else numWords) &&
      (forall k :: 0 <= k < |words| ==> 3 <= |words[k]| < 10 && AllLetters(words[k])) &&
      Join(words) == paragraph
  {
    paragraph := RandomWord(3, Some(10));
    ghost var words := [paragraph];
    var i := 1;
    while i < numWords
      invariant 1 <= i
      invariant |words| == if numWords <= 1 then 1 else i
      invariant numWords > 1 ==> i <= numWords
      invariant forall k :: 0 <= k < |words| ==> 3 <= |words[k]| < 10 && AllLetters(words[k])
      invariant paragraph == Join(words)
    {
      var word := RandomWord(3, Some(10));
      ghost var prev := words;
      paragraph := paragraph + " " + word;
      words := words + [word];
      assert words[..|words| - 1] == prev;
      i := i + 1;
    }
    SplitJoin(words);
  }

  /** The decimal digit written when a number in [0, 10) is appended to a
      string. */
  function DigitChar(d: int): (c: char)
    requires 0 <= d < 10
    ensures IsDigit(c) && c as int - '0' as int == d
  {
    ('0' as int + d) as char
  }

  /**
   * randomAlphaNumeric(numChars): per character, a letter when the draw
   * exceeds 0.5, otherwise the digit randomInt(0, 10).
   */
  method RandomAlphaNumeric(numChars: int) returns (str: string)
    ensures |str| == Iterations(numChars)
    ensures AllAlphaNumeric(str)
  {
    str := "";
    var i := 0;
    while i < numChars
      invariant 0 <= i <= Iterations(numChars)
      invariant |str| == i
      invariant AllAlphaNumeric(str)
    {
      var pick := Random();
      var c: char;
      if pick > 0.5 {
        var r1 := Random();
        var r2 := Random();
        c := RandomLetter(r1, r2);
      } else {
        var r := Random();
        c := DigitChar(RandomInt(0, 10, false, r));
      }
      str := str + [c];
      i := i + 1;
    }
  }

  /** Both indices of a swap lie inside a sequence of length n. */
  predicate InBounds(swap: (int, int), n: int)
  {
    0 <= swap.0 < n && 0 <= swap.1 < n
  }

  /** The effect of `temp = arr[i]; arr[i] = arr[j]; arr[j] = temp`. */
  function Swap<T>(s: seq<T>, i: int, j: int): (r: seq<T>)
    requires 0 <= i < |s| && 0 <= j < |s|
    ensures |r| == |s| && r[i] == s[j] && r[j] == s[i]
    ensures forall k :: 0 <= k < |s| && k != i && k != j ==> r[k] == s[k]
    ensures i == j ==> r == s
  {
    s[i := s[j]][j := s[i]]
  }

  /** The sequence after performing the given swaps in order. */
  function ApplySwaps<T>(s: seq<T>, swaps: seq<(int, int)>): (r: seq<T>)
    requires forall k :: 0 <= k < |swaps| ==> InBounds(swaps[k], |s|)
    ensures |r| == |s|
    decreases |swaps|
  {
    if swaps == [] then s
    else
      var last := swaps[|swaps| - 1];
      var before := ApplySwaps(s, swaps[..|swaps| - 1]);
      assert InBounds(last, |before|);
      Swap(before, last.0, last.1)
  }

  lemma SwapPermutes<T>(s: seq<T>, i: int, j: int)
    requires 0 <= i < |s| && 0 <= j < |s|
    ensures multiset(Swap(s, i, j)) == multiset(s)
  {
    var t := s[i := s[j]];
    assert multiset(t) == multiset(s) - multiset{s[i]} + multiset{s[j]};
    assert multiset(t[j := s[i]]) == multiset(t) - multiset{t[j]} + multiset{s[i]};
  }

  /** Any sequence of in-bounds swaps yields a permutation of the input. */
  lemma {:induction false} ApplySwapsPermutes<T>(s: seq<T>, swaps: seq<(int, int)>)
    requires forall k :: 0 <= k < |swaps| ==> InBounds(swaps[k], |s|)
    ensures multiset(ApplySwaps(s, swaps)) == multiset(s)
    decreases |swaps|
  {
    if swaps != [] {
      var last := swaps[|swaps| - 1];
      ApplySwapsPermutes(s, swaps[..|swaps| - 1]);
      SwapPermutes(ApplySwaps(s, swaps[..|swaps| - 1]), last.0, last.1);
    }
  }

  /** An empty or one-element sequence is left unchanged by any swaps. */
  lemma {:induction false} ApplySwapsShort<T>(s: seq<T>, swaps: seq<(int, int)>)
    requires |s| <= 1
    requires forall k :: 0 <= k < |swaps| ==> InBounds(swaps[k], |s|)
    ensures ApplySwaps(s, swaps) == s
    decreases |swaps|
  {
    if swaps != [] {
      ApplySwapsShort(s, swaps[..|swaps| - 1]);
    }
  }

  /**
   * scrambleArray(arr): arr.length times, swap the elements at two indices
   * drawn with randomInt(0, arr.length). The swaps are returned as a ghost
   * record of what was done.
   */
  method ScrambleArray<T>(arr: array<T>) returns (ghost swaps: seq<(int, int)>)
    modifies arr
    ensures |swaps| == arr.Length
    ensures forall k :: 0 <= k < |swaps| ==> InBounds(swaps[k], arr.Length)
    ensures arr[..] == ApplySwaps(old(arr[..]), swaps)
    ensures multiset(arr[..]) == multiset(old(arr[..]))
    ensures arr.Length <= 1 ==> arr[..] == old(arr[..])
  {
    var len := arr.Length;
    var scrambles := len;
    swaps := [];
    var i := 0;
    while i < scrambles
      invariant 0 <= i <= scrambles
      invariant |swaps| == i
      invariant forall k :: 0 <= k < |swaps| ==> InBounds(swaps[k], len)
      invariant arr[..] == ApplySwaps(old(arr[..]), swaps)
    {
      var r1 := Random();
      var idx1 := RandomInt(0, len, false, r1);
      var r2 := Random();
      var idx2 := RandomInt(0, len, false, r2);
      ghost var before := arr[..];
      var temp := arr[idx1];
      arr[idx1] := arr[idx2];
      arr[idx2] := temp;
      assert arr[..] == Swap(before, idx1, idx2);
      ghost var prev := swaps;
      swaps := swaps + [(idx1, idx2)];
      assert swaps[..|swaps| - 1] == prev;
      i := i + 1;
    }
    ApplySwapsPermutes(old(arr[..]), swaps);
    if len <= 1 {
      ApplySwapsShort(old(arr[..]), swaps);
    }
  }
}
