/** Index arithmetic on 64-bit unsigned words that are allowed to wrap around. */
module CircularIndex {

  const WORD: int := 0x1_0000_0000_0000_0000
  const HALF: int := 0x8000_0000_0000_0000

  /** The machine word that represents an unbounded counter. */
  function Word(n: int): (w: nat)
    ensures w < WORD
  {
    n % WORD
  }

  /** circular_less_than<uint64_t>: the wrapped difference lies in the upper half. */
  predicate CircularLess(a: nat, b: nat)
    requires a < WORD && b < WORD
  {
    Word(a - b) > HALF
  }

  lemma WordOfDifference(a: int, b: int)
    ensures Word(Word(a) - Word(b)) == Word(a - b)
  {
    var qa, qb := a / WORD, b / WORD;
    assert Word(a) - Word(b) == (a - b) - (qa - qb) * WORD;
    WordShift(a - b, qb - qa);
  }

  lemma WordShift(n: int, k: int)
    ensures Word(n + k * WORD) == Word(n)
  {
    var q, r := n / WORD, n % WORD;
    assert n + k * WORD == (q + k) * WORD + r;
  }

  /** On counters less than half the word range apart, the circular test is the integer test,
      however often the counters have wrapped. */
  lemma CircularLessIsLess(a: int, b: int)
    requires -HALF < a - b < HALF
    ensures CircularLess(Word(a), Word(b)) <==> a < b
  {
    WordOfDifference(a, b);
    if a < b {
      WordShift(a - b, 1);
    }
  }

  /** The bound is tight: at distance exactly 2^63 neither order holds. */
  lemma CircularLessAtHalf(a: int)
    ensures !CircularLess(Word(a), Word(a + HALF)) && !CircularLess(Word(a + HALF), Word(a))
  {
    WordOfDifference(a, a + HALF);
    WordOfDifference(a + HALF, a);
    WordShift(-HALF, 1);
  }
}
