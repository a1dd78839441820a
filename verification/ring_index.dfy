/** Arithmetic of ring buffers: indices masked by a power-of-two capacity, words that wrap. */
module RingIndexes {
  predicate PowerOfTwo(n: nat) {
    n == 1 || (n > 1 && n % 2 == 0 && PowerOfTwo(n / 2))
  }

  /** A power of two no wider than the word divides it. */
  lemma {:induction false} PowerDivides(c: nat, m: nat)
    requires PowerOfTwo(c) && PowerOfTwo(m) && c <= m
    ensures m % c == 0
    decreases c
  {
    if c > 1 {
      PowerDivides(c / 2, m / 2);
      var k := (m / 2) / (c / 2);
      assert m / 2 == (c / 2) * k;
      assert m == c * k;
      MultipleRemainder(c, k);
    }
  }

  /** The remainder is what is left after any whole number of divisors. */
  lemma RemainderIs(x: nat, c: nat, q: int, m: nat)
    requires 0 <= m < c && x == c * q + m
    ensures x % c == m
  {
    var q' := x / c;
    assert x == c * q' + x % c;
    assert c * (q - q') == c * q - c * q';
    assert q - q' >= 1 ==> c * (q - q') >= c;
    assert q' - q >= 1 ==> c * (q' - q) >= c;
    assert c * (q' - q) == c * q' - c * q;
  }

  lemma MultipleRemainder(c: nat, k: nat)
    requires c > 0
    ensures (c * k) % c == 0
  {
    RemainderIs(c * k, c, k, 0);
  }

  /** Masking a wrapped index is masking the index itself, because the capacity divides the word. */
  lemma WrapThenMask(i: nat, c: nat, m: nat)
    requires c > 0 && m > 0 && m % c == 0
    ensures (i % m) % c == i % c
  {
    Euclid(m, c);
    Euclid(i, m);
    WholeWords(i, i % m, i / m, c, m / c, m);
  }

  lemma Euclid(a: nat, b: nat)
    requires b > 0
    ensures a == b * (a / b) + a % b
  {
  }

  /** Whole words on top change no remainder by a divisor of the word. */
  lemma WholeWords(i: nat, r: nat, q: nat, c: nat, k: nat, m: nat)
    requires c > 0 && m == c * k && i == m * q + r
    ensures r % c == i % c
  {
    Regroup(c, k, q);
    AddMultiple(r, c, k * q);
  }

  lemma Regroup(c: nat, k: nat, q: nat)
    ensures (c * k) * q == c * (k * q)
  {
  }

  lemma AddMultiple(r: nat, c: nat, k: nat)
    requires c > 0
    ensures (r + c * k) % c == r % c
  {
    var q := r / c;
    assert r == c * q + r % c;
    assert c * (q + k) == c * q + c * k;
    RemainderIs(r + c * k, c, q + k, r % c);
  }

  /** Indices less than a capacity apart live in different cells. */
  lemma SlotsApart(capacity: nat, i: int, j: int)
    requires capacity > 0 && i < j < i + capacity
    ensures i % capacity != j % capacity
  {
    var rounds := j / capacity - i / capacity;
    assert j - i == capacity * rounds + (j % capacity - i % capacity);
    NoWholeRounds(capacity, rounds);
  }

  /** A whole number of capacities is never strictly between none and one. */
  lemma NoWholeRounds(capacity: nat, rounds: int)
    ensures capacity * rounds >= capacity || capacity * rounds <= 0
  {
    if rounds >= 1 {
      assert capacity * rounds >= capacity * 1;
    } else {
      assert capacity * rounds <= capacity * 0;
    }
  }
}
