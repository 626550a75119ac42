/** The deterministic stream of random ids behind --random-id: a splitmix64 generator read byte by byte. */
module RandomIds {
  import opened Words

  const GAMMA: Word := 0x9E3779B97F4A7C15
  const GAMMA_INVERSE: Word := 0xF1DE83E19937733D
  const FIRST: Word := 0xBF58476D1CE4E5B9
  const FIRST_INVERSE: Word := 0x96DE1B173F119089
  const SECOND: Word := 0x94D049BB133111EB
  const SECOND_INVERSE: Word := 0x319642B2D24D8EC3

  // ----- modular arithmetic -----

  lemma AddMultiple(x: int, m: int, q: int)
    requires m > 0
    ensures (x + m * q) % m == x % m
  {
    assert x + m * q == m * (x / m + q) + x % m;
    ModUnique(x + m * q, m, x / m + q, x % m);
  }

  lemma ModTimes(x: int, d: int, m: int)
    requires m > 0
    ensures ((x % m) * d) % m == (x * d) % m
  {
    var q := x / m;
    assert x * d == (m * q + x % m) * d == (x % m) * d + m * (q * d);
    AddMultiple((x % m) * d, m, q * d);
  }

  /** Multiplying by an odd constant is undone by its inverse modulo 2^64. */
  lemma TimesInverse(z: Word, c: Word, d: Word)
    requires (c * d) % WORD == 1
    ensures Times(Times(z, c), d) == z
  {
    ModTimes(z * c, d, WORD);
    var q := (c * d) / WORD;
    assert (z * c) * d == z * (c * d) == z * (WORD * q + 1) == z + WORD * (z * q);
    AddMultiple(z, WORD, z * q);
  }

  lemma Inverses()
    ensures (GAMMA * GAMMA_INVERSE) % WORD == 1 && (GAMMA_INVERSE * GAMMA) % WORD == 1
    ensures (FIRST * FIRST_INVERSE) % WORD == 1 && (FIRST_INVERSE * FIRST) % WORD == 1
    ensures (SECOND * SECOND_INVERSE) % WORD == 1 && (SECOND_INVERSE * SECOND) % WORD == 1
  {
  }

  // ----- the generator -----

  function ShiftXor(z: Word, k: nat): Word {
    Pow2Of64();
    ShrShrinks(z, k);
    XorBound(z, Shr(z, k), 64);
    Xor(z, Shr(z, k))
  }

  /** The output function of splitmix64. */
  function Mix(s: Word): Word {
    ShiftXor(Times(ShiftXor(Times(ShiftXor(s, 30), FIRST), 27), SECOND), 31)
  }

  /** The generator's state after `n` steps. */
  function StateAfter(seed: Word, n: nat): Word {
    if n == 0 then seed else Plus(StateAfter(seed, n - 1), GAMMA)
  }

  /** The k-th id: the seed itself, then the outputs of the generator. */
  function Draw(seed: Word, k: nat): Word { if k == 0 then seed else Mix(StateAfter(seed, k)) }

  // ----- the output function is a bijection -----

  function Unshift(v: Word, k: nat): Word {
    Pow2Of64();
    ShrShrinks(v, k);
    ShrShrinks(v, 2 * k);
    XorBound(v, Shr(v, k), 64);
    XorBound(Xor(v, Shr(v, k)), Shr(v, 2 * k), 64);
    Xor(Xor(v, Shr(v, k)), Shr(v, 2 * k))
  }

  function Unmix(v: Word): Word {
    Unshift(Times(Unshift(Times(Unshift(v, 31), SECOND_INVERSE), 27), FIRST_INVERSE), 30)
  }

  /** (z + s) + (s + t) + t cancels to z, for exclusive or. */
  lemma XorTelescopes(z: nat, s: nat, t: nat)
    ensures Xor(Xor(Xor(z, s), Xor(s, t)), t) == z
  {
    XorAssociates(Xor(z, s), s, t);
    XorAssociates(z, s, s);
    XorSelf(s);
    XorZero(z);
    XorAssociates(z, t, t);
    XorSelf(t);
  }

  lemma ShiftsOut(z: Word, k: nat)
    requires 3 * k >= 64
    ensures Shr(z, k + 2 * k) == 0
  {
    Pow2Of64();
    ShrVanishes(z, 64);
    ShrShr(z, 64, 3 * k - 64);
    ShrShrinks(0, 3 * k - 64);
  }

  lemma UnshiftShiftXor(z: Word, k: nat)
    requires 3 * k >= 64
    ensures Unshift(ShiftXor(z, k), k) == z
  {
    var s, t := Shr(z, k), Shr(z, 2 * k);
    ShrShr(z, k, k);
    ShrShr(z, k, 2 * k);
    ShrXor(z, s, k);
    ShrXor(z, s, 2 * k);
    ShiftsOut(z, k);
    XorZero(t);
    XorTelescopes(z, s, t);
  }

  lemma ShiftXorUnshift(v: Word, k: nat)
    requires 3 * k >= 64
    ensures ShiftXor(Unshift(v, k), k) == v
  {
    var s, t := Shr(v, k), Shr(v, 2 * k);
    ShrShr(v, k, k);
    ShrShr(v, 2 * k, k);
    ShrXor(Xor(v, s), t, k);
    ShrXor(v, s, k);
    ShiftsOut(v, k);
    XorZero(Xor(s, t));
    XorAssociates(Xor(v, s), t, Xor(s, t));
    XorCommutes(s, t);
    XorAssociates(t, t, s);
    XorSelf(t);
    XorCommutes(0, s);
    XorZero(s);
    XorAssociates(v, s, s);
    XorSelf(s);
    XorZero(v);
  }

  lemma UnmixMix(s: Word)
    ensures Unmix(Mix(s)) == s
  {
    var a := ShiftXor(s, 30);
    var b := ShiftXor(Times(a, FIRST), 27);
    Inverses();
    UnshiftShiftXor(Times(b, SECOND), 31);
    TimesInverse(b, SECOND, SECOND_INVERSE);
    UnshiftShiftXor(Times(a, FIRST), 27);
    TimesInverse(a, FIRST, FIRST_INVERSE);
    UnshiftShiftXor(s, 30);
  }

  lemma MixUnmix(v: Word)
    ensures Mix(Unmix(v)) == v
  {
    var c := Unshift(v, 31);
    var b := Unshift(Times(c, SECOND_INVERSE), 27);
    Inverses();
    ShiftXorUnshift(Times(b, FIRST_INVERSE), 30);
    TimesInverse(b, FIRST_INVERSE, FIRST);
    ShiftXorUnshift(Times(c, SECOND_INVERSE), 27);
    TimesInverse(c, SECOND_INVERSE, SECOND);
    ShiftXorUnshift(v, 31);
  }

  // ----- the state visits every word once per period -----

  lemma {:induction false} StateClosedForm(seed: Word, n: nat)
    ensures StateAfter(seed, n) == (seed + n * GAMMA) % WORD
  {
    if n > 0 {
      StateClosedForm(seed, n - 1);
      var x := seed + (n - 1) * GAMMA;
      assert x % WORD + GAMMA == x + GAMMA + WORD * -(x / WORD);
      AddMultiple(x + GAMMA, WORD, -(x / WORD));
    }
  }

  lemma SameRemainder(x: int, y: int, m: int)
    requires m > 0 && x % m == y % m
    ensures (y - x) % m == 0
  {
    assert y - x == m * (y / m - x / m);
    AddMultiple(0, m, y / m - x / m);
  }

  lemma StatesDistinct(seed: Word, i: nat, j: nat)
    requires i < j && j - i < WORD
    ensures StateAfter(seed, i) != StateAfter(seed, j)
  {
    StateClosedForm(seed, i);
    StateClosedForm(seed, j);
    var d: Word := j - i;
    if StateAfter(seed, i) == StateAfter(seed, j) {
      SameRemainder(seed + i * GAMMA, seed + j * GAMMA, WORD);
      assert Times(d, GAMMA) == 0;
      Inverses();
      TimesInverse(d, GAMMA, GAMMA_INVERSE);
      assert false;
    }
  }

  /** The step at which the state, starting from `seed`, reaches `target`. */
  function StepsTo(seed: Word, target: Word): Word { Times((target - seed) % WORD, GAMMA_INVERSE) }

  lemma StateReaches(seed: Word, target: Word)
    ensures StateAfter(seed, StepsTo(seed, target)) == target
  {
    var n, gap := StepsTo(seed, target), (target - seed) % WORD;
    StateClosedForm(seed, n);
    Inverses();
    TimesInverse(gap, GAMMA_INVERSE, GAMMA);
    assert (n * GAMMA) % WORD == gap;
    var q, r := (n * GAMMA) / WORD, (target - seed) / WORD;
    assert seed + n * GAMMA == target + WORD * (q - r);
    AddMultiple(target, WORD, q - r);
  }

  lemma StatePeriod(seed: Word)
    ensures StateAfter(seed, WORD) == seed
  {
    StateClosedForm(seed, WORD);
    AddMultiple(seed, WORD, GAMMA);
  }

  // ----- the ids -----

  /** The ids after the first are pairwise distinct over 2^64 draws, from any seed. */
  lemma DrawsDistinct(seed: Word, i: nat, j: nat)
    requires 1 <= i < j <= WORD
    ensures Draw(seed, i) != Draw(seed, j)
  {
    StatesDistinct(seed, i, j);
    UnmixMix(StateAfter(seed, i));
    UnmixMix(StateAfter(seed, j));
  }

  /** Which later id equals `v`: one draw among any 2^64, computed from `v` without drawing. */
  function DrawIndexOf(seed: Word, v: Word): (n: nat)
    ensures 1 <= n <= WORD
  {
    var k := StepsTo(seed, Unmix(v));
    if k == 0 then WORD else k
  }

  /** Every 64-bit value is drawn exactly once per period. */
  lemma EveryWordOnce(seed: Word, v: Word, n: nat)
    requires 1 <= n <= WORD
    ensures Draw(seed, n) == v <==> n == DrawIndexOf(seed, v)
  {
    var k := DrawIndexOf(seed, v);
    StateReaches(seed, Unmix(v));
    StatePeriod(seed);
    MixUnmix(v);
    assert Draw(seed, k) == v;
    if n < k { DrawsDistinct(seed, n, k); }
    if k < n { DrawsDistinct(seed, k, n); }
  }

  /**
    A batch of `count` ids. They are all distinct exactly when the one draw that repeats the seed lies
    beyond the batch.
  */
  lemma BatchDistinct(seed: Word, count: nat)
    requires count <= WORD
    ensures (forall i, j :: 0 <= i < j < count ==> Draw(seed, i) != Draw(seed, j))
            <==> count <= DrawIndexOf(seed, seed)
  {
    var k := DrawIndexOf(seed, seed);
    EveryWordOnce(seed, seed, k);
    if k < count {
      assert Draw(seed, 0) == Draw(seed, k);
    } else {
      forall i, j | 0 <= i < j < count ensures Draw(seed, i) != Draw(seed, j) {
        if i == 0 { EveryWordOnce(seed, seed, j); } else { DrawsDistinct(seed, i, j); }
      }
    }
  }
}
