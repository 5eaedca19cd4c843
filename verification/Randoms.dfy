/** The random numbers of NPB IS (IS/is.c: randlc, find_my_seed, create_seq): a linear
    congruential generator modulo 2^46 in double-precision arithmetic, and a jump to
    the part of its sequence that belongs to a processor. */
module Randoms {
  import opened Arithmetic

  const T23: int := 0x80_0000
  const T46: int := 0x4000_0000_0000

  /** The integers up to 2^53 in size: those that a double holds exactly, so that
      arithmetic that stays within them does not round. */
  newtype Double = v: int | -0x20_0000_0000_0000 <= v <= 0x20_0000_0000_0000

  /** The int that the truncations go through. */
  newtype Int32 = v: int | -0x8000_0000 <= v < 0x8000_0000

  type Seed = v: int | 0 <= v < T46

  // ----- arithmetic -----

  /** Whole multiples of the modulus do not matter. */
  lemma {:induction false} ModDrop(n: int, m: int, k: int)
    requires m > 0
    ensures (n + k * m) % m == n % m
  {
    assert n + k * m == (n / m + k) * m + n % m;
    DivMod(n + k * m, m, n / m + k, n % m);
  }

  lemma {:induction false} ModMul(x: int, y: int, m: int)
    requires m > 0
    ensures (x % m) * y % m == x * y % m
  {
    var q, r := x / m, x % m;
    assert x * y == r * y + (q * y) * m by { assert x == q * m + r; }
    ModDrop(r * y, m, q * y);
  }

  function Pow(b: nat, n: nat): (p: nat) { if n == 0 then 1 else b * Pow(b, n - 1) }

  lemma {:induction false} PowAdd(b: nat, i: nat, j: nat)
    ensures Pow(b, i + j) == Pow(b, i) * Pow(b, j)
  {
    if i > 0 {
      PowAdd(b, i - 1, j);
      Associate(b, Pow(b, i - 1), Pow(b, j));
      assert i + j - 1 == i - 1 + j;
    }
  }

  lemma {:induction false} PowMul(b: nat, i: nat, j: nat)
    ensures Pow(b, i * j) == Pow(Pow(b, i), j)
  {
    if j > 0 {
      PowMul(b, i, j - 1);
      assert i * j == i + i * (j - 1);
      PowAdd(b, i, i * (j - 1));
    }
  }

  lemma {:induction false} PowMod(b: nat, n: nat, m: nat)
    requires m > 0
    ensures Pow(b % m, n) % m == Pow(b, n) % m
  {
    if n > 0 {
      PowMod(b, n - 1, m);
      var c, p, q := b % m, Pow(b % m, n - 1), Pow(b, n - 1);
      calc {
        c * p % m;
        { ModMul(p, c, m); assert p * c == c * p; }
        (p % m) * c % m;
        (q % m) * c % m;
        { ModMul(q, c, m); assert q * c == c * q; }
        c * q % m;
        { ModMul(b, q, m); }
        b * q % m;
      }
    }
  }

  // ----- the generator -----

  /** randlc: the arguments are split into halves of 23 bits, so that no product of the
      computation leaves the integers that doubles hold exactly, and none of its
      truncations leaves the range of an int. */
  method Randlc(x: Seed, a: Seed) returns (x': Seed)
    ensures x' == a * x % T46
  {
    var t23: Double, t46: Double := 0x80_0000, 0x4000_0000_0000;
    var j: Int32 := (a / T23) as Int32;
    var a1 := j as Double;
    var a2 := a as Double - t23 * a1;
    j := (x / T23) as Int32;
    var x1 := j as Double;
    var x2 := x as Double - t23 * x1;
    HalvesFit(a1 as int, x2 as int);
    HalvesFit(a2 as int, x1 as int);
    HalvesFit(a2 as int, x2 as int);
    var t1 := a1 * x2 + a2 * x1;
    j := (t1 as int / T23) as Int32;
    var t2 := j as Double;
    var z := t1 - t23 * t2;
    var t3 := t23 * z + a2 * x2;
    j := (t3 as int / T46) as Int32;
    var t4 := j as Double;
    x' := (t3 - t46 * t4) as int;
    SplitProduct(a, x, a1 as int, a2 as int, x1 as int, x2 as int, t1 as int, t2 as int, z as int, t3 as int,
                 t4 as int);
  }

  lemma {:induction false} HalvesFit(u: int, v: int)
    requires 0 <= u < T23 && 0 <= v < T23
    ensures 0 <= u * v < T46
  {
    Mono(u, v, T23 - 1);
    Mono(T23 - 1, u, T23 - 1);
    Mono(v, 0, u);
  }

  lemma {:induction false} Mono(k: int, v: int, w: int)
    requires 0 <= k && v <= w
    ensures k * v <= k * w
  {
    assert k * w == k * v + k * (w - v);
  }

  lemma {:induction false} SplitProduct(a: int, x: int, a1: int, a2: int, x1: int, x2: int, t1: int, t2: int, z: int,
                                        t3: int, t4: int)
    requires a == T23 * a1 + a2 && x == T23 * x1 + x2
    requires t1 == a1 * x2 + a2 * x1 && t1 == T23 * t2 + z
    requires t3 == T23 * z + a2 * x2 && 0 <= t3 - T46 * t4 < T46
    ensures a * x % T46 == t3 - T46 * t4
  {
    calc {
      a * x;
      (T23 * a1 + a2) * (T23 * x1 + x2);
      T46 * (a1 * x1) + T23 * (a1 * x2 + a2 * x1) + a2 * x2;
      T46 * (a1 * x1) + T23 * (T23 * t2 + z) + a2 * x2;
      (a1 * x1 + t2 + t4) * T46 + (t3 - T46 * t4);
    }
    DivMod(a * x, T46, a1 * x1 + t2 + t4, t3 - T46 * t4);
  }

  /** The serial sequence. */
  function Nth(s: Seed, a: Seed, n: nat): Seed {
    if n == 0 then s else a * Nth(s, a, n - 1) % T46
  }

  lemma {:induction false} NthIsPower(s: Seed, a: Seed, n: nat)
    ensures Nth(s, a, n) == s * Pow(a, n) % T46
  {
    if n > 0 {
      NthIsPower(s, a, n - 1);
      var p := s * Pow(a, n - 1);
      ModMul(p, a, T46);
      assert (p % T46) * a == a * (p % T46);
      assert p * a == s * Pow(a, n);
    }
  }

  lemma {:induction false} NthAdd(s: Seed, a: Seed, i: nat, j: nat)
    ensures Nth(s, a, i + j) == Nth(Nth(s, a, i), a, j)
  {
    if j > 0 { NthAdd(s, a, i, j - 1); }
  }

  // ----- the jump -----

  /** The base-2 logarithm of `n`, rounded down, and 0 for 0. */
  function Log2(n: nat): nat { if n <= 1 then 0 else 1 + Log2(n / 2) }

  lemma {:induction false} Log2Bounds(n: nat)
    requires n > 0
    ensures Pow(2, Log2(n)) <= n < 2 * Pow(2, Log2(n))
  {
    if n > 1 { Log2Bounds(n / 2); }
  }

  method FindMySeed(kn: nat, np: nat, nn: nat, s: Seed, a: Seed) returns (seed: Seed)
    requires np > 0 && kn < 0x8000_0000
    ensures seed == s * Pow(a, kn * Pow(2, Log2(nn / np))) % T46
  {
    var nq: nat, mq: nat := nn / np, 0;
    while nq > 1
      invariant mq + Log2(nq) == Log2(nn / np)
    {
      mq, nq := mq + 1, nq / 2;
    }
    var t1 := a;
    var i := 1;
    assert Pow(a, 1) == a;
    while i <= mq
      invariant 1 <= i <= mq + 1 && t1 == Pow(a, Pow(2, i - 1)) % T46
    {
      t1 := Squares(t1, a, Pow(2, i - 1));
      i := i + 1;
    }
    var an := t1;
    seed := Jump(kn, s, an);
    JumpIs(s, a, an, Pow(2, mq), kn);
  }

  /** Squaring a power of `a` doubles its exponent. */
  method Squares(t: Seed, ghost a: Seed, ghost e: nat) returns (t': Seed)
    requires t == Pow(a, e) % T46
    ensures t' == Pow(a, 2 * e) % T46
  {
    t' := Randlc(t, t);
    SquareIs(t, a, e);
  }

  lemma {:induction false} SquareIs(t: Seed, b: nat, e: nat)
    requires t == Pow(b, e) % T46
    ensures t * t % T46 == Pow(b, 2 * e) % T46
  {
    var p := Pow(b, e);
    PowAdd(b, e, e);
    assert e + e == 2 * e;
    ModMul(p, t, T46);
    ModMul(p, p, T46);
    assert p * t == t * p;
  }

  lemma {:induction false} JumpIs(s: Seed, a: Seed, an: Seed, e: nat, kn: nat)
    requires an == Pow(a, e) % T46
    ensures s * Pow(an, kn) % T46 == s * Pow(a, kn * e) % T46
  {
    assert e * kn == kn * e;
    PowMul(a, e, kn);
    PowMod(Pow(a, e), kn, T46);
    var p, q := Pow(an, kn), Pow(a, kn * e);
    ModMul(p, s, T46);
    ModMul(q, s, T46);
    assert p * s == s * p && q * s == s * q;
  }

  /** The second half of find_my_seed: s * an^kn, by repeated squaring. The loop is
      bounded by 100 rounds, and ends before. */
  method Jump(kn: nat, s: Seed, an: Seed) returns (t1: Seed)
    requires kn < 0x8000_0000
    ensures t1 == s * Pow(an, kn) % T46
  {
    var kk: nat := kn;
    t1 := s;
    var t2 := an;
    ghost var goal := s * Pow(an, kn) % T46;
    var i, done := 1, false;
    while i <= 100 && !done
      decreases !done, 101 - i
      invariant 1 <= i <= 101
      invariant if done then t1 == goal else t1 * Pow(t2, kk) % T46 == goal
      invariant !done ==> kk * Pow(2, i - 1) <= kn && (i > 1 ==> kk >= 1)
    {
      var ik := kk / 2;
      JumpStep(t1, t2, kk, ik);
      if 2 * ik != kk {
        t1 := Randlc(t1, t2);
      }
      if ik == 0 {
        done := true;
      } else {
        HalfFits(kk, ik, Pow(2, i - 1), kn);
        t2 := Randlc(t2, t2);
        kk := ik;
        i := i + 1;
      }
    }
    Log2OfBound(i, kk, kn, done);
  }

  lemma {:induction false} HalfFits(kk: nat, ik: nat, p: nat, kn: nat)
    requires ik == kk / 2 && kk * p <= kn
    ensures ik * (2 * p) <= kn
  {
    assert ik * (2 * p) == (2 * ik) * p;
    assert (2 * ik) * p <= kk * p;
  }

  lemma {:induction false} PowGrows(i: nat, j: nat)
    requires i <= j
    ensures Pow(2, i) <= Pow(2, j) && Pow(2, i) > 0
  {
    if i > 0 { PowGrows(i - 1, j - 1); } else if j > 0 { PowGrows(0, j - 1); }
  }

  lemma {:induction false} Pow31()
    ensures Pow(2, 31) == 0x8000_0000
  {
    assert Pow(2, 8) == 256;
    PowAdd(2, 8, 8);
    PowAdd(2, 16, 8);
    assert Pow(2, 7) == 128;
    PowAdd(2, 24, 7);
  }

  /** No int has a hundred bits. */
  lemma {:induction false} Log2OfBound(i: nat, kk: nat, kn: nat, done: bool)
    requires 1 <= i <= 101 && kn < 0x8000_0000 && !(i <= 100 && !done)
    requires !done ==> kk * Pow(2, i - 1) <= kn && kk >= 1
    ensures done
  {
    var n := 100;
    PowGrows(31, n);
    Pow31();
    if i > n {
      assert kk >= 1 ==> kk * Pow(2, i - 1) >= Pow(2, i - 1);
    }
  }

  /** One round of the loop: t1 * t2^kk keeps its value. */
  lemma {:induction false} JumpStep(t1: Seed, t2: Seed, kk: nat, ik: nat)
    requires ik == kk / 2
    ensures var u1 := if 2 * ik != kk then t2 * t1 % T46 else t1;
            && (ik == 0 ==> u1 == t1 * Pow(t2, kk) % T46)
            && u1 * Pow(t2 * t2 % T46, ik) % T46 == t1 * Pow(t2, kk) % T46
  {
    var u1 := if 2 * ik != kk then t2 * t1 % T46 else t1;
    OddFactor(t1, t2, kk, ik);
    Halved(u1, t2, ik);
    if ik == 0 { assert u1 * Pow(t2, 0) == u1; }
  }

  lemma {:induction false} OddFactor(t1: Seed, t2: Seed, kk: nat, ik: nat)
    requires ik == kk / 2
    ensures (if 2 * ik != kk then t2 * t1 % T46 else t1) * Pow(t2, 2 * ik) % T46 == t1 * Pow(t2, kk) % T46
  {
    if 2 * ik != kk {
      var p := Pow(t2, 2 * ik);
      ModMul(t2 * t1, p, T46);
      assert (t2 * t1) * p == t1 * (t2 * p);
    }
  }

  lemma {:induction false} Halved(u: Seed, t: Seed, ik: nat)
    ensures u * Pow(t * t % T46, ik) % T46 == u * Pow(t, 2 * ik) % T46
  {
    assert Pow(t, 2) == t * Pow(t, 1) == t * t;
    PowMul(t, 2, ik);
    PowMod(t * t, ik, T46);
    var p, q := Pow(t * t % T46, ik), Pow(t, 2 * ik);
    ModMul(p, u, T46);
    ModMul(q, u, T46);
    assert u * p == p * u && u * q == q * u;
  }

  // ----- which part of the sequence a processor gets -----

  /** The period of the generator is no shorter than 2^44. */
  const PERIOD: int := 0x1000_0000_0000

  function TwoPower(d: nat): nat
    requires d > 0
  {
    if d % 2 == 1 then 1 else 2 * TwoPower(d / 2)
  }

  lemma {:induction false} TwoPowerBound(d: nat)
    requires d > 0
    ensures 1 <= TwoPower(d) <= d
  {
    if d % 2 == 0 { TwoPowerBound(d / 2); }
  }

  predicate Odd(n: int) { n % 2 == 1 }

  lemma {:induction false} OddTimes(m: int, n: int)
    requires Odd(m) && Odd(n)
    ensures Odd(m * n)
  {
    var i, j := m / 2, n / 2;
    assert m * n == 2 * (2 * i * j + i + j) + 1;
  }

  lemma {:induction false} OddPlus(w: int, y: int)
    requires Odd(w)
    ensures Odd(w + 2 * y)
  {
  }

  /** Squaring 1 + 4pu, for odd u, doubles p. */
  lemma {:induction false} NearSquare(p: nat, u: int) returns (v: int)
    requires Odd(u)
    ensures Odd(v) && (1 + 4 * p * u) * (1 + 4 * p * u) == 1 + 4 * (2 * p) * v
  {
    var w := p * u * u;
    v := u + 2 * w;
    assert (1 + 4 * p * u) * (1 + 4 * p * u) == 1 + 8 * (p * u) + 16 * (p * u) * (p * u);
    assert (p * u) * (p * u) == p * w;
    assert 4 * (2 * p) * v == 8 * (p * u) + 16 * (p * w);
  }

  /** An odd power of 1 + 4u, for odd u, has the same form. */
  lemma {:induction false} NearOddPower(a: nat, u: int, n: nat) returns (v: int)
    requires Odd(u) && a == 1 + 4 * u && Odd(n)
    ensures Odd(v) && Pow(a, n) == 1 + 4 * v
  {
    if n == 1 {
      v := u;
      assert Pow(a, 1) == a * Pow(a, 0) == a;
    } else {
      var w := NearOddPower(a, u, n - 2);
      PowTwoMore(a, n);
      var x := SquareIsNear(a, u);
      v := w + 2 * (x + 4 * (x * w));
      OddPlus(w, x + 4 * (x * w));
      NearTimes(x, w);
    }
  }

  lemma {:induction false} NearTimes(x: int, w: int)
    ensures (1 + 8 * x) * (1 + 4 * w) == 1 + 4 * (w + 2 * (x + 4 * (x * w)))
  {
  }

  lemma {:induction false} SquareIsNear(a: nat, u: int) returns (x: int)
    requires Odd(u) && a == 1 + 4 * u
    ensures a * a == 1 + 8 * x
  {
    x := NearSquare(1, u);
  }

  lemma {:induction false} PowTwoMore(a: nat, n: nat)
    requires n >= 2
    ensures Pow(a, n) == (a * a) * Pow(a, n - 2)
  {
    assert Pow(a, n - 1) == a * Pow(a, n - 2);
  }

  /** The power of two in a^d - 1 is four times the one in d. */
  lemma {:induction false} NearPower(a: nat, d: nat) returns (u: int)
    requires a % 8 == 5 && d > 0
    ensures Odd(u) && Pow(a, d) == 1 + 4 * TwoPower(d) * u
  {
    if d % 2 == 1 {
      u := NearOddPower(a, (a - 1) / 4, d);
    } else {
      var h := d / 2;
      var w := NearPower(a, h);
      PowAdd(a, h, h);
      assert h + h == d;
      u := NearSquare(TwoPower(h), w);
    }
  }

  lemma {:induction false} OddPower(a: nat, n: nat)
    requires Odd(a)
    ensures Odd(Pow(a, n))
  {
    if n > 0 {
      OddPower(a, n - 1);
      OddTimes(a, Pow(a, n - 1));
    }
  }

  /** An odd multiple of a small power of two is no multiple of a larger one. */
  lemma {:induction false} NotMultiple(d: nat, u: int, e: nat)
    requires d > 0 && Odd(u) && TwoPower(d) < Pow(2, e)
    ensures TwoPower(d) * u % Pow(2, e) != 0
  {
    TwoPowerBound(d);
    assert e > 0;
    var m := Pow(2, e - 1);
    if d % 2 == 0 {
      var q := TwoPower(d / 2);
      NotMultiple(d / 2, u, e - 1);
      EvenRemainder(q * u, m);
      assert (2 * q) * u == 2 * (q * u);
    } else {
      OddRemainder(u, m);
    }
  }

  lemma {:induction false} EvenRemainder(x: int, m: int)
    requires m > 0
    ensures 2 * x % (2 * m) == 2 * (x % m)
  {
    assert 2 * x == (x / m) * (2 * m) + 2 * (x % m);
    DivMod(2 * x, 2 * m, x / m, 2 * (x % m));
  }

  lemma {:induction false} OddRemainder(x: int, m: int)
    requires Odd(x) && m > 0
    ensures x % (2 * m) != 0
  {
    var q, r := x / (2 * m), x % (2 * m);
    assert x == 2 * (q * m) + r;
  }

  lemma {:induction false} Pow44()
    ensures Pow(2, 44) == PERIOD && Pow(2, 46) == T46
  {
    assert Pow(2, 11) == 2048;
    PowAdd(2, 11, 11);
    PowAdd(2, 22, 22);
    PowAdd(2, 44, 2);
    assert Pow(2, 2) == 4;
  }

  /** The serial sequence does not come back to a number within 2^44 steps. */
  lemma {:induction false} NoShortCycle(s: Seed, a: Seed, i: nat, d: nat)
    requires Odd(s) && a % 8 == 5 && 0 < d < PERIOD
    ensures Nth(s, a, i) != Nth(s, a, i + d)
  {
    NthIsPower(s, a, i);
    NthIsPower(s, a, i + d);
    OddTerm(s, a, i);
    PowersDiffer(s, a, i, d);
  }

  lemma {:induction false} OddTerm(s: Seed, a: Seed, i: nat)
    requires Odd(s) && a % 8 == 5
    ensures Odd(s * Pow(a, i))
  {
    assert Odd(a);
    hide Pow, Odd;
    OddPower(a, i);
    OddTimes(s, Pow(a, i));
  }

  lemma {:induction false} PowersDiffer(s: Seed, a: Seed, i: nat, d: nat)
    requires a % 8 == 5 && 0 < d < PERIOD && Odd(s * Pow(a, i))
    ensures s * Pow(a, i) % T46 != s * Pow(a, i + d) % T46
  {
    var u := NearPower(a, d);
    StepOn(s, a, i, d, u);
    Apart(s * Pow(a, i), d, u);
  }

  lemma {:induction false} Apart(b: int, d: nat, u: int)
    requires 0 < d < PERIOD && Odd(b) && Odd(u)
    ensures b % T46 != (b + 4 * (TwoPower(d) * (b * u))) % T46
  {
    OddTimes(b, u);
    NotFullPeriod(d, b * u);
    FourTimes(TwoPower(d) * (b * u));
    Differ(b, 4 * (TwoPower(d) * (b * u)), T46);
  }

  lemma {:induction false} NotFullPeriod(d: nat, w: int)
    requires 0 < d < PERIOD && Odd(w)
    ensures TwoPower(d) * w % PERIOD != 0
  {
    TwoPowerBound(d);
    Pow44();
    NotMultiple(d, w, 44);
  }

  lemma {:induction false} StepOn(s: Seed, a: Seed, i: nat, d: nat, u: int)
    requires d > 0 && Pow(a, d) == 1 + 4 * TwoPower(d) * u
    ensures s * Pow(a, i + d) == s * Pow(a, i) + 4 * (TwoPower(d) * (s * Pow(a, i) * u))
  {
    PowAdd(a, i, d);
    var b := s * Pow(a, i);
    assert s * (Pow(a, i) * Pow(a, d)) == b * Pow(a, d);
    Factor(b, TwoPower(d), u);
  }

  lemma {:induction false} Factor(b: int, p: int, u: int)
    ensures b * (1 + 4 * p * u) == b + 4 * (p * (b * u))
  {
    assert b * (4 * p * u) == 4 * (p * (b * u));
  }

  lemma {:induction false} FourTimes(x: int)
    requires x % PERIOD != 0
    ensures 4 * x % T46 != 0
  {
    EvenRemainder(x, PERIOD);
    EvenRemainder(2 * x, 2 * PERIOD);
  }

  lemma {:induction false} Differ(b: int, y: int, m: int)
    requires m > 0 && y % m != 0
    ensures b % m != (b + y) % m
  {
    var q, q' := b / m, (b + y) / m;
    if b % m == (b + y) % m {
      assert y == (q' - q) * m;
      DivMod(y, m, q' - q, 0);
    }
  }

  /** find_my_seed gives processor `kn` the number its part of the sequence starts
      after, exactly if the parts have a power of two for their length; processor 0
      always gets the seed itself. */
  lemma {:induction false} SeedIsRight(kn: nat, np: nat, nn: nat, s: Seed, a: Seed)
    requires kn < np && np < 0x8000_0000 && nn < PERIOD && Odd(s) && a % 8 == 5
    ensures s * Pow(a, kn * Pow(2, Log2(nn / np))) % T46 == Nth(s, a, kn * (nn / np))
            <==> kn == 0 || nn / np == Pow(2, Log2(nn / np))
  {
    var q, p := nn / np, Pow(2, Log2(nn / np));
    NthIsPower(s, a, kn * p);
    if q == 0 {
      assert kn * q == 0 && kn * p == kn;
      if kn > 0 { NoShortCycle(s, a, 0, kn); }
    } else {
      Log2Bounds(q);
      SamePlace(kn, np, nn, s, a, q, p);
    }
  }

  lemma {:induction false} SamePlace(kn: nat, np: nat, nn: nat, s: Seed, a: Seed, q: nat, p: nat)
    requires kn < np && nn < PERIOD && Odd(s) && a % 8 == 5 && q == nn / np && 0 < p <= q
    ensures Nth(s, a, kn * p) == Nth(s, a, kn * q) <==> kn == 0 || q == p
  {
    if kn > 0 && q != p {
      assert kn * q == kn * p + kn * (q - p);
      PartsFit(kn, np, nn, q, p);
      NoShortCycle(s, a, kn * p, kn * (q - p));
    } else if kn == 0 {
      assert kn * q == 0 && kn * p == 0;
    }
  }

  lemma {:induction false} PartsFit(kn: nat, np: nat, nn: nat, q: nat, p: nat)
    requires 0 < kn < np && q == nn / np && 0 < p < q
    ensures 0 < kn * (q - p) <= nn
  {
    assert np * q <= nn;
    assert kn * (q - p) <= kn * q by { assert kn * q == kn * (q - p) + kn * p; }
    assert kn * q <= np * q;
    Times(kn, q - p);
  }

  /** Three numbers a processor, two processors: the second starts in the wrong place. */
  lemma {:induction false} OddPartsGoWrong(s: Seed, a: Seed)
    requires Odd(s) && a % 8 == 5
    ensures s * Pow(a, 1 * Pow(2, Log2(6 / 2))) % T46 != Nth(s, a, 1 * (6 / 2))
  {
    SeedIsRight(1, 2, 6, s, a);
    assert Log2(3) == 1 + Log2(1) && Pow(2, 1) == 2;
  }

  // ----- keys -----

  /** The sum of the four numbers that follow `t`. */
  function FourSum(t: Seed, a: Seed): (x: nat)
    ensures x < 4 * T46
  {
    Nth(t, a, 1) + Nth(t, a, 2) + Nth(t, a, 3) + Nth(t, a, 4)
  }

  /** Key number `i` of a sequence: four random numbers in [0, 1) added up and scaled. */
  function KeyAt(k: nat, s: Seed, a: Seed, i: nat): nat {
    k * FourSum(Nth(s, a, 4 * i), a) / T46
  }

  function Keys(k: nat, s: Seed, a: Seed, n: nat): (keys: seq<nat>)
    ensures |keys| == n
  {
    seq(n, i requires 0 <= i < n => KeyAt(k, s, a, i))
  }

  lemma {:induction false} KeysInRange(k: nat, s: Seed, a: Seed, i: nat)
    requires k > 0
    ensures KeyAt(k, s, a, i) < 4 * k
  {
    hide Nth, FourSum;
    var x := FourSum(Nth(s, a, 4 * i), a);
    ProductBelow(k, x);
    DivBelow(k * x, T46, 4 * k);
  }

  lemma {:induction false} ProductBelow(k: nat, x: nat)
    requires k > 0 && x < 4 * T46
    ensures k * x < (4 * k) * T46
  {
    Times(k, 4 * T46 - x);
    assert k * (4 * T46 - x) == (4 * k) * T46 - k * x;
  }

  /** The sum, in units of 2^-46, stays among the integers a double holds exactly. */
  method AddFour(seed0: Seed, a: Seed) returns (x: Double, seed: Seed)
    ensures x as int == FourSum(seed0, a) && seed == Nth(seed0, a, 4)
  {
    seed := Randlc(seed0, a);
    assert seed == Nth(seed0, a, 1);
    x := seed as Double;
    seed := Randlc(seed, a);
    assert seed == Nth(seed0, a, 2);
    x := x + seed as Double;
    seed := Randlc(seed, a);
    assert seed == Nth(seed0, a, 3);
    x := x + seed as Double;
    seed := Randlc(seed, a);
    x := x + seed as Double;
  }

  /** create_seq */
  method CreateSeq(seed0: Seed, a: Seed, maxKey: nat, numKeys: nat) returns (keys: seq<nat>)
    requires maxKey >= 4
    ensures keys == Keys(maxKey / 4, seed0, a, numKeys)
    ensures forall i :: 0 <= i < numKeys ==> keys[i] < maxKey
  {
    var k := maxKey / 4;
    var seed := seed0;
    keys := [];
    for i := 0 to numKeys
      invariant |keys| == i && seed == Nth(seed0, a, 4 * i)
      invariant forall j :: 0 <= j < i ==> keys[j] == KeyAt(k, seed0, a, j)
    {
      NthAdd(seed0, a, 4 * i, 4);
      var x;
      x, seed := AddFour(seed, a);
      keys := keys + [k * (x as int) / T46];
    }
    forall i | 0 <= i < numKeys ensures keys[i] < maxKey { KeysInRange(k, seed0, a, i); }
  }

  /** What all processors create, put together, is the serial sequence of keys, if each
      gets a power of two of the random numbers. */
  method CreateAll(np: nat, nn: nat, s: Seed, a: Seed, maxKey: nat, numKeys: nat) returns (all: seq<nat>)
    requires 0 < np < 0x8000_0000 && maxKey >= 4
    requires nn / np == 4 * numKeys == Pow(2, Log2(nn / np))
    ensures all == Keys(maxKey / 4, s, a, np * numKeys)
  {
    all := [];
    ghost var k := maxKey / 4;
    for kn := 0 to np
      invariant all == Keys(k, s, a, kn * numKeys)
    {
      var seed := FindMySeed(kn, np, nn, s, a);
      NthIsPower(s, a, kn * (4 * numKeys));
      assert kn * (4 * numKeys) == 4 * (kn * numKeys);
      var keys := CreateSeq(seed, a, maxKey, numKeys);
      BlockOfKeys(k, s, a, kn * numKeys, numKeys);
      assert (kn + 1) * numKeys == kn * numKeys + numKeys;
      all := all + keys;
    }
  }

  lemma {:induction false} BlockOfKeys(k: nat, s: Seed, a: Seed, start: nat, n: nat)
    ensures Keys(k, s, a, start) + Keys(k, Nth(s, a, 4 * start), a, n) == Keys(k, s, a, start + n)
  {
    forall i | 0 <= i < n ensures KeyAt(k, Nth(s, a, 4 * start), a, i) == KeyAt(k, s, a, start + i) {
      NthAdd(s, a, 4 * start, 4 * i);
    }
  }
}
