/** Bitwise operations on unsigned integers, defined bit by bit, and their arithmetic meaning. */
module Bits {

  function Pow2(k: nat): (p: nat)
    ensures p > 0
  {
    if k == 0 then 1 else 2 * Pow2(k - 1)
  }

  function Or(a: nat, b: nat): nat
    decreases a + b
  {
    if a == 0 then b
    else if b == 0 then a
    else 2 * Or(a / 2, b / 2) + if a % 2 == 1 || b % 2 == 1 then 1 else 0
  }

  function And(a: nat, b: nat): nat
    decreases a + b
  {
    if a == 0 || b == 0 then 0
    else 2 * And(a / 2, b / 2) + if a % 2 == 1 && b % 2 == 1 then 1 else 0
  }

  function ShiftLeft(a: nat, k: nat): nat {
    if k == 0 then a else 2 * ShiftLeft(a, k - 1)
  }

  function ShiftRight(a: nat, k: nat): nat {
    if k == 0 then a else ShiftRight(a / 2, k - 1)
  }

  // ---------------------------------------------------------------- powers and shifts

  lemma {:induction false} Pow2Adds(j: nat, k: nat)
    ensures Pow2(j + k) == ShiftLeft(Pow2(j), k)
  {
    if k > 0 { Pow2Adds(j, k - 1); }
  }

  lemma {:induction false} Pow2Grows(j: nat, k: nat)
    requires j <= k
    ensures Pow2(j) <= Pow2(k) && (j < k ==> 2 * Pow2(j) <= Pow2(k))
    decreases k
  {
    if j < k { Pow2Grows(j, k - 1); }
  }

  /** A left shift by `k` multiplies by `2^k`. */
  lemma {:induction false} ShiftIsProduct(a: nat, k: nat)
    ensures ShiftLeft(a, k) == a * Pow2(k)
  {
    if k > 0 {
      ShiftIsProduct(a, k - 1);
      Twice(a, Pow2(k - 1));
    }
  }

  /** A right shift by `k` is the quotient by `2^k`. */
  lemma {:induction false} ShiftIsQuotient(a: nat, k: nat)
    ensures ShiftLeft(ShiftRight(a, k), k) <= a < ShiftLeft(ShiftRight(a, k), k) + Pow2(k)
  {
    if k > 0 { ShiftIsQuotient(a / 2, k - 1); }
  }

  lemma {:induction false} ShiftMonotone(a: nat, b: nat, k: nat)
    requires a <= b
    ensures ShiftLeft(a, k) <= ShiftLeft(b, k) && (a < b ==> ShiftLeft(a, k) + Pow2(k) <= ShiftLeft(b, k))
  {
    if k > 0 { ShiftMonotone(a, b, k - 1); }
  }

  /** Shifts by the constants in use. */
  lemma {:induction false} ShiftBy3(a: nat)
    ensures ShiftLeft(a, 3) == 8 * a && Pow2(3) == 8
  {
    assert ShiftLeft(a, 1) == 2 * a;
    assert ShiftLeft(a, 2) == 4 * a;
  }

  lemma {:induction false} ShiftBy6(a: nat)
    ensures ShiftLeft(a, 6) == 64 * a && Pow2(6) == 64
  {
    ShiftBy3(a);
    assert ShiftLeft(a, 4) == 16 * a;
    assert ShiftLeft(a, 5) == 32 * a;
  }

  lemma {:induction false} ShiftBy10(a: nat)
    ensures ShiftLeft(a, 10) == 1024 * a && Pow2(10) == 1024
  {
    ShiftBy6(a);
    assert ShiftLeft(a, 7) == 128 * a;
    assert ShiftLeft(a, 8) == 256 * a;
    assert ShiftLeft(a, 9) == 512 * a;
  }

  lemma {:induction false} Twice(x: nat, p: nat)
    ensures x * (2 * p) == 2 * (x * p)
  {
  }

  // ---------------------------------------------------------------- one bit

  lemma {:induction false} OrDouble(a: nat, b: nat, x: nat, y: nat)
    requires x <= 1 && y <= 1
    ensures Or(2 * a + x, 2 * b + y) == 2 * Or(a, b) + if x == 1 || y == 1 then 1 else 0
  {
  }

  lemma {:induction false} AndDouble(a: nat, b: nat, x: nat, y: nat)
    requires x <= 1 && y <= 1
    ensures And(2 * a + x, 2 * b + y) == 2 * And(a, b) + if x == 1 && y == 1 then 1 else 0
  {
  }

  lemma {:induction false} OrHalves(a: nat, b: nat)
    ensures Or(a, b) / 2 == Or(a / 2, b / 2) && Or(a, b) % 2 == if a % 2 == 1 || b % 2 == 1 then 1 else 0
  {
  }

  lemma {:induction false} AndHalves(a: nat, b: nat)
    ensures And(a, b) / 2 == And(a / 2, b / 2) && And(a, b) % 2 == if a % 2 == 1 && b % 2 == 1 then 1 else 0
  {
  }

  lemma {:induction false} OrTwo(x: nat)
    ensures Or(x, 2) == 4 * (x / 4) + 2 + x % 2
  {
    assert Or(x / 2, 1) == 2 * (x / 4) + 1 by { OrHalves(x / 2, 1); }
    OrHalves(x, 2);
  }

  lemma {:induction false} AndTwo(x: nat)
    ensures And(x, 2) == if x / 2 % 2 == 1 then 2 else 0
  {
    AndDouble(x / 4, 0, x / 2 % 2, 1);
    AndDouble(x / 2, 1, x % 2, 0);
  }

  // ---------------------------------------------------------------- bounds and symmetry

  lemma {:induction false} OrBounds(a: nat, b: nat)
    ensures Or(a, b) >= a && Or(a, b) >= b
    decreases a + b
  {
    if a > 0 && b > 0 { OrBounds(a / 2, b / 2); }
  }

  lemma {:induction false} OrFits(a: nat, b: nat, k: nat)
    requires a < Pow2(k) && b < Pow2(k)
    ensures Or(a, b) < Pow2(k)
  {
    if k > 0 && a > 0 && b > 0 { OrFits(a / 2, b / 2, k - 1); }
  }

  lemma {:induction false} AndBounds(a: nat, b: nat)
    ensures And(a, b) <= a && And(a, b) <= b
    decreases a + b
  {
    if a > 0 && b > 0 { AndBounds(a / 2, b / 2); }
  }

  lemma {:induction false} OrCommutes(a: nat, b: nat)
    ensures Or(a, b) == Or(b, a)
    decreases a + b
  {
    if a > 0 && b > 0 { OrCommutes(a / 2, b / 2); }
  }

  // ---------------------------------------------------------------- fields

  /** The number with high part `h` above `k` low bits `l`, bit by bit. */
  ghost function Join(h: nat, l: nat, k: nat): nat {
    if k == 0 then h else 2 * Join(h, l / 2, k - 1) + l % 2
  }

  lemma {:induction false} JoinIsSum(h: nat, l: nat, k: nat)
    requires l < Pow2(k)
    ensures Join(h, l, k) == ShiftLeft(h, k) + l
  {
    if k > 0 { JoinIsSum(h, l / 2, k - 1); }
  }

  lemma {:induction false} OrJoins(g: nat, l: nat, h: nat, m: nat, k: nat)
    ensures Or(Join(g, l, k), Join(h, m, k)) == Join(Or(g, h), Or(l, m), k)
  {
    if k > 0 {
      OrJoins(g, l / 2, h, m / 2, k - 1);
      OrDouble(Join(g, l / 2, k - 1), Join(h, m / 2, k - 1), l % 2, m % 2);
      OrHalves(l, m);
    }
  }

  lemma {:induction false} AndJoins(g: nat, l: nat, h: nat, m: nat, k: nat)
    ensures And(Join(g, l, k), Join(h, m, k)) == Join(And(g, h), And(l, m), k)
  {
    if k > 0 {
      AndJoins(g, l / 2, h, m / 2, k - 1);
      AndDouble(Join(g, l / 2, k - 1), Join(h, m / 2, k - 1), l % 2, m % 2);
      AndHalves(l, m);
    }
  }

  /** High and low parts are combined separately. */
  lemma {:induction false} OrSplits(g: nat, l: nat, h: nat, m: nat, k: nat)
    requires l < Pow2(k) && m < Pow2(k)
    ensures Or(ShiftLeft(g, k) + l, ShiftLeft(h, k) + m) == ShiftLeft(Or(g, h), k) + Or(l, m)
  {
    JoinIsSum(g, l, k);
    JoinIsSum(h, m, k);
    OrJoins(g, l, h, m, k);
    OrFits(l, m, k);
    JoinIsSum(Or(g, h), Or(l, m), k);
  }

  lemma {:induction false} AndSplits(g: nat, l: nat, h: nat, m: nat, k: nat)
    requires l < Pow2(k) && m < Pow2(k)
    ensures And(ShiftLeft(g, k) + l, ShiftLeft(h, k) + m) == ShiftLeft(And(g, h), k) + And(l, m)
  {
    JoinIsSum(g, l, k);
    JoinIsSum(h, m, k);
    AndJoins(g, l, h, m, k);
    AndBounds(l, m);
    JoinIsSum(And(g, h), And(l, m), k);
  }

  /** Or-ing a field into zero bits adds it. */
  lemma {:induction false} OrDisjoint(h: nat, l: nat, k: nat)
    requires l < Pow2(k)
    ensures Or(ShiftLeft(h, k), l) == ShiftLeft(h, k) + l
  {
    OrSplits(h, 0, 0, l, k);
    ZeroShifts(k);
    OrCommutes(h, 0);
  }

  lemma {:induction false} ZeroShifts(k: nat)
    ensures ShiftLeft(0, k) == 0
  {
    if k > 0 { ZeroShifts(k - 1); }
  }

  // ---------------------------------------------------------------- masks

  /** The low `k` bits. */
  ghost function Low(x: nat, k: nat): nat {
    if k == 0 then 0 else 2 * Low(x / 2, k - 1) + x % 2
  }

  lemma {:induction false} LowIsMod(x: nat, k: nat)
    ensures Low(x, k) == x % Pow2(k)
  {
    if k > 0 {
      LowIsMod(x / 2, k - 1);
      ModStep(x, Pow2(k - 1));
    }
  }

  lemma {:induction false} MaskIsLow(x: nat, k: nat)
    ensures And(x, Pow2(k) - 1) == Low(x, k)
  {
    if k > 0 {
      MaskIsLow(x / 2, k - 1);
      AndDouble(x / 2, Pow2(k - 1) - 1, x % 2, 1);
    }
  }

  lemma {:induction false} LowIsAll(x: nat, k: nat)
    requires x < Pow2(k)
    ensures Low(x, k) == x
  {
    if k > 0 { LowIsAll(x / 2, k - 1); }
  }

  /** Masking with `2^k - 1` is the remainder by `2^k`. */
  lemma {:induction false} AndMask(x: nat, k: nat)
    ensures And(x, Pow2(k) - 1) == x % Pow2(k)
  {
    MaskIsLow(x, k);
    LowIsMod(x, k);
  }

  /** The remainder by an even number, one bit at a time. */
  lemma {:induction false} ModStep(x: nat, p: nat)
    requires p > 0
    ensures x % (2 * p) == 2 * (x / 2 % p) + x % 2
  {
    var q, r := x / 2 / p, x / 2 % p;
    Euclid(x / 2, p);
    Twice(q, p);
    assert x == q * (2 * p) + (2 * r + x % 2);
    DivMod(x, q, 2 * p, 2 * r + x % 2);
  }

  lemma {:induction false} Euclid(x: nat, d: nat)
    requires d > 0
    ensures x == x / d * d + x % d && 0 <= x % d < d && x / d >= 0
  {
  }

  lemma {:induction false} DivMod(x: nat, q: nat, d: nat, r: nat)
    requires d > 0 && r < d && x == q * d + r
    ensures x / d == q && x % d == r
  {
    var q', r' := x / d, x % d;
    Euclid(x, d);
    assert (q - q') * d == r' - r;
    assert q - q' == 0 by {
      if q > q' { MulAtLeast(q - q', d); }
      if q < q' { MulAtLeast(q' - q, d); }
    }
  }

  lemma {:induction false} MulAtLeast(n: nat, d: nat)
    requires n >= 1
    ensures n * d >= d
  {
  }
}
