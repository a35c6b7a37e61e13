/** The probe sequence of hashtable.c: open addressing in a table of 2^k slots
    with i -> 5i + perturb + 1, where perturb loses five bits at every step.

    Keys have 64 bits; all arithmetic is modulo the size of the table, so the
    wrap-around of the machine words is not visible. */
module Probing {
  const KEYS: nat := 0x1_0000_0000_0000_0000
  const PERTURB_STEPS: nat := 13     // after so many shifts by 5, no bit of a key is left

  function Pow2(k: nat): (p: nat)
    ensures p > 0
  {
    if k == 0 then 1 else 2 * Pow2(k - 1)
  }

  function Perturb(key: nat, n: nat): nat {
    if n == 0 then key else Perturb(key, n - 1) / 32
  }

  /** The slot after slot i. */
  function Advance(i: nat, perturb: nat, size: nat): (s: nat)
    requires size > 0
    ensures s < size
  {
    (5 * i + perturb + 1) % size
  }

  /** The n-th slot that is tried for a key. */
  function Slot(key: nat, n: nat, size: nat): (s: nat)
    requires size > 0
    ensures s < size
  {
    if n == 0 then key % size else Advance(Slot(key, n - 1, size), Perturb(key, n - 1), size)
  }

  // ----- x -> 5x + 1 modulo 2^k

  /** n steps of x -> 5x + 1. */
  ghost function Steps(n: nat, x: nat): nat {
    if n == 0 then x else 5 * Steps(n - 1, x) + 1
  }

  lemma {:induction false} StepsAdd(m: nat, n: nat, x: nat)
    ensures Steps(m + n, x) == Steps(n, Steps(m, x))
  {
    if n > 0 { StepsAdd(m, n - 1, x); }
  }

  /** 2^k steps from x lead to x plus an odd multiple of 2^k. */
  ghost predicate Jumps(k: nat, x: nat, c: nat) {
    Steps(Pow2(k), x) == x + Pow2(k) * c && c % 2 == 1
  }

  ghost function Pow5(n: nat): nat { if n == 0 then 1 else 5 * Pow5(n - 1) }

  /** 4x + 1 is multiplied by 5 at every step. */
  lemma {:induction false} StepsScale(n: nat, x: nat)
    ensures 4 * Steps(n, x) + 1 == Pow5(n) * (4 * x + 1)
  {
    if n > 0 {
      StepsScale(n - 1, x);
      Assoc(5, Pow5(n - 1), 4 * x + 1);
    }
  }

  lemma {:induction false} Pow5Add(m: nat, n: nat)
    ensures Pow5(m + n) == Pow5(m) * Pow5(n)
  {
    if n > 0 {
      Pow5Add(m, n - 1);
      calc {
        Pow5(m + n);
        5 * (Pow5(m) * Pow5(n - 1));
        Pow5(m) * Pow5(n);
      }
    }
  }

  lemma Assoc(a: int, b: int, c: int)
    ensures a * (b * c) == a * b * c
  {
  }

  lemma Distribute(a: int, b: int, c: int)
    ensures a * (b + c) == a * b + a * c
  {
  }

  lemma Squaring(p: nat, v: nat) returns (u: nat)
    requires v % 2 == 1
    ensures (1 + 4 * (p * v)) * (1 + 4 * (p * v)) == 1 + 8 * (p * u) && u % 2 == 1
  {
    var q := p * v;
    var s := v * q;
    u := v + 2 * s;
    Distribute(p, v, 2 * s);
    Assoc(p, v, q);
    assert p * (2 * s) == 2 * (p * s);
    assert (1 + 4 * q) * (1 + 4 * q) == 1 + 8 * q + 16 * (q * q);
  }

  /** 5^(2^k) is 1 plus an odd multiple of 2^(k+2). */
  lemma {:induction false} Pow5Odd(k: nat) returns (u: nat)
    ensures Pow5(Pow2(k)) == 1 + 4 * (Pow2(k) * u) && u % 2 == 1
  {
    if k == 0 {
      u := 1;
      assert Pow5(1) == 5 * Pow5(0);
    } else {
      var v := Pow5Odd(k - 1);
      var p := Pow2(k - 1);
      Pow5Add(p, p);
      u := Squaring(p, v);
      assert Pow2(k) * u == 2 * (p * u) by { Assoc(2, p, u); }
    }
  }

  lemma JumpLength(k: nat, x: nat) returns (c: nat)
    ensures Jumps(k, x, c)
  {
    var u := Pow5Odd(k);
    StepsScale(Pow2(k), x);
    c := JumpFrom(Steps(Pow2(k), x), x, Pow5(Pow2(k)), Pow2(k), u);
  }

  lemma JumpFrom(steps: nat, x: nat, f: nat, p: nat, u: nat) returns (c: nat)
    requires 4 * steps + 1 == f * (4 * x + 1) && f == 1 + 4 * (p * u) && u % 2 == 1
    ensures steps == x + p * c && c % 2 == 1
  {
    var y, e := 4 * x + 1, p * u;
    c := u * y;
    OddTimesOdd(u, y);
    assert steps == x + e * y by { JumpSize(steps, x, f, e, y); }
    Assoc(p, u, y);
  }

  lemma JumpSize(steps: nat, x: nat, f: nat, e: nat, y: nat)
    requires 4 * steps + 1 == f * y && f == 1 + 4 * e && y == 4 * x + 1
    ensures steps == x + e * y
  {
    SameProduct(f, 1 + 4 * e, y);
    Expand(e, y);
  }

  lemma SameProduct(a: int, b: int, c: int)
    requires a == b
    ensures a * c == b * c
  {
  }

  lemma Expand(e: nat, y: nat)
    ensures (1 + 4 * e) * y == y + 4 * (e * y)
  {
  }

  lemma OddTimesOdd(a: nat, b: nat)
    requires a % 2 == 1 && b % 2 == 1
    ensures (a * b) % 2 == 1
  {
    var i, j := a / 2, b / 2;
    assert a * b == 2 * (2 * (i * j) + i + j) + 1;
  }

  /** The step 5x + 1 has full period: from any x, every slot of a table of 2^k
      is reached within 2^k steps. */
  lemma {:induction false} FullPeriod(k: nat, x: nat, slot: nat) returns (n: nat)
    requires slot < Pow2(k)
    ensures n < Pow2(k) && Steps(n, x) % Pow2(k) == slot
  {
    if k == 0 {
      n := 0;
    } else {
      n := FullPeriod(k - 1, x, slot % Pow2(k - 1));
      n := TurnOn(k - 1, x, slot, n);
    }
  }

  /** From a table to one twice as big: the slot is reached now or after another
      2^k steps. */
  lemma TurnOn(k: nat, x: nat, slot: nat, n: nat) returns (n': nat)
    requires slot < 2 * Pow2(k) && n < Pow2(k) && Steps(n, x) % Pow2(k) == slot % Pow2(k)
    ensures n' < 2 * Pow2(k) && Steps(n', x) % (2 * Pow2(k)) == slot
  {
    var y := Steps(n, x);
    if y % (2 * Pow2(k)) == slot {
      n' := n;
    } else {
      var c := JumpLength(k, y);
      HalfTurn(y, Pow2(k), c, slot);
      StepsAdd(n, Pow2(k), x);
      n' := n + Pow2(k);
    }
  }

  lemma HalfTurn(y: nat, p: nat, c: nat, slot: nat)
    requires p > 0 && slot < 2 * p && y % p == slot % p && y % (2 * p) != slot && c % 2 == 1
    ensures (y + p * c) % (2 * p) == slot
  {
    var m, d := 2 * p, c / 2;
    OtherHalf(y, p, slot);
    OddMultiple(p, c);
    DivMod(y, m);
    Turned(y, y / m, y % m, p, p * c, m, d, slot);
  }

  lemma Turned(y: nat, q: nat, r: nat, p: nat, jump: nat, m: nat, d: nat, slot: nat)
    requires m == 2 * p && y == m * q + r && jump == m * d + p && slot < m && slot == if r < p then r + p else r - p
    ensures (y + jump) % m == slot
  {
    var q' := q + d + if r < p then 0 else 1;
    Distribute(m, q, d);
    if r >= p { Distribute(m, q + d, 1); }
    assert y + jump == m * q' + slot;
    DivIs(y + jump, m, q', slot);
  }

  lemma OddMultiple(p: nat, c: nat)
    requires c % 2 == 1
    ensures p * c == 2 * p * (c / 2) + p
  {
    Distribute(p, 2 * (c / 2), 1);
    Assoc(p, 2, c / 2);
  }

  lemma OtherHalf(y: nat, p: nat, slot: nat)
    requires p > 0 && slot < 2 * p && y % p == slot % p && y % (2 * p) != slot
    ensures var r := y % (2 * p); slot == if r < p then r + p else r - p
  {
    Half(y, p);
    Half(slot, p);
    Small(slot, 2 * p);
  }

  lemma Small(s: nat, m: nat)
    requires s < m
    ensures s % m == s
  {
  }

  /** The remainders of a number modulo 2p and modulo p. */
  lemma Half(y: nat, p: nat)
    requires p > 0
    ensures y % p == (var r := y % (2 * p); if r < p then r else r - p)
  {
    DivMod(y, 2 * p);
    HalfOf(y, p, 2 * p, y / (2 * p), y % (2 * p));
  }

  lemma DivMod(y: nat, m: nat)
    requires m > 0
    ensures y == m * (y / m) + y % m && y / m >= 0
  {
  }

  lemma HalfOf(y: nat, p: nat, m: nat, q: nat, r: nat)
    requires p > 0 && m == 2 * p && y == m * q + r && r < m
    ensures y % p == if r < p then r else r - p
  {
    SameProduct(m, 2 * p, q);
    Assoc(p, 2, q);
    if r < p {
      DivIs(y, p, 2 * q, r);
    } else {
      Distribute(p, 2 * q, 1);
      DivIs(y, p, 2 * q + 1, r - p);
    }
  }

  lemma DivIs(y: nat, m: nat, q: nat, r: nat)
    requires r < m && y == m * q + r
    ensures y % m == r
  {
    DivUnique(m, q, r);
  }

  lemma DivUnique(m: nat, q: nat, r: nat)
    requires r < m
    ensures (m * q + r) % m == r
  {
    var a := m * q + r;
    var e := a / m - q;
    assert a == m * (a / m) + a % m;
    Distribute(m, q, e);
    assert m * e == r - a % m;
    if e >= 1 { AtLeast(m, e); }
    if e <= -1 { AtLeast(m, -e); }
  }

  lemma AtLeast(m: nat, e: nat)
    requires e >= 1
    ensures m * e >= m
  {
  }

  // ----- every slot is probed

  lemma ModAdd(m: nat, q: nat, b: nat)
    requires m > 0
    ensures (m * q + b) % m == b % m
  {
    Distribute(m, q, b / m);
    DivUnique(m, q + b / m, b % m);
  }

  lemma StepMod(x: nat, m: nat)
    requires m > 0
    ensures (5 * (x % m) + 1) % m == (5 * x + 1) % m
  {
    var q, r := x / m, x % m;
    Assoc(m, 5, q);
    Assoc(5, m, q);
    ModAdd(m, 5 * q, 5 * r + 1);
  }

  lemma PerturbGone(key: nat, n: nat)
    requires key < KEYS && n >= PERTURB_STEPS
    ensures Perturb(key, n) == 0
  {
    if n > PERTURB_STEPS {
      PerturbGone(key, n - 1);
    } else {
      assert Perturb(key, 1) < 0x800_0000_0000_0000;
      assert Perturb(key, 2) < 0x40_0000_0000_0000;
      assert Perturb(key, 3) < 0x2_0000_0000_0000;
      assert Perturb(key, 4) < 0x1000_0000_0000;
      assert Perturb(key, 5) < 0x80_0000_0000;
      assert Perturb(key, 6) < 0x4_0000_0000;
      assert Perturb(key, 7) < 0x2000_0000;
      assert Perturb(key, 8) < 0x100_0000;
      assert Perturb(key, 9) < 0x8_0000;
      assert Perturb(key, 10) < 0x4000;
      assert Perturb(key, 11) < 0x200;
      assert Perturb(key, 12) < 0x10;
    }
  }

  lemma {:induction false} SlotSteps(key: nat, m: nat, size: nat)
    requires key < KEYS && size > 0
    ensures Slot(key, PERTURB_STEPS + m, size) == Steps(m, Slot(key, PERTURB_STEPS, size)) % size
  {
    var s := Slot(key, PERTURB_STEPS, size);
    if m == 0 {
      DivUnique(size, 0, s);
    } else {
      SlotSteps(key, m - 1, size);
      PerturbGone(key, PERTURB_STEPS + m - 1);
      StepMod(Steps(m - 1, s), size);
      NextSlot(key, PERTURB_STEPS + m, size, Steps(m - 1, s) % size);
    }
  }

  lemma NextSlot(key: nat, n: nat, size: nat, s: nat)
    requires n > 0 && size > 0 && Slot(key, n - 1, size) == s && Perturb(key, n - 1) == 0
    ensures Slot(key, n, size) == (5 * s + 1) % size
  {
  }

  /** Probing for any key, in a table of any power of two slots, comes to every
      slot, and does so within the size of the table plus 13 steps. */
  lemma EverySlotProbed(key: nat, k: nat, slot: nat) returns (n: nat)
    requires key < KEYS && slot < Pow2(k)
    ensures n < PERTURB_STEPS + Pow2(k) && Slot(key, n, Pow2(k)) == slot
  {
    var m := FullPeriod(k, Slot(key, PERTURB_STEPS, Pow2(k)), slot);
    SlotSteps(key, m, Pow2(k));
    n := PERTURB_STEPS + m;
  }
}
