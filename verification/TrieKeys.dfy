/** The keys of the address tries (c7/stm/list.h, c4/lists.h): 64-bit addresses,
    multiples of 8 and not 0, cut into sixteen digits of four bits.  The C7 tree
    hashes the address first; the C4 tree takes it as it is, and shifts it as a
    signed number. */
module TrieKeys {
  const DEPTH_MAX: nat := 16
  const ARITY: nat := 16

  datatype Key = Key(bits: bv64)

  /** The null key, which marks deleted items. */
  const NO_KEY: Key := Key(0)

  predicate IsKey(key: Key) { key != NO_KEY && key.bits & 7 == 0 }

  datatype Scheme = C7Tree | C4Tree

  /** TREE_HASH of the C7 tree; the C4 tree has none. */
  function Hash(sch: Scheme, x: bv64): bv64 {
    if sch.C7Tree? then x ^ (x << 4) else x
  }

  function Index(x: bv64): (i: nat)
    ensures i < ARITY
  {
    if x == 0 then 0 else if x == 1 then 1 else if x == 2 then 2 else if x == 3 then 3
    else if x == 4 then 4 else if x == 5 then 5 else if x == 6 then 6 else if x == 7 then 7
    else if x == 8 then 8 else if x == 9 then 9 else if x == 10 then 10 else if x == 11 then 11
    else if x == 12 then 12 else if x == 13 then 13 else if x == 14 then 14 else 15
  }

  function Low4(x: bv64): (r: bv64)
    ensures r <= 15
  {
    x & 15
  }

  /** The four bits of a hash that choose the slot at level d: the mask 15 * 8 of
      the hash shifted right by 4d, as a number of slots.  At the last level one bit
      is left, and in the C4 tree its copies. */
  function Bits(sch: Scheme, h: bv64, d: nat): (b: bv64)
    ensures b <= 15
  {
    if d == 0 then Low4(h >> 3) else if d == 1 then Low4(h >> 7)
    else if d == 2 then Low4(h >> 11) else if d == 3 then Low4(h >> 15)
    else if d == 4 then Low4(h >> 19) else if d == 5 then Low4(h >> 23)
    else if d == 6 then Low4(h >> 27) else if d == 7 then Low4(h >> 31)
    else if d == 8 then Low4(h >> 35) else if d == 9 then Low4(h >> 39)
    else if d == 10 then Low4(h >> 43) else if d == 11 then Low4(h >> 47)
    else if d == 12 then Low4(h >> 51) else if d == 13 then Low4(h >> 55)
    else if d == 14 then Low4(h >> 59) else if sch.C7Tree? then Low4(h >> 63)
    else if h >> 63 == 0 then 0 else 15
  }

  function Digit(sch: Scheme, key: Key, d: nat): (i: nat)
    ensures i < ARITY
  {
    Index(Bits(sch, Hash(sch, key.bits), d))
  }

  lemma SameHash(x: bv64, y: bv64)
    requires x ^ (x << 4) == y ^ (y << 4)
    ensures x ^ y == (x ^ y) << 4
  {
  }

  lemma OnlyZero(z: bv64)
    requires z == z << 4
    ensures z == 0
  {
  }

  lemma NoDifference(x: bv64, y: bv64)
    requires x ^ y == 0
    ensures x == y
  {
  }

  /** The hash loses nothing: the difference of two keys with the same hash is
      the same when shifted by four bits, so there is none. */
  lemma ShiftedInjective(x: bv64, y: bv64)
    requires x ^ (x << 4) == y ^ (y << 4)
    ensures x == y
  {
    SameHash(x, y);
    OnlyZero(x ^ y);
    NoDifference(x, y);
  }

  lemma HashInjective(sch: Scheme, x: bv64, y: bv64)
    requires Hash(sch, x) == Hash(sch, y)
    ensures x == y
  {
    if sch.C7Tree? { ShiftedInjective(x, y); }
  }

  lemma LowBits(sch: Scheme, x: bv64)
    requires x & 7 == 0
    ensures Hash(sch, x) & 7 == 0
  {
  }

  /** The last digit tells the top bit. */
  lemma TopBit(sch: Scheme, g: bv64, h: bv64)
    requires Bits(sch, g, 15) == Bits(sch, h, 15)
    ensures Low4(g >> 63) == Low4(h >> 63)
  {
    OneBit(g);
    OneBit(h);
  }

  lemma OneBit(h: bv64)
    ensures h >> 63 == 0 || h >> 63 == 1
  {
  }

  lemma IndexInjective(x: bv64, y: bv64)
    requires x <= 15 && y <= 15 && Index(x) == Index(y)
    ensures x == y
  {
  }

  lemma LowHalf(g: bv64, h: bv64)
    requires g & 7 == h & 7
    requires Low4(g >> 3) == Low4(h >> 3) && Low4(g >> 7) == Low4(h >> 7) && Low4(g >> 11) == Low4(h >> 11) && Low4(g >> 15) == Low4(h >> 15)
    requires Low4(g >> 19) == Low4(h >> 19) && Low4(g >> 23) == Low4(h >> 23) && Low4(g >> 27) == Low4(h >> 27) && Low4(g >> 31) == Low4(h >> 31)
    ensures g & 0x7_FFFF_FFFF == h & 0x7_FFFF_FFFF
  {
  }

  lemma HighHalf(g: bv64, h: bv64)
    requires g & 0x7_FFFF_FFFF == h & 0x7_FFFF_FFFF
    requires Low4(g >> 35) == Low4(h >> 35) && Low4(g >> 39) == Low4(h >> 39) && Low4(g >> 43) == Low4(h >> 43) && Low4(g >> 47) == Low4(h >> 47)
    requires Low4(g >> 51) == Low4(h >> 51) && Low4(g >> 55) == Low4(h >> 55) && Low4(g >> 59) == Low4(h >> 59) && Low4(g >> 63) == Low4(h >> 63)
    ensures g == h
  {
  }

  lemma BitsDetermine(sch: Scheme, g: bv64, h: bv64)
    requires g & 7 == h & 7
    requires forall d: nat :: d < DEPTH_MAX ==> Bits(sch, g, d) == Bits(sch, h, d)
    ensures g == h
  {
    hide Low4;
    assert Bits(sch, g, 0) == Bits(sch, h, 0) && Bits(sch, g, 1) == Bits(sch, h, 1) && Bits(sch, g, 2) == Bits(sch, h, 2);
    assert Bits(sch, g, 3) == Bits(sch, h, 3) && Bits(sch, g, 4) == Bits(sch, h, 4) && Bits(sch, g, 5) == Bits(sch, h, 5);
    assert Bits(sch, g, 6) == Bits(sch, h, 6) && Bits(sch, g, 7) == Bits(sch, h, 7) && Bits(sch, g, 8) == Bits(sch, h, 8);
    assert Bits(sch, g, 9) == Bits(sch, h, 9) && Bits(sch, g, 10) == Bits(sch, h, 10) && Bits(sch, g, 11) == Bits(sch, h, 11);
    assert Bits(sch, g, 12) == Bits(sch, h, 12) && Bits(sch, g, 13) == Bits(sch, h, 13) && Bits(sch, g, 14) == Bits(sch, h, 14);
    assert Bits(sch, g, 15) == Bits(sch, h, 15);
    TopBit(sch, g, h);
    LowHalf(g, h);
    HighHalf(g, h);
  }

  /** Two different keys differ in one of their sixteen digits. */
  lemma DigitsDiffer(sch: Scheme, x: Key, y: Key)
    requires IsKey(x) && IsKey(y) && x != y
    ensures exists d: nat :: d < DEPTH_MAX && Digit(sch, x, d) != Digit(sch, y, d)
  {
    if forall d: nat :: d < DEPTH_MAX ==> Digit(sch, x, d) == Digit(sch, y, d) {
      forall d: nat | d < DEPTH_MAX ensures Bits(sch, Hash(sch, x.bits), d) == Bits(sch, Hash(sch, y.bits), d) {
        assert Digit(sch, x, d) == Digit(sch, y, d);
        IndexInjective(Bits(sch, Hash(sch, x.bits), d), Bits(sch, Hash(sch, y.bits), d));
      }
      LowBits(sch, x.bits);
      LowBits(sch, y.bits);
      BitsDetermine(sch, Hash(sch, x.bits), Hash(sch, y.bits));
      HashInjective(sch, x.bits, y.bits);
      assert false;
    }
  }
}
