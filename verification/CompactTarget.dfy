/** Compact proof-of-work targets: decoding, the overflow test, and canonical re-encoding. */
module CompactTarget {
  import opened LittleEndian
  import opened Prelude

  function Pow256(n: nat): (p: nat)
    ensures p >= 1
  {
    if n == 0 then 1 else 256 * Pow256(n - 1)
  }

  const TOP_BYTES: nat := 32

  const LIMIT_BYTES: nat := 26

  const POW_LIMIT: nat := 0xFFFF * Pow256(LIMIT_BYTES)

  function Exponent(c: nat): nat { c / 0x100_0000 }

  function Mantissa(c: nat): nat { c % 0x80_0000 }

  predicate Negative(c: nat) { c / 0x80_0000 % 2 == 1 }

  /** The three-way overflow test of `_compact_target`. */
  predicate Overflows(c: nat) {
    var e, m := Exponent(c), Mantissa(c);
    m != 0 && (e > 34 || (m > 0xFF && e > 33) || (m > 0xFFFF && e > 32))
  }

  function Times(m: nat, p: nat): nat { m * p }

  function Over(m: nat, p: nat): nat
    requires p >= 1
  { m / p }

  /** Shifts by whole bytes. */
  function Scaled(m: nat, e: nat): nat { if e <= 3 then Over(m, Pow256(3 - e)) else Times(m, Pow256(e - 3)) }

  /** `_compact_target`; `None` is the invalid-target error. */
  function Decode(c: nat): Option<nat> {
    if Negative(c) || Mantissa(c) == 0 || Overflows(c) then None
    else
      var target := Scaled(Mantissa(c), Exponent(c));
      if target == 0 || target > POW_LIMIT then None else Some(target)
  }

  // ---------------------------------------------------------------- powers

  lemma {:induction false} PowAdds(a: nat, b: nat)
    ensures Pow256(a + b) == Pow256(a) * Pow256(b)
  {
    if a > 0 {
      PowAdds(a - 1, b);
      assert Pow256(a + b) == 256 * Pow256(a - 1 + b);
      assert 256 * (Pow256(a - 1) * Pow256(b)) == (256 * Pow256(a - 1)) * Pow256(b);
    }
  }

  lemma {:induction false} PowGrows(a: nat, b: nat)
    requires a <= b
    ensures Pow256(a) <= Pow256(b)
  {
    if a < b { PowGrows(a, b - 1); }
  }

  lemma SmallPowers()
    ensures Pow256(1) == 0x100 && Pow256(2) == 0x1_0000 && Pow256(3) == 0x100_0000
  {
    assert Pow256(0) == 1;
    assert Pow256(1) == 256 * Pow256(0);
    assert Pow256(2) == 256 * Pow256(1);
    assert Pow256(3) == 256 * Pow256(2);
  }

  lemma Monotone(x: nat, y: nat, p: nat)
    requires x <= y
    ensures x * p <= y * p
  {
  }

  // ---------------------------------------------------------------- the overflow test is exact

  /**
   A product of at most three bytes and a power of 256 reaches a higher power exactly when it has the bytes for it.
  */
  lemma ReachesPower(m: nat, k: nat, n: nat, j: nat)
    requires 0 < m && j <= n && k + j == n
    ensures m * Pow256(k) >= Pow256(n) <==> m >= Pow256(j)
  {
    PowAdds(j, k);
    assert Pow256(n) == Pow256(j) * Pow256(k);
    if m >= Pow256(j) { Monotone(Pow256(j), m, Pow256(k)); }
    else { Monotone(m + 1, Pow256(j), Pow256(k)); assert (m + 1) * Pow256(k) == m * Pow256(k) + Pow256(k); }
  }

  lemma ReachesTopHigh(m: nat, k: nat, top: nat)
    requires 0 < m && k >= top
    ensures m * Pow256(k) >= Pow256(top)
  {
    PowGrows(top, k);
    Monotone(1, m, Pow256(k));
  }

  lemma ReachesTopLow(m: nat, k: nat, top: nat)
    requires 0 < m < 0x80_0000 && k + 3 < top
    ensures m * Pow256(k) < Pow256(top)
  {
    SmallPowers();
    PowGrows(k, top - 3);
    ReachesPower(m, top - 3, top, 3);
    Monotone(Pow256(k), Pow256(top - 3), m);
  }

  lemma ReachesTop(m: nat, k: nat, top: nat)
    requires 0 < m < 0x80_0000 && top >= 3
    ensures m * Pow256(k) >= Pow256(top) <==> k >= top || (m > 0xFF && k + 1 >= top) || (m > 0xFFFF && k + 2 >= top)
  {
    if k >= top { ReachesTopHigh(m, k, top); }
    else if k + 3 < top { ReachesTopLow(m, k, top); }
    else { ReachesPower(m, k, top, top - k); ThreeThresholds(top - k); }
  }

  lemma ThreeThresholds(j: nat)
    requires 1 <= j <= 3
    ensures Pow256(j) == if j == 1 then 0x100 else if j == 2 then 0x1_0000 else 0x100_0000
  {
    SmallPowers();
  }

  /** The test holds exactly when the value it stands for does not fit 256 bits. */
  lemma OverflowIsExact(c: nat)
    requires Word(c)
    ensures Overflows(c) <==> Exponent(c) >= 3 && Mantissa(c) * Pow256(Exponent(c) - 3) >= Pow256(TOP_BYTES)
  {
    var e, m := Exponent(c), Mantissa(c);
    if m > 0 && e >= 3 { ReachesTop(m, e - 3, TOP_BYTES); }
  }

  /** Every accepted value is a positive target of at most the main-network limit. */
  lemma AcceptedRange(c: nat)
    requires Word(c) && Decode(c).Some?
    ensures 1 <= Decode(c).value <= POW_LIMIT < Pow256(TOP_BYTES)
  {
    LimitFits();
  }

  /** The number a compact word stands for: three bytes, shifted by the exponent in whole bytes. */
  function Value(c: nat): nat {
    var e, m := c / 0x100_0000, c % 0x80_0000;
    if e >= 3 then m * Pow256(e - 3) else m / Pow256(3 - e)
  }

  lemma ScaledIsValue(c: nat)
    ensures Scaled(Mantissa(c), Exponent(c)) == Value(c)
  {
    assert Pow256(0) == 1;
  }

  /** What overflows is beyond the limit, too. */
  lemma OverflowIsBeyond(c: nat)
    requires Word(c) && Overflows(c)
    ensures Value(c) > POW_LIMIT
  {
    OverflowIsExact(c);
    LimitFits();
  }

  /** A word is accepted exactly when its sign bit is clear and its value is positive and within the limit. */
  lemma DecodesExactly(c: nat)
    requires Word(c)
    ensures Decode(c) == if c / 0x80_0000 % 2 == 0 && 0 < Value(c) <= POW_LIMIT then Some(Value(c)) else None
    ensures POW_LIMIT == 0xFFFF * Pow256(26)
  {
    ScaledIsValue(c);
    if Overflows(c) { OverflowIsBeyond(c); }
    if Mantissa(c) == 0 { NoMantissa(c); }
  }

  lemma NoMantissa(c: nat)
    requires Mantissa(c) == 0
    ensures Value(c) == 0
  {
  }

  lemma LimitFits()
    ensures POW_LIMIT < Pow256(TOP_BYTES)
  {
    SmallPowers();
    PowAdds(2, LIMIT_BYTES);
    Monotone(0xFFFF, Pow256(2), Pow256(LIMIT_BYTES));
    PowGrows(2 + LIMIT_BYTES, TOP_BYTES);
    assert 0xFFFF * Pow256(LIMIT_BYTES) < Pow256(2 + LIMIT_BYTES);
  }

  // ---------------------------------------------------------------- canonical re-encoding

  /** The number of bytes a value needs. */
  function Size(t: nat): nat { if t == 0 then 0 else 1 + Size(t / 256) }

  /** The shortest compact form: three leading bytes, moved down one byte where the sign bit would be set. */
  function Encode(t: nat): nat {
    var size := Size(t);
    var m := if size <= 3 then t * Pow256(3 - size) else t / Pow256(size - 3);
    if m >= 0x80_0000 then (m / 256) + 0x100_0000 * (size + 1) else m + 0x100_0000 * size
  }

  lemma {:induction false} SizeOfProduct(m: nat, k: nat)
    requires m > 0
    ensures Size(m * Pow256(k)) == Size(m) + k
    decreases k
  {
    if k > 0 {
      SizeOfProduct(m, k - 1);
      var t := m * Pow256(k - 1);
      assert m * Pow256(k) == 256 * t by { assert m * (256 * Pow256(k - 1)) == 256 * (m * Pow256(k - 1)); }
      assert (256 * t) / 256 == t;
      assert t > 0 by { Monotone(1, m, Pow256(k - 1)); }
    }
  }

  lemma SizeOfMantissa(m: nat)
    requires 0 < m < 0x100_0000
    ensures Size(m) == if m < 0x100 then 1 else if m < 0x1_0000 then 2 else 3
  {
    assert Size(m) == 1 + Size(m / 256);
    if m >= 0x100 {
      assert Size(m / 256) == 1 + Size(m / 256 / 256);
      if m >= 0x1_0000 { assert Size(m / 256 / 256) == 1 + Size(m / 256 / 256 / 256); }
    }
  }

  /** `t` is `m` moved up by `k` bytes, and `m` fits a mantissa. */
  ghost predicate Spread(t: nat, m: nat, k: nat) { 0 < m < 0x80_0000 && t == m * Pow256(k) }

  lemma OneMore(x: nat, p: nat)
    ensures (x + 1) * p == x * p + p
  {
  }

  lemma DivideOut(x: nat, p: nat)
    requires p > 0
    ensures x * p / p == x
  {
    var q, r := x * p / p, x * p % p;
    assert x * p == q * p + r && 0 <= r < p;
    OneMore(x, p);
    OneMore(q, p);
    if x > q { Monotone(q + 1, x, p); }
    if x < q { Monotone(x + 1, q, p); }
  }

  lemma Regroup(x: nat, a: nat, b: nat)
    ensures x * Pow256(a + b) == (x * Pow256(a)) * Pow256(b)
  {
    PowAdds(a, b);
    Associates(x, Pow256(a), Pow256(b));
  }

  lemma Associates(x: nat, y: nat, z: nat)
    ensures x * (y * z) == (x * y) * z
  {
  }

  lemma ScaledUp(m: nat, e: nat)
    requires e >= 3
    ensures Scaled(m, e) == m * Pow256(e - 3)
  {
    if e == 3 { Identity(m); }
  }

  lemma Identity(m: nat)
    ensures m / Pow256(0) == m == m * Pow256(0)
  {
  }

  /** A decoded target has at most three significant bytes, the first of them below 0x80 when there are three. */
  lemma Significant(c: nat)
    requires Word(c) && Decode(c).Some?
    ensures exists m: nat, k: nat :: Spread(Decode(c).value, m, k)
  {
    var e, m := Exponent(c), Mantissa(c);
    if e >= 3 {
      ScaledUp(m, e);
      assert Spread(Decode(c).value, m, e - 3);
    } else {
      Shrinks(m, Pow256(3 - e));
      var t := Decode(c).value;
      Identity(t);
      assert Spread(t, t, 0);
    }
  }

  lemma Shrinks(m: nat, p: nat)
    requires p > 0
    ensures m / p <= m
  {
    var q := m / p;
    Monotone(1, p, q);
  }

  /** The canonical form keeps as many bytes as `m` leaves room for below the sign bit. */
  function Shift(m: nat): nat { if m < 0x80 then 2 else if m < 0x8000 then 1 else 0 }

  /** The three leading bytes of `m * 256^k`. */
  lemma LeadingBytes(m: nat, k: nat, size: nat)
    requires 0 < m < 0x80_0000 && size == Size(m) + k
    ensures Size(m) <= 3
    ensures size <= 3 ==> m * Pow256(k) * Pow256(3 - size) == m * Pow256(3 - Size(m))
    ensures size > 3 ==> m * Pow256(k) / Pow256(size - 3) == m * Pow256(3 - Size(m))
  {
    SizeOfMantissa(m);
    var s := Size(m);
    if size <= 3 {
      Regroup(m, k, 3 - size);
    } else {
      Regroup(m, 3 - s, size - 3);
      DivideOut(m * Pow256(3 - s), Pow256(size - 3));
    }
  }

  /** Decoding a mantissa of `m * 256^j` under an exponent lowered by `j` gives the same value. */
  lemma ScaledBack(m: nat, k: nat, j: nat)
    requires j <= 2
    ensures Scaled(m * Pow256(j), k + 3 - j) == m * Pow256(k)
  {
    if k <= j {
      Regroup(m, k, j - k);
      DivideOut(m * Pow256(k), Pow256(j - k));
    } else {
      Regroup(m, j, k - j);
    }
  }

  lemma EncodesTo(m: nat, k: nat)
    requires 0 < m < 0x80_0000
    ensures Encode(m * Pow256(k)) == m * Pow256(Shift(m)) + 0x100_0000 * (k + 3 - Shift(m))
    ensures 0 < m * Pow256(Shift(m)) < 0x80_0000
  {
    SizeOfProduct(m, k);
    LeadingBytes(m, k, Size(m) + k);
    SizeOfMantissa(m);
    SmallPowers();
    Identity(m);
  }

  lemma FieldsOf(m: nat, e: nat)
    requires m < 0x80_0000
    ensures var c := m + 0x100_0000 * e; Exponent(c) == e && Mantissa(c) == m && !Negative(c)
  {
  }

  /** A target within the limit has a small exponent, so its canonical form is a word. */
  lemma SmallExponent(m: nat, k: nat, top: nat)
    requires 0 < m && m * Pow256(k) < Pow256(top)
    ensures k < top
  {
    if k >= top { PowGrows(top, k); Monotone(1, m, Pow256(k)); }
  }

  lemma DecodesTo(c: nat, t: nat)
    requires Word(c) && !Negative(c) && 0 < Mantissa(c) < 0x80_0000 && Scaled(Mantissa(c), Exponent(c)) == t
    requires 0 < t <= POW_LIMIT && t < Pow256(TOP_BYTES)
    ensures Decode(c) == Some(t)
  {
    OverflowIsExact(c);
    if Exponent(c) >= 3 { ScaledUp(Mantissa(c), Exponent(c)); }
  }

  /** A word with these fields decodes to what they stand for. */
  lemma DecodesFields(c: nat, m: nat, e: nat, t: nat)
    requires c == m + 0x100_0000 * e && 0 < m < 0x80_0000 && e < 0x100 && Scaled(m, e) == t
    requires 0 < t <= POW_LIMIT && t < Pow256(TOP_BYTES)
    ensures Word(c) && Decode(c) == Some(t)
  {
    FieldsOf(m, e);
    DecodesTo(c, t);
  }

  /** The canonical form of a target within the limit is a word that decodes to it. */
  lemma CanonicalOf(m: nat, k: nat, t: nat)
    requires Spread(t, m, k) && t <= POW_LIMIT && t < Pow256(TOP_BYTES)
    ensures Word(Encode(t)) && Decode(Encode(t)) == Some(t)
  {
    EncodesTo(m, k);
    SmallExponent(m, k, TOP_BYTES);
    Positive(m, Pow256(k));
    assert Scaled(m * Pow256(Shift(m)), k + 3 - Shift(m)) == t by { ScaledBack(m, k, Shift(m)); }
    DecodesFields(Encode(t), m * Pow256(Shift(m)), k + 3 - Shift(m), t);
  }

  lemma Positive(m: nat, p: nat)
    requires m > 0 && p > 0
    ensures m * p > 0
  {
  }

  /** Re-encoding an accepted target canonically, and decoding again, gives the target back. */
  lemma CanonicalRoundTrip(c: nat)
    requires Word(c) && Decode(c).Some?
    ensures Word(Encode(Decode(c).value)) && Decode(Encode(Decode(c).value)) == Decode(c)
  {
    Significant(c);
    var t := Decode(c).value;
    var m: nat, k: nat :| Spread(t, m, k);
    AcceptedRange(c);
    CanonicalOf(m, k, t);
  }
}
