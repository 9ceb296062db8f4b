/** Order references: a 48-bit time and 80 random bits as 26 base-32 digits in an alphabet without I, L, O and U. */
module OrderReference {
  import opened Prelude

  const DIGITS: nat := 26
  const TIME_SPAN: nat := 0x1_0000_0000_0000
  const RANDOM_SPAN: nat := 0x1_0000_0000_0000_0000_0000

  /** The alphabet, in ascending character order. */
  function Symbol(d: nat): char
    requires d < 32
  {
    var code :=
      if d < 10 then '0' as int + d
      else if d < 18 then 'A' as int + d - 10
      else if d < 20 then 'J' as int + d - 18
      else if d < 22 then 'M' as int + d - 20
      else if d < 27 then 'P' as int + d - 22
      else 'V' as int + d - 27;
    code as char
  }

  function Pow32(n: nat): (p: nat)
    ensures p >= 1
  {
    if n == 0 then 1 else 32 * Pow32(n - 1)
  }

  /** `int.from_bytes(b, "big")`. */
  function FromBig(b: bytes): nat { if b == [] then 0 else 256 * FromBig(b[..|b| - 1]) + b[|b| - 1] as int }

  /** The k-th of n digits: the shift and mask of `_new_order_reference`. */
  function DigitAt(value: nat, n: nat, k: nat): (d: nat)
    requires k < n
    ensures d < 32
  { value / Pow32(n - 1 - k) % 32 }

  predicate Base32(ds: seq<nat>) { forall k :: 0 <= k < |ds| ==> ds[k] < 32 }

  function Digits(value: nat, n: nat): (ds: seq<nat>)
    ensures |ds| == n && Base32(ds)
  {
    seq(n, k requires 0 <= k < n => DigitAt(value, n, k))
  }

  function Text(ds: seq<nat>): (t: string)
    requires Base32(ds)
    ensures |t| == |ds| && forall k :: 0 <= k < |ds| ==> t[k] == Symbol(ds[k])
  {
    seq(|ds|, k requires 0 <= k < |ds| => Symbol(ds[k]))
  }

  function Value(ms: nat, random: bytes): nat
    requires |random| >= 10
  { (ms % TIME_SPAN) * RANDOM_SPAN + FromBig(random[..10]) }

  /** `_new_order_reference`, for a time in milliseconds. */
  function NewOrderReference(ms: nat, random: bytes): Option<string> {
    if |random| < 10 then None else Some("ts_" + Text(Digits(Value(ms, random), DIGITS)))
  }

  // ---------------------------------------------------------------- digits and values

  function FromDigits(ds: seq<nat>): nat { if ds == [] then 0 else 32 * FromDigits(ds[..|ds| - 1]) + ds[|ds| - 1] }

  lemma DivideTwice(v: nat, p: nat)
    requires p > 0
    ensures v / (32 * p) == v / 32 / p
  {
    var q := v / 32 / p;
    var r1, r2 := v % 32, v / 32 % p;
    assert v == 32 * (v / 32) + r1 && v / 32 == q * p + r2;
    assert v == q * (32 * p) + (32 * r2 + r1) by { assert 32 * (q * p) == q * (32 * p); }
    QuotientIs(v, 32 * p, q, 32 * r2 + r1);
  }

  lemma QuotientIs(v: nat, p: nat, q: nat, r: nat)
    requires v == q * p + r && r < p
    ensures v / p == q
  {
    var d, m := v / p, v % p;
    assert v == d * p + m;
    if d > q { Larger(q, d, p); }
    if d < q { Larger(d, q, p); }
  }

  lemma Larger(a: nat, b: nat, p: nat)
    requires a < b
    ensures b * p >= a * p + p
  {
    assert b * p == (a + 1) * p + (b - a - 1) * p;
    assert (b - a - 1) * p >= 0;
  }

  /** Dropping the last digit is dividing by the base. */
  lemma DigitsFront(v: nat, n: nat)
    requires n > 0
    ensures Digits(v, n)[..n - 1] == Digits(v / 32, n - 1) && Digits(v, n)[n - 1] == v % 32
  {
    forall k | 0 <= k < n - 1 ensures DigitAt(v, n, k) == DigitAt(v / 32, n - 1, k) {
      DivideTwice(v, Pow32(n - 2 - k));
    }
  }

  lemma {:induction false} DigitsRoundTrip(v: nat, n: nat)
    requires v < Pow32(n)
    ensures FromDigits(Digits(v, n)) == v
    decreases n
  {
    if n > 0 {
      DigitsFront(v, n);
      DigitsRoundTrip(v / 32, n - 1);
    }
  }

  /** Alphabetic order of equally long texts. */
  predicate Before(a: string, b: string)
    requires |a| == |b|
    decreases |a|
  {
    a != [] && (a[0] < b[0] || (a[0] == b[0] && Before(a[1..], b[1..])))
  }

  lemma SymbolOrder(d: nat, e: nat)
    requires d < 32 && e < 32
    ensures Symbol(d) < Symbol(e) <==> d < e
    ensures Symbol(d) == Symbol(e) <==> d == e
  {
  }

  /** The order is decided by the front, and by the last character when the fronts are equal. */
  lemma {:induction false} BeforeByFront(a: string, b: string)
    requires |a| == |b| > 0
    ensures var n := |a| - 1;
            Before(a, b) <==> Before(a[..n], b[..n]) || (a[..n] == b[..n] && a[n] < b[n])
    decreases |a|
  {
    var n := |a| - 1;
    if n > 0 {
      BeforeByFront(a[1..], b[1..]);
      assert a[..n][1..] == a[1..][..n - 1] && b[..n][1..] == b[1..][..n - 1];
      assert a[..n] == [a[0]] + a[1..][..n - 1] && b[..n] == [b[0]] + b[1..][..n - 1];
      assert a[1..][n - 1] == a[n] && b[1..][n - 1] == b[n];
    } else {
      assert a[..0] == [] && b[..0] == [];
      assert !Before(a[1..], b[1..]);
    }
  }

  lemma TextFront(ds: seq<nat>)
    requires Base32(ds) && ds != []
    ensures Text(ds)[..|ds| - 1] == Text(ds[..|ds| - 1])
  {
  }

  /** Digit texts compare by their fronts, then by their last digits. */
  lemma TextByFront(ds: seq<nat>, es: seq<nat>)
    requires Base32(ds) && Base32(es) && |ds| == |es| > 0
    ensures var n := |ds| - 1;
            && (Before(Text(ds), Text(es)) <==>
                  Before(Text(ds[..n]), Text(es[..n])) || (Text(ds[..n]) == Text(es[..n]) && ds[n] < es[n]))
            && (Text(ds) == Text(es) <==> Text(ds[..n]) == Text(es[..n]) && ds[n] == es[n])
  {
    var n := |ds| - 1;
    SymbolOrder(ds[n], es[n]);
    BeforeByFront(Text(ds), Text(es));
    TextFront(ds);
    TextFront(es);
    assert Text(ds) == Text(ds)[..n] + [Text(ds)[n]] && Text(es) == Text(es)[..n] + [Text(es)[n]];
  }

  lemma ByQuotient(v: nat, u: nat)
    ensures v < u <==> v / 32 < u / 32 || (v / 32 == u / 32 && v % 32 < u % 32)
    ensures v == u <==> v / 32 == u / 32 && v % 32 == u % 32
  {
  }

  /** Digit texts sort as the numbers do. */
  lemma {:induction false} TextOrder(v: nat, u: nat, n: nat)
    requires v < Pow32(n) && u < Pow32(n)
    ensures Before(Text(Digits(v, n)), Text(Digits(u, n))) <==> v < u
    ensures Text(Digits(v, n)) == Text(Digits(u, n)) <==> v == u
    decreases n
  {
    if n > 0 {
      DigitsFront(v, n);
      DigitsFront(u, n);
      TextOrder(v / 32, u / 32, n - 1);
      TextByFront(Digits(v, n), Digits(u, n));
      ByQuotient(v, u);
    }
  }

  // ---------------------------------------------------------------- the references

  lemma {:induction false} FromBigBound(b: bytes)
    ensures FromBig(b) < Pow256Of(|b|)
  {
    if b != [] { FromBigBound(b[..|b| - 1]); }
  }

  function Pow256Of(n: nat): nat { if n == 0 then 1 else 256 * Pow256Of(n - 1) }

  lemma TenBytes()
    ensures Pow256Of(10) == RANDOM_SPAN
  {
    assert Pow256Of(5) == 0x100_0000_0000;
    assert Pow256Of(10) == 256 * 256 * 256 * 256 * 256 * Pow256Of(5);
  }

  lemma ValueFits(ms: nat, random: bytes)
    requires |random| >= 10
    ensures Value(ms, random) < TIME_SPAN * RANDOM_SPAN <= Pow32(DIGITS)
    ensures Value(ms, random) / RANDOM_SPAN == ms % TIME_SPAN
    ensures Value(ms, random) % RANDOM_SPAN == FromBig(random[..10])
  {
    FromBigBound(random[..10]);
    TenBytes();
    assert Pow32(13) == 0x2_0000_0000_0000_0000;
    assert Pow32(26) == 32 * 32 * 32 * 32 * 32 * 32 * 32 * 32 * 32 * 32 * 32 * 32 * 32 * Pow32(13);
  }

  function FromSymbol(c: char): Option<nat> {
    if '0' <= c <= '9' then Some(c as int - '0' as int)
    else if 'A' <= c <= 'H' then Some(c as int - 'A' as int + 10)
    else if 'J' <= c <= 'K' then Some(c as int - 'J' as int + 18)
    else if 'M' <= c <= 'N' then Some(c as int - 'M' as int + 20)
    else if 'P' <= c <= 'T' then Some(c as int - 'P' as int + 22)
    else if 'V' <= c <= 'Z' then Some(c as int - 'V' as int + 27)
    else None
  }

  function FromText(t: string): Option<seq<nat>> {
    if t == "" then Some([])
    else
      match (FromText(t[..|t| - 1]), FromSymbol(t[|t| - 1]))
      case (Some(front), Some(d)) => Some(front + [d])
      case _ => None
  }

  lemma SymbolRoundTrip(d: nat)
    requires d < 32
    ensures FromSymbol(Symbol(d)) == Some(d)
  {
  }

  lemma {:induction false} TextRoundTrip(ds: seq<nat>)
    requires Base32(ds)
    ensures FromText(Text(ds)) == Some(ds)
  {
    if ds != [] {
      TextFront(ds);
      TextRoundTrip(ds[..|ds| - 1]);
      SymbolRoundTrip(ds[|ds| - 1]);
      assert ds == ds[..|ds| - 1] + [ds[|ds| - 1]];
    }
  }

  /** What the characters of a reference say: the number they spell, split into time and random part. */
  function Decode(reference: string): Option<(nat, nat)> {
    if |reference| != 3 + DIGITS || reference[..3] != "ts_" then None
    else
      match FromText(reference[3..])
      case None => None
      case Some(ds) => Some((FromDigits(ds) / RANDOM_SPAN, FromDigits(ds) % RANDOM_SPAN))
  }

  /** A reference decodes back to its time, modulo 2^48 milliseconds, and to its ten random bytes. */
  lemma ReferenceDecodes(ms: nat, random: bytes)
    requires |random| >= 10
    ensures NewOrderReference(ms, random).Some? && |NewOrderReference(ms, random).value| == 29
    ensures Decode(NewOrderReference(ms, random).value) == Some((ms % TIME_SPAN, FromBig(random[..10])))
  {
    ValueFits(ms, random);
    DigitsRoundTrip(Value(ms, random), DIGITS);
    TextRoundTrip(Digits(Value(ms, random), DIGITS));
    var reference := NewOrderReference(ms, random).value;
    assert reference[3..] == Text(Digits(Value(ms, random), DIGITS)) && reference[..3] == "ts_";
  }

  /** References sort as the pairs of time and random part do, and are equal only when both parts are. */
  lemma ReferencesSort(ms: nat, random: bytes, ms': nat, random': bytes)
    requires |random| >= 10 && |random'| >= 10
    ensures var (t, r, t', r') := (ms % TIME_SPAN, FromBig(random[..10]), ms' % TIME_SPAN, FromBig(random'[..10]));
            var (a, b) := (NewOrderReference(ms, random).value[3..], NewOrderReference(ms', random').value[3..]);
            && (Before(a, b) <==> t < t' || (t == t' && r < r'))
            && (a == b <==> t == t' && r == r')
  {
    ValueFits(ms, random);
    ValueFits(ms', random');
    TextOrder(Value(ms, random), Value(ms', random'), DIGITS);
    assert NewOrderReference(ms, random).value[3..] == Text(Digits(Value(ms, random), DIGITS));
    assert NewOrderReference(ms', random').value[3..] == Text(Digits(Value(ms', random'), DIGITS));
  }
}
