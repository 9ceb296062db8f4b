/** The 80-byte block header: little-endian fields written by one verifier and sliced by the other. */
module BlockHeader {
  import opened Prelude
  import opened LittleEndian

  /** The fields of a `getblockheader` answer; hashes are in display order, the reverse of the wire. */
  datatype Fields = Fields(
    version: int, previous: Option<bytes>, merkle: bytes, time: nat, bits: nat, nonce: nat)

  function Reversed(b: bytes): (r: bytes)
    ensures |r| == |b|
  {
    if b == [] then [] else Reversed(b[1..]) + [b[0]]
  }

  lemma {:induction false} ReversedAppend(a: bytes, x: byte)
    ensures Reversed(a + [x]) == [x] + Reversed(a)
  {
    if a != [] {
      ReversedAppend(a[1..], x);
      assert (a + [x])[1..] == a[1..] + [x];
    } else {
      assert a + [x] == [x] && ([x])[1..] == [];
    }
  }

  lemma {:induction false} ReversedTwice(b: bytes)
    ensures Reversed(Reversed(b)) == b
  {
    if b != [] {
      ReversedTwice(b[1..]);
      ReversedAppend(Reversed(b[1..]), b[0]);
    }
  }

  function Zeros(n: nat): (z: bytes)
    ensures |z| == n
  {
    seq(n, i => 0)
  }

  /** What the field checks of `_serialize_header` let through. */
  predicate Wellformed(f: Fields, height: nat) {
    && -0x8000_0000 <= f.version < 0x8000_0000
    && (f.previous.None? ==> height == 0)
    && (f.previous.Some? ==> |f.previous.value| == 32)
    && |f.merkle| == 32 && Word(f.time) && Word(f.bits) && Word(f.nonce)
  }

  /** `_serialize_header`; `None` is the malformed-header error.  A signed version is packed in two's complement. */
  function Serialize(f: Fields, height: nat): (r: Option<bytes>)
    ensures r.Some? ==> |r.value| == 80
  {
    if !Wellformed(f, height) then None
    else
      var version := if f.version < 0 then f.version + 0x1_0000_0000 else f.version;
      var previous := if f.previous.None? then Zeros(32) else Reversed(f.previous.value);
      Some(Le4(version) + previous + Reversed(f.merkle) + Le4(f.time) + Le4(f.bits) + Le4(f.nonce))
  }

  // ---------------------------------------------------------------- the slices of `_verify_header`

  function MerkleOf(h: bytes): bytes
    requires |h| == 80
  { h[36..68] }

  function TimeOf(h: bytes): nat
    requires |h| == 80
  { FromLe(h[68..72]) }

  function BitsOf(h: bytes): nat
    requires |h| == 80
  { FromLe(h[72..76]) }

  /** The other verifier's slices recover merkle root, time and bits of every serialized header. */
  lemma SlicesRecover(f: Fields, height: nat)
    requires Wellformed(f, height)
    ensures var h := Serialize(f, height).value;
            MerkleOf(h) == Reversed(f.merkle) && TimeOf(h) == f.time && BitsOf(h) == f.bits
  {
    var h := Serialize(f, height).value;
    assert h[68..72] == Le4(f.time);
    assert h[72..76] == Le4(f.bits);
    Le4RoundTrip(f.time);
    Le4RoundTrip(f.bits);
  }

  /** The parent a header names; the first block's missing one is the zero hash. */
  function Parent(f: Fields): bytes { if f.previous.None? then Zeros(32) else f.previous.value }

  lemma {:induction false} ReversedZeros(n: nat)
    ensures Reversed(Zeros(n)) == Zeros(n)
  {
    if n > 0 {
      assert Zeros(n)[1..] == Zeros(n - 1);
      ReversedZeros(n - 1);
      assert Zeros(n - 1) + [0] == Zeros(n);
    }
  }

  /**
   The header says everything: two field lists have the same bytes at the same height exactly when they agree in every
   field, where a missing parent counts as the zero hash.  Above height 0 they are then the same list.
   */
  lemma SerializeInjective(f: Fields, g: Fields, height: nat)
    requires Wellformed(f, height) && Wellformed(g, height)
    ensures Serialize(f, height) == Serialize(g, height) <==>
              f.(previous := g.previous) == g && Parent(f) == Parent(g)
    ensures height > 0 && Serialize(f, height) == Serialize(g, height) ==> f == g
  {
    ReversedZeros(32);
    if Serialize(f, height) == Serialize(g, height) { SameFields(f, g, height); }
  }

  function Unsigned(version: int): int { if version < 0 then version + 0x1_0000_0000 else version }

  /** Where each field is written. */
  lemma SlicesOf(f: Fields, height: nat)
    requires Wellformed(f, height)
    ensures var h := Serialize(f, height).value;
            && h[0..4] == Le4(Unsigned(f.version)) && h[4..36] == Reversed(Parent(f)) && h[36..68] == Reversed(f.merkle)
            && h[68..72] == Le4(f.time) && h[72..76] == Le4(f.bits) && h[76..80] == Le4(f.nonce)
  {
    ReversedZeros(32);
  }

  lemma SameWord(x: nat, y: nat)
    requires Word(x) && Word(y) && Le4(x) == Le4(y)
    ensures x == y
  {
    Le4RoundTrip(x);
    Le4RoundTrip(y);
  }

  lemma SameHash(a: bytes, b: bytes)
    requires Reversed(a) == Reversed(b)
    ensures a == b
  {
    ReversedTwice(a);
    ReversedTwice(b);
  }

  lemma SameFields(f: Fields, g: Fields, height: nat)
    requires Wellformed(f, height) && Wellformed(g, height) && Serialize(f, height) == Serialize(g, height)
    ensures f.(previous := g.previous) == g && Parent(f) == Parent(g)
  {
    SlicesOf(f, height);
    SlicesOf(g, height);
    SameWord(Unsigned(f.version), Unsigned(g.version));
    SameHash(Parent(f), Parent(g));
    SameHash(f.merkle, g.merkle);
    SameWord(f.time, g.time);
    SameWord(f.bits, g.bits);
    SameWord(f.nonce, g.nonce);
  }
}
