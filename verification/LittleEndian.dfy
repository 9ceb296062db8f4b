/** Little-endian numbers. */
module LittleEndian {
  import opened Prelude

  predicate Word(x: int) { 0 <= x < 0x1_0000_0000 }

  /** `struct.pack("<I", x)`. */
  function Le4(x: nat): (b: bytes)
    requires Word(x)
    ensures |b| == 4
  {
    [x % 256, x / 256 % 256, x / 0x1_0000 % 256, x / 0x100_0000]
  }

  /** `int.from_bytes(b, "little")`. */
  function FromLe(b: bytes): nat { if b == [] then 0 else b[0] + 256 * FromLe(b[1..]) }

  lemma FromLeStep(first: byte, rest: bytes)
    ensures FromLe([first] + rest) == first as int + 256 * FromLe(rest)
  {
    assert ([first] + rest)[1..] == rest;
  }

  /** The four digits to the base 256. */
  lemma Le4Digits(x: nat)
    requires Word(x)
    ensures var b := Le4(x);
            x == b[0] as int + 256 * (b[1] as int) + 0x1_0000 * (b[2] as int) + 0x100_0000 * (b[3] as int)
  {
    var y := x / 256;
    var z := y / 256;
    assert x / 0x1_0000 == z && x / 0x100_0000 == z / 256 && z / 256 < 256;
    assert x == 256 * y + x % 256 && y == 256 * z + y % 256 && z == 256 * (z / 256) + z % 256;
  }

  lemma Le4RoundTrip(x: nat)
    requires Word(x)
    ensures FromLe(Le4(x)) == x
  {
    var b := Le4(x);
    var b0: int, b1: int, b2: int, b3: int := b[0], b[1], b[2], b[3];
    FromLeStep(b[0], [b[1], b[2], b[3]]);
    FromLeStep(b[1], [b[2], b[3]]);
    FromLeStep(b[2], [b[3]]);
    FromLeStep(b[3], []);
    assert FromLe(b) == b0 + 256 * (b1 + 256 * (b2 + 256 * b3));
    Le4Digits(x);
  }

  /** `struct.pack("<H", x)`. */
  function Le2(x: nat): (b: bytes)
    requires x < 0x1_0000
    ensures |b| == 2
  {
    [x % 256, x / 256]
  }
}
