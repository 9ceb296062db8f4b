/** Idempotency keys: unpadded base64url (section 5 of RFC 4648) of 16 to 64 bytes, in its one canonical spelling. */
module IdempotencyKey {
  import opened Prelude

  type sextet = n: int | 0 <= n < 64

  const MIN_BYTES: nat := 16
  const MAX_BYTES: nat := 64

  /** The base64url alphabet. */
  function Symbol(s: sextet): char {
    if s < 26 then ('A' as int + s) as char
    else if s < 52 then ('a' as int + s - 26) as char
    else if s < 62 then ('0' as int + s - 52) as char
    else if s == 62 then '-' else '_'
  }

  function FromSymbol(c: char): Option<sextet> {
    if 'A' <= c <= 'Z' then Some(c as int - 'A' as int)
    else if 'a' <= c <= 'z' then Some(c as int - 'a' as int + 26)
    else if '0' <= c <= '9' then Some(c as int - '0' as int + 52)
    else if c == '-' then Some(62)
    else if c == '_' then Some(63)
    else None
  }

  function Text(ss: seq<sextet>): (t: string)
    ensures |t| == |ss|
  {
    if ss == [] then [] else [Symbol(ss[0])] + Text(ss[1..])
  }

  function FromText(t: string): (r: Option<seq<sextet>>)
    ensures r.Some? ==> |r.value| == |t|
  {
    if t == [] then Some([])
    else
      match (FromSymbol(t[0]), FromText(t[1..]))
      case (Some(s), Some(rest)) => Some([s] + rest)
      case _ => None
  }

  /**
   `urlsafe_b64encode` without its padding: three bytes make four sextets, a rest of one or two makes two or three.
  */
  function Encode(b: bytes): seq<sextet> {
    if |b| == 0 then []
    else if |b| == 1 then [b[0] / 4, b[0] % 4 * 16]
    else if |b| == 2 then [b[0] / 4, b[0] % 4 * 16 + b[1] / 16, b[1] % 16 * 4]
    else [b[0] / 4, b[0] % 4 * 16 + b[1] / 16, b[1] % 16 * 4 + b[2] / 64, b[2] % 64] + Encode(b[3..])
  }

  /** The bytes spread over neighbouring sextets. */
  function First(a: sextet, b: sextet): byte { (a as int) * 4 + (b as int) / 16 }
  function Second(b: sextet, c: sextet): byte { (b as int) % 16 * 16 + (c as int) / 4 }
  function Third(c: sextet, d: sextet): byte { (c as int) % 4 * 64 + (d as int) }

  /** `b64decode`: surplus low bits of the last sextet are dropped, a single left-over sextet is an error. */
  function Decode(s: seq<sextet>): Option<bytes> {
    if |s| == 0 then Some([])
    else if |s| == 1 then None
    else if |s| == 2 then Some([First(s[0], s[1])])
    else if |s| == 3 then Some([First(s[0], s[1]), Second(s[1], s[2])])
    else
      match Decode(s[4..])
      case None => None
      case Some(rest) => Some([First(s[0], s[1]), Second(s[1], s[2]), Third(s[2], s[3])] + rest)
  }

  /** `_decode_key`; `None` is the ValueError. */
  function DecodeKey(key: string): Option<bytes> {
    if !(22 <= |key| <= 86) then None
    else
      match FromText(key)
      case None => None
      case Some(s) =>
        match Decode(s)
        case None => None
        case Some(b) => if Text(Encode(b)) != key || !(MIN_BYTES <= |b| <= MAX_BYTES) then None else Some(b)
  }

  function EncodeKey(b: bytes): string { Text(Encode(b)) }

  // ---------------------------------------------------------------- round trips

  lemma SymbolRoundTrip(s: sextet)
    ensures FromSymbol(Symbol(s)) == Some(s)
  {
  }

  lemma {:induction false} TextRoundTrip(ss: seq<sextet>)
    ensures FromText(Text(ss)) == Some(ss)
  {
    if ss != [] {
      SymbolRoundTrip(ss[0]);
      TextRoundTrip(ss[1..]);
      assert Text(ss)[1..] == Text(ss[1..]);
      assert ss == [ss[0]] + ss[1..];
    }
  }

  lemma {:induction false} EncodedLength(b: bytes)
    ensures |Encode(b)| == (4 * |b| + 2) / 3
  {
    if |b| > 2 { EncodedLength(b[3..]); }
  }

  lemma ThreeBytes(x: byte, y: byte, z: byte)
    ensures First(x / 4, x % 4 * 16 + y / 16) == x
    ensures Second(x % 4 * 16 + y / 16, y % 16 * 4 + z / 64) == y
    ensures Third(y % 16 * 4 + z / 64, z % 64) == z
    ensures First(x / 4, x % 4 * 16) == x && Second(x % 4 * 16 + y / 16, y % 16 * 4) == y
  {
  }

  lemma DecodesGroup(s: seq<sextet>, b: bytes, rest: bytes)
    requires |s| >= 4 && |b| == 3 && First(s[0], s[1]) == b[0] && Second(s[1], s[2]) == b[1]
             && Third(s[2], s[3]) == b[2]
    requires Decode(s[4..]) == Some(rest)
    ensures Decode(s) == Some(b + rest)
  {
    assert b == [b[0], b[1], b[2]];
  }

  lemma EncodesGroup(b: bytes)
    requires |b| > 2
    ensures var s := Encode(b);
            && |s| >= 4 && s[4..] == Encode(b[3..])
            && First(s[0], s[1]) == b[0] && Second(s[1], s[2]) == b[1] && Third(s[2], s[3]) == b[2]
  {
    ThreeBytes(b[0], b[1], b[2]);
  }

  lemma DecodesOne(b: bytes)
    requires |b| == 1
    ensures Decode(Encode(b)) == Some(b)
  {
    ThreeBytes(b[0], 0, 0);
    assert b == [b[0]];
  }

  lemma DecodesThree(s: seq<sextet>, b: bytes)
    requires |s| == 3 && |b| == 2 && First(s[0], s[1]) == b[0] && Second(s[1], s[2]) == b[1]
    ensures Decode(s) == Some(b)
  {
    assert b == [b[0], b[1]];
  }

  lemma EncodesTwo(b: bytes)
    requires |b| == 2
    ensures var s := Encode(b); |s| == 3 && First(s[0], s[1]) == b[0] && Second(s[1], s[2]) == b[1]
  {
    ThreeBytes(b[0], b[1], 0);
  }

  lemma {:induction false} DecodeInverts(b: bytes)
    ensures Decode(Encode(b)) == Some(b)
    decreases |b|
  {
    if |b| == 1 { DecodesOne(b); }
    if |b| == 2 { EncodesTwo(b); DecodesThree(Encode(b), b); }
    if |b| > 2 {
      EncodesGroup(b);
      DecodeInverts(b[3..]);
      DecodesGroup(Encode(b), b[..3], b[3..]);
      assert b == b[..3] + b[3..];
    }
  }

  /** Every byte string of 16 to 64 bytes has an accepted key that decodes to it. */
  lemma EveryStringHasAKey(b: bytes)
    requires MIN_BYTES <= |b| <= MAX_BYTES
    ensures DecodeKey(EncodeKey(b)) == Some(b)
  {
    EncodedLength(b);
    TextRoundTrip(Encode(b));
    DecodeInverts(b);
  }

  /** A key is accepted exactly when it is the encoding of such a string, and then it decodes to that string only. */
  lemma AcceptedExactly(key: string)
    ensures DecodeKey(key).Some? <==> exists b: bytes :: MIN_BYTES <= |b| <= MAX_BYTES && EncodeKey(b) == key
    ensures DecodeKey(key).Some? ==>
              && MIN_BYTES <= |DecodeKey(key).value| <= MAX_BYTES && EncodeKey(DecodeKey(key).value) == key
              && forall b: bytes :: EncodeKey(b) == key ==> b == DecodeKey(key).value
  {
    if b: bytes :| MIN_BYTES <= |b| <= MAX_BYTES && EncodeKey(b) == key { EveryStringHasAKey(b); }
    forall b: bytes | EncodeKey(b) == key ensures DecodeKey(key).Some? ==> b == DecodeKey(key).value {
      TextRoundTrip(Encode(b));
      DecodeInverts(b);
    }
  }

  /** The surplus low bits of the last sextet are zero. */
  predicate Canonical(s: seq<sextet>) {
    (|s| % 4 == 2 ==> s[|s| - 1] % 16 == 0) && (|s| % 4 == 3 ==> s[|s| - 1] % 4 == 0)
  }

  lemma FourSextets(p: sextet, q: sextet, r: sextet, t: sextet)
    ensures var x: int, y: int, z: int := First(p, q), Second(q, r), Third(r, t);
            && x / 4 == p && x % 4 * 16 + y / 16 == q && y % 16 * 4 + z / 64 == r && z % 64 == t
            && (x % 4 * 16 == q <==> q % 16 == 0) && (y % 16 * 4 == r <==> r % 4 == 0)
  {
  }

  /** A whole group of four sextets re-encodes to itself. */
  lemma GroupReencodes(s: seq<sextet>, rest: bytes)
    requires |s| >= 4
    ensures Encode([First(s[0], s[1]), Second(s[1], s[2]), Third(s[2], s[3])] + rest) == s[..4] + Encode(rest)
  {
    FourSextets(s[0], s[1], s[2], s[3]);
    var b := [First(s[0], s[1]), Second(s[1], s[2]), Third(s[2], s[3])] + rest;
    assert b[3..] == rest;
  }

  lemma CanonicalTail(s: seq<sextet>)
    requires |s| >= 4
    ensures Canonical(s) <==> Canonical(s[4..])
  {
    if |s| > 4 { assert s[4..][|s| - 5] == s[|s| - 1]; }
  }

  lemma SameTail(s: seq<sextet>, tail: seq<sextet>)
    requires |s| >= 4
    ensures s[..4] + tail == s <==> tail == s[4..]
  {
    assert s == s[..4] + s[4..];
    assert (s[..4] + tail)[4..] == tail;
  }

  lemma ReencodesTwo(s: seq<sextet>)
    requires |s| == 2
    ensures Encode([First(s[0], s[1])]) == s <==> s[1] % 16 == 0
  {
    FourSextets(s[0], s[1], 0, 0);
    assert s == [s[0], s[1]];
  }

  lemma ReencodesThree(s: seq<sextet>)
    requires |s| == 3
    ensures Encode([First(s[0], s[1]), Second(s[1], s[2])]) == s <==> s[2] % 4 == 0
  {
    FourSextets(s[0], s[1], s[2], 0);
    assert s == [s[0], s[1], s[2]];
  }

  /** What the re-encoding comparison refuses is exactly a spelling with surplus bits set. */
  lemma {:induction false} ReencodesExactly(s: seq<sextet>)
    requires Decode(s).Some?
    ensures Encode(Decode(s).value) == s <==> Canonical(s)
    decreases |s|
  {
    if |s| == 2 {
      ReencodesTwo(s);
    } else if |s| == 3 {
      ReencodesThree(s);
    } else if |s| > 3 {
      var rest := Decode(s[4..]).value;
      ReencodesExactly(s[4..]);
      GroupReencodes(s, rest);
      CanonicalTail(s);
      SameTail(s, Encode(rest));
    }
  }
}
