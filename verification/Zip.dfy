/**
 The ZIP central-directory parser of the browser verifier (sections 4.3.12 and 4.3.16 of PKWARE APPNOTE.TXT).

 Entry names are the byte strings the archive holds; whether one is valid UTF-8 is a parameter.
 */
module Zip {
  import opened Prelude
  import opened LittleEndian

  datatype Entry = Entry(name: bytes, compressed: nat, uncompressed: nat)

  datatype ZipError =
    | NoEndRecord | EndRecordTruncated | MultiDisk | Zip64 | DirectoryInvalid
    | EntryInvalid | EntryTruncated | NameNotUtf8 | DuplicateName | SizeMismatch

  type Utf8 = bytes -> bool

  const NO_ENTRIES: seq<Entry> := []

  const END_SIGNATURE: nat := 0x06054b50
  const ENTRY_SIGNATURE: nat := 0x02014b50
  const MAX_END_DISTANCE: nat := 65_557

  function U16(b: bytes, at: nat): nat
    requires at + 2 <= |b|
  { b[at] as int + 256 * (b[at + 1] as int) }

  function U32(b: bytes, at: nat): nat
    requires at + 4 <= |b|
  { b[at] as int + 256 * (b[at + 1] as int) + 0x1_0000 * (b[at + 2] as int) + 0x100_0000 * (b[at + 3] as int) }

  lemma ReadsWord(b: bytes, at: nat, x: nat)
    requires at + 4 <= |b| && Word(x) && b[at..at + 4] == Le4(x)
    ensures U32(b, at) == x
  {
    Le4Digits(x);
    var w := b[at..at + 4];
    assert w[0] == b[at] && w[1] == b[at + 1] && w[2] == b[at + 2] && w[3] == b[at + 3];
  }

  lemma ReadsShort(b: bytes, at: nat, x: nat)
    requires at + 2 <= |b| && x < 0x1_0000 && b[at..at + 2] == Le2(x)
    ensures U16(b, at) == x
  {
    var w := b[at..at + 2];
    assert w[0] == b[at] && w[1] == b[at + 1];
  }

  // ---------------------------------------------------------------- the end record

  /** The last end signature at or before an offset, searched down to the limit. */
  function FindEnd(b: bytes, offset: int, lowest: nat): (r: Option<nat>)
    requires offset + 22 <= |b|
    ensures r.Some? ==> lowest <= r.value <= offset && U32(b, r.value) == END_SIGNATURE
    decreases offset + 1 - lowest
  {
    if offset < lowest then None
    else if U32(b, offset) == END_SIGNATURE then Some(offset)
    else FindEnd(b, offset - 1, lowest)
  }

  datatype EndRecord = EndRecord(at: nat, count: nat, size: nat, offset: nat)

  function ParseEnd(b: bytes): (r: Result<EndRecord, ZipError>)
    ensures r.Ok? ==> r.value.offset + r.value.size <= r.value.at <= |b|
  {
    match FindEnd(b, |b| - 22, Max(0, |b| - MAX_END_DISTANCE))
    case None => Err(NoEndRecord)
    case Some(at) =>
      if at + 22 + U16(b, at + 20) > |b| then Err(EndRecordTruncated)
      else if U16(b, at + 4) != 0 || U16(b, at + 6) != 0 || U16(b, at + 8) != U16(b, at + 10) then Err(MultiDisk)
      else if U16(b, at + 10) == 0xffff || U32(b, at + 12) == 0xffff_ffff || U32(b, at + 16) == 0xffff_ffff then
        Err(Zip64)
      else if U32(b, at + 16) + U32(b, at + 12) > at then Err(DirectoryInvalid)
      else Ok(EndRecord(at, U16(b, at + 10), U32(b, at + 12), U32(b, at + 16)))
  }

  // ---------------------------------------------------------------- the entries

  predicate HasEntry(b: bytes, at: nat, end: nat)
    requires end <= |b|
  { at + 46 <= end && U32(b, at) == ENTRY_SIGNATURE }

  function NameLength(b: bytes, at: nat): nat
    requires at + 46 <= |b|
  { U16(b, at + 28) }

  function RecordLength(b: bytes, at: nat): nat
    requires at + 46 <= |b|
  { 46 + U16(b, at + 28) + U16(b, at + 30) + U16(b, at + 32) }

  function EntryAt(b: bytes, at: nat): Entry
    requires at + 46 <= |b| && at + RecordLength(b, at) <= |b|
  { Entry(b[at + 46..at + 46 + NameLength(b, at)], U32(b, at + 20), U32(b, at + 24)) }

  function NamesOf(entries: seq<Entry>): set<bytes> { set e | e in entries :: e.name }

  predicate Named(entries: seq<Entry>, name: bytes) { name in NamesOf(entries) }

  /** One turn of the loop: the entry at an offset, if its record is whole and its name new. */
  function NextEntry(b: bytes, utf8: Utf8, end: nat, at: nat, found: seq<Entry>): (r: Result<Entry, ZipError>)
    requires end <= |b|
    ensures r.Ok? ==> HasEntry(b, at, end) && at + RecordLength(b, at) <= end && r.value == EntryAt(b, at)
    ensures r.Ok? ==> utf8(r.value.name) && !Named(found, r.value.name)
  {
    if !HasEntry(b, at, end) then Err(EntryInvalid)
    else if at + RecordLength(b, at) > end then Err(EntryTruncated)
    else if !utf8(EntryAt(b, at).name) then Err(NameNotUtf8)
    else if Named(found, EntryAt(b, at).name) then Err(DuplicateName)
    else Ok(EntryAt(b, at))
  }

  datatype Directory = Directory(entries: seq<Entry>, end: nat)

  /** The loop over the entries that are left. */
  function ParseFrom(b: bytes, utf8: Utf8, end: nat, at: nat, left: nat, found: seq<Entry>): Result<Directory, ZipError>
    requires end <= |b|
    decreases left
  {
    if left == 0 then Ok(Directory(found, at))
    else
      match NextEntry(b, utf8, end, at, found)
      case Err(e) => Err(e)
      case Ok(e) => ParseFrom(b, utf8, end, at + RecordLength(b, at), left - 1, found + [e])
  }

  lemma ParseStep(b: bytes, utf8: Utf8, end: nat, at: nat, left: nat, found: seq<Entry>, e: Entry)
    requires end <= |b| && left > 0 && NextEntry(b, utf8, end, at, found) == Ok(e)
    ensures ParseFrom(b, utf8, end, at, left, found)
            == ParseFrom(b, utf8, end, at + RecordLength(b, at), left - 1, found + [e])
  {
  }

  /** The entries, when the directory ends where the end record says. */
  function Sized(r: Result<Directory, ZipError>, end: nat): Result<seq<Entry>, ZipError> {
    match r
    case Err(e) => Err(e)
    case Ok(d) => if d.end != end then Err(SizeMismatch) else Ok(d.entries)
  }

  /** `inspectZipCentralDirectory`. */
  function Parse(b: bytes, utf8: Utf8): Result<seq<Entry>, ZipError> {
    match ParseEnd(b)
    case Err(e) => Err(e)
    case Ok(end) => Sized(ParseFrom(b, utf8, end.at, end.offset, end.count, NO_ENTRIES), end.offset + end.size)
  }

  /** The parser itself; every read is inside the bytes. */
  method InspectZipCentralDirectory(b: bytes, utf8: Utf8) returns (result: Result<seq<Entry>, ZipError>)
    ensures result == Parse(b, utf8)
  {
    var lowest := Max(0, |b| - MAX_END_DISTANCE);
    var end: Option<nat> := None;
    var search := |b| - 22;
    while search >= lowest && end.None?
      invariant search + 22 <= |b|
      invariant FindEnd(b, |b| - 22, lowest) == if end.Some? then end else FindEnd(b, search, lowest)
      decreases search + 1 - lowest
    {
      if U32(b, search) == END_SIGNATURE { end := Some(search); }
      search := search - 1;
    }
    if end.None? { return Err(NoEndRecord); }
    var at := end.value;
    var disk, centralDisk := U16(b, at + 4), U16(b, at + 6);
    var onDisk, count := U16(b, at + 8), U16(b, at + 10);
    var size, central := U32(b, at + 12), U32(b, at + 16);
    if at + 22 + U16(b, at + 20) > |b| { return Err(EndRecordTruncated); }
    if disk != 0 || centralDisk != 0 || onDisk != count { return Err(MultiDisk); }
    if count == 0xffff || size == 0xffff_ffff || central == 0xffff_ffff { return Err(Zip64); }
    if central + size > at { return Err(DirectoryInvalid); }
    assert ParseEnd(b) == Ok(EndRecord(at, count, size, central));
    result := ReadEntries(b, utf8, at, central, size, count);
  }

  method ReadEntries(b: bytes, utf8: Utf8, end: nat, central: nat, size: nat, count: nat)
    returns (result: Result<seq<Entry>, ZipError>)
    requires end <= |b|
    ensures result == Sized(ParseFrom(b, utf8, end, central, count, NO_ENTRIES), central + size)
  {
    var entries: seq<Entry> := NO_ENTRIES;
    var names: set<bytes> := {};
    var offset: nat := central;
    ghost var whole := ParseFrom(b, utf8, end, central, count, NO_ENTRIES);
    for index := 0 to count
      invariant whole == ParseFrom(b, utf8, end, offset, count - index, entries)
      invariant names == NamesOf(entries)
    {
      var entry, next := ReadEntry(b, utf8, end, offset, count - index, entries, names);
      if entry.Err? { return Err(entry.error); }
      names := names + {entry.value.name};
      entries := entries + [entry.value];
      offset := next;
    }
    if offset != central + size { return Err(SizeMismatch); }
    result := Ok(entries);
  }

  /** The loop body up to the recorded entry. */
  method ReadEntry(
      b: bytes, utf8: Utf8, end: nat, offset: nat, ghost left: nat, ghost found: seq<Entry>, names: set<bytes>)
    returns (entry: Result<Entry, ZipError>, next: nat)
    requires end <= |b| && left > 0 && names == NamesOf(found)
    ensures entry.Err? ==> ParseFrom(b, utf8, end, offset, left, found) == Err(entry.error)
    ensures entry.Ok? ==>
              ParseFrom(b, utf8, end, offset, left, found)
                == ParseFrom(b, utf8, end, next, left - 1, found + [entry.value])
    ensures entry.Ok? ==> NamesOf(found + [entry.value]) == NamesOf(found) + {entry.value.name}
  {
    next := 0;
    if offset + 46 > end || U32(b, offset) != ENTRY_SIGNATURE { return Err(EntryInvalid), next; }
    var compressed, uncompressed := U32(b, offset + 20), U32(b, offset + 24);
    var nameLength, extraLength, commentLength := U16(b, offset + 28), U16(b, offset + 30), U16(b, offset + 32);
    var recordLength := 46 + nameLength + extraLength + commentLength;
    if offset + recordLength > end { return Err(EntryTruncated), next; }
    var name := b[offset + 46..offset + 46 + nameLength];
    if !utf8(name) { return Err(NameNotUtf8), next; }
    if name in names { return Err(DuplicateName), next; }
    entry := Ok(Entry(name, compressed, uncompressed));
    next := offset + recordLength;
    NamesPush(found, entry.value);
  }

  lemma NamesPush(entries: seq<Entry>, e: Entry)
    ensures NamesOf(entries + [e]) == NamesOf(entries) + {e.name}
  {
    forall x | x in entries ensures x in entries + [e] {}
    assert e in entries + [e];
  }

  // ---------------------------------------------------------------- what success means

  predicate DistinctNames(entries: seq<Entry>) {
    forall i, j :: 0 <= i < j < |entries| ==> entries[i].name != entries[j].name
  }

  predicate AllUtf8(utf8: Utf8, entries: seq<Entry>) { forall e :: e in entries ==> utf8(e.name) }

  /** Where records end that lie one behind the other without a gap, from an offset on, and hold the entries. */
  function Covered(b: bytes, entries: seq<Entry>, from: nat): Option<nat>
    decreases |entries|
  {
    if entries == [] then Some(from)
    else if from + 46 <= |b| && U32(b, from) == ENTRY_SIGNATURE && from + RecordLength(b, from) <= |b|
         && EntryAt(b, from) == entries[0]
    then Covered(b, entries[1..], from + RecordLength(b, from))
    else None
  }

  /** Such records cover exactly `from..to`. */
  predicate Tiles(b: bytes, entries: seq<Entry>, from: nat, to: nat) { Covered(b, entries, from) == Some(to) }

  lemma {:induction false} TilesReach(b: bytes, entries: seq<Entry>, from: nat, to: nat)
    requires Tiles(b, entries, from, to)
    ensures from <= to
    decreases |entries|
  {
    if entries != [] { TilesReach(b, entries[1..], from + RecordLength(b, from), to); }
  }

  /** What the loop found from an offset on: `rest` behind `found`. */
  predicate Found(b: bytes, utf8: Utf8, at: nat, left: nat, found: seq<Entry>, d: Directory, rest: seq<Entry>) {
    && d.entries == found + rest && |rest| == left && Tiles(b, rest, at, d.end)
    && DistinctNames(d.entries) && AllUtf8(utf8, rest)
  }

  lemma ParsedFirst(b: bytes, utf8: Utf8, end: nat, at: nat, left: nat, found: seq<Entry>, d: Directory)
    returns (e: Entry)
    requires end <= |b| && left > 0 && ParseFrom(b, utf8, end, at, left, found) == Ok(d)
    ensures at + 46 <= |b| && U32(b, at) == ENTRY_SIGNATURE && at + RecordLength(b, at) <= |b| && e == EntryAt(b, at)
    ensures utf8(e.name) && !Named(found, e.name)
    ensures ParseFrom(b, utf8, end, at + RecordLength(b, at), left - 1, found + [e]) == Ok(d)
  {
    e := EntryAt(b, at);
    assert NextEntry(b, utf8, end, at, found) == Ok(e);
    ParseStep(b, utf8, end, at, left, found, e);
  }

  lemma FoundNone(b: bytes, utf8: Utf8, at: nat, found: seq<Entry>, none: seq<Entry>)
    requires |none| == 0 && DistinctNames(found)
    ensures Found(b, utf8, at, 0, found, Directory(found, at), none)
  {
    assert found + none == found;
  }

  lemma FoundCons(b: bytes, utf8: Utf8, at: nat, length: nat, left: nat, found: seq<Entry>, d: Directory, e: Entry,
                  tail: seq<Entry>)
    requires left > 0 && Found(b, utf8, at + length, left - 1, found + [e], d, tail) && utf8(e.name)
    requires at + 46 <= |b| && U32(b, at) == ENTRY_SIGNATURE && RecordLength(b, at) == length && at + length <= |b|
    requires EntryAt(b, at) == e
    ensures Found(b, utf8, at, left, found, d, [e] + tail)
  {
    TilesCons(b, e, tail, at, length, d.end);
    assert found + ([e] + tail) == (found + [e]) + tail;
  }

  /** Found from the start: everything in the directory. */
  lemma FoundAll(b: bytes, utf8: Utf8, at: nat, left: nat, none: seq<Entry>, d: Directory, rest: seq<Entry>)
    requires |none| == 0 && Found(b, utf8, at, left, none, d, rest)
    ensures d.entries == rest && |rest| == left && Tiles(b, rest, at, d.end) && DistinctNames(rest)
            && AllUtf8(utf8, rest)
  {
    assert none + rest == rest;
  }

  lemma {:induction false} ParseFromTiles(
      b: bytes, utf8: Utf8, end: nat, at: nat, left: nat, found: seq<Entry>, d: Directory) returns (rest: seq<Entry>)
    requires end <= |b| && ParseFrom(b, utf8, end, at, left, found) == Ok(d) && DistinctNames(found)
    ensures Found(b, utf8, at, left, found, d, rest)
    decreases left
  {
    if left == 0 {
      rest := [];
      FoundNone(b, utf8, at, found, rest);
    } else {
      var e := ParsedFirst(b, utf8, end, at, left, found, d);
      DistinctPush(found, e);
      var tail := ParseFromTiles(b, utf8, end, at + RecordLength(b, at), left - 1, found + [e], d);
      rest := [e] + tail;
      FoundCons(b, utf8, at, RecordLength(b, at), left, found, d, e, tail);
    }
  }

  lemma DistinctPush(found: seq<Entry>, e: Entry)
    requires DistinctNames(found) && !Named(found, e.name)
    ensures DistinctNames(found + [e])
  {
    forall i | 0 <= i < |found| ensures found[i].name != e.name { assert found[i] in found; }
  }

  lemma TilesCons(b: bytes, e: Entry, rest: seq<Entry>, from: nat, length: nat, to: nat)
    requires from + 46 <= |b| && U32(b, from) == ENTRY_SIGNATURE && RecordLength(b, from) == length
             && from + length <= |b|
    requires EntryAt(b, from) == e && Tiles(b, rest, from + length, to)
    ensures Tiles(b, [e] + rest, from, to)
  {
    TilesReach(b, rest, from + length, to);
    assert ([e] + rest)[1..] == rest;
  }

  /** Records tile the announced directory with as many valid, distinctly named entries as announced. */
  predicate Described(b: bytes, utf8: Utf8, end: EndRecord, entries: seq<Entry>) {
    && |entries| == end.count && Tiles(b, entries, end.offset, end.offset + end.size)
    && DistinctNames(entries) && AllUtf8(utf8, entries)
  }

  lemma DirectorySoundFrom(b: bytes, utf8: Utf8, end: EndRecord, d: Directory, none: seq<Entry>)
    requires |none| == 0 && end.at <= |b| && ParseFrom(b, utf8, end.at, end.offset, end.count, none) == Ok(d)
    requires d.end == end.offset + end.size
    ensures Described(b, utf8, end, d.entries)
  {
    var rest := ParseFromTiles(b, utf8, end.at, end.offset, end.count, none, d);
    FoundAll(b, utf8, end.offset, end.count, none, d, rest);
  }

  /** A parse that ends where the end record says found records that tile the directory. */
  lemma DirectorySound(b: bytes, utf8: Utf8, end: EndRecord, d: Directory)
    requires end.at <= |b| && ParseFrom(b, utf8, end.at, end.offset, end.count, NO_ENTRIES) == Ok(d)
    requires d.end == end.offset + end.size
    ensures Described(b, utf8, end, d.entries)
  {
    DirectorySoundFrom(b, utf8, end, d, NO_ENTRIES);
  }

  // ---------------------------------------------------------------- encoding

  /** A central-directory record: the entry, its extra field and comment, and the fields the parser skips. */
  datatype Record = Record(entry: Entry, versions: bytes, extra: bytes, comment: bytes, attributes: bytes)

  predicate Encodable(r: Record) {
    && Word(r.entry.compressed) && Word(r.entry.uncompressed)
    && |r.entry.name| < 0x1_0000 && |r.extra| < 0x1_0000 && |r.comment| < 0x1_0000
    && |r.versions| == 16 && |r.attributes| == 12
  }

  function EncodeHead(r: Record): (b: bytes)
    requires Encodable(r)
    ensures |b| == 46
  {
    Le4(ENTRY_SIGNATURE) + r.versions + Le4(r.entry.compressed) + Le4(r.entry.uncompressed)
    + Le2(|r.entry.name|) + Le2(|r.extra|) + Le2(|r.comment|) + r.attributes
  }

  function EncodeRecord(r: Record): (b: bytes)
    requires Encodable(r)
    ensures |b| == 46 + |r.entry.name| + |r.extra| + |r.comment|
  {
    EncodeHead(r) + r.entry.name + r.extra + r.comment
  }

  predicate AllEncodable(rs: seq<Record>) { forall r :: r in rs ==> Encodable(r) }

  function EncodeAll(rs: seq<Record>): bytes
    requires AllEncodable(rs)
  {
    if rs == [] then [] else EncodeRecord(rs[0]) + EncodeAll(rs[1..])
  }

  function EncodeEnd(count: nat, size: nat, offset: nat): (b: bytes)
    requires count < 0x1_0000 && Word(size) && Word(offset)
    ensures |b| == 22
  {
    Le4(END_SIGNATURE) + Le2(0) + Le2(0) + Le2(count) + Le2(count) + Le4(size) + Le4(offset) + Le2(0)
  }

  predicate Fits(data: bytes, rs: seq<Record>) {
    && AllEncodable(rs)
    && |rs| < 0xffff && |EncodeAll(rs)| < 0xffff_ffff && |data| < 0xffff_ffff
  }

  /** An archive: file data, the directory, and an end record with an empty comment. */
  function Encode(data: bytes, rs: seq<Record>): bytes
    requires Fits(data, rs)
  {
    data + EncodeAll(rs) + EncodeEnd(|rs|, |EncodeAll(rs)|, |data|)
  }

  function EntriesOf(rs: seq<Record>): (es: seq<Entry>)
    ensures |es| == |rs| && forall i :: 0 <= i < |rs| ==> es[i] == rs[i].entry
  {
    seq(|rs|, i requires 0 <= i < |rs| => rs[i].entry)
  }

  // ---------------------------------------------------------------- round trip

  /** A slice of the middle of three pieces. */
  lemma SliceMiddle(a: bytes, m: bytes, z: bytes, from: nat, to: nat)
    requires from <= to <= |m|
    ensures (a + m + z)[|a| + from..|a| + to] == m[from..to]
  {
  }

  lemma EndFields(a: bytes, count: nat, size: nat, offset: nat)
    requires count < 0x1_0000 && Word(size) && Word(offset)
    ensures var b, at := a + EncodeEnd(count, size, offset), |a|;
            && U32(b, at) == END_SIGNATURE && U16(b, at + 4) == 0 && U16(b, at + 6) == 0
            && U16(b, at + 8) == count && U16(b, at + 10) == count
            && U32(b, at + 12) == size && U32(b, at + 16) == offset && U16(b, at + 20) == 0
  {
    var m := EncodeEnd(count, size, offset);
    var b, at := a + m, |a|;
    assert b[at..at + 4] == Le4(END_SIGNATURE);
    assert b[at + 4..at + 6] == Le2(0);
    assert b[at + 6..at + 8] == Le2(0);
    assert b[at + 8..at + 10] == Le2(count);
    assert b[at + 10..at + 12] == Le2(count);
    assert b[at + 12..at + 16] == Le4(size);
    assert b[at + 16..at + 20] == Le4(offset);
    assert b[at + 20..at + 22] == Le2(0);
    ReadsWord(b, at, END_SIGNATURE);
    ReadsShort(b, at + 4, 0);
    ReadsShort(b, at + 6, 0);
    ReadsShort(b, at + 8, count);
    ReadsShort(b, at + 10, count);
    ReadsWord(b, at + 12, size);
    ReadsWord(b, at + 16, offset);
    ReadsShort(b, at + 20, 0);
  }

  lemma HeadFields(r: Record)
    requires Encodable(r)
    ensures var h := EncodeHead(r);
            && h[0..4] == Le4(ENTRY_SIGNATURE) && h[20..24] == Le4(r.entry.compressed)
               && h[24..28] == Le4(r.entry.uncompressed)
            && h[28..30] == Le2(|r.entry.name|) && h[30..32] == Le2(|r.extra|) && h[32..34] == Le2(|r.comment|)
  {
  }

  /** A record written anywhere reads back as its entry and its length. */
  lemma RecordReadsBack(a: bytes, r: Record, z: bytes)
    requires Encodable(r)
    ensures var b, at := a + EncodeRecord(r) + z, |a|;
            && U32(b, at) == ENTRY_SIGNATURE && RecordLength(b, at) == |EncodeRecord(r)| && EntryAt(b, at) == r.entry
  {
    var m := EncodeRecord(r);
    var b, at := a + m + z, |a|;
    HeadFields(r);
    assert m[..46] == EncodeHead(r);
    SliceMiddle(a, m, z, 0, 4);
    SliceMiddle(a, m, z, 20, 24);
    SliceMiddle(a, m, z, 24, 28);
    SliceMiddle(a, m, z, 28, 30);
    SliceMiddle(a, m, z, 30, 32);
    SliceMiddle(a, m, z, 32, 34);
    HeadSlices(m, EncodeHead(r));
    ReadsWord(b, at, ENTRY_SIGNATURE);
    ReadsWord(b, at + 20, r.entry.compressed);
    ReadsWord(b, at + 24, r.entry.uncompressed);
    ReadsShort(b, at + 28, |r.entry.name|);
    ReadsShort(b, at + 30, |r.extra|);
    ReadsShort(b, at + 32, |r.comment|);
    SliceMiddle(a, m, z, 46, 46 + |r.entry.name|);
    assert m[46..46 + |r.entry.name|] == r.entry.name;
  }

  lemma HeadSlices(m: bytes, h: bytes)
    requires |h| == 46 <= |m| && m[..46] == h
    ensures m[0..4] == h[0..4] && m[20..24] == h[20..24] && m[24..28] == h[24..28]
    ensures m[28..30] == h[28..30] && m[30..32] == h[30..32] && m[32..34] == h[32..34]
  {
    assert m[0..4] == m[..46][0..4] && m[20..24] == m[..46][20..24] && m[24..28] == m[..46][24..28];
    assert m[28..30] == m[..46][28..30] && m[30..32] == m[..46][30..32] && m[32..34] == m[..46][32..34];
  }

  lemma FreshName(found: seq<Entry>, e: Entry, rest: seq<Entry>)
    requires DistinctNames(found + ([e] + rest))
    ensures !Named(found, e.name)
  {
    var es := found + ([e] + rest);
    assert es[|found|] == e;
    forall x | x in found ensures x.name != e.name {
      var i :| 0 <= i < |found| && found[i] == x;
      assert es[i] == x;
    }
  }

  /** The parser accepts whatever tiles the directory with valid, distinct names. */
  lemma {:induction false} TilesParse(b: bytes, utf8: Utf8, end: nat, at: nat, to: nat, entries: seq<Entry>,
                                      found: seq<Entry>)
    requires Tiles(b, entries, at, to) && to <= end <= |b|
    requires DistinctNames(found + entries) && AllUtf8(utf8, entries)
    ensures ParseFrom(b, utf8, end, at, |entries|, found) == Ok(Directory(found + entries, to))
    decreases |entries|
  {
    if entries == [] {
      assert found + entries == found;
    } else {
      var e, rest := entries[0], entries[1..];
      assert entries == [e] + rest;
      FreshName(found, e, rest);
      TilesReach(b, rest, at + RecordLength(b, at), to);
      TilesNext(b, utf8, end, at, found);
      assert found + entries == (found + [e]) + rest;
      TilesParse(b, utf8, end, at + RecordLength(b, at), to, rest, found + [e]);
      ParseStep(b, utf8, end, at, |entries|, found, e);
    }
  }

  lemma TilesNext(b: bytes, utf8: Utf8, end: nat, at: nat, found: seq<Entry>)
    requires end <= |b| && HasEntry(b, at, end) && at + RecordLength(b, at) <= end
    requires utf8(EntryAt(b, at).name) && !Named(found, EntryAt(b, at).name)
    ensures NextEntry(b, utf8, end, at, found) == Ok(EntryAt(b, at))
  {
  }

  lemma DirectoryCompleteFrom(b: bytes, utf8: Utf8, end: EndRecord, entries: seq<Entry>, none: seq<Entry>)
    requires |none| == 0 && end.offset + end.size <= end.at <= |b| && Described(b, utf8, end, entries)
    ensures ParseFrom(b, utf8, end.at, end.offset, end.count, none) == Ok(Directory(entries, end.offset + end.size))
  {
    assert none + entries == entries;
    TilesParse(b, utf8, end.at, end.offset, end.offset + end.size, entries, none);
  }

  lemma DirectoryComplete(b: bytes, utf8: Utf8, end: EndRecord, entries: seq<Entry>)
    requires end.offset + end.size <= end.at <= |b| && Described(b, utf8, end, entries)
    ensures Sized(ParseFrom(b, utf8, end.at, end.offset, end.count, NO_ENTRIES), end.offset + end.size) == Ok(entries)
  {
    DirectoryCompleteFrom(b, utf8, end, entries, NO_ENTRIES);
  }

  lemma DirectoryExactly(b: bytes, utf8: Utf8, end: EndRecord, entries: seq<Entry>)
    requires end.offset + end.size <= end.at <= |b|
    ensures Sized(ParseFrom(b, utf8, end.at, end.offset, end.count, NO_ENTRIES), end.offset + end.size) == Ok(entries)
         <==> Described(b, utf8, end, entries)
  {
    if Described(b, utf8, end, entries) { DirectoryComplete(b, utf8, end, entries); }
    var parsed := ParseFrom(b, utf8, end.at, end.offset, end.count, NO_ENTRIES);
    if Sized(parsed, end.offset + end.size) == Ok(entries) { DirectorySound(b, utf8, end, parsed.value); }
  }

  /**
   Parsing succeeds exactly when there is an end record and records tile exactly the directory it names, which ends
   before it, with as many entries as it announces, validly and distinctly named.
   */
  lemma ParseExactly(b: bytes, utf8: Utf8, entries: seq<Entry>)
    ensures Parse(b, utf8) == Ok(entries) <==> ParseEnd(b).Ok? && Described(b, utf8, ParseEnd(b).value, entries)
  {
    var end := ParseEnd(b);
    if end.Ok? { DirectoryExactly(b, utf8, end.value, entries); }
  }

  /** The first of several written records, and where the others start. */
  lemma FirstTile(b: bytes, rs: seq<Record>, at: nat, to: nat) returns (next: nat)
    requires rs != [] && AllEncodable(rs) && WrittenAt(b, EncodeAll(rs), at, to)
    ensures at + 46 <= |b| && U32(b, at) == ENTRY_SIGNATURE && next == at + RecordLength(b, at) <= |b|
    ensures EntryAt(b, at) == rs[0].entry && AllEncodable(rs[1..]) && WrittenAt(b, EncodeAll(rs[1..]), next, to)
  {
    var m, rest := EncodeRecord(rs[0]), EncodeAll(rs[1..]);
    next := at + |m|;
    SplitWritten(b, m, rest, at, to);
    OneTile(b[..at], rs[0], b[next..], b);
  }

  /** `m` is written from `at` to `to`. */
  predicate WrittenAt(b: bytes, m: bytes, at: nat, to: nat) { at <= to <= |b| && b[at..to] == m }

  lemma SplitWritten(b: bytes, m: bytes, rest: bytes, at: nat, to: nat)
    requires WrittenAt(b, m + rest, at, to)
    ensures at + |m| <= to && WrittenAt(b, rest, at + |m|, to) && b == b[..at] + m + b[at + |m|..]
  {
    assert b[at..to][|m|..] == b[at + |m|..to] && b[at..to][..|m|] == b[at..at + |m|];
  }

  lemma EntriesStep(rs: seq<Record>)
    requires rs != []
    ensures EntriesOf(rs) == [rs[0].entry] + EntriesOf(rs[1..])
  {
  }

  /** Tiles of the later records become tiles of all of them. */
  lemma FirstEntry(b: bytes, rs: seq<Record>, from: nat, next: nat, to: nat)
    requires rs != [] && from + 46 <= |b| && U32(b, from) == ENTRY_SIGNATURE
             && next == from + RecordLength(b, from) <= |b|
    requires EntryAt(b, from) == rs[0].entry && Tiles(b, EntriesOf(rs[1..]), next, to)
    ensures Tiles(b, EntriesOf(rs), from, to)
  {
    EntriesStep(rs);
    TilesCons(b, rs[0].entry, EntriesOf(rs[1..]), from, RecordLength(b, from), to);
  }

  lemma {:induction false} EncodedTiles(b: bytes, rs: seq<Record>, at: nat, to: nat)
    requires AllEncodable(rs) && WrittenAt(b, EncodeAll(rs), at, to)
    ensures Tiles(b, EntriesOf(rs), at, to)
    decreases |rs|
  {
    if rs != [] {
      var next := FirstTile(b, rs, at, to);
      EncodedTiles(b, rs[1..], next, to);
      FirstEntry(b, rs, at, next, to);
    }
  }

  lemma OneTile(a: bytes, r: Record, z: bytes, b: bytes)
    requires Encodable(r) && b == a + EncodeRecord(r) + z
    ensures |a| + 46 <= |b| && U32(b, |a|) == ENTRY_SIGNATURE && RecordLength(b, |a|) == |EncodeRecord(r)|
    ensures |a| + |EncodeRecord(r)| <= |b| && EntryAt(b, |a|) == r.entry
  {
    RecordReadsBack(a, r, z);
  }

  lemma EndParses(front: bytes, count: nat, size: nat, offset: nat)
    requires count < 0xffff && size < 0xffff_ffff && offset < 0xffff_ffff && offset + size <= |front|
    ensures ParseEnd(front + EncodeEnd(count, size, offset)) == Ok(EndRecord(|front|, count, size, offset))
  {
    EndFields(front, count, size, offset);
  }

  lemma NamesAreUtf8(utf8: Utf8, rs: seq<Record>)
    requires forall r :: r in rs ==> utf8(r.entry.name)
    ensures AllUtf8(utf8, EntriesOf(rs))
  {
    forall e | e in EntriesOf(rs) ensures utf8(e.name) {
      var i :| 0 <= i < |rs| && EntriesOf(rs)[i] == e;
      assert rs[i] in rs;
    }
  }

  lemma WrittenIsDescribed(b: bytes, utf8: Utf8, rs: seq<Record>, end: EndRecord)
    requires AllEncodable(rs) && end.count == |rs|
    requires WrittenAt(b, EncodeAll(rs), end.offset, end.offset + end.size)
    requires DistinctNames(EntriesOf(rs)) && AllUtf8(utf8, EntriesOf(rs))
    ensures Described(b, utf8, end, EntriesOf(rs))
  {
    EncodedTiles(b, rs, end.offset, end.offset + end.size);
  }

  lemma MiddleWritten(data: bytes, all: bytes, tail: bytes, to: nat)
    requires to == |data| + |all|
    ensures WrittenAt(data + all + tail, all, |data|, to)
  {
  }

  /** For every list of distinctly named records, parsing their encoding gives exactly their entries. */
  lemma ParseRoundTrip(utf8: Utf8, data: bytes, rs: seq<Record>)
    requires Fits(data, rs) && DistinctNames(EntriesOf(rs)) && forall r :: r in rs ==> utf8(r.entry.name)
    ensures Parse(Encode(data, rs), utf8) == Ok(EntriesOf(rs))
  {
    var all := EncodeAll(rs);
    var to := |data + all|;
    var tail, end := EncodeEnd(|rs|, |all|, |data|), EndRecord(to, |rs|, |all|, |data|);
    EndParses(data + all, |rs|, |all|, |data|);
    MiddleWritten(data, all, tail, to);
    NamesAreUtf8(utf8, rs);
    WrittenIsDescribed(data + all + tail, utf8, rs, end);
    ParsesTo(data + all + tail, utf8, end, EntriesOf(rs));
  }

  lemma ParsesTo(b: bytes, utf8: Utf8, end: EndRecord, entries: seq<Entry>)
    requires ParseEnd(b) == Ok(end) && Described(b, utf8, end, entries)
    ensures Parse(b, utf8) == Ok(entries)
  {
    ParseExactly(b, utf8, entries);
  }
}
