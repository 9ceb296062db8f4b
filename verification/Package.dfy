/**
 The certificate package: the builder, the browser verifier, and the round trip between them.

 Hashing, signing, JSON, image decoding, sorting and the checksum text are parameters with the laws used; an archive
 is the list of files the ZIP library wrote and reads back.
 */
module Package {
  import opened Prelude
  import opened FileNames
  import opened Paths
  import opened ManifestVersion
  import P = Photo

  datatype Item = Item(name: string, content: bytes)

  type Archive = seq<Item>

  datatype Record = Record(file: string, sha: string)

  /**
   The manifest; older versions may name no record file, and `rest` stands for every field no check reads.  A manifest
   of unknown version need not have this shape: a missing fingerprint reads as the empty string, a missing list as the
   empty list, and an entry without path, hash or length as one that no file matches.
   */
  datatype Manifest = Manifest(
    identifiers: Identifiers, files: seq<P.File>, photographs: seq<P.Photograph>, record: Option<Record>,
    fingerprint: string, rest: bytes)

  datatype Sum = Sum(sha: string, path: string)

  datatype Lib = Lib(
    sha: bytes -> string,
    encode: Manifest -> bytes,
    decode: bytes -> Option<Manifest>,
    sums: seq<Sum> -> bytes,
    parseSums: bytes -> Option<seq<Sum>>,
    sort: seq<P.File> -> seq<P.File>,
    order: seq<string> -> seq<string>,
    schemaOk: Manifest -> bool,
    identityOk: Manifest -> bool,
    fingerprint: bytes -> string,
    signed: (bytes, bytes, bytes) -> bool,
    image: (bytes, string) -> Option<(int, int)>)

  /** A path that survives a line of the checksum file. */
  predicate LinePath(path: string) { path != "" && forall c :: c in path ==> SafeChar(c) || c == '/' }

  /** A line the builder writes: a hash and a path. */
  ghost predicate HashLine(lib: Lib, s: Sum) { LinePath(s.path) && exists x :: s.sha == lib.sha(x) }

  const MAX_SAFE: int := 0x1F_FFFF_FFFF_FFFF

  /** Every number is one `JSON.parse` reads back exactly. */
  predicate SafeNumbers(m: Manifest) {
    && (forall f :: f in m.files ==> f.length <= MAX_SAFE)
    && (forall p :: p in m.photographs ==>
          p.length <= MAX_SAFE && p.width <= MAX_SAFE && p.height <= MAX_SAFE && p.crop.None?)
  }

  ghost predicate Lawful(lib: Lib) {
    && (forall m: Manifest {:trigger lib.encode(m)} ::
          lib.schemaOk(m) && SafeNumbers(m) ==> lib.decode(lib.encode(m)) == Some(m))
    && (forall l: seq<Sum> {:trigger lib.sums(l)} :: (forall s: Sum :: s in l ==> HashLine(lib, s)) ==>
          lib.parseSums(lib.sums(l)) == Some(l))
    && (forall fs: seq<P.File> {:trigger lib.sort(fs)} :: multiset(lib.sort(fs)) == multiset(fs))
    && (forall ps: seq<string> {:trigger lib.order(ps)} :: multiset(lib.order(ps)) == multiset(ps))
  }

  const RECORD: string := "certificate-record.json"
  const KEY: string := "public-key.pem"
  const SIGNATURE: string := "signature.sig"
  const SUMS: string := "sha256sums.txt"
  const MAX_FILE_COUNT: nat := 250
  const MAX_ENTRY_BYTES: nat := 200 * 1024 * 1024
  const MAX_TOTAL_BYTES: nat := 500 * 1024 * 1024

  // ---------------------------------------------------------------- reading an archive

  function Names(a: Archive): (ns: seq<string>)
    ensures |ns| == |a| && forall i :: 0 <= i < |a| ==> ns[i] == a[i].name
  { seq(|a|, i requires 0 <= i < |a| => a[i].name) }

  predicate Distinct<T(==)>(s: seq<T>) { forall i, j :: 0 <= i < j < |s| ==> s[i] != s[j] }

  function Find(a: Archive, name: string): (r: Option<bytes>)
    ensures r.Some? ==> Item(name, r.value) in a
    ensures r.None? ==> forall x :: x in a ==> x.name != name
  {
    if a == [] then None
    else if a[0].name == name then Some(a[0].content)
    else Find(a[1..], name)
  }

  function TotalBytes(a: Archive): nat { if a == [] then 0 else |a[0].content| + TotalBytes(a[1..]) }

  predicate WithinLimits(a: Archive) {
    |a| <= MAX_FILE_COUNT && (forall x :: x in a ==> |x.content| <= MAX_ENTRY_BYTES) && TotalBytes(a) <= MAX_TOTAL_BYTES
  }

  predicate IsManifest(name: string) { name == MANIFEST || EndsWith(name, MANIFEST_SUFFIX) }

  function ManifestNames(ns: seq<string>): (r: seq<string>)
    ensures forall n :: n in r <==> n in ns && IsManifest(n)
  {
    if ns == [] then []
    else if IsManifest(ns[0]) then [ns[0]] + ManifestNames(ns[1..])
    else ManifestNames(ns[1..])
  }

  /** `readBytes`: only safe paths, below the root. */
  function Read(a: Archive, root: string, path: string): Option<bytes> {
    if SafeRelative(path) then Find(a, root + path) else None
  }

  // ---------------------------------------------------------------- the checks

  predicate EvidenceOk(lib: Lib, a: Archive, root: string, f: P.File) {
    var c := Read(a, root, f.path);
    c.Some? && lib.sha(c.value) == f.sha && |c.value| == f.length
  }

  predicate PhotoDecodes(lib: Lib, a: Archive, root: string, p: P.Photograph) {
    var c := Read(a, root, p.path);
    c.Some? && lib.image(c.value, p.mediaType) == Some((p.width, p.height))
  }

  function PathsOf(files: seq<P.File>): set<string> { set f | f in files :: f.path }

  function Expected(m: Manifest): set<string> { PathsOf(m.files) + {MANIFEST, SIGNATURE, SUMS} }

  predicate StartsWith(s: string, prefix: string) { |prefix| <= |s| && s[..|prefix|] == prefix }

  /** The names below the root, without it. */
  function Relative(ns: seq<string>, root: string): seq<string> {
    if ns == [] then []
    else if StartsWith(ns[0], root) then [ns[0][|root|..]] + Relative(ns[1..], root)
    else Relative(ns[1..], root)
  }

  predicate InventoryOk(a: Archive, root: string, m: Manifest) {
    var relative := Relative(Names(a), root);
    && (forall n :: n in Names(a) ==> StartsWith(n, root))
    && Distinct(relative)
    && (forall n :: n in relative ==> n in Expected(m)) && (forall n :: n in Expected(m) ==> n in relative)
    && |relative| == |Expected(m)|
  }

  predicate SumOk(lib: Lib, a: Archive, root: string, s: Sum) {
    var c := Read(a, root, s.path);
    c.Some? && lib.sha(c.value) == s.sha
  }

  predicate SumsOk(lib: Lib, a: Archive, root: string) {
    var text := Read(a, root, SUMS);
    && text.Some? && lib.parseSums(text.value).Some?
    && (var lines := lib.parseSums(text.value).value; lines != [] && forall s :: s in lines ==> SumOk(lib, a, root, s))
  }

  predicate SignatureOk(lib: Lib, a: Archive, root: string, key: bytes, message: bytes) {
    var s := Read(a, root, SIGNATURE);
    s.Some? && lib.signed(key, message, s.value)
  }

  /** Images are decoded from schema 2.1 on. */
  predicate PhotographsOk(lib: Lib, a: Archive, root: string, m: Manifest, schema: P.Schema) {
    && P.Accepted(schema, m.files, m.photographs)
    && (schema != P.V20 ==> forall p :: p in m.photographs ==> PhotoDecodes(lib, a, root, p))
  }

  /** A manifest that names no record file gets a warning. */
  predicate RecordOk(lib: Lib, a: Archive, root: string, m: Manifest) {
    m.record.None? ||
    (var c := Read(a, root, m.record.value.file); c.Some? && lib.sha(c.value) == m.record.value.sha)
  }

  /** The checks that look at the version: an unknown one gets warnings only, a mismatched one fails. */
  predicate VersionOk(lib: Lib, a: Archive, root: string, m: Manifest) {
    match VersionOf(m.identifiers)
    case V1 => lib.schemaOk(m) && InventoryOk(a, root, m)
    case V2(schema) =>
      lib.schemaOk(m) && lib.identityOk(m) && PhotographsOk(lib, a, root, m, schema) && InventoryOk(a, root, m)
    case Mismatch => false
    case Unknown => true
  }

  /** No check failed. */
  predicate AllPass(lib: Lib, a: Archive, root: string, m: Manifest, message: bytes, key: bytes) {
    && VersionOk(lib, a, root, m)
    && lib.fingerprint(key) == m.fingerprint
    && SignatureOk(lib, a, root, key, message)
    && m.files != [] && (forall f :: f in m.files ==> EvidenceOk(lib, a, root, f))
    && RecordOk(lib, a, root, m)
    && SumsOk(lib, a, root)
  }

  datatype VerifyError = DuplicateEntry | LimitExceeded | NoManifest | ManyManifests | ManifestUnreadable | KeyMissing

  function RootOf(name: string): string
    requires IsManifest(name)
  { name[..|name| - |MANIFEST|] }

  /** `verifyCertificateZip`: an error, or whether no check failed. */
  function Verify(lib: Lib, a: Archive): Result<bool, VerifyError> {
    if !Distinct(Names(a)) then Err(DuplicateEntry)
    else if !WithinLimits(a) then Err(LimitExceeded)
    else
      var found := ManifestNames(Names(a));
      if |found| == 0 then Err(NoManifest)
      else if |found| > 1 then Err(ManyManifests)
      else
        assert found[0] in found;
        var root := RootOf(found[0]);
        match Read(a, root, MANIFEST)
        case None => Err(ManifestUnreadable)
        case Some(message) =>
          match lib.decode(message)
          case None => Err(ManifestUnreadable)
          case Some(m) =>
            match Read(a, root, KEY)
            case None => Err(KeyMissing)
            case Some(key) => Ok(AllPass(lib, a, root, m, message, key))
  }

  // ---------------------------------------------------------------- the builder

  datatype Part = Part(path: string, role: string, mediaType: string, content: bytes)

  /** `files.set(path, content)` on an insertion-ordered Map. */
  function SetItem(items: seq<Item>, path: string, content: bytes): seq<Item> {
    if items == [] then [Item(path, content)]
    else if items[0].name == path then [Item(path, content)] + items[1..]
    else [items[0]] + SetItem(items[1..], path, content)
  }

  function FileOf(lib: Lib, p: Part): P.File { P.File(p.path, p.role, lib.sha(p.content), |p.content|, p.mediaType) }

  function ItemsOf(parts: seq<Part>): (items: seq<Item>)
    ensures |items| == |parts| && forall i :: 0 <= i < |parts| ==> items[i] == Item(parts[i].path, parts[i].content)
  { seq(|parts|, i requires 0 <= i < |parts| => Item(parts[i].path, parts[i].content)) }

  function FilesOf(lib: Lib, parts: seq<Part>): (files: seq<P.File>)
    ensures |files| == |parts| && forall i :: 0 <= i < |parts| ==> files[i] == FileOf(lib, parts[i])
  { seq(|parts|, i requires 0 <= i < |parts| => FileOf(lib, parts[i])) }

  function PartPaths(parts: seq<Part>): (ps: seq<string>)
    ensures |ps| == |parts| && forall i :: 0 <= i < |parts| ==> ps[i] == parts[i].path
  { seq(|parts|, i requires 0 <= i < |parts| => parts[i].path) }

  lemma {:induction false} SetNew(items: seq<Item>, path: string, content: bytes)
    requires forall x :: x in items ==> x.name != path
    ensures SetItem(items, path, content) == items + [Item(path, content)]
  {
    if items != [] {
      assert items[0] in items;
      SetNew(items[1..], path, content);
      assert items == [items[0]] + items[1..];
    }
  }

  /** The calls of `addEvidenceFile`: the file map and the manifest list grow together. */
  method AddEvidenceFiles(lib: Lib, parts: seq<Part>) returns (files: seq<Item>, manifestFiles: seq<P.File>)
    requires Distinct(PartPaths(parts))
    ensures files == ItemsOf(parts) && manifestFiles == FilesOf(lib, parts)
  {
    files, manifestFiles := [], [];
    for i := 0 to |parts|
      invariant files == ItemsOf(parts)[..i] && manifestFiles == FilesOf(lib, parts)[..i]
    {
      forall x | x in files ensures x.name != parts[i].path {
        var j :| 0 <= j < i && x == ItemsOf(parts)[j];
        assert PartPaths(parts)[j] != PartPaths(parts)[i];
      }
      SetNew(files, parts[i].path, parts[i].content);
      files := SetItem(files, parts[i].path, parts[i].content);
      manifestFiles := manifestFiles + [FileOf(lib, parts[i])];
    }
  }

  /** The checksum lines, one per file, in sorted order. */
  method ChecksumLines(lib: Lib, items: seq<Item>, paths: seq<string>) returns (lines: seq<Sum>)
    requires forall p :: p in paths ==> Find(items, p).Some?
    ensures |lines| == |paths|
    ensures forall i :: 0 <= i < |paths| ==>
              lines[i].path == paths[i] && Find(items, paths[i]).Some?
                && lines[i].sha == lib.sha(Find(items, paths[i]).value)
  {
    lines := [];
    for i := 0 to |paths|
      invariant |lines| == i
      invariant forall j :: 0 <= j < i ==>
                  lines[j].path == paths[j] && Find(items, paths[j]).Some?
                    && lines[j].sha == lib.sha(Find(items, paths[j]).value)
    {
      var content := Find(items, paths[i]);
      lines := lines + [Sum(lib.sha(content.value), paths[i])];
    }
  }

  function Below(root: string, items: seq<Item>): (a: Archive)
    ensures |a| == |items| && forall i :: 0 <= i < |items| ==> a[i] == Item(root + items[i].name, items[i].content)
  { seq(|items|, i requires 0 <= i < |items| => Item(root + items[i].name, items[i].content)) }
}
