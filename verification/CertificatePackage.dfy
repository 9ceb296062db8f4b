/** `buildCertificatePackage` as a whole: what it makes verifies, and what a manifest binds. */
module CertificatePackage {
  import opened Prelude
  import opened FileNames
  import opened Paths
  import opened Package
  import opened PackageRoundTrip
  import opened ManifestVersion
  import opened PackageBuilder
  import P = Photo

  datatype BuildError = ManifestInvalid

  /** What the version 2.2 schema says of photographs: at least one, all of sensible size, none with a crop. */
  ghost predicate SchemaLaw(lib: Lib) {
    forall m: Manifest {:trigger lib.schemaOk(m)} :: lib.schemaOk(m) && VersionOf(m.identifiers) == V2(P.V22) ==>
      m.photographs != [] && forall p :: p in m.photographs ==> P.GoodDimensions(p.width, p.height) && p.crop.None?
  }

  /** The key pair belongs together, and the form's photographs have the size they decode to. */
  ghost predicate Inputs(lib: Lib, c: Contents, photos: seq<PhotoFile>, sign: bytes -> bytes) {
    && (forall message {:trigger sign(message)} :: lib.signed(c.key, message, sign(message)))
    && (forall p :: p in photos ==> lib.image(p.content, p.mediaType) == Some((p.width, p.height)))
  }

  lemma PhotoPathsDiffer(photos: seq<PhotoFile>, names: seq<string>, i: nat, j: nat)
    requires |names| == |photos| && LowerDistinct(names) && i < j < |names|
    ensures PhotoPath(names[i]) != PhotoPath(names[j])
  {
    assert Lower(names[i]) != Lower(names[j]);
    ConcatInjective(PHOTO_FOLDER + "/", names[i], names[j]);
  }

  lemma PhotoPartAt(fold: Fold, c: Contents, photos: seq<PhotoFile>, names: seq<string>, logo: Option<LogoFile>, i: nat)
    requires |names| == |photos| && i < |photos|
    ensures var parts := AllParts(fold, c, photos, names, logo);
            5 + i < |parts| && parts[5 + i] == PhotoParts(photos, names)[i]
  {
  }

  lemma PhotographsAccepted(lib: Lib, fold: Fold, c: Contents, photos: seq<PhotoFile>, names: seq<string>,
                            logo: Option<LogoFile>, m: Manifest)
    requires |names| == |photos| && LowerDistinct(names) && SchemaLaw(lib) && lib.schemaOk(m)
    requires m.identifiers == BUILT && GoodParts(AllParts(fold, c, photos, names, logo))
    requires multiset(m.files) == multiset(FilesOf(lib, AllParts(fold, c, photos, names, logo)))
    requires m.photographs == Photographs(lib, photos, names)
    ensures P.Accepted(P.V22, m.files, m.photographs)
  {
    var gs, parts := m.photographs, AllParts(fold, c, photos, names, logo);
    BuiltVersion();
    forall i | 0 <= i < |gs|
      ensures !P.SeenBefore(gs, i) && P.Bound(P.V22, m.files, gs[i]) && P.CropRule(P.V22, i, gs[i])
    {
      forall j | 0 <= j < i ensures gs[j].path != gs[i].path { PhotoPathsDiffer(photos, names, j, i); }
      PhotoPartAt(fold, c, photos, names, logo, i);
      MatchesOne(lib, parts, m.files, 5 + i);
      assert gs[i] in gs;
    }
  }

  lemma KeyAndRecord(fold: Fold, c: Contents, photos: seq<PhotoFile>, names: seq<string>, logo: Option<LogoFile>)
    requires |names| == |photos|
    ensures exists p :: p in AllParts(fold, c, photos, names, logo) && p.path == KEY && p.content == c.key
    ensures exists p :: p in AllParts(fold, c, photos, names, logo) && p.path == RECORD && p.content == c.record
  {
    var parts := AllParts(fold, c, photos, names, logo);
    assert parts[0] == FirstParts(c)[0] && parts[0] in parts;
    assert parts[|parts| - 5] == LastParts(c)[0] && parts[|parts| - 5] in parts;
  }

  lemma PhotographDecodes(lib: Lib, fold: Fold, c: Contents, photos: seq<PhotoFile>, names: seq<string>,
                          logo: Option<LogoFile>, sign: bytes -> bytes, g: P.Photograph)
    requires |names| == |photos| && Inputs(lib, c, photos, sign) && g in Photographs(lib, photos, names)
    ensures exists p :: p in AllParts(fold, c, photos, names, logo) && p.path == g.path
                        && lib.image(p.content, g.mediaType) == Some((g.width, g.height))
  {
    var i :| 0 <= i < |photos| && Photographs(lib, photos, names)[i] == g;
    PhotoPartAt(fold, c, photos, names, logo, i);
    assert photos[i] in photos
           && AllParts(fold, c, photos, names, logo)[5 + i] in AllParts(fold, c, photos, names, logo);
  }

  lemma BuiltIsHonest(lib: Lib, fold: Fold, c: Contents, photos: seq<PhotoFile>, names: seq<string>,
                      logo: Option<LogoFile>, sign: bytes -> bytes, m: Manifest, parts: seq<Part>)
    requires |names| == |photos| && LowerDistinct(names) && SchemaLaw(lib) && lib.schemaOk(m) && lib.identityOk(m)
    requires Inputs(lib, c, photos, sign) && GoodParts(parts) && parts == AllParts(fold, c, photos, names, logo)
    requires multiset(m.files) == multiset(FilesOf(lib, parts))
    requires m == Manifest(BUILT, m.files, Photographs(lib, photos, names), Some(Record(RECORD, lib.sha(c.record))),
                           lib.fingerprint(c.key), m.rest)
    ensures Honest(lib, parts, sign, m)
  {
    PhotographsAccepted(lib, fold, c, photos, names, logo, m);
    KeyAndRecord(fold, c, photos, names, logo);
    forall g | g in m.photographs
      ensures exists p ::
                p in parts && p.path == g.path && lib.image(p.content, g.mediaType) == Some((g.width, g.height))
    {
      PhotographDecodes(lib, fold, c, photos, names, logo, sign, g);
    }
  }

  /** The files of one build, below the folder named after the certificate. */
  ghost predicate BuiltFrom(lib: Lib, fold: Fold, id: string, c: Contents, photos: seq<PhotoFile>, names: seq<string>,
                            logo: Option<LogoFile>, sign: bytes -> bytes, m: Manifest, a: Archive)
    requires |names| == |photos|
  {
    exists lines ::
      a == Below(Folder(Sanitize(fold, id)), Sealed(lib, AllParts(fold, c, photos, names, logo), sign, m, lines))
  }

  /**
   `buildCertificatePackage`. A build whose manifest passes the schema verifies with no failed check when it is within
   the limits and names an official meteorite, unless a photograph or the logo ends up being called `manifest.json`:
   then the verifier refuses it for two manifests.
   */
  method BuildCertificatePackage(lib: Lib, fold: Fold, id: string, c: Contents, photos: seq<PhotoFile>,
                                 logo: Option<LogoFile>, sign: bytes -> bytes, rest: bytes)
    returns (r: Result<Archive, BuildError>, m: Manifest, names: seq<string>)
    requires Lawful(lib) && SchemaLaw(lib) && Inputs(lib, c, photos, sign)
    ensures |names| == |photos| && LowerDistinct(names)
    ensures multiset(m.files) == multiset(FilesOf(lib, AllParts(fold, c, photos, names, logo)))
    ensures m == Manifest(BUILT, m.files, Photographs(lib, photos, names), Some(Record(RECORD, lib.sha(c.record))),
                          lib.fingerprint(c.key), rest)
    ensures r.Ok? <==> lib.schemaOk(m)
    ensures r.Ok? ==> BuiltFrom(lib, fold, id, c, photos, names, logo, sign, m, r.value)
    ensures r.Ok? && lib.identityOk(m) && WithinLimits(r.value) ==>
              Verify(lib, r.value)
              == if ClaimsManifest(fold, photos) || LogoIsManifest(fold, logo) then Err(ManyManifests) else Ok(true)
  {
    names := NamePhotos(fold, photos, MANIFEST) by { ManifestIsPlain(); }
    var parts := AllParts(fold, c, photos, names, logo);
    AllPartsGood(fold, c, photos, names, logo);
    LooksLikeTwo(fold, c, photos, names, logo);
    var items: seq<Item>;
    ghost var lines;
    m, items, lines := Seal(lib, parts, sign, Photographs(lib, photos, names), lib.sha(c.record),
      lib.fingerprint(c.key), rest);
    if !lib.schemaOk(m) { return Err(ManifestInvalid), m, names; }
    var safeId := Sanitize(fold, id);
    r := Ok(Below(Folder(safeId), items));
    if lib.identityOk(m) && WithinLimits(r.value) {
      BuiltIsHonest(lib, fold, c, photos, names, logo, sign, m, parts);
      SealedVerifies(lib, safeId, parts, sign, m, lines);
    }
  }

  // ---------------------------------------------------------------- what a manifest binds

  /** No check failed, for the one manifest of the archive, which has these bytes. */
  ghost predicate PassesWith(lib: Lib, a: Archive, root: string, message: bytes) {
    && Verify(lib, a) == Ok(true)
    && ManifestNames(Names(a)) == [root + MANIFEST]
    && Read(a, root, MANIFEST) == Some(message)
  }

  /** Every archive that passes does so for one root and one manifest. */
  lemma PassingHasManifest(lib: Lib, a: Archive)
    requires Verify(lib, a) == Ok(true)
    ensures exists root, message :: PassesWith(lib, a, root, message)
  {
    var found := ManifestNames(Names(a));
    assert found[0] in found;
    RootAndName(found[0]);
    assert found == [RootOf(found[0]) + MANIFEST];
    assert PassesWith(lib, a, RootOf(found[0]), Read(a, RootOf(found[0]), MANIFEST).value);
  }

  lemma RootAndName(name: string)
    requires IsManifest(name)
    ensures RootOf(name) + MANIFEST == name
  {
    var k := |name| - |MANIFEST|;
    assert MANIFEST_SUFFIX[1..] == MANIFEST;
    if EndsWith(name, MANIFEST_SUFFIX) {
      assert name[k..] == name[k - 1..][1..];
    }
    assert name == name[..k] + name[k..];
  }

  /** The manifest of a passing archive, and the file its checks found the key in. */
  lemma PassingChecks(lib: Lib, a: Archive, root: string, message: bytes) returns (m: Manifest, key: bytes)
    requires PassesWith(lib, a, root, message)
    ensures lib.decode(message) == Some(m) && Read(a, root, KEY) == Some(key)
    ensures AllPass(lib, a, root, m, message, key) && IsManifest(root + MANIFEST) && RootOf(root + MANIFEST) == root
  {
    var name := root + MANIFEST;
    assert name in ManifestNames(Names(a));
    assert RootOf(name) == root;
    m, key := lib.decode(message).value, Read(a, root, KEY).value;
  }

  /** Different contents of one length and one hash. */
  predicate Collide(lib: Lib, x: bytes, y: bytes) { x != y && |x| == |y| && lib.sha(x) == lib.sha(y) }

  /** Both archives hold the same bytes at the path, or two contents that collide under the hash. */
  predicate SameOrCollide(lib: Lib, a: Archive, b: Archive, rootA: string, rootB: string, path: string) {
    var x, y := Read(a, rootA, path), Read(b, rootB, path);
    x.Some? && y.Some? && (x == y || Collide(lib, x.value, y.value))
  }

  /**
   Two archives that pass with the same manifest bytes, of whatever version, hold at every path the manifest lists the
   same bytes, or else two contents of one length and one hash.
   */
  lemma ListedFilesBind(lib: Lib, a: Archive, b: Archive, rootA: string, rootB: string, message: bytes)
    requires PassesWith(lib, a, rootA, message) && PassesWith(lib, b, rootB, message)
    ensures lib.decode(message).Some?
    ensures forall f :: f in lib.decode(message).value.files ==> SameOrCollide(lib, a, b, rootA, rootB, f.path)
  {
    var m, keyA := PassingChecks(lib, a, rootA, message);
    var _, keyB := PassingChecks(lib, b, rootB, message);
    forall f | f in m.files ensures SameOrCollide(lib, a, b, rootA, rootB, f.path) {
      assert EvidenceOk(lib, a, rootA, f) && EvidenceOk(lib, b, rootB, f);
    }
  }

  /** The same paths below the roots, and nothing beside them. */
  ghost predicate SamePaths(a: Archive, b: Archive, rootA: string, rootB: string) {
    && (forall n :: n in Names(a) ==> StartsWith(n, rootA)) && (forall n :: n in Names(b) ==> StartsWith(n, rootB))
    && (forall n :: n in Relative(Names(a), rootA) <==> n in Relative(Names(b), rootB))
    && |a| == |b|
  }

  predicate KnownMessage(lib: Lib, message: bytes) {
    lib.decode(message).Some? && Known(VersionOf(lib.decode(message).value.identifiers))
  }

  /** Two archives that pass with the same manifest bytes of a known version hold the same paths. */
  lemma SameManifestBinds(lib: Lib, a: Archive, b: Archive, rootA: string, rootB: string, message: bytes)
    requires PassesWith(lib, a, rootA, message) && PassesWith(lib, b, rootB, message) && KnownMessage(lib, message)
    ensures SamePaths(a, b, rootA, rootB)
  {
    var m, keyA := PassingChecks(lib, a, rootA, message);
    var _, keyB := PassingChecks(lib, b, rootB, message);
    assert InventoryOk(a, rootA, m) && InventoryOk(b, rootB, m);
    RelativeLength(Names(a), rootA);
    RelativeLength(Names(b), rootB);
  }

  lemma {:induction false} RelativeLength(ns: seq<string>, root: string)
    requires forall n :: n in ns ==> StartsWith(n, root)
    ensures |Relative(ns, root)| == |ns|
  {
    if ns != [] {
      assert ns[0] in ns;
      RelativeLength(ns[1..], root);
    }
  }

  // ---------------------------------------------------------------- an unknown version binds no paths

  lemma {:induction false} FindKept(a: Archive, x: Item, name: string)
    requires Find(a, name).Some?
    ensures Find(a + [x], name) == Find(a, name)
  {
    if a[0].name != name {
      assert (a + [x])[1..] == a[1..] + [x];
      FindKept(a[1..], x, name);
    }
  }

  lemma ReadKept(a: Archive, x: Item, root: string, path: string)
    ensures Read(a, root, path).Some? ==> Read(a + [x], root, path) == Read(a, root, path)
  {
    if Read(a, root, path).Some? { FindKept(a, x, root + path); }
  }

  lemma {:induction false} ManifestPush(ns: seq<string>, name: string)
    requires !IsManifest(name)
    ensures ManifestNames(ns + [name]) == ManifestNames(ns)
  {
    if ns == [] {
      assert ns + [name] == [name] && [name][1..] == [];
    } else {
      assert (ns + [name])[1..] == ns[1..] + [name];
      ManifestPush(ns[1..], name);
    }
  }

  /** The archive with the file still has distinct names, the same manifest, and is within the limits if it says so. */
  lemma NamesPush(a: Archive, x: Item)
    requires Distinct(Names(a)) && x.name !in Names(a) && !IsManifest(x.name)
    ensures Names(a + [x]) == Names(a) + [x.name] && Distinct(Names(a + [x]))
    ensures ManifestNames(Names(a + [x])) == ManifestNames(Names(a))
  {
    assert Names(a + [x]) == Names(a) + [x.name];
    ManifestPush(Names(a), x.name);
  }

  lemma ChecksKept(lib: Lib, a: Archive, x: Item, root: string, m: Manifest, message: bytes, key: bytes)
    requires AllPass(lib, a, root, m, message, key) && VersionOf(m.identifiers) == Unknown
    ensures AllPass(lib, a + [x], root, m, message, key)
  {
    ReadKept(a, x, root, SIGNATURE);
    ReadKept(a, x, root, SUMS);
    if m.record.Some? { ReadKept(a, x, root, m.record.value.file); }
    forall f | f in m.files ensures EvidenceOk(lib, a + [x], root, f) {
      assert EvidenceOk(lib, a, root, f);
      ReadKept(a, x, root, f.path);
    }
    var lines := lib.parseSums(Read(a, root, SUMS).value).value;
    forall s | s in lines ensures SumOk(lib, a + [x], root, s) {
      assert SumOk(lib, a, root, s);
      ReadKept(a, x, root, s.path);
    }
  }

  /**
   An archive that passes with a manifest of unknown version still passes with any further file that is not a manifest,
   wherever it is put, as long as it fits the limits.
   */
  lemma UnknownVersionTakesMore(lib: Lib, a: Archive, root: string, message: bytes, x: Item)
    requires PassesWith(lib, a, root, message) && !KnownMessage(lib, message)
    requires x.name !in Names(a) && !IsManifest(x.name) && WithinLimits(a + [x])
    ensures PassesWith(lib, a + [x], root, message)
  {
    var m, key := PassingChecks(lib, a, root, message);
    NamesPush(a, x);
    ReadKept(a, x, root, MANIFEST);
    ReadKept(a, x, root, KEY);
    ChecksKept(lib, a, x, root, m, message, key);
    VerifyOpens(lib, a + [x], root, m, message, key);
  }

  // ---------------------------------------------------------------- so paths are bound exactly for known versions

  function Longest(ns: seq<string>): (n: nat)
    ensures forall s :: s in ns ==> |s| <= n
  {
    if ns == [] then 0 else Max(|ns[0]|, Longest(ns[1..]))
  }

  /** A name no file of the archive has and no manifest is called. */
  function NewName(ns: seq<string>, root: string): (name: string)
    ensures StartsWith(name, root) && name !in ns && !IsManifest(name)
  {
    var name := root + seq(Longest(ns) + 1, i => 'x');
    assert |name| > Longest(ns) && name[|name| - 1] == 'x';
    LastLetter(name);
    name
  }

  lemma LastLetter(name: string)
    requires name != "" && name[|name| - 1] == 'x'
    ensures !IsManifest(name)
  {
    assert MANIFEST[|MANIFEST| - 1] == 'n' && MANIFEST_SUFFIX[|MANIFEST_SUFFIX| - 1] == 'n';
    if |name| >= |MANIFEST_SUFFIX| {
      assert name[|name| - |MANIFEST_SUFFIX|..][|MANIFEST_SUFFIX| - 1] == 'x';
    }
  }

  lemma {:induction false} TotalPush(a: Archive, x: Item)
    ensures TotalBytes(a + [x]) == TotalBytes(a) + |x.content|
  {
    if a == [] {
      assert a + [x] == [x] && [x][1..] == [];
    } else {
      assert (a + [x])[1..] == a[1..] + [x];
      TotalPush(a[1..], x);
    }
  }

  ghost predicate BindsPaths(lib: Lib, a: Archive, root: string, message: bytes) {
    forall b, rootB :: PassesWith(lib, b, rootB, message) ==> SamePaths(a, b, root, rootB)
  }

  /** An empty file fits wherever there is room for one more. */
  lemma FitsOneMore(lib: Lib, a: Archive, root: string, message: bytes, x: Item)
    requires PassesWith(lib, a, root, message) && |a| < MAX_FILE_COUNT && x.content == []
    ensures WithinLimits(a + [x])
  {
    TotalPush(a, x);
  }

  /** With room for one more file there is another archive that passes, and it has one more path. */
  lemma OneMorePasses(lib: Lib, a: Archive, root: string, message: bytes) returns (b: Archive)
    requires PassesWith(lib, a, root, message) && |a| < MAX_FILE_COUNT && !KnownMessage(lib, message)
    ensures PassesWith(lib, b, root, message) && |b| == |a| + 1
  {
    var none: bytes := [];
    var x := Item(NewName(Names(a), root), none);
    FitsOneMore(lib, a, root, message, x);
    UnknownVersionTakesMore(lib, a, root, message, x);
    b := a + [x];
  }

  /**
   The manifest of a passing archive with room for one more file binds the paths, of every archive that passes with it,
   exactly when its version is known.
   */
  lemma PathsBoundExactly(lib: Lib, a: Archive, root: string, message: bytes)
    requires PassesWith(lib, a, root, message) && |a| < MAX_FILE_COUNT
    ensures BindsPaths(lib, a, root, message) <==> KnownMessage(lib, message)
  {
    if KnownMessage(lib, message) {
      forall b, rootB | PassesWith(lib, b, rootB, message) ensures SamePaths(a, b, root, rootB) {
        SameManifestBinds(lib, a, b, root, rootB, message);
      }
    } else {
      var b := OneMorePasses(lib, a, root, message);
      assert !SamePaths(a, b, root, root);
    }
  }
}
