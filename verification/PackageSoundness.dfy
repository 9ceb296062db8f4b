/** What an archive that passes verification holds, in terms of its files alone. */
module PackageSoundness {
  import opened Prelude
  import opened FileNames
  import opened Paths
  import opened ManifestVersion
  import opened Package
  import opened PackageRoundTrip
  import opened PackageBuilder
  import opened CertificatePackage
  import P = Photo

  /** The archive holds these bytes at a safe path below the root. */
  predicate Holds(a: Archive, root: string, path: string, content: bytes) {
    SafeRelative(path) && Item(root + path, content) in a
  }

  lemma ReadsHeld(a: Archive, root: string, path: string)
    requires Distinct(Names(a))
    ensures forall c :: Read(a, root, path) == Some(c) <==> Holds(a, root, path, c)
  {
    forall c | Holds(a, root, path, c) ensures Read(a, root, path) == Some(c) {
      FindDistinct(a, Item(root + path, c));
    }
  }

  /** The signature file signs the manifest's exact bytes under the key, and the manifest names that key. */
  ghost predicate SignedBy(lib: Lib, a: Archive, root: string, message: bytes, m: Manifest, key: bytes) {
    && Holds(a, root, "public-key.pem", key) && lib.fingerprint(key) == m.fingerprint
    && exists s :: Holds(a, root, "signature.sig", s) && lib.signed(key, message, s)
  }

  /** Every listed file is there, with its hash and its length; there is at least one. */
  ghost predicate FilesHeld(lib: Lib, a: Archive, root: string, m: Manifest) {
    && m.files != []
    && forall f :: f in m.files ==>
         exists c :: Holds(a, root, f.path, c) && lib.sha(c) == f.sha && |c| == f.length
  }

  /** The certificate record has the recorded hash, if the manifest names one. */
  ghost predicate RecordHeld(lib: Lib, a: Archive, root: string, m: Manifest) {
    m.record.Some? ==>
      exists c :: Holds(a, root, m.record.value.file, c) && lib.sha(c) == m.record.value.sha
  }

  /** The checksum file has lines, and each names a file with its hash. */
  ghost predicate LinesHeld(lib: Lib, a: Archive, root: string) {
    exists text :: Holds(a, root, "sha256sums.txt", text) && LinesGood(lib, a, root, text)
  }

  ghost predicate LinesGood(lib: Lib, a: Archive, root: string, text: bytes) {
    && lib.parseSums(text).Some? && lib.parseSums(text).value != []
    && forall s :: s in lib.parseSums(text).value ==> exists c :: Holds(a, root, s.path, c) && lib.sha(c) == s.sha
  }

  predicate Declared(m: Manifest, path: string) {
    || path == "manifest.json" || path == "signature.sig" || path == "sha256sums.txt"
    || exists f :: f in m.files && f.path == path
  }

  /** The archive's files are exactly the declared paths below the root. */
  ghost predicate ExactlyDeclared(a: Archive, root: string, m: Manifest) {
    && (forall x :: x in a ==> StartsWith(x.name, root) && Declared(m, x.name[|root|..]))
    && (forall path :: Declared(m, path) ==> exists c :: Item(root + path, c) in a)
  }

  /** Every photograph decodes to its signed dimensions. */
  ghost predicate PhotographsHeld(lib: Lib, a: Archive, root: string, m: Manifest) {
    forall p :: p in m.photographs ==>
      exists c :: Holds(a, root, p.path, c) && lib.image(c, p.mediaType) == Some((p.width, p.height))
  }

  /** What the claimed version asks for; an unknown one nothing, and mismatched identifiers never pass. */
  ghost predicate VersionHeld(lib: Lib, a: Archive, root: string, m: Manifest) {
    match VersionOf(m.identifiers)
    case V1 => lib.schemaOk(m) && ExactlyDeclared(a, root, m)
    case V2(schema) =>
      && lib.schemaOk(m) && lib.identityOk(m) && ExactlyDeclared(a, root, m)
      && P.Accepted(schema, m.files, m.photographs)
      && (schema == P.V21 || schema == P.V22 ==> PhotographsHeld(lib, a, root, m))
    case Mismatch => false
    case Unknown => true
  }

  /** The archive can be opened: distinct names, within the limits, and one manifest, at this root. */
  ghost predicate OpensAt(a: Archive, root: string) {
    && (forall i, j :: 0 <= i < j < |a| ==> a[i].name != a[j].name)
    && |a| <= 250 && TotalBytes(a) <= 500 * 1024 * 1024
    && (forall x :: x in a ==> |x.content| <= 200 * 1024 * 1024)
    && (exists x :: x in a && x.name == root + "manifest.json")
    && (forall x :: x in a ==>
          ((x.name == "manifest.json" || EndsWith(x.name, "/manifest.json")) <==> x.name == root + "manifest.json"))
  }

  ghost predicate Genuine(lib: Lib, a: Archive, root: string, message: bytes) {
    && OpensAt(a, root) && Holds(a, root, "manifest.json", message) && lib.decode(message).Some?
    && (var m := lib.decode(message).value;
        && (exists key :: SignedBy(lib, a, root, message, m, key))
        && FilesHeld(lib, a, root, m) && RecordHeld(lib, a, root, m) && LinesHeld(lib, a, root)
        && VersionHeld(lib, a, root, m))
  }

  // ---------------------------------------------------------------- check by check

  lemma SignatureExactly(lib: Lib, a: Archive, root: string, message: bytes, m: Manifest, key: bytes)
    requires Distinct(Names(a)) && Holds(a, root, "public-key.pem", key)
    ensures SignatureOk(lib, a, root, key, message) && lib.fingerprint(key) == m.fingerprint
            <==> SignedBy(lib, a, root, message, m, key)
  {
    ReadsHeld(a, root, SIGNATURE);
  }

  lemma FilesExactly(lib: Lib, a: Archive, root: string, m: Manifest)
    requires Distinct(Names(a))
    ensures m.files != [] && (forall f :: f in m.files ==> EvidenceOk(lib, a, root, f)) <==> FilesHeld(lib, a, root, m)
  {
    forall f
      ensures EvidenceOk(lib, a, root, f) <==>
                exists c :: Holds(a, root, f.path, c) && lib.sha(c) == f.sha && |c| == f.length
    {
      ReadsHeld(a, root, f.path);
    }
  }

  lemma RecordExactly(lib: Lib, a: Archive, root: string, m: Manifest)
    requires Distinct(Names(a))
    ensures RecordOk(lib, a, root, m) <==> RecordHeld(lib, a, root, m)
  {
    if m.record.Some? { ReadsHeld(a, root, m.record.value.file); }
  }

  lemma LinesExactly(lib: Lib, a: Archive, root: string)
    requires Distinct(Names(a))
    ensures SumsOk(lib, a, root) <==> LinesHeld(lib, a, root)
  {
    ReadsHeld(a, root, SUMS);
    forall s: Sum
      ensures SumOk(lib, a, root, s) <==> exists c :: Holds(a, root, s.path, c) && lib.sha(c) == s.sha
    {
      ReadsHeld(a, root, s.path);
    }
    var text := Read(a, root, SUMS);
    if text.Some? { assert SumsOk(lib, a, root) <==> LinesGood(lib, a, root, text.value); }
  }

  lemma PhotographsExactly(lib: Lib, a: Archive, root: string, m: Manifest)
    requires Distinct(Names(a))
    ensures (forall p :: p in m.photographs ==> PhotoDecodes(lib, a, root, p)) <==> PhotographsHeld(lib, a, root, m)
  {
    forall p
      ensures PhotoDecodes(lib, a, root, p) <==>
                exists c :: Holds(a, root, p.path, c) && lib.image(c, p.mediaType) == Some((p.width, p.height))
    {
      ReadsHeld(a, root, p.path);
    }
  }

  lemma {:induction false} RelativeIn(ns: seq<string>, root: string, n: string)
    ensures n in Relative(ns, root) <==> root + n in ns
  {
    if ns != [] {
      RelativeIn(ns[1..], root, n);
      assert ns == [ns[0]] + ns[1..];
      if StartsWith(ns[0], root) { assert ns[0] == root + ns[0][|root|..]; }
      UnderRoot(root + n, root, n);
    }
  }

  lemma {:induction false} RelativeDistinct(ns: seq<string>, root: string)
    requires Distinct(ns)
    ensures Distinct(Relative(ns, root))
  {
    if ns != [] {
      RelativeDistinct(ns[1..], root);
      if StartsWith(ns[0], root) {
        RelativeIn(ns[1..], root, ns[0][|root|..]);
        assert ns[0] == root + ns[0][|root|..] && ns[0] !in ns[1..];
      }
    }
  }

  lemma DeclaredIsExpected(m: Manifest, path: string)
    ensures Declared(m, path) <==> path in Expected(m)
  {
  }

  lemma InventoryExactly(a: Archive, root: string, m: Manifest)
    requires Distinct(Names(a))
    ensures InventoryOk(a, root, m) <==> ExactlyDeclared(a, root, m)
  {
    var ns, relative := Names(a), Relative(Names(a), root);
    RelativeDistinct(ns, root);
    forall n ensures n in relative <==> exists c :: Item(root + n, c) in a {
      RelativeIn(ns, root, n);
      if root + n in ns {
        var i :| 0 <= i < |ns| && ns[i] == root + n;
        assert Item(root + n, a[i].content) == a[i] && a[i] in a;
      }
      if c :| Item(root + n, c) in a {
        var i :| 0 <= i < |a| && a[i] == Item(root + n, c);
        assert ns[i] == root + n;
      }
    }
    forall path ensures Declared(m, path) <==> path in Expected(m) { DeclaredIsExpected(m, path); }
    if InventoryOk(a, root, m) { DeclaredFromInventory(a, root, m); }
    if ExactlyDeclared(a, root, m) { InventoryFromDeclared(a, root, m); }
  }

  lemma DeclaredFromInventory(a: Archive, root: string, m: Manifest)
    requires InventoryOk(a, root, m)
    requires forall n :: n in Relative(Names(a), root) <==> exists c :: Item(root + n, c) in a
    requires forall path :: Declared(m, path) <==> path in Expected(m)
    ensures ExactlyDeclared(a, root, m)
  {
    forall x | x in a ensures StartsWith(x.name, root) && Declared(m, x.name[|root|..]) {
      var i :| 0 <= i < |a| && a[i] == x;
      assert Names(a)[i] == x.name && StartsWith(Names(a)[i], root);
      var path := x.name[|root|..];
      assert x.name == root + path;
      assert Item(root + path, x.content) in a;
      assert path in Expected(m);
    }
    forall path | Declared(m, path) ensures exists c :: Item(root + path, c) in a {
      assert path in Relative(Names(a), root);
    }
  }

  lemma InventoryFromDeclared(a: Archive, root: string, m: Manifest)
    requires ExactlyDeclared(a, root, m) && Distinct(Relative(Names(a), root))
    requires forall n :: n in Relative(Names(a), root) <==> exists c :: Item(root + n, c) in a
    requires forall path :: Declared(m, path) <==> path in Expected(m)
    ensures InventoryOk(a, root, m)
  {
    var relative := Relative(Names(a), root);
    forall n | n in Names(a) ensures StartsWith(n, root) {
      var i :| 0 <= i < |a| && Names(a)[i] == n;
      assert a[i] in a;
    }
    forall n | n in relative ensures n in Expected(m) {
      var c :| Item(root + n, c) in a;
      UnderRoot(root + n, root, n);
    }
    InventoryOf(a, root, m, relative);
  }

  lemma VersionExactly(lib: Lib, a: Archive, root: string, m: Manifest)
    requires Distinct(Names(a))
    ensures VersionOk(lib, a, root, m) <==> VersionHeld(lib, a, root, m)
  {
    InventoryExactly(a, root, m);
    PhotographsExactly(lib, a, root, m);
  }

  // ---------------------------------------------------------------- the archive

  lemma DistinctNames(a: Archive)
    ensures Distinct(Names(a)) <==> forall i, j :: 0 <= i < j < |a| ==> a[i].name != a[j].name
  {
    if forall i, j :: 0 <= i < j < |a| ==> a[i].name != a[j].name {
      forall i, j | 0 <= i < j < |Names(a)| ensures Names(a)[i] != Names(a)[j] {
        assert a[i].name != a[j].name;
      }
    }
    if Distinct(Names(a)) {
      forall i, j | 0 <= i < j < |a| ensures a[i].name != a[j].name {
        assert Names(a)[i] != Names(a)[j];
      }
    }
  }

  lemma OpensExactly(a: Archive, root: string)
    ensures OpensAt(a, root) <==>
              Distinct(Names(a)) && WithinLimits(a) && ManifestNames(Names(a)) == [root + MANIFEST]
  {
    DistinctNames(a);
    if OpensAt(a, root) {
      var x :| x in a && x.name == root + MANIFEST;
      var k :| 0 <= k < |a| && a[k] == x;
      forall i | 0 <= i < |a| ensures IsManifest(Names(a)[i]) <==> i == k {
        assert a[i] in a;
        if i < k { assert a[i].name != a[k].name; }
        if k < i { assert a[k].name != a[i].name; }
      }
      OnlyManifest(Names(a), k);
    }
    if Distinct(Names(a)) && ManifestNames(Names(a)) == [root + MANIFEST] { ManifestAt(a, root); }
  }

  lemma ManifestAt(a: Archive, root: string)
    requires ManifestNames(Names(a)) == [root + MANIFEST]
    ensures exists x :: x in a && x.name == root + MANIFEST
    ensures forall x :: x in a ==> (IsManifest(x.name) <==> x.name == root + MANIFEST)
  {
    var ns := Names(a);
    assert root + MANIFEST in ManifestNames(ns);
    var i :| 0 <= i < |ns| && ns[i] == root + MANIFEST;
    assert a[i] in a;
    forall x | x in a ensures IsManifest(x.name) <==> x.name == root + MANIFEST {
      var j :| 0 <= j < |a| && a[j] == x;
      assert ns[j] == x.name && (x.name in ManifestNames(ns) <==> IsManifest(x.name));
    }
  }

  lemma ChecksExactly(lib: Lib, a: Archive, root: string, message: bytes, m: Manifest, key: bytes)
    requires Distinct(Names(a)) && Holds(a, root, "public-key.pem", key)
    ensures AllPass(lib, a, root, m, message, key) <==>
              && SignedBy(lib, a, root, message, m, key)
              && FilesHeld(lib, a, root, m) && RecordHeld(lib, a, root, m) && LinesHeld(lib, a, root)
              && VersionHeld(lib, a, root, m)
  {
    SignatureExactly(lib, a, root, message, m, key);
    FilesExactly(lib, a, root, m);
    RecordExactly(lib, a, root, m);
    LinesExactly(lib, a, root);
    VersionExactly(lib, a, root, m);
  }

  /**
   An archive passes exactly when it is genuine: it opens, its manifest is signed by the key it names, every listed
   file, the record and every checksum line have their hashes, and what the claimed version asks for holds.
   */
  lemma PassesExactly(lib: Lib, a: Archive, root: string, message: bytes)
    ensures PassesWith(lib, a, root, message) <==> Genuine(lib, a, root, message)
  {
    OpensExactly(a, root);
    if PassesWith(lib, a, root, message) {
      var m, key := PassingChecks(lib, a, root, message);
      ReadsHeld(a, root, MANIFEST);
      ReadsHeld(a, root, KEY);
      ChecksExactly(lib, a, root, message, m, key);
    }
    if Genuine(lib, a, root, message) { GenuinePasses(lib, a, root, message); }
  }

  lemma GenuinePasses(lib: Lib, a: Archive, root: string, message: bytes)
    requires Genuine(lib, a, root, message)
    ensures PassesWith(lib, a, root, message)
  {
    OpensExactly(a, root);
    var m := lib.decode(message).value;
    var key :| SignedBy(lib, a, root, message, m, key);
    ReadsHeld(a, root, MANIFEST);
    ReadsHeld(a, root, KEY);
    ChecksExactly(lib, a, root, message, m, key);
    assert root + MANIFEST in ManifestNames(Names(a));
    assert RootOf(root + MANIFEST) == root;
    VerifyOpens(lib, a, root, m, message, key);
  }

  /** So an archive verifies exactly when it is genuine for some root and manifest. */
  lemma VerifiesExactly(lib: Lib, a: Archive)
    ensures Verify(lib, a) == Ok(true) <==> exists root, message :: Genuine(lib, a, root, message)
  {
    if Verify(lib, a) == Ok(true) {
      PassingHasManifest(lib, a);
      var root, message :| PassesWith(lib, a, root, message);
      PassesExactly(lib, a, root, message);
    }
    if root, message :| Genuine(lib, a, root, message) { PassesExactly(lib, a, root, message); }
  }

  /** The signature file of a genuine archive signs its manifest file under its key file. */
  lemma GenuineIsSigned(lib: Lib, a: Archive, r: string, text: bytes, root: string, message: bytes, key: bytes,
                        s: bytes)
    requires Genuine(lib, a, r, text) && IsManifest(root + MANIFEST) && Item(root + MANIFEST, message) in a
    requires Item(root + KEY, key) in a && Item(root + SIGNATURE, s) in a
    ensures lib.signed(key, message, s)
  {
    assert Item(root + MANIFEST, message).name == r + "manifest.json";
    assert r == (r + "manifest.json")[..|r|] == root;
    OpensExactly(a, r);
    FindDistinct(a, Item(root + MANIFEST, message));
    FindDistinct(a, Item(root + MANIFEST, text));
    var k :| SignedBy(lib, a, r, text, lib.decode(text).value, k);
    FindDistinct(a, Item(root + KEY, key));
    FindDistinct(a, Item(root + KEY, k));
    var t :| Holds(a, r, "signature.sig", t) && lib.signed(k, text, t);
    FindDistinct(a, Item(root + SIGNATURE, s));
    FindDistinct(a, Item(root + SIGNATURE, t));
  }

  /** An archive whose signature file does not sign its manifest never verifies. */
  lemma ForgedNeverVerifies(lib: Lib, a: Archive, root: string, message: bytes, key: bytes, s: bytes)
    requires IsManifest(root + MANIFEST) && Item(root + MANIFEST, message) in a
    requires Item(root + KEY, key) in a && Item(root + SIGNATURE, s) in a && !lib.signed(key, message, s)
    ensures Verify(lib, a) != Ok(true)
  {
    VerifiesExactly(lib, a);
    if r, text :| Genuine(lib, a, r, text) { GenuineIsSigned(lib, a, r, text, root, message, key, s); }
  }

  /** There is a verdict, rather than an error, exactly for an archive that opens, with a manifest and a key. */
  lemma VerdictExactly(lib: Lib, a: Archive)
    ensures Verify(lib, a).Ok? <==>
              exists root, message, key ::
                && OpensAt(a, root) && Holds(a, root, "manifest.json", message) && lib.decode(message).Some?
                && Holds(a, root, "public-key.pem", key)
  {
    if Verify(lib, a).Ok? {
      var found := ManifestNames(Names(a));
      assert found[0] in found;
      var root := RootOf(found[0]);
      RootAndName(found[0]);
      assert found == [root + MANIFEST];
      OpensExactly(a, root);
      ReadsHeld(a, root, MANIFEST);
      ReadsHeld(a, root, KEY);
      assert Holds(a, root, "manifest.json", Read(a, root, MANIFEST).value);
      assert Holds(a, root, "public-key.pem", Read(a, root, KEY).value);
    }
    if root, message, key :|
      && OpensAt(a, root) && Holds(a, root, "manifest.json", message) && lib.decode(message).Some?
      && Holds(a, root, "public-key.pem", key)
    {
      OpensExactly(a, root);
      ReadsHeld(a, root, MANIFEST);
      ReadsHeld(a, root, KEY);
      assert root + MANIFEST in ManifestNames(Names(a));
      VerifyOpens(lib, a, root, lib.decode(message).value, message, key);
    }
  }

  // ---------------------------------------------------------------- what a built package holds

  /** The archive has this file below the root. */
  predicate Has(a: Archive, root: string, path: string, content: bytes) { Item(root + path, content) in a }

  /** Every file of the form, unchanged, at its path. */
  ghost predicate HoldsForm(fold: Fold, c: Contents, photos: seq<PhotoFile>, names: seq<string>,
                            logo: Option<LogoFile>, a: Archive, root: string)
    requires |names| == |photos|
  {
    && Has(a, root, "certificate-record.json", c.record) && Has(a, root, "certificate.pdf", c.pdf)
    && Has(a, root, "certificate.png", c.png) && Has(a, root, "certificate.txt", c.text)
    && Has(a, root, "audit-log.json", c.audit) && Has(a, root, "public-key.pem", c.key)
    && Has(a, root, "coa-manifest-v2.schema.json", c.schema) && Has(a, root, "README-FIRST.txt", c.readme)
    && Has(a, root, "verification-instructions.txt", c.instructions) && Has(a, root, "verify.py", c.script)
    && (forall i :: 0 <= i < |photos| ==> Has(a, root, "original-photographs/" + names[i], photos[i].content))
    && (logo.Some? ==> Has(a, root, "issuer-assets/" + Sanitize(fold, logo.value.name), logo.value.content))
  }

  lemma HoldsParts(lib: Lib, root: string, parts: seq<Part>, sign: bytes -> bytes, m: Manifest, lines: seq<Sum>)
    requires GoodParts(parts)
    ensures var a := Below(root, Sealed(lib, parts, sign, m, lines));
            && (forall p :: p in parts ==> Has(a, root, p.path, p.content))
            && Has(a, root, "manifest.json", lib.encode(m))
            && Has(a, root, "signature.sig", sign(lib.encode(m)))
  {
    var a := Below(root, Sealed(lib, parts, sign, m, lines));
    forall p | p in parts ensures Has(a, root, p.path, p.content) { PartIsRead(lib, root, parts, sign, m, lines, p); }
    StructuralIsRead(lib, root, parts, sign, m, lines);
  }

  /** The parts are the form's files. */
  lemma FormParts(fold: Fold, c: Contents, photos: seq<PhotoFile>, names: seq<string>, logo: Option<LogoFile>)
    requires |names| == |photos|
    ensures var parts := AllParts(fold, c, photos, names, logo);
            && (forall p :: p in FirstParts(c) ==> p in parts) && (forall p :: p in LastParts(c) ==> p in parts)
            && (forall i :: 0 <= i < |photos| ==> PhotoParts(photos, names)[i] in parts)
            && (logo.Some? ==> LogoParts(fold, logo)[0] in parts)
  {
    var middle := PhotoParts(photos, names) + LogoParts(fold, logo);
    assert forall i :: 0 <= i < |photos| ==> PhotoParts(photos, names)[i] in middle;
    if logo.Some? { assert middle[|photos|] == LogoParts(fold, logo)[0]; }
    assert AllParts(fold, c, photos, names, logo) == FirstParts(c) + middle + LastParts(c);
  }

  lemma FirstHeld(c: Contents, a: Archive, root: string)
    requires forall p :: p in FirstParts(c) ==> Has(a, root, p.path, p.content)
    ensures Has(a, root, "certificate-record.json", c.record) && Has(a, root, "certificate.pdf", c.pdf)
    ensures Has(a, root, "certificate.png", c.png) && Has(a, root, "certificate.txt", c.text)
    ensures Has(a, root, "audit-log.json", c.audit)
  {
    var ps := FirstParts(c);
    assert ps[0] in ps && ps[1] in ps && ps[2] in ps && ps[3] in ps && ps[4] in ps;
  }

  lemma LastHeld(c: Contents, a: Archive, root: string)
    requires forall p :: p in LastParts(c) ==> Has(a, root, p.path, p.content)
    ensures Has(a, root, "public-key.pem", c.key) && Has(a, root, "coa-manifest-v2.schema.json", c.schema)
    ensures Has(a, root, "README-FIRST.txt", c.readme) && Has(a, root, "verify.py", c.script)
    ensures Has(a, root, "verification-instructions.txt", c.instructions)
  {
    var ps := LastParts(c);
    assert ps[0] in ps && ps[1] in ps && ps[2] in ps && ps[3] in ps && ps[4] in ps;
  }

  lemma PhotosHeld(photos: seq<PhotoFile>, names: seq<string>, a: Archive, root: string, parts: seq<Part>)
    requires |names| == |photos| && forall p :: p in parts ==> Has(a, root, p.path, p.content)
    requires forall i :: 0 <= i < |photos| ==> PhotoParts(photos, names)[i] in parts
    ensures forall i :: 0 <= i < |photos| ==> Has(a, root, "original-photographs/" + names[i], photos[i].content)
  {
    forall i | 0 <= i < |photos| ensures Has(a, root, "original-photographs/" + names[i], photos[i].content) {
      var p := PhotoParts(photos, names)[i];
      assert p in parts && p.path == "original-photographs/" + names[i];
    }
  }

  lemma LogoHeld(fold: Fold, logo: Option<LogoFile>, a: Archive, root: string, parts: seq<Part>)
    requires forall p :: p in parts ==> Has(a, root, p.path, p.content)
    requires logo.Some? ==> LogoParts(fold, logo)[0] in parts
    ensures logo.Some? ==> Has(a, root, "issuer-assets/" + Sanitize(fold, logo.value.name), logo.value.content)
  {
    if logo.Some? {
      var p := LogoParts(fold, logo)[0];
      assert p in parts && p.path == "issuer-assets/" + Sanitize(fold, logo.value.name);
    }
  }

  lemma FormHeld(fold: Fold, c: Contents, photos: seq<PhotoFile>, names: seq<string>, logo: Option<LogoFile>,
                 a: Archive, root: string, parts: seq<Part>)
    requires |names| == |photos| && parts == AllParts(fold, c, photos, names, logo)
    requires forall p :: p in parts ==> Has(a, root, p.path, p.content)
    ensures HoldsForm(fold, c, photos, names, logo, a, root)
  {
    FormParts(fold, c, photos, names, logo);
    FirstHeld(c, a, root);
    LastHeld(c, a, root);
    PhotosHeld(photos, names, a, root, parts);
    LogoHeld(fold, logo, a, root, parts);
  }

  /** A built package holds every file of the form unchanged, the manifest's text, and its signature. */
  lemma BuiltHolds(lib: Lib, fold: Fold, id: string, c: Contents, photos: seq<PhotoFile>, names: seq<string>,
                   logo: Option<LogoFile>, sign: bytes -> bytes, m: Manifest, a: Archive)
    requires |names| == |photos| && LowerDistinct(names) && forall i :: 0 <= i < |names| ==> SafeName(names[i])
    requires BuiltFrom(lib, fold, id, c, photos, names, logo, sign, m, a)
    ensures var root := Sanitize(fold, id) + "/";
            && HoldsForm(fold, c, photos, names, logo, a, root)
            && Has(a, root, "manifest.json", lib.encode(m)) && Has(a, root, "signature.sig", sign(lib.encode(m)))
  {
    AllPartsGood(fold, c, photos, names, logo);
    var parts, root := AllParts(fold, c, photos, names, logo), Folder(Sanitize(fold, id));
    var lines :| a == Below(root, Sealed(lib, parts, sign, m, lines));
    HoldsParts(lib, root, parts, sign, m, lines);
    FormHeld(fold, c, photos, names, logo, a, root, parts);
  }
}
