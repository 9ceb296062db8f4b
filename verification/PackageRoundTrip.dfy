/** Sealing a list of evidence files into an archive, and what the verifier then says. */
module PackageRoundTrip {
  import opened Prelude
  import opened FileNames
  import opened Paths
  import opened Package
  import opened ManifestVersion
  import P = Photo

  predicate Structural(path: string) { path in {MANIFEST, SIGNATURE, SUMS} }

  /** What the builder's paths must be for everything after it. */
  predicate GoodPath(path: string) { SafeRelative(path) && LinePath(path) && !Structural(path) }

  ghost predicate GoodParts(parts: seq<Part>) {
    Distinct(PartPaths(parts)) && forall p :: p in parts ==> GoodPath(p.path)
  }

  /** The files of a sealed package, before they are put below the root folder. */
  function Sealed(lib: Lib, parts: seq<Part>, sign: bytes -> bytes, m: Manifest, lines: seq<Sum>): seq<Item> {
    ItemsOf(parts)
    + [Item(MANIFEST, lib.encode(m)), Item(SIGNATURE, sign(lib.encode(m))), Item(SUMS, lib.sums(lines))]
  }

  /** The checksum lines name exactly the files sealed before them, with their hashes. */
  ghost predicate LinesOf(lib: Lib, items: seq<Item>, lines: seq<Sum>) {
    && lines != []
    && (forall s :: s in lines ==> exists x :: x in items && x.name != SUMS && s == Sum(lib.sha(x.content), x.name))
  }

  /** The files the checksums cover. */
  function Signed(parts: seq<Part>, message: bytes, signature: bytes): seq<Item> {
    ItemsOf(parts) + [Item(MANIFEST, message), Item(SIGNATURE, signature)]
  }

  /** The end of `buildCertificatePackage`: manifest, signature and checksums after the evidence files. */
  method Seal(lib: Lib, parts: seq<Part>, sign: bytes -> bytes, photographs: seq<P.Photograph>, recordSha: string,
              fingerprint: string, rest: bytes)
    returns (m: Manifest, items: seq<Item>, ghost lines: seq<Sum>)
    requires Lawful(lib) && GoodParts(parts)
    ensures multiset(m.files) == multiset(FilesOf(lib, parts))
    ensures m == Manifest(BUILT, m.files, photographs, Some(Record(RECORD, recordSha)), fingerprint, rest)
    ensures items == Sealed(lib, parts, sign, m, lines) && LinesOf(lib, items, lines)
  {
    var files, manifestFiles := AddEvidenceFiles(lib, parts);
    m := Manifest(BUILT, lib.sort(manifestFiles), photographs, Some(Record(RECORD, recordSha)), fingerprint, rest);
    assert multiset(m.files) == multiset(FilesOf(lib, parts));
    var message := lib.encode(m);
    var signature := sign(message);
    SignedFiles(parts, message, signature);
    files := SetItem(files, MANIFEST, message);
    files := SetItem(files, SIGNATURE, signature);
    assert files == Signed(parts, message, signature);
    var sums := SealSums(lib, files);
    lines := sums;
    items := SetItem(files, SUMS, lib.sums(sums));
    SealedFiles(lib, parts, sign, m, lines);
  }

  /** The checksum lines over the files there are, in sorted order. */
  method SealSums(lib: Lib, files: seq<Item>) returns (sums: seq<Sum>)
    requires Lawful(lib) && files != []
    ensures sums != [] && forall s :: s in sums ==> exists x :: x in files && s == Sum(lib.sha(x.content), x.name)
  {
    var paths := lib.order(Names(files));
    OrderedNames(lib, files);
    sums := ChecksumLines(lib, files, paths);
    forall s | s in sums ensures exists x :: x in files && s == Sum(lib.sha(x.content), x.name) {
      var i :| 0 <= i < |sums| && sums[i] == s;
      assert Item(paths[i], Find(files, paths[i]).value) in files;
    }
  }

  lemma SignedFiles(parts: seq<Part>, message: bytes, signature: bytes)
    requires GoodParts(parts)
    ensures SetItem(SetItem(ItemsOf(parts), MANIFEST, message), SIGNATURE, signature)
            == Signed(parts, message, signature)
  {
    StructuralIsNew(parts);
    SetNew(ItemsOf(parts), MANIFEST, message);
    SetNew(ItemsOf(parts) + [Item(MANIFEST, message)], SIGNATURE, signature);
  }

  lemma SealedFiles(lib: Lib, parts: seq<Part>, sign: bytes -> bytes, m: Manifest, lines: seq<Sum>)
    requires GoodParts(parts) && lines != []
    requires forall s :: s in lines ==>
               exists x :: x in Signed(parts, lib.encode(m), sign(lib.encode(m)))
                      && s == Sum(lib.sha(x.content), x.name)
    ensures var items := SetItem(Signed(parts, lib.encode(m), sign(lib.encode(m))), SUMS, lib.sums(lines));
            items == Sealed(lib, parts, sign, m, lines) && LinesOf(lib, items, lines)
  {
    var files, items := Signed(parts, lib.encode(m), sign(lib.encode(m))), Sealed(lib, parts, sign, m, lines);
    StructuralIsNew(parts);
    SetNew(files, SUMS, lib.sums(lines));
    assert items == files + [Item(SUMS, lib.sums(lines))];
    forall s | s in lines ensures exists x :: x in items && x.name != SUMS && s == Sum(lib.sha(x.content), x.name) {
      var x :| x in files && s == Sum(lib.sha(x.content), x.name);
      assert x in items;
    }
  }

  lemma StructuralIsNew(parts: seq<Part>)
    requires GoodParts(parts)
    ensures forall x :: x in ItemsOf(parts) ==> !Structural(x.name)
    ensures MANIFEST != SIGNATURE && MANIFEST != SUMS && SIGNATURE != SUMS
  {
    forall x | x in ItemsOf(parts) ensures !Structural(x.name) {
      var i :| 0 <= i < |parts| && x == ItemsOf(parts)[i];
      assert parts[i] in parts;
    }
    assert MANIFEST[0] == 'm' && SIGNATURE[0] == 's' && SUMS[1] == 'h' && SIGNATURE[1] == 'i';
  }

  /** Sorting the names loses none and adds none. */
  lemma OrderedNames(lib: Lib, files: seq<Item>)
    requires Lawful(lib)
    ensures forall p :: p in lib.order(Names(files)) ==> Find(files, p).Some?
    ensures files != [] ==> lib.order(Names(files)) != []
  {
    var paths := lib.order(Names(files));
    assert multiset(paths) == multiset(Names(files));
    forall p | p in paths ensures Find(files, p).Some? {
      assert p in multiset(paths);
      assert p in Names(files);
      var i :| 0 <= i < |files| && Names(files)[i] == p;
      assert files[i] in files;
    }
    if files != [] {
      assert Names(files)[0] in multiset(paths);
    }
  }

  // ---------------------------------------------------------------- names of a sealed archive

  lemma SealedNames(lib: Lib, parts: seq<Part>, sign: bytes -> bytes, m: Manifest, lines: seq<Sum>)
    requires GoodParts(parts)
    ensures var items := Sealed(lib, parts, sign, m, lines);
            && Names(items) == PartPaths(parts) + [MANIFEST, SIGNATURE, SUMS]
            && Distinct(Names(items))
            && (forall x :: x in items ==> SafeRelative(x.name))
  {
    StructuralIsNew(parts);
    var items, ns, n := Sealed(lib, parts, sign, m, lines), PartPaths(parts) + [MANIFEST, SIGNATURE, SUMS], |parts|;
    assert Names(items) == ns;
    forall i, j | 0 <= i < j < |ns| ensures ns[i] != ns[j] {
      if i < n {
        assert parts[i] in parts;
        if j < n { assert PartPaths(parts)[i] != PartPaths(parts)[j]; }
      }
    }
    StructuralIsSafe();
    forall x | x in items ensures SafeRelative(x.name) {
      if x in ItemsOf(parts) {
        var i :| 0 <= i < n && x == ItemsOf(parts)[i];
        assert parts[i] in parts;
      }
    }
  }

  lemma ManifestName()
    ensures SafeName(MANIFEST)
  {
  }

  lemma SignatureName()
    ensures SafeName(SIGNATURE)
  {
  }

  lemma SumsName()
    ensures SafeName(SUMS)
  {
  }

  lemma StructuralIsSafe()
    ensures SafeRelative(MANIFEST) && SafeRelative(SIGNATURE) && SafeRelative(SUMS)
  {
    ManifestName();
    SignatureName();
    SumsName();
    SafeNameIsPath(MANIFEST);
    SafeNameIsPath(SIGNATURE);
    SafeNameIsPath(SUMS);
  }

  lemma FindDistinct(a: Archive, x: Item)
    requires Distinct(Names(a)) && x in a
    ensures Find(a, x.name) == Some(x.content)
  {
    var r := Find(a, x.name);
    assert r.Some?;
    var i :| 0 <= i < |a| && a[i] == x;
    var j :| 0 <= j < |a| && a[j] == Item(x.name, r.value);
    assert Names(a)[i] == Names(a)[j];
  }

  lemma ConcatInjective(a: string, x: string, y: string)
    ensures a + x == a + y <==> x == y
  {
    assert (a + x)[|a|..] == x && (a + y)[|a|..] == y;
  }

  lemma BelowNames(root: string, items: seq<Item>)
    requires Distinct(Names(items))
    ensures Distinct(Names(Below(root, items)))
  {
    var a := Below(root, items);
    forall i, j | 0 <= i < j < |a| ensures Names(a)[i] != Names(a)[j] {
      assert Names(items)[i] != Names(items)[j];
      ConcatInjective(root, items[i].name, items[j].name);
    }
  }

  /** Every sealed file is read back below the root. */
  lemma ReadsBack(root: string, items: seq<Item>, x: Item)
    requires Distinct(Names(items)) && x in items && SafeRelative(x.name)
    ensures Read(Below(root, items), root, x.name) == Some(x.content)
  {
    BelowNames(root, items);
    var i :| 0 <= i < |items| && items[i] == x;
    assert Below(root, items)[i] == Item(root + x.name, x.content);
    FindDistinct(Below(root, items), Item(root + x.name, x.content));
  }

  lemma {:induction false} RelativeOf(ns: seq<string>, root: string, relative: seq<string>)
    requires |ns| == |relative| && forall i :: 0 <= i < |ns| ==> ns[i] == root + relative[i]
    ensures Relative(ns, root) == relative
  {
    if ns != [] {
      RelativeOf(ns[1..], root, relative[1..]);
      UnderRoot(ns[0], root, relative[0]);
      assert relative == [relative[0]] + relative[1..];
    }
  }

  lemma UnderRoot(name: string, root: string, relative: string)
    requires name == root + relative
    ensures StartsWith(name, root) && name[|root|..] == relative
  {
  }

  lemma RelativeBelow(root: string, items: seq<Item>)
    ensures Relative(Names(Below(root, items)), root) == Names(items)
    ensures forall n :: n in Names(Below(root, items)) ==> StartsWith(n, root)
  {
    RelativeOf(Names(Below(root, items)), root, Names(items));
  }

  lemma {:induction false} DistinctCard<T>(s: seq<T>)
    requires Distinct(s)
    ensures |set x | x in s| == |s|
  {
    if s != [] {
      var n := |s| - 1;
      DistinctCard(s[..n]);
      assert (set x | x in s) == (set x | x in s[..n]) + {s[n]} by { assert s == s[..n] + [s[n]]; }
      assert s[n] !in s[..n];
    }
  }

  // ---------------------------------------------------------------- the manifest is found

  lemma {:induction false} OnlyManifest(ns: seq<string>, k: nat)
    requires k < |ns| && forall i :: 0 <= i < |ns| ==> (IsManifest(ns[i]) <==> i == k)
    ensures ManifestNames(ns) == [ns[k]]
  {
    if k == 0 {
      NoManifestNames(ns[1..]);
    } else {
      OnlyManifest(ns[1..], k - 1);
    }
  }

  lemma {:induction false} NoManifestNames(ns: seq<string>)
    requires forall i :: 0 <= i < |ns| ==> !IsManifest(ns[i])
    ensures ManifestNames(ns) == []
  {
    if ns != [] { NoManifestNames(ns[1..]); }
  }

  lemma {:induction false} TwoManifests(ns: seq<string>, i: nat, j: nat)
    requires i < j < |ns| && IsManifest(ns[i]) && IsManifest(ns[j])
    ensures |ManifestNames(ns)| >= 2
  {
    if i == 0 {
      assert ns[j] in ns[1..];
      assert ns[j] in ManifestNames(ns[1..]);
    } else {
      TwoManifests(ns[1..], i - 1, j - 1);
    }
  }

  /** The root folder of a package. */
  function Folder(id: string): string { id + "/" }

  lemma NameIsManifest(id: string, path: string)
    requires SafeName(id)
    ensures IsManifest(Folder(id) + path) <==> path == MANIFEST || EndsWith(path, MANIFEST_SUFFIX)
  {
    ManifestBelow(id, path);
    var s := Folder(id) + path;
    assert s == id + "/" + path;
    assert s[|id|] == '/' && '/' !in MANIFEST;
  }

  ghost predicate ManifestLike(parts: seq<Part>) {
    exists i :: 0 <= i < |parts| && EndsWith(parts[i].path, MANIFEST_SUFFIX)
  }

  lemma ManifestsFound(lib: Lib, id: string, parts: seq<Part>, sign: bytes -> bytes, m: Manifest, lines: seq<Sum>)
    requires GoodParts(parts) && SafeName(id)
    ensures var ns := Names(Below(Folder(id), Sealed(lib, parts, sign, m, lines)));
            if ManifestLike(parts) then |ManifestNames(ns)| >= 2 else ManifestNames(ns) == [Folder(id) + MANIFEST]
  {
    var items, k := Sealed(lib, parts, sign, m, lines), |parts|;
    SealedNames(lib, parts, sign, m, lines);
    var ns := Names(Below(Folder(id), items));
    assert ns[k] == Folder(id) + MANIFEST;
    NameIsManifest(id, MANIFEST);
    if ManifestLike(parts) {
      var i :| 0 <= i < |parts| && EndsWith(parts[i].path, MANIFEST_SUFFIX);
      NameIsManifest(id, parts[i].path);
      assert ns[i] == Folder(id) + parts[i].path;
      TwoManifests(ns, i, k);
    } else {
      forall i | 0 <= i < |ns| ensures IsManifest(ns[i]) <==> i == k {
        LikeOnlyManifest(parts, items, i);
        NameIsManifest(id, items[i].name);
      }
      OnlyManifest(ns, k);
    }
  }

  lemma LikeOnlyManifest(parts: seq<Part>, items: seq<Item>, i: nat)
    requires GoodParts(parts) && !ManifestLike(parts) && Names(items) == PartPaths(parts) + [MANIFEST, SIGNATURE, SUMS]
    requires i < |items|
    ensures items[i].name == MANIFEST || EndsWith(items[i].name, MANIFEST_SUFFIX) <==> i == |parts|
  {
    assert items[i].name == Names(items)[i];
    StructuralIsNoManifest();
    if i < |parts| { assert parts[i] in parts && items[i].name == parts[i].path; }
  }

  lemma StructuralIsNoManifest()
    ensures SIGNATURE != MANIFEST && SUMS != MANIFEST
    ensures !EndsWith(SIGNATURE, MANIFEST_SUFFIX) && !EndsWith(SUMS, MANIFEST_SUFFIX)
    ensures !EndsWith(MANIFEST, MANIFEST_SUFFIX)
  {
    assert |MANIFEST_SUFFIX| == 14 && |SIGNATURE| == 13 && |SUMS| == 14 && |MANIFEST| == 13;
    assert SUMS[0] == 's' && MANIFEST_SUFFIX[0] == '/';
    assert SIGNATURE[0] == 's' && MANIFEST[0] == 'm';
  }

  // ---------------------------------------------------------------- every check passes

  /** What the inputs must satisfy for the checks that look at content. */
  ghost predicate Honest(lib: Lib, parts: seq<Part>, sign: bytes -> bytes, m: Manifest) {
    && m.identifiers == BUILT && lib.schemaOk(m) && lib.identityOk(m)
    && (exists p :: p in parts && p.path == KEY && lib.fingerprint(p.content) == m.fingerprint
                 && forall message {:trigger sign(message)} :: lib.signed(p.content, message, sign(message)))
    && (exists p :: p in parts && p.path == RECORD && m.record == Some(Record(p.path, lib.sha(p.content))))
    && P.Accepted(P.V22, m.files, m.photographs)
    && (forall g :: g in m.photographs ==>
          exists p :: p in parts && p.path == g.path && lib.image(p.content, g.mediaType) == Some((g.width, g.height)))
  }

  lemma PartIsRead(lib: Lib, root: string, parts: seq<Part>, sign: bytes -> bytes, m: Manifest, lines: seq<Sum>,
                   p: Part)
    requires GoodParts(parts) && p in parts
    ensures Read(Below(root, Sealed(lib, parts, sign, m, lines)), root, p.path) == Some(p.content)
  {
    SealedNames(lib, parts, sign, m, lines);
    var i :| 0 <= i < |parts| && parts[i] == p;
    assert Sealed(lib, parts, sign, m, lines)[i] == Item(p.path, p.content);
    ReadsBack(root, Sealed(lib, parts, sign, m, lines), Item(p.path, p.content));
  }

  lemma StructuralIsRead(lib: Lib, root: string, parts: seq<Part>, sign: bytes -> bytes, m: Manifest, lines: seq<Sum>)
    requires GoodParts(parts)
    ensures var a := Below(root, Sealed(lib, parts, sign, m, lines));
            && Read(a, root, MANIFEST) == Some(lib.encode(m))
            && Read(a, root, SIGNATURE) == Some(sign(lib.encode(m)))
            && Read(a, root, SUMS) == Some(lib.sums(lines))
  {
    SealedNames(lib, parts, sign, m, lines);
    var items, n := Sealed(lib, parts, sign, m, lines), |parts|;
    assert items[n] == Item(MANIFEST, lib.encode(m)) && items[n + 1] == Item(SIGNATURE, sign(lib.encode(m)));
    assert items[n + 2] == Item(SUMS, lib.sums(lines));
    ReadsBack(root, items, items[n]);
    ReadsBack(root, items, items[n + 1]);
    ReadsBack(root, items, items[n + 2]);
  }

  lemma FilesMatchParts(lib: Lib, parts: seq<Part>, m: Manifest)
    requires multiset(m.files) == multiset(FilesOf(lib, parts))
    ensures forall f :: f in m.files ==> exists p :: p in parts && f == FileOf(lib, p)
    ensures forall p :: p in parts ==> FileOf(lib, p) in m.files
  {
    forall f | f in m.files ensures exists p :: p in parts && f == FileOf(lib, p) {
      assert f in multiset(m.files);
      assert f in FilesOf(lib, parts);
      var i :| 0 <= i < |parts| && FilesOf(lib, parts)[i] == f;
      assert parts[i] in parts;
    }
    forall p | p in parts ensures FileOf(lib, p) in m.files {
      var i :| 0 <= i < |parts| && parts[i] == p;
      assert FilesOf(lib, parts)[i] in multiset(FilesOf(lib, parts));
    }
  }

  lemma EvidencePasses(lib: Lib, root: string, parts: seq<Part>, sign: bytes -> bytes, m: Manifest, lines: seq<Sum>)
    requires GoodParts(parts) && multiset(m.files) == multiset(FilesOf(lib, parts))
    ensures forall f :: f in m.files ==> EvidenceOk(lib, Below(root, Sealed(lib, parts, sign, m, lines)), root, f)
  {
    FilesMatchParts(lib, parts, m);
    forall f | f in m.files ensures EvidenceOk(lib, Below(root, Sealed(lib, parts, sign, m, lines)), root, f) {
      var p :| p in parts && f == FileOf(lib, p);
      PartIsRead(lib, root, parts, sign, m, lines, p);
    }
  }

  lemma PhotographsPass(lib: Lib, root: string, parts: seq<Part>, sign: bytes -> bytes, m: Manifest, lines: seq<Sum>)
    requires GoodParts(parts) && Honest(lib, parts, sign, m)
    ensures PhotographsOk(lib, Below(root, Sealed(lib, parts, sign, m, lines)), root, m, P.V22)
  {
    forall g | g in m.photographs ensures PhotoDecodes(lib, Below(root, Sealed(lib, parts, sign, m, lines)), root, g) {
      var p :| p in parts && p.path == g.path && lib.image(p.content, g.mediaType) == Some((g.width, g.height));
      PartIsRead(lib, root, parts, sign, m, lines, p);
    }
  }

  lemma SumsPass(lib: Lib, root: string, parts: seq<Part>, sign: bytes -> bytes, m: Manifest, lines: seq<Sum>)
    requires Lawful(lib) && GoodParts(parts) && LinesOf(lib, Sealed(lib, parts, sign, m, lines), lines)
    ensures SumsOk(lib, Below(root, Sealed(lib, parts, sign, m, lines)), root)
  {
    var items := Sealed(lib, parts, sign, m, lines);
    SealedNames(lib, parts, sign, m, lines);
    StructuralIsRead(lib, root, parts, sign, m, lines);
    LineNames(lib, parts, sign, m, lines);
    assert lib.parseSums(lib.sums(lines)) == Some(lines);
    forall s | s in lines ensures SumOk(lib, Below(root, items), root, s) {
      var x :| x in items && x.name != SUMS && s == Sum(lib.sha(x.content), x.name);
      ReadsBack(root, items, x);
    }
  }

  lemma LineNames(lib: Lib, parts: seq<Part>, sign: bytes -> bytes, m: Manifest, lines: seq<Sum>)
    requires GoodParts(parts) && LinesOf(lib, Sealed(lib, parts, sign, m, lines), lines)
    ensures forall s :: s in lines ==> HashLine(lib, s)
  {
    ManifestName();
    SignatureName();
    forall s | s in lines ensures HashLine(lib, s) {
      var x :| x in Sealed(lib, parts, sign, m, lines) && x.name != SUMS && s == Sum(lib.sha(x.content), x.name);
      if x in ItemsOf(parts) {
        var i :| 0 <= i < |parts| && x == ItemsOf(parts)[i];
        assert parts[i] in parts;
      }
    }
  }

  lemma NamesAreExpected(lib: Lib, parts: seq<Part>, m: Manifest, n: string)
    requires multiset(m.files) == multiset(FilesOf(lib, parts))
    ensures n in PartPaths(parts) <==> n in PathsOf(m.files)
  {
    FilesMatchParts(lib, parts, m);
    if n in PartPaths(parts) {
      var i :| 0 <= i < |parts| && PartPaths(parts)[i] == n;
      assert FileOf(lib, parts[i]) in m.files;
    }
    if n in PathsOf(m.files) {
      var f :| f in m.files && f.path == n;
      var p :| p in parts && f == FileOf(lib, p);
      var i :| 0 <= i < |parts| && parts[i] == p;
      assert PartPaths(parts)[i] == n;
    }
  }

  lemma InventoryOf(a: Archive, root: string, m: Manifest, ns: seq<string>)
    requires Relative(Names(a), root) == ns && Distinct(ns) && forall n :: n in Names(a) ==> StartsWith(n, root)
    requires forall n :: n in ns <==> n in Expected(m)
    ensures InventoryOk(a, root, m)
  {
    DistinctCard(ns);
    assert (set n | n in ns) == Expected(m);
  }

  lemma InventoryPasses(lib: Lib, root: string, parts: seq<Part>, sign: bytes -> bytes, m: Manifest, lines: seq<Sum>)
    requires GoodParts(parts) && multiset(m.files) == multiset(FilesOf(lib, parts))
    ensures InventoryOk(Below(root, Sealed(lib, parts, sign, m, lines)), root, m)
  {
    var items := Sealed(lib, parts, sign, m, lines);
    SealedNames(lib, parts, sign, m, lines);
    RelativeBelow(root, items);
    var ns := Names(items);
    forall n ensures n in ns <==> n in Expected(m) { NamesAreExpected(lib, parts, m, n); }
    InventoryOf(Below(root, items), root, m, ns);
  }

  lemma KeyAndRecordPass(lib: Lib, root: string, parts: seq<Part>, sign: bytes -> bytes, m: Manifest, lines: seq<Sum>)
      returns (key: bytes)
    requires GoodParts(parts) && Honest(lib, parts, sign, m)
    ensures var a := Below(root, Sealed(lib, parts, sign, m, lines));
            && Read(a, root, KEY) == Some(key) && lib.fingerprint(key) == m.fingerprint
            && SignatureOk(lib, a, root, key, lib.encode(m)) && RecordOk(lib, a, root, m)
  {
    var p :| p in parts && p.path == KEY && lib.fingerprint(p.content) == m.fingerprint
             && forall message {:trigger sign(message)} :: lib.signed(p.content, message, sign(message));
    key := p.content;
    PartIsRead(lib, root, parts, sign, m, lines, p);
    StructuralIsRead(lib, root, parts, sign, m, lines);
    assert lib.signed(key, lib.encode(m), sign(lib.encode(m)));
    var r :| r in parts && r.path == RECORD && m.record == Some(Record(r.path, lib.sha(r.content)));
    PartIsRead(lib, root, parts, sign, m, lines, r);
  }

  lemma AllChecksPass(lib: Lib, root: string, parts: seq<Part>, sign: bytes -> bytes, m: Manifest, lines: seq<Sum>)
      returns (key: bytes)
    requires Lawful(lib) && GoodParts(parts) && parts != [] && Honest(lib, parts, sign, m)
    requires multiset(m.files) == multiset(FilesOf(lib, parts))
    requires LinesOf(lib, Sealed(lib, parts, sign, m, lines), lines)
    ensures var a := Below(root, Sealed(lib, parts, sign, m, lines));
            Read(a, root, KEY) == Some(key) && AllPass(lib, a, root, m, lib.encode(m), key)
  {
    key := KeyAndRecordPass(lib, root, parts, sign, m, lines);
    EvidencePasses(lib, root, parts, sign, m, lines);
    PhotographsPass(lib, root, parts, sign, m, lines);
    InventoryPasses(lib, root, parts, sign, m, lines);
    SumsPass(lib, root, parts, sign, m, lines);
    FilesMatchParts(lib, parts, m);
    assert FileOf(lib, parts[0]) in m.files;
    BuiltVersion();
  }

  /** A sealed package verifies with no failed check exactly when none of its files is named like a manifest. */
  lemma SealedVerifies(lib: Lib, id: string, parts: seq<Part>, sign: bytes -> bytes, m: Manifest, lines: seq<Sum>)
    requires Lawful(lib) && SafeName(id) && GoodParts(parts) && parts != [] && Honest(lib, parts, sign, m)
    requires multiset(m.files) == multiset(FilesOf(lib, parts))
    requires LinesOf(lib, Sealed(lib, parts, sign, m, lines), lines)
    requires WithinLimits(Below(Folder(id), Sealed(lib, parts, sign, m, lines)))
    ensures Verify(lib, Below(Folder(id), Sealed(lib, parts, sign, m, lines)))
         == if ManifestLike(parts) then Err(ManyManifests) else Ok(true)
  {
    var a := Below(Folder(id), Sealed(lib, parts, sign, m, lines));
    SealedNames(lib, parts, sign, m, lines);
    BelowNames(Folder(id), Sealed(lib, parts, sign, m, lines));
    ManifestsFound(lib, id, parts, sign, m, lines);
    if ManifestLike(parts) {
      VerifyRefuses(lib, a);
    } else {
      RootFound(id);
      StructuralIsRead(lib, Folder(id), parts, sign, m, lines);
      var key := AllChecksPass(lib, Folder(id), parts, sign, m, lines);
      SealedNumbers(lib, Folder(id), parts, sign, m, lines);
      VerifyOpens(lib, a, Folder(id), m, lib.encode(m), key);
    }
  }

  /** Within the limits every number of the manifest is small. */
  lemma SealedNumbers(lib: Lib, root: string, parts: seq<Part>, sign: bytes -> bytes, m: Manifest, lines: seq<Sum>)
    requires multiset(m.files) == multiset(FilesOf(lib, parts)) && P.Accepted(P.V22, m.files, m.photographs)
    requires WithinLimits(Below(root, Sealed(lib, parts, sign, m, lines)))
    ensures SafeNumbers(m)
  {
    var a := Below(root, Sealed(lib, parts, sign, m, lines));
    FilesMatchParts(lib, parts, m);
    forall f | f in m.files ensures f.length <= MAX_ENTRY_BYTES {
      var p :| p in parts && f == FileOf(lib, p);
      var i :| 0 <= i < |parts| && parts[i] == p;
      assert a[i].content == p.content && a[i] in a;
    }
    forall p | p in m.photographs ensures p.length <= MAX_SAFE && P.GoodDimensions(p.width, p.height) && p.crop.None? {
      var i :| 0 <= i < |m.photographs| && m.photographs[i] == p;
      assert P.Bound(P.V22, m.files, p) && P.CropRule(P.V22, i, p);
    }
  }

  lemma RootFound(id: string)
    requires SafeName(id)
    ensures IsManifest(Folder(id) + MANIFEST) && RootOf(Folder(id) + MANIFEST) == Folder(id)
  {
    NameIsManifest(id, MANIFEST);
  }

  lemma VerifyRefuses(lib: Lib, a: Archive)
    requires Distinct(Names(a)) && WithinLimits(a) && |ManifestNames(Names(a))| >= 2
    ensures Verify(lib, a) == Err(ManyManifests)
  {
  }

  lemma VerifyOpens(lib: Lib, a: Archive, root: string, m: Manifest, message: bytes, key: bytes)
    requires Distinct(Names(a)) && WithinLimits(a) && IsManifest(root + MANIFEST) && RootOf(root + MANIFEST) == root
    requires ManifestNames(Names(a)) == [root + MANIFEST]
    requires Read(a, root, MANIFEST) == Some(message) && lib.decode(message) == Some(m)
             && Read(a, root, KEY) == Some(key)
    ensures Verify(lib, a) == Ok(AllPass(lib, a, root, m, message, key))
  {
  }
}
