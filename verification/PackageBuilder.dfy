/** The builder over a form's photographs and logo, and what a manifest binds. */
module PackageBuilder {
  import opened Prelude
  import opened FileNames
  import opened Paths
  import opened Package
  import opened PackageRoundTrip
  import P = Photo

  datatype PhotoFile = PhotoFile(name: string, mediaType: string, content: bytes, width: int, height: int)
  datatype LogoFile = LogoFile(name: string, mediaType: string, content: bytes)

  /** The generated files, in the order they are added; photographs and logo come after the fifth. */
  datatype Contents = Contents(
    record: bytes, pdf: bytes, png: bytes, text: bytes, audit: bytes,
    key: bytes, schema: bytes, readme: bytes, instructions: bytes, script: bytes)

  const PDF: string := "certificate.pdf"
  const PNG: string := "certificate.png"
  const TEXT: string := "certificate.txt"
  const AUDIT: string := "audit-log.json"
  const SCHEMA: string := "coa-manifest-v2.schema.json"
  const README: string := "README-FIRST.txt"
  const INSTRUCTIONS: string := "verification-instructions.txt"
  const SCRIPT: string := "verify.py"
  const PHOTO_FOLDER: string := "original-photographs"
  const LOGO_FOLDER: string := "issuer-assets"

  function FirstParts(c: Contents): seq<Part> {
    [Part(RECORD, "immutable certificate record", "application/json", c.record),
     Part(PDF, "visual certificate", "application/pdf", c.pdf),
     Part(PNG, "visual certificate", "image/png", c.png),
     Part(TEXT, "plain-text archival duplicate", "text/plain; charset=utf-8", c.text),
     Part(AUDIT, "append-only issuance event", "application/json", c.audit)]
  }

  function LastParts(c: Contents): seq<Part> {
    [Part(KEY, "issuer public key", "application/x-pem-file", c.key),
     Part(SCHEMA, "manifest JSON Schema", "application/schema+json", c.schema),
     Part(README, "package entry instructions", "text/plain; charset=utf-8", c.readme),
     Part(INSTRUCTIONS, "offline verification instructions", "text/plain; charset=utf-8", c.instructions),
     Part(SCRIPT, "offline Python verifier", "text/x-python; charset=utf-8", c.script)]
  }

  function FirstPaths(): seq<string> { [RECORD, PDF, PNG, TEXT, AUDIT] }

  function LastPaths(): seq<string> { [KEY, SCHEMA, README, INSTRUCTIONS, SCRIPT] }

  function PhotoPath(name: string): string { PHOTO_FOLDER + "/" + name }

  function PhotoParts(photos: seq<PhotoFile>, names: seq<string>): (ps: seq<Part>)
    requires |names| == |photos|
    ensures |ps| == |photos|
    ensures forall i :: 0 <= i < |photos| ==>
              ps[i] == Part(PhotoPath(names[i]), P.PHOTO_ROLE, photos[i].mediaType, photos[i].content)
  {
    seq(|photos|,
      i requires 0 <= i < |photos| => Part(PhotoPath(names[i]), P.PHOTO_ROLE, photos[i].mediaType, photos[i].content))
  }

  function LogoParts(fold: Fold, logo: Option<LogoFile>): (ps: seq<Part>)
    ensures |ps| <= 1
  {
    match logo
    case None => []
    case Some(l) => [Part(LOGO_FOLDER + "/" + Sanitize(fold, l.name), "issuer logo", l.mediaType, l.content)]
  }

  function AllParts(fold: Fold, c: Contents, photos: seq<PhotoFile>, names: seq<string>,
                    logo: Option<LogoFile>): seq<Part>
    requires |names| == |photos|
  { FirstParts(c) + PhotoParts(photos, names) + LogoParts(fold, logo) + LastParts(c) }

  function Photographs(lib: Lib, photos: seq<PhotoFile>, names: seq<string>): (gs: seq<P.Photograph>)
    requires |names| == |photos|
    ensures |gs| == |photos|
    ensures forall i :: 0 <= i < |photos| ==> gs[i] == PhotographOf(lib, photos[i], names[i])
  {
    seq(|photos|, i requires 0 <= i < |photos| => PhotographOf(lib, photos[i], names[i]))
  }

  function PhotographOf(lib: Lib, p: PhotoFile, name: string): P.Photograph {
    P.Photograph(PhotoPath(name), lib.sha(p.content), |p.content|, p.mediaType, p.width, p.height, None)
  }

  // ---------------------------------------------------------------- names

  ghost predicate LowerDistinct(names: seq<string>) {
    forall i, j :: 0 <= i < j < |names| ==> Lower(names[i]) != Lower(names[j])
  }

  /** Of the first n names, the first that is the target in any case spells it in lower case. */
  ghost predicate Claims(safes: seq<string>, target: string, n: nat)
    requires n <= |safes|
  {
    exists i :: 0 <= i < n && safes[i] == target && forall j :: 0 <= j < i ==> Lower(safes[j]) != target
  }

  ghost predicate Taken1(safes: seq<string>, target: string, n: nat)
    requires n <= |safes|
  { exists i :: 0 <= i < n && Lower(safes[i]) == target }

  function Safes(fold: Fold, photos: seq<PhotoFile>): (s: seq<string>)
    ensures |s| == |photos| && forall i :: 0 <= i < |photos| ==> s[i] == Sanitize(fold, photos[i].name)
  { seq(|photos|, i requires 0 <= i < |photos| => Sanitize(fold, photos[i].name)) }

  /** The first photograph whose sanitized name is `manifest.json` in any case spells it in lower case. */
  ghost predicate ClaimsManifest(fold: Fold, photos: seq<PhotoFile>) { Claims(Safes(fold, photos), MANIFEST, |photos|) }

  /** A single photograph named `manifest.json` does: a folding that leaves that name alone is enough. */
  lemma ManifestPhotoClaims(fold: Fold, p: PhotoFile)
    requires p.name == MANIFEST && fold(MANIFEST) == MANIFEST
    ensures ClaimsManifest(fold, [p])
  {
    assert SafeName(MANIFEST) && MANIFEST[0] == 'm' && MANIFEST[12] == 'n';
    SafeNamesStay(fold, MANIFEST);
    assert Safes(fold, [p])[0] == MANIFEST;
  }

  /** Lower-case letters and dots only. */
  predicate Plain(s: string) { forall i :: 0 <= i < |s| ==> 'a' <= s[i] <= 'z' || s[i] == '.' }

  lemma ManifestIsPlain()
    ensures Plain(MANIFEST)
  {
  }

  lemma {:induction false} PlainIsLower(s: string)
    requires Plain(s)
    ensures Lower(s) == s && '-' !in s
  {
    if s != "" {
      PlainIsLower(s[1..]);
      assert s == [s[0]] + s[1..];
    }
  }

  /** The names handed out so far, and whether the target is among them. */
  ghost predicate NamesInv(safes: seq<string>, target: string, names: seq<string>, used: set<string>) {
    && |names| <= |safes| && LowerDistinct(names) && InUse(names, used)
    && (forall i :: 0 <= i < |names| ==> SafeName(names[i]))
    && (target in used <==> Taken1(safes, target, |names|))
    && (target in names <==> Claims(safes, target, |names|))
  }

  ghost predicate InUse(names: seq<string>, used: set<string>) {
    forall x :: x in used <==> exists i :: 0 <= i < |names| && Lower(names[i]) == x
  }

  /** The loop that names the photographs, and whether a plain name is given to one of them. */
  method NamePhotos(fold: Fold, photos: seq<PhotoFile>, ghost target: string) returns (names: seq<string>)
    requires Plain(target)
    ensures |names| == |photos| && LowerDistinct(names) && forall i :: 0 <= i < |names| ==> SafeName(names[i])
    ensures target in names <==> Claims(Safes(fold, photos), target, |photos|)
  {
    names := [];
    var used: set<string> := {};
    ghost var safes := Safes(fold, photos);
    PlainIsLower(target);
    for i := 0 to |photos|
      invariant |names| == i && NamesInv(safes, target, names, used)
    {
      var candidate, recorded := UniqueFileName(fold, photos[i].name, used);
      NamesStep(safes, target, names, used, candidate, recorded);
      names, used := names + [candidate], recorded;
    }
  }

  lemma NamesStep(safes: seq<string>, target: string, names: seq<string>, used: set<string>, candidate: string,
                  recorded: set<string>)
    requires NamesInv(safes, target, names, used) && |names| < |safes| && Plain(target)
    requires exists k: nat :: FirstFree(safes[|names|], used, k) && candidate == Candidate(safes[|names|], k)
    requires Lower(candidate) !in used && recorded == used + {Lower(candidate)} && SafeName(candidate)
    ensures NamesInv(safes, target, names + [candidate], recorded)
  {
    var n := |names|;
    var k: nat :| FirstFree(safes[n], used, k) && candidate == Candidate(safes[n], k);
    LowerDistinctPush(names, used, candidate);
    UsedStep(names, used, candidate, recorded);
    TargetUse(safes[n], target, used, k);
    TakenStep(safes, target, n);
    ClaimStep(safes, target, n);
    assert target in names + [candidate] <==> target in names || candidate == target;
  }

  lemma LowerDistinctPush(names: seq<string>, used: set<string>, candidate: string)
    requires LowerDistinct(names) && Lower(candidate) !in used && InUse(names, used)
    ensures LowerDistinct(names + [candidate])
  {
    forall i | 0 <= i < |names| ensures Lower(names[i]) != Lower(candidate) { assert Lower(names[i]) in used; }
  }

  lemma UsedStep(names: seq<string>, used: set<string>, candidate: string, recorded: set<string>)
    requires InUse(names, used) && recorded == used + {Lower(candidate)}
    ensures InUse(names + [candidate], recorded)
  {
    var all := names + [candidate];
    forall x ensures x in recorded <==> exists i :: 0 <= i < |all| && Lower(all[i]) == x {
      if x in used {
        var i :| 0 <= i < |names| && Lower(names[i]) == x;
        assert Lower(all[i]) == x;
      }
      if x == Lower(candidate) { assert Lower(all[|names|]) == x; }
    }
  }

  lemma NumberedIsNotTarget(safe: string, target: string, k: nat)
    requires k >= 2 && '-' !in target
    ensures Lower(Candidate(safe, k)) != target && Candidate(safe, k) != target
  {
    CandidateLower(safe, k);
    var s := Lower(Candidate(safe, k));
    assert s[|Lower(safe[..DotAt(safe)])|] == '-';
    assert Candidate(safe, k)[DotAt(safe)] == '-';
  }

  /** A candidate is the target only as the name itself, and takes it exactly when it is free. */
  lemma TargetUse(safe: string, target: string, used: set<string>, k: nat)
    requires FirstFree(safe, used, k) && Plain(target)
    ensures Candidate(safe, k) == target <==> safe == target && target !in used
    ensures target in used + {Lower(Candidate(safe, k))} <==> target in used || Lower(safe) == target
  {
    PlainIsLower(target);
    assert Candidate(safe, 1) == safe;
    if k >= 2 {
      NumberedIsNotTarget(safe, target, k);
      assert Taken(safe, used, 1);
    }
  }

  lemma TakenStep(safes: seq<string>, target: string, n: nat)
    requires n < |safes|
    ensures Taken1(safes, target, n + 1) <==> Taken1(safes, target, n) || Lower(safes[n]) == target
  {
  }

  lemma ClaimStep(safes: seq<string>, target: string, n: nat)
    requires n < |safes|
    ensures Claims(safes, target, n + 1) <==>
              Claims(safes, target, n) || (safes[n] == target && !Taken1(safes, target, n))
  {
  }

  // ---------------------------------------------------------------- the paths are good

  /** A name in the package folder itself that no structural file has. */
  predicate Top(name: string) { SafeName(name) && !Structural(name) }

  lemma TopIsGood(name: string)
    requires Top(name)
    ensures GoodPath(name) && '/' !in name && !EndsWith(name, MANIFEST_SUFFIX)
  {
    SafeNameIsPath(name);
    NoManifestInTop(name, MANIFEST_SUFFIX);
  }

  lemma NoManifestInTop(name: string, suffix: string)
    requires '/' !in name && suffix != "" && suffix[0] == '/'
    ensures !EndsWith(name, suffix)
  {
    if |name| >= |suffix| {
      var k := |name| - |suffix|;
      assert name[k] in name && name[k..][0] == name[k];
    }
  }

  lemma RecordTop()
    ensures Top(RECORD)
  {
  }

  lemma PdfTop()
    ensures Top(PDF)
  {
  }

  lemma PngTop()
    ensures Top(PNG)
  {
  }

  lemma TextTop()
    ensures Top(TEXT)
  {
  }

  lemma AuditTop()
    ensures Top(AUDIT)
  {
  }

  lemma KeyTop()
    ensures Top(KEY)
  {
  }

  lemma SchemaTop()
    ensures Top(SCHEMA)
  {
  }

  lemma ReadmeTop()
    ensures Top(README)
  {
  }

  lemma InstructionsTop()
    ensures Top(INSTRUCTIONS)
  {
  }

  lemma ScriptTop()
    ensures Top(SCRIPT)
  {
  }

  lemma FixedTop()
    ensures forall n :: n in FirstPaths() + LastPaths() ==> Top(n)
  {
    RecordTop();
    PdfTop();
    PngTop();
    TextTop();
    AuditTop();
    KeyTop();
    SchemaTop();
    ReadmeTop();
    InstructionsTop();
    ScriptTop();
  }

  /** The ten fixed names differ: most in length, the others in a letter. */
  lemma FixedDistinct()
    ensures Distinct(FirstPaths()) && Distinct(LastPaths()) && Separate(FirstPaths(), LastPaths())
  {
    assert |RECORD| == 23 && |PDF| == |PNG| == |TEXT| == 15 && |AUDIT| == |KEY| == 14;
    assert |SCHEMA| == 27 && |README| == 16 && |INSTRUCTIONS| == 29 && |SCRIPT| == 9;
    assert PDF[13] == 'd' && PNG[13] == 'n' && TEXT[13] == 'x' && AUDIT[0] == 'a' && KEY[0] == 'p';
  }

  ghost predicate Separate(a: seq<string>, b: seq<string>) { forall x :: x in a ==> x !in b }

  lemma DistinctConcat(a: seq<string>, b: seq<string>)
    requires Distinct(a) && Distinct(b) && Separate(a, b)
    ensures Distinct(a + b)
  {
    forall i, j | 0 <= i < j < |a + b| ensures (a + b)[i] != (a + b)[j] {
      if i < |a| { assert a[i] in a; }
      if i >= |a| { assert b[i - |a|] != b[j - |a|]; }
      if j >= |a| { assert b[j - |a|] in b; }
    }
  }

  lemma FolderShape()
    ensures SafeName(PHOTO_FOLDER) && SafeName(LOGO_FOLDER) && PHOTO_FOLDER[0] != LOGO_FOLDER[0]
  {
  }

  /** A safe name in a folder is a good path, and is taken for a manifest exactly when it is named like one. */
  lemma InFolder(folder: string, name: string)
    requires SafeName(folder) && SafeName(name)
    ensures GoodPath(folder + "/" + name) && '/' in folder + "/" + name
    ensures EndsWith(folder + "/" + name, MANIFEST_SUFFIX) <==> name == MANIFEST
  {
    var path := folder + "/" + name;
    assert path[|folder|] == '/';
    SafeBelow(folder, name);
    ManifestBelow(folder, name);
    SafeNameIsPath(name);
    NoManifestInTop(name, MANIFEST_SUFFIX);
    NoSlashInStructural(path);
  }

  lemma NoSlashInStructural(path: string)
    requires '/' in path
    ensures !Structural(path)
  {
  }

  function LogoNames(fold: Fold, logo: Option<LogoFile>): (ns: seq<string>)
    ensures |ns| == |LogoParts(fold, logo)| && forall i :: 0 <= i < |ns| ==> SafeName(ns[i])
  { if logo.Some? then [Sanitize(fold, logo.value.name)] else [] }

  function InFolders(folder: string, names: seq<string>): (ps: seq<string>)
    ensures |ps| == |names| && forall i :: 0 <= i < |names| ==> ps[i] == folder + "/" + names[i]
  { seq(|names|, i requires 0 <= i < |names| => folder + "/" + names[i]) }

  lemma FolderDistinct(folder: string, names: seq<string>)
    requires SafeName(folder) && LowerDistinct(names) && forall i :: 0 <= i < |names| ==> SafeName(names[i])
    ensures Distinct(InFolders(folder, names))
    ensures forall x :: x in InFolders(folder, names) ==> GoodPath(x) && '/' in x && x[0] == folder[0]
  {
    var ps := InFolders(folder, names);
    forall i, j | 0 <= i < j < |names| ensures ps[i] != ps[j] {
      assert Lower(names[i]) != Lower(names[j]);
      ConcatInjective(folder + "/", names[i], names[j]);
    }
    forall i | 0 <= i < |names| ensures GoodPath(ps[i]) && '/' in ps[i] && ps[i][0] == folder[0] {
      InFolder(folder, names[i]);
    }
  }

  /** The paths of all evidence files, in the order they are added. */
  lemma AllPaths(fold: Fold, c: Contents, photos: seq<PhotoFile>, names: seq<string>, logo: Option<LogoFile>)
    requires |names| == |photos|
    ensures PartPaths(AllParts(fold, c, photos, names, logo))
         == FirstPaths() + InFolders(PHOTO_FOLDER, names) + InFolders(LOGO_FOLDER, LogoNames(fold, logo)) + LastPaths()
  {
    assert PartPaths(FirstParts(c)) == FirstPaths() && PartPaths(LastParts(c)) == LastPaths();
    assert PartPaths(PhotoParts(photos, names)) == InFolders(PHOTO_FOLDER, names);
    assert PartPaths(LogoParts(fold, logo)) == InFolders(LOGO_FOLDER, LogoNames(fold, logo));
    PathsConcat(FirstParts(c), PhotoParts(photos, names));
    PathsConcat(FirstParts(c) + PhotoParts(photos, names), LogoParts(fold, logo));
    PathsConcat(FirstParts(c) + PhotoParts(photos, names) + LogoParts(fold, logo), LastParts(c));
  }

  lemma PathsConcat(a: seq<Part>, b: seq<Part>)
    ensures PartPaths(a + b) == PartPaths(a) + PartPaths(b)
  {
  }

  /** Everything the builder adds is distinct, safe and none of the structural files. */
  lemma AllPartsGood(fold: Fold, c: Contents, photos: seq<PhotoFile>, names: seq<string>, logo: Option<LogoFile>)
    requires |names| == |photos| && LowerDistinct(names) && forall i :: 0 <= i < |names| ==> SafeName(names[i])
    ensures GoodParts(AllParts(fold, c, photos, names, logo))
  {
    var parts := AllParts(fold, c, photos, names, logo);
    var ps, ls := InFolders(PHOTO_FOLDER, names), InFolders(LOGO_FOLDER, LogoNames(fold, logo));
    AllPaths(fold, c, photos, names, logo);
    PathsGood(ps, ls, names, LogoNames(fold, logo));
    forall p | p in parts ensures GoodPath(p.path) {
      var i :| 0 <= i < |parts| && parts[i] == p;
      assert PartPaths(parts)[i] == p.path;
    }
  }

  lemma PathsGood(ps: seq<string>, ls: seq<string>, names: seq<string>, logos: seq<string>)
    requires ps == InFolders(PHOTO_FOLDER, names) && ls == InFolders(LOGO_FOLDER, logos) && |logos| <= 1
    requires LowerDistinct(names) && forall i :: 0 <= i < |names| ==> SafeName(names[i])
    requires forall i :: 0 <= i < |logos| ==> SafeName(logos[i])
    ensures var all := FirstPaths() + ps + ls + LastPaths(); Distinct(all) && forall x :: x in all ==> GoodPath(x)
  {
    var first, last := FirstPaths(), LastPaths();
    FixedDistinct();
    FixedAreGood(first, last);
    FolderShape();
    FolderDistinct(PHOTO_FOLDER, names);
    FolderDistinct(LOGO_FOLDER, logos);
    DistinctConcat(first, ps);
    DistinctConcat(first + ps, ls);
    DistinctConcat(first + ps + ls, last);
  }

  lemma FixedAreGood(first: seq<string>, last: seq<string>)
    requires first == FirstPaths() && last == LastPaths()
    ensures forall x :: x in first || x in last ==> GoodPath(x) && '/' !in x && !EndsWith(x, MANIFEST_SUFFIX)
  {
    FixedTop();
    forall x | x in first || x in last ensures GoodPath(x) && '/' !in x && !EndsWith(x, MANIFEST_SUFFIX) {
      assert x in first + last;
      TopIsGood(x);
    }
  }

  // ---------------------------------------------------------------- which packages look like two

  predicate LogoIsManifest(fold: Fold, logo: Option<LogoFile>) {
    logo.Some? && Sanitize(fold, logo.value.name) == MANIFEST
  }

  lemma FolderLike(folder: string, names: seq<string>, x: string)
    requires SafeName(folder) && forall i :: 0 <= i < |names| ==> SafeName(names[i])
    requires x in InFolders(folder, names)
    ensures EndsWith(x, MANIFEST_SUFFIX) <==> x == folder + "/" + MANIFEST
    ensures x == folder + "/" + MANIFEST ==> MANIFEST in names
  {
    var i :| 0 <= i < |names| && InFolders(folder, names)[i] == x;
    InFolder(folder, names[i]);
    ConcatInjective(folder + "/", names[i], MANIFEST);
  }

  lemma ManifestInFolder(folder: string, names: seq<string>)
    requires SafeName(folder) && MANIFEST in names && forall i :: 0 <= i < |names| ==> SafeName(names[i])
    ensures exists x :: x in InFolders(folder, names) && EndsWith(x, MANIFEST_SUFFIX)
  {
    var i :| 0 <= i < |names| && names[i] == MANIFEST;
    InFolder(folder, names[i]);
    assert InFolders(folder, names)[i] in InFolders(folder, names);
  }

  /** Only a photograph or a logo can be taken for a second manifest. */
  lemma LooksLikeTwo(fold: Fold, c: Contents, photos: seq<PhotoFile>, names: seq<string>, logo: Option<LogoFile>)
    requires |names| == |photos| && forall i :: 0 <= i < |names| ==> SafeName(names[i])
    ensures ManifestLike(AllParts(fold, c, photos, names, logo)) <==> MANIFEST in names || LogoIsManifest(fold, logo)
  {
    var parts := AllParts(fold, c, photos, names, logo);
    var ps, ls := InFolders(PHOTO_FOLDER, names), InFolders(LOGO_FOLDER, LogoNames(fold, logo));
    AllPaths(fold, c, photos, names, logo);
    LikeByPath(parts, FirstPaths() + ps + ls + LastPaths());
    FolderShape();
    FixedAreGood(FirstPaths(), LastPaths());
    forall x | x in ps ensures EndsWith(x, MANIFEST_SUFFIX) ==> MANIFEST in names {
      FolderLike(PHOTO_FOLDER, names, x);
    }
    forall x | x in ls ensures EndsWith(x, MANIFEST_SUFFIX) ==> MANIFEST in LogoNames(fold, logo) {
      FolderLike(LOGO_FOLDER, LogoNames(fold, logo), x);
    }
    if MANIFEST in names { ManifestInFolder(PHOTO_FOLDER, names); }
    if MANIFEST in LogoNames(fold, logo) { ManifestInFolder(LOGO_FOLDER, LogoNames(fold, logo)); }
  }

  lemma LikeByPath(parts: seq<Part>, paths: seq<string>)
    requires PartPaths(parts) == paths
    ensures ManifestLike(parts) <==> exists x :: x in paths && EndsWith(x, MANIFEST_SUFFIX)
  {
    if x :| x in paths && EndsWith(x, MANIFEST_SUFFIX) {
      var i :| 0 <= i < |paths| && paths[i] == x;
      assert EndsWith(parts[i].path, MANIFEST_SUFFIX);
    }
    if ManifestLike(parts) {
      var i :| 0 <= i < |parts| && EndsWith(parts[i].path, MANIFEST_SUFFIX);
      assert paths[i] in paths;
    }
  }

  // ---------------------------------------------------------------- the photographs are bound

  lemma {:induction false} MatchingCount(files: seq<P.File>, path: string, f: P.File)
    ensures multiset(P.Matching(files, path))[f] == if f.path == path then multiset(files)[f] else 0
  {
    if files != [] {
      MatchingCount(files[1..], path, f);
      assert files == [files[0]] + files[1..];
    }
  }

  /** In any order of the files of distinctly named parts, one entry has a part's path. */
  lemma MatchesOne(lib: Lib, parts: seq<Part>, files: seq<P.File>, k: nat)
    requires Distinct(PartPaths(parts)) && k < |parts| && multiset(files) == multiset(FilesOf(lib, parts))
    ensures P.Matching(files, parts[k].path) == [FileOf(lib, parts[k])]
  {
    var f, listed := FileOf(lib, parts[k]), FilesOf(lib, parts);
    var found := P.Matching(files, parts[k].path);
    CountOne(listed, k);
    forall g ensures multiset(found)[g] == multiset{f}[g] {
      MatchingCount(files, parts[k].path, g);
      if g in found {
        assert g in multiset(found) && g in multiset(files) && g in listed;
        var j :| 0 <= j < |listed| && listed[j] == g;
        assert PartPaths(parts)[j] == PartPaths(parts)[k];
      }
    }
    assert multiset(found) == multiset{f};
    assert |found| == |multiset(found)| == 1;
    assert found[0] in multiset(found);
  }

  lemma CountOne(files: seq<P.File>, k: nat)
    requires k < |files| && forall i :: 0 <= i < |files| && i != k ==> files[i] != files[k]
    ensures multiset(files)[files[k]] == 1
  {
    assert files == files[..k] + [files[k]] + files[k + 1..];
    assert files[k] !in files[..k] && files[k] !in files[k + 1..];
    assert multiset(files) == multiset(files[..k]) + multiset{files[k]} + multiset(files[k + 1..]);
  }
}
