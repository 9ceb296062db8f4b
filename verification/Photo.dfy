/**
 Photograph metadata: the browser's check and the bundled Python check, for manifests of the shape the schema allows.

 The schema takes any numeral of an integer, `560.0` and `5.6e2` too.  The browser reads numbers and never sees how they
 were written; Python reads a numeral with a fraction or an exponent as a float, which is not an `int`.

 The browser divides in floating point, which for dimensions up to 100000 floors like exact division; it is modelled
 with reals, the Python check with integer division.
 */
module Photo {
  import opened Prelude

  const TARGET_WIDTH: int := 112
  const TARGET_HEIGHT: int := 91
  const LOSS_DENOMINATOR: int := 20
  const MAX_DIMENSION: int := 100_000
  const PHOTO_ROLE: string := "exact original specimen photograph"

  datatype Crop = Crop(x: int, y: int, width: int, height: int, aspect: string, algorithm: string)

  datatype Photograph = Photograph(
    path: string, sha: string, length: int, mediaType: string, width: int, height: int, crop: Option<Crop>)

  datatype File = File(path: string, role: string, sha: string, length: int, mediaType: string)

  /** A photograph as the manifest's text has it: whether each dimension is written without fraction and exponent. */
  datatype Listed = Listed(photo: Photograph, plainWidth: bool, plainHeight: bool)

  /** What `JSON.parse` makes of the list. */
  function Parsed(listed: seq<Listed>): (photos: seq<Photograph>)
    ensures |photos| == |listed| && forall i :: 0 <= i < |listed| ==> photos[i] == listed[i].photo
  { seq(|listed|, i requires 0 <= i < |listed| => listed[i].photo) }

  datatype Schema = V20 | V21 | V22

  /** Every complaint either check makes; the number is the photograph's index. */
  datatype Failure =
    | DuplicatePath(index: nat) | FileCount(index: nat) | FileFacts(index: nat) | FileRole(index: nat)
    | Dimensions(index: nat) | Decoded(index: nat) | CropMissing(index: nat) | CropWrong(index: nat)
    | CropUnexpected(index: nat) | NoPhotographs

  // ---------------------------------------------------------------- crops

  predicate GoodDimensions(w: int, h: int) { 1 <= w <= MAX_DIMENSION && 1 <= h <= MAX_DIMENSION }

  /** The browser's scale. */
  function BrowserScale(w: int, h: int): int
    requires w > 0 && h > 0
  {
    var a, b := w as real / 112.0, h as real / 91.0;
    (if a < b then a else b).Floor
  }

  /** The Python check's scale. */
  function PythonScale(w: int, h: int): int
    requires w > 0 && h > 0
  { Min(w / TARGET_WIDTH, h / TARGET_HEIGHT) }

  predicate Suitable(w: int, h: int, scale: int) {
    scale >= 5 && (w * h - (TARGET_WIDTH * scale) * (TARGET_HEIGHT * scale)) * LOSS_DENOMINATOR <= w * h
  }

  /** `matchesLegacyRecordedCrop`. */
  predicate BrowserMatches(w: int, h: int, crop: Option<Crop>) {
    if w <= 0 || h <= 0 then false
    else
      var scale := BrowserScale(w, h);
      var cw, ch := TARGET_WIDTH * scale, TARGET_HEIGHT * scale;
      match crop
      case None => !Suitable(w, h, scale)
      case Some(c) =>
        Suitable(w, h, scale)
        && c == Crop(((w - cw) as real / 2.0).Floor, ((h - ch) as real / 2.0).Floor, cw, ch, "112:91",
           "center-cover-v1")
  }

  /** `expected_crop` of the Python check. */
  function PythonCrop(w: int, h: int): Crop
    requires w > 0 && h > 0
  {
    var scale := PythonScale(w, h);
    var cw, ch := TARGET_WIDTH * scale, TARGET_HEIGHT * scale;
    Crop((w - cw) / 2, (h - ch) / 2, cw, ch, "112:91", "center-cover-v1")
  }

  lemma FloorsDivide(n: int)
    ensures (n as real / 112.0).Floor == n / 112
    ensures (n as real / 91.0).Floor == n / 91
    ensures (n as real / 2.0).Floor == n / 2
  {
  }

  lemma ScalesAgree(w: int, h: int)
    requires w > 0 && h > 0
    ensures BrowserScale(w, h) == PythonScale(w, h)
  {
    FloorsDivide(w);
    FloorsDivide(h);
  }

  /** Both checks accept the same recorded crop for the same dimensions. */
  lemma CropsAgree(w: int, h: int, c: Crop)
    requires w > 0 && h > 0
    ensures BrowserMatches(w, h, Some(c)) <==> Suitable(w, h, PythonScale(w, h)) && c == PythonCrop(w, h)
    ensures BrowserMatches(w, h, None) <==> !Suitable(w, h, PythonScale(w, h))
  {
    ScalesAgree(w, h);
    var scale := PythonScale(w, h);
    FloorsDivide(w - 112 * scale);
    FloorsDivide(h - 91 * scale);
  }

  /**
   An accepted crop is the largest 112k by 91k rectangle that fits the photograph; it lies inside it, is centred to
   within one pixel, and loses at most a twentieth of the area.
   */
  lemma AcceptedCropIsBest(w: int, h: int, c: Crop)
    requires BrowserMatches(w, h, Some(c))
    ensures exists k :: k >= 5 && c.width == 112 * k && c.height == 91 * k
    ensures forall k :: 112 * k <= w && 91 * k <= h ==> 112 * k <= c.width && 91 * k <= c.height
    ensures 0 <= c.x && 0 <= c.y && c.x + c.width <= w && c.y + c.height <= h
    ensures 0 <= (w - (c.x + c.width)) - c.x <= 1 && 0 <= (h - (c.y + c.height)) - c.y <= 1
    ensures (w * h - c.width * c.height) * 20 <= w * h
  {
    CropsAgree(w, h, c);
    CropGeometry(w, h);
    var scale := PythonScale(w, h);
    assert c.width == 112 * scale && c.height == 91 * scale;
    CropArea(w, h, scale, c);
  }

  /** The centred rectangle of this scale. */
  predicate Centred(w: int, h: int, c: Crop, k: int) {
    && c.width == 112 * k && c.height == 91 * k && c.aspect == "112:91" && c.algorithm == "center-cover-v1"
    && 0 <= (w - (c.x + c.width)) - c.x <= 1 && 0 <= (h - (c.y + c.height)) - c.y <= 1
  }

  /** The largest scale that fits. */
  predicate LargestScale(w: int, h: int, k: int) {
    112 * k <= w && 91 * k <= h && (w < 112 * (k + 1) || h < 91 * (k + 1))
  }

  /** A scale that is large enough, and loses at most a twentieth of the area. */
  predicate GoodScale(w: int, h: int, k: int) { k >= 5 && 20 * (w * h - 112 * k * (91 * k)) <= w * h }

  /** A crop is accepted exactly when it is the centred rectangle of the largest scale, and that is good enough. */
  lemma CropExactly(w: int, h: int, c: Crop)
    requires w > 0 && h > 0
    ensures BrowserMatches(w, h, Some(c)) <==>
              exists k :: LargestScale(w, h, k) && GoodScale(w, h, k) && Centred(w, h, c, k)
    ensures BrowserMatches(w, h, None) <==> !exists k :: LargestScale(w, h, k) && GoodScale(w, h, k)
  {
    var k := PythonScale(w, h);
    CropsAgree(w, h, c);
    CropGeometry(w, h);
    assert w == 112 * (w / 112) + w % 112 && h == 91 * (h / 91) + h % 91;
    assert LargestScale(w, h, k);
    forall j | LargestScale(w, h, j) ensures j == k { OneLargest(w, h, j, k); }
    assert Suitable(w, h, k) <==> GoodScale(w, h, k);
    assert Centred(w, h, c, k) <==> c == PythonCrop(w, h);
  }

  lemma OneLargest(w: int, h: int, j: int, k: int)
    requires LargestScale(w, h, j) && LargestScale(w, h, k)
    ensures j == k
  {
  }

  lemma CropGeometry(w: int, h: int)
    requires w > 0 && h > 0
    ensures var c, scale := PythonCrop(w, h), PythonScale(w, h);
            && (forall k :: 112 * k <= w && 91 * k <= h ==> k <= scale)
            && 0 <= c.x && 0 <= c.y && c.x + c.width <= w && c.y + c.height <= h
            && 0 <= (w - (c.x + c.width)) - c.x <= 1 && 0 <= (h - (c.y + c.height)) - c.y <= 1
  {
    assert w == 112 * (w / 112) + w % 112 && h == 91 * (h / 91) + h % 91;
  }

  lemma CropArea(w: int, h: int, scale: int, c: Crop)
    requires Suitable(w, h, scale) && c.width == 112 * scale && c.height == 91 * scale
    ensures (w * h - c.width * c.height) * 20 <= w * h
  {
  }

  // ---------------------------------------------------------------- one photograph

  function Matching(files: seq<File>, path: string): (m: seq<File>)
    ensures forall f :: f in m ==> f in files && f.path == path
  {
    if files == [] then []
    else if files[0].path == path then [files[0]] + Matching(files[1..], path)
    else Matching(files[1..], path)
  }

  /** Bound to exactly one file entry with the same facts, and the photograph role from schema 2.1 on. */
  predicate Bound(schema: Schema, files: seq<File>, p: Photograph) {
    var m := Matching(files, p.path);
    && |m| == 1 && p.sha == m[0].sha && p.length == m[0].length && p.mediaType == m[0].mediaType
    && (schema != V20 ==> m[0].role == PHOTO_ROLE)
  }

  /** The entry at this index is the only one with the path. */
  predicate Only(files: seq<File>, path: string, i: nat) {
    i < |files| && forall j :: 0 <= j < |files| ==> (files[j].path == path <==> j == i)
  }

  lemma {:induction false} NoneMatches(files: seq<File>, path: string)
    requires forall j :: 0 <= j < |files| ==> files[j].path != path
    ensures Matching(files, path) == []
  {
    if files != [] { NoneMatches(files[1..], path); }
  }

  lemma {:induction false} OnlyMatches(files: seq<File>, path: string, i: nat)
    requires Only(files, path, i)
    ensures Matching(files, path) == [files[i]]
  {
    if i == 0 { NoneMatches(files[1..], path); } else { OnlyMatches(files[1..], path, i - 1); }
  }

  lemma {:induction false} MatchIsOnly(files: seq<File>, path: string) returns (i: nat)
    requires |Matching(files, path)| == 1
    ensures Only(files, path, i)
  {
    var rest := files[1..];
    if files[0].path == path {
      i := 0;
      MatchesNone(rest, path);
    } else {
      var k := MatchIsOnly(rest, path);
      i := k + 1;
      forall j | 0 <= j < |files| ensures files[j].path == path <==> j == i {
        if j > 0 { assert files[j] == rest[j - 1]; }
      }
    }
  }

  lemma {:induction false} MatchesNone(files: seq<File>, path: string)
    requires Matching(files, path) == []
    ensures forall j :: 0 <= j < |files| ==> files[j].path != path
  {
    if files != [] { MatchesNone(files[1..], path); }
  }

  /** A photograph is bound exactly when it has one entry, which says the same of it. */
  lemma BoundExactly(schema: Schema, files: seq<File>, p: Photograph)
    ensures Bound(schema, files, p) <==>
              exists i: nat ::
                          && Only(files, p.path, i)
                          && files[i].sha == p.sha && files[i].length == p.length && files[i].mediaType == p.mediaType
                          && (schema == V20 || files[i].role == "exact original specimen photograph")
  {
    if i: nat :| Only(files, p.path, i) {
      OnlyMatches(files, p.path, i);
      forall k: nat | Only(files, p.path, k) ensures k == i { assert files[k].path == p.path; }
    } else if |Matching(files, p.path)| == 1 {
      var i := MatchIsOnly(files, p.path);
    }
  }

  /** Crop semantics: schema 2.1 records the one crop of a suitable photograph, 2.2 records none. */
  predicate CropRule(schema: Schema, index: nat, p: Photograph) {
    match schema
    case V20 => true
    case V21 =>
      && GoodDimensions(p.width, p.height)
      && (match p.crop
          case None => !Suitable(p.width, p.height, PythonScale(p.width, p.height)) && index > 0
          case Some(c) =>
            Suitable(p.width, p.height, PythonScale(p.width, p.height)) && c == PythonCrop(p.width, p.height))
    case V22 => GoodDimensions(p.width, p.height) && p.crop.None?
  }

  predicate SeenBefore(photos: seq<Photograph>, index: nat)
    requires index < |photos|
  { exists j :: 0 <= j < index && photos[j].path == photos[index].path }

  /** The shared meaning of both checks. */
  predicate Accepted(schema: Schema, files: seq<File>, photos: seq<Photograph>) {
    && photos != []
    && (forall i :: 0 <= i < |photos| ==>
          !SeenBefore(photos, i) && Bound(schema, files, photos[i]) && CropRule(schema, i, photos[i]))
  }

  /** The browser's file-entry complaints, one per property. */
  function BrowserBinding(schema: Schema, files: seq<File>, p: Photograph, i: nat): (fs: seq<Failure>)
    ensures fs == [] <==> Bound(schema, files, p)
  {
    var m := Matching(files, p.path);
    if |m| != 1 then [FileCount(i)]
    else
      (if p.sha != m[0].sha then [FileFacts(i)] else [])
      + (if p.length != m[0].length then [FileFacts(i)] else [])
      + (if p.mediaType != m[0].mediaType then [FileFacts(i)] else [])
      + (if schema != V20 && m[0].role != PHOTO_ROLE then [FileRole(i)] else [])
  }

  function PythonBinding(schema: Schema, files: seq<File>, p: Photograph, i: nat): (fs: seq<Failure>)
    ensures fs == [] <==> Bound(schema, files, p)
  {
    var m := Matching(files, p.path);
    if |m| != 1 then [FileCount(i)]
    else
      (if p.sha != m[0].sha || p.length != m[0].length || p.mediaType != m[0].mediaType then [FileFacts(i)] else [])
      + (if schema != V20 && m[0].role != PHOTO_ROLE then [FileRole(i)] else [])
  }

  // ---------------------------------------------------------------- the two checks

  /** `validatePhotographMetadata` before any image is decoded. */
  method BrowserCheck(schema: Schema, files: seq<File>, photos: seq<Photograph>) returns (failures: seq<Failure>)
    ensures failures == [] <==> Accepted(schema, files, photos)
  {
    failures := [];
    var seen: set<string> := {};
    for i := 0 to |photos|
      invariant seen == set j | 0 <= j < i :: photos[j].path
      invariant failures == [] <==> forall j :: 0 <= j < i ==>
                  !SeenBefore(photos, j) && Bound(schema, files, photos[j]) && CropRule(schema, j, photos[j])
    {
      var p := photos[i];
      var before := failures;
      if p.path in seen { failures := failures + [DuplicatePath(i)]; }
      seen := seen + {p.path};
      failures := failures + BrowserBinding(schema, files, p, i);
      var crop := BrowserCropFailures(schema, p, i);
      failures := failures + crop;
      assert failures == [] <==>
               before == [] && !SeenBefore(photos, i) && Bound(schema, files, p) && CropRule(schema, i, p);
    }
    if |photos| == 0 { failures := failures + [NoPhotographs]; }
  }

  method BrowserCropFailures(schema: Schema, p: Photograph, index: nat) returns (failures: seq<Failure>)
    ensures failures == [] <==> CropRule(schema, index, p)
  {
    failures := [];
    if schema == V20 { return; }
    if !GoodDimensions(p.width, p.height) { return [Dimensions(index)]; }
    if schema == V22 {
      if p.crop.Some? { failures := [CropUnexpected(index)]; }
      return;
    }
    CropsAgree(p.width, p.height, p.crop.GetOr(PythonCrop(p.width, p.height)));
    if p.crop.None? {
      if !BrowserMatches(p.width, p.height, None) { failures := failures + [CropMissing(index)]; }
      if index == 0 { failures := failures + [CropMissing(index)]; }
      return;
    }
    if !BrowserMatches(p.width, p.height, p.crop) { failures := [CropWrong(index)]; }
  }

  /** Both dimensions are read as `int`, where the schema version has dimensions. */
  predicate Plain(schema: Schema, l: Listed) { schema == V20 || (l.plainWidth && l.plainHeight) }

  predicate AllPlain(schema: Schema, listed: seq<Listed>) { forall l :: l in listed ==> Plain(schema, l) }

  /** The loop over photographs in the bundled `verify.py`. */
  method PythonCheck(schema: Schema, files: seq<File>, listed: seq<Listed>) returns (failures: seq<Failure>)
    ensures failures == [] <==> Accepted(schema, files, Parsed(listed)) && AllPlain(schema, listed)
  {
    failures := [];
    var seen: set<string> := {};
    ghost var photos := Parsed(listed);
    for i := 0 to |listed|
      invariant seen == set j | 0 <= j < i :: photos[j].path
      invariant failures == [] <==> forall j :: 0 <= j < i ==>
                  && !SeenBefore(photos, j) && Bound(schema, files, photos[j]) && CropRule(schema, j, photos[j])
                  && Plain(schema, listed[j])
    {
      var p := listed[i].photo;
      var before := failures;
      if p.path in seen { failures := failures + [DuplicatePath(i)]; }
      seen := seen + {p.path};
      failures := failures + PythonBinding(schema, files, p, i);
      var crop := PythonCropFailures(schema, listed[i], i);
      failures := failures + crop;
      assert failures == [] <==>
               && before == [] && !SeenBefore(photos, i) && Bound(schema, files, p) && CropRule(schema, i, p)
               && Plain(schema, listed[i]);
    }
    if |listed| == 0 { failures := failures + [NoPhotographs]; }
  }

  method PythonCropFailures(schema: Schema, l: Listed, index: nat) returns (failures: seq<Failure>)
    ensures failures == [] <==> CropRule(schema, index, l.photo) && Plain(schema, l)
  {
    failures := [];
    if schema == V20 { return; }
    var p := l.photo;
    var w, h := p.width, p.height;
    if !l.plainWidth || !l.plainHeight || !(1 <= w <= 100000 && 1 <= h <= 100000) { return [Dimensions(index)]; }
    if schema == V21 {
      var scale := Min(w / 112, h / 91);
      var cropWidth, cropHeight := 112 * scale, 91 * scale;
      var suitable := scale >= 5 && (w * h - cropWidth * cropHeight) * 20 <= w * h;
      var expected := Crop((w - cropWidth) / 2, (h - cropHeight) / 2, cropWidth, cropHeight, "112:91",
        "center-cover-v1");
      if p.crop.None? {
        if suitable || index == 0 { failures := [CropMissing(index)]; }
      } else if !suitable || p.crop.value != expected {
        failures := [CropWrong(index)];
      }
    } else if p.crop.Some? {
      failures := [CropUnexpected(index)];
    }
  }

  /**
   The browser and the bundled check agree exactly when every dimension is written without fraction and exponent, or
   the list has a fault both complain of; the bundled check never accepts what the browser refuses.
   */
  method ChecksAgree(schema: Schema, files: seq<File>, listed: seq<Listed>) returns (browser: bool, python: bool)
    ensures browser == Accepted(schema, files, Parsed(listed))
    ensures python ==> browser
    ensures browser == python <==> AllPlain(schema, listed) || !Accepted(schema, files, Parsed(listed))
  {
    var b := BrowserCheck(schema, files, Parsed(listed));
    var p := PythonCheck(schema, files, listed);
    browser, python := b == [], p == [];
  }

  /** One good photograph of schema 2.2 whose width is written `560.0`: the browser accepts it, Python does not. */
  lemma FractionsDivide(file: File)
    requires file.role == PHOTO_ROLE
    ensures var listed :=
              [Listed(Photograph(file.path, file.sha, file.length, file.mediaType, 560, 455, None), false, true)];
            Accepted(V22, [file], Parsed(listed)) && !AllPlain(V22, listed)
  {
    var photo := Photograph(file.path, file.sha, file.length, file.mediaType, 560, 455, None);
    var listed := [Listed(photo, false, true)];
    assert Matching([file], file.path) == [file] by { assert [file][1..] == []; }
    assert Parsed(listed)[0] == photo && listed[0] in listed;
  }
}
