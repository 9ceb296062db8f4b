/** Relative paths inside a package. */
module Paths {
  import opened FileNames

  /** `path.split("/")`. */
  function Segments(s: string): (r: seq<string>)
    ensures r != []
  {
    if s == "" then [""]
    else
      var n := |s| - 1;
      var front := Segments(s[..n]);
      if s[n] == '/' then front + [""] else front[..|front| - 1] + [front[|front| - 1] + [s[n]]]
  }

  /** `isSafeRelativePath`. */
  predicate SafeRelative(path: string) {
    path != "" && path[0] != '/' && '\\' !in path && ".." !in Segments(path)
  }

  predicate EndsWith(s: string, suffix: string) { |s| >= |suffix| && s[|s| - |suffix|..] == suffix }

  const MANIFEST: string := "manifest.json"
  const MANIFEST_SUFFIX: string := "/manifest.json"

  lemma {:induction false} OneSegment(s: string)
    requires '/' !in s
    ensures Segments(s) == [s]
  {
    if s != "" {
      var n := |s| - 1;
      assert s == s[..n] + [s[n]];
      OneSegment(s[..n]);
    }
  }

  lemma {:induction false} JoinedSegments(a: string, b: string)
    requires '/' !in b
    ensures Segments(a + "/" + b) == Segments(a) + [b]
  {
    var s := a + "/" + b;
    var n := |s| - 1;
    if b == "" {
      assert s[..n] == a;
    } else {
      var m := |b| - 1;
      assert b == b[..m] + [b[m]];
      assert s[..n] == a + "/" + b[..m];
      JoinedSegments(a, b[..m]);
    }
  }

  /** A safe name is a safe path, alone and below a safe directory. */
  lemma SafeNameIsPath(name: string)
    requires SafeName(name)
    ensures SafeRelative(name) && '/' !in name
  {
    NoSlash(name);
    OneSegment(name);
    assert name[0] in name;
  }

  lemma NoSlash(s: string)
    requires SafeChars(s)
    ensures '/' !in s && '\\' !in s
  {
    assert !SafeChar('/') && !SafeChar('\\');
  }

  lemma SafeBelow(folder: string, name: string)
    requires SafeName(folder) && SafeName(name)
    ensures SafeRelative(folder + "/" + name)
  {
    NoSlash(folder);
    NoSlash(name);
    OneSegment(folder);
    JoinedSegments(folder, name);
    assert folder[0] in folder;
  }

  /** Below a root, a path is the manifest or ends like one exactly when it does so by itself. */
  lemma ManifestBelow(root: string, path: string)
    ensures EndsWith(root + "/" + path, MANIFEST_SUFFIX) <==> path == MANIFEST || EndsWith(path, MANIFEST_SUFFIX)
  {
    var s, k := root + "/" + path, |MANIFEST_SUFFIX|;
    assert k == 14 && |MANIFEST| == 13 && MANIFEST_SUFFIX == "/" + MANIFEST;
    if |path| >= k {
      assert s[|s| - k..] == path[|path| - k..];
    } else if |path| == |MANIFEST| {
      assert s[|s| - k..] == "/" + path;
      assert ("/" + path)[1..] == path && MANIFEST_SUFFIX[1..] == MANIFEST;
    } else {
      TooShort(root, path);
    }
  }

  /** A shorter path leaves a slash where the suffix has a letter. */
  lemma TooShort(root: string, path: string)
    requires |path| < |MANIFEST|
    ensures !EndsWith(root + "/" + path, MANIFEST_SUFFIX)
  {
    var s, k := root + "/" + path, |MANIFEST_SUFFIX|;
    if |s| >= k {
      var at := |MANIFEST| - |path|;
      assert MANIFEST_SUFFIX[at] == MANIFEST[at - 1] && '/' !in MANIFEST;
      assert s[|s| - k..][at] == s[|root|] == '/';
    }
  }

  // ---------------------------------------------------------------- what a safe path is

  /** A segment of two dots: between slashes or ends. */
  predicate DotsAt(s: string, i: nat) {
    i + 2 <= |s| && s[i..i + 2] == ".." && (i == 0 || s[i - 1] == '/') && (i + 2 == |s| || s[i + 2] == '/')
  }

  function LastOf(s: string): string { Segments(s)[|Segments(s)| - 1] }

  function Earlier(s: string): seq<string> { Segments(s)[..|Segments(s)| - 1] }

  /** What the last character does to the segments. */
  lemma LastCharacter(s: string)
    requires s != ""
    ensures var n := |s| - 1;
            if s[n] == '/' then Earlier(s) == Earlier(s[..n]) + [LastOf(s[..n])] && LastOf(s) == ""
            else Earlier(s) == Earlier(s[..n]) && LastOf(s) == LastOf(s[..n]) + [s[n]]
  {
    var n := |s| - 1;
    var before := Segments(s[..n]);
    var m := |before| - 1;
    if s[n] == '/' {
      assert Segments(s) == before + [""];
      assert before == before[..m] + [before[m]];
    } else {
      assert Segments(s) == before[..m] + [before[m] + [s[n]]];
    }
  }

  /** The string ends with this, and what stands before it is a slash, or nothing. */
  predicate IsTail(s: string, last: string) {
    && |last| <= |s| && s[|s| - |last|..] == last && '/' !in last
    && (|last| == |s| || s[|s| - |last| - 1] == '/')
  }

  lemma TailEmpty(s: string)
    requires s == "" || s[|s| - 1] == '/'
    ensures IsTail(s, "")
  {
  }

  lemma TailGrows(s: string, last: string, c: char)
    requires IsTail(s, last) && c != '/'
    ensures IsTail(s + [c], last + [c])
  {
    var t, k := s + [c], |s| - |last|;
    assert t[k..] == s[k..] + [c];
    if k > 0 { assert t[k - 1] == s[k - 1]; }
  }

  /** The last segment runs from the last slash to the end. */
  lemma {:induction false} LastSegment(s: string)
    ensures IsTail(s, LastOf(s))
  {
    if s == "" {
      TailEmpty(s);
    } else {
      var front, c := s[..|s| - 1], s[|s| - 1];
      LastCharacter(s);
      if c == '/' {
        TailEmpty(s);
      } else {
        LastSegment(front);
        TailGrows(front, LastOf(front), c);
        assert s == front + [c];
      }
    }
  }

  lemma LastIsDots(s: string)
    ensures LastOf(s) == ".." <==> |s| >= 2 && DotsAt(s, |s| - 2)
  {
    LastSegment(s);
    var last := LastOf(s);
    if |s| >= 2 && DotsAt(s, |s| - 2) {
      var tail := s[|s| - 2..|s|];
      assert tail == "..";
      assert s[|s| - 2] == tail[0] && s[|s| - 1] == tail[1];
      assert forall k :: 0 <= k < |last| ==> last[k] == s[|s| - |last| + k];
    }
  }

  lemma DotsBefore(s: string, i: nat)
    requires i + 2 < |s|
    ensures var n := |s| - 1;
            DotsAt(s, i) <==> DotsAt(s[..n], i) && (i + 2 == n ==> s[n] == '/')
  {
    var n := |s| - 1;
    assert s[i..i + 2] == s[..n][i..i + 2];
  }

  ghost predicate SomeDots(s: string) { exists i: nat :: i + 2 < |s| && DotsAt(s, i) }

  lemma DotsOneMore(s: string)
    requires s != ""
    ensures var n := |s| - 1;
            SomeDots(s) <==> SomeDots(s[..n]) || (n >= 2 && s[n] == '/' && DotsAt(s[..n], n - 2))
  {
    var n := |s| - 1;
    forall i: nat | i + 2 < |s| ensures DotsAt(s, i) <==> DotsAt(s[..n], i) && (i + 2 == n ==> s[n] == '/') {
      DotsBefore(s, i);
    }
    if n >= 2 && s[n] == '/' && DotsAt(s[..n], n - 2) { assert DotsAt(s, n - 2); }
  }

  /** The earlier segments end at a slash. */
  lemma {:induction false} EarlierDots(s: string)
    ensures ".." in Earlier(s) <==> SomeDots(s)
  {
    if s != "" {
      var n := |s| - 1;
      EarlierDots(s[..n]);
      LastIsDots(s[..n]);
      LastCharacter(s);
      DotsOneMore(s);
    }
  }

  /** A path is safe exactly when it is relative, without backslash, and has no segment of two dots. */
  lemma SafeExactly(path: string)
    ensures SafeRelative(path) <==>
              && path != "" && path[0] != '/' && '\\' !in path
              && forall i: nat :: i < |path| ==> !DotsAt(path, i)
  {
    assert Segments(path) == Earlier(path) + [LastOf(path)];
    EarlierDots(path);
    LastIsDots(path);
  }
}
