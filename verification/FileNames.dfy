/** File names inside a package: sanitizing, and names made unique regardless of letter case. */
module FileNames {
  import opened Prelude

  /** Unicode folding (NFKD, marks removed) is opaque. */
  type Fold = string -> string

  predicate SafeChar(c: char) {
    'A' <= c <= 'Z' || 'a' <= c <= 'z' || '0' <= c <= '9' || c == '.' || c == '_' || c == '-'
  }

  predicate SafeChars(s: string) { forall c :: c in s ==> SafeChar(c) }

  /** What a sanitized name looks like. */
  predicate SafeName(s: string) { s != "" && SafeChars(s) && s != "." && s != ".." }

  // ---------------------------------------------------------------- sanitizing

  /** What follows the last separator, either way it leans. */
  function BaseName(s: string): (r: string)
    ensures forall c :: c in r ==> c != '/' && c != '\\'
  {
    if s == "" then ""
    else
      var n := |s| - 1;
      if s[n] == '/' || s[n] == '\\' then "" else BaseName(s[..n]) + [s[n]]
  }

  /** Runs of other characters become one hyphen. */
  function Hyphenate(s: string): (r: string)
    ensures SafeChars(r)
  {
    if s == "" then ""
    else if SafeChar(s[0]) then [s[0]] + Hyphenate(s[1..])
    else if |s| > 1 && !SafeChar(s[1]) then Hyphenate(s[1..])
    else "-" + Hyphenate(s[1..])
  }

  function TrimLeft(s: string): (r: string)
    ensures SafeChars(s) ==> SafeChars(r)
  { if s != "" && s[0] == '-' then TrimLeft(s[1..]) else s }

  function TrimRight(s: string): (r: string)
    ensures SafeChars(s) ==> SafeChars(r)
  { if s != "" && s[|s| - 1] == '-' then TrimRight(s[..|s| - 1]) else s }

  /** `sanitizeFileName`. */
  function Sanitize(fold: Fold, name: string): (r: string)
    ensures SafeName(r)
  {
    var safe := TrimRight(TrimLeft(Hyphenate(fold(BaseName(name)))));
    if safe != "" && safe != "." && safe != ".." then safe else "file"
  }

  /** Sanitizing with a folding that leaves safe names alone changes a safe name only by trimming hyphens. */
  lemma SafeNamesStay(fold: Fold, s: string)
    requires SafeName(s) && fold(s) == s && s[0] != '-' && s[|s| - 1] != '-'
    ensures Sanitize(fold, s) == s
  {
    BaseNameOfSafe(s);
    HyphenateSafe(s);
  }

  lemma {:induction false} BaseNameOfSafe(s: string)
    requires SafeChars(s)
    ensures BaseName(s) == s
  {
    if s != "" {
      var n := |s| - 1;
      BaseNameOfSafe(s[..n]);
      assert s == s[..n] + [s[n]] && SafeChar(s[n]);
    }
  }

  lemma {:induction false} HyphenateSafe(s: string)
    requires SafeChars(s)
    ensures Hyphenate(s) == s
  {
    if s != "" { HyphenateSafe(s[1..]); }
  }

  /** The characters a name is known by: the safe ones that are no hyphens. */
  function Letters(s: string): string {
    if s == "" then ""
    else if SafeChar(s[0]) && s[0] != '-' then [s[0]] + Letters(s[1..])
    else Letters(s[1..])
  }

  lemma {:induction false} LettersConcat(a: string, b: string)
    ensures Letters(a + b) == Letters(a) + Letters(b)
  {
    if a == "" {
      assert a + b == b;
    } else {
      assert (a + b)[1..] == a[1..] + b;
      LettersConcat(a[1..], b);
    }
  }

  lemma {:induction false} HyphenateKeeps(s: string)
    ensures Letters(Hyphenate(s)) == Letters(s)
  {
    if s != "" {
      HyphenateKeeps(s[1..]);
      var rest := Hyphenate(s[1..]);
      assert ([s[0]] + rest)[1..] == rest && ("-" + rest)[1..] == rest;
    }
  }

  lemma {:induction false} TrimRightKeeps(s: string)
    ensures Letters(TrimRight(s)) == Letters(s) && (TrimRight(s) == "" || TrimRight(s)[|TrimRight(s)| - 1] != '-')
  {
    if s != "" && s[|s| - 1] == '-' {
      var front := s[..|s| - 1];
      TrimRightKeeps(front);
      LettersConcat(front, "-");
      assert Letters("-") == "" by { assert "-"[1..] == ""; }
      assert s == front + "-";
    }
  }

  lemma {:induction false} TrimRightCuts(s: string)
    ensures TrimRight(s) <= s
  {
    if s != "" && s[|s| - 1] == '-' { TrimRightCuts(s[..|s| - 1]); }
  }

  lemma {:induction false} TrimLeftKeeps(s: string)
    ensures Letters(TrimLeft(s)) == Letters(s) && (TrimLeft(s) == "" || TrimLeft(s)[0] != '-')
  {
    if s != "" && s[0] == '-' { TrimLeftKeeps(s[1..]); }
  }

  /** What follows the last separator: the whole name, or what stands behind it. */
  lemma {:induction false} BaseNameIs(s: string)
    ensures var r := BaseName(s);
            && |r| <= |s| && s[|s| - |r|..] == r
            && (|r| == |s| || s[|s| - |r| - 1] == '/' || s[|s| - |r| - 1] == '\\')
  {
    if s != "" {
      var n := |s| - 1;
      BaseNameIs(s[..n]);
      if s[n] != '/' && s[n] != '\\' {
        var r := BaseName(s[..n]);
        assert s[|s| - (|r| + 1)..] == s[..n][n - |r|..] + [s[n]];
      }
    }
  }

  /**
   Sanitizing keeps the characters of the folded base name, in order; it drops only hyphens and characters that are not
   safe, and neither begins nor ends with a hyphen.  Only a name without any other character, or of one or two dots,
   becomes `file`.
   */
  lemma SanitizeKeeps(fold: Fold, name: string)
    ensures var r, letters := Sanitize(fold, name), Letters(fold(BaseName(name)));
            && (Letters(r) == letters || (r == "file" && letters in {"", ".", ".."}))
            && r[0] != '-' && r[|r| - 1] != '-'
  {
    var s := fold(BaseName(name));
    var hyphenated := Hyphenate(s);
    var left := TrimLeft(hyphenated);
    var right := TrimRight(left);
    HyphenateKeeps(s);
    TrimLeftKeeps(hyphenated);
    TrimRightKeeps(left);
    TrimRightCuts(left);
    assert right != "" ==> right[0] == left[0];
    assert Letters(right) == Letters(s);
    DotsAreLetters();
  }

  lemma DotsAreLetters()
    ensures Letters("") == "" && Letters(".") == "." && Letters("..") == ".."
  {
    assert "."[1..] == "" && ".."[1..] == ".";
  }

  // ---------------------------------------------------------------- unique names

  /** `toLowerCase`, on safe characters. */
  function LowerChar(c: char): char { if 'A' <= c <= 'Z' then (c as int - 'A' as int + 'a' as int) as char else c }

  function Lower(s: string): (r: string)
    ensures |r| == |s|
  {
    if s == "" then "" else [LowerChar(s[0])] + Lower(s[1..])
  }

  lemma {:induction false} LowerConcat(a: string, b: string)
    ensures Lower(a + b) == Lower(a) + Lower(b)
  {
    if a == "" {
      assert a + b == b;
    } else {
      LowerConcat(a[1..], b);
      assert (a + b)[1..] == a[1..] + b;
    }
  }

  function Digit(d: nat): char
    requires d < 10
  { ('0' as int + d) as char }

  function Decimal(n: nat): (s: string)
    ensures s != "" && forall c :: c in s ==> '0' <= c <= '9'
  {
    if n < 10 then [Digit(n)] else Decimal(n / 10) + [Digit(n % 10)]
  }

  lemma {:induction false} DecimalInjective(m: nat, n: nat)
    requires Decimal(m) == Decimal(n)
    ensures m == n
    decreases m
  {
    var s, t := Decimal(m), Decimal(n);
    DecimalLength(m);
    DecimalLength(n);
    assert s[|s| - 1] == Digit(m % 10) && t[|t| - 1] == Digit(n % 10);
    if m >= 10 && n >= 10 {
      assert s[..|s| - 1] == Decimal(m / 10) && t[..|t| - 1] == Decimal(n / 10);
      DecimalInjective(m / 10, n / 10);
    }
  }

  lemma DecimalLength(n: nat)
    ensures |Decimal(n)| >= 2 <==> n >= 10
  {
    if n >= 10 { assert |Decimal(n)| == |Decimal(n / 10)| + 1; }
  }

  lemma {:induction false} LowerDigits(s: string)
    requires forall c :: c in s ==> '0' <= c <= '9' || c == '-'
    ensures Lower(s) == s
  {
    if s != "" {
      assert s[0] in s && s == [s[0]] + s[1..];
      assert forall c :: c in s[1..] ==> c in s;
      LowerDigits(s[1..]);
    }
  }

  /** Where the extension starts; a name that starts with its only dot has none. */
  function DotAt(s: string): (i: nat)
    ensures i <= |s|
  {
    var dot := LastDot(s);
    if dot.Some? && dot.value > 0 then dot.value else |s|
  }

  function LastDot(s: string): (r: Option<nat>)
    ensures r.Some? ==> r.value < |s| && s[r.value] == '.'
  {
    if s == "" then None
    else if s[|s| - 1] == '.' then Some(|s| - 1)
    else LastDot(s[..|s| - 1])
  }

  /** The k-th name to try: the name itself, then `stem-2.ext`, `stem-3.ext`, ... */
  function Candidate(safe: string, k: nat): string
    requires k >= 1
  {
    if k == 1 then safe else safe[..DotAt(safe)] + "-" + Decimal(k) + safe[DotAt(safe)..]
  }

  lemma CandidateLower(safe: string, k: nat)
    requires k >= 2
    ensures Lower(Candidate(safe, k)) == Lower(safe[..DotAt(safe)]) + "-" + Decimal(k) + Lower(safe[DotAt(safe)..])
  {
    var stem, extension := safe[..DotAt(safe)], safe[DotAt(safe)..];
    LowerConcat(stem + "-" + Decimal(k), extension);
    LowerConcat(stem + "-", Decimal(k));
    LowerConcat(stem, "-");
    LowerDigits("-");
    LowerDigits(Decimal(k));
  }

  /** Different numbers give names that differ beyond letter case. */
  lemma CandidatesDiffer(safe: string, j: nat, k: nat)
    requires 1 <= j < k
    ensures Lower(Candidate(safe, j)) != Lower(Candidate(safe, k))
  {
    CandidateLower(safe, k);
    if j == 1 {
      assert |Candidate(safe, k)| > |safe|;
    } else {
      CandidateLower(safe, j);
      var a, c := Lower(safe[..DotAt(safe)]) + "-", Lower(safe[DotAt(safe)..]);
      if a + Decimal(j) + c == a + Decimal(k) + c {
        SameMiddle(a, Decimal(j), Decimal(k), c);
        DecimalInjective(j, k);
      }
    }
  }

  lemma SameMiddle(a: string, x: string, y: string, c: string)
    requires a + x + c == a + y + c
    ensures x == y
  {
    assert |x| == |y|;
    assert x == (a + x + c)[|a|..|a| + |x|] && y == (a + y + c)[|a|..|a| + |y|];
  }

  predicate Taken(safe: string, used: set<string>, k: nat)
    requires k >= 1
  { Lower(Candidate(safe, k)) in used }

  /** The first free number. */
  ghost predicate FirstFree(safe: string, used: set<string>, k: nat) {
    k >= 1 && !Taken(safe, used, k) && forall j :: 1 <= j < k ==> Taken(safe, used, j)
  }

  lemma {:induction false} SubsetBound<T>(a: set<T>, b: set<T>)
    requires a <= b
    ensures |a| <= |b|
  {
    if a != {} {
      var x :| x in a;
      SubsetBound(a - {x}, b - {x});
    }
  }

  /** The first n names tried, in lower case. */
  ghost function Tried(safe: string, n: nat): set<string> {
    if n == 0 then {} else Tried(safe, n - 1) + {Lower(Candidate(safe, n))}
  }

  lemma {:induction false} TriedFresh(safe: string, n: nat, k: nat)
    requires n < k
    ensures Lower(Candidate(safe, k)) !in Tried(safe, n)
    decreases n
  {
    if n > 0 {
      CandidatesDiffer(safe, n, k);
      TriedFresh(safe, n - 1, k);
    }
  }

  lemma CardPush<T>(s: set<T>, x: T)
    requires x !in s
    ensures |s + {x}| == |s| + 1
  {
  }

  /** Pigeonhole: n distinct names that are all used need n used names. */
  lemma {:induction false} TriedCount(safe: string, n: nat)
    ensures |Tried(safe, n)| == n
  {
    if n > 0 {
      TriedFresh(safe, n - 1, n);
      TriedCount(safe, n - 1);
      CardPush(Tried(safe, n - 1), Lower(Candidate(safe, n)));
    }
  }

  lemma {:induction false} TriedIsUsed(safe: string, used: set<string>, n: nat)
    requires forall j :: 1 <= j <= n ==> Taken(safe, used, j)
    ensures n <= |used|
  {
    TriedWithin(safe, used, n);
    TriedCount(safe, n);
    SubsetBound(Tried(safe, n), used);
  }

  lemma {:induction false} TriedWithin(safe: string, used: set<string>, n: nat)
    requires forall j :: 1 <= j <= n ==> Taken(safe, used, j)
    ensures Tried(safe, n) <= used
  {
    if n > 0 {
      assert Taken(safe, used, n);
      TriedWithin(safe, used, n - 1);
    }
  }

  /**
   `uniqueFileName`: the loop ends because each tried name takes another element of `used`; the answer is the first
   candidate that no used name equals in lower case, and it is recorded.
   */
  method UniqueFileName(fold: Fold, name: string, used: set<string>) returns (candidate: string, recorded: set<string>)
    ensures var safe := Sanitize(fold, name);
            exists k: nat :: FirstFree(safe, used, k) && candidate == Candidate(safe, k) && k <= |used| + 1
    ensures Lower(candidate) !in used && recorded == used + {Lower(candidate)}
    ensures SafeName(candidate)
  {
    var safe := Sanitize(fold, name);
    var dot := LastDot(safe);
    var stem := if dot.Some? && dot.value > 0 then safe[..dot.value] else safe;
    var extension := if dot.Some? && dot.value > 0 then safe[dot.value..] else "";
    assert stem == safe[..DotAt(safe)] && extension == safe[DotAt(safe)..];
    candidate := safe;
    var suffix: nat := 2;
    while Lower(candidate) in used
      invariant suffix >= 2 && candidate == Candidate(safe, suffix - 1)
      invariant forall j :: 1 <= j < suffix - 1 ==> Taken(safe, used, j)
      invariant suffix - 2 <= |used|
      decreases |used| + 2 - suffix
    {
      assert Taken(safe, used, suffix - 1);
      TriedIsUsed(safe, used, suffix - 1);
      candidate := stem + "-" + Decimal(suffix) + extension;
      suffix := suffix + 1;
    }
    assert FirstFree(safe, used, suffix - 1);
    CandidateSafe(safe, suffix - 1);
    recorded := used + {Lower(candidate)};
  }

  lemma CandidateSafe(safe: string, k: nat)
    requires SafeName(safe) && k >= 1
    ensures SafeName(Candidate(safe, k))
  {
    if k >= 2 {
      var c := Candidate(safe, k);
      assert '-' in c;
      forall x | x in c ensures SafeChar(x) {}
    }
  }
}
