/** The defect classes a review names: `finding_classes` of autogate.py, as scanners for its two patterns. */
module FindingClasses {
  import opened PyText

  const SEVERITIES := ["critical", "high", "medium", "low"]
  const EXTENSIONS := ["py", "ts", "tsx", "yml", "yaml", "sql", "sh"]
  const REACH := 200

  // ---- the file a finding names -------------------------------------------------------------

  /** `[\w./-]` */
  predicate InPath(c: char) {
    IsWordChar(c) || c == '.' || c == '/' || c == '-'
  }

  function PathRun(s: string, i: nat): (e: nat)
    requires i <= |s|
    ensures i <= e <= |s| && (forall k | i <= k < e :: InPath(s[k])) && (e < |s| ==> !InPath(s[e]))
    decreases |s| - i
  {
    if i < |s| && InPath(s[i]) then PathRun(s, i + 1) else i
  }

  /** The first of the alternatives that stands at `j`; nothing follows it in the pattern, so none longer is
      tried. */
  function FirstOf(words: seq<string>, s: string, j: nat): (r: Option<string>)
    ensures r.Some? ==> r.value in words && At(s, j, r.value)
  {
    if words == [] then None else if At(s, j, words[0]) then Some(words[0]) else FirstOf(words[1..], s, j)
  }

  /** The end of the match that starts at `i`, whose dot is the last possible one before `d`. */
  function LastDot(s: string, i: nat, d: nat): (r: Option<nat>)
    requires i < d <= |s|
    ensures r.Some? ==> i < r.value <= |s|
  {
    if d == i + 1 then None
    else if s[d - 1] == '.' && FirstOf(EXTENSIONS, s, d).Some? then Some(d + |FirstOf(EXTENSIONS, s, d).value|)
    else LastDot(s, i, d - 1)
  }

  /** `[\w./-]+\.(?:py|ts|tsx|yml|yaml|sql|sh)` matched at `i`: its end. */
  function FileAt(s: string, i: nat): (r: Option<nat>)
    requires i <= |s|
    ensures r.Some? ==> i < r.value <= |s|
  {
    if PathRun(s, i) == i then None else LastDot(s, i, PathRun(s, i))
  }

  /** The first file named at or after `i`. */
  function FirstFile(s: string, i: nat): Option<string>
    requires i <= |s|
    decreases |s| - i
  {
    if FileAt(s, i).Some? then Some(s[i..FileAt(s, i).value])
    else if i == |s| then None
    else FirstFile(s, i + 1)
  }

  // ---- the findings -------------------------------------------------------------------------

  function Severity(text: string, i: nat): Option<string> {
    if At(text, i, "[") then
      match FirstOf(SEVERITIES, Lower(text), i + 1)
      case None => None
      case Some(w) => if At(text, i + 1 + |w|, "]") then Some(w) else None
    else None
  }

  /** The end of `[^\n]{0,n}` from `i`. */
  function LineReach(text: string, i: nat, n: nat): (e: nat)
    requires i <= |text|
    ensures i <= e <= |text|
    decreases n
  {
    if n == 0 || i == |text| || text[i] == '\n' then i else LineReach(text, i + 1, n - 1)
  }

  function ClassOf(severity: string, seg: string): string {
    severity + ":" +
    match FirstFile(seg, 0)
    case Some(f) => f
    case None => Lower(Strip(seg[..if |seg| < 40 then |seg| else 40]))
  }

  lemma SeverityEnds(text: string, i: nat)
    ensures var w := Severity(text, i); w.Some? ==> i + |w.value| + 2 <= |text|
  {
  }

  /** The classes found from `i` on, left to right, no finding inside another's reach. */
  function ClassesFrom(text: string, i: nat): set<string>
    requires i <= |text|
    decreases |text| - i
  {
    if i == |text| then {}
    else
      SeverityEnds(text, i);
      match Severity(text, i)
      case None => ClassesFrom(text, i + 1)
      case Some(w) =>
        var e := LineReach(text, i + |w| + 2, REACH);
        {ClassOf(w, text[i..e])} + ClassesFrom(text, e)
  }

  function Classes(text: string): set<string> {
    ClassesFrom(text, 0)
  }

  method ClassesByLoop(text: string) returns (out: set<string>)
    ensures out == Classes(text)
  {
    hide Severity, ClassOf, LineReach;
    out := {};
    var i := 0;
    while i < |text|
      invariant 0 <= i <= |text| && out + ClassesFrom(text, i) == Classes(text)
    {
      SeverityEnds(text, i);
      var w := Severity(text, i);
      if w.None? {
        i := i + 1;
      } else {
        var e := LineReach(text, i + |w.value| + 2, REACH);
        out := out + {ClassOf(w.value, text[i..e])};
        i := e;
      }
    }
  }

  // ---- what a class says --------------------------------------------------------------------

  predicate PathText(f: string) {
    forall k | 0 <= k < |f| :: InPath(f[k])
  }

  /** A dot of `s` with something before it and one of the extensions behind it. */
  predicate DottedAt(s: string, d: nat) {
    0 < d < |s| && s[d] == '.' && FirstOf(EXTENSIONS, s, d + 1).Some?
  }

  /** A path in which the pattern finds a file: it has such a dot. */
  predicate Legible(f: string) {
    PathText(f) && exists d: nat | d < |f| :: DottedAt(f, d)
  }

  /** The extensions that are read whole; `tsx` is not, because `ts` is tried first. */
  const WHOLE := {"py", "ts", "yml", "yaml", "sql", "sh"}

  /** A path that names a file of one of these kinds: a stem, a dot and the extension. */
  predicate IsFile(f: string) {
    PathText(f) && exists d: nat | 0 < d < |f| :: f[d] == '.' && f[d + 1..] in WHOLE
  }

  /** What the pattern reads of a path. */
  function Read(f: string): string {
    if FileAt(f, 0).Some? then f[..FileAt(f, 0).value] else f
  }

  lemma {:induction false} NoDotNoMatch(s: string, d: nat)
    requires 0 < d <= |s| && forall j: nat | j < d :: !DottedAt(s, j)
    ensures LastDot(s, 0, d).None?
  {
    hide FirstOf;
    if d == 1 {
    } else {
      assert !DottedAt(s, d - 1);
      NoDotNoMatch(s, d - 1);
    }
  }

  lemma {:induction false} MatchAtLastDot(s: string, j: nat, d: nat)
    requires j < d <= |s| && DottedAt(s, j) && forall k: nat | j < k < d :: !DottedAt(s, k)
    ensures LastDot(s, 0, d) == Some(j + 1 + |FirstOf(EXTENSIONS, s, j + 1).value|)
  {
    hide FirstOf;
    if d == j + 1 {
    } else {
      assert !DottedAt(s, d - 1);
      MatchAtLastDot(s, j, d - 1);
    }
  }

  lemma WholeRun(f: string)
    requires PathText(f)
    ensures PathRun(f, 0) == |f|
  {
    hide InPath;
    RunStops(f, "", 0);
    assert f + "" == f;
  }

  lemma {:induction false} LastDotted(s: string, n: nat) returns (d: nat)
    requires n <= |s| && exists j: nat | j < n :: DottedAt(s, j)
    ensures d < n && DottedAt(s, d) && forall k: nat | d < k < n :: !DottedAt(s, k)
  {
    hide DottedAt;
    if DottedAt(s, n - 1) {
      d := n - 1;
    } else {
      d := LastDotted(s, n - 1);
    }
  }

  /** In a path a file is found exactly if it is legible. */
  lemma LegibleExactly(f: string)
    requires PathText(f)
    ensures FileAt(f, 0).Some? <==> Legible(f)
  {
    hide InPath, FirstOf, LastDot, DottedAt;
    WholeRun(f);
    if f == "" {
      assert !Legible(f);
    } else if Legible(f) {
      var d := LastDotted(f, |f|);
      MatchAtLastDot(f, d, |f|);
    } else {
      NoDotNoMatch(f, |f|);
    }
  }

  function MatchEnd(f: string, d: nat): nat
    requires DottedAt(f, d)
  {
    d + 1 + |FirstOf(EXTENSIONS, f, d + 1).value|
  }

  /** What is found ends with the extension behind the last dot that has one. */
  lemma FoundAt(f: string, d: nat)
    requires PathText(f) && DottedAt(f, d) && forall k: nat | d < k < |f| :: !DottedAt(f, k)
    ensures FileAt(f, 0) == Some(MatchEnd(f, d))
  {
    hide InPath, FirstOf, LastDot;
    WholeRun(f);
    MatchAtLastDot(f, d, |f|);
  }

  lemma DotWithin(s: string, d: nat)
    requires DottedAt(s, d)
    ensures d < |s|
  {
  }

  /** The alternatives in turn. */
  lemma FirstExtension(s: string, j: nat)
    ensures FirstOf(EXTENSIONS, s, j) ==
      if At(s, j, "py") then Some("py") else if At(s, j, "ts") then Some("ts") else if At(s, j, "tsx") then Some("tsx")
      else if At(s, j, "yml") then Some("yml") else if At(s, j, "yaml") then Some("yaml")
      else if At(s, j, "sql") then Some("sql") else if At(s, j, "sh") then Some("sh") else None
    ensures At(s, j, "tsx") ==> At(s, j, "ts")
  {
    hide At;
    var e := EXTENSIONS;
    assert e[1..][1..] == e[2..] && e[2..][1..] == e[3..] && e[3..][1..] == e[4..] && e[4..][1..] == e[5..];
    assert e[5..][1..] == e[6..] && e[6..][1..] == [];
    assert FirstOf(e, s, j) == if At(s, j, "py") then Some("py") else FirstOf(e[1..], s, j);
    assert FirstOf(e[1..], s, j) == if At(s, j, "ts") then Some("ts") else FirstOf(e[2..], s, j);
    assert FirstOf(e[2..], s, j) == if At(s, j, "tsx") then Some("tsx") else FirstOf(e[3..], s, j);
    assert FirstOf(e[3..], s, j) == if At(s, j, "yml") then Some("yml") else FirstOf(e[4..], s, j);
    assert FirstOf(e[4..], s, j) == if At(s, j, "yaml") then Some("yaml") else FirstOf(e[5..], s, j);
    assert FirstOf(e[5..], s, j) == if At(s, j, "sql") then Some("sql") else FirstOf(e[6..], s, j);
    TsxHoldsTs(s, j);
  }

  lemma TsxHoldsTs(s: string, j: nat)
    ensures At(s, j, "tsx") ==> At(s, j, "ts")
  {
    if At(s, j, "tsx") {
      assert s[j..j + 2] == s[j..j + 3][..2];
    }
  }

  /** An extension at the end of a text is the one found there, whole, exactly if it is read whole. */
  lemma ExtensionAtEnd(s: string, j: nat)
    requires j <= |s|
    ensures (FirstOf(EXTENSIONS, s, j).Some? && j + |FirstOf(EXTENSIONS, s, j).value| == |s|) <==> s[j..] in WHOLE
  {
    hide FirstOf;
    FirstExtension(s, j);
    var r, e := FirstOf(EXTENSIONS, s, j), s[j..];
    if r.Some? && j + |r.value| == |s| {
      assert e == r.value;
    }
    if e in WHOLE {
      WholeIsFirst(s, j, e);
    }
  }

  lemma WholeIsFirst(s: string, j: nat, e: string)
    requires j <= |s| && e == s[j..] && e in WHOLE
    ensures FirstOf(EXTENSIONS, s, j) == Some(e)
  {
    hide FirstOf;
    FirstExtension(s, j);
    assert At(s, j, e);
    assert forall k | 0 <= k < |e| :: s[j + k] == e[k];
    if e[0] != 'p' { NotAt(s, j, "py", 0); }
    if e[0] != 't' { NotAt(s, j, "ts", 0); }
    if e[0] != 'y' { NotAt(s, j, "yml", 0); NotAt(s, j, "yaml", 0); }
    if e == "yaml" { NotAt(s, j, "yml", 1); }
    if e == "sh" { NotAt(s, j, "sql", 1); }
  }

  lemma FoundAtLastDot(f: string, d: nat)
    requires PathText(f) && DottedAt(f, d) && forall k: nat | d < k < |f| :: !DottedAt(f, k)
    ensures FileAt(f, 0) == Some(|f|) <==> f[d + 1..] in WHOLE
  {
    hide InPath, FirstOf, FileAt, WHOLE, EXTENSIONS, PathText;
    FoundAt(f, d);
    ExtensionAtEnd(f, d + 1);
  }

  /** The dot of a file is the last one behind which an extension stands. */
  lemma FileDot(f: string) returns (d: nat)
    requires IsFile(f)
    ensures DottedAt(f, d) && f[d + 1..] in WHOLE
  {
    hide FirstOf, WHOLE, EXTENSIONS;
    d :| 0 < d < |f| && f[d] == '.' && f[d + 1..] in WHOLE;
    ExtensionAtEnd(f, d + 1);
  }

  /** A path is read as itself if and only if it is a file of one of the kinds that are read whole. */
  lemma ReadWholeExactly(f: string)
    ensures PathText(f) && FileAt(f, 0) == Some(|f|) <==> IsFile(f)
  {
    hide FirstOf, FileAt, WHOLE, EXTENSIONS, PathText, DottedAt;
    if IsFile(f) {
      var d := FileDot(f);
      DotWithin(f, d);
      NoDotBehind(f, d);
      FoundAtLastDot(f, d);
    } else if PathText(f) {
      LegibleExactly(f);
      if Legible(f) {
        var d := LastDotted(f, |f|);
        FoundAtLastDot(f, d);
        if f[d + 1..] in WHOLE {
          DotIsFile(f, d);
        }
      }
    }
  }

  lemma DotIsFile(f: string, d: nat)
    requires PathText(f) && DottedAt(f, d) && f[d + 1..] in WHOLE
    ensures IsFile(f)
  {
  }

  lemma NoDotBehind(f: string, d: nat)
    requires d < |f| && f[d + 1..] in WHOLE
    ensures forall k: nat | d < k < |f| :: !DottedAt(f, k)
  {
    var e := f[d + 1..];
    assert forall k | d < k < |f| :: f[k] == e[k - d - 1];
    assert forall k | 0 <= k < |e| :: e[k] != '.';
  }

  lemma {:induction false} RunWithin(s: string, t: string, i: nat)
    requires i <= |s| && s != "" && !InPath(s[|s| - 1])
    ensures PathRun(s + t, i) == if i < |s| then PathRun(s, i) else |s| + PathRun(t, 0)
    decreases |s| - i
  {
    hide InPath;
    if i < |s| {
      if InPath(s[i]) {
        RunWithin(s, t, i + 1);
      }
    } else {
      RunShifts(s, t, 0);
    }
  }

  lemma {:induction false} RunShifts(s: string, t: string, i: nat)
    requires i <= |t|
    ensures PathRun(s + t, |s| + i) == |s| + PathRun(t, i)
    decreases |t| - i
  {
    hide InPath;
    if i == |t| || !InPath(t[i]) {
    } else {
      RunShifts(s, t, i + 1);
    }
  }

  lemma AtShifts(s: string, t: string, j: nat, w: string)
    requires j <= |t|
    ensures At(s + t, |s| + j, w) <==> At(t, j, w)
  {
    if j + |w| <= |t| {
      assert (s + t)[|s| + j..|s| + j + |w|] == t[j..j + |w|];
    }
  }

  lemma {:induction false} FirstOfShifts(words: seq<string>, s: string, t: string, j: nat)
    requires j <= |t|
    ensures FirstOf(words, s + t, |s| + j) == FirstOf(words, t, j)
  {
    hide At;
    if words == [] {
    } else {
      AtShifts(s, t, j, words[0]);
      FirstOfShifts(words[1..], s, t, j);
    }
  }

  /** A word of path characters. */
  predicate PathWord(w: string) {
    w != "" && forall k | 0 <= k < |w| :: InPath(w[k])
  }

  lemma ExtensionsInPath()
    ensures forall w | w in EXTENSIONS :: PathWord(w)
  {
  }

  lemma AtBefore(s: string, t: string, j: nat, w: string)
    requires j <= |s| && t != "" && !InPath(t[0]) && PathWord(w)
    ensures At(s + t, j, w) <==> At(s, j, w)
  {
    hide InPath;
    var u := s + t;
    assert u[|s|] == t[0];
    if j + |w| <= |s| {
      assert u[j..j + |w|] == s[j..j + |w|];
    } else {
      NotAt(u, j, w, |s| - j);
    }
  }

  /** An extension inside a path ends inside it, so what follows the path does not matter. */
  lemma {:induction false} FirstOfBefore(words: seq<string>, s: string, t: string, j: nat)
    requires j <= |s| && t != "" && !InPath(t[0]) && forall w | w in words :: PathWord(w)
    ensures FirstOf(words, s + t, j) == FirstOf(words, s, j)
  {
    hide At, InPath, PathWord;
    if words == [] {
    } else {
      assert words[0] in words;
      AtBefore(s, t, j, words[0]);
      FirstOfBefore(words[1..], s, t, j);
    }
  }

  lemma {:induction false} LastDotShifts(s: string, t: string, i: nat, d: nat)
    requires i < d <= |t|
    ensures LastDot(s + t, |s| + i, |s| + d) == if LastDot(t, i, d).Some? then Some(|s| + LastDot(t, i, d).value)
      else None
  {
    hide EXTENSIONS, FirstOf;
    if d == i + 1 {
    } else {
      FirstOfShifts(EXTENSIONS, s, t, d);
      LastDotShifts(s, t, i, d - 1);
    }
  }

  lemma {:induction false} LastDotBefore(s: string, t: string, i: nat, d: nat)
    requires i < d <= |s| && t != "" && !InPath(t[0])
    ensures LastDot(s + t, i, d) == LastDot(s, i, d)
  {
    hide FirstOf, InPath, PathWord;
    if d == i + 1 {
    } else {
      ExtensionsInPath();
      hide EXTENSIONS;
      FirstOfBefore(EXTENSIONS, s, t, d);
      LastDotBefore(s, t, i, d - 1);
    }
  }

  predicate EndsPath(s: string) {
    s != "" && !InPath(s[|s| - 1])
  }

  predicate BreaksPath(t: string) {
    t == "" || !InPath(t[0])
  }

  lemma {:induction false} RunStops(f: string, t: string, i: nat)
    requires i <= |f| && (forall k | i <= k < |f| :: InPath(f[k])) && BreaksPath(t)
    ensures PathRun(f + t, i) == |f|
    decreases |f| - i
  {
    hide InPath;
    if i == |f| {
    } else {
      RunStops(f, t, i + 1);
    }
  }

  /** Behind text that ends no path and before text that continues none, what is read of a path is found where it
      stands. */
  lemma FileHere(pre: string, f: string, post: string)
    requires EndsPath(pre) && Legible(f) && BreaksPath(post)
    ensures FileAt(f, 0).Some? && FileAt(pre + (f + post), |pre|) == Some(|pre| + FileAt(f, 0).value)
  {
    hide InPath, LastDot, PathRun, DottedAt;
    LegibleExactly(f);
    RunWithin(pre, f + post, |pre|);
    RunStops(f, post, 0);
    WholeRun(f);
    LastDotShifts(pre, f + post, 0, |f|);
    if post != "" {
      LastDotBefore(f, post, 0, |f|);
    } else {
      assert f + post == f;
    }
  }

  /** Text that names no file still names none when more text follows it. */
  lemma NoFileBefore(pre: string, t: string, i: nat)
    requires EndsPath(pre) && i < |pre| && FileAt(pre, i).None?
    ensures FileAt(pre + t, i).None?
  {
    hide InPath, LastDot;
    RunWithin(pre, t, i);
    var e := PathRun(pre, i);
    if e > i {
      LastInPath(pre, i);
      var p, q := pre[..e], pre[e..];
      assert pre == p + q && pre + t == p + (q + t);
      LastDotBefore(p, q, i, e);
      LastDotBefore(p, q + t, i, e);
    }
  }

  lemma LastInPath(pre: string, i: nat)
    requires EndsPath(pre) && i < |pre|
    ensures PathRun(pre, i) < |pre| && !InPath(pre[PathRun(pre, i)])
  {
  }

  ghost predicate NamesNoFile(pre: string) {
    forall i | 0 <= i < |pre| :: FileAt(pre, i).None?
  }

  lemma {:induction false} FirstFileIs(pre: string, f: string, post: string, i: nat)
    requires EndsPath(pre) && NamesNoFile(pre) && Legible(f) && BreaksPath(post) && i <= |pre|
    ensures FirstFile(pre + (f + post), i) == Some(Read(f))
    decreases |pre| - i
  {
    hide FileAt, EndsPath, Legible, BreaksPath;
    if i == |pre| {
      FileHere(pre, f, post);
      var n := FileAt(f, 0).value;
      assert (pre + (f + post))[|pre|..|pre| + n] == f[..n];
    } else {
      NoFileBefore(pre, f + post, i);
      FirstFileIs(pre, f, post, i + 1);
    }
  }

  // ---- reviews made of findings -------------------------------------------------------------

  /** One finding as a reviewer writes it: a severity, some words, the file, more words. */
  datatype Finding = Finding(severity: string, before: string, file: string, after: string)

  function Lead(f: Finding): string {
    "[" + (f.severity + ("]" + f.before))
  }

  function LineOf(f: Finding): string {
    Lead(f) + (f.file + f.after)
  }

  ghost predicate WellWritten(f: Finding) {
    && f.severity in SEVERITIES && EndsPath(Lead(f)) && NamesNoFile(Lead(f)) && Legible(f.file) && BreaksPath(f.after)
    && '\n' !in LineOf(f) && |f.before + f.file + f.after| <= REACH
  }

  function Review(fs: seq<Finding>): string {
    if fs == [] then "" else LineOf(fs[0]) + ("\n" + Review(fs[1..]))
  }

  function Named(f: Finding): string {
    f.severity + ":" + Read(f.file)
  }

  lemma ClassOfFinding(f: Finding)
    requires WellWritten(f)
    ensures ClassOf(f.severity, LineOf(f)) == Named(f)
  {
    hide FirstFile, EndsPath, Legible, BreaksPath, NamesNoFile, Lead, Read;
    FirstFileIs(Lead(f), f.file, f.after, 0);
  }

  lemma SeverityShifts(s: string, t: string, i: nat)
    requires i <= |t|
    ensures Severity(s + t, |s| + i) == Severity(t, i)
  {
    hide At, Lower, FirstOf;
    AtShifts(s, t, i, "[");
    if At(t, i, "[") {
      OpenFits(t, i);
      LowerConcat(s, t);
      FirstOfShifts(SEVERITIES, Lower(s), Lower(t), i + 1);
      var w := FirstOf(SEVERITIES, Lower(t), i + 1);
      if w.Some? {
        WordFits(Lower(t), i + 1, w.value);
        AtShifts(s, t, i + 1 + |w.value|, "]");
      }
    }
  }

  lemma OpenFits(t: string, i: nat)
    requires At(t, i, "[")
    ensures i + 1 <= |t|
  {
  }

  lemma WordFits(t: string, i: nat, w: string)
    requires At(t, i, w)
    ensures i + |w| <= |t|
  {
  }

  lemma {:induction false} ReachShifts(s: string, t: string, i: nat, n: nat)
    requires i <= |t|
    ensures LineReach(s + t, |s| + i, n) == |s| + LineReach(t, i, n)
    decreases n
  {
    if n == 0 || i == |t| || t[i] == '\n' {
    } else {
      ReachShifts(s, t, i + 1, n - 1);
    }
  }

  lemma {:induction false} ClassesShift(s: string, t: string, i: nat)
    requires i <= |t|
    ensures ClassesFrom(s + t, |s| + i) == ClassesFrom(t, i)
    decreases |t| - i
  {
    hide Severity, LineReach, ClassOf;
    if i == |t| {
    } else {
      SeverityEnds(t, i);
      SeverityEnds(s + t, |s| + i);
      SeverityShifts(s, t, i);
      var w := Severity(t, i);
      if w.Some? {
        ReachShifts(s, t, i + |w.value| + 2, REACH);
        var e := LineReach(t, i + |w.value| + 2, REACH);
        assert (s + t)[|s| + i..|s| + e] == t[i..e];
        ClassesShift(s, t, e);
      } else {
        ClassesShift(s, t, i + 1);
      }
    }
  }

  lemma {:induction false} ReachIs(line: string, rest: string, i: nat, n: nat)
    requires i <= |line| && |line| - i <= n && '\n' !in line
    ensures LineReach(line + ("\n" + rest), i, n) == |line|
    decreases n
  {
    var s := line + ("\n" + rest);
    if i < |line| {
      assert s[i] == line[i];
      ReachIs(line, rest, i + 1, n - 1);
    } else {
      assert s[|line|] == '\n';
    }
  }

  lemma FirstLetterDecides(s: string, j: nat, w: string)
    requires w in SEVERITIES && At(s, j, w)
    ensures FirstOf(SEVERITIES, s, j) == Some(w)
  {
    AtChars(s, j, w, 0);
    if w != "critical" { NotAt(s, j, "critical", 0); }
    if w != "high" { NotAt(s, j, "high", 0); }
    if w != "medium" { NotAt(s, j, "medium", 0); }
    assert FirstOf(SEVERITIES[1..], s, j) == if At(s, j, "high") then Some("high") else FirstOf(SEVERITIES[2..], s, j);
    assert FirstOf(SEVERITIES[2..], s, j) == if At(s, j, "medium") then Some("medium")
      else FirstOf(SEVERITIES[3..], s, j);
    assert FirstOf(SEVERITIES[3..], s, j) == if At(s, j, "low") then Some("low") else FirstOf(SEVERITIES[4..], s, j);
  }

  lemma LowerSeverity(w: string)
    requires w in SEVERITIES
    ensures Lower(w) == w && Lower("[") == "["
  {
  }

  lemma SeverityIs(w: string, rest: string)
    requires w in SEVERITIES
    ensures Severity("[" + (w + ("]" + rest)), 0) == Some(w)
  {
    hide At, Lower, FirstOf, SEVERITIES;
    var t := "[" + (w + ("]" + rest));
    AtFront("[", w + ("]" + rest));
    LowerSeverity(w);
    LowerConcat("[", w + ("]" + rest));
    LowerConcat(w, "]" + rest);
    AtFront(w, Lower("]" + rest));
    AtShifts("[", w + Lower("]" + rest), 0, w);
    FirstLetterDecides(Lower(t), 1, w);
    AtFront("]", rest);
    AtShifts("[" + w, "]" + rest, 0, "]");
    assert t == ("[" + w) + ("]" + rest);
  }

  lemma OneFinding(f: Finding, rest: string)
    requires WellWritten(f)
    ensures Classes(LineOf(f) + ("\n" + rest)) == {Named(f)} + Classes(rest)
  {
    hide Severity, ClassOf, LineReach, EndsPath, Legible, Read, BreaksPath, NamesNoFile, SEVERITIES;
    var line := LineOf(f);
    var t := line + ("\n" + rest);
    var more := f.before + (f.file + (f.after + ("\n" + rest)));
    assert t == "[" + (f.severity + ("]" + more));
    SeverityIs(f.severity, more);
    SeverityEnds(t, 0);
    assert |line| == |f.severity| + 2 + |f.before + f.file + f.after|;
    ReachIs(line, rest, |f.severity| + 2, REACH);
    assert t[0..|line|] == line;
    ClassOfFinding(f);
    NewlineAdds(line, rest);
  }

  lemma NewlineAdds(line: string, rest: string)
    ensures ClassesFrom(line + ("\n" + rest), |line|) == Classes(rest)
  {
    hide ClassesFrom;
    var t := "\n" + rest;
    ClassesShift(line, t, 0);
    NewlineIsNoFinding(rest);
    ClassesShift("\n", rest, 0);
  }

  lemma NewlineIsNoFinding(rest: string)
    ensures ClassesFrom("\n" + rest, 0) == ClassesFrom("\n" + rest, 1)
  {
    NotAt("\n" + rest, 0, "[", 0);
  }

  function AllNamed(fs: seq<Finding>): set<string> {
    set k | 0 <= k < |fs| :: Named(fs[k])
  }

  /** A review made of findings is reduced to exactly its pairs of severity and file, as the file is read. */
  lemma {:induction false} ClassesOfReview(fs: seq<Finding>)
    requires forall k | 0 <= k < |fs| :: WellWritten(fs[k])
    ensures Classes(Review(fs)) == AllNamed(fs)
  {
    hide ClassesFrom, WellWritten, LineOf, Named;
    if fs == [] {
      NothingFound();
    } else {
      ClassesOfReview(fs[1..]);
      OneFinding(fs[0], Review(fs[1..]));
      assert forall k | 1 <= k < |fs| :: fs[k] == fs[1..][k - 1];
      assert AllNamed(fs) == {Named(fs[0])} + AllNamed(fs[1..]);
    }
  }

  lemma NothingFound()
    ensures Classes("") == {}
  {
  }

  /** Wording does not matter: two reviews that give the same severities to the same files, in whatever words
      and order and however often, name the same classes; and a review repeats an earlier one exactly when
      they agree on the severity of some file. */
  lemma WordingDoesNotMatter(fs: seq<Finding>, gs: seq<Finding>)
    requires forall k | 0 <= k < |fs| :: WellWritten(fs[k])
    requires forall k | 0 <= k < |gs| :: WellWritten(gs[k])
    ensures AllNamed(fs) == AllNamed(gs) ==> Classes(Review(fs)) == Classes(Review(gs))
    ensures Classes(Review(fs)) * Classes(Review(gs)) != {}
       <==> exists j, k | 0 <= j < |fs| && 0 <= k < |gs| :: Named(fs[j]) == Named(gs[k])
  {
    hide Classes, Review, WellWritten, Named;
    ClassesOfReview(fs);
    ClassesOfReview(gs);
    var both := AllNamed(fs) * AllNamed(gs);
    if both != {} {
      var c :| c in both;
    }
    forall j, k | 0 <= j < |fs| && 0 <= k < |gs| && Named(fs[j]) == Named(gs[k])
      ensures both != {}
    {
      assert Named(fs[j]) in both;
    }
  }

  /** A quirk of the pattern: `ts` is tried before `tsx`, so a finding about a `.tsx` file is put down to the
      `.ts` file of the same name. */
  lemma TsxReadsAsTs(stem: string)
    requires stem != "" && PathText(stem)
    ensures Legible(stem + ".tsx") && !IsFile(stem + ".tsx") && IsFile(stem + ".ts")
      && Read(stem + ".tsx") == stem + ".ts"
  {
    hide FirstOf, FileAt, EXTENSIONS, Read;
    var s, n := stem + ".tsx", |stem|;
    TsxIsPath(stem);
    assert s[n + 1..] == "tsx";
    assert s[n + 1..n + 3] == "ts";
    TsIsFirst(s, n + 1);
    assert DottedAt(s, n);
    assert forall k | n < k < |s| :: s[k] == "tsx"[k - n - 1] != '.';
    FoundAt(s, n);
    assert s[..n + 3] == stem + ".ts";
    assert (stem + ".ts")[n + 1..] == "ts" && (stem + ".ts")[n] == '.';
    ReadWholeExactly(s);
    ReadOf(s);
  }

  lemma ReadOf(s: string)
    ensures FileAt(s, 0).Some? ==> Read(s) == s[..FileAt(s, 0).value]
  {
  }

  lemma TsxIsPath(stem: string)
    requires PathText(stem)
    ensures PathText(stem + ".tsx") && PathText(stem + ".ts")
  {
  }

  lemma TsIsFirst(s: string, j: nat)
    requires j + 2 <= |s| && s[j..j + 2] == "ts"
    ensures FirstOf(EXTENSIONS, s, j) == Some("ts")
  {
    FirstExtension(s, j);
    assert s[j] == s[j..j + 2][0];
    NotAt(s, j, "py", 0);
  }
}
