/** What a gate file means is what its gate recorded: `parse_gate_md` after `render_gate_md`. */
module GateRoundTrip {
  import opened PyText
  import opened GateReport
  import opened GateParse

  // ---- rows ---------------------------------------------------------------------------------

  /** The rows a reader should see: the last recorded result under each name, with the first line of its detail. */
  function RowsOf(cs: seq<Check>): map<string, Row> {
    if cs == [] then map[]
    else
      var c, before := cs[|cs| - 1], RowsOf(cs[..|cs| - 1]);
      if c.Rec? then before[c.name := Row(c.passed, Strip(FirstLine(c.detail)))] else before
  }

  /** A name as the gate's code spells them: one line, trimmed, without double stars. */
  predicate PlainName(name: string) {
    name != "" && Trimmed(name) && NoStars(name) && OneLine(name)
  }

  /** A recorded row with a plain name whose detail, if it goes on over further lines, imitates no row there; or
      another row that imitates none. */
  predicate Plain(c: Check) {
    if c.Rec? then PlainName(c.name) && QuietLines(MoreLines(c.detail)) else Quiet(c)
  }

  lemma {:induction false} QuietLinesAddNothing(g: Gate, lines: seq<string>)
    requires QuietLines(lines)
    ensures var r := TakeLines(g, lines);
      r.rows == g.rows && r.undeclared == g.undeclared && r.sha == g.sha && r.verdict == g.verdict
    ensures TakeLines(g, lines).disagree <==> g.disagree || Mentions(lines)
  {
    hide ReadRow, ReadSha, Contains;
    if lines == [] {
    } else {
      QuietLinesAddNothing(g, lines[..|lines| - 1]);
    }
  }

  const NOTHING := Gate("", map[], [], false, "")

  lemma {:induction false} ReadingOnlyAdds(g: Gate, lines: seq<string>)
    ensures g.rows != map[] ==> TakeLines(g, lines).rows != map[]
    ensures g.sha != "" ==> TakeLines(g, lines).sha != ""
  {
    if lines == [] {
    } else {
      ReadingOnlyAdds(g, lines[..|lines| - 1]);
      LineOnlyAdds(TakeLines(g, lines[..|lines| - 1]), lines[|lines| - 1]);
    }
  }

  lemma LineOnlyAdds(g: Gate, line: string)
    ensures var r := TakeLine(g, line);
      && (g.rows != map[] || ReadRow(line).Some? ==> r.rows != map[])
      && (g.sha != "" || ReadSha(line).Some? ==> r.sha != "")
  {
    hide ReadRow;
    if ReadRow(line).Some? {
      assert ReadRow(line).value.0 in TakeLine(g, line).rows;
    } else {
      assert TakeLine(g, line).rows == g.rows;
    }
  }

  /** Quiet is just what is needed: a reader takes nothing from lines if and only if every one of them is quiet. */
  lemma {:induction false} QuietExactly(lines: seq<string>)
    ensures QuietLines(lines) <==> TakeLines(NOTHING, lines).rows == map[] && TakeLines(NOTHING, lines).sha == ""
  {
    hide ReadRow, ReadSha, TakeLine;
    if lines == [] {
    } else {
      var n := |lines| - 1;
      var before, g := lines[..n], TakeLines(NOTHING, lines[..n]);
      QuietExactly(before);
      LineOnlyAdds(g, lines[n]);
      QuietSnoc(before, lines[n]);
      assert before + [lines[n]] == lines;
      if QuietLines(lines) {
        QuietLinesAddNothing(NOTHING, lines);
      }
    }
  }

  lemma QuietSnoc(lines: seq<string>, line: string)
    ensures QuietLines(lines + [line]) <==> QuietLines(lines) && ReadRow(line) == None && ReadSha(line) == None
  {
    hide ReadRow, ReadSha;
    var all := lines + [line];
    assert all[|lines|] == line;
    assert forall k | 0 <= k < |lines| :: all[k] == lines[k];
  }

  /** Some line says DISAGREE. */
  predicate Mentions(lines: seq<string>) {
    exists k | 0 <= k < |lines| :: Contains(lines[k], "DISAGREE")
  }

  function RowFront(c: Check): string
    requires c.Rec?
  {
    "- **" + c.name + "**: " + StatusWord(c.passed) + " \U{2014} "
  }

  lemma RowFrontIsOneLine(c: Check)
    requires c.Rec? && OneLine(c.name)
    ensures OneLine(RowFront(c))
  {
    var word := StatusWord(c.passed);
    assert OneLine("- **") && OneLine("**: ") && OneLine(" \U{2014} ");
    assert OneLine(word) by { match c.passed case Pass => case Fail => case NotRun => case Undeclared => }
    hide IsBreak, OneLine, StatusWord;
    OneLineConcat("- **", c.name);
    OneLineConcat("- **" + c.name, "**: ");
    OneLineConcat("- **" + c.name + "**: ", word);
    OneLineConcat("- **" + c.name + "**: " + word, " \U{2014} ");
  }

  /** A recorded row stands on one line with the first line of its detail; the others follow. */
  lemma RecordLines(c: Check)
    requires c.Rec? && OneLine(c.name)
    ensures TextLines(RowLine(c)) == [RowLine(Rec(c.name, c.passed, FirstLine(c.detail)))] + MoreLines(c.detail)
  {
    hide OneLine, TextLines, MoreLines, FirstLine, StatusWord;
    RowFrontIsOneLine(c);
    TextLinesOfFront(RowFront(c), c.detail);
  }

  lemma RecordTaken(g: Gate, c: Check)
    requires c.Rec? && PlainName(c.name)
    ensures var r := TakeLine(g, RowLine(c));
      && r.rows == g.rows[c.name := Row(c.passed, Strip(c.detail))]
      && r.undeclared == (if c.passed == Undeclared then g.undeclared + [c.name] else g.undeclared)
      && r.sha == g.sha && r.verdict == g.verdict && (r.disagree <==> g.disagree || Mentions([RowLine(c)]))
  {
    hide ReadRow, ReadSha, Contains, Strip, NoStars, OneLine, RowLine;
    RowReadsBack(c.name, c.passed, c.detail);
    StripOfTrimmed(c.name);
    RecordHasNoSha(c);
    OneLineTaken(g, RowLine(c));
  }

  /** One row's text adds exactly that row. */
  lemma RowAdds(g: Gate, c: Check)
    requires Plain(c)
    ensures var r := TakeLines(g, TextLines(RowLine(c)));
      && r.rows == (if c.Rec? then g.rows[c.name := Row(c.passed, Strip(FirstLine(c.detail)))] else g.rows)
      && r.undeclared == (if c.Rec? && c.passed == Undeclared then g.undeclared + [c.name] else g.undeclared)
      && r.sha == g.sha && r.verdict == g.verdict
      && (r.disagree <==> g.disagree || Mentions(TextLines(RowLine(c))))
  {
    hide Strip, NoStars, TextLines, MoreLines, FirstLine, OneLine, Mentions, TakeLine, TakeLines, RowLine, QuietLines;
    var lines := TextLines(RowLine(c));
    if c.Rec? {
      var first, more := RowLine(Rec(c.name, c.passed, FirstLine(c.detail))), MoreLines(c.detail);
      RecordLines(c);
      TakeLinesConcat(g, [first], more);
      OneLineTaken(g, first);
      RecordTaken(g, Rec(c.name, c.passed, FirstLine(c.detail)));
      QuietLinesAddNothing(TakeLine(g, first), more);
      MentionsConcat([first], more);
    } else {
      QuietLinesAddNothing(g, lines);
    }
  }

  lemma RecordHasNoSha(c: Check)
    requires c.Rec?
    ensures ReadSha(RowLine(c)) == None
  {
    hide ReadSha;
    var rest := "**" + c.name + "**: " + StatusWord(c.passed) + " \U{2014} " + c.detail;
    DashLineHasNoSha(rest);
    assert RowLine(c) == "- " + rest;
  }

  lemma RowTextEndsLine(cs: seq<Check>)
    ensures cs == [] || (RowText(cs) != "" && RowText(cs)[|RowText(cs)| - 1] == '\n')
  {
  }

  lemma SplitRowText(cs: seq<Check>)
    requires cs != []
    ensures SplitLines(RowText(cs)) == SplitLines(RowText(cs[..|cs| - 1])) + TextLines(RowLine(cs[|cs| - 1]))
  {
    hide SplitLines, RowLine;
    var before, last := RowText(cs[..|cs| - 1]), RowLine(cs[|cs| - 1]) + "\n";
    assert RowText(cs) == before + last;
    RowTextEndsLine(cs[..|cs| - 1]);
    if before == "" {
      assert before + last == last;
      SplitNothing();
    } else {
      SplitAtLineFeed(before, last);
    }
  }

  lemma SplitNothing()
    ensures SplitLines("") == []
  {
  }

  lemma {:induction false} RowsAdd(g: Gate, cs: seq<Check>)
    requires forall k | 0 <= k < |cs| :: Plain(cs[k])
    requires g.rows == map[] && g.undeclared == []
    ensures var r := TakeLines(g, SplitLines(RowText(cs)));
      && r.rows == RowsOf(cs) && r.undeclared == NamesOf(cs, Undeclared) && r.sha == g.sha && r.verdict == g.verdict
      && (r.disagree <==> g.disagree || Mentions(SplitLines(RowText(cs))))
  {
    hide Plain, RowLine, SplitLines, TakeLines, Mentions, Strip;
    if cs == [] {
      SplitNothing();
      NoLines(g);
    } else {
      var n := |cs| - 1;
      RowsAdd(g, cs[..n]);
      SplitRowText(cs);
      var a, b := SplitLines(RowText(cs[..n])), TextLines(RowLine(cs[n]));
      TakeLinesConcat(g, a, b);
      RowAdds(TakeLines(g, a), cs[n]);
      MentionsConcat(a, b);
    }
  }

  lemma NoLines(g: Gate)
    ensures TakeLines(g, []) == g && !Mentions([])
  {
  }

  lemma MentionsConcat(a: seq<string>, b: seq<string>)
    ensures Mentions(a + b) <==> Mentions(a) || Mentions(b)
  {
    hide Contains;
    var c := a + b;
    assert forall k | 0 <= k < |a| :: c[k] == a[k];
    assert forall k | 0 <= k < |b| :: c[|a| + k] == b[k];
    if Mentions(c) {
      var k :| 0 <= k < |c| && Contains(c[k], "DISAGREE");
      assert k < |a| || c[k] == b[k - |a|];
    }
  }

  // ---- the header ---------------------------------------------------------------------------

  predicate IsWord(s: string) {
    s != "" && forall k | 0 <= k < |s| :: !IsSpace(s[k])
  }

  predicate NoDash(s: string) {
    forall k | 0 <= k < |s| :: !IsDash(s[k])
  }

  lemma {:induction false} SkipWordOf(w: string, rest: string, i: nat)
    requires IsWord(w) && i <= |w| && rest != "" && IsSpace(rest[0])
    ensures SkipWord(w + rest, i) == |w|
    decreases |w| - i
  {
    hide IsSpace;
    assert (w + rest)[|w|] == rest[0];
    if i == |w| {
    } else {
      SkipWordOf(w, rest, i + 1);
    }
  }

  /** The word GATE is found behind its number sign, and `b` behind the word. */
  lemma GateWordOf(b: string, a: string)
    requires b != "" && !IsSpace(b[0]) && a == "GATE" + ([' '] + b)
    ensures LStrip([' '] + a) == a && At(a, 0, "GATE") && LStrip(a[4..]) == b && |a[4..]| == |b| + 1
  {
    hide LStrip, IsSpace, At;
    AtFront("GATE", [' '] + b);
    assert a[4..] == [' '] + b;
    assert b == [b[0]] + b[1..];
    SolidFront(b[0], b[1..]);
    GIsSolid();
    assert a == [a[0]] + a[1..];
    SolidFront(a[0], a[1..]);
  }

  lemma PastGateOf(b: string)
    requires b != "" && !IsSpace(b[0])
    ensures PastGate("# GATE " + b) == Some(b)
  {
    hide LStrip, IsSpace, At;
    var a := "GATE" + ([' '] + b);
    GateWordOf(b, a);
    AtFront("#", [' '] + a);
    GateFront(b, a);
    assert ("#" + ([' '] + a))[1..] == [' '] + a;
  }

  lemma GateFront(b: string, a: string)
    requires a == "GATE" + ([' '] + b)
    ensures "# GATE " + b == "#" + ([' '] + a)
  {
  }

  lemma PastItemOf(item: string, c: string)
    requires IsWord(item) && c != "" && !IsSpace(c[0])
    ensures PastItem(item + ([' '] + c)) == Some(c)
  {
    hide LStrip, IsSpace;
    GIsSolid();
    SkipWordOf(item, [' '] + c, 0);
    assert (item + ([' '] + c))[|item|..] == [' '] + c;
    assert c == [c[0]] + c[1..];
    SolidFront(c[0], c[1..]);
  }

  lemma VerdictAfterOf(r: string)
    requires r != "" && !IsSpace(r[0])
    ensures VerdictAfter(['\U{2014}'] + ([' '] + r)) == Strip(CutVerdict(r, 1))
  {
    hide LStrip, IsSpace, Strip, CutVerdict;
    GIsSolid();
    DropDashesOf([' '] + r);
    assert r == [r[0]] + r[1..];
    SolidFront(r[0], r[1..]);
  }

  /** The front of the header line is read past, up to the verdict. */
  lemma VerdictStartsAfterDash(item: string, r: string)
    requires IsWord(item) && r != "" && !IsSpace(r[0])
    ensures ReadVerdict("# GATE " + item + " \U{2014} " + r) == Strip(CutVerdict(r, 1))
  {
    hide Strip, CutVerdict, IsSpace, PastGate, PastItem, VerdictAfter;
    var c := ['\U{2014}'] + ([' '] + r);
    var b := item + ([' '] + c);
    assert "# GATE " + item + " \U{2014} " + r == "# GATE " + b;
    ColonIsSolid();
    PastGateOf(b);
    PastItemOf(item, c);
    VerdictAfterOf(r);
  }

  lemma GIsSolid()
    ensures !IsSpace('G') && IsSpace(' ')
    ensures !IsDash(' ')
  {
  }

  lemma {:induction false} LStripKeepsSolid(s: string, k: nat)
    requires k < |s| && !IsSpace(s[k])
    ensures |s| - k <= |LStrip(s)|
  {
    hide IsSpace;
    if k == 0 || !IsSpace(s[0]) {
    } else {
      LStripKeepsSolid(s[1..], k - 1);
    }
  }

  lemma {:induction false} RStripKeepsSolid(s: string, k: nat)
    requires k < |s| && !IsSpace(s[k])
    ensures k < |RStrip(s)|
  {
  }

  /** The first place where the cut may fall, at the end of text without dashes, is not before that end. */
  lemma NoCutInside(r: string, e: nat, n: nat)
    requires e < n <= |r| && !IsSpace(r[n - 1]) && forall k | 0 <= k < n :: !IsDash(r[k])
    ensures var t := LStrip(r[e..]); t != "" && !IsDash(t[0])
  {
    hide IsSpace, LStrip, IsDash;
    var u := r[e..];
    assert u[n - 1 - e] == r[n - 1];
    LStripKeepsSolid(u, n - 1 - e);
    var m := |u| - |LStrip(u)|;
    assert LStrip(u)[0] == u[m] == r[e + m];
  }

  /** The cut never falls inside text without dashes that ends solid. */
  lemma {:induction false} CutKeepsFront(r: string, e: nat, n: nat)
    requires e <= n <= |r| && (n > 0 ==> !IsSpace(r[n - 1])) && forall k | 0 <= k < n :: !IsDash(r[k])
    ensures n <= |CutVerdict(r, e)|
    decreases n - e
  {
    hide IsSpace, IsDash, LStrip;
    if e == n {
    } else {
      NoCutInside(r, e, n);
      CutKeepsFront(r, e + 1, n);
    }
  }

  /** It falls at the end of such text when a dash follows, with or without blanks before it. */
  lemma {:induction false} CutFallsAt(r: string, e: nat, n: nat)
    requires 0 < n && e <= n < |r| && !IsSpace(r[n - 1]) && forall k | 0 <= k < n :: !IsDash(r[k])
    requires LStrip(r[n..]) != "" && IsDash(LStrip(r[n..])[0])
    ensures CutVerdict(r, e) == r[..n]
    decreases n - e
  {
    hide IsSpace, IsDash, LStrip;
    if e == n {
    } else {
      NoCutInside(r, e, n);
      CutFallsAt(r, e + 1, n);
    }
  }

  lemma StripKeepsFront(r: string, n: nat)
    requires 0 < n <= |r| && !IsSpace(r[0]) && !IsSpace(r[n - 1])
    ensures n <= |Strip(r)| && Strip(r)[..n] == r[..n]
  {
    hide IsSpace, RStrip;
    assert LStrip(r) == r;
    RStripKeepsSolid(r, n - 1);
  }

  function FirstDash(s: string, i: nat): (p: nat)
    requires i <= |s|
    ensures i <= p <= |s| && (p < |s| ==> IsDash(s[p])) && forall k | i <= k < p :: !IsDash(s[k])
    decreases |s| - i
  {
    if i < |s| && !IsDash(s[i]) then FirstDash(s, i + 1) else i
  }

  /** A text up to its first dash, and without the blanks before it. */
  function UpToDash(v: string): string {
    RStrip(v[..FirstDash(v, 0)])
  }

  /** A text that opens like a verdict: not blank, and not a dash. */
  predicate OpensSolid(v: string) {
    v != "" && !IsSpace(v[0]) && !IsDash(v[0])
  }

  lemma {:induction false} BlanksSkipped(s: string, k: nat)
    requires k < |s| && !IsSpace(s[k]) && forall i | 0 <= i < k :: IsSpace(s[i])
    ensures LStrip(s) == s[k..]
  {
    hide IsSpace;
    if k == 0 {
    } else {
      BlanksSkipped(s[1..], k - 1);
    }
  }

  lemma UpToDashShape(v: string)
    requires OpensSolid(v)
    ensures var n := |UpToDash(v)|; 0 < n <= FirstDash(v, 0) && UpToDash(v) == v[..n] && !IsSpace(v[n - 1])
    ensures forall k | |UpToDash(v)| <= k < FirstDash(v, 0) :: IsSpace(v[k])
  {
    hide IsSpace, IsDash;
    var p := FirstDash(v, 0);
    assert 0 < p;
    RStripKeepsSolid(v[..p], 0);
  }

  lemma DashIsSolid(c: char)
    requires IsDash(c)
    ensures !IsSpace(c)
  {
  }

  lemma BlanksThenDash(r: string, n: nat, q: nat)
    requires n <= q < |r| && IsDash(r[q]) && forall k | n <= k < q :: IsSpace(r[k])
    ensures LStrip(r[n..]) != "" && IsDash(LStrip(r[n..])[0])
  {
    hide IsSpace, IsDash, LStrip;
    DashIsSolid(r[q]);
    var u := r[n..];
    assert u[q - n] == r[q] && forall i | 0 <= i < q - n :: u[i] == r[n + i];
    BlanksSkipped(u, q - n);
  }

  /** What follows the part of a verdict before its first dash, on the header line, opens with a dash. */
  lemma DashFollows(v: string, rest: string)
    requires OpensSolid(v)
    ensures var r, n := v + (" \U{2014} " + rest), |UpToDash(v)|;
      n < |r| && LStrip(r[n..]) != "" && IsDash(LStrip(r[n..])[0])
  {
    hide IsSpace, IsDash, UpToDash, LStrip, FirstDash;
    UpToDashShape(v);
    var p, r := FirstDash(v, 0), v + (" \U{2014} " + rest);
    GIsSolid();
    EmDash();
    assert r[|v|] == ' ' && r[|v| + 1] == '\U{2014}';
    assert forall k | 0 <= k < |v| :: r[k] == v[k];
    BlanksThenDash(r, |UpToDash(v)|, if p < |v| then p else |v| + 1);
  }

  lemma EmDash()
    ensures IsDash('\U{2014}')
  {
  }

  /** Of any verdict the header line gives back the part before its first dash. */
  lemma VerdictReadUpToDash(h: Header)
    requires IsWord(h.item) && OpensSolid(h.verdict)
    ensures ReadVerdict(HeadLine(h)) == UpToDash(h.verdict)
  {
    hide ReadVerdict, CutVerdict, Strip, IsSpace, IsDash, UpToDash, FirstDash, LStrip;
    var v, n := h.verdict, |UpToDash(h.verdict)|;
    var r := v + (" \U{2014} " + h.when);
    assert HeadLine(h) == "# GATE " + h.item + " \U{2014} " + r;
    assert r[0] == v[0];
    VerdictStartsAfterDash(h.item, r);
    UpToDashShape(v);
    DashFollows(v, h.when);
    assert forall k | 0 <= k < n :: r[k] == v[k];
    CutFallsAt(r, 1, n);
    assert r[..n] == v[..n] == UpToDash(v);
    StripOfTrimmed(UpToDash(v));
  }

  /** The gate's own verdicts start with a letter and end in a letter or a parenthesis. */
  lemma VerdictShape(cs: seq<Check>)
    ensures var v := OutcomeOf(cs).verdict; v != "" && Trimmed(v) && !IsDash(v[0])
  {
  }

  /** The gate's verdict reads back up to the first dash in it: whole if and only if no name it shows has one. */
  lemma VerdictReadsBackExactly(h: Header, cs: seq<Check>)
    requires IsWord(h.item) && h.verdict == OutcomeOf(cs).verdict
    ensures ReadVerdict(HeadLine(h)) == UpToDash(h.verdict)
    ensures UpToDash(h.verdict) == h.verdict <==> NoDash(h.verdict)
  {
    hide OutcomeOf, ReadVerdict, RStrip;
    VerdictShape(cs);
    VerdictReadUpToDash(h);
    UpToDashShape(h.verdict);
    var v, p := h.verdict, FirstDash(h.verdict, 0);
    if NoDash(v) {
      assert p == |v| && v[..p] == v;
      RStripOfTrimmed(v);
    } else {
      assert p < |v|;
    }
  }

  lemma RStripOfTrimmed(s: string)
    requires Trimmed(s)
    ensures RStrip(s) == s
  {
  }

  // ---- the three other header lines ---------------------------------------------------------

  /** A commit name as the gate writes it: 7 to 40 lower-case hexadecimal digits. */
  predicate IsSha(s: string) {
    7 <= |s| <= 40 && forall k | 0 <= k < |s| :: IsHex(s[k])
  }

  lemma {:induction false} HexRunOf(sha: string, rest: string)
    requires (forall k | 0 <= k < |sha| :: IsHex(sha[k])) && rest != "" && !IsHex(rest[0])
    ensures HexRun(sha + rest) == |sha|
  {
    if sha == "" {
      assert sha + rest == rest;
    } else {
      assert (sha + rest)[1..] == sha[1..] + rest;
      HexRunOf(sha[1..], rest);
    }
  }

  lemma HexIsSolid(c: char)
    requires IsHex(c)
    ensures !IsSpace(c)
  {
  }

  lemma LettersAreSolid()
    ensures !IsSpace('s') && !IsSpace('g') && IsSpace(' ') && !IsHex(' ')
  {
  }

  /** A line that opens with another character than a bullet is no row. */
  lemma NotABullet(c: char, s: string)
    requires !IsSpace(c) && c != '-' && c != '*'
    ensures ReadRow([c] + s) == None
  {
  }

  lemma NotASha(c: char, s: string)
    requires !IsSpace(c) && c != 's'
    ensures ReadSha([c] + s) == None
  {
    hide LStrip, HexRun;
    SolidFront(c, s);
    NotAt([c] + s, 0, "sha", 0);
  }

  lemma ShaReadsBack(sha: string, rest: string)
    requires IsSha(sha)
    ensures ReadSha("sha" + ([' '] + (sha + ([' '] + rest)))) == Some(sha)
  {
    hide LStrip, HexRun, IsHex, IsSpace, At;
    var b := sha + ([' '] + rest);
    var line := "sha" + ([' '] + b);
    LettersAreSolid();
    HexRunOf(sha, [' '] + rest);
    HexIsSolid(sha[0]);
    AtFront("sha", [' '] + b);
    assert line == ['s'] + line[1..];
    SolidFront('s', line[1..]);
    assert line[3..] == [' '] + b;
    assert b == [b[0]] + b[1..];
    SolidFront(b[0], b[1..]);
    assert b[..|sha|] == sha;
  }

  lemma HeadLineIsQuiet(h: Header)
    ensures ReadRow(HeadLine(h)) == None && ReadSha(HeadLine(h)) == None
  {
    hide ReadRow, ReadSha;
    var line := HeadLine(h);
    var rest := " GATE " + h.item + " \U{2014} " + h.verdict + " \U{2014} " + h.when;
    assert line == ['#'] + rest;
    ColonIsSolid();
    NotABullet('#', rest);
    NotASha('#', rest);
  }

  lemma ShaLineIs(h: Header)
    requires IsSha(h.sha)
    ensures ReadRow(ShaLine(h)) == None && ReadSha(ShaLine(h)) == Some(h.sha)
  {
    hide ReadRow, ReadSha;
    var rest := " lane " + h.lane + "  worktree " + h.worktree;
    assert ShaLine(h) == "sha" + ([' '] + (h.sha + ([' '] + rest)));
    ShaReadsBack(h.sha, rest);
    LettersAreSolid();
    assert ShaLine(h) == ['s'] + ShaLine(h)[1..];
    NotABullet('s', ShaLine(h)[1..]);
  }

  lemma CodeLineIsQuiet(stamp: string)
    ensures ReadRow("gate code " + stamp) == None && ReadSha("gate code " + stamp) == None
    ensures ReadRow("") == None && ReadSha("") == None
  {
    LettersAreSolid();
    assert "gate code " + stamp == ['g'] + ("ate code " + stamp);
    NotABullet('g', "ate code " + stamp);
    NotASha('g', "ate code " + stamp);
  }

  // ---- the whole file -----------------------------------------------------------------------

  /** A header as the gate fills it in for these checks. */
  ghost predicate Heads(h: Header, cs: seq<Check>) {
    && IsWord(h.item) && IsSha(h.sha) && h.verdict == OutcomeOf(cs).verdict
    && OneLine(HeadLine(h)) && OneLine(ShaLine(h)) && OneLine("gate code " + h.stamp)
  }

  function HeaderLines(h: Header): seq<string> {
    [HeadLine(h), ShaLine(h), "gate code " + h.stamp, ""]
  }

  lemma SplitFirst(line: string, rest: string)
    requires OneLine(line)
    ensures SplitLines(line + "\n" + rest) == [line] + SplitLines(rest)
  {
    hide SplitLines, OneLine;
    SplitOneLine(line);
    SplitAtLineFeed(line + "\n", rest);
  }

  lemma SplitRender(h: Header, cs: seq<Check>)
    requires Heads(h, cs)
    ensures SplitLines(Render(h, cs)) == HeaderLines(h) + SplitLines(RowText(cs))
  {
    hide SplitLines, HeadLine, ShaLine, RowText, OutcomeOf, OneLine, IsWord, IsSha;
    var r3 := "" + "\n" + RowText(cs);
    var r2 := ("gate code " + h.stamp) + "\n" + r3;
    var r1 := ShaLine(h) + "\n" + r2;
    assert Render(h, cs) == HeadLine(h) + "\n" + r1;
    SplitFirst(HeadLine(h), r1);
    SplitFirst(ShaLine(h), r2);
    SplitFirst("gate code " + h.stamp, r3);
    assert OneLine("") by { NothingBreaks(); }
    SplitFirst("", RowText(cs));
  }

  lemma NothingBreaks()
    ensures OneLine("")
  {
  }

  /** The header gives the sha and no row. */
  lemma HeaderSays(g: Gate, h: Header)
    requires IsSha(h.sha) && g.rows == map[] && g.undeclared == []
    ensures var r := TakeLines(g, HeaderLines(h));
      && r.rows == map[] && r.undeclared == [] && r.sha == h.sha && r.verdict == g.verdict
      && (r.disagree <==> g.disagree || Mentions(HeaderLines(h)))
  {
    hide ReadRow, ReadSha, HeadLine, ShaLine, Contains, IsSha, Mentions;
    HeadLineIsQuiet(h);
    ShaLineIs(h);
    CodeLineIsQuiet(h.stamp);
    var code := "gate code " + h.stamp;
    var l := HeaderLines(h);
    assert l == ([HeadLine(h)] + [ShaLine(h)]) + [code, ""];
    TakeLinesConcat(g, [HeadLine(h)] + [ShaLine(h)], [code, ""]);
    TakeLinesConcat(g, [HeadLine(h)], [ShaLine(h)]);
    MentionsConcat([HeadLine(h)] + [ShaLine(h)], [code, ""]);
    MentionsConcat([HeadLine(h)], [ShaLine(h)]);
    QuietLinesAddNothing(g, [HeadLine(h)]);
    var g1 := TakeLines(g, [HeadLine(h)]);
    OneLineTaken(g1, ShaLine(h));
    var g2 := TakeLines(g1, [ShaLine(h)]);
    QuietLinesAddNothing(g2, [code, ""]);
  }

  lemma OneLineTaken(g: Gate, line: string)
    ensures TakeLines(g, [line]) == TakeLine(g, line)
    ensures Mentions([line]) <==> Contains(line, "DISAGREE")
  {
  }

  /** What a reader takes from one row: the row that was recorded, and then whatever the further lines of its
      detail say; of an unrecorded row, whatever its lines say. */
  function HearRow(g: Gate, c: Check): Gate {
    match c
    case Rec(name, passed, detail) =>
      TakeLines(g.(rows := g.rows[name := Row(passed, Strip(FirstLine(detail)))],
                   undeclared := if passed == Undeclared then g.undeclared + [name] else g.undeclared,
                   disagree := g.disagree || Mentions([RowLine(Rec(name, passed, FirstLine(detail)))])),
                MoreLines(detail))
    case _ => TakeLines(g, TextLines(RowLine(c)))
  }

  function Heard(g: Gate, cs: seq<Check>): Gate {
    if cs == [] then g else HearRow(Heard(g, cs[..|cs| - 1]), cs[|cs| - 1])
  }

  lemma RowHeard(g: Gate, c: Check)
    requires c.Rec? ==> PlainName(c.name)
    ensures TakeLines(g, TextLines(RowLine(c))) == HearRow(g, c)
  {
    hide Strip, PlainName, TextLines, MoreLines, FirstLine, OneLine, Mentions, TakeLine, TakeLines, RowLine;
    if c.Rec? {
      var first := Rec(c.name, c.passed, FirstLine(c.detail));
      PlainIsOneLine(c.name);
      RecordLines(c);
      TakeLinesConcat(g, [RowLine(first)], MoreLines(c.detail));
      OneLineTaken(g, RowLine(first));
      RecordTaken(g, first);
    }
  }

  lemma PlainIsOneLine(name: string)
    requires PlainName(name)
    ensures OneLine(name)
  {
  }

  lemma {:induction false} RowsHeard(g: Gate, cs: seq<Check>)
    requires forall k | 0 <= k < |cs| && cs[k].Rec? :: PlainName(cs[k].name)
    ensures TakeLines(g, SplitLines(RowText(cs))) == Heard(g, cs)
  {
    hide HearRow, RowLine, SplitLines, TakeLines, PlainName;
    if cs == [] {
      SplitNothing();
      NoLines(g);
    } else {
      var n := |cs| - 1;
      RowsHeard(g, cs[..n]);
      SplitRowText(cs);
      TakeLinesConcat(g, SplitLines(RowText(cs[..n])), TextLines(RowLine(cs[n])));
      RowHeard(Heard(g, cs[..n]), cs[n]);
    }
  }

  /** What any gate file says to its reader, whatever its details and advisory texts hold: every recorded row in
      turn with the first line of its detail, between them only what other lines say for themselves, over the
      sha and the verdict of the header, the latter up to its first dash. */
  lemma FileSays(h: Header, cs: seq<Check>)
    requires Heads(h, cs) && forall k | 0 <= k < |cs| && cs[k].Rec? :: PlainName(cs[k].name)
    ensures Parse(Render(h, cs)) == Heard(Gate(UpToDash(h.verdict), map[], [], Mentions(HeaderLines(h)), h.sha), cs)
  {
    hide SplitLines, RowText, TakeLines, Mentions, ReadVerdict, HeaderLines, OutcomeOf, HeadLine, ShaLine, PlainName,
      Heard;
    SplitRender(h, cs);
    HeaderFirst(h);
    VerdictReadsBackExactly(h, cs);
    var g := Gate(ReadVerdict(HeadLine(h)), map[], [], false, "");
    HeaderSays(g, h);
    RowsHeard(TakeLines(g, HeaderLines(h)), cs);
    TakeLinesConcat(g, HeaderLines(h), SplitLines(RowText(cs)));
  }

  /** The gate file reads back as what the gate recorded: the last result under every name with the stripped
      first line of detail and nothing else, the undeclared names, and the sha. The headline too reads back, if
      and only if it holds no dash. */
  lemma ReadsBack(h: Header, cs: seq<Check>)
    requires Heads(h, cs) && forall k | 0 <= k < |cs| :: Plain(cs[k])
    ensures var r := Parse(Render(h, cs));
      && r.rows == RowsOf(cs) && r.undeclared == NamesOf(cs, Undeclared) && r.sha == h.sha
      && r.verdict == UpToDash(h.verdict) && (r.verdict == h.verdict <==> NoDash(h.verdict))
      && (r.disagree <==> Mentions(HeaderLines(h)) || Mentions(SplitLines(RowText(cs))))
  {
    hide SplitLines, RowText, RowsOf, NamesOf, Plain, TakeLines, Mentions, ReadVerdict, HeaderLines, NoDash,
      OutcomeOf, Strip, HeadLine, ShaLine;
    SplitRender(h, cs);
    HeaderFirst(h);
    VerdictReadsBackExactly(h, cs);
    var g := Gate(ReadVerdict(HeadLine(h)), map[], [], false, "");
    HeaderSays(g, h);
    RowsAdd(TakeLines(g, HeaderLines(h)), cs);
    TakeLinesConcat(g, HeaderLines(h), SplitLines(RowText(cs)));
  }

  lemma HeaderFirst(h: Header)
    ensures |HeaderLines(h)| == 4 && HeaderLines(h)[0] == HeadLine(h)
  {
  }

  /** A name reads back if and only if it was recorded. */
  lemma {:induction false} NamesRead(cs: seq<Check>, name: string)
    ensures name in RowsOf(cs) <==> exists k | 0 <= k < |cs| :: cs[k].Rec? && cs[k].name == name
  {
    hide Strip;
    if cs == [] {
    } else {
      var n := |cs| - 1;
      NamesRead(cs[..n], name);
      assert forall k | 0 <= k < n :: cs[..n][k] == cs[k];
    }
  }

  /** A record not repeated later keeps its status and detail; so with distinct names every record does. */
  lemma {:induction false} LastRecordRead(cs: seq<Check>, k: nat)
    requires k < |cs| && cs[k].Rec? && forall j | k < j < |cs| :: !(cs[j].Rec? && cs[j].name == cs[k].name)
    ensures cs[k].name in RowsOf(cs) && RowsOf(cs)[cs[k].name] == Row(cs[k].passed, Strip(FirstLine(cs[k].detail)))
  {
    hide Strip;
    var n := |cs| - 1;
    if k == n {
    } else {
      LastRecordRead(cs[..n], k);
    }
  }

  /** Why an advisory text must be quiet: one that imitates a row is printed as that row, and no reader can
      tell it from a recorded result. */
  lemma AdvisoryCanPoseAsRow(name: string, p: Passed, detail: string)
    ensures RowLine(Warn("**" + name + "**: " + StatusWord(p) + " \U{2014} " + detail)) == RowLine(Rec(name, p, detail))
  {
    hide StatusWord;
    var x := name + ("**: " + StatusWord(p) + " \U{2014} " + detail);
    BulletAndStars(x);
    assert RowLine(Rec(name, p, detail)) == "- **" + x;
    assert "**" + name + "**: " + StatusWord(p) + " \U{2014} " + detail == "**" + x;
  }

  lemma BulletAndStars(x: string)
    ensures "- " + ("**" + x) == "- **" + x
  {
  }

  /** An advisory text opens as a row would: in bold, with a close that a colon and a status follow. */
  predicate PosesAsRow(text: string) {
    var t := LStrip(text);
    At(t, 0, "**") && ClosesAsRow(t[2..], 1)
  }

  /** An advisory row is quiet if and only if its first line does not pose as a row and no later line reads as a row
      or a sha. */
  lemma AdviceQuietExactly(text: string)
    ensures Quiet(Warn(text)) <==> !PosesAsRow(FirstLine(text)) && QuietLines(MoreLines(text))
  {
    hide SplitLines, ReadRow, ReadSha, PosesAsRow, OneLine, MoreLines, FirstLine, TextLines;
    DashOneLine();
    TextLinesOfFront("- ", text);
    QuietCons("- " + FirstLine(text), MoreLines(text));
    DashLineHasNoSha(FirstLine(text));
    DashLineReads(FirstLine(text));
  }

  /** In particular an advisory text of one line that does not open in bold is quiet. */
  lemma PlainAdviceIsQuiet(text: string)
    requires OneLine(text) && !At(LStrip(text), 0, "**")
    ensures Quiet(Warn(text))
  {
    hide Quiet, ClosesAsRow, OneLine, FirstLine, MoreLines, At, LStrip;
    OneLineText(text);
    AdviceQuietExactly(text);
  }

  lemma DashLineReads(text: string)
    ensures ReadRow("- " + text).Some? <==> PosesAsRow(text)
  {
    hide ReadName, LStrip, IsSpace, At, ClosesAsRow;
    var line := "- " + text;
    assert line == ['-'] + ([' '] + text);
    ColonIsSolid();
    SolidFront('-', [' '] + text);
    assert line[1..] == [' '] + text;
    GIsSolid();
    LeadingSpace(' ', text);
    var t := LStrip(text);
    if At(t, 0, "**") {
      NameReadExactly(StarsOff(t), 1);
    }
  }

  function StarsOff(t: string): string
    requires At(t, 0, "**")
  {
    t[2..]
  }

  lemma DashOneLine()
    ensures OneLine("- ")
  {
  }
}
