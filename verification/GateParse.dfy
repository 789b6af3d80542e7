/** Reading a gate file back: `parse_gate_md` of autogate.py, as a scanner over lines. */
module GateParse {
  import opened PyText
  import opened GateReport

  // ---- str.splitlines -----------------------------------------------------------------------

  predicate IsBreak(c: char) {
    || '\n' <= c <= '\r' || '\U{1c}' <= c <= '\U{1e}' || c == '\U{85}' || c == '\U{2028}' || c == '\U{2029}'
  }

  predicate OneLine(s: string) {
    forall k | 0 <= k < |s| :: !IsBreak(s[k])
  }

  function NextBreak(s: string, i: nat): (j: nat)
    requires i <= |s|
    ensures i <= j <= |s| && (j < |s| ==> IsBreak(s[j]))
    ensures forall k | i <= k < j :: !IsBreak(s[k])
    decreases |s| - i
  {
    if i == |s| || IsBreak(s[i]) then i else NextBreak(s, i + 1)
  }

  function PastBreak(s: string, j: nat): (e: nat)
    requires j < |s|
    ensures j < e <= |s|
  {
    if s[j] == '\r' && j + 1 < |s| && s[j + 1] == '\n' then j + 2 else j + 1
  }

  function SplitLines(s: string): seq<string>
    decreases |s|
  {
    if s == "" then []
    else
      var j := NextBreak(s, 0);
      if j == |s| then [s] else [s[..j]] + SplitLines(s[PastBreak(s, j)..])
  }

  lemma NextBreakInPrefix(a: string, b: string)
    requires a != "" && a[|a| - 1] == '\n'
    ensures NextBreak(a + b, 0) == NextBreak(a, 0) < |a|
  {
    var j := NextBreak(a, 0);
    assert IsBreak(a[|a| - 1]);
    assert forall k | 0 <= k < |a| :: (a + b)[k] == a[k];
    var i := NextBreak(a + b, 0);
  }

  lemma PastBreakInPrefix(a: string, b: string, j: nat)
    requires j < |a| && a[|a| - 1] == '\n'
    ensures PastBreak(a + b, j) == PastBreak(a, j)
  {
  }

  /** A line feed always ends a line, so splitting distributes over it. */
  lemma {:induction false} SplitAtLineFeed(a: string, b: string)
    requires a != "" && a[|a| - 1] == '\n'
    ensures SplitLines(a + b) == SplitLines(a) + SplitLines(b)
    decreases |a|
  {
    hide NextBreak, IsBreak, PastBreak;
    NextBreakInPrefix(a, b);
    var j := NextBreak(a, 0);
    var e := PastBreak(a, j);
    PastBreakInPrefix(a, b, j);
    assert (a + b)[..j] == a[..j];
    assert (a + b)[e..] == a[e..] + b;
    assert SplitLines(a + b) == [a[..j]] + SplitLines(a[e..] + b);
    assert SplitLines(a) == [a[..j]] + SplitLines(a[e..]);
    if a[e..] != "" {
      SplitAtLineFeed(a[e..], b);
    } else {
      assert a[e..] + b == b;
    }
  }

  lemma SplitOneLine(line: string)
    requires OneLine(line)
    ensures SplitLines(line + "\n") == [line]
  {
    var s := line + "\n";
    assert forall k | 0 <= k < |line| :: s[k] == line[k];
    assert s[|line|] == '\n';
    assert NextBreak(s, 0) == |line|;
    assert s[..|line|] == line;
    assert s[PastBreak(s, |line|)..] == "";
  }

  lemma {:induction false} NextBreakShifts(front: string, s: string, i: nat)
    requires OneLine(front) && i <= |front|
    ensures NextBreak(front + s, i) == |front| + NextBreak(s, 0)
    decreases |front| - i
  {
    hide IsBreak;
    var t := front + s;
    if i < |front| {
      assert t[i] == front[i];
      NextBreakShifts(front, s, i + 1);
    } else {
      BreakShifts(front, s, 0);
    }
  }

  lemma {:induction false} BreakShifts(front: string, s: string, i: nat)
    requires i <= |s|
    ensures NextBreak(front + s, |front| + i) == |front| + NextBreak(s, i)
    decreases |s| - i
  {
    hide IsBreak;
    if i == |s| || IsBreak(s[i]) {
    } else {
      BreakShifts(front, s, i + 1);
    }
  }

  lemma PastBreakShifts(front: string, s: string, j: nat)
    requires j < |s|
    ensures PastBreak(front + s, |front| + j) == |front| + PastBreak(s, j)
  {
  }

  lemma SplitNonEmpty(s: string)
    ensures s != "" ==> SplitLines(s) != []
  {
  }

  /** Text without line breaks in front of other text lengthens the first line and nothing else. */
  lemma FrontJoinsFirstLine(front: string, s: string)
    requires OneLine(front) && s != ""
    ensures SplitLines(s) != [] && SplitLines(front + s) == [front + SplitLines(s)[0]] + SplitLines(s)[1..]
  {
    hide NextBreak, IsBreak, PastBreak, OneLine;
    NextBreakShifts(front, s, 0);
    var j := NextBreak(s, 0);
    if j < |s| {
      PastBreakShifts(front, s, j);
      SplitAt(s, j);
      SplitAt(front + s, |front| + j);
      assert (front + s)[..|front| + j] == front + s[..j];
      assert (front + s)[|front| + PastBreak(s, j)..] == s[PastBreak(s, j)..];
    }
  }

  lemma SplitAt(s: string, j: nat)
    requires j < |s| && NextBreak(s, 0) == j
    ensures SplitLines(s) == [s[..j]] + SplitLines(s[PastBreak(s, j)..])
  {
  }

  /** The lines a text ends up on when a line feed closes it, and so the first of them and the others. */
  function TextLines(d: string): (lines: seq<string>)
    ensures lines != []
  {
    SplitNonEmpty(d + "\n");
    SplitLines(d + "\n")
  }

  function FirstLine(d: string): string {
    TextLines(d)[0]
  }

  function MoreLines(d: string): seq<string> {
    TextLines(d)[1..]
  }

  lemma OneLineText(d: string)
    requires OneLine(d)
    ensures FirstLine(d) == d && MoreLines(d) == []
  {
    SplitOneLine(d);
  }

  lemma TextLinesOfFront(front: string, d: string)
    requires OneLine(front)
    ensures TextLines(front + d) == [front + FirstLine(d)] + MoreLines(d)
  {
    hide SplitLines, OneLine;
    FrontJoinsFirstLine(front, d + "\n");
    assert front + d + "\n" == front + (d + "\n");
  }

  // ---- the row pattern ----------------------------------------------------------------------

  predicate IsDash(c: char) {
    c == '-' || c == '\U{2014}'
  }

  function DropDashes(s: string): (r: string)
    ensures |r| <= |s|
    ensures r == [] || !IsDash(r[0])
  {
    if s != "" && IsDash(s[0]) then DropDashes(s[1..]) else s
  }

  datatype Row = Row(status: Passed, detail: string)

  /** The value a row is parsed to: True, False, or None for both kinds of missing result. */
  function Value(p: Passed): Option<bool> {
    match p case Pass => Some(true) case Fail => Some(false) case NotRun => None case Undeclared => None
  }

  function ReadStatus(s: string): (r: Option<Passed>)
    ensures r.Some? ==> At(s, 0, StatusWord(r.value))
  {
    if At(s, 0, "PASS") then Some(Pass)
    else if At(s, 0, "FAIL") then Some(Fail)
    else if At(s, 0, "NOT DECLARED") then Some(Undeclared)
    else if At(s, 0, "NOT RUN") then Some(NotRun)
    else None
  }

  function AfterWord(s: string, w: string): string
    requires At(s, 0, w)
  {
    s[|w|..]
  }

  /** `\s*[:=]\s*(PASS|FAIL|NOT DECLARED|NOT RUN)\s*[-—]*\s*(.*)$`, the detail stripped. */
  function ReadTail(s: string): Option<Row> {
    var a := LStrip(s);
    if a == "" || (a[0] != ':' && a[0] != '=') then None
    else
      var b := LStrip(a[1..]);
      match ReadStatus(b)
      case None => None
      case Some(p) => Some(Row(p, Strip(DropDashes(LStrip(AfterWord(b, StatusWord(p)))))))
  }

  /** The lazy `(.+?)\*\*` and what follows: the first close at or after `e` whose tail matches. */
  function ReadName(s: string, e: nat): Option<(string, Row)>
    decreases |s| - e
  {
    if e + 2 > |s| then None
    else if At(s, e, "**") && ReadTail(s[e + 2..]).Some? then Some((Strip(s[..e]), ReadTail(s[e + 2..]).value))
    else ReadName(s, e + 1)
  }

  function ReadRow(line: string): Option<(string, Row)> {
    var a := LStrip(line);
    if a == "" || (a[0] != '-' && a[0] != '*') then None
    else
      var b := LStrip(a[1..]);
      if !At(b, 0, "**") then None else ReadName(b[2..], 1)
  }

  // ---- the header and sha patterns ----------------------------------------------------------

  /** The lazy verdict group: up to the first place followed by blanks and then a dash or the end. */
  function CutVerdict(s: string, e: nat): (r: string)
    requires e <= |s|
    ensures r <= s && |r| >= e
    decreases |s| - e
  {
    var rest := LStrip(s[e..]);
    if e == |s| || rest == "" || IsDash(rest[0]) then s[..e] else CutVerdict(s, e + 1)
  }

  /** `#\s*GATE\s+`: what follows it. */
  function PastGate(line: string): Option<string> {
    if !At(line, 0, "#") then None
    else
      var a := LStrip(line[1..]);
      if !At(a, 0, "GATE") then None
      else
        var b := LStrip(a[4..]);
        if |b| == |a[4..]| then None else Some(b)
  }

  /** `(\S+)\s+`: what follows it. */
  function PastItem(b: string): Option<string> {
    var item := SkipWord(b, 0);
    var c := LStrip(b[item..]);
    if item == 0 || |c| == |b[item..]| then None else Some(c)
  }

  /** `[-—]+\s*(.+?)\s*(?:[-—]+\s*(.*))?$`: the verdict, stripped, or nothing. */
  function VerdictAfter(c: string): string {
    var d := DropDashes(c);
    if |d| == |c| then ""
    else if LStrip(d) == "" then (if d == "" && |c| >= 2 then c[|c| - 1..] else "")
    else Strip(CutVerdict(LStrip(d), 1))
  }

  /** The verdict in the header line, or nothing. */
  function ReadVerdict(line: string): string {
    match PastGate(line)
    case None => ""
    case Some(b) =>
      match PastItem(b)
      case None => ""
      case Some(c) => VerdictAfter(c)
  }

  predicate IsHex(c: char) {
    '0' <= c <= '9' || 'a' <= c <= 'f'
  }

  function HexRun(s: string): (n: nat)
    ensures n <= |s| && forall k | 0 <= k < n :: IsHex(s[k])
    ensures n < |s| ==> !IsHex(s[n])
  {
    if s != "" && IsHex(s[0]) then 1 + HexRun(s[1..]) else 0
  }

  /** `\s*sha\s+([0-9a-f]{7,40})`. */
  function ReadSha(line: string): Option<string> {
    var a := LStrip(line);
    if !At(a, 0, "sha") then None
    else
      var b := LStrip(a[3..]);
      var n := HexRun(b);
      if |b| == |a[3..]| || n < 7 then None else Some(b[..if n > 40 then 40 else n])
  }

  // ---- parse_gate_md ------------------------------------------------------------------------

  datatype Gate = Gate(verdict: string, rows: map<string, Row>, undeclared: seq<string>, disagree: bool, sha: string)

  function TakeLine(g: Gate, line: string): Gate {
    var g1 :=
      match ReadRow(line)
      case None => g
      case Some((name, row)) =>
        g.(rows := g.rows[name := row],
          undeclared := if row.status == Undeclared then g.undeclared + [name] else g.undeclared);
    g1.(disagree := g.disagree || Contains(line, "DISAGREE"),
        sha := if ReadSha(line).Some? then ReadSha(line).value else g.sha)
  }

  function TakeLines(g: Gate, lines: seq<string>): Gate
    decreases |lines|
  {
    if lines == [] then g else TakeLine(TakeLines(g, lines[..|lines| - 1]), lines[|lines| - 1])
  }

  function Parse(text: string): Gate {
    var lines := SplitLines(text);
    TakeLines(Gate(if lines == [] then "" else ReadVerdict(lines[0]), map[], [], false, ""), lines)
  }

  lemma {:induction false} TakeLinesConcat(g: Gate, a: seq<string>, b: seq<string>)
    ensures TakeLines(g, a + b) == TakeLines(TakeLines(g, a), b)
  {
    hide TakeLine;
    if b == [] {
      assert a + b == a;
    } else {
      TakeLinesConcat(g, a, b[..|b| - 1]);
      assert (a + b)[..|a + b| - 1] == a + b[..|b| - 1];
    }
  }

  /** The parser's loop over lines. */
  method ParseByLoop(text: string) returns (g: Gate)
    ensures g == Parse(text)
  {
    hide ReadRow, ReadSha, ReadVerdict, SplitLines;
    var lines := SplitLines(text);
    var verdict := if lines == [] then "" else ReadVerdict(lines[0]);
    var rows: map<string, Row> := map[];
    var undeclared: seq<string> := [];
    var disagree, sha := false, "";
    var k := 0;
    while k < |lines|
      invariant 0 <= k <= |lines|
      invariant Gate(verdict, rows, undeclared, disagree, sha)
        == TakeLines(Gate(verdict, map[], [], false, ""), lines[..k])
    {
      var line := lines[k];
      assert lines[..k + 1][..k] == lines[..k];
      var m := ReadRow(line);
      if m.Some? {
        rows := rows[m.value.0 := m.value.1];
        if m.value.1.status == Undeclared {
          undeclared := undeclared + [m.value.0];
        }
      }
      if Contains(line, "DISAGREE") {
        disagree := true;
      }
      var m2 := ReadSha(line);
      if m2.Some? {
        sha := m2.value;
      }
      k := k + 1;
    }
    assert lines[..|lines|] == lines;
    g := Gate(verdict, rows, undeclared, disagree, sha);
  }

  // ---- the round trip, row by row -----------------------------------------------------------

  predicate NoStars(s: string) {
    forall i: nat | i <= |s| :: !At(s, i, "**")
  }

  lemma ReadStatusOf(p: Passed, rest: string)
    ensures ReadStatus(StatusWord(p) + rest) == Some(p)
  {
    var s := StatusWord(p) + rest;
    AtFront(StatusWord(p), rest);
    match p {
      case Pass =>
      case Fail => NotAt(s, 0, "PASS", 0);
      case Undeclared => NotAt(s, 0, "PASS", 0); NotAt(s, 0, "FAIL", 0);
      case NotRun => NotAt(s, 0, "PASS", 0); NotAt(s, 0, "FAIL", 0); NotAt(s, 0, "NOT DECLARED", 4);
    }
  }

  lemma SolidFront(c: char, s: string)
    requires !IsSpace(c)
    ensures LStrip([c] + s) == [c] + s && LStrip([' '] + ([c] + s)) == [c] + s
  {
  }

  lemma DropDashesOf(s: string)
    requires s == "" || !IsDash(s[0])
    ensures DropDashes(['\U{2014}'] + s) == s
  {
  }

  /** What follows the separator between status and detail. */
  lemma DetailOf(detail: string)
    ensures Strip(DropDashes(LStrip(" \U{2014} " + detail))) == Strip(detail)
  {
    hide Strip, LStrip;
    var c := [' '] + detail;
    assert " \U{2014} " + detail == [' '] + (['\U{2014}'] + c);
    SolidFront('\U{2014}', c);
    DropDashesOf(c);
    StripLeadingSpace(detail);
  }

  lemma StripLeadingSpace(s: string)
    ensures Strip([' '] + s) == Strip(s)
  {
  }

  lemma StatusFront(p: Passed)
    ensures StatusWord(p) != "" && !IsSpace(StatusWord(p)[0])
  {
  }

  /** After the colon: the status word and the stripped detail, whatever the detail holds. */
  lemma ReadTailOf(p: Passed, detail: string)
    ensures ReadTail(": " + StatusWord(p) + " \U{2014} " + detail) == Some(Row(p, Strip(detail)))
  {
    hide Strip, ReadStatus, LStrip, DropDashes, StatusWord, IsSpace;
    var w, sep := StatusWord(p), " \U{2014} " + detail;
    var b := w + sep;
    var s := ": " + w + " \U{2014} " + detail;
    StatusFront(p);
    assert b == [w[0]] + (w[1..] + sep);
    SolidFront(w[0], w[1..] + sep);
    assert s == [':'] + ([' '] + b);
    ColonIsSolid();
    SolidFront(':', [' '] + b);
    assert s[1..] == [' '] + b;
    ReadStatusOf(p, sep);
    assert b[|w|..] == sep;
    DetailOf(detail);
  }

  lemma ColonIsSolid()
    ensures !IsSpace(':') && !IsSpace('*') && !IsSpace('-') && !IsSpace('#') && !IsSpace('\U{2014}')
  {
  }

  lemma StarIsNoTail(tail: string)
    ensures ReadTail(['*'] + tail) == None
  {
    ColonIsSolid();
    SolidFront('*', tail);
  }

  lemma StarsApart(name: string, tail: string, e: nat)
    requires 1 <= e < |name| && NoStars(name) && At(name + "**" + tail, e, "**")
    ensures (name + "**" + tail)[e + 2..] == ['*'] + tail
  {
    var s := name + "**" + tail;
    assert e + 2 <= |name| ==> name[e..e + 2] == s[e..e + 2];
    assert e + 2 <= |name| ==> At(name, e, "**");
    assert e + 1 == |name|;
  }

  lemma {:induction false} ReadNameOf(name: string, tail: string, e: nat)
    requires 1 <= e <= |name| && NoStars(name) && ReadTail(tail).Some?
    ensures ReadName(name + "**" + tail, e) == Some((Strip(name), ReadTail(tail).value))
    decreases |name| - e
  {
    hide Strip, ReadTail, NoStars;
    var s := name + "**" + tail;
    if e == |name| {
      assert s[e..e + 2] == "**";
      assert s[e + 2..] == tail && s[..e] == name;
    } else {
      if At(s, e, "**") {
        StarsApart(name, tail, e);
        StarIsNoTail(tail);
      }
      ReadNameOf(name, tail, e + 1);
    }
  }

  lemma ReadRowOf(name: string, tail: string)
    requires name != "" && NoStars(name) && ReadTail(tail).Some?
    ensures ReadRow("- **" + name + "**" + tail) == Some((Strip(name), ReadTail(tail).value))
  {
    hide Strip, ReadTail, LStrip, ReadName, NoStars, IsSpace;
    var line, c := "- **" + name + "**" + tail, name + "**" + tail;
    BulletLine(line, c);
    ReadNameOf(name, tail, 1);
  }

  lemma BulletFront(line: string, c: string)
    requires line == "- **" + c
    ensures LStrip(line) == line && LStrip(line[1..]) == "**" + c
  {
    hide LStrip;
    var b := "**" + c;
    ColonIsSolid();
    assert line == ['-'] + ([' '] + b);
    SolidFront('-', [' '] + b);
    assert line[1..] == [' '] + b;
    assert b == ['*'] + (['*'] + c);
    SolidFront('*', ['*'] + c);
  }

  /** A bullet followed by two stars is read from after the stars. */
  lemma BulletLine(line: string, c: string)
    requires line == "- **" + c
    ensures ReadRow(line) == ReadName(c, 1)
  {
    hide LStrip, ReadName, IsSpace, At;
    BulletFront(line, c);
    AtFront("**", c);
    assert ("**" + c)[2..] == c;
  }

  /** A recorded row reads back as its name, its status and its stripped detail. */
  lemma RowReadsBack(name: string, p: Passed, detail: string)
    requires name != "" && NoStars(name)
    ensures ReadRow(RowLine(Rec(name, p, detail))) == Some((Strip(name), Row(p, Strip(detail))))
  {
    hide Strip, ReadTail, ReadRow, StatusWord, NoStars;
    var tail := ": " + StatusWord(p) + " \U{2014} " + detail;
    ReadTailOf(p, detail);
    ReadRowOf(name, tail);
    assert RowLine(Rec(name, p, detail)) == "- **" + name + "**" + tail;
  }

  lemma DashLineHasNoSha(rest: string)
    ensures ReadSha("- " + rest) == None
  {
    ColonIsSolid();
    assert "- " + rest == ['-'] + ([' '] + rest);
    SolidFront('-', [' '] + rest);
    NotAt("- " + rest, 0, "sha", 0);
  }

  // ---- rows that say nothing ----------------------------------------------------------------

  /** None of these lines reads as a row or as a sha. */
  predicate QuietLines(lines: seq<string>) {
    forall k | 0 <= k < |lines| :: ReadRow(lines[k]) == None && ReadSha(lines[k]) == None
  }

  /** No line of this row's text reads as a row or as a sha. */
  predicate Quiet(c: Check) {
    QuietLines(TextLines(RowLine(c)))
  }

  lemma NoStatus(c: char, rest: string)
    requires c == 'Y' || c == 'n'
    ensures ReadStatus([c] + rest) == None && !IsSpace(c)
  {
    var b := [c] + rest;
    NotAt(b, 0, "PASS", 0);
    NotAt(b, 0, "FAIL", 0);
    NotAt(b, 0, "NOT DECLARED", 0);
    NotAt(b, 0, "NOT RUN", 0);
  }

  lemma OtherStatusIsNoTail(c: char, rest: string)
    requires c == 'Y' || c == 'n'
    ensures ReadTail(": " + ([c] + rest)) == None
  {
    hide LStrip, ReadStatus, IsSpace;
    var b := [c] + rest;
    ColonIsSolid();
    NoStatus(c, rest);
    assert ": " + b == [':'] + ([' '] + b);
    SolidFront(':', [' '] + b);
    assert ([':'] + ([' '] + b))[1..] == [' '] + b;
    SolidFront(c, rest);
  }

  /** Two stars in the text at or after `e`, followed by a colon and a status. */
  predicate ClosesAsRow(s: string, e: nat) {
    exists i: nat | e <= i <= |s| :: At(s, i, "**") && ReadTail(s[i + 2..]).Some?
  }

  /** A name is read exactly where some close is followed by a colon and a status. */
  lemma {:induction false} NameReadExactly(s: string, e: nat)
    ensures ReadName(s, e).Some? <==> ClosesAsRow(s, e)
    decreases |s| - e
  {
    hide ReadTail;
    if e + 2 > |s| {
    } else {
      NameReadExactly(s, e + 1);
    }
  }

  lemma TailInFront(front: string, d: string, i: nat)
    requires front != "" && front[|front| - 1] == ' ' && |front| <= i + 2 && At(front + d, i, "**")
    ensures |front| <= i && At(d, i - |front|, "**") && (front + d)[i + 2..] == d[i - |front| + 2..]
  {
    var s := front + d;
    AtChars(s, i, "**", 0);
    AtChars(s, i, "**", 1);
    assert s[|front| - 1] == ' ';
    assert s[i..i + 2] == d[i - |front|..i - |front| + 2];
  }

  lemma AtLater(front: string, d: string, i: nat)
    requires i <= |d|
    ensures At(front + d, |front| + i, "**") <==> At(d, i, "**")
    ensures At(d, i, "**") ==> (front + d)[|front| + i + 2..] == d[i + 2..]
  {
    if i + 2 <= |d| {
      assert (front + d)[|front| + i..|front| + i + 2] == d[i..i + 2];
    }
  }

  /** Behind a front that ends in a blank and whose only stars close before no status, a row is read exactly where
      the text behind it closes as one. */
  lemma ClosesBehind(front: string, d: string, close: nat)
    requires 1 <= close && close + 2 < |front| && front[|front| - 1] == ' '
    requires forall i | 0 <= i < |front| :: front[i] == '*' ==> i == close || i == close + 1
    requires ReadTail((front + d)[close + 2..]) == None
    ensures ClosesAsRow(front + d, 1) <==> ClosesAsRow(d, 0)
  {
    hide ReadTail;
    var s := front + d;
    if ClosesAsRow(s, 1) {
      var i: nat :| 1 <= i <= |s| && At(s, i, "**") && ReadTail(s[i + 2..]).Some?;
      StarsAt(front, d, i, close);
      TailInFront(front, d, i);
    }
    if ClosesAsRow(d, 0) {
      var i: nat :| i <= |d| && At(d, i, "**") && ReadTail(d[i + 2..]).Some?;
      AtLater(front, d, i);
      assert At(s, |front| + i, "**");
    }
  }

  lemma StarsAt(front: string, d: string, i: nat, close: nat)
    requires close + 2 < |front| && front[|front| - 1] == ' ' && i <= |front + d| && At(front + d, i, "**")
    requires forall k | 0 <= k < |front| :: front[k] == '*' ==> k == close || k == close + 1
    ensures i == close || |front| <= i + 2
  {
    var s := front + d;
    AtChars(s, i, "**", 0);
    AtChars(s, i, "**", 1);
    assert i + 2 < |front| ==> s[i] == front[i] && s[i + 1] == front[i + 1];
  }

  function HandMergeFront(required: bool): (r: string)
    ensures |r| > 24
  {
    "hand-merge required**: " + (if required then "YES" else "no") + " \U{2014} "
  }

  lemma HandMergeCloses(required: bool, d: string)
    ensures ClosesAsRow(HandMergeFront(required) + d, 1) <==> ClosesAsRow(d, 0)
  {
    hide ReadTail, ClosesAsRow;
    var word := if required then "YES" else "no";
    var front := HandMergeFront(required);
    assert front[19] == '*' && front[20] == '*' && front[|front| - 1] == ' ';
    HandMergeTail(required, d);
    OtherStatusIsNoTail(word[0], word[1..] + " \U{2014} " + d);
    ClosesBehind(front, d, 19);
  }

  lemma HandMergeTail(required: bool, d: string)
    ensures var word := if required then "YES" else "no";
      (HandMergeFront(required) + d)[21..] == ": " + ([word[0]] + (word[1..] + " \U{2014} " + d))
  {
  }

  lemma HandMergeFrontIsOneLine(required: bool)
    ensures OneLine("- **" + HandMergeFront(required))
  {
  }

  /** The hand-merge note reads as a row exactly when its own text imitates one: when two stars, a colon and a
      status stand in its first line, or a later line reads as a row or a sha. A note that says which files
      were touched, with no stars in their names, never does. */
  lemma HandMergeQuietExactly(required: bool, detail: string)
    ensures Quiet(HandMergeRow(required, detail))
       <==> (!ClosesAsRow(FirstLine(detail), 0) && QuietLines(MoreLines(detail)))
  {
    hide ReadTail, ReadSha, ReadName, ReadRow, ClosesAsRow, OneLine, SplitLines, HandMergeFront;
    var first, front := FirstLine(detail), "- **" + HandMergeFront(required);
    HandMergeText(required, detail);
    HandMergeFrontIsOneLine(required);
    TextLinesOfFront(front, detail);
    var c := HandMergeFront(required) + first;
    assert front + first == "- **" + c;
    BulletLine(front + first, c);
    NameReadExactly(c, 1);
    HandMergeCloses(required, first);
    DashLineHasNoSha("**" + c);
    assert "- **" + c == "- " + ("**" + c);
    QuietCons(front + first, MoreLines(detail));
  }

  lemma HandMergeText(required: bool, detail: string)
    ensures RowLine(HandMergeRow(required, detail)) == "- **" + HandMergeFront(required) + detail
  {
  }

  lemma QuietCons(line: string, lines: seq<string>)
    ensures QuietLines([line] + lines) <==> ReadRow(line) == None && ReadSha(line) == None && QuietLines(lines)
  {
    hide ReadRow, ReadSha;
    var all := [line] + lines;
    assert all[0] == line;
    assert forall k | 0 <= k < |lines| :: all[k + 1] == lines[k];
    assert forall k | 1 <= k < |all| :: all[k] == lines[k - 1];
  }

  lemma NoStarsNoClose(s: string)
    requires NoStars(s)
    ensures !ClosesAsRow(s, 0)
  {
  }

  /** In particular a note of one line without double stars never reads as a row. */
  lemma HandMergeIsQuiet(required: bool, detail: string)
    requires OneLine(detail) && NoStars(detail)
    ensures Quiet(HandMergeRow(required, detail))
  {
    hide Quiet, ClosesAsRow, OneLine, FirstLine, MoreLines, NoStars;
    OneLineText(detail);
    NoStarsNoClose(detail);
    HandMergeQuietExactly(required, detail);
  }

  lemma OneLineConcat(a: string, b: string)
    requires OneLine(a) && OneLine(b)
    ensures OneLine(a + b)
  {
  }
}
