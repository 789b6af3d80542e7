/** Which gate goes to whom, told from the recorded checks, the printed headline and the words of the Codex row:
    `codex_opinion` and `decide` of autogate.py, exactly. */
module GateVerdicts {
  import opened PyText
  import opened GateReport
  import opened GateParse
  import opened GateRoundTrip
  import opened GateDecide

  // ---- the verdict a detail gives -----------------------------------------------------------

  predicate VerdictChar(c: char) {
    'a' <= c <= 'z' || c == '-'
  }

  predicate VerdictWordLike(w: string) {
    w != "" && forall k | 0 <= k < |w| :: VerdictChar(w[k])
  }

  /** A verdict begins at `i`: the word `verdict=` and a letter or hyphen behind it. */
  predicate VerdictStarts(s: string, i: nat) {
    At(s, i, "verdict=") && i + 8 < |s| && VerdictChar(s[i + 8])
  }

  /** The whole run of letters and hyphens at `i` is `w`. */
  predicate RunIs(s: string, i: nat, w: string) {
    VerdictWordLike(w) && At(s, i, w) && (i + |w| < |s| ==> !VerdictChar(s[i + |w|]))
  }

  /** The exit code 0 stands in the detail as a word of its own. */
  ghost predicate CleanExit(d: string) {
    exists i: nat | At(d, i, "rc=0") ::
      (i > 0 ==> !IsWordChar(d[i - 1])) && (i + 4 < |d| ==> !IsWordChar(d[i + 4]))
  }

  /** The detail says that a review took place and ended. */
  ghost predicate Reviewed(d: string) {
    && !Contains(d, "WALLED") && !Contains(Upper(d), "NOT RUN") && !Contains(d, "not run")
    && !Contains(d, "still running") && (Contains(d, "rc=") ==> CleanExit(d))
  }

  /** The detail gives this verdict: in lower case, the run behind the first `verdict=` that has one is `w`. */
  ghost predicate Gives(d: string, w: string) {
    var s := Lower(d);
    Reviewed(d) && w != "none" && exists i: nat | VerdictStarts(s, i) :: RunIs(s, i + 8, w) && NoneBefore(s, i)
  }

  ghost predicate NoneBefore(s: string, i: nat) {
    forall j: nat | j < i :: !VerdictStarts(s, j)
  }

  lemma {:induction false} RunOf(s: string, i: nat, w: string)
    requires i <= |s|
    ensures var n := LetterRun(s[i..]);
      && (n > 0 <==> i < |s| && VerdictChar(s[i])) && (RunIs(s, i, w) <==> n > 0 && s[i..][..n] == w)
    decreases |s| - i
  {
    if i < |s| && VerdictChar(s[i]) {
      var rest := s[i + 1..];
      assert s[i..][1..] == rest;
      var n := LetterRun(rest);
      LetterRunStops(s[i..]);
      assert LetterRun(s[i..]) == 1 + n;
      var m := 1 + n;
      if RunIs(s, i, w) {
        RunsAgree(s[i..], w);
      }
      if s[i..][..m] == w {
        assert s[i..i + |w|] == w;
        assert i + |w| < |s| ==> s[i..][m] == s[i + |w|];
      }
    }
  }

  lemma {:induction false} LetterRunStops(s: string)
    ensures var n := LetterRun(s);
      (forall k | 0 <= k < n :: VerdictChar(s[k])) && (n < |s| ==> !VerdictChar(s[n]))
  {
    if s != "" && VerdictChar(s[0]) {
      LetterRunStops(s[1..]);
      var n := LetterRun(s[1..]);
      forall k | 0 <= k < 1 + n
        ensures VerdictChar(s[k])
      {
        assert k > 0 ==> s[k] == s[1..][k - 1];
      }
      assert 1 + n < |s| ==> s[1 + n] == s[1..][n];
    }
  }

  lemma RunsAgree(s: string, w: string)
    requires RunIs(s, 0, w)
    ensures LetterRun(s) == |w|
  {
    LetterRunStops(s);
  }

  lemma {:induction false} FirstVerdict(s: string, i: nat, w: string)
    requires w != ""
    ensures VerdictWord(s, i) == w <==>
      exists j: nat | i <= j && VerdictStarts(s, j) ::
        RunIs(s, j + 8, w) && forall m: nat | i <= m < j :: !VerdictStarts(s, m)
    decreases |s| - i
  {
    if i + 8 > |s| {
    } else {
      RunOf(s, i + 8, w);
      FirstVerdict(s, i + 1, w);
      assert VerdictStarts(s, i) <==> At(s, i, "verdict=") && LetterRun(s[i + 8..]) > 0;
      if VerdictStarts(s, i) {
      } else {
        if VerdictWord(s, i) == w {
          var j: nat :| i + 1 <= j && VerdictStarts(s, j) && RunIs(s, j + 8, w)
            && forall m: nat | i + 1 <= m < j :: !VerdictStarts(s, m);
          assert forall m: nat | i <= m < j :: !VerdictStarts(s, m);
        }
      }
    }
  }

  /** `codex_opinion`, exactly: the word it returns is the verdict the detail gives, and it is an opinion if and only
      if that is one of the three that ask for changes. */
  lemma OpinionExactly(d: string, w: string)
    requires VerdictWordLike(w)
    ensures Gives(d, w) <==> CodexOpinion(d).word == w
    ensures CodexOpinion(d).genuine <==>
      Gives(d, "needs-attention") || Gives(d, "reject") || Gives(d, "request-changes")
  {
    hide VerdictStarts, RunIs, VerdictWord, Contains;
    LowerWord(w);
    ReadsAsReviewed(d);
    GivesRead(d, w);
    GivesRead(d, "needs-attention");
    GivesRead(d, "reject");
    GivesRead(d, "request-changes");
    WordHasNoUnderscore(d);
  }

  lemma LowerWord(w: string)
    requires VerdictWordLike(w)
    ensures w != "NONE" && w != ""
  {
    assert VerdictChar(w[0]);
  }

  lemma ReadsAsReviewed(d: string)
    ensures d != "" ==> (Reviewed(d) <==> !NoAnswer(d))
  {
    hide Contains;
    assert CleanExit(d) <==> ExitedClean(d);
  }

  lemma GivesRead(d: string, w: string)
    requires VerdictWordLike(w)
    ensures Gives(d, w) <==> Reviewed(d) && w != "none" && VerdictWord(Lower(d), 0) == w
    ensures Gives(d, w) ==> d != ""
  {
    hide RunIs, VerdictWord, Reviewed;
    FirstVerdict(Lower(d), 0, w);
  }

  lemma WordHasNoUnderscore(d: string)
    ensures var v := VerdictWord(Lower(d), 0); v == "" || VerdictWordLike(v)
  {
    hide Lower;
    WordIsRun(Lower(d), 0);
  }

  lemma {:induction false} WordIsRun(s: string, i: nat)
    ensures var v := VerdictWord(s, i); v == "" || VerdictWordLike(v)
    decreases |s| - i
  {
    if i + 8 > |s| {
    } else if At(s, i, "verdict=") && LetterRun(s[i + 8..]) > 0 {
      LetterRunStops(s[i + 8..]);
    } else {
      WordIsRun(s, i + 1);
    }
  }

  // ---- what is decided ----------------------------------------------------------------------

  predicate SomeFailed(cs: seq<Check>) {
    exists k | 0 <= k < |cs| :: cs[k].Rec? && cs[k].passed == Fail
  }

  /** The headline, up to its first dash, says that the gate did not end. */
  predicate Unfinished(h: Header) {
    Contains(Upper(UpToDash(h.verdict)), "NOT COMPLETED") || Contains(Upper(UpToDash(h.verdict)), "CRASH")
  }

  /** Some line of the file says that the reviewers disagree. */
  predicate Disagrees(h: Header, cs: seq<Check>) {
    var lines := SplitLines(Render(h, cs));
    exists k | 0 <= k < |lines| :: Contains(lines[k], "DISAGREE")
  }

  /** The first line of what the last Codex row says. */
  function CodexLine(cs: seq<Check>): string {
    if cs == [] then ""
    else
      var c := cs[|cs| - 1];
      if c.Rec? && c.name == "codex adversarial review" then Strip(FirstLine(c.detail))
      else CodexLine(cs[..|cs| - 1])
  }

  /** The checks whose last record says that they failed. */
  function FailedAtLast(cs: seq<Check>): set<string> {
    set k | 0 <= k < |cs| && LastOfName(cs, k) && cs[k].passed == Fail :: cs[k].name
  }

  predicate LastOfName(cs: seq<Check>, k: nat) {
    k < |cs| && cs[k].Rec? && forall j | k < j < |cs| :: !(cs[j].Rec? && cs[j].name == cs[k].name)
  }

  lemma {:induction false} CodexLineRead(cs: seq<Check>)
    ensures CodexDetail(RowsOf(cs)) == CodexLine(cs)
  {
    hide Strip, FirstLine;
    if cs == [] {
    } else {
      CodexLineRead(cs[..|cs| - 1]);
    }
  }

  lemma {:induction false} LastRecord(cs: seq<Check>, name: string) returns (k: nat)
    requires exists k | 0 <= k < |cs| :: cs[k].Rec? && cs[k].name == name
    ensures LastOfName(cs, k) && cs[k].name == name
  {
    var n := |cs| - 1;
    if cs[n].Rec? && cs[n].name == name {
      k := n;
    } else {
      var i :| 0 <= i < |cs| && cs[i].Rec? && cs[i].name == name;
      assert cs[..n][i] == cs[i];
      k := LastRecord(cs[..n], name);
    }
  }

  lemma FailedIsRead(cs: seq<Check>, name: string)
    requires name in FailedAtLast(cs)
    ensures name in FailedRows(RowsOf(cs))
  {
    hide RowsOf, Strip, FirstLine;
    var j :| 0 <= j < |cs| && LastOfName(cs, j) && cs[j].passed == Fail && cs[j].name == name;
    LastRead(cs, j);
  }

  lemma FailedRead(cs: seq<Check>)
    ensures FailedRows(RowsOf(cs)) == FailedAtLast(cs)
  {
    hide RowsOf, Strip, FirstLine;
    forall name
      ensures name in FailedRows(RowsOf(cs)) <==> name in FailedAtLast(cs)
    {
      NamesRead(cs, name);
      if name in RowsOf(cs) {
        var k := LastRecord(cs, name);
        LastRead(cs, k);
      }
      if name in FailedAtLast(cs) {
        FailedIsRead(cs, name);
      }
    }
  }

  lemma LastRead(cs: seq<Check>, k: nat)
    requires LastOfName(cs, k)
    ensures k < |cs| && cs[k].Rec? && cs[k].name in RowsOf(cs) && RowsOf(cs)[cs[k].name].status == cs[k].passed
  {
    hide RowsOf, Strip, FirstLine;
    LastRecordRead(cs, k);
  }

  lemma DisagreesRead(h: Header, cs: seq<Check>)
    requires Heads(h, cs)
    ensures Disagrees(h, cs) <==> Mentions(HeaderLines(h)) || Mentions(SplitLines(RowText(cs)))
  {
    hide SplitLines, RowText, Render, HeaderLines, Contains, Heads;
    SplitRender(h, cs);
    MentionsConcat(HeaderLines(h), SplitLines(RowText(cs)));
  }

  lemma FailureRead(h: Header, cs: seq<Check>)
    requires Heads(h, cs) && (forall k | 0 <= k < |cs| :: Plain(cs[k])) && SomeFailed(cs)
    ensures var g := Parse(Render(h, cs));
      && !At(Upper(g.verdict), 0, "PASS") && !At(Upper(g.verdict), 0, "INCOMPLETE")
      && (SaysNotCompleted(g.verdict) <==> Unfinished(h)) && (g.disagree <==> Disagrees(h, cs))
      && CodexDetail(g.rows) == CodexLine(cs) && FailedRows(g.rows) == FailedAtLast(cs)
  {
    hide *;
    ReadsBack(h, cs);
    HeadsSay(h, cs);
    SomeFailedKind(cs);
    FailRead(h, cs);
    NotIncompletePass(Upper(Parse(Render(h, cs)).verdict));
    DisagreesRead(h, cs);
    CodexLineRead(cs);
    FailedRead(cs);
    UnfinishedRead(h);
  }

  lemma UnfinishedRead(h: Header)
    ensures SaysNotCompleted(UpToDash(h.verdict)) <==> Unfinished(h)
  {
    hide UpToDash, Upper, Contains;
  }

  lemma SomeFailedKind(cs: seq<Check>)
    ensures SomeFailed(cs) ==> OutcomeOf(cs).kind == GateFail
  {
  }

  /** What becomes of a gate in which some check failed, for every way it can be reported. It is handed back, with the
      verdict that Codex gave, exactly if the report ends and nobody disagrees, Codex asks for changes, and the item
      was handed back less than twice and for no class of finding named now; else a person is told the first of these
      that is not so, with the checks that failed if Codex approved. */
  lemma FailureIsDecided(h: Header, cs: seq<Check>, w: string, found: set<string>, hist: History)
    requires Heads(h, cs) && (forall k | 0 <= k < |cs| :: Plain(cs[k])) && SomeFailed(cs)
    requires Gives(CodexLine(cs), w) || forall x :: !Gives(CodexLine(cs), x)
    ensures Decide(Parse(Render(h, cs)), found, hist) ==
      if Unfinished(h) then Escalate(NotCompleted)
      else if Disagrees(h, cs) then Escalate(Disagreement)
      else if !Gives(CodexLine(cs), w) then Escalate(NoOpinion)
      else if w == "approve" then Escalate(ReviewerApproved(FailedAtLast(cs)))
      else if w != "needs-attention" && w != "reject" && w != "request-changes" then Escalate(NoOpinion)
      else if hist.fails >= 2 then Escalate(NotConverging(hist.fails + 1))
      else if found * hist.classes != {} then Escalate(SameAgain(found * hist.classes))
      else Rework(w)
  {
    hide *;
    FailureRead(h, cs);
    OnFailure(Parse(Render(h, cs)), w, found, hist);
  }

  lemma OneVerdict(d: string, v: string, w: string)
    requires Gives(d, v) && Gives(d, w)
    ensures v == w && VerdictWordLike(v)
  {
    hide VerdictStarts, Reviewed;
    GivesWord(d, v);
    GivesWord(d, w);
    OpinionExactly(d, v);
    OpinionExactly(d, w);
  }

  lemma GivesWord(d: string, w: string)
    requires Gives(d, w)
    ensures VerdictWordLike(w)
  {
    hide VerdictStarts, Reviewed;
  }

  lemma OnFailure(g: Gate, w: string, found: set<string>, hist: History)
    requires !At(Upper(g.verdict), 0, "PASS") && !At(Upper(g.verdict), 0, "INCOMPLETE")
    requires Gives(CodexDetail(g.rows), w) || forall x :: !Gives(CodexDetail(g.rows), x)
    ensures Decide(g, found, hist) ==
      if SaysNotCompleted(g.verdict) then Escalate(NotCompleted)
      else if g.disagree then Escalate(Disagreement)
      else if !Gives(CodexDetail(g.rows), w) then Escalate(NoOpinion)
      else if w == "approve" then Escalate(ReviewerApproved(FailedRows(g.rows)))
      else if w != "needs-attention" && w != "reject" && w != "request-changes" then Escalate(NoOpinion)
      else if hist.fails >= 2 then Escalate(NotConverging(hist.fails + 1))
      else if found * hist.classes != {} then Escalate(SameAgain(found * hist.classes))
      else Rework(w)
  {
    hide SaysNotCompleted, Gives, CodexDetail, CodexOpinion, Upper, FailedRows, Unrun;
    var d := CodexDetail(g.rows);
    WordsOfVerdicts();
    OpinionExactly(d, "approve");
    if Gives(d, w) {
      GivesWord(d, w);
      OpinionExactly(d, w);
      forall x | Gives(d, x)
        ensures x == w
      {
        OneVerdict(d, x, w);
      }
    }
  }

  lemma WordsOfVerdicts()
    ensures VerdictWordLike("approve")
  {
  }

  /** A gate in which every check passed is shown to a person to approve. */
  lemma PassIsApprovable(h: Header, cs: seq<Check>, found: set<string>, hist: History)
    requires Heads(h, cs) && forall k | 0 <= k < |cs| :: Plain(cs[k]) && (cs[k].Rec? ==> cs[k].passed == Pass)
    ensures Decide(Parse(Render(h, cs)), found, hist) == Escalate(Approvable)
  {
    hide *;
    HeadsSay(h, cs);
    PassHeadline(cs);
    WordsArePhrases();
    AtWhole("PASS");
    HeadWordSurvives(h, cs, "PASS");
    UpperFront(Parse(Render(h, cs)).verdict, "PASS");
    PassFirst(Parse(Render(h, cs)), found, hist);
  }

  lemma PassFirst(g: Gate, found: set<string>, hist: History)
    requires At(Upper(g.verdict), 0, "PASS")
    ensures Decide(g, found, hist) == Escalate(Approvable)
  {
  }

  lemma PassHeadline(cs: seq<Check>)
    requires forall k | 0 <= k < |cs| :: cs[k].Rec? ==> cs[k].passed == Pass
    ensures OutcomeOf(cs).verdict == "PASS"
  {
    hide Reason, NamesOf;
    NoNamesExactly(cs, NotRun);
    NoNamesExactly(cs, Undeclared);
    ReasonEmptyExactly(NamesOf(cs, NotRun), NamesOf(cs, Undeclared));
    HeadlineWords(cs);
  }

  // ---- what details say ---------------------------------------------------------------------

  lemma LowerParts(v: string, rest: string)
    ensures Lower("rc=0 verdict=" + (v + rest)) == "rc=0 verdict=" + (Lower(v) + Lower(rest))
  {
    LowerConcat("rc=0 verdict=", v + rest);
    LowerConcat(v, rest);
  }

  /** What the gate prints after a clean exit gives the verdict it names, in upper or lower case, unless something in
      it says that no review took place or has ended. */
  lemma PrintedGives(v: string, rest: string)
    requires VerdictWordLike(Lower(v)) && Lower(v) != "none" && (rest != "" ==> !VerdictChar(LowChar(rest[0])))
    ensures var d := "rc=0 verdict=" + (v + rest);
      Gives(d, Lower(v)) <==>
        !Contains(d, "WALLED") && !Contains(Upper(d), "NOT RUN") && !Contains(d, "not run")
        && !Contains(d, "still running")
  {
    hide Contains, Upper, VerdictWordLike, Lower;
    var d, s := "rc=0 verdict=" + (v + rest), "rc=0 verdict=" + (Lower(v) + Lower(rest));
    LowerParts(v, rest);
    FrontIsClean(d, v + rest);
    FrontVerdict(s, Lower(v), Lower(rest));
    LowerFirst(rest);
    assert VerdictStarts(s, 5) && RunIs(s, 13, Lower(v)) && NoneBefore(s, 5);
  }

  lemma LowerFirst(s: string)
    ensures s != "" ==> Lower(s) != "" && Lower(s)[0] == LowChar(s[0])
  {
  }

  lemma FrontIsClean(d: string, rest: string)
    requires d == "rc=0 verdict=" + rest
    ensures CleanExit(d)
  {
    assert d[0..4] == "rc=0" && d[4] == ' ';
    assert At(d, 0, "rc=0");
  }

  lemma FrontVerdict(s: string, w: string, rest: string)
    requires s == "rc=0 verdict=" + (w + rest) && VerdictWordLike(w) && (rest != "" ==> !VerdictChar(rest[0]))
    ensures VerdictStarts(s, 5) && RunIs(s, 13, w) && NoneBefore(s, 5)
  {
    assert s[5..13] == "verdict=";
    assert s[13..13 + |w|] == w;
    assert s[0] == 'r' && s[1] == 'c' && s[2] == '=' && s[3] == '0' && s[4] == ' ';
    forall j: nat | j < 5
      ensures !VerdictStarts(s, j)
    {
      NotAt(s, j, "verdict=", 0);
    }
  }

  /** A verdict is read up to its first character that is no letter and no hyphen, so `needs_attention`, which the
      list of verdicts holds, gives `needs`, which it does not. */
  lemma UnderscoreCutsVerdict(rest: string)
    requires var d := "rc=0 verdict=needs_attention" + rest;
      && !Contains(d, "WALLED") && !Contains(Upper(d), "NOT RUN") && !Contains(d, "not run")
      && !Contains(d, "still running")
    ensures Gives("rc=0 verdict=needs_attention" + rest, "needs")
  {
    hide Contains, Upper, Gives, Lower, VerdictWordLike;
    NeedsParts(rest);
    NeedsIsAWord();
    PrintedGives("needs", "_attention" + rest);
  }

  lemma NeedsParts(rest: string)
    ensures "rc=0 verdict=needs_attention" + rest == "rc=0 verdict=" + ("needs" + ("_attention" + rest))
    ensures ("_attention" + rest)[0] == '_'
  {
  }

  lemma NeedsIsAWord()
    ensures VerdictWordLike(Lower("needs")) && Lower("needs") == "needs" && !VerdictChar(LowChar('_'))
  {
  }

  /** A review that did not exit with 0 gives no verdict, whatever its text says. */
  lemma UncleanGivesNothing(code: string, rest: string, w: string)
    requires code != "" && code != "0" && (forall k | 0 <= k < |code| :: '0' <= code[k] <= '9')
    requires (rest != "" ==> !IsWordChar(rest[0])) && !Contains(rest, "rc=")
    ensures !Gives("rc=" + code + rest, w)
  {
    hide Lower;
    var d := "rc=" + code + rest;
    assert d == "rc=" + (code + rest);
    AtFront("rc=", code + rest);
    forall i: nat | At(d, i, "rc=0")
      ensures i + 4 < |d| && IsWordChar(d[i + 4])
    {
      WhereExitStands(code, rest, i);
    }
  }

  lemma StandsBehind(front: string, rest: string, i: nat)
    requires At(front + rest, i, "rc=0") && i >= |front|
    ensures Contains(rest, "rc=")
  {
    var d, j := front + rest, i - |front|;
    assert rest[j..j + 3] == d[i..i + 4][..3];
    assert At(rest, j, "rc=");
  }

  lemma WhereExitStands(code: string, rest: string, i: nat)
    requires code != "" && code != "0" && (forall k | 0 <= k < |code| :: '0' <= code[k] <= '9')
    requires !Contains(rest, "rc=") && At("rc=" + code + rest, i, "rc=0")
    ensures i == 0 && |code| > 1 && ("rc=" + code + rest)[4] == code[1]
  {
    var d := "rc=" + code + rest;
    assert d[i] == 'r' && d[i + 1] == 'c' && d[i + 2] == '=' && d[i + 3] == '0' by {
      AtChars(d, i, "rc=0", 0);
      AtChars(d, i, "rc=0", 1);
      AtChars(d, i, "rc=0", 2);
      AtChars(d, i, "rc=0", 3);
    }
    var n := 3 + |code|;
    assert forall k | 3 <= k < n :: d[k] == code[k - 3];
    if i >= n {
      StandsBehind("rc=" + code, rest, i);
    }
    if i == 0 {
      assert code[0] == '0';
      assert |code| == 1 ==> code == "0";
    }
  }
}
