/** What the dispatcher does with a finished gate: `codex_opinion`, `failed_rows`, `not_run_rows` and
    `decide` of autogate.py, over the gate file as it was printed and read back. */
module GateDecide {
  import opened PyText
  import opened GateReport
  import opened GateParse
  import opened GateRoundTrip

  // ---- the Codex opinion --------------------------------------------------------------------

  /** `\brc=0\b` stands somewhere in the text. */
  predicate ExitedClean(d: string) {
    exists i: nat | i <= |d| ::
      At(d, i, "rc=0") && (i > 0 ==> !IsWordChar(d[i - 1])) && (i + 4 < |d| ==> !IsWordChar(d[i + 4]))
  }

  function LetterRun(s: string): (n: nat)
    ensures n <= |s|
  {
    if s != "" && ('a' <= s[0] <= 'z' || s[0] == '-') then 1 + LetterRun(s[1..]) else 0
  }

  /** The first `verdict=([a-z-]+)` at or after `i`, in lower-case text. */
  function VerdictWord(s: string, i: nat): string
    decreases |s| - i
  {
    if i + 8 > |s| then ""
    else if At(s, i, "verdict=") && LetterRun(s[i + 8..]) > 0 then s[i + 8..][..LetterRun(s[i + 8..])]
    else VerdictWord(s, i + 1)
  }

  const REAL_VERDICTS := {"needs-attention", "reject", "needs_attention", "request-changes"}

  datatype Opinion = Opinion(genuine: bool, word: string)

  /** A detail that says the review did not take place. */
  predicate SaysNoReview(d: string) {
    || Contains(d, "WALLED") || Contains(Upper(d), "NOT RUN") || Contains(d, "not run") || Contains(d, "still running")
  }

  predicate NoAnswer(d: string) {
    d == "" || SaysNoReview(d) || (Contains(d, "rc=") && !ExitedClean(d))
  }

  function CodexOpinion(d: string): Opinion {
    var v := VerdictWord(Lower(d), 0);
    if NoAnswer(d) || v == "" || v == "none" then Opinion(false, "NONE")
    else Opinion(v in REAL_VERDICTS, v)
  }

  // ---- decide -------------------------------------------------------------------------------

  const CODEX_ROW := "codex adversarial review"

  function CodexDetail(rows: map<string, Row>): string {
    if CODEX_ROW in rows then rows[CODEX_ROW].detail else ""
  }

  function FailedRows(rows: map<string, Row>): set<string> {
    set n | n in rows && rows[n].status == Fail
  }

  /** The rows without a result, whether unrun or undeclared. */
  function NotRunRows(rows: map<string, Row>): set<string> {
    set n | n in rows && Value(rows[n].status) == None
  }

  /** The rows that did not run, apart from those never declared. */
  function Unrun(rows: map<string, Row>, undeclared: seq<string>): set<string> {
    set n | n in NotRunRows(rows) && n !in undeclared
  }

  const MAX_AUTO_FAILS := 2

  /** What earlier automatic reworks of the item left behind. */
  datatype History = History(fails: nat, classes: set<string>)

  datatype Why =
    | Approvable
    | Unproven(unrun: set<string>, missing: seq<string>)
    | NotCompleted
    | Disagreement
    | ReviewerApproved(despite: set<string>)
    | NoOpinion
    | NotConverging(fails: nat)
    | SameAgain(repeated: set<string>)

  datatype Action = Rework(word: string) | Escalate(why: Why)

  predicate SaysNotCompleted(verdict: string) {
    Contains(Upper(verdict), "NOT COMPLETED") || Contains(Upper(verdict), "CRASH")
  }

  function Decide(g: Gate, found: set<string>, hist: History): Action {
    var v := Upper(g.verdict);
    var o := CodexOpinion(CodexDetail(g.rows));
    if At(v, 0, "PASS") then Escalate(Approvable)
    else if At(v, 0, "INCOMPLETE") then
      Escalate(Unproven(Unrun(g.rows, g.undeclared), g.undeclared))
    else if SaysNotCompleted(g.verdict) then Escalate(NotCompleted)
    else if g.disagree then Escalate(Disagreement)
    else if !o.genuine && o.word == "approve" then Escalate(ReviewerApproved(FailedRows(g.rows)))
    else if !o.genuine then Escalate(NoOpinion)
    else if hist.fails + 1 > MAX_AUTO_FAILS then Escalate(NotConverging(hist.fails + 1))
    else if found * hist.classes != {} then Escalate(SameAgain(found * hist.classes))
    else Rework(o.word)
  }

  // ---- how the headline opens always arrives ------------------------------------------------

  /** Words in capitals, with blanks between them. */
  predicate Phrase(w: string) {
    && w != "" && w[0] != ' ' && w[|w| - 1] != ' '
    && forall k | 0 <= k < |w| :: 'A' <= w[k] <= 'Z' || w[k] == ' '
  }

  lemma PhraseIsPlain(w: string)
    requires Phrase(w)
    ensures w != "" && !IsSpace(w[0]) && !IsSpace(w[|w| - 1]) && Upper(w) == w
    ensures forall k | 0 <= k < |w| :: !IsDash(w[k]) && !IsBreak(w[k])
  {
  }

  lemma FrontIsOneLine(item: string, word: string)
    requires IsWord(item) && Phrase(word)
    ensures OneLine("# GATE " + item + " \U{2014} " + word)
  {
  }

  /** The first line of a text that opens with one-line `front` and goes on to break opens with `front`. */
  lemma FirstLineKeepsFront(front: string, rest: string)
    requires OneLine(front) && front != ""
    ensures SplitLines(front + rest) != []
    ensures front <= SplitLines(front + rest)[0]
  {
  }

  /** Behind the front of the header line, the verdict that is read opens with the words printed there. */
  lemma WordReadBack(item: string, word: string, x: string)
    requires IsWord(item) && Phrase(word)
    ensures At(ReadVerdict("# GATE " + item + " \U{2014} " + (word + x)), 0, word)
  {
    hide ReadVerdict, CutVerdict, Strip, IsSpace, IsDash, IsBreak, IsWord, Phrase;
    var r := word + x;
    PhraseIsPlain(word);
    assert forall k | 0 <= k < |word| :: r[k] == word[k];
    VerdictStartsAfterDash(item, r);
    CutKeepsFront(r, 1, |word|);
    StripKeepsFront(CutVerdict(r, 1), |word|);
    assert r[..|word|] == word;
  }

  /** Whatever the details, advisory texts and header fields hold, the words the headline opens with are read
      back from the file. */
  lemma HeadWordSurvives(h: Header, cs: seq<Check>, word: string)
    requires IsWord(h.item) && Phrase(word) && At(h.verdict, 0, word)
    ensures At(Parse(Render(h, cs)).verdict, 0, word)
  {
    hide SplitLines, TakeLines, IsWord, Phrase, OneLine, ReadVerdict, RowText;
    var front := "# GATE " + h.item + " \U{2014} " + word;
    var s := Render(h, cs);
    VerdictFront(h, cs, word);
    FrontIsOneLine(h.item, word);
    FirstLineKeepsFront(front, s[|front|..]);
    var line := SplitLines(s)[0];
    var x := line[|front|..];
    assert line == front + x;
    assert line == "# GATE " + h.item + " \U{2014} " + (word + x);
    WordReadBack(h.item, word, x);
    VerdictIsFirst(Gate(ReadVerdict(line), map[], [], false, ""), SplitLines(s));
  }

  lemma VerdictFront(h: Header, cs: seq<Check>, word: string)
    requires At(h.verdict, 0, word)
    ensures var front := "# GATE " + h.item + " \U{2014} " + word;
      |front| <= |Render(h, cs)| && Render(h, cs) == front + Render(h, cs)[|front|..]
  {
  }

  lemma {:induction false} VerdictIsFirst(g: Gate, lines: seq<string>)
    ensures TakeLines(g, lines).verdict == g.verdict
  {
    hide ReadRow, ReadSha, Contains;
    if lines == [] {
    } else {
      VerdictIsFirst(g, lines[..|lines| - 1]);
    }
  }

  lemma UpperFront(v: string, w: string)
    requires At(v, 0, w) && Phrase(w)
    ensures At(Upper(v), 0, w)
  {
  }

  // ---- what may be acted on -----------------------------------------------------------------

  /** Only a failure is ever handed back: whatever else the gate file says, `decide` answers rework only if
      some recorded check failed. */
  lemma ReworkNeedsFailure(h: Header, cs: seq<Check>, found: set<string>, hist: History)
    requires IsWord(h.item) && h.verdict == OutcomeOf(cs).verdict
    ensures Decide(Parse(Render(h, cs)), found, hist).Rework?
        ==> exists k | 0 <= k < |cs| :: cs[k].Rec? && cs[k].passed == Fail
  {
    hide Parse, Render, CodexOpinion, IsWord, Phrase, OutcomeOf;
    WordsArePhrases();
    HeadlineWords(cs);
    FrontOfIncomplete(h.verdict);
    AtWhole("PASS");
    if NothingFailed(cs) {
      var word := if At(h.verdict, 0, "PASS") then "PASS" else "INCOMPLETE";
      HeadWordSurvives(h, cs, word);
      UpperFront(Parse(Render(h, cs)).verdict, word);
    }
  }

  lemma WordsArePhrases()
    ensures Phrase("PASS") && Phrase("INCOMPLETE") && Phrase("FAIL") && Phrase("NOT COMPLETED")
  {
  }

  /** A gate that crashed is never handed back: whatever checks it had recorded by then, its report, headed NOT
      COMPLETED, always goes to a person. */
  lemma CrashIsNotHandedBack(h: Header, cs: seq<Check>, found: set<string>, hist: History)
    requires IsWord(h.item) && h.verdict == "NOT COMPLETED"
    ensures Decide(Parse(Render(h, cs)), found, hist) == Escalate(NotCompleted)
  {
    hide Parse, Render, CodexOpinion, IsWord, Phrase, Unrun, FailedRows;
    var v := Parse(Render(h, cs)).verdict;
    WordsArePhrases();
    AtWhole("NOT COMPLETED");
    HeadWordSurvives(h, cs, "NOT COMPLETED");
    UpperFront(v, "NOT COMPLETED");
    NotCompletedIsNeither(Upper(v));
  }

  lemma NotCompletedIsNeither(v: string)
    ensures At(v, 0, "NOT COMPLETED") ==> !At(v, 0, "PASS") && !At(v, 0, "INCOMPLETE") && Contains(v, "NOT COMPLETED")
  {
    if At(v, 0, "NOT COMPLETED") {
      AtChars(v, 0, "NOT COMPLETED", 0);
      NotAt(v, 0, "PASS", 0);
      NotAt(v, 0, "INCOMPLETE", 0);
    }
  }

  lemma AtWhole(w: string)
    ensures At(w, 0, w)
  {
  }

  lemma FrontOfIncomplete(v: string)
    ensures At(v, 0, "INCOMPLETE (") ==> At(v, 0, "INCOMPLETE")
  {
  }

  predicate DistinctNames(cs: seq<Check>) {
    forall j, k | 0 <= j < k < |cs| && cs[j].Rec? && cs[k].Rec? :: cs[j].name != cs[k].name
  }

  lemma {:induction false} InNames(cs: seq<Check>, p: Passed, name: string)
    ensures name in NamesOf(cs, p)
       <==> exists k | 0 <= k < |cs| :: cs[k].Rec? && cs[k].passed == p && cs[k].name == name
  {
    if cs == [] {
    } else {
      var n := |cs| - 1;
      InNames(cs[..n], p, name);
      assert forall k | 0 <= k < n :: cs[..n][k] == cs[k];
    }
  }

  /** With distinct names, the rows read back with a given status are the names recorded with it. */
  lemma StatusRead(cs: seq<Check>, p: Passed, name: string)
    requires DistinctNames(cs)
    ensures name in NamesOf(cs, p) <==> name in RowsOf(cs) && RowsOf(cs)[name].status == p
  {
    hide Strip, RowsOf, NamesOf;
    InNames(cs, p, name);
    NamesRead(cs, name);
    if name in RowsOf(cs) {
      var k :| 0 <= k < |cs| && cs[k].Rec? && cs[k].name == name;
      LastRecordRead(cs, k);
    }
  }

  lemma UnrunRead(cs: seq<Check>)
    requires DistinctNames(cs)
    ensures Unrun(RowsOf(cs), NamesOf(cs, Undeclared)) == set n | n in NamesOf(cs, NotRun)
  {
    hide RowsOf, NamesOf, DistinctNames;
    var nr, was := Unrun(RowsOf(cs), NamesOf(cs, Undeclared)), set n | n in NamesOf(cs, NotRun);
    forall n
      ensures n in nr <==> n in was
    {
      StatusRead(cs, NotRun, n);
      StatusRead(cs, Undeclared, n);
    }
  }

  /** A gate in which nothing failed but some check has no result goes to a person with both lists right: the
      checks that did not run, and apart from them those the item never declared. */
  lemma UnprovenNamesBothKinds(h: Header, cs: seq<Check>, found: set<string>, hist: History)
    requires Heads(h, cs) && (forall k | 0 <= k < |cs| :: Plain(cs[k])) && DistinctNames(cs)
    ensures OutcomeOf(cs).kind == GateIncomplete ==>
      Decide(Parse(Render(h, cs)), found, hist)
        == Escalate(Unproven((set n | n in NamesOf(cs, NotRun)), NamesOf(cs, Undeclared)))
  {
    hide Parse, Render, CodexOpinion, CodexDetail, RowsOf, NamesOf, Plain, OutcomeOf, Mentions, NoDash, HeaderLines,
      IsSha, OneLine, IsWord, DistinctNames, At, Unrun, SaysNotCompleted, Upper;
    var g := Parse(Render(h, cs));
    ReadsBack(h, cs);
    UnrunRead(cs);
    if OutcomeOf(cs).kind == GateIncomplete {
      IncompleteHeadline(h, cs);
      NotIncompletePass(Upper(g.verdict));
    }
  }

  lemma NotIncompletePass(v: string)
    ensures At(v, 0, "INCOMPLETE") ==> !At(v, 0, "PASS")
    ensures At(v, 0, "FAIL") ==> !At(v, 0, "PASS") && !At(v, 0, "INCOMPLETE")
  {
    assert At(v, 0, "INCOMPLETE") ==> v[0] == v[0..10][0];
    assert At(v, 0, "FAIL") ==> v[0] == v[0..4][0];
    assert At(v, 0, "PASS") ==> v[0] == v[0..4][0];
  }

  lemma PlainNamesShow(cs: seq<Check>)
    requires forall k | 0 <= k < |cs| :: Plain(cs[k])
    ensures !OnlyNameless(cs)
  {
    hide NamesOf, NoStars, Trimmed, OneLine, Quiet;
    if OnlyNameless(cs) {
      var p := if NamesOf(cs, NotRun) != [] then NotRun else Undeclared;
      InNames(cs, p, NamesOf(cs, p)[0]);
    }
  }

  lemma IncompleteHeadline(h: Header, cs: seq<Check>)
    requires IsWord(h.item) && h.verdict == OutcomeOf(cs).verdict && forall k | 0 <= k < |cs| :: Plain(cs[k])
    requires OutcomeOf(cs).kind == GateIncomplete
    ensures At(Upper(Parse(Render(h, cs)).verdict), 0, "INCOMPLETE")
  {
    hide Parse, Render, IsWord, Phrase, OutcomeOf, Plain, OnlyNameless;
    WordsArePhrases();
    OutcomesAgree(cs);
    PlainNamesShow(cs);
    HeadWordSurvives(h, cs, "INCOMPLETE");
    UpperFront(Parse(Render(h, cs)).verdict, "INCOMPLETE");
  }

  lemma DecideRework(g: Gate, found: set<string>, hist: History)
    ensures Decide(g, found, hist).Rework? <==>
      (&& !At(Upper(g.verdict), 0, "PASS") && !At(Upper(g.verdict), 0, "INCOMPLETE") && !SaysNotCompleted(g.verdict)
       && !g.disagree && CodexOpinion(CodexDetail(g.rows)).genuine
       && hist.fails < MAX_AUTO_FAILS && found !! hist.classes)
  {
    hide At, Upper, SaysNotCompleted, CodexOpinion, CodexDetail, Unrun, FailedRows;
    var both := found * hist.classes;
    assert forall c | c in found && c in hist.classes :: c in both;
    assert both != {} ==> exists c :: c in both;
  }

  lemma FailRead(h: Header, cs: seq<Check>)
    requires IsWord(h.item) && h.verdict == OutcomeOf(cs).verdict
    ensures OutcomeOf(cs).kind == GateFail ==> At(Upper(Parse(Render(h, cs)).verdict), 0, "FAIL")
  {
    hide Parse, Render, IsWord, Phrase, VerdictOf;
    WordsArePhrases();
    HeadlineWords(cs);
    if OutcomeOf(cs).kind == GateFail {
      HeadWordSurvives(h, cs, "FAIL");
      UpperFront(Parse(Render(h, cs)).verdict, "FAIL");
    }
  }

  lemma HeadsSay(h: Header, cs: seq<Check>)
    requires Heads(h, cs)
    ensures IsWord(h.item) && h.verdict == OutcomeOf(cs).verdict
  {
  }

  lemma ReworkFails(h: Header, cs: seq<Check>, found: set<string>, hist: History)
    requires IsWord(h.item) && h.verdict == OutcomeOf(cs).verdict
    ensures Decide(Parse(Render(h, cs)), found, hist).Rework? ==> OutcomeOf(cs).kind == GateFail
  {
    hide Parse, Render, Decide, IsWord, VerdictOf;
    ReworkNeedsFailure(h, cs, found, hist);
  }

  // ---- advisory rows after parsing ----------------------------------------------------------

  lemma {:induction false} RecordedRows(cs: seq<Check>)
    ensures RowsOf(Recorded(cs)) == RowsOf(cs)
  {
    hide Strip;
    if cs == [] {
    } else {
      var n := |cs| - 1;
      RecordedRows(cs[..n]);
      var r := Recorded(cs[..n]);
      if cs[n].Rec? {
        assert (r + [cs[n]])[..|r|] == r;
      } else {
        assert r + [] == r;
      }
    }
  }

  lemma {:induction false} RecordedArePlain(cs: seq<Check>)
    requires forall k | 0 <= k < |cs| :: Plain(cs[k])
    ensures forall k | 0 <= k < |Recorded(cs)| :: Plain(Recorded(cs)[k])
  {
    hide Plain;
    if cs == [] {
    } else {
      RecordedArePlain(cs[..|cs| - 1]);
    }
  }

  lemma {:induction false} AdvisoryOnlyMentions(cs: seq<Check>)
    ensures Mentions(SplitLines(RowText(Recorded(cs)))) ==> Mentions(SplitLines(RowText(cs)))
  {
    hide SplitLines, TextLines, RowLine, Mentions, RowText;
    if cs == [] {
    } else {
      var n := |cs| - 1;
      AdvisoryOnlyMentions(cs[..n]);
      SplitRowText(cs);
      MentionsConcat(SplitLines(RowText(cs[..n])), TextLines(RowLine(cs[n])));
      var r := Recorded(cs[..n]);
      if cs[n].Rec? {
        assert (r + [cs[n]])[..|r|] == r;
        SplitRowText(r + [cs[n]]);
        MentionsConcat(SplitLines(RowText(r)), TextLines(RowLine(cs[n])));
      } else {
        assert r + [] == r;
      }
    }
  }

  /** Advisory rows can only hold a rework back, never cause one: without them the file reads the same,
      except that the disagreement mark may be gone; so a gate reworked with them is reworked without. */
  lemma AdvisoryOnlyHoldsBack(h: Header, cs: seq<Check>, found: set<string>, hist: History)
    requires Heads(h, cs) && forall k | 0 <= k < |cs| :: Plain(cs[k])
    ensures var with, bare := Parse(Render(h, cs)), Parse(Render(h, Recorded(cs)));
      && bare == with.(disagree := bare.disagree) && (bare.disagree ==> with.disagree)
      && (Decide(with, found, hist).Rework? ==> Decide(bare, found, hist).Rework?)
  {
    hide Parse, Render, CodexOpinion, CodexDetail, IsWord, RowsOf, NamesOf, Plain, OutcomeOf, Mentions, NoDash,
      HeaderLines, IsSha, OneLine, SplitLines, RowText, SaysNotCompleted, Recorded;
    var bare := Recorded(cs);
    RecordedRecorded(cs);
    AdvisoryRowsDecideNothing(cs, bare);
    RecordedArePlain(cs);
    ReadsBack(h, cs);
    ReadsBack(h, bare);
    RecordedRows(cs);
    RecordedNames(cs, Undeclared);
    AdvisoryOnlyMentions(cs);
  }

  lemma {:induction false} RecordedRecorded(cs: seq<Check>)
    ensures Recorded(Recorded(cs)) == Recorded(cs)
  {
    if cs == [] {
    } else {
      var n := |cs| - 1;
      RecordedRecorded(cs[..n]);
      var r := Recorded(cs[..n]);
      if cs[n].Rec? {
        assert (r + [cs[n]])[..|r|] == r;
      } else {
        assert r + [] == r;
      }
    }
  }
}
