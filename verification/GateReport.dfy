/** How a merge gate records its checks and words its verdict: `rec`, `warn`, `verdict_of`,
    `render_gate_md` and the outcome tail of mergegate.py. */
module GateReport {
  import opened PyText

  /** The four values `rec` accepts: True, False, None and UNDECLARED. */
  datatype Passed = Pass | Fail | NotRun | Undeclared

  /** A row of the gate file: a recorded check, the hand-merge note, or an advisory text. */
  datatype Check =
    | Rec(name: string, passed: Passed, detail: string)
    | Info(name: string, status: string, detail: string)
    | Warn(text: string)

  function StatusWord(p: Passed): string {
    match p
    case Pass => "PASS"
    case Fail => "FAIL"
    case NotRun => "NOT RUN"
    case Undeclared => "NOT DECLARED"
  }

  // ---- what the rows say, independently of how the gate keeps its state ----------------------

  predicate NothingFailed(cs: seq<Check>) {
    forall k | 0 <= k < |cs| :: !(cs[k].Rec? && cs[k].passed == Fail)
  }

  function NamesOf(cs: seq<Check>, p: Passed): seq<string> {
    if cs == [] then []
    else
      var c := cs[|cs| - 1];
      NamesOf(cs[..|cs| - 1], p) + if c.Rec? && c.passed == p then [c.name] else []
  }

  /** The recorded checks alone. */
  function Recorded(cs: seq<Check>): seq<Check> {
    if cs == [] then []
    else Recorded(cs[..|cs| - 1]) + if cs[|cs| - 1].Rec? then [cs[|cs| - 1]] else []
  }

  /** The gate run's own state: `state` and `checks`, updated in place by `rec` and `warn`. */
  class GateRun {
    var ok: bool
    var notRun: seq<string>
    var undeclared: seq<string>
    var checks: seq<Check>

    /** The three summaries agree with the rows. */
    ghost predicate Valid()
      reads this
    {
      && (ok <==> NothingFailed(checks))
      && notRun == NamesOf(checks, NotRun)
      && undeclared == NamesOf(checks, Undeclared)
    }

    constructor ()
      ensures Valid() && checks == []
    {
      ok, notRun, undeclared, checks := true, [], [], [];
    }

    method Record(name: string, passed: Passed, detail: string)
      requires Valid()
      modifies this
      ensures Valid() && checks == old(checks) + [Rec(name, passed, detail)]
    {
      assert (checks + [Rec(name, passed, detail)])[..|checks|] == checks;
      assert forall k | 0 <= k < |checks| :: (checks + [Rec(name, passed, detail)])[k] == checks[k];
      if passed == Undeclared {
        undeclared := undeclared + [name];
      } else if passed == NotRun {
        notRun := notRun + [name];
      } else {
        ok := ok && passed == Pass;
      }
      checks := checks + [Rec(name, passed, detail)];
      assert !checks[|checks| - 1].Warn?;
    }

    /** An advisory row: it is shown, and touches nothing else. */
    method Advise(text: string)
      requires Valid()
      modifies this`checks
      ensures Valid() && checks == old(checks) + [Warn(text)]
    {
      assert (checks + [Warn(text)])[..|checks|] == checks;
      assert forall k | 0 <= k < |checks| :: (checks + [Warn(text)])[k] == checks[k];
      checks := checks + [Warn(text)];
    }

    /** The note saying whether the files touched need a hand merge. */
    method NoteHandMerge(required: bool, detail: string)
      requires Valid()
      modifies this`checks
      ensures Valid() && checks == old(checks) + [HandMergeRow(required, detail)]
    {
      var row := HandMergeRow(required, detail);
      assert (checks + [row])[..|checks|] == checks;
      assert forall k | 0 <= k < |checks| :: (checks + [row])[k] == checks[k];
      checks := checks + [row];
    }

    /** The tail of the run: headline, event kind, mergeable flag and exit code. */
    method Finish() returns (verdict: string, kind: EventKind, mergeable: bool, code: nat)
      requires Valid()
      ensures Outcome(verdict, kind, mergeable, code) == OutcomeOf(checks)
    {
      verdict := VerdictOf(ok, notRun, undeclared);
      kind := if !ok then GateFail else if notRun != [] || undeclared != [] then GateIncomplete else GatePass;
      mergeable := ok && notRun == [] && undeclared == [];
      code := if ok && notRun == [] && undeclared == [] then 0 else if ok then 3 else 1;
    }
  }

  function HandMergeRow(required: bool, detail: string): Check {
    Info("hand-merge required", if required then "YES" else "no", detail)
  }

  // ---- verdict_of ---------------------------------------------------------------------------

  function NonEmpty(names: seq<string>): seq<string> {
    if names == [] then [] else (if names[0] == "" then [] else [names[0]]) + NonEmpty(names[1..])
  }

  function Join(sep: string, parts: seq<string>): string {
    if parts == [] then "" else if |parts| == 1 then parts[0] else parts[0] + sep + Join(sep, parts[1..])
  }

  /** A list of names with a word for what is wrong with them, if there are any. */
  function Said(names: string, word: string): string {
    if names == "" then "" else names + word
  }

  function Reason(notRun: seq<string>, undeclared: seq<string>): string {
    var unrun, undecl := Join(", ", NonEmpty(notRun)), Join(", ", NonEmpty(undeclared));
    Join("; ", NonEmpty([Said(unrun, " not run"), Said(undecl, " not declared")]))
  }

  function VerdictOf(ok: bool, notRun: seq<string>, undeclared: seq<string>): string {
    var why := Reason(notRun, undeclared);
    if !ok then "FAIL" + if why == "" then "" else " (" + why + ")"
    else if why != "" then "INCOMPLETE (" + why + ")"
    else "PASS"
  }

  // ---- the outcome --------------------------------------------------------------------------

  datatype EventKind = GatePass | GateFail | GateIncomplete

  datatype Outcome = Outcome(verdict: string, kind: EventKind, mergeable: bool, code: nat)

  function OutcomeOf(cs: seq<Check>): Outcome {
    var ok, notRun, undeclared := NothingFailed(cs), NamesOf(cs, NotRun), NamesOf(cs, Undeclared);
    Outcome(VerdictOf(ok, notRun, undeclared),
            if !ok then GateFail else if notRun != [] || undeclared != [] then GateIncomplete else GatePass,
            ok && notRun == [] && undeclared == [],
            if ok && notRun == [] && undeclared == [] then 0 else if ok then 3 else 1)
  }

  lemma NonEmptyOfAny(names: seq<string>)
    ensures NonEmpty(names) == [] <==> forall k | 0 <= k < |names| :: names[k] == ""
    ensures forall k | 0 <= k < |NonEmpty(names)| :: NonEmpty(names)[k] != ""
  {
  }

  lemma JoinOfNonEmpty(sep: string, parts: seq<string>)
    requires forall k | 0 <= k < |parts| :: parts[k] != ""
    ensures Join(sep, parts) == "" <==> parts == []
  {
  }

  /** The reason is empty exactly when every unrun or undeclared check has an empty name. */
  lemma ReasonEmptyExactly(notRun: seq<string>, undeclared: seq<string>)
    ensures Reason(notRun, undeclared) == ""
       <==> ((forall k | 0 <= k < |notRun| :: notRun[k] == "")
             && (forall k | 0 <= k < |undeclared| :: undeclared[k] == ""))
  {
    NonEmptyOfAny(notRun);
    NonEmptyOfAny(undeclared);
    JoinOfNonEmpty(", ", NonEmpty(notRun));
    JoinOfNonEmpty(", ", NonEmpty(undeclared));
    var unrun, undecl := Join(", ", NonEmpty(notRun)), Join(", ", NonEmpty(undeclared));
    var parts := [Said(unrun, " not run"), Said(undecl, " not declared")];
    NonEmptyOfAny(parts);
    JoinOfNonEmpty("; ", NonEmpty(parts));
    assert (parts[0] == "" <==> unrun == "") && (parts[1] == "" <==> undecl == "");
    assert |parts| == 2;
  }

  /** A check that produced no result, and no check that produced none has a name to show for it. */
  ghost predicate OnlyNameless(cs: seq<Check>) {
    && NamesOf(cs, NotRun) + NamesOf(cs, Undeclared) != []
    && (forall k | 0 <= k < |NamesOf(cs, NotRun)| :: NamesOf(cs, NotRun)[k] == "")
    && (forall k | 0 <= k < |NamesOf(cs, Undeclared)| :: NamesOf(cs, Undeclared)[k] == "")
  }

  /** The word the headline opens with. */
  function WordOf(k: EventKind): string {
    match k case GatePass => "PASS" case GateFail => "FAIL" case GateIncomplete => "INCOMPLETE"
  }

  lemma HeadlineWords(cs: seq<Check>)
    ensures var o := OutcomeOf(cs); var why := Reason(NamesOf(cs, NotRun), NamesOf(cs, Undeclared));
      && (!NothingFailed(cs) ==> At(o.verdict, 0, "FAIL"))
      && (NothingFailed(cs) && why != "" ==> At(o.verdict, 0, "INCOMPLETE ("))
      && (NothingFailed(cs) && why == "" ==> o.verdict == "PASS")
  {
  }

  /** Event kind, mergeable flag and exit code always agree. The headline agrees with them too, if and only
      if it is not the case that nothing failed while every check without a result is nameless: the
      headline then says PASS and the rest say INCOMPLETE. */
  lemma OutcomesAgree(cs: seq<Check>)
    ensures var o := OutcomeOf(cs);
      && (o.mergeable <==> o.kind == GatePass)
      && (o.code == 0 <==> o.kind == GatePass) && (o.code == 1 <==> o.kind == GateFail)
      && (o.code == 3 <==> o.kind == GateIncomplete)
      && (At(o.verdict, 0, WordOf(o.kind)) <==> !(NothingFailed(cs) && OnlyNameless(cs)))
  {
    HeadlineWords(cs);
    ReasonEmptyExactly(NamesOf(cs, NotRun), NamesOf(cs, Undeclared));
    var v := OutcomeOf(cs).verdict;
    WordsDiffer(v);
  }

  lemma WordsDiffer(v: string)
    ensures At(v, 0, "INCOMPLETE (") ==> At(v, 0, "INCOMPLETE") && !At(v, 0, "PASS") && !At(v, 0, "FAIL")
    ensures At(v, 0, "FAIL") ==> !At(v, 0, "PASS") && !At(v, 0, "INCOMPLETE")
    ensures v == "PASS" ==> At(v, 0, "PASS") && !At(v, 0, "INCOMPLETE")
  {
    if At(v, 0, "INCOMPLETE (") {
      assert v[0] == v[0..12][0] == 'I';
      assert v[0..10] == v[0..12][0..10];
    }
    if At(v, 0, "FAIL") {
      assert v[0] == v[0..4][0] == 'F';
    }
    if |v| >= 4 && v[0] != 'P' {
      assert v[0..4][0] == v[0];
    }
    if |v| >= 10 && v[0] != 'I' {
      assert v[0..10][0] == v[0];
    }
  }

  lemma {:induction false} NoNamesExactly(cs: seq<Check>, p: Passed)
    ensures NamesOf(cs, p) == [] <==> forall k | 0 <= k < |cs| :: !(cs[k].Rec? && cs[k].passed == p)
  {
    if cs == [] {
    } else {
      NoNamesExactly(cs[..|cs| - 1], p);
    }
  }

  /** What the flags mean: a gate is mergeable if and only if every recorded check passed, and its exit
      code is 1 if and only if some recorded check failed. */
  lemma MergeableExactly(cs: seq<Check>)
    ensures OutcomeOf(cs).mergeable <==> forall k | 0 <= k < |cs| :: cs[k].Rec? ==> cs[k].passed == Pass
    ensures OutcomeOf(cs).code == 1 <==> exists k | 0 <= k < |cs| :: cs[k].Rec? && cs[k].passed == Fail
  {
    hide VerdictOf;
    NoNamesExactly(cs, NotRun);
    NoNamesExactly(cs, Undeclared);
  }

  // ---- the headline says why ----------------------------------------------------------------

  lemma ContainsWithin(a: string, s: string, b: string, p: string)
    requires Contains(s, p)
    ensures Contains(a + s + b, p)
  {
    var i: nat :| i <= |s| && At(s, i, p);
    var t := a + s + b;
    assert t[|a| + i..|a| + i + |p|] == s[i..i + |p|];
    assert At(t, |a| + i, p);
  }

  lemma ContainsItself(s: string)
    ensures Contains(s, s)
  {
    assert s[0..|s|] == s;
    assert At(s, 0, s);
  }

  lemma ContainsThrough(s: string, p: string, q: string)
    requires Contains(s, p) && Contains(p, q)
    ensures Contains(s, q)
  {
    var i: nat :| i <= |s| && At(s, i, p);
    assert s == s[..i] + p + s[i + |p|..];
    ContainsWithin(s[..i], p, s[i + |p|..], q);
  }

  lemma {:induction false} JoinContains(sep: string, parts: seq<string>, part: string)
    requires part in parts
    ensures Contains(Join(sep, parts), part)
  {
    hide Contains;
    ContainsItself(part);
    if |parts| == 1 {
    } else if part == parts[0] {
      ContainsWithin("", part, sep + Join(sep, parts[1..]), part);
      assert Join(sep, parts) == "" + part + (sep + Join(sep, parts[1..]));
    } else {
      JoinContains(sep, parts[1..], part);
      ContainsWithin(parts[0] + sep, Join(sep, parts[1..]), "", part);
      assert Join(sep, parts) == parts[0] + sep + Join(sep, parts[1..]) + "";
    }
  }

  lemma {:induction false} NonEmptyKeeps(names: seq<string>, name: string)
    requires name in names && name != ""
    ensures name in NonEmpty(names)
  {
    if name == names[0] {
    } else {
      NonEmptyKeeps(names[1..], name);
    }
  }

  /** A list of names with a word for what is wrong with them shows the word and every name. */
  lemma PartShows(names: seq<string>, name: string, word: string)
    requires name in names && name != ""
    ensures var listed := Join(", ", NonEmpty(names));
      listed != "" && Contains(listed + word, name) && Contains(listed + word, word)
  {
    hide Contains;
    var listed := Join(", ", NonEmpty(names));
    NonEmptyKeeps(names, name);
    JoinContains(", ", NonEmpty(names), name);
    NonEmptyOfAny(names);
    JoinOfNonEmpty(", ", NonEmpty(names));
    ContainsWithin("", listed, word, name);
    assert "" + listed + word == listed + word;
    ContainsItself(word);
    ContainsWithin(listed, word, "", word);
    assert listed + word + "" == listed + word;
  }

  lemma ReasonShows(notRun: seq<string>, undeclared: seq<string>, name: string)
    requires name != ""
    ensures var why := Reason(notRun, undeclared);
      && (name in notRun ==> Contains(why, name) && Contains(why, " not run"))
      && (name in undeclared ==> Contains(why, name) && Contains(why, " not declared"))
  {
    hide Contains, Join, NonEmpty;
    var unrun, undecl := Join(", ", NonEmpty(notRun)), Join(", ", NonEmpty(undeclared));
    var parts := [Said(unrun, " not run"), Said(undecl, " not declared")];
    if name in notRun {
      PartShows(notRun, name, " not run");
      PartJoined(parts, 0);
      ContainsThrough(Reason(notRun, undeclared), parts[0], name);
      ContainsThrough(Reason(notRun, undeclared), parts[0], " not run");
    }
    if name in undeclared {
      PartShows(undeclared, name, " not declared");
      PartJoined(parts, 1);
      ContainsThrough(Reason(notRun, undeclared), parts[1], name);
      ContainsThrough(Reason(notRun, undeclared), parts[1], " not declared");
    }
  }

  lemma PartJoined(parts: seq<string>, k: nat)
    requires k < |parts| && parts[k] != ""
    ensures Contains(Join("; ", NonEmpty(parts)), parts[k])
  {
    hide Contains, Join, NonEmpty;
    NonEmptyKeeps(parts, parts[k]);
    JoinContains("; ", NonEmpty(parts), parts[k]);
  }

  /** The headline says why: it shows the name of every check that did not run and of every one that was not
      declared, and says of each kind which it is. */
  lemma HeadlineShowsEveryGap(cs: seq<Check>, name: string)
    requires name != ""
    ensures var v := OutcomeOf(cs).verdict;
      && (name in NamesOf(cs, NotRun) ==> Contains(v, name) && Contains(v, " not run"))
      && (name in NamesOf(cs, Undeclared) ==> Contains(v, name) && Contains(v, " not declared"))
  {
    hide Contains, Reason, NamesOf;
    var notRun, undeclared := NamesOf(cs, NotRun), NamesOf(cs, Undeclared);
    var why, v := Reason(notRun, undeclared), OutcomeOf(cs).verdict;
    ReasonShows(notRun, undeclared, name);
    if name in notRun || name in undeclared {
      ContainsNonEmpty(why, name);
      var front := if NothingFailed(cs) then "INCOMPLETE (" else "FAIL (";
      assert v == front + why + ")";
      ContainsItself(why);
      ContainsWithin(front, why, ")", why);
      ContainsAll(v, why, name);
      ContainsAll(v, why, " not run");
      ContainsAll(v, why, " not declared");
    }
  }

  lemma ContainsAll(s: string, p: string, q: string)
    requires Contains(s, p)
    ensures Contains(p, q) ==> Contains(s, q)
  {
    hide Contains;
    if Contains(p, q) {
      ContainsThrough(s, p, q);
    }
  }

  lemma ContainsNonEmpty(s: string, p: string)
    requires Contains(s, p) && p != ""
    ensures s != ""
  {
  }

  lemma {:induction false} RecordedFails(cs: seq<Check>)
    ensures NothingFailed(Recorded(cs)) <==> NothingFailed(cs)
  {
    if cs == [] {
    } else {
      var n := |cs| - 1;
      RecordedFails(cs[..n]);
      var r := Recorded(cs[..n]);
      if cs[n].Rec? {
        assert forall k | 0 <= k < |r| :: (r + [cs[n]])[k] == r[k];
        assert (r + [cs[n]])[|r|] == cs[n];
      } else {
        assert r + [] == r;
      }
      assert forall k | 0 <= k < n :: cs[..n][k] == cs[k];
    }
  }

  lemma {:induction false} RecordedNames(cs: seq<Check>, p: Passed)
    ensures NamesOf(Recorded(cs), p) == NamesOf(cs, p)
  {
    if cs == [] {
    } else {
      var n := |cs| - 1;
      RecordedNames(cs[..n], p);
      var r := Recorded(cs[..n]);
      if cs[n].Rec? {
        assert (r + [cs[n]])[..|r|] == r;
      } else {
        assert r + [] == r;
      }
    }
  }

  /** Advisory rows decide nothing: two gates that recorded the same checks have the same outcome,
      whatever `warn` rows and notes each one interleaved. */
  lemma {:induction false} AdvisoryRowsDecideNothing(a: seq<Check>, b: seq<Check>)
    requires Recorded(a) == Recorded(b)
    ensures OutcomeOf(a) == OutcomeOf(b)
  {
    RecordedFails(a);
    RecordedFails(b);
    RecordedNames(a, NotRun);
    RecordedNames(b, NotRun);
    RecordedNames(a, Undeclared);
    RecordedNames(b, Undeclared);
  }

  // ---- render_gate_md -----------------------------------------------------------------------

  datatype Header = Header(item: string, verdict: string, when: string, sha: string, lane: string, worktree: string,
    stamp: string)

  function HeadLine(h: Header): string {
    "# GATE " + h.item + " \U{2014} " + h.verdict + " \U{2014} " + h.when
  }

  function ShaLine(h: Header): string {
    "sha " + h.sha + "  lane " + h.lane + "  worktree " + h.worktree
  }

  function RowLine(c: Check): string {
    match c
    case Rec(name, passed, detail) => "- **" + name + "**: " + StatusWord(passed) + " \U{2014} " + detail
    case Info(name, status, detail) => "- **" + name + "**: " + status + " \U{2014} " + detail
    case Warn(text) => "- " + text
  }

  function RowText(cs: seq<Check>): string {
    if cs == [] then "" else RowText(cs[..|cs| - 1]) + RowLine(cs[|cs| - 1]) + "\n"
  }

  /** The gate file: three header lines, a blank one and a line per row. */
  function Render(h: Header, cs: seq<Check>): string {
    HeadLine(h) + "\n" + ShaLine(h) + "\n" + ("gate code " + h.stamp) + "\n" + "" + "\n" + RowText(cs)
  }
}
