/** Who is given which row, exactly: `feed`, `eligible_item`, `dispatch` and the answers of dispatcher.py, told in the
    fields of the rows and of what the look at the world finds. */
module QueueFeed {
  import opened PyText
  import opened WorkQueue
  import opened QueueSafety

  // ---- a row that may be given out ----------------------------------------------------------

  /** A path, and neither missing nor a remark in parentheses. */
  predicate IsPlace(place: string) {
    place != "" && place[0] != '('
  }

  /** Someone works on the row, or its result is under review. */
  predicate AtWork(r: Row) {
    r.status == Dispatched || r.status == InRework || r.status == Reported || r.status == Gating || r.status == Gated
  }

  predicate UnderGate(r: Row, w: World) {
    w.gates.None? || r.id in w.gates.value
  }

  /** No row gets in the way of row `k`: its worktree is on disk, no other row is unfinished or under a running gate
      there, nobody works there, and nobody holds its lane. */
  predicate NothingInTheWay(rows: seq<Row>, k: nat, w: World)
    requires k < |rows|
  {
    var it := rows[k];
    && it.worktree != ""
    && (IsPlace(it.worktree) ==> it.worktree in w.onDisk)
    && (forall j | 0 <= j < |rows| :: IsPlace(it.worktree) && rows[j].worktree == it.worktree ==>
          rows[j].status != Dispatched && rows[j].id !in w.codex)
    && (forall j | 0 <= j < |rows| && rows[j].id != it.id ::
          && (IsPlace(it.worktree) && rows[j].worktree == it.worktree ==>
                !AtWork(rows[j]) && rows[j].status != Parked && !UnderGate(rows[j], w))
          && (IsPlace(it.lane) && rows[j].lane == it.lane ==> !AtWork(rows[j]) && !UnderGate(rows[j], w)))
  }

  /** Row `k` waits for an executor, this one may have it, what it depends on is done, and nothing is in its way. */
  predicate MayHave(rows: seq<Row>, k: nat, name: string, w: World)
    requires k < |rows|
  {
    && rows[k].status == Queued && (rows[k].executor == "" || rows[k].executor == name) && rows[k].id in w.ready
    && NothingInTheWay(rows, k, w)
  }

  lemma ClaimIsFine(rows: seq<Row>, k: nat, w: World)
    requires k < |rows|
    ensures ClaimOf(rows, rows[k], w) == Fine <==>
      && rows[k].worktree != ""
      && (IsPlace(rows[k].worktree) ==>
            rows[k].worktree in w.onDisk && forall j | 0 <= j < |rows| :: !Shares(rows[k], rows[j]))
  {
  }

  lemma NotBusy(rows: seq<Row>, k: nat, w: World)
    requires k < |rows| && IsPlace(rows[k].worktree)
    ensures rows[k].worktree !in BusyTrees(rows, w) <==>
      forall j | 0 <= j < |rows| && rows[j].worktree == rows[k].worktree ::
        rows[j].status != Dispatched && rows[j].id !in w.codex
  {
    if j :| 0 <= j < |rows| && rows[j].worktree == rows[k].worktree && Busies(rows[j], w) {
      assert rows[j].worktree in BusyTrees(rows, w);
    }
  }

  lemma EligibleExactly(rows: seq<Row>, k: nat, name: string, w: World)
    requires k < |rows|
    ensures Eligible(rows, rows[k], name, w) <==> MayHave(rows, k, name, w)
  {
    hide ClaimOf, BusyTrees;
    ClaimIsFine(rows, k, w);
    if IsPlace(rows[k].worktree) {
      NotBusy(rows, k, w);
    }
  }

  /** The first row that this executor may have. */
  predicate FirstFor(rows: seq<Row>, k: nat, name: string, w: World) {
    k < |rows| && MayHave(rows, k, name, w) && forall j | 0 <= j < k :: !MayHave(rows, j, name, w)
  }

  lemma FirstExactly(rows: seq<Row>, name: string, w: World)
    ensures match FirstEligible(rows, 0, name, w)
      case Some(k) => FirstFor(rows, k, name, w)
      case None => forall j | 0 <= j < |rows| :: !MayHave(rows, j, name, w)
  {
    hide Eligible, MayHave;
    forall j | 0 <= j < |rows|
      ensures Eligible(rows, rows[j], name, w) <==> MayHave(rows, j, name, w)
    {
      EligibleExactly(rows, j, name, w);
    }
  }

  // ---- one feed -----------------------------------------------------------------------------

  /** Row `k` was given to this executor, if its prompt could be read and arrived; no other row changed. */
  function Given(rows: seq<Row>, k: nat, name: string, e: FeedEnv): seq<Row>
    requires k < |rows|
  {
    if !e.prompt then rows[k := rows[k].(status := Broken)]
    else if e.delivered then rows[k := rows[k].(status := Dispatched, holder := name)]
    else rows
  }

  /** The first row this executor may have was given to it, if there is one. */
  ghost predicate FirstGiven(rows: seq<Row>, after: seq<Row>, name: string, e: FeedEnv) {
    (exists k | 0 <= k < |rows| :: FirstFor(rows, k, name, e.world) && after == Given(rows, k, name, e))
    || (after == rows && forall j | 0 <= j < |rows| :: !MayHave(rows, j, name, e.world))
  }

  lemma AssignGives(q: Queue, name: string, e: FeedEnv)
    ensures var after := Assign(q, name, e.world, e.prompt, e.delivered);
      FirstGiven(q.rows, after.rows, name, e) && after.live == q.live
  {
    hide Eligible, MayHave, FirstEligible;
    FirstExactly(q.rows, name, e.world);
  }

  /** The first row that is with this executor. */
  predicate IsWith(rows: seq<Row>, c: nat, name: string) {
    && c < |rows| && Works(rows[c], name)
    && forall j | 0 <= j < c :: !Works(rows[j], name)
  }

  predicate Works(r: Row, name: string) {
    r.holder == name && (r.status == Dispatched || r.status == InRework || r.status == Reported)
  }

  lemma {:induction false} HeldIsWith(rows: seq<Row>, k: nat, name: string)
    requires k <= |rows| && forall j | 0 <= j < k :: !Works(rows[j], name)
    ensures match FirstHeld(rows, k, name)
      case Some(c) => IsWith(rows, c, name)
      case None => forall j | 0 <= j < |rows| :: !Works(rows[j], name)
    decreases |rows| - k
  {
    if k < |rows| && !Works(rows[k], name) {
      HeldIsWith(rows, k + 1, name);
    }
  }

  /** A message from an executor that has no row: it is given one, unless it reports while its own rows are under gate
      or parked. */
  lemma FeedOfIdle(q: Queue, name: string, kind: Kind, e: FeedEnv)
    requires e.enabled && forall j | 0 <= j < |q.rows| :: !Works(q.rows[j], name)
    ensures var after := Feed(q, name, kind, e);
      var waits := kind == ReportReady && e.autoGate && exists j | 0 <= j < |q.rows| ::
        q.rows[j].holder == name && (q.rows[j].status == Gated || q.rows[j].status == Parked);
      && after.live == q.live
      && if waits then after == q else FirstGiven(q.rows, after.rows, name, e)
  {
    hide Assign, FirstHeld, FirstGiven;
    HeldIsWith(q.rows, 0, name);
    AssignGives(q, name, e);
  }

  /** What a message does to the row it is about. A report under the automatic gate launches one, if the report was
      judged fit for it and row and launch allow; any other report is left for a person. A question parks the row, with
      a note of where it was. */
  function MovedOn(r: Row, kind: Kind, e: FeedEnv): Row {
    match kind
    case ReportReady => r.(status := if Launches(r, e) then Gated else Reported)
    case Question => r.(status := Parked, parkedFrom := Some(r.status))
    case _ => r
  }

  predicate Launches(r: Row, e: FeedEnv) {
    e.autoGate && e.judged == Gate(true) && r.worktree != "" && r.lane != ""
  }

  /** The executor is free for more after this message. */
  predicate FreeAfter(kind: Kind, e: FeedEnv) {
    (kind == ReportReady && (!e.autoGate || e.judged != Stop)) || (kind == Question && e.goOn)
  }

  /** A message from an executor about the row it has: that row is moved on, and if the executor is free for more it is
      given the first row it may have by then. */
  lemma FeedOfBusy(q: Queue, name: string, kind: Kind, e: FeedEnv, c: nat)
    requires e.enabled && IsWith(q.rows, c, name)
    ensures var after, rows := Feed(q, name, kind, e), q.rows[c := MovedOn(q.rows[c], kind, e)];
      && after.live == q.live + (if kind == ReportReady && Launches(q.rows[c], e) then {q.rows[c].id} else {})
      && if FreeAfter(kind, e) then FirstGiven(rows, after.rows, name, e) else after.rows == rows
  {
    hide Assign, FirstGiven, FirstHeld;
    HeldIsWith(q.rows, 0, name);
    SettleTells(q, name, kind, e, c);
    AssignGives(Settle(q, name, kind, e).0, name, e);
  }

  lemma SettleTells(q: Queue, name: string, kind: Kind, e: FeedEnv, c: nat)
    requires FirstHeld(q.rows, 0, name) == Some(c)
    ensures var (after, fed) := Settle(q, name, kind, e);
      && after.rows == q.rows[c := MovedOn(q.rows[c], kind, e)] && (fed <==> FreeAfter(kind, e))
      && after.live == q.live + (if kind == ReportReady && Launches(q.rows[c], e) then {q.rows[c].id} else {})
  {
    hide FirstHeld;
    assert q.rows[c := q.rows[c]] == q.rows && q.live + {} == q.live;
  }

  // ---- one answer ---------------------------------------------------------------------------

  /** The executor of a parked row hears the answer: by hand if a person relays to it or it has no session, else by a
      post that arrives. */
  predicate Hears(who: string, a: Request) {
    if Upper(who) == "WORKER-1" || Upper(who) == "WORKER-2" || Upper(who) == "BOSS" || !a.session then a.byHand
    else a.delivered
  }

  /** A row goes back to the work it was parked from if its executor has no other row; else it waits for that executor
      in the queue. */
  function BackToWork(rows: seq<Row>, it: Row): Row {
    if exists j | 0 <= j < |rows| :: rows[j].id != it.id && Works(rows[j], it.holder) then
      it.(status := Queued, executor := it.holder, holder := "", parkedFrom := None)
    else if it.parkedFrom == Some(InRework) then it.(status := InRework, parkedFrom := None)
    else if it.parkedFrom == Some(Reported) then it.(status := Reported, parkedFrom := None)
    else it.(status := Dispatched, parkedFrom := None)
  }

  /** An answer changes the row it names if that is parked with an executor who hears it, and no other row. */
  lemma AnswerExactly(q: Queue, a: Request, k: nat)
    requires DistinctIds(q.rows) && k < |q.rows| && q.rows[k].id == a.id
    ensures var it := q.rows[k];
      var heard := a.readable && it.status == Parked && it.holder != "" && Hears(it.holder, a);
      Answer(q, a) == if heard then q.(rows := q.rows[k := BackToWork(q.rows, it)]) else q
  {
    hide Find, Upper;
    FindsIt(q.rows, k);
    var it := q.rows[k];
    assert Holds(q.rows, it.holder, it.id) <==>
      exists j | 0 <= j < |q.rows| :: q.rows[j].id != it.id && Works(q.rows[j], it.holder);
  }

  lemma AnswerToNobody(q: Queue, a: Request)
    requires forall j | 0 <= j < |q.rows| :: q.rows[j].id != a.id
    ensures Answer(q, a) == q
  {
  }

  /** A gate asked for by hand is launched if its row is being worked on, has no uncollected gate, and names a worktree
      and a lane, and the launch goes through. */
  lemma ManualGateExactly(q: Queue, id: string, launchable: bool, k: nat)
    requires DistinctIds(q.rows) && k < |q.rows| && q.rows[k].id == id
    ensures var it := q.rows[k];
      ManualGate(q, id, launchable) ==
        if (it.status == Dispatched || it.status == InRework || it.status == Reported) && id !in q.live && launchable
          && it.worktree != "" && it.lane != ""
        then Queue(q.rows[k := it.(status := Gated)], q.live + {id}) else q
  {
    hide Find;
    FindsIt(q.rows, k);
  }

  /** A collected gate is live no more; its row is reported if a person decides, in rework if it was handed back, and
      else as it was. */
  lemma CollectionExactly(q: Queue, id: string, r: Result, k: nat)
    requires DistinctIds(q.rows) && k < |q.rows| && q.rows[k].id == id && id in q.live
    ensures Collected(q, id, r).live == q.live - {id}
    ensures Collected(q, id, r).rows == match r
      case ToPerson => q.rows[k := q.rows[k].(status := Reported)]
      case Sent => q.rows[k := q.rows[k].(status := InRework)]
      case _ => q.rows
  {
    hide Find;
    FindsIt(q.rows, k);
  }

  // ---- whole runs ---------------------------------------------------------------------------

  /** The step is a feed of this executor, and the row is one it may have, before which there is none. */
  ghost predicate DispatchedByFeed(before: Row, after: Row, rows: seq<Row>, k: nat, s: Step)
    requires k < |rows|
  {
    && s.AFeed? && s.e.enabled && s.e.prompt && s.e.delivered
    && after == before.(status := Dispatched, holder := s.name)
    && FirstFor(rows[k := before], k, s.name, s.e.world)
  }

  /** The step answers the question the row was parked with, and its executor hears it and has nothing else. */
  ghost predicate DispatchedByAnswer(before: Row, after: Row, rows: seq<Row>, s: Step) {
    && s.AnAnswer? && s.a.readable && s.a.id == before.id
    && before.status == Parked && before.holder != "" && Hears(before.holder, s.a)
    && (forall j | 0 <= j < |rows| && rows[j].id != before.id :: !Works(rows[j], before.holder))
    && after == before.(status := Dispatched, parkedFrom := None)
  }

  lemma GivenIsFirst(rows: seq<Row>, after: seq<Row>, name: string, e: FeedEnv, k: nat)
    requires FirstGiven(rows, after, name, e) && k < |rows|
    ensures |after| == |rows|
    ensures after[k] != rows[k] && after[k].status == Dispatched ==>
      && e.prompt && e.delivered && after[k] == rows[k].(status := Dispatched, holder := name)
      && FirstFor(after[k := rows[k]], k, name, e.world)
  {
    hide MayHave, FirstFor;
    if after != rows {
      var i :| 0 <= i < |rows| && FirstFor(rows, i, name, e.world) && after == Given(rows, i, name, e);
      if i == k {
        assert after[k := rows[k]] == rows;
      }
    }
  }

  lemma FeedDispatches(q: Queue, name: string, kind: Kind, e: FeedEnv, k: nat)
    requires k < |q.rows|
    ensures var after := Feed(q, name, kind, e).rows;
      |after| == |q.rows| && (after[k] != q.rows[k] && after[k].status == Dispatched ==>
        DispatchedByFeed(q.rows[k], after[k], after, k, AFeed(name, kind, e)))
  {
    hide Feed, FirstGiven, FirstFor, FirstHeld;
    if !e.enabled {
      FeedOff(q, name, kind, e);
    } else {
      HeldIsWith(q.rows, 0, name);
      var after := Feed(q, name, kind, e).rows;
      match FirstHeld(q.rows, 0, name)
      case None =>
        FeedOfIdle(q, name, kind, e);
        if after != q.rows {
          GivenIsFirst(q.rows, after, name, e, k);
        }
      case Some(c) =>
        FeedOfBusy(q, name, kind, e, c);
        var rows := q.rows[c := MovedOn(q.rows[c], kind, e)];
        if FreeAfter(kind, e) {
          GivenIsFirst(rows, after, name, e, k);
          MovedIsNotGiven(rows, c, after, name, e);
        }
    }
  }

  /** The row a message was about is not given out by it. */
  lemma MovedIsNotGiven(rows: seq<Row>, c: nat, after: seq<Row>, name: string, e: FeedEnv)
    requires c < |rows| && rows[c].status != Queued && FirstGiven(rows, after, name, e)
    ensures |after| == |rows| && after[c] == rows[c]
  {
    hide NothingInTheWay;
  }

  lemma FeedOff(q: Queue, name: string, kind: Kind, e: FeedEnv)
    requires !e.enabled
    ensures Feed(q, name, kind, e) == q
  {
  }

  lemma AnswerDispatches(q: Queue, a: Request, k: nat)
    requires k < |q.rows| && DistinctIds(q.rows)
    ensures var after := Answer(q, a).rows;
      |after| == |q.rows| && (after[k] != q.rows[k] && after[k].status == Dispatched ==>
        DispatchedByAnswer(q.rows[k], after[k], q.rows, AnAnswer(a)))
  {
    hide Answer, Hears, BackToWork;
    if i :| 0 <= i < |q.rows| && q.rows[i].id == a.id {
      AnswerExactly(q, a, i);
      WhenBackDispatched(q.rows, q.rows[i]);
    } else {
      AnswerToNobody(q, a);
    }
  }

  lemma WhenBackDispatched(rows: seq<Row>, it: Row)
    ensures BackToWork(rows, it).status == Dispatched ==>
      BackToWork(rows, it) == it.(status := Dispatched, parkedFrom := None)
      && forall j | 0 <= j < |rows| && rows[j].id != it.id :: !Works(rows[j], it.holder)
  {
  }

  lemma OthersDispatchNothing(q: Queue, s: Step, k: nat)
    requires k < |q.rows| && (s.AGate? || s.ACollect?)
    ensures var after := Apply(q, s).rows;
      |after| == |q.rows| && (after[k] != q.rows[k] ==> after[k].status != Dispatched)
  {
  }

  /** In every run nobody is set to work on a row but by a feed or an answer that may: a feed gives a row only to an
      executor it is for, when what it depends on is done, nothing is in its way and no earlier row would do; and an
      answer sends a row back only to the executor who asked, was told and has nothing else. */
  lemma DispatchedOnlyRightly(q: Queue, steps: seq<Step>, i: nat, k: nat)
    requires Sound(q) && forall m | 0 <= m < |steps| && steps[m].AnEdit? :: Sound(steps[m].q)
    requires i < |steps| && !steps[i].AnEdit? && k < |Run(q, steps[..i]).rows|
    ensures var before, after := Run(q, steps[..i]).rows, Run(q, steps[..i + 1]).rows;
      && |after| == |before|
      && (after[k] != before[k] && after[k].status == Dispatched ==>
            DispatchedByFeed(before[k], after[k], after, k, steps[i])
            || DispatchedByAnswer(before[k], after[k], before, steps[i]))
  {
    hide Feed, Answer, ManualGate, Collected, Sound, DispatchedByFeed, DispatchedByAnswer;
    OneOwnerAlways(q, steps[..i]);
    SoundIds(Run(q, steps[..i]));
    assert steps[..i + 1][..i] == steps[..i];
    var before := Run(q, steps[..i]);
    match steps[i]
    case AFeed(name, kind, e) => FeedDispatches(before, name, kind, e, k);
    case AnAnswer(a) => AnswerDispatches(before, a, k);
    case AGate(_, _) => OthersDispatchNothing(before, steps[i], k);
    case ACollect(_, _) => OthersDispatchNothing(before, steps[i], k);
  }

  lemma SoundIds(q: Queue)
    requires Sound(q)
    ensures DistinctIds(q.rows)
  {
  }
}
