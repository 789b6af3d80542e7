/** What the queue operations keep, over whole runs: one unfinished row to a worktree, and honest answers. */
module QueueSafety {
  import opened PyText
  import opened AutoRework
  import opened WorkQueue

  // ---- the invariant ------------------------------------------------------------------------

  predicate Clash(a: Row, b: Row) {
    IsReal(a.worktree) && a.worktree == b.worktree && Unfinished(a.status) && Unfinished(b.status)
  }

  /** No two unfinished rows name the same worktree. */
  ghost predicate OneOwner(rows: seq<Row>) {
    forall j, k | 0 <= j < k < |rows| :: !Clash(rows[j], rows[k])
  }

  ghost predicate DistinctIds(rows: seq<Row>) {
    forall j, k | 0 <= j < k < |rows| :: rows[j].id != rows[k].id
  }

  ghost predicate UnderGate(q: Queue) {
    forall k | 0 <= k < |q.rows| :: q.rows[k].id in q.live ==> q.rows[k].status == Gating || q.rows[k].status == Gated
  }

  /** Distinct ids, one owner to a worktree, and rows with an uncollected gate are under gate. */
  ghost predicate Sound(q: Queue) {
    DistinctIds(q.rows) && OneOwner(q.rows) && UnderGate(q)
  }

  ghost predicate OthersClear(rows: seq<Row>, k: nat)
    requires k < |rows|
  {
    forall j | 0 <= j < |rows| && j != k ::
      !(IsReal(rows[k].worktree) && rows[j].worktree == rows[k].worktree && Unfinished(rows[j].status))
  }

  /** The exact price of a status change: it keeps one owner to a worktree if and only if the new status is a
      finished one, or the row was unfinished already, or no other unfinished row names the same worktree. */
  lemma StatusKeepsOwnerExactly(rows: seq<Row>, k: nat, s: Status)
    requires k < |rows| && OneOwner(rows)
    ensures OneOwner(rows[k := rows[k].(status := s)])
      <==> !Unfinished(s) || Unfinished(rows[k].status) || OthersClear(rows, k)
  {
    var after := rows[k := rows[k].(status := s)];
    if !Unfinished(s) || Unfinished(rows[k].status) || OthersClear(rows, k) {
      forall i, j | 0 <= i < j < |rows|
        ensures !Clash(after[i], after[j])
      {
        assert !Clash(rows[i], rows[j]);
      }
    } else {
      var j :| 0 <= j < |rows| && j != k && IsReal(rows[k].worktree) && rows[j].worktree == rows[k].worktree
        && Unfinished(rows[j].status);
      assert Clash(after[if j < k then j else k], after[if j < k then k else j]);
    }
  }

  /** A row that may be given out has its tree to itself: no other row names it unfinished, no running gate
      measures it, and no dispatched row or Codex run works in it. */
  lemma EligibleTreeIsFree(rows: seq<Row>, k: nat, name: string, w: World)
    requires k < |rows| && DistinctIds(rows) && Eligible(rows, rows[k], name, w)
    ensures OthersClear(rows, k)
    ensures IsReal(rows[k].worktree) ==> forall j | 0 <= j < |rows| && j != k && rows[j].worktree == rows[k].worktree ::
      rows[j].id !in w.codex && w.gates.Some? && rows[j].id !in w.gates.value
  {
  }

  // ---- every operation keeps it -------------------------------------------------------------

  lemma MarkSound(q: Queue, k: nat, r: Row)
    requires k < |q.rows| && Sound(q) && r.id == q.rows[k].id && r.worktree == q.rows[k].worktree
    requires !Unfinished(r.status) || Unfinished(q.rows[k].status) || OthersClear(q.rows, k)
    requires r.id !in q.live
    ensures Sound(q.(rows := q.rows[k := r]))
  {
  }

  lemma AssignSound(q: Queue, name: string, w: World, prompt: bool, delivered: bool)
    requires Sound(q)
    ensures Sound(Assign(q, name, w, prompt, delivered))
  {
    hide Eligible;
    match FirstEligible(q.rows, 0, name, w)
    case None =>
    case Some(k) =>
      EligibleTreeIsFree(q.rows, k, name, w);
      EligibleIsQueued(q.rows, k, name, w);
      MarkSound(q, k, q.rows[k].(status := Broken));
      MarkSound(q, k, q.rows[k].(status := Dispatched, holder := name));
  }

  lemma EligibleIsQueued(rows: seq<Row>, k: nat, name: string, w: World)
    requires k < |rows| && Eligible(rows, rows[k], name, w)
    ensures rows[k].status == Queued
  {
  }

  lemma LaunchSound(q: Queue, k: nat, launchable: bool)
    requires k < |q.rows| && Sound(q) && IsCurrent(q.rows[k].status)
    ensures Sound(LaunchGate(q, k, launchable))
  {
  }

  lemma SettleSound(q: Queue, name: string, kind: Kind, e: FeedEnv)
    requires Sound(q)
    ensures Sound(Settle(q, name, kind, e).0)
  {
    hide Sound, LaunchGate, WaitsOnOthers;
    match FirstHeld(q.rows, 0, name)
    case None =>
    case Some(k) =>
      CurrentIsNotLive(q, k);
      SettledSound(q, k, q.rows[k].(status := Reported));
      SettledSound(q, k, q.rows[k].(status := Parked, parkedFrom := Some(q.rows[k].status)));
      if e.judged.Gate? {
        LaunchSound(Mark(q, k, Reported), k, e.judged.launchable);
      }
  }

  lemma SettledSound(q: Queue, k: nat, r: Row)
    requires k < |q.rows| && Sound(q) && r.id == q.rows[k].id && r.worktree == q.rows[k].worktree
    requires Unfinished(q.rows[k].status) && r.id !in q.live
    ensures Sound(q.(rows := q.rows[k := r]))
  {
  }

  lemma CurrentIsNotLive(q: Queue, k: nat)
    requires k < |q.rows| && Sound(q) && (IsCurrent(q.rows[k].status) || q.rows[k].status == Parked)
    ensures q.rows[k].id !in q.live
  {
  }

  lemma FeedSound(q: Queue, name: string, kind: Kind, e: FeedEnv)
    requires Sound(q)
    ensures Sound(Feed(q, name, kind, e))
  {
    hide Sound, Settle, Assign;
    SettleSound(q, name, kind, e);
    var q1 := Settle(q, name, kind, e).0;
    AssignSound(q1, name, e.world, e.prompt, e.delivered);
  }

  lemma ManualGateSound(q: Queue, id: string, launchable: bool)
    requires Sound(q)
    ensures Sound(ManualGate(q, id, launchable))
  {
  }

  lemma CollectedSound(q: Queue, id: string, r: Result)
    requires Sound(q)
    ensures Sound(Collected(q, id, r))
  {
  }

  lemma AnswerSound(q: Queue, a: Request)
    requires Sound(q)
    ensures Sound(Answer(q, a))
  {
  }

  /** One step of the queue: an operation, or an edit from outside that leaves the queue sound. */
  datatype Step =
    | AFeed(name: string, kind: Kind, e: FeedEnv)
    | AGate(id: string, launchable: bool)
    | ACollect(id: string, r: Result)
    | AnAnswer(a: Request)
    | AnEdit(q: Queue)

  function Apply(q: Queue, s: Step): Queue {
    match s
    case AFeed(name, kind, e) => Feed(q, name, kind, e)
    case AGate(id, launchable) => ManualGate(q, id, launchable)
    case ACollect(id, r) => Collected(q, id, r)
    case AnAnswer(a) => Answer(q, a)
    case AnEdit(edited) => edited
  }

  function Run(q: Queue, steps: seq<Step>): Queue {
    if steps == [] then q else Apply(Run(q, steps[..|steps| - 1]), steps[|steps| - 1])
  }

  /** In every run of feeds, dispatches, reports, questions, answers, gate launches and collections, whatever
      the messages, posts and probes, every worktree has at most one unfinished row. */
  lemma {:induction false} OneOwnerAlways(q: Queue, steps: seq<Step>)
    requires Sound(q) && forall i | 0 <= i < |steps| && steps[i].AnEdit? :: Sound(steps[i].q)
    ensures Sound(Run(q, steps))
  {
    hide Sound, Feed, ManualGate, Collected, Answer;
    if steps == [] {
    } else {
      var n := |steps| - 1;
      OneOwnerAlways(q, steps[..n]);
      var before := Run(q, steps[..n]);
      match steps[n]
      case AFeed(name, kind, e) => FeedSound(before, name, kind, e);
      case AGate(id, launchable) => ManualGateSound(before, id, launchable);
      case ACollect(id, r) => CollectedSound(before, id, r);
      case AnAnswer(a) => AnswerSound(before, a);
      case AnEdit(edited) =>
    }
  }

  // ---- why a parked row keeps its claim -----------------------------------------------------

  /** Two executors are at work in one worktree. */
  predicate AtWorkTogether(a: Row, b: Row) {
    IsReal(a.worktree) && a.worktree == b.worktree && IsCurrent(a.status) && IsCurrent(b.status)
  }

  /** Row `i` is parked with its executor, and row `k` is queued for the same worktree. */
  predicate ParkedOver(rows: seq<Row>, i: nat, k: nat) {
    && i < |rows| && k < |rows| && i != k && rows[i].status == Parked && rows[i].holder != ""
      && rows[k].status == Queued
    && IsReal(rows[i].worktree) && rows[i].worktree == rows[k].worktree
  }

  /** A parked row holds no lane, so the lane guard alone never refuses a row because of it, unless its gate still
      runs; the worktree claim refuses every such row, for every executor. */
  lemma ParkIsOnlyClaimed(rows: seq<Row>, i: nat, k: nat, name: string, w: World)
    requires DistinctIds(rows) && ParkedOver(rows, i, k)
    ensures !Eligible(rows, rows[k], name, w)
    ensures rows[k].worktree in w.onDisk ==> ClaimOf(rows, rows[k], w) == Shared
    ensures w.gates.Some? && rows[i].id !in w.gates.value ==> !Occupies(rows[i], rows[k], w)
    ensures rows[i].id !in w.codex ==> !Busies(rows[i], w)
  {
    assert rows[i].id != rows[k].id by {
      assert rows[if i < k then i else k].id != rows[if i < k then k else i].id;
    }
    assert Shares(rows[k], rows[i]);
  }

  /** What the claim prevents: if such a row were given to another executor all the same, answering the question puts
      both executors in one worktree, exactly if the answer reaches the parked row's executor and it holds nothing
      else by then. */
  lemma ParkMustClaim(rows: seq<Row>, live: set<string>, i: nat, k: nat, name: string, a: Request)
    requires DistinctIds(rows) && ParkedOver(rows, i, k) && name != rows[i].holder && a.id == rows[i].id
    ensures var given := rows[k := rows[k].(status := Dispatched, holder := name)];
      var after := Answer(Queue(given, live), a).rows;
      |after| == |rows| &&
      (AtWorkTogether(after[i], after[k]) <==>
        a.readable && Told(rows[i].holder, a) && !Holds(given, rows[i].holder, rows[i].id))
  {
    hide Find, Told, Holds;
    var given := rows[k := rows[k].(status := Dispatched, holder := name)];
    SameIds(rows, k, given[k]);
    OneAnswer(Queue(given, live), a, i);
    OneAnswer(Queue(given, live), a, k);
    assert rows[i].id != rows[k].id by {
      assert rows[if i < k then i else k].id != rows[if i < k then k else i].id;
    }
  }

  // ---- answers ------------------------------------------------------------------------------

  /** The row after its question was answered: back where it was parked from, with its executor; or queued
      and pinned to that executor. */
  predicate Restored(it: Row, r: Row) {
    || r == it.(status := Back(it), parkedFrom := None)
    || r == it.(status := Queued, executor := it.holder, holder := "", parkedFrom := None)
  }

  predicate Answers(a: Request, it: Row) {
    a.readable && a.id == it.id && Told(it.holder, a)
  }

  lemma FindsIt(rows: seq<Row>, k: nat)
    requires k < |rows| && DistinctIds(rows)
    ensures Find(rows, 0, rows[k].id) == Some(k)
  {
  }

  lemma OneAnswer(q: Queue, a: Request, k: nat)
    requires DistinctIds(q.rows) && k < |q.rows|
    ensures var it := q.rows[k]; var after := Answer(q, a).rows;
      && |after| == |q.rows| && DistinctIds(after) && after[k].id == it.id
      && (if it.status == Parked && it.holder != "" && Answers(a, it)
          then after[k] == Unparked(q.rows, it) && Restored(it, after[k]) else after[k] == it)
  {
  }

  lemma SameIds(rows: seq<Row>, k: nat, r: Row)
    requires k < |rows| && DistinctIds(rows) && r.id == rows[k].id
    ensures DistinctIds(rows[k := r])
  {
  }

  ghost predicate AnsweredIn(batch: seq<Request>, it: Row) {
    exists i | 0 <= i < |batch| :: Answers(batch[i], it)
  }

  /** Over any batch of answers, a parked row with an executor leaves the park if and only if a request of the
      batch names it and reached that executor, by post or by hand; it then goes back where it came from or
      is queued for the same executor. Every other row stays as it was. */
  lemma {:induction false} UnparkedExactlyIfTold(q: Queue, batch: seq<Request>, k: nat)
    requires DistinctIds(q.rows) && k < |q.rows|
    ensures var it := q.rows[k]; var after := AnswerAll(q, batch).rows;
      && |after| == |q.rows| && DistinctIds(after)
      && (if it.status == Parked && it.holder != "" && AnsweredIn(batch, it) then Restored(it, after[k])
        else after[k] == it)
  {
    hide Answer, Answers;
    if batch == [] {
    } else {
      var n := |batch| - 1;
      UnparkedExactlyIfTold(q, batch[..n], k);
      OneAnswer(AnswerAll(q, batch[..n]), batch[n], k);
      assert AnsweredIn(batch, q.rows[k]) <==> AnsweredIn(batch[..n], q.rows[k]) || Answers(batch[n], q.rows[k]);
    }
  }

  /** How many rows an executor holds. */
  function Held(rows: seq<Row>, name: string): nat {
    if rows == [] then 0
    else Held(rows[..|rows| - 1], name) + if HeldBy(rows[|rows| - 1], name) then 1 else 0
  }

  predicate HeldBy(r: Row, name: string) {
    IsCurrent(r.status) && r.holder == name
  }

  lemma {:induction false} HeldAfterPut(rows: seq<Row>, k: nat, r: Row, name: string)
    requires k < |rows|
    ensures Held(rows[k := r], name) + (if HeldBy(rows[k], name) then 1 else 0)
         == Held(rows, name) + if HeldBy(r, name) then 1 else 0
  {
    hide HeldBy;
    var n := |rows| - 1;
    if k < n {
      HeldAfterPut(rows[..n], k, r, name);
      assert rows[k := r][..n] == rows[..n][k := r];
    } else {
      assert rows[k := r][..n] == rows[..n];
    }
  }

  lemma {:induction false} HoldsNothing(rows: seq<Row>, name: string)
    requires forall j | 0 <= j < |rows| :: !HeldBy(rows[j], name)
    ensures Held(rows, name) == 0
  {
    hide HeldBy;
    if rows == [] {
    } else {
      HoldsNothing(rows[..|rows| - 1], name);
    }
  }

  function Max(a: nat, b: nat): nat {
    if a < b then b else a
  }

  lemma OneAnswerBooksOnce(q: Queue, a: Request, name: string)
    requires DistinctIds(q.rows)
    ensures Held(Answer(q, a).rows, name) <= Max(1, Held(q.rows, name))
  {
    hide Told, Held;
    var f := Find(q.rows, 0, a.id);
    if f.Some? && q.rows[f.value].status == Parked {
      var it := q.rows[f.value];
      HeldAfterPut(q.rows, f.value, Unparked(q.rows, it), name);
      if !Holds(q.rows, it.holder, it.id) && name == it.holder {
        FindsIt(q.rows, f.value);
        forall j | 0 <= j < |q.rows|
          ensures !HeldBy(q.rows[j], name)
        {
          FindsIt(q.rows, j);
        }
        HoldsNothing(q.rows, name);
      }
    }
  }

  /** Answers never double-book: after any batch, several answers to one executor included, an executor holds
      at most one row, or at most as many as before. */
  lemma {:induction false} AnswersNeverDoubleBook(q: Queue, batch: seq<Request>, name: string)
    requires DistinctIds(q.rows)
    ensures DistinctIds(AnswerAll(q, batch).rows)
    ensures Held(AnswerAll(q, batch).rows, name) <= Max(1, Held(q.rows, name))
  {
    hide Answer, Held;
    if batch == [] {
    } else {
      var n := |batch| - 1;
      AnswersNeverDoubleBook(q, batch[..n], name);
      var before := AnswerAll(q, batch[..n]);
      OneAnswerBooksOnce(before, batch[n], name);
      AnswerKeepsIds(before, batch[n]);
    }
  }

  lemma AnswerKeepsIds(q: Queue, a: Request)
    requires DistinctIds(q.rows)
    ensures DistinctIds(Answer(q, a).rows)
  {
  }
}
