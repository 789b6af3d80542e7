/** The work queue: who may be given an item, and what reports, questions, answers and gates do to its row.
    `worktree_claim`, `busy_worktrees`, `lane_occupied`, `eligible_item`, `dispatch`, `feed`, `launch_gate`,
    `apply_gate_requests`, `apply_answer_requests` and the row half of `collect_gates` of dispatcher.py. */
module WorkQueue {
  import opened PyText
  import opened AutoRework

  datatype Status = Queued | Dispatched | InRework | Reported | Gating | Gated | Parked | Broken | Finished

  /** A queue row; `executor` pins it to one executor, `holder` is who it was dispatched to, and the empty
      string stands for a missing field. */
  datatype Row = Row(id: string, status: Status, worktree: string, lane: string, executor: string, holder: string,
                     parkedFrom: Option<Status>)

  predicate Unfinished(s: Status) {
    s == Dispatched || s == InRework || s == Reported || s == Gating || s == Gated || s == Parked
  }

  predicate LaneHolding(s: Status) {
    s == Dispatched || s == InRework || s == Reported || s == Gating || s == Gated
  }

  predicate IsCurrent(s: Status) {
    s == Dispatched || s == InRework || s == Reported
  }

  /** A path, and not a missing field or a remark in parentheses. */
  predicate IsReal(place: string) {
    place != "" && place[0] != '('
  }

  // ---- who may be given a row ---------------------------------------------------------------

  /** What a look at the queue meets outside it: rows whose dependencies are done, worktrees on disk, rows a
      live Codex run works on, and the rows under a running gate if the process list could be read. */
  datatype World = World(ready: set<string>, onDisk: set<string>, codex: set<string>, gates: Option<set<string>>)

  predicate Shares(a: Row, b: Row) {
    a.id != b.id && b.worktree == a.worktree && Unfinished(b.status)
  }

  datatype Claim = Fine | Unset | Missing | Shared

  function ClaimOf(rows: seq<Row>, it: Row, w: World): Claim {
    if it.worktree == "" then Unset
    else if !IsReal(it.worktree) then Fine
    else if it.worktree !in w.onDisk then Missing
    else if exists j | 0 <= j < |rows| :: Shares(it, rows[j]) then Shared
    else Fine
  }

  predicate Busies(r: Row, w: World) {
    r.worktree != "" && (r.status == Dispatched || r.id in w.codex)
  }

  function BusyTrees(rows: seq<Row>, w: World): set<string> {
    set j | 0 <= j < |rows| && Busies(rows[j], w) :: rows[j].worktree
  }

  /** `other` holds the lane or the worktree of `it`. */
  predicate Occupies(other: Row, it: Row, w: World) {
    && other.id != it.id
    && (LaneHolding(other.status) || w.gates.None? || other.id in w.gates.value)
    && ((IsReal(it.lane) && other.lane == it.lane) || (IsReal(it.worktree) && other.worktree == it.worktree))
  }

  predicate Eligible(rows: seq<Row>, it: Row, name: string, w: World) {
    && it.status == Queued && (it.executor == "" || it.executor == name) && it.id in w.ready
    && ClaimOf(rows, it, w) == Fine
    && (IsReal(it.worktree) ==> it.worktree !in BusyTrees(rows, w))
    && !exists j | 0 <= j < |rows| :: Occupies(rows[j], it, w)
  }

  function FirstEligible(rows: seq<Row>, k: nat, name: string, w: World): (r: Option<nat>)
    requires k <= |rows|
    ensures r.Some? ==> k <= r.value < |rows| && Eligible(rows, rows[r.value], name, w)
    ensures forall j | k <= j < (if r.Some? then r.value else |rows|) :: !Eligible(rows, rows[j], name, w)
    decreases |rows| - k
  {
    if k == |rows| then None else if Eligible(rows, rows[k], name, w) then Some(k)
      else FirstEligible(rows, k + 1, name, w)
  }

  function FirstHeld(rows: seq<Row>, k: nat, name: string): (r: Option<nat>)
    requires k <= |rows|
    ensures r.Some? ==> k <= r.value < |rows| && IsCurrent(rows[r.value].status) && rows[r.value].holder == name
    decreases |rows| - k
  {
    if k == |rows| then None
    else if IsCurrent(rows[k].status) && rows[k].holder == name then Some(k)
    else FirstHeld(rows, k + 1, name)
  }

  function Find(rows: seq<Row>, k: nat, id: string): (r: Option<nat>)
    requires k <= |rows|
    ensures r.Some? ==> k <= r.value < |rows| && rows[r.value].id == id
    ensures r.None? ==> forall j | k <= j < |rows| :: rows[j].id != id
    decreases |rows| - k
  {
    if k == |rows| then None else if rows[k].id == id then Some(k) else Find(rows, k + 1, id)
  }

  // ---- what each operation does -------------------------------------------------------------

  /** The rows, and the ids with a launched gate whose result is not collected yet. */
  datatype Queue = Queue(rows: seq<Row>, live: set<string>)

  function Mark(q: Queue, k: nat, s: Status): Queue
    requires k < |q.rows|
  {
    q.(rows := q.rows[k := q.rows[k].(status := s)])
  }

  function LaunchGate(q: Queue, k: nat, launchable: bool): Queue
    requires k < |q.rows|
  {
    var it := q.rows[k];
    if launchable && it.worktree != "" && it.lane != "" then Mark(q, k, Gated).(live := q.live + {it.id}) else q
  }

  /** Give `name` the first row it may have; `prompt` and `delivered` say whether the row's prompt file can be
      read and its post arrives. */
  function Assign(q: Queue, name: string, w: World, prompt: bool, delivered: bool): Queue {
    match FirstEligible(q.rows, 0, name, w)
    case None => q
    case Some(k) =>
      if !prompt then Mark(q, k, Broken)
      else if !delivered then q
      else q.(rows := q.rows[k := q.rows[k].(status := Dispatched, holder := name)])
  }

  datatype Kind = ReportReady | Question | Ack | OtherKind

  /** What the trigger and the interrupt test make of a report. */
  datatype Judged = Stop | NotGated | Gate(launchable: bool)

  datatype FeedEnv = FeedEnv(enabled: bool, autoGate: bool, judged: Judged, goOn: bool, world: World, prompt: bool,
    delivered: bool)

  predicate WaitsOnOthers(rows: seq<Row>, name: string) {
    exists j | 0 <= j < |rows| :: rows[j].holder == name && (rows[j].status == Gated || rows[j].status == Parked)
  }

  /** The row a message is about, and whether the executor is fed afterwards. */
  function Settle(q: Queue, name: string, kind: Kind, e: FeedEnv): (Queue, bool) {
    match FirstHeld(q.rows, 0, name)
    case None => (q, !(kind == ReportReady && e.autoGate && WaitsOnOthers(q.rows, name)))
    case Some(k) =>
      match kind
      case ReportReady =>
        var q1 := Mark(q, k, Reported);
        if !e.autoGate then (q1, true)
        else (if e.judged.Gate? then LaunchGate(q1, k, e.judged.launchable) else q1, !e.judged.Stop?)
      case Question =>
        (q.(rows := q.rows[k := q.rows[k].(status := Parked, parkedFrom := Some(q.rows[k].status))]), e.goOn)
      case _ => (q, false)
  }

  function Feed(q: Queue, name: string, kind: Kind, e: FeedEnv): Queue {
    if !e.enabled then q
    else
      var (q1, fed) := Settle(q, name, kind, e);
      if fed then Assign(q1, name, e.world, e.prompt, e.delivered) else q1
  }

  function ManualGate(q: Queue, id: string, launchable: bool): Queue {
    match Find(q.rows, 0, id)
    case None => q
    case Some(k) => if IsCurrent(q.rows[k].status) && id !in q.live then LaunchGate(q, k, launchable) else q
  }

  /** How the collection of a finished gate ends for its row. */
  datatype Result = GivenUp | ToPerson | Sent | NotSent

  function Collected(q: Queue, id: string, r: Result): Queue {
    if id !in q.live then q
    else
      var q1 := q.(live := q.live - {id});
      match Find(q.rows, 0, id)
      case None => q1
      case Some(k) => if r.ToPerson? then Mark(q1, k, Reported) else if r.Sent? then Mark(q1, k, InRework) else q1
  }

  /** One request to answer a parked question; `session` says whether the roster has one for the executor. */
  datatype Request = Request(readable: bool, id: string, byHand: bool, session: bool, delivered: bool)

  /** The executor was told: by a post that arrived, or by hand where no post is possible. */
  predicate Told(who: string, a: Request) {
    if IsRelayed(who) || !a.session then a.byHand else a.delivered
  }

  predicate Holds(rows: seq<Row>, who: string, id: string) {
    exists j | 0 <= j < |rows| :: IsCurrent(rows[j].status) && rows[j].holder == who && rows[j].id != id
  }

  /** Where a park returns to; a row without a usable note of it counts as dispatched. */
  function Back(it: Row): Status {
    if it.parkedFrom.Some? && IsCurrent(it.parkedFrom.value) then it.parkedFrom.value else Dispatched
  }

  function Unparked(rows: seq<Row>, it: Row): Row {
    if Holds(rows, it.holder, it.id) then it.(status := Queued, executor := it.holder, holder := "", parkedFrom := None)
    else it.(status := Back(it), parkedFrom := None)
  }

  function Answer(q: Queue, a: Request): Queue {
    match Find(q.rows, 0, a.id)
    case None => q
    case Some(k) =>
      var it := q.rows[k];
      if a.readable && it.status == Parked && it.holder != "" && Told(it.holder, a)
      then q.(rows := q.rows[k := Unparked(q.rows, it)]) else q
  }

  function AnswerAll(q: Queue, batch: seq<Request>): Queue {
    if batch == [] then q else Answer(AnswerAll(q, batch[..|batch| - 1]), batch[|batch| - 1])
  }

  // ---- the dispatcher's own queue, updated in place -----------------------------------------

  class Dispatcher {
    var rows: seq<Row>
    var live: set<string>

    function Contents(): Queue
      reads this
    {
      Queue(rows, live)
    }

    constructor (rows: seq<Row>)
      ensures Contents() == Queue(rows, {})
    {
      this.rows, live := rows, {};
    }

    method WorktreeClaim(it: Row, w: World) returns (c: Claim)
      ensures c == ClaimOf(rows, it, w)
    {
      if it.worktree == "" {
        return Unset;
      }
      if it.worktree[0] == '(' {
        return Fine;
      }
      if it.worktree !in w.onDisk {
        return Missing;
      }
      for j := 0 to |rows|
        invariant forall i | 0 <= i < j :: !Shares(it, rows[i])
      {
        if rows[j].id != it.id && rows[j].worktree == it.worktree && Unfinished(rows[j].status) {
          assert Shares(it, rows[j]);
          return Shared;
        }
      }
      c := Fine;
    }

    method BusyWorktrees(w: World) returns (busy: set<string>)
      ensures busy == BusyTrees(rows, w)
    {
      busy := {};
      for j := 0 to |rows|
        invariant busy == set i | 0 <= i < j && Busies(rows[i], w) :: rows[i].worktree
      {
        if rows[j].worktree != "" && (rows[j].status == Dispatched || rows[j].id in w.codex) {
          busy := busy + {rows[j].worktree};
        }
      }
    }

    method LaneOccupied(it: Row, w: World) returns (held: bool)
      ensures held <==> exists j | 0 <= j < |rows| :: Occupies(rows[j], it, w)
    {
      if !IsReal(it.lane) && !IsReal(it.worktree) {
        return false;
      }
      for j := 0 to |rows|
        invariant forall i | 0 <= i < j :: !Occupies(rows[i], it, w)
      {
        var other := rows[j];
        var gating := w.gates.None? || other.id in w.gates.value;
        if other.id != it.id && (LaneHolding(other.status) || gating) {
          if (IsReal(it.lane) && other.lane == it.lane) || (IsReal(it.worktree) && other.worktree == it.worktree) {
            assert Occupies(other, it, w);
            return true;
          }
        }
      }
      held := false;
    }

    method EligibleItem(name: string, w: World) returns (r: Option<nat>)
      ensures r == FirstEligible(rows, 0, name, w)
    {
      hide ClaimOf, BusyTrees, Occupies;
      var k := 0;
      while k < |rows|
        invariant 0 <= k <= |rows|
        invariant FirstEligible(rows, 0, name, w) == FirstEligible(rows, k, name, w)
      {
        var it := rows[k];
        if it.status == Queued && (it.executor == "" || it.executor == name) && it.id in w.ready {
          var claim := WorktreeClaim(it, w);
          if claim == Fine {
            var busy := BusyWorktrees(w);
            if !IsReal(it.worktree) || it.worktree !in busy {
              var held := LaneOccupied(it, w);
              if !held {
                return Some(k);
              }
            }
          }
        }
        k := k + 1;
      }
      r := None;
    }

    method CurrentItem(name: string) returns (r: Option<nat>)
      ensures r == FirstHeld(rows, 0, name)
    {
      var k := 0;
      while k < |rows|
        invariant 0 <= k <= |rows| && FirstHeld(rows, 0, name) == FirstHeld(rows, k, name)
      {
        if IsCurrent(rows[k].status) && rows[k].holder == name {
          return Some(k);
        }
        k := k + 1;
      }
      r := None;
    }

    method Dispatch(name: string, k: nat, prompt: bool, delivered: bool)
      requires k < |rows|
      modifies this`rows
      ensures rows ==
        if !prompt then old(rows)[k := old(rows)[k].(status := Broken)]
        else if !delivered then old(rows)
        else old(rows)[k := old(rows)[k].(status := Dispatched, holder := name)]
    {
      if !prompt {
        rows := rows[k := rows[k].(status := Broken)];
        return;
      }
      if !delivered {
        return;
      }
      rows := rows[k := rows[k].(status := Dispatched, holder := name)];
    }

    method Launch(k: nat, launchable: bool)
      requires k < |rows|
      modifies this
      ensures Contents() == LaunchGate(old(Contents()), k, launchable)
    {
      if !launchable || rows[k].worktree == "" || rows[k].lane == "" {
        return;
      }
      live := live + {rows[k].id};
      rows := rows[k := rows[k].(status := Gated)];
    }

    /** The part of `feed` that settles the row the message is about. */
    method SettleCurrent(name: string, kind: Kind, e: FeedEnv) returns (fed: bool)
      modifies this
      ensures (Contents(), fed) == Settle(old(Contents()), name, kind, e)
    {
      hide FirstHeld;
      var cur := CurrentItem(name);
      if cur.None? {
        return !(kind == ReportReady && e.autoGate && WaitsOnOthers(rows, name));
      }
      var k := cur.value;
      match kind
      case ReportReady =>
        rows := rows[k := rows[k].(status := Reported)];
        if !e.autoGate {
          return true;
        }
        if e.judged.Gate? {
          Launch(k, e.judged.launchable);
        }
        fed := !e.judged.Stop?;
      case Question =>
        rows := rows[k := rows[k].(status := Parked, parkedFrom := Some(rows[k].status))];
        fed := e.goOn;
      case _ =>
        fed := false;
    }

    method FeedOne(name: string, kind: Kind, e: FeedEnv)
      modifies this
      ensures Contents() == Feed(old(Contents()), name, kind, e)
    {
      hide Settle, FirstEligible;
      if !e.enabled {
        return;
      }
      var fed := SettleCurrent(name, kind, e);
      if fed {
        var nxt := EligibleItem(name, e.world);
        if nxt.Some? {
          Dispatch(name, nxt.value, e.prompt, e.delivered);
        }
      }
    }

    method RowOf(id: string) returns (r: Option<nat>)
      ensures r == Find(rows, 0, id)
    {
      var k := 0;
      while k < |rows|
        invariant 0 <= k <= |rows| && Find(rows, 0, id) == Find(rows, k, id)
      {
        if rows[k].id == id {
          return Some(k);
        }
        k := k + 1;
      }
      r := None;
    }

    /** Every answer request in turn: the post first, and only then the row. */
    method ApplyAnswers(batch: seq<Request>)
      modifies this`rows
      ensures Contents() == AnswerAll(old(Contents()), batch)
    {
      hide Find, Told, Holds;
      var n := 0;
      while n < |batch|
        invariant 0 <= n <= |batch|
        invariant Contents() == AnswerAll(old(Contents()), batch[..n])
      {
        assert batch[..n + 1][..n] == batch[..n];
        var a := batch[n];
        n := n + 1;
        var at := RowOf(a.id);
        if !a.readable || at.None? || rows[at.value].status != Parked || rows[at.value].holder == "" {
          continue;
        }
        var it := rows[at.value];
        if !Told(it.holder, a) {
          continue;
        }
        var back := Back(it);
        if Holds(rows, it.holder, it.id) {
          back := Queued;
          it := it.(executor := it.holder, holder := "");
        }
        rows := rows[at.value := it.(status := back, parkedFrom := None)];
      }
      assert batch[..|batch|] == batch;
    }
  }
}
