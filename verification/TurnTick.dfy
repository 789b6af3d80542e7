/** What the dispatcher does with a session's newest message: retryable provider errors, automatic continues
    and the handled mark, from `check_retryable_error` and the message branch of `tick` in dispatcher.py.
    Times are in seconds. */
module TurnTick {
  import opened PyText
  import StallWatch

  /** The settings error_resume_grace_seconds, error_reresume_block_minutes (in seconds) and max_auto_continue. */
  datatype Limits = Limits(grace: real, window: real, maxAuto: int)

  datatype Talk = Talk(handled: Option<string>, seen: Option<(string, real)>, resumed: Option<real>, auto: nat)

  /** A session's newest message as one tick finds it: its kind and what the tick depends on. */
  datatype Newest =
    | Busy
    | Error(msg: string, when: Option<real>, retryable: bool)
    | ProgressStop(msg: string, holds: bool, gated: bool)
    | PlanReady(msg: string)
    | Ended(msg: string)

  datatype Visit = Visit(now: real, newest: Newest, delivered: bool)

  datatype Did =
    | LeftAlone
    | AlreadyHandled
    | Grace(age: real)
    | Resumed
    | ResumeFailed
    | Blocked
    | NotRetryable
    | Fed
    | WaitsOnGate
    | Continued
    | ContinueFailed
    | Stuck
    | Reviewed
    | Reported

  /** The state after, what was done, and whether a provider error was counted. */
  datatype Step = Step(after: Talk, did: Did, counted: bool)

  function OnError(lim: Limits, s: Talk, v: Visit): Step
    requires v.newest.Error?
  {
    var msg := v.newest.msg;
    if !v.newest.retryable then Step(s.(handled := Some(msg), auto := 0), NotRetryable, false)
    else
      var first := s.seen.None? || s.seen.value.0 != msg;
      var s1 := if first then s.(seen := Some((msg, v.now))) else s;
      var age := if v.newest.when.Some? && v.newest.when.value != 0.0 then v.now - v.newest.when.value
        else v.now - s1.seen.value.1;
      if age < lim.grace then Step(s1, Grace(age), first)
      else if StallWatch.Recent(s.resumed, v.now, lim.window)
        then Step(s1.(handled := Some(msg), auto := 0), Blocked, first)
      else if v.delivered then Step(s1.(handled := Some(msg), resumed := Some(v.now)), Resumed, first)
      else Step(s1.(handled := Some(msg), resumed := Some(v.now), auto := 0), ResumeFailed, first)
  }

  function OnProgressStop(lim: Limits, s: Talk, v: Visit): Step
    requires v.newest.ProgressStop?
  {
    var s1 := s.(handled := Some(v.newest.msg));
    if !v.newest.holds && !v.newest.gated then Step(s1.(auto := 0), Fed, false)
    else if v.newest.gated then Step(s1.(auto := 0), WaitsOnGate, false)
    else if s.auto >= lim.maxAuto then Step(s1, Stuck, false)
    else if v.delivered then Step(s1.(auto := s.auto + 1), Continued, false)
    else Step(s1, ContinueFailed, false)
  }

  function OnVisit(lim: Limits, s: Talk, v: Visit): Step {
    if v.newest.Busy? then Step(s, LeftAlone, false)
    else if s.handled == Some(v.newest.msg) then Step(s, AlreadyHandled, false)
    else
      match v.newest
      case Error(_, _, _) => OnError(lim, s, v)
      case ProgressStop(_, _, _) => OnProgressStop(lim, s, v)
      case PlanReady(msg) => Step(s.(handled := Some(msg)), Reviewed, false)
      case Ended(msg) => Step(s.(handled := Some(msg), auto := 0), Reported, false)
  }

  lemma ErrorMarks(lim: Limits, s: Talk, v: Visit)
    requires v.newest.Error?
    ensures var e := OnError(lim, s, v); var msg := Some(v.newest.msg);
      && (e.did.Grace? || e.did == Resumed || e.did == Blocked || e.did == ResumeFailed || e.did == NotRetryable)
      && e.after.handled == (if e.did.Grace? then s.handled else msg)
      && e.after.auto == (if e.did.Grace? || e.did == Resumed then s.auto else 0)
  {
  }

  lemma StopMarks(lim: Limits, s: Talk, v: Visit)
    requires v.newest.ProgressStop?
    ensures var e := OnProgressStop(lim, s, v);
      e.after == s.(handled := Some(v.newest.msg), auto := e.after.auto) && !e.counted
    ensures forall h :: OnProgressStop(lim, s.(handled := h), v) == OnProgressStop(lim, s, v)
  {
  }

  // ---- the dispatcher's maps ----------------------------------------------------------------

  class TalkMaps {
    var handled: map<string, string>
    var errSeen: map<string, (string, real)>
    var errResumed: map<string, real>
    var auto: map<string, nat>
    var providerErrors: nat

    function Of(sid: string): Talk
      reads this
    {
      Talk(if sid in handled then Some(handled[sid]) else None,
           if sid in errSeen then Some(errSeen[sid]) else None,
           if sid in errResumed then Some(errResumed[sid]) else None,
           if sid in auto then auto[sid] else 0)
    }

    constructor ()
      ensures providerErrors == 0 && forall sid :: Of(sid) == Talk(None, None, None, 0)
    {
      handled, errSeen, errResumed, auto, providerErrors := map[], map[], map[], map[], 0;
    }

    /** The first sighting of an error message: note when, and count it. */
    method FirstSighting(sid: string, msg: string, now: real)
      modifies this`errSeen, this`providerErrors
      ensures var first := sid !in old(errSeen) || old(errSeen)[sid].0 != msg;
        && errSeen == (if first then old(errSeen)[sid := (msg, now)] else old(errSeen))
        && providerErrors == old(providerErrors) + if first then 1 else 0
    {
      if sid !in errSeen || errSeen[sid].0 != msg {
        errSeen := errSeen[sid := (msg, now)];
        providerErrors := providerErrors + 1;
      }
    }

    /** -> grace, resumed, or nothing. */
    method CheckRetryableError(lim: Limits, sid: string, v: Visit) returns (did: Did)
      requires v.newest.Error?
      modifies this`errSeen, this`errResumed, this`providerErrors
      ensures var e := OnError(lim, old(Of(sid)), v);
        && did == e.did && providerErrors == old(providerErrors) + (if e.counted then 1 else 0)
        && Of(sid).seen == e.after.seen && Of(sid).resumed == e.after.resumed
      ensures errSeen - {sid} == old(errSeen) - {sid} && errResumed - {sid} == old(errResumed) - {sid}
    {
      hide StallWatch.Recent;
      if !v.newest.retryable {
        return NotRetryable;
      }
      FirstSighting(sid, v.newest.msg, v.now);
      var age := v.now - errSeen[sid].1;
      if v.newest.when.Some? && v.newest.when.value != 0.0 {
        age := v.now - v.newest.when.value;
      }
      if age < lim.grace {
        return Grace(age);
      }
      if StallWatch.Recent(if sid in errResumed then Some(errResumed[sid]) else None, v.now, lim.window) {
        return Blocked;
      }
      errResumed := errResumed[sid := v.now];
      did := if v.delivered then Resumed else ResumeFailed;
    }

    /** A turn that ended without a marker: feed it, let it wait on its gate, continue it, or give up. */
    method StoppedMidStep(lim: Limits, sid: string, v: Visit) returns (did: Did)
      requires v.newest.ProgressStop?
      modifies this`auto
      ensures var e := OnProgressStop(lim, old(Of(sid)), v); did == e.did && Of(sid).auto == e.after.auto
      ensures auto - {sid} == old(auto) - {sid}
    {
      if !v.newest.holds && !v.newest.gated {
        auto := auto[sid := 0];
        return Fed;
      }
      if v.newest.gated {
        auto := auto[sid := 0];
        return WaitsOnGate;
      }
      var n := if sid in auto then auto[sid] else 0;
      if n < lim.maxAuto {
        if v.delivered {
          auto := auto[sid := n + 1];
          return Continued;
        }
        return ContinueFailed;
      }
      did := Stuck;
    }

    /** What no visit to session `sid` may touch. */
    twostate predicate OthersKept(sid: string)
      reads this
    {
      && handled - {sid} == old(handled) - {sid} && auto - {sid} == old(auto) - {sid}
      && errSeen - {sid} == old(errSeen) - {sid} && errResumed - {sid} == old(errResumed) - {sid}
    }

    /** An error not handled yet: a retryable one before the handled mark is set, so that its grace can pass. */
    method HandleError(lim: Limits, sid: string, v: Visit) returns (did: Did)
      requires v.newest.Error? && Of(sid).handled != Some(v.newest.msg)
      modifies this
      ensures var e := OnError(lim, old(Of(sid)), v);
        Of(sid) == e.after && did == e.did && providerErrors == old(providerErrors) + if e.counted then 1 else 0
      ensures OthersKept(sid)
    {
      hide OnError;
      ErrorMarks(lim, Of(sid), v);
      did := CheckRetryableError(lim, sid, v);
      if did.Grace? {
        return;
      }
      handled := handled[sid := v.newest.msg];
      if did == Resumed {
        return;
      }
      auto := auto[sid := 0];
    }

    /** One session's turn in a tick. */
    method Handle(lim: Limits, sid: string, v: Visit) returns (did: Did)
      modifies this
      ensures var e := OnVisit(lim, old(Of(sid)), v);
        Of(sid) == e.after && did == e.did && providerErrors == old(providerErrors) + if e.counted then 1 else 0
      ensures OthersKept(sid)
    {
      hide OnError, OnProgressStop;
      if v.newest.Busy? {
        return LeftAlone;
      }
      var msg := v.newest.msg;
      if sid in handled && handled[sid] == msg {
        return AlreadyHandled;
      }
      if v.newest.Error? {
        did := HandleError(lim, sid, v);
        return;
      }
      if v.newest.ProgressStop? {
        StopMarks(lim, Of(sid), v);
      }
      handled := handled[sid := msg];
      if v.newest.PlanReady? {
        return Reviewed;
      }
      if v.newest.ProgressStop? {
        did := StoppedMidStep(lim, sid, v);
        return;
      }
      auto := auto[sid := 0];
      did := Reported;
    }
  }

  // ---- single steps -------------------------------------------------------------------------

  predicate Attempt(d: Did) {
    d == Resumed || d == ResumeFailed
  }

  /** The message was dealt with at this tick. */
  predicate Handles(d: Did) {
    d != LeftAlone && d != AlreadyHandled && !d.Grace?
  }

  /** The session did something else than stop at a step. */
  predicate Resets(d: Did) {
    d == Blocked || d == ResumeFailed || d == NotRetryable || d == Fed || d == WaitsOnGate || d == Reported
  }

  lemma ResumedStep(lim: Limits, s: Talk, v: Visit)
    ensures var e := OnVisit(lim, s, v);
      if Attempt(e.did) then e.after.resumed == Some(v.now) && !StallWatch.Recent(s.resumed, v.now, lim.window)
      else e.after.resumed == s.resumed
  {
  }

  lemma HandledStep(lim: Limits, s: Talk, v: Visit)
    ensures var e := OnVisit(lim, s, v);
      && (if Handles(e.did) then !v.newest.Busy? && e.after.handled == Some(v.newest.msg)
        else e.after.handled == s.handled)
      && (!v.newest.Busy? && s.handled == Some(v.newest.msg) ==> e == Step(s, AlreadyHandled, false))
  {
  }

  lemma CountedStep(lim: Limits, s: Talk, v: Visit)
    ensures var e := OnVisit(lim, s, v);
      if e.counted
      then v.newest.Error? && e.after.seen == Some((v.newest.msg, v.now))
        && (s.seen.Some? ==> s.seen.value.0 != v.newest.msg)
      else e.after.seen == s.seen
  {
  }

  lemma AutoStep(lim: Limits, s: Talk, v: Visit)
    ensures var e := OnVisit(lim, s, v);
      && e.after.auto == (if Resets(e.did) then 0 else if e.did == Continued then s.auto + 1 else s.auto)
      && (e.did == Continued ==> s.auto < lim.maxAuto && !Resets(e.did))
      && (e.did == Stuck <==>
            (&& v.newest.ProgressStop? && v.newest.holds && !v.newest.gated
             && s.handled != Some(v.newest.msg) && s.auto >= lim.maxAuto))
  {
  }

  /** How old an error is at a visit, if it was first seen at `first`. */
  function Age(v: Visit, first: real): real
    requires v.newest.Error?
  {
    if v.newest.when.Some? && v.newest.when.value != 0.0 then v.now - v.newest.when.value else v.now - first
  }

  lemma GraceStep(lim: Limits, s: Talk, v: Visit)
    requires v.newest.Error? && v.newest.retryable && s.handled != Some(v.newest.msg)
    ensures var e := OnVisit(lim, s, v);
      && e.after.seen.Some? && e.after.seen.value.0 == v.newest.msg
      && (e.did.Grace? <==> Age(v, e.after.seen.value.1) < lim.grace)
      && (Handles(e.did) <==> !e.did.Grace?)
  {
  }

  // ---- all sequences of ticks ---------------------------------------------------------------

  const FRESH := Talk(None, None, None, 0)

  function After(lim: Limits, run: seq<Visit>): Talk {
    if run == [] then FRESH else OnVisit(lim, After(lim, run[..|run| - 1]), run[|run| - 1]).after
  }

  function StepAt(lim: Limits, run: seq<Visit>, k: nat): Step
    requires k < |run|
  {
    OnVisit(lim, After(lim, run[..k]), run[k])
  }

  /** The state before tick `k`. */
  function Before(lim: Limits, run: seq<Visit>, k: nat): Talk
    requires k <= |run|
  {
    After(lim, run[..k])
  }

  lemma BeforeStep(lim: Limits, run: seq<Visit>, k: nat)
    requires k < |run|
    ensures Before(lim, run, k + 1) == StepAt(lim, run, k).after
    ensures StepAt(lim, run, k) == OnVisit(lim, Before(lim, run, k), run[k])
  {
    assert run[..k + 1][..k] == run[..k];
  }

  ghost predicate Clock(run: seq<Visit>) {
    && (forall i, j | 0 <= i <= j < |run| :: run[i].now <= run[j].now)
    && forall i | 0 <= i < |run| :: 0.0 < run[i].now
  }

  lemma {:induction false} ResumedIsLatest(lim: Limits, run: seq<Visit>, j: nat, k: nat)
    requires Clock(run) && j < k <= |run| && Attempt(StepAt(lim, run, j).did)
    ensures var r := Before(lim, run, k).resumed; r.Some? && run[j].now <= r.value && r.value > 0.0
  {
    hide OnVisit, Before, StepAt, Attempt;
    BeforeStep(lim, run, k - 1);
    ResumedStep(lim, Before(lim, run, k - 1), run[k - 1]);
    if k - 1 == j {
    } else {
      ResumedIsLatest(lim, run, j, k - 1);
    }
  }

  /** Two resume attempts on one session are at least a window apart. */
  lemma AttemptsApart(lim: Limits, run: seq<Visit>, j: nat, k: nat)
    requires Clock(run) && j < k < |run|
    requires Attempt(StepAt(lim, run, j).did) && Attempt(StepAt(lim, run, k).did)
    ensures run[k].now - run[j].now >= lim.window
  {
    hide OnVisit, Before, StepAt, Attempt;
    ResumedIsLatest(lim, run, j, k);
    BeforeStep(lim, run, k);
    ResumedStep(lim, Before(lim, run, k), run[k]);
  }

  lemma {:induction false} HandledStays(lim: Limits, run: seq<Visit>, j: nat, k: nat)
    requires j < k <= |run| && Handles(StepAt(lim, run, j).did)
    requires forall i | j < i < k :: !Handles(StepAt(lim, run, i).did)
    ensures !run[j].newest.Busy? && Before(lim, run, k).handled == Some(run[j].newest.msg)
  {
    hide OnVisit, Before, StepAt, Handles;
    BeforeStep(lim, run, k - 1);
    HandledStep(lim, Before(lim, run, k - 1), run[k - 1]);
    if k - 1 == j {
    } else {
      HandledStays(lim, run, j, k - 1);
    }
  }

  /** Every message is handled at most once until another one is: no error is resumed, reported or counted
      again, and no stop is continued again, while its message stays the newest. */
  lemma HandledOnce(lim: Limits, run: seq<Visit>, j: nat, k: nat)
    requires j < k < |run| && Handles(StepAt(lim, run, j).did) && !run[k].newest.Busy?
    requires !run[j].newest.Busy? && run[k].newest.msg == run[j].newest.msg
    requires forall i | j < i < k :: !Handles(StepAt(lim, run, i).did)
    ensures StepAt(lim, run, k) == Step(Before(lim, run, k), AlreadyHandled, false)
  {
    hide OnVisit, Before, StepAt, Handles;
    HandledStays(lim, run, j, k);
    BeforeStep(lim, run, k);
    HandledStep(lim, Before(lim, run, k), run[k]);
  }

  /** The first tick after `j` that handled a message. */
  lemma {:induction false} FirstHandler(lim: Limits, run: seq<Visit>, j: nat, k: nat) returns (i: nat)
    requires j < k <= |run| && exists m | j < m < k :: Handles(StepAt(lim, run, m).did)
    ensures j < i < k && Handles(StepAt(lim, run, i).did) && forall m | j < m < i :: !Handles(StepAt(lim, run, m).did)
    decreases k - j
  {
    hide StepAt, Handles;
    if exists m | j < m < k - 1 :: Handles(StepAt(lim, run, m).did) {
      i := FirstHandler(lim, run, j, k - 1);
    } else {
      i := k - 1;
    }
  }

  predicate Posts(d: Did) {
    d == Continued || d == ContinueFailed
  }

  /** The comment beside the post says the next tick tries a lost continue again. It does not: over any run, however
      many ticks find the session stopped at that message, a continue is posted for it again only after some tick
      between handled another message; and the lost one is not counted. */
  lemma LostContinueIsNotRetried(lim: Limits, run: seq<Visit>, j: nat, k: nat) returns (i: nat)
    requires j < k < |run| && StepAt(lim, run, j).did == ContinueFailed && Posts(StepAt(lim, run, k).did)
    requires !run[j].newest.Busy? && !run[k].newest.Busy? && run[k].newest.msg == run[j].newest.msg
    ensures j < i < k && Handles(StepAt(lim, run, i).did)
    ensures !run[i].newest.Busy? && run[i].newest.msg != run[j].newest.msg
    ensures StepAt(lim, run, j).after.auto == Before(lim, run, j).auto
  {
    hide OnVisit, Before, StepAt;
    BeforeStep(lim, run, j);
    AutoStep(lim, Before(lim, run, j), run[j]);
    if forall m | j < m < k :: !Handles(StepAt(lim, run, m).did) {
      HandledOnce(lim, run, j, k);
    }
    i := FirstHandler(lim, run, j, k);
    HandledStays(lim, run, j, i);
    BeforeStep(lim, run, i);
    HandledStep(lim, Before(lim, run, i), run[i]);
  }

  // ---- grace --------------------------------------------------------------------------------

  /** Ticks `j` to `k` (excluded) all found the session stopped at the retryable error of tick `j`, which tick
      `j` was the first to see. */
  ghost predicate StoppedFrom(lim: Limits, run: seq<Visit>, j: nat, k: nat)
    requires j < k <= |run|
  {
    && StepAt(lim, run, j).counted && run[j].newest.Error?
    && forall i | j <= i < k ::
         (run[i].newest.Error? && run[i].newest.retryable && run[i].newest.msg == run[j].newest.msg)
  }

  lemma {:induction false} FirstSeenStays(lim: Limits, run: seq<Visit>, j: nat, k: nat)
    requires j < k <= |run| && StoppedFrom(lim, run, j, k)
    ensures Before(lim, run, k).seen == Some((run[j].newest.msg, run[j].now))
  {
    hide OnVisit, Before, StepAt;
    BeforeStep(lim, run, k - 1);
    CountedStep(lim, Before(lim, run, k - 1), run[k - 1]);
    if k - 1 == j {
    } else {
      FirstSeenStays(lim, run, j, k - 1);
    }
  }

  lemma CountedIsUnhandled(lim: Limits, s: Talk, v: Visit)
    requires OnVisit(lim, s, v).counted
    ensures v.newest.Error? && s.handled != Some(v.newest.msg)
  {
  }

  /** An error waits exactly while it is younger than the grace, and never hangs: from its first tick `j` on,
      with or without a timestamp, tick `k` leaves it waiting if and only if no tick up to `k` has found it
      old enough; the first that does marks it handled, after at most one attempt to resume. */
  lemma {:induction false} WaitsExactlyWhileYoung(lim: Limits, run: seq<Visit>, j: nat, k: nat)
    requires j <= k < |run| && StoppedFrom(lim, run, j, k + 1)
    ensures StepAt(lim, run, k).did.Grace? <==> forall i | j <= i <= k :: Age(run[i], run[j].now) < lim.grace
    ensures StepAt(lim, run, k).after.handled == Some(run[j].newest.msg) <==> !StepAt(lim, run, k).did.Grace?
  {
    hide OnVisit, Before, StepAt, Handles, Age;
    var s := Before(lim, run, k);
    BeforeStep(lim, run, k);
    FirstSeenStays(lim, run, j, k + 1);
    HandledStep(lim, s, run[k]);
    if k > j {
      WaitsExactlyWhileYoung(lim, run, j, k - 1);
      BeforeStep(lim, run, k - 1);
    } else {
      CountedIsUnhandled(lim, s, run[k]);
    }
    if s.handled != Some(run[k].newest.msg) {
      GraceStep(lim, s, run[k]);
    }
  }

  /** The latest tick before `k` that counted an error. */
  function LastCounted(lim: Limits, run: seq<Visit>, k: nat): (r: Option<nat>)
    requires k <= |run|
    ensures r.Some? ==> r.value < k && StepAt(lim, run, r.value).counted
    ensures forall i | (if r.Some? then r.value + 1 else 0) <= i < k :: !StepAt(lim, run, i).counted
  {
    if k == 0 then None else if StepAt(lim, run, k - 1).counted then Some(k - 1) else LastCounted(lim, run, k - 1)
  }

  lemma {:induction false} SeenIsLastCounted(lim: Limits, run: seq<Visit>, k: nat)
    requires k <= |run|
    ensures var s, last := Before(lim, run, k).seen, LastCounted(lim, run, k);
      if last.None? then s.None?
      else run[last.value].newest.Error? && s == Some((run[last.value].newest.msg, run[last.value].now))
  {
    hide OnVisit, Before, StepAt;
    if k == 0 {
      NothingSeenYet(lim, run);
    } else {
      SeenIsLastCounted(lim, run, k - 1);
      BeforeStep(lim, run, k - 1);
      CountedStep(lim, Before(lim, run, k - 1), run[k - 1]);
    }
  }

  lemma NothingSeenYet(lim: Limits, run: seq<Visit>)
    ensures Before(lim, run, 0) == FRESH
  {
    assert run[..0] == [];
  }

  lemma CountedWhen(lim: Limits, s: Talk, v: Visit)
    ensures OnVisit(lim, s, v).counted <==>
      (&& v.newest.Error? && v.newest.retryable && s.handled != Some(v.newest.msg)
       && (s.seen.Some? ==> s.seen.value.0 != v.newest.msg))
  {
  }

  /** The error at tick `k` is the one counted last. */
  predicate CountedLast(lim: Limits, run: seq<Visit>, k: nat)
    requires k < |run| && run[k].newest.Error?
  {
    var last := LastCounted(lim, run, k);
    last.Some? && run[last.value].newest.Error? && run[last.value].newest.msg == run[k].newest.msg
  }

  /** What raises the hourly count: a tick counts exactly if it finds a retryable error that is not handled and is
      not the one counted last, however many ticks look at it. */
  lemma CountedExactly(lim: Limits, run: seq<Visit>, k: nat)
    requires k < |run|
    ensures StepAt(lim, run, k).counted <==>
      (&& run[k].newest.Error? && run[k].newest.retryable
       && Before(lim, run, k).handled != Some(run[k].newest.msg) && !CountedLast(lim, run, k))
  {
    hide OnVisit, Before, StepAt, LastCounted;
    SeenIsLastCounted(lim, run, k);
    BeforeStep(lim, run, k);
    CountedWhen(lim, Before(lim, run, k), run[k]);
  }

  /** No error message is counted twice unless another one was counted between. */
  lemma CountedOnce(lim: Limits, run: seq<Visit>, j: nat, k: nat) returns (i: nat)
    requires j < k < |run| && StepAt(lim, run, j).counted && StepAt(lim, run, k).counted
    requires run[j].newest.Error? && run[k].newest.Error? && run[j].newest.msg == run[k].newest.msg
    ensures j < i < k && StepAt(lim, run, i).counted
    ensures run[i].newest.Error? && run[i].newest.msg != run[k].newest.msg
  {
    hide OnVisit, Before, StepAt;
    CountedExactly(lim, run, k);
    SeenIsLastCounted(lim, run, k);
    i := LastCounted(lim, run, k).value;
  }

  // ---- automatic continues ------------------------------------------------------------------

  /** How many continues were delivered in ticks `j` to `k` (excluded). */
  function Delivered(lim: Limits, run: seq<Visit>, j: nat, k: nat): nat
    requires j <= k <= |run|
    decreases k - j
  {
    if j == k then 0 else Delivered(lim, run, j, k - 1) + if StepAt(lim, run, k - 1).did == Continued then 1 else 0
  }

  /** Where the counting of continues last began anew. */
  function LastReset(lim: Limits, run: seq<Visit>, k: nat): (j: nat)
    requires k <= |run|
    ensures j <= k
    ensures forall i | j <= i < k :: !Resets(StepAt(lim, run, i).did)
  {
    if k == 0 then 0 else if Resets(StepAt(lim, run, k - 1).did) then k else LastReset(lim, run, k - 1)
  }

  lemma {:induction false} AutoCountsDelivered(lim: Limits, run: seq<Visit>, k: nat)
    requires k <= |run| && lim.maxAuto >= 0
    ensures Before(lim, run, k).auto == Delivered(lim, run, LastReset(lim, run, k), k) <= lim.maxAuto
  {
    if k == 0 {
      assert run[..0] == [];
    } else {
      hide OnVisit, Before, StepAt, Resets;
      AutoCountsDelivered(lim, run, k - 1);
      BeforeStep(lim, run, k - 1);
      AutoStep(lim, Before(lim, run, k - 1), run[k - 1]);
    }
  }

  /** A session is called stuck exactly at an unhandled stop with an item to continue, after exactly as many
      delivered continues as the setting allows with nothing else between: lost posts do not count, and no
      more continues than that are ever sent in a row. */
  lemma {:induction false} StuckExactly(lim: Limits, run: seq<Visit>, k: nat)
    requires k < |run| && lim.maxAuto >= 0
    ensures StepAt(lim, run, k).did == Stuck <==>
      (&& run[k].newest.ProgressStop? && run[k].newest.holds && !run[k].newest.gated
       && Before(lim, run, k).handled != Some(run[k].newest.msg)
       && Delivered(lim, run, LastReset(lim, run, k), k) == lim.maxAuto)
    ensures StepAt(lim, run, k).did == Continued ==> Delivered(lim, run, LastReset(lim, run, k), k) < lim.maxAuto
  {
    hide OnVisit, Before, StepAt, Resets, Delivered, LastReset;
    AutoCountsDelivered(lim, run, k);
    BeforeStep(lim, run, k);
    AutoStep(lim, Before(lim, run, k), run[k]);
  }

  // ---- the whole of a tick, from what went before -------------------------------------------

  /** The latest tick before `k` that dealt with a message. */
  function LastHandled(lim: Limits, run: seq<Visit>, k: nat): (r: Option<nat>)
    requires k <= |run|
    ensures r.Some? ==> r.value < k && Handles(StepAt(lim, run, r.value).did)
    ensures forall i | (if r.Some? then r.value + 1 else 0) <= i < k :: !Handles(StepAt(lim, run, i).did)
  {
    if k == 0 then None
    else if Handles(StepAt(lim, run, k - 1).did) then Some(k - 1)
    else LastHandled(lim, run, k - 1)
  }

  lemma {:induction false} HandledIsLast(lim: Limits, run: seq<Visit>, k: nat)
    requires k <= |run|
    ensures var s, last := Before(lim, run, k).handled, LastHandled(lim, run, k);
      if last.None? then s.None?
      else !run[last.value].newest.Busy? && s == Some(run[last.value].newest.msg)
  {
    hide OnVisit, Before, StepAt, Handles;
    if k == 0 {
      NothingSeenYet(lim, run);
    } else {
      HandledIsLast(lim, run, k - 1);
      BeforeStep(lim, run, k - 1);
      HandledStep(lim, Before(lim, run, k - 1), run[k - 1]);
    }
  }

  /** The message of tick `k` is the one dealt with last. */
  predicate DealtWith(lim: Limits, run: seq<Visit>, k: nat)
    requires k < |run| && !run[k].newest.Busy?
  {
    var last := LastHandled(lim, run, k);
    last.Some? && !run[last.value].newest.Busy? && run[last.value].newest.msg == run[k].newest.msg
  }

  lemma {:induction false} ResumedWasTried(lim: Limits, run: seq<Visit>, k: nat) returns (j: nat)
    requires k <= |run| && Before(lim, run, k).resumed.Some?
    ensures j < k && Attempt(StepAt(lim, run, j).did) && Before(lim, run, k).resumed == Some(run[j].now)
  {
    hide OnVisit, Before, StepAt, Attempt;
    NothingSeenYet(lim, run);
    BeforeStep(lim, run, k - 1);
    ResumedStep(lim, Before(lim, run, k - 1), run[k - 1]);
    if Attempt(StepAt(lim, run, k - 1).did) {
      j := k - 1;
    } else {
      j := ResumedWasTried(lim, run, k - 1);
    }
  }

  /** A resume was tried less than the window before tick `k`. */
  ghost predicate TriedLately(lim: Limits, run: seq<Visit>, k: nat)
    requires k < |run|
  {
    exists j | 0 <= j < k :: Attempt(StepAt(lim, run, j).did) && run[k].now - run[j].now < lim.window
  }

  lemma RecentIsLately(lim: Limits, run: seq<Visit>, k: nat)
    requires Clock(run) && k < |run|
    ensures StallWatch.Recent(Before(lim, run, k).resumed, run[k].now, lim.window) <==> TriedLately(lim, run, k)
  {
    hide Before, StepAt, Attempt;
    if TriedLately(lim, run, k) {
      var j :| 0 <= j < k && Attempt(StepAt(lim, run, j).did) && run[k].now - run[j].now < lim.window;
      ResumedIsLatest(lim, run, j, k);
    }
    if Before(lim, run, k).resumed.Some? {
      var j := ResumedWasTried(lim, run, k);
    }
  }

  /** When the error of tick `k` was first seen: at the tick that counted it, if it is the one counted last. */
  function FirstSeen(lim: Limits, run: seq<Visit>, k: nat): real
    requires k < |run| && run[k].newest.Error?
  {
    if CountedLast(lim, run, k) then run[LastCounted(lim, run, k).value].now else run[k].now
  }

  /** What a tick does with a message that was not dealt with, by the history of the session. */
  ghost function Due(lim: Limits, run: seq<Visit>, k: nat): Did
    requires k < |run|
  {
    match run[k].newest
    case Busy => LeftAlone
    case Error(_, when, retryable) =>
      var age := run[k].now - if when.Some? && when.value != 0.0 then when.value else FirstSeen(lim, run, k);
      if !retryable then NotRetryable
      else if age < lim.grace then Grace(age)
      else if TriedLately(lim, run, k) then Blocked
      else if run[k].delivered then Resumed
      else ResumeFailed
    case ProgressStop(_, holds, gated) =>
      if gated then WaitsOnGate
      else if !holds then Fed
      else if Delivered(lim, run, LastReset(lim, run, k), k) >= lim.maxAuto then Stuck
      else if run[k].delivered then Continued
      else ContinueFailed
    case PlanReady(_) => Reviewed
    case Ended(_) => Reported
  }

  lemma StepDoes(lim: Limits, s: Talk, v: Visit)
    requires !v.newest.Busy? && s.handled != Some(v.newest.msg)
    ensures var did := OnVisit(lim, s, v).did;
      match v.newest
      case Error(msg, when, retryable) =>
        var seen := if s.seen.Some? && s.seen.value.0 == msg then s.seen.value.1 else v.now;
        var age := v.now - if when.Some? && when.value != 0.0 then when.value else seen;
        did == (if !retryable then NotRetryable
          else if age < lim.grace then Grace(age)
          else if StallWatch.Recent(s.resumed, v.now, lim.window) then Blocked
          else if v.delivered then Resumed
          else ResumeFailed)
      case ProgressStop(_, holds, gated) =>
        did == (if gated then WaitsOnGate
          else if !holds then Fed
          else if s.auto >= lim.maxAuto then Stuck
          else if v.delivered then Continued
          else ContinueFailed)
      case PlanReady(_) => did == Reviewed
      case Ended(_) => did == Reported
  {
    hide StallWatch.Recent;
  }

  /** What a tick does, exactly, from the ticks before it alone: nothing to a busy session or to the message dealt with
      last; an error is waited for while it is young, then resumed, unless a resume was tried within the window; a stop
      is continued until as many continues were delivered in a row as the setting allows, then called stuck. */
  lemma TickDoesExactly(lim: Limits, run: seq<Visit>, k: nat)
    requires Clock(run) && k < |run| && lim.maxAuto >= 0
    ensures StepAt(lim, run, k).did ==
      if !run[k].newest.Busy? && DealtWith(lim, run, k) then AlreadyHandled else Due(lim, run, k)
  {
    hide OnVisit, Before, StepAt, LastHandled, LastCounted, Delivered, LastReset, TriedLately;
    BeforeStep(lim, run, k);
    HandledIsLast(lim, run, k);
    if run[k].newest.Busy? {
      BusyIsLeft(lim, Before(lim, run, k), run[k]);
    } else if DealtWith(lim, run, k) {
      HandledStep(lim, Before(lim, run, k), run[k]);
    } else {
      StepDoes(lim, Before(lim, run, k), run[k]);
      if run[k].newest.Error? {
        SeenIsLastCounted(lim, run, k);
        RecentIsLately(lim, run, k);
      } else {
        AutoCountsDelivered(lim, run, k);
      }
    }
  }

  lemma BusyIsLeft(lim: Limits, s: Talk, v: Visit)
    requires v.newest.Busy?
    ensures OnVisit(lim, s, v).did == LeftAlone
  {
  }
}
