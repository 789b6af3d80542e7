/** The watchdog looking at the real protocol: runs of the mkdir lock sampled by the poll. */
module LockMonitor {
  import opened PyText
  import opened BoxLock
  import LW = LockWatch

  /** What happens next: a process takes a step, or the watchdog polls. */
  datatype Tick = Acts(a: Action) | Looks(t: real)

  /** The owner text each process writes. */
  type Tokens = Pid -> string

  ghost predicate Unique(tokens: Tokens) {
    && (forall p: Pid :: tokens(p) != "")
    && (forall p: Pid, q: Pid | tokens(p) == tokens(q) :: p == q)
  }

  /** `snapshot`: one atomic look at the lock directory. */
  function Look(w: World, t: real, tokens: Tokens): LW.Snap {
    if !w.dir then LW.Snap(t, false, 0.0, false, 0.0, None)
    else if w.owner.None? then LW.Snap(t, true, w.dirTime, false, 0.0, None)
    else LW.Snap(t, true, w.dirTime, true, w.ownerTime, Some(tokens(w.owner.value)))
  }

  const TICK := 0.001  // lock generations are at least this far apart

  /** What honest clocks promise: the directory of one lock is newer by a tick than that of the lock before it, and
      the owner file is written within a few seconds of the mkdir. */
  predicate Timely(w: World, a: Action) {
    match a
    case Mkdir(p, t) => t >= w.stamp + TICK
    case WriteOwner(p, t, bump) => w.dirTime <= t <= w.dirTime + LW.ACQUIRE_SKEW_S
    case _ => true
  }

  /** The lock invariant, and what honest clocks make of it. */
  ghost predicate Timed(w: World) {
    && Inv(w)
    && (w.claim.Some? && w.procs[w.claim.value].pc == Made ==> w.dirTime >= w.stamp + TICK)
    && (w.owner.Some? ==> w.stamp == w.dirTime && w.ownerTime <= w.dirTime + LW.ACQUIRE_SKEW_S)
  }

  lemma StepKeepsTimed(w: World, a: Action, named: set<Pid>)
    requires Timed(w) && Enabled(w, a, named) && UndisturbedStep(w, a) && Timely(w, a)
    ensures Timed(Step(w, a, named))
  {
    StepKeepsInv(w, a, named);
  }

  predicate Possible(w: World, ticks: seq<Tick>, named: set<Pid>)
    decreases |ticks|
  {
    if ticks == [] then true
    else match ticks[0]
      case Looks(_) => Possible(w, ticks[1..], named)
      case Acts(a) =>
        Enabled(w, a, named) && UndisturbedStep(w, a) && Timely(w, a) && Possible(Step(w, a, named), ticks[1..], named)
  }

  /** What the watchdog knows after a sampled run. */
  function Watched(w: World, watch: LW.Watch, ticks: seq<Tick>, named: set<Pid>, tokens: Tokens): LW.Watch
    requires Possible(w, ticks, named)
    decreases |ticks|
  {
    if ticks == [] then watch
    else match ticks[0]
      case Looks(t) => Watched(w, LW.Poll(watch, Look(w, t, tokens)), ticks[1..], named, tokens)
      case Acts(a) => Watched(Step(w, a, named), watch, ticks[1..], named, tokens)
  }

  predicate HasWritten(pc: Pc) {
    pc == Holding || pc == Releasing || pc == Emptied || pc == Done
  }

  /** Once `holder` was seen as owner under mtime `d`: it never writes again, and whoever owns the lock
      next does so under an mtime at least one tick later. */
  ghost predicate SeenBefore(w: World, holder: Pid, d: real) {
    && holder in w.procs && HasWritten(w.procs[holder].pc)
    && w.stamp >= d
    && (w.owner.Some? && w.owner.value != holder ==> w.dirTime >= d + TICK)
  }

  lemma StepKeepsSeen(w: World, a: Action, named: set<Pid>, holder: Pid, d: real)
    requires Timed(w) && Enabled(w, a, named) && UndisturbedStep(w, a) && Timely(w, a) && SeenBefore(w, holder, d)
    ensures SeenBefore(Step(w, a, named), holder, d)
  {
  }

  /** What ties the watchdog's memory to the lock. */
  ghost predicate Linked(w: World, watch: LW.Watch, tokens: Tokens) {
    watch.prev.Some? && watch.prev.value.present && LW.HasText(watch.prev.value) ==>
      exists holder: Pid ::
        watch.prev.value.ownerText == Some(tokens(holder)) && SeenBefore(w, holder, watch.prev.value.dirMtime)
  }

  ghost predicate NoneMoved(watch: LW.Watch) {
    forall k | 0 <= k < |watch.events| :: watch.events[k].sub != LW.OwnerMovedInPlace
  }

  lemma StepKeepsLink(w: World, a: Action, named: set<Pid>, watch: LW.Watch, tokens: Tokens)
    requires Timed(w) && Enabled(w, a, named) && UndisturbedStep(w, a) && Timely(w, a) && Linked(w, watch, tokens)
    ensures Linked(Step(w, a, named), watch, tokens)
  {
    hide Timed, Timely, Enabled, Step, UndisturbedStep, SeenBefore;
    if watch.prev.Some? && watch.prev.value.present && LW.HasText(watch.prev.value) {
      var d := watch.prev.value.dirMtime;
      var holder: Pid :| watch.prev.value.ownerText == Some(tokens(holder)) && SeenBefore(w, holder, d);
      StepKeepsSeen(w, a, named, holder, d);
    }
  }

  lemma QuietChecks(watch: LW.Watch, cur: LW.Snap)
    requires NoneMoved(watch)
    ensures NoneMoved(LW.CheckChurn(watch, cur)) && NoneMoved(LW.CheckHalf(watch, cur))
      && NoneMoved(LW.CheckLong(watch, cur))
    ensures LW.CheckChurn(watch, cur).prev == watch.prev
  {
  }

  lemma QuietOwner(watch: LW.Watch, cur: LW.Snap)
    requires NoneMoved(watch) && !LW.Skewed(cur) && (LW.Moved(watch, cur) ==> !LW.SameDir(watch.prev.value, cur))
    ensures NoneMoved(LW.CheckOwner(watch, cur))
  {
  }

  predicate ShowsOtherOwner(watch: LW.Watch, cur: LW.Snap) {
    && watch.prev.Some? && watch.prev.value.present && LW.HasText(watch.prev.value) && LW.HasText(cur)
    && watch.prev.value.ownerText != cur.ownerText
  }

  lemma LookIsHonest(w: World, watch: LW.Watch, t: real, tokens: Tokens)
    requires Timed(w) && Linked(w, watch, tokens) && Unique(tokens)
    ensures var cur := Look(w, t, tokens);
      && !LW.Skewed(cur)
      && (ShowsOtherOwner(watch, cur) ==> !LW.SameDir(watch.prev.value, cur))
  {
  }

  lemma PollStaysQuiet(w: World, watch: LW.Watch, t: real, tokens: Tokens)
    requires Timed(w) && Linked(w, watch, tokens) && NoneMoved(watch) && Unique(tokens)
    ensures NoneMoved(LW.Poll(watch, Look(w, t, tokens)))
  {
    hide NoneMoved, LW.CheckChurn, LW.CheckHalf, LW.CheckOwner, LW.CheckLong;
    var cur := Look(w, t, tokens);
    LookIsHonest(w, watch, t, tokens);
    if !cur.present {
      SilentAbsence(watch, cur);
    } else {
      var w1 := LW.CheckChurn(watch, cur);
      QuietChecks(watch, cur);
      QuietChecks(w1, cur);
      if cur.ownerExists {
        var w2 := w1.(ownerAbsentSince := None);
        SameEvents(w1, w2);
        QuietOwner(w2, cur);
        QuietChecks(LW.CheckOwner(w2, cur), cur);
        SameEvents(LW.CheckLong(LW.CheckOwner(w2, cur), cur), LW.Poll(watch, cur));
      } else {
        SameEvents(LW.CheckHalf(w1, cur), LW.Poll(watch, cur));
      }
    }
  }

  lemma SameEvents(a: LW.Watch, b: LW.Watch)
    requires a.events == b.events && NoneMoved(a)
    ensures NoneMoved(b)
  {
  }

  lemma SilentAbsence(watch: LW.Watch, cur: LW.Snap)
    requires !cur.present && NoneMoved(watch)
    ensures NoneMoved(LW.Poll(watch, cur))
  {
  }

  lemma PollLinks(w: World, watch: LW.Watch, t: real, tokens: Tokens)
    requires Timed(w) && Unique(tokens)
    ensures Linked(w, LW.Poll(watch, Look(w, t, tokens)), tokens)
  {
  }

  lemma {:induction false} QuietRun(w: World, watch: LW.Watch, ticks: seq<Tick>, named: set<Pid>, tokens: Tokens)
    requires Timed(w) && Unique(tokens) && Linked(w, watch, tokens) && NoneMoved(watch) && Possible(w, ticks, named)
    ensures NoneMoved(Watched(w, watch, ticks, named, tokens))
    decreases |ticks|
  {
    hide Timed, Timely, Enabled, Step, UndisturbedStep, Linked, NoneMoved, LW.Poll, Look;
    if ticks == [] {
    } else {
      match ticks[0] {
        case Looks(t) =>
          PollStaysQuiet(w, watch, t, tokens);
          PollLinks(w, watch, t, tokens);
          QuietRun(w, LW.Poll(watch, Look(w, t, tokens)), ticks[1..], named, tokens);
        case Acts(a) =>
          StepKeepsTimed(w, a, named);
          StepKeepsLink(w, a, named, watch, tokens);
          QuietRun(Step(w, a, named), watch, ticks[1..], named, tokens);
      }
    }
  }

  /** Soundness: whatever the gates do, crashes and breaks included, and whenever the watchdog polls, an
      honest lock is never reported as moved in place; not even when a release and a new mkdir both
      fall between two polls. */
  lemma HonestLockNeverAccused(w: World, ticks: seq<Tick>, named: set<Pid>, tokens: Tokens)
    requires Initial(w) && Unique(tokens) && Possible(w, ticks, named)
    ensures forall e | e in Watched(w, LW.NEW_WATCH, ticks, named, tokens).events :: e.sub != LW.OwnerMovedInPlace
  {
    QuietRun(w, LW.NEW_WATCH, ticks, named, tokens);
  }
}
