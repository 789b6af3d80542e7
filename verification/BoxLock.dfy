/** The mkdir lock protocol of mergegate.py: any number of gate processes that make the lock
    directory, name themselves in its owner file, release it in two steps, may crash anywhere,
    and may break a lock whose owner is dead. */
module BoxLock {
  import opened PyText

  type Pid = nat

  /** Where a process stands. A process runs one gate, so its pid stands for its owner token. */
  datatype Pc =
    | Waiting              // its mkdir has not succeeded
    | Suspecting(seen: Pid)  // it read a dead owner's token and is waiting out the recheck gap
    | Armed(seen: Pid)       // its last comparison still found that token
    | Unlinked               // it removed the dead owner's file and is about to rmdir
    | Made                   // mkdir succeeded, owner not written yet
    | Holding
    | Releasing              // release_if_mine found its own token
    | Emptied                // it removed its own owner file and is about to rmdir
    | Done

  datatype Proc = Proc(pc: Pc, alive: bool)

  /** The file system as the lock sees it, and the processes. `claim` records who has to remove the
      directory; `stamp` the mtime the directory last showed with an owner in it. Neither is read
      by a step. */
  datatype World = World(dir: bool, owner: Option<Pid>, dirTime: real, ownerTime: real,
                         procs: map<Pid, Proc>, claim: Option<Pid>, stamp: real)

  /** The box lock is broken by Suspect, Recheck and Unlink; the portal lock, which has no recheck, by Condemn
      and Unlink. `t` is the time the step writes at; `bump` whether the file system moves the directory's mtime
      when an entry is created or removed. */
  datatype Action =
    | Mkdir(p: Pid, t: real)
    | WriteOwner(p: Pid, t: real, bump: bool)
    | CheckRelease(p: Pid)
    | RemoveOwn(p: Pid, t: real, bump: bool)
    | RmdirOwn(p: Pid)
    | Suspect(p: Pid)
    | Recheck(p: Pid)
    | Condemn(p: Pid)
    | Unlink(p: Pid, t: real, bump: bool)
    | RmdirBroken(p: Pid)
    | Crash(p: Pid)

  predicate OwnerIsDead(w: World, named: set<Pid>) {
    w.owner.Some? && w.owner.value in named && w.owner.value in w.procs && !w.procs[w.owner.value].alive
  }

  /** Can this process take this step now? `named` are the processes whose token says `pid=`; a lock is
      only ever suspected when its owner is named and dead. */
  predicate Enabled(w: World, a: Action, named: set<Pid>) {
    && a.p in w.procs && w.procs[a.p].alive
    && var pc := w.procs[a.p].pc;
      match a
      case Mkdir(p, t) => pc == Waiting && !w.dir
      case WriteOwner(p, t, bump) => pc == Made
      case CheckRelease(p) => pc == Holding || pc == Done
      case RemoveOwn(p, t, bump) => pc == Releasing
      case RmdirOwn(p) => pc == Emptied
      case Suspect(p) => pc == Waiting && OwnerIsDead(w, named)
      case Condemn(p) => pc == Waiting && OwnerIsDead(w, named)
      case Recheck(p) => pc.Suspecting?
      case Unlink(p, t, bump) => pc.Armed?
      case RmdirBroken(p) => pc == Unlinked
      case Crash(p) => true
  }

  function Move(w: World, p: Pid, pc: Pc): World
    requires p in w.procs
  {
    w.(procs := w.procs[p := w.procs[p].(pc := pc)])
  }

  function Touched(w: World, t: real, bump: bool): real {
    if bump then t else w.dirTime
  }

  /** One step. A system call that fails (a missing file, a directory that is gone) sends the process
      where the source's handler sends it. */
  function Step(w: World, a: Action, named: set<Pid>): World
    requires Enabled(w, a, named)
  {
    match a
    case Mkdir(p, t) => Move(w, p, Made).(dir := true, owner := None, dirTime := t, claim := Some(p))
    case WriteOwner(p, t, bump) =>
      if !w.dir then Move(w, p, Done)
      else
        var d := Touched(w, t, bump);
        Move(w, p, Holding).(owner := Some(p), ownerTime := t, dirTime := d, stamp := d)
    case CheckRelease(p) => Move(w, p, if w.owner == Some(p) then Releasing else Done)
    case RemoveOwn(p, t, bump) =>
      if w.owner.None? then Move(w, p, Done)
      else Move(w, p, Emptied).(owner := None, dirTime := Touched(w, t, bump))
    case RmdirOwn(p) =>
      if w.dir && w.owner.None? then Move(w, p, Done).(dir := false, claim := None) else Move(w, p, Done)
    case Suspect(p) => Move(w, p, Suspecting(w.owner.value))
    case Recheck(p) =>
      var seen := w.procs[p].pc.seen;
      Move(w, p, if w.owner == Some(seen) then Armed(seen) else Waiting)
    case Condemn(p) => Move(w, p, Armed(w.owner.value))
    case Unlink(p, t, bump) =>
      if w.owner.None? then Move(w, p, Waiting)
      else Move(w, p, Unlinked).(owner := None, dirTime := Touched(w, t, bump), claim := Some(p))
    case RmdirBroken(p) =>
      if w.dir && w.owner.None? then Move(w, p, Waiting).(dir := false, claim := None) else Move(w, p, Waiting)
    case Crash(p) => w.(procs := w.procs[p := w.procs[p].(alive := false)])
  }

  predicate Initial(w: World) {
    && !w.dir && w.owner == None && w.claim == None
    && forall p | p in w.procs :: w.procs[p] == Proc(Waiting, true)
  }

  /** A run: every action is enabled where it is taken. */
  predicate ValidRun(w: World, acts: seq<Action>, named: set<Pid>)
    decreases |acts|
  {
    acts == [] || (Enabled(w, acts[0], named) && ValidRun(Step(w, acts[0], named), acts[1..], named))
  }

  function After(w: World, acts: seq<Action>, named: set<Pid>): World
    requires ValidRun(w, acts, named)
    decreases |acts|
  {
    if acts == [] then w else After(Step(w, acts[0], named), acts[1..], named)
  }

  /** The owner file names a live process. */
  predicate LiveOwner(w: World) {
    w.owner.Some? && w.owner.value in w.procs && w.procs[w.owner.value].alive
  }

  /** The one thing the protocol leaves to timing: the owner file that a breaker removes is not that of a live
      process, which can only have come there after the breaker's last comparison. */
  predicate UndisturbedStep(w: World, a: Action) {
    a.Unlink? && a.p in w.procs && w.procs[a.p].pc.Armed? ==> !LiveOwner(w)
  }

  predicate Undisturbed(w: World, acts: seq<Action>, named: set<Pid>)
    requires ValidRun(w, acts, named)
    decreases |acts|
  {
    acts == [] || (UndisturbedStep(w, acts[0]) && Undisturbed(Step(w, acts[0], named), acts[1..], named))
  }

  /** The removal takes the very token that was compared, or finds none. */
  predicate TokenHeld(w: World, a: Action) {
    a.Unlink? && a.p in w.procs && w.procs[a.p].pc.Armed? ==> w.owner == None || w.owner == Some(w.procs[a.p].pc.seen)
  }

  predicate TokensHeld(w: World, acts: seq<Action>, named: set<Pid>)
    requires ValidRun(w, acts, named)
    decreases |acts|
  {
    acts == [] || (TokenHeld(w, acts[0]) && TokensHeld(Step(w, acts[0], named), acts[1..], named))
  }

  // ---- mutual exclusion ---------------------------------------------------------------------

  /** Between its own mkdir and its own rmdir. */
  predicate InLock(pc: Pc) {
    pc == Made || pc == Holding || pc == Releasing || pc == Emptied
  }

  predicate Exclusive(w: World) {
    forall p, q | p in w.procs && q in w.procs && w.procs[p].alive && w.procs[q].alive
                  && InLock(w.procs[p].pc) && InLock(w.procs[q].pc) :: p == q
  }

  predicate Wants(pc: Pc) {
    pc == Holding || pc == Releasing
  }

  ghost predicate Inv(w: World) {
    && (w.dir <==> w.claim.Some?)
    && (w.owner.Some? ==> w.claim == w.owner)
    && (w.claim.Some? ==>
          var c := w.claim.value;
          && c in w.procs && (InLock(w.procs[c].pc) || w.procs[c].pc == Unlinked)
          && (w.owner.Some? <==> Wants(w.procs[c].pc)))
    && (forall p | p in w.procs && w.procs[p].alive && (InLock(w.procs[p].pc) || w.procs[p].pc == Unlinked) ::
          w.claim == Some(p))
    && (forall p | p in w.procs && (w.procs[p].pc.Suspecting? || w.procs[p].pc.Armed?) ::
          w.procs[p].pc.seen in w.procs && !w.procs[w.procs[p].pc.seen].alive)
  }

  lemma OwnStepKeepsInv(w: World, a: Action, named: set<Pid>)
    requires Inv(w) && Enabled(w, a, named)
    requires a.Mkdir? || a.WriteOwner? || a.RemoveOwn? || a.RmdirOwn?
    ensures Inv(Step(w, a, named))
  {
  }

  lemma LookingKeepsInv(w: World, a: Action, named: set<Pid>)
    requires Inv(w) && Enabled(w, a, named)
    requires a.CheckRelease? || a.Suspect? || a.Recheck? || a.Crash?
    ensures Inv(Step(w, a, named))
  {
  }

  lemma CondemnKeepsInv(w: World, a: Action, named: set<Pid>)
    requires Inv(w) && Enabled(w, a, named) && a.Condemn?
    ensures Inv(Step(w, a, named))
  {
  }

  lemma BreakKeepsInv(w: World, a: Action, named: set<Pid>)
    requires Inv(w) && Enabled(w, a, named) && UndisturbedStep(w, a)
    requires a.Unlink? || a.RmdirBroken?
    ensures Inv(Step(w, a, named))
  {
  }

  lemma StepKeepsInv(w: World, a: Action, named: set<Pid>)
    requires Inv(w) && Enabled(w, a, named) && UndisturbedStep(w, a)
    ensures Inv(Step(w, a, named))
  {
    hide Inv, Step, Enabled, UndisturbedStep;
    match a {
      case Mkdir(_, _) => OwnStepKeepsInv(w, a, named);
      case WriteOwner(_, _, _) => OwnStepKeepsInv(w, a, named);
      case RemoveOwn(_, _, _) => OwnStepKeepsInv(w, a, named);
      case RmdirOwn(_) => OwnStepKeepsInv(w, a, named);
      case Unlink(_, _, _) => BreakKeepsInv(w, a, named);
      case RmdirBroken(_) => BreakKeepsInv(w, a, named);
      case CheckRelease(_) => LookingKeepsInv(w, a, named);
      case Suspect(_) => LookingKeepsInv(w, a, named);
      case Recheck(_) => LookingKeepsInv(w, a, named);
      case Condemn(_) => CondemnKeepsInv(w, a, named);
      case Crash(_) => LookingKeepsInv(w, a, named);
    }
  }

  lemma {:induction false} RunKeepsInv(w: World, acts: seq<Action>, named: set<Pid>)
    requires Inv(w) && ValidRun(w, acts, named) && Undisturbed(w, acts, named)
    ensures Inv(After(w, acts, named))
    decreases |acts|
  {
    if acts == [] {
    } else {
      StepKeepsInv(w, acts[0], named);
      RunKeepsInv(Step(w, acts[0], named), acts[1..], named);
    }
  }

  /** Safety over whole runs: however mkdir, owner write, release, crash and break interleave, at most one
      live process is between its mkdir and its own rmdir, and a live holder's owner file names it. */
  lemma AtMostOneHolder(w: World, acts: seq<Action>, named: set<Pid>)
    requires Initial(w) && ValidRun(w, acts, named) && Undisturbed(w, acts, named)
    ensures var v := After(w, acts, named);
      && Exclusive(v)
      && (forall p | p in v.procs && v.procs[p].alive && Wants(v.procs[p].pc) :: v.dir && v.owner == Some(p))
  {
    RunKeepsInv(w, acts, named);
  }

  lemma HeldIsUndisturbed(w: World, a: Action, named: set<Pid>)
    requires Inv(w) && Enabled(w, a, named) && TokenHeld(w, a)
    ensures UndisturbedStep(w, a)
  {
  }

  /** No process but the owner itself ever removes the owner file of a live holder, if its removal takes the token it
      compared. */
  lemma LiveOwnerFileIsSafe(w: World, acts: seq<Action>, named: set<Pid>, a: Action, holder: Pid)
    requires Initial(w) && ValidRun(w, acts, named) && Undisturbed(w, acts, named)
    requires Enabled(After(w, acts, named), a, named) && TokenHeld(After(w, acts, named), a)
    requires After(w, acts, named).owner == Some(holder) && a.p != holder
    requires holder in After(w, acts, named).procs && After(w, acts, named).procs[holder].alive
    ensures Step(After(w, acts, named), a, named).owner == Some(holder)
  {
    RunKeepsInv(w, acts, named);
  }

  /** A breaker that removes the file of a live process frees the directory under it and can make its own. */
  lemma {:induction false} LiveFileRemoved(w: World, p: Pid, t: real, bump: bool, named: set<Pid>)
    returns (acts: seq<Action>)
    requires Inv(w) && Enabled(w, Unlink(p, t, bump), named) && !UndisturbedStep(w, Unlink(p, t, bump))
    ensures var v := Step(w, Unlink(p, t, bump), named);
      ValidRun(v, acts, named) && Undisturbed(v, acts, named) && !Exclusive(After(v, acts, named))
  {
    var holder, v := w.owner.value, Step(w, Unlink(p, t, bump), named);
    var v1 := Step(v, RmdirBroken(p), named);
    var v2 := Step(v1, Mkdir(p, t), named);
    acts := [RmdirBroken(p), Mkdir(p, t)];
    RunThrough([v, v1, v2], acts, named);
    assert v2.procs[holder] == w.procs[holder] && v2.procs[p].pc == Made;
  }

  ghost predicate CanBothEnter(w: World, named: set<Pid>) {
    exists acts: seq<Action> ::
      ValidRun(w, acts, named) && Undisturbed(w, acts, named) && !Exclusive(After(w, acts, named))
  }

  /** Exactly what the protocol leaves to timing: after any undisturbed run, a breaker's removal lets two live
      processes inside, by some undisturbed steps after it, if and only if the file it removes names a live
      process. */
  lemma RemovalDecidesExactly(w: World, acts: seq<Action>, named: set<Pid>, p: Pid, t: real, bump: bool)
    requires Initial(w) && ValidRun(w, acts, named) && Undisturbed(w, acts, named)
    requires Enabled(After(w, acts, named), Unlink(p, t, bump), named)
    ensures var v := After(w, acts, named);
      CanBothEnter(Step(v, Unlink(p, t, bump), named), named) <==> LiveOwner(v)
  {
    hide Enabled, Step, Exclusive, Inv;
    var v, a := After(w, acts, named), Unlink(p, t, bump);
    InitialInv(w);
    RunKeepsInv(w, acts, named);
    RemovalIsArmed(v, p, t, bump, named);
    if UndisturbedStep(v, a) {
      StepKeepsInv(v, a, named);
      forall more: seq<Action> | ValidRun(Step(v, a, named), more, named) && Undisturbed(Step(v, a, named), more, named)
        ensures Exclusive(After(Step(v, a, named), more, named))
      {
        RunKeepsInv(Step(v, a, named), more, named);
        InvExcludes(After(Step(v, a, named), more, named));
      }
    } else {
      var more := LiveFileRemoved(v, p, t, bump, named);
    }
  }

  lemma InitialInv(w: World)
    requires Initial(w)
    ensures Inv(w)
  {
  }

  lemma RemovalIsArmed(w: World, p: Pid, t: real, bump: bool, named: set<Pid>)
    requires Enabled(w, Unlink(p, t, bump), named)
    ensures p in w.procs && w.procs[p].pc.Armed?
  {
  }

  lemma InvExcludes(w: World)
    requires Inv(w)
    ensures Exclusive(w)
  {
  }

  /** A live holder's release goes through: it finds its own token, its unlink finds the file and its rmdir
      finds an empty directory, so the lock is free afterwards. */
  lemma ReleaseGoesThrough(w: World, acts: seq<Action>, named: set<Pid>, a: Action)
    requires Initial(w) && ValidRun(w, acts, named) && Undisturbed(w, acts, named)
    requires Enabled(After(w, acts, named), a, named)
    ensures var v := After(w, acts, named); var pc := v.procs[a.p].pc; var v' := Step(v, a, named);
      && (a.CheckRelease? && pc == Holding ==> v'.procs[a.p].pc == Releasing)
      && (a.RemoveOwn? ==> v'.procs[a.p].pc == Emptied && v'.owner == None)
      && (a.RmdirOwn? || a.RmdirBroken? ==> v.dir && !v'.dir)
      && (a.WriteOwner? ==> v'.owner == Some(a.p))
  {
    RunKeepsInv(w, acts, named);
  }

  // ---- whom a breaker may break -------------------------------------------------------------

  /** In the run the process compared the owner file with a token, and it held that of `seen`. */
  predicate Compared(w: World, acts: seq<Action>, named: set<Pid>, p: Pid, seen: Pid)
    requires ValidRun(w, acts, named)
    decreases |acts|
  {
    acts != [] &&
    (((acts[0] == Recheck(p) || acts[0] == Condemn(p)) && w.owner == Some(seen))
     || Compared(Step(w, acts[0], named), acts[1..], named, p, seen))
  }

  /** The process has this token in hand, to compare it or to act on it. */
  predicate Suspects(w: World, p: Pid, seen: Pid) {
    p in w.procs && (w.procs[p].pc == Suspecting(seen) || w.procs[p].pc == Armed(seen))
  }

  predicate IsDead(w: World, named: set<Pid>, seen: Pid) {
    seen in named && seen in w.procs && !w.procs[seen].alive
  }

  lemma SuspectStep(w: World, a: Action, named: set<Pid>, p: Pid, seen: Pid)
    requires Enabled(w, a, named) && (Suspects(w, p, seen) ==> IsDead(w, named, seen))
    ensures Suspects(Step(w, a, named), p, seen) ==> IsDead(Step(w, a, named), named, seen)
    ensures p in w.procs && Step(w, a, named).procs[p].pc == Armed(seen) && w.procs[p].pc != Armed(seen) ==>
      (a == Recheck(p) || a == Condemn(p)) && w.owner == Some(seen)
    ensures Step(w, a, named).procs.Keys == w.procs.Keys
  {
  }

  /** In every run, whatever it removes in the end, a process is about to break the lock only against a token that names
      a dead process and that it found in the owner file when it last compared. */
  lemma {:induction false} BreaksOnlyTheDead(w: World, acts: seq<Action>, named: set<Pid>, p: Pid, seen: Pid)
    requires ValidRun(w, acts, named) && p in w.procs
    requires !w.procs[p].pc.Armed? && (Suspects(w, p, seen) ==> IsDead(w, named, seen))
    ensures var v := After(w, acts, named);
      p in v.procs && v.procs[p].pc == Armed(seen) ==> Compared(w, acts, named, p, seen) && IsDead(v, named, seen)
  {
    hide Enabled, Step;
    ArmedCompared(w, acts, named, p, seen);
  }

  lemma {:induction false} ArmedCompared(w: World, acts: seq<Action>, named: set<Pid>, p: Pid, seen: Pid)
    requires ValidRun(w, acts, named) && p in w.procs && (Suspects(w, p, seen) ==> IsDead(w, named, seen))
    ensures var v := After(w, acts, named);
      && p in v.procs && (Suspects(v, p, seen) ==> IsDead(v, named, seen))
      && (v.procs[p].pc == Armed(seen) ==> w.procs[p].pc == Armed(seen) || Compared(w, acts, named, p, seen))
    decreases |acts|
  {
    hide Enabled, Step;
    if acts == [] {
    } else {
      SuspectStep(w, acts[0], named, p, seen);
      ArmedCompared(Step(w, acts[0], named), acts[1..], named, p, seen);
    }
  }

  // ---- which locks can be broken ------------------------------------------------------------

  /** The lock is held by a dead process and either shows no owner file or one that names no pid. */
  ghost predicate Wedged(w: World, named: set<Pid>) {
    && w.claim.Some? && w.claim.value in w.procs && !w.procs[w.claim.value].alive
    && (w.owner.Some? ==> w.owner.value !in named)
  }

  /** Nobody has a token in hand that names no pid: `break_dead_box_lock` refuses such owners at once. */
  ghost predicate SuspectsNamed(w: World, named: set<Pid>) {
    forall p | p in w.procs && (w.procs[p].pc.Suspecting? || w.procs[p].pc.Armed?) :: w.procs[p].pc.seen in named
  }

  lemma {:induction false} SuspectsStayNamed(w: World, acts: seq<Action>, named: set<Pid>)
    requires SuspectsNamed(w, named) && ValidRun(w, acts, named)
    ensures SuspectsNamed(After(w, acts, named), named)
    decreases |acts|
  {
    if acts == [] {
    } else {
      SuspectsStayNamed(Step(w, acts[0], named), acts[1..], named);
    }
  }

  /** A wedged lock stays wedged in every run in which removals take the tokens they compared: every later mkdir
      fails. */
  lemma {:induction false} WedgedForever(w: World, acts: seq<Action>, named: set<Pid>)
    requires Inv(w) && SuspectsNamed(w, named) && Wedged(w, named)
    requires ValidRun(w, acts, named) && TokensHeld(w, acts, named)
    ensures Wedged(After(w, acts, named), named) && After(w, acts, named).dir
    decreases |acts|
  {
    if acts == [] {
    } else {
      HeldIsUndisturbed(w, acts[0], named);
      StepKeepsInv(w, acts[0], named);
      WedgedForever(Step(w, acts[0], named), acts[1..], named);
    }
  }

  /** Some live breaker stands between its last comparison and its removal. */
  ghost predicate SomeArmed(w: World) {
    exists p | p in w.procs :: w.procs[p].alive && w.procs[p].pc.Armed?
  }

  ghost predicate Freed(w: World, named: set<Pid>) {
    exists acts: seq<Action> :: ValidRun(w, acts, named) && Undisturbed(w, acts, named) && !After(w, acts, named).dir
  }

  lemma {:induction false} NoneArmedNoneFreed(w: World, acts: seq<Action>, named: set<Pid>)
    requires Inv(w) && SuspectsNamed(w, named) && Wedged(w, named) && (w.owner.Some? ==> !SomeArmed(w))
    requires ValidRun(w, acts, named) && Undisturbed(w, acts, named)
    ensures After(w, acts, named).dir
    decreases |acts|
  {
    if acts == [] {
    } else {
      StepKeepsInv(w, acts[0], named);
      WedgeKept(w, acts[0], named);
      NoneArmedNoneFreed(Step(w, acts[0], named), acts[1..], named);
    }
  }

  lemma WedgeKept(w: World, a: Action, named: set<Pid>)
    requires Inv(w) && SuspectsNamed(w, named) && Wedged(w, named) && (w.owner.Some? ==> !SomeArmed(w))
    requires Enabled(w, a, named)
    ensures var v := Step(w, a, named);
      SuspectsNamed(v, named) && Wedged(v, named) && (v.owner.Some? ==> !SomeArmed(v))
  {
  }

  /** Of the wedged locks an undisturbed run can free exactly those that still show an owner file while some breaker,
      armed against the owner before, is about to remove it. */
  lemma {:induction false} WedgedFallsExactly(w: World, named: set<Pid>)
    requires Inv(w) && SuspectsNamed(w, named) && Wedged(w, named)
    ensures Freed(w, named) <==> w.owner.Some? && SomeArmed(w)
  {
    hide Enabled, Step, Inv;
    if w.owner.Some? && SomeArmed(w) {
      var p :| p in w.procs && w.procs[p].alive && w.procs[p].pc.Armed?;
      ArmedFrees(w, p, named);
    } else {
      forall acts: seq<Action> | ValidRun(w, acts, named) && Undisturbed(w, acts, named)
        ensures After(w, acts, named).dir
      {
        NoneArmedNoneFreed(w, acts, named);
      }
    }
  }

  lemma {:induction false} ArmedFrees(w: World, p: Pid, named: set<Pid>)
    requires Inv(w) && Wedged(w, named) && w.owner.Some? && p in w.procs && w.procs[p].alive && w.procs[p].pc.Armed?
    ensures Freed(w, named)
  {
    var acts := [Unlink(p, w.dirTime, false), RmdirBroken(p)];
    var w1 := Step(w, acts[0], named);
    RunThrough([w, w1, Step(w1, acts[1], named)], acts, named);
    assert !After(w, acts, named).dir;
  }

  /** Where no token names a pid nobody ever removes another's file. */
  lemma {:induction false} NoneNamedNoneRemoved(w: World, acts: seq<Action>)
    requires SuspectsNamed(w, {}) && ValidRun(w, acts, {})
    ensures Undisturbed(w, acts, {}) && TokensHeld(w, acts, {})
    decreases |acts|
  {
    if acts == [] {
    } else {
      assert SuspectsNamed(Step(w, acts[0], {}), {});
      NoneNamedNoneRemoved(Step(w, acts[0], {}), acts[1..]);
    }
  }

  /** Any other dead holder's lock can be broken: a live waiting process frees it in four steps. */
  lemma OtherwiseBreakable(w: World, named: set<Pid>, p: Pid)
    requires Inv(w) && w.claim.Some? && !w.procs[w.claim.value].alive && !Wedged(w, named)
    requires p in w.procs && w.procs[p] == Proc(Waiting, true)
    ensures var acts := [Suspect(p), Recheck(p), Unlink(p, w.dirTime, false), RmdirBroken(p)];
      ValidRun(w, acts, named) && Undisturbed(w, acts, named) && !After(w, acts, named).dir
  {
    var a0, a1, a2, a3 := Suspect(p), Recheck(p), Unlink(p, w.dirTime, false), RmdirBroken(p);
    var w1 := Step(w, a0, named);
    var w2 := Step(w1, a1, named);
    var w3 := Step(w2, a2, named);
    RunThrough([w, w1, w2, w3, Step(w3, a3, named)], [a0, a1, a2, a3], named);
  }

  /** The portal lock's tokens all name a pid, so of its dead holders only those without an owner file, dead
      between mkdir and owner write or between the two steps of a removal, keep it: any other is freed in three. */
  lemma PortalBreakable(w: World, named: set<Pid>, p: Pid)
    requires Inv(w) && w.claim.Some? && !w.procs[w.claim.value].alive && w.procs.Keys <= named
    requires p in w.procs && w.procs[p] == Proc(Waiting, true)
    ensures Wedged(w, named) <==> w.owner.None?
    ensures var acts := [Condemn(p), Unlink(p, w.dirTime, false), RmdirBroken(p)];
      w.owner.Some? ==> ValidRun(w, acts, named) && Undisturbed(w, acts, named) && !After(w, acts, named).dir
  {
    if w.owner.Some? {
      var a0, a1, a2 := Condemn(p), Unlink(p, w.dirTime, false), RmdirBroken(p);
      var w1 := Step(w, a0, named);
      var w2 := Step(w1, a1, named);
      RunThrough([w, w1, w2, Step(w2, a2, named)], [a0, a1, a2], named);
    }
  }

  /** A run given by the worlds it passes through. */
  lemma {:induction false} RunThrough(ws: seq<World>, acts: seq<Action>, named: set<Pid>)
    requires |ws| == |acts| + 1
    requires forall k | 0 <= k < |acts| :: Enabled(ws[k], acts[k], named) && Step(ws[k], acts[k], named) == ws[k + 1]
    ensures ValidRun(ws[0], acts, named) && After(ws[0], acts, named) == ws[|acts|]
    ensures (forall k | 0 <= k < |acts| :: UndisturbedStep(ws[k], acts[k])) ==> Undisturbed(ws[0], acts, named)
  {
    hide Enabled, Step, UndisturbedStep;
    if acts == [] {
    } else {
      var rest := ws[1..];
      forall k | 0 <= k < |acts[1..]|
        ensures Enabled(rest[k], acts[1..][k], named) && Step(rest[k], acts[1..][k], named) == rest[k + 1]
        ensures UndisturbedStep(ws[k + 1], acts[k + 1]) ==> UndisturbedStep(rest[k], acts[1..][k])
      {
        assert Enabled(ws[k + 1], acts[k + 1], named);
      }
      RunThrough(rest, acts[1..], named);
    }
  }

  // ---- the window the source leaves open ----------------------------------------------------

  const THREE := map[0 := Proc(Waiting, true), 1 := Proc(Waiting, true), 2 := Proc(Waiting, true)]
  const FRESH := World(false, None, 0.0, 0.0, THREE, None, 0.0)
  const BOTH_ARMED := World(true, Some(0), 1.0, 1.0,
    map[0 := Proc(Holding, false), 1 := Proc(Armed(0), true), 2 := Proc(Armed(0), true)], Some(0), 1.0)
  const ONE_HOLDS := World(true, Some(1), 3.0, 3.0,
    map[0 := Proc(Holding, false), 1 := Proc(Holding, true), 2 := Proc(Armed(0), true)], Some(1), 3.0)
  const TWO_HOLD := World(true, Some(2), 5.0, 5.0,
    map[0 := Proc(Holding, false), 1 := Proc(Holding, true), 2 := Proc(Holding, true)], Some(2), 5.0)

  const DEAD_HOLDS := World(true, Some(0), 1.0, 1.0,
    map[0 := Proc(Holding, false), 1 := Proc(Waiting, true), 2 := Proc(Waiting, true)], Some(0), 1.0)

  lemma HolderDies() returns (acts: seq<Action>)
    ensures ValidRun(FRESH, acts, {0}) && After(FRESH, acts, {0}) == DEAD_HOLDS
  {
    var made := World(true, None, 1.0, 0.0, THREE[0 := Proc(Made, true)], Some(0), 0.0);
    var held := World(true, Some(0), 1.0, 1.0, THREE[0 := Proc(Holding, true)], Some(0), 1.0);
    acts := [Mkdir(0, 1.0), WriteOwner(0, 1.0, true), Crash(0)];
    RunThrough([FRESH, made, held, DEAD_HOLDS], acts, {0});
  }

  lemma BothCompare() returns (acts: seq<Action>)
    ensures ValidRun(DEAD_HOLDS, acts, {0}) && After(DEAD_HOLDS, acts, {0}) == BOTH_ARMED
  {
    var procs := DEAD_HOLDS.procs;
    var s1 := DEAD_HOLDS.(procs := procs[1 := Proc(Suspecting(0), true)]);
    var s2 := s1.(procs := s1.procs[2 := Proc(Suspecting(0), true)]);
    var r1 := s2.(procs := s2.procs[1 := Proc(Armed(0), true)]);
    acts := [Suspect(1), Suspect(2), Recheck(1), Recheck(2)];
    RunThrough([DEAD_HOLDS, s1, s2, r1, BOTH_ARMED], acts, {0});
  }

  lemma FirstBreakerTakesOver() returns (acts: seq<Action>)
    ensures ValidRun(BOTH_ARMED, acts, {0}) && After(BOTH_ARMED, acts, {0}) == ONE_HOLDS
  {
    var procs := BOTH_ARMED.procs;
    var unlinked := World(true, None, 2.0, 1.0, procs[1 := Proc(Unlinked, true)], Some(1), 1.0);
    var freed := World(false, None, 2.0, 1.0, procs[1 := Proc(Waiting, true)], None, 1.0);
    var made := World(true, None, 3.0, 1.0, procs[1 := Proc(Made, true)], Some(1), 1.0);
    acts := [Unlink(1, 2.0, true), RmdirBroken(1), Mkdir(1, 3.0), WriteOwner(1, 3.0, true)];
    RunThrough([BOTH_ARMED, unlinked, freed, made, ONE_HOLDS], acts, {0});
  }

  lemma SecondBreakerTakesOver() returns (acts: seq<Action>)
    ensures ValidRun(ONE_HOLDS, acts, {0}) && After(ONE_HOLDS, acts, {0}) == TWO_HOLD
  {
    var procs := ONE_HOLDS.procs;
    var unlinked := World(true, None, 4.0, 3.0, procs[2 := Proc(Unlinked, true)], Some(2), 3.0);
    var freed := World(false, None, 4.0, 3.0, procs[2 := Proc(Waiting, true)], None, 3.0);
    var made := World(true, None, 5.0, 3.0, procs[2 := Proc(Made, true)], Some(2), 3.0);
    acts := [Unlink(2, 4.0, true), RmdirBroken(2), Mkdir(2, 5.0), WriteOwner(2, 5.0, true)];
    RunThrough([ONE_HOLDS, unlinked, freed, made, TWO_HOLD], acts, {0});
  }

  /** Without that timing the protocol fails. Process 0 takes the lock and dies; 1 and 2 both make their
      last comparison. 1 removes the file, frees the directory, takes the lock and names itself; 2
      then removes 1's owner file, frees the directory and makes its own: two live processes are inside. */
  lemma TwoBreakersBothEnter()
    ensures exists w: World, acts: seq<Action>, named: set<Pid> ::
      Initial(w) && ValidRun(w, acts, named) && !Exclusive(After(w, acts, named))
  {
    hide Enabled, Step, ValidRun, After;
    var a0 := HolderDies();
    var a1 := BothCompare();
    var b := FirstBreakerTakesOver();
    var c := SecondBreakerTakesOver();
    var a := a0 + a1;
    RunsCompose(FRESH, a0, a1, {0});
    RunsCompose(FRESH, a, b, {0});
    RunsCompose(FRESH, a + b, c, {0});
    assert InLock(TWO_HOLD.procs[1].pc) && InLock(TWO_HOLD.procs[2].pc);
    assert Initial(FRESH) && ValidRun(FRESH, a + b + c, {0}) && !Exclusive(After(FRESH, a + b + c, {0}));
  }

  lemma {:induction false} RunsCompose(w: World, a: seq<Action>, b: seq<Action>, named: set<Pid>)
    requires ValidRun(w, a, named) && ValidRun(After(w, a, named), b, named)
    ensures ValidRun(w, a + b, named) && After(w, a + b, named) == After(After(w, a, named), b, named)
    decreases |a|
  {
    hide Enabled, Step;
    if a == [] {
      assert a + b == b;
    } else {
      assert (a + b)[1..] == a[1..] + b;
      RunsCompose(Step(w, a[0], named), a[1..], b, named);
    }
  }
}
