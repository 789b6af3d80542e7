/** lockwatch.py: the watchdog that samples the lock directory and reports each anomaly once. */
module LockWatch {
  import opened PyText

  /** One poll's record. Times are seconds; 0.0 stands for a missing mtime, as in the source's tests. */
  datatype Snap = Snap(t: real, present: bool, dirMtime: real, ownerExists: bool, ownerMtime: real,
                       ownerText: Option<string>)

  datatype Sub = OwnerMovedInPlace | HalfReleased | LongHold | RaceChurn

  /** What identifies an episode, so that it is reported once and not once a poll. */
  datatype Key =
    | Backwards(dir: real)
    | Churn(dir: real)
    | Half(dir: real)
    | InPlace(dir: real, owner: string)
    | Handoff(dir: real, owner: string)
    | Long(owner: string)

  datatype Event = Event(sub: Sub, key: Key)

  /** The watchdog's state and everything it has emitted. */
  datatype Watch = Watch(prev: Option<Snap>, fired: set<Key>, ownerAbsentSince: Option<real>,
                         absentAt: Option<real>, events: seq<Event>)

  const NEW_WATCH := Watch(None, {}, None, None, [])

  const ACQUIRE_SKEW_S := 5.0
  const HALF_RELEASED_S := 60.0
  const LONG_HOLD_S := 2700.0
  const CHURN_S := 2.0
  const SAME_MTIME := 0.001

  function Fire(w: Watch, key: Key, sub: Sub): Watch {
    if key in w.fired then w else w.(fired := w.fired + {key}, events := w.events + [Event(sub, key)])
  }

  predicate HasText(s: Snap) {
    s.ownerText.Some? && s.ownerText.value != ""
  }

  /** How an f-string prints the owner text. */
  function Printed(s: Snap): string {
    if s.ownerText.Some? then s.ownerText.value else "None"
  }

  function InPlaceKey(s: Snap): Key {
    InPlace(s.dirMtime, Printed(s))
  }

  function Gap(x: real, y: real): real {
    if x < y then y - x else x - y
  }

  /** The owner text changed since the previous poll and the directory was not seen missing since. */
  predicate Moved(w: Watch, cur: Snap) {
    && w.prev.Some? && w.prev.value.present && HasText(w.prev.value) && HasText(cur)
    && w.prev.value.ownerText != cur.ownerText
    && !(w.absentAt.Some? && w.absentAt.value != 0.0 && w.absentAt.value >= w.prev.value.t)
  }

  predicate SameDir(prev: Snap, cur: Snap) {
    prev.dirMtime != 0.0 && Gap(prev.dirMtime, cur.dirMtime) < SAME_MTIME
  }

  predicate Skewed(cur: Snap) {
    cur.ownerMtime != 0.0 && cur.dirMtime != 0.0 && cur.ownerMtime - cur.dirMtime > ACQUIRE_SKEW_S
  }

  function CheckChurn(w: Watch, cur: Snap): Watch {
    var w1 :=
      if w.prev.Some? && w.prev.value.present && w.prev.value.dirMtime != 0.0
         && cur.dirMtime < w.prev.value.dirMtime - SAME_MTIME
      then Fire(w, Backwards(cur.dirMtime), RaceChurn) else w;
    if w.absentAt.Some? && w.absentAt.value != 0.0 && cur.dirMtime != 0.0
       && 0.0 <= cur.dirMtime - w.absentAt.value <= CHURN_S
    then Fire(w1, Churn(cur.dirMtime), RaceChurn) else w1
  }

  function CheckHalf(w: Watch, cur: Snap): Watch {
    var since := if w.ownerAbsentSince.Some? then w.ownerAbsentSince.value else cur.t;
    var w1 := w.(ownerAbsentSince := Some(since));
    if cur.t - since > HALF_RELEASED_S then Fire(w1, Half(cur.dirMtime), HalfReleased) else w1
  }

  function CheckOwner(w: Watch, cur: Snap): Watch {
    var key := InPlaceKey(cur);
    if Moved(w, cur) then
      if SameDir(w.prev.value, cur) then Fire(w, key, OwnerMovedInPlace)
      else Fire(w.(fired := w.fired + {key}), Handoff(cur.dirMtime, Printed(cur)), RaceChurn)
    else if Skewed(cur) then Fire(w, key, OwnerMovedInPlace)
    else w
  }

  function CheckLong(w: Watch, cur: Snap): Watch {
    if cur.ownerMtime != 0.0 && cur.t - cur.ownerMtime > LONG_HOLD_S then Fire(w, Long(Printed(cur)), LongHold) else w
  }

  /** One poll. */
  function Poll(w: Watch, cur: Snap): Watch {
    if !cur.present then Watch(Some(cur), {}, None, Some(cur.t), w.events)
    else if !cur.ownerExists then CheckHalf(CheckChurn(w, cur), cur).(prev := Some(cur))
    else CheckLong(CheckOwner(CheckChurn(w, cur).(ownerAbsentSince := None), cur), cur).(prev := Some(cur))
  }

  function Polls(w: Watch, snaps: seq<Snap>): Watch
    decreases |snaps|
  {
    if snaps == [] then w else Poll(Polls(w, snaps[..|snaps| - 1]), snaps[|snaps| - 1])
  }

  /** The watchdog as the daemon holds it. `poll` updates it in place. */
  class Watchdog {
    var prev: Option<Snap>
    var fired: set<Key>
    var ownerAbsentSince: Option<real>
    var absentAt: Option<real>
    var events: seq<Event>

    ghost function View(): Watch
      reads this
    {
      Watch(prev, fired, ownerAbsentSince, absentAt, events)
    }

    constructor ()
      ensures View() == NEW_WATCH
    {
      prev, fired, ownerAbsentSince, absentAt, events := None, {}, None, None, [];
    }

    /** `_fire`: exactly once per episode. */
    method FireOnce(key: Key, sub: Sub) returns (spoke: bool)
      modifies this`fired, this`events
      ensures View() == Fire(old(View()), key, sub)
      ensures spoke <==> key !in old(fired)
    {
      if key in fired {
        return false;
      }
      fired := fired + {key};
      events := events + [Event(sub, key)];
      return true;
    }

    method NoteChurn(cur: Snap)
      modifies this`fired, this`events
      ensures View() == CheckChurn(old(View()), cur)
    {
      if prev.Some? && prev.value.present && prev.value.dirMtime != 0.0
        && cur.dirMtime < prev.value.dirMtime - SAME_MTIME {
        var _ := FireOnce(Backwards(cur.dirMtime), RaceChurn);
      }
      if absentAt.Some? && absentAt.value != 0.0 && cur.dirMtime != 0.0
        && 0.0 <= cur.dirMtime - absentAt.value <= CHURN_S {
        var _ := FireOnce(Churn(cur.dirMtime), RaceChurn);
      }
    }

    method NoteHalf(cur: Snap)
      modifies this`fired, this`events, this`ownerAbsentSince
      ensures View() == CheckHalf(old(View()), cur)
    {
      if ownerAbsentSince.None? {
        ownerAbsentSince := Some(cur.t);
      }
      if cur.t - ownerAbsentSince.value > HALF_RELEASED_S {
        var _ := FireOnce(Half(cur.dirMtime), HalfReleased);
      }
    }

    method NoteOwner(cur: Snap)
      modifies this`fired, this`events
      ensures View() == CheckOwner(old(View()), cur)
    {
      var key := InPlaceKey(cur);
      var moved := prev.Some? && prev.value.present && HasText(prev.value) && HasText(cur)
        && prev.value.ownerText != cur.ownerText
        && !(absentAt.Some? && absentAt.value != 0.0 && absentAt.value >= prev.value.t);
      if moved {
        if SameDir(prev.value, cur) {
          var _ := FireOnce(key, OwnerMovedInPlace);
        } else {
          fired := fired + {key};
          var _ := FireOnce(Handoff(cur.dirMtime, Printed(cur)), RaceChurn);
        }
      } else if Skewed(cur) {
        var _ := FireOnce(key, OwnerMovedInPlace);
      }
    }

    method NoteLong(cur: Snap)
      modifies this`fired, this`events
      ensures View() == CheckLong(old(View()), cur)
    {
      if cur.ownerMtime != 0.0 && cur.t - cur.ownerMtime > LONG_HOLD_S {
        var _ := FireOnce(Long(Printed(cur)), LongHold);
      }
    }

    method PollOnce(cur: Snap)
      modifies this
      ensures View() == Poll(old(View()), cur)
    {
      hide CheckChurn, CheckHalf, CheckOwner, CheckLong;
      if !cur.present {
        absentAt := Some(cur.t);
        ownerAbsentSince := None;
        fired := {};
        prev := Some(cur);
        return;
      }
      NoteChurn(cur);
      if !cur.ownerExists {
        NoteHalf(cur);
        prev := Some(cur);
        return;
      }
      ownerAbsentSince := None;
      NoteOwner(cur);
      NoteLong(cur);
      prev := Some(cur);
    }
  }

  // ---- exactly once -------------------------------------------------------------------------

  function Times(events: seq<Event>, key: Key): nat {
    if events == [] then 0 else Times(events[..|events| - 1], key) + if events[|events| - 1].key == key then 1 else 0
  }

  /** How often an episode has been reported since `from`, and whether it is marked. */
  ghost predicate AtMostOnce(from: Watch, to: Watch, key: Key) {
    && (key in from.fired ==> key in to.fired)
    && Times(to.events, key) == Times(from.events, key) + if key in from.fired || key !in to.fired then 0 else 1
  }

  /** As `AtMostOnce`, but an episode may also have been marked without being reported. */
  ghost predicate OnceOrSilenced(from: Watch, to: Watch, key: Key) {
    && (key in from.fired ==> key in to.fired)
    && Times(from.events, key) <= Times(to.events, key)
       <= Times(from.events, key) + if key in from.fired || key !in to.fired then 0 else 1
  }

  lemma FireReportsOnce(w: Watch, k: Key, sub: Sub, key: Key)
    ensures AtMostOnce(w, Fire(w, k, sub), key)
    ensures Fire(w, k, sub).(fired := {}, events := []) == w.(fired := {}, events := [])
  {
  }

  lemma ChecksReportOnce(w: Watch, cur: Snap, key: Key)
    ensures OnceOrSilenced(w, CheckChurn(w, cur), key)
    ensures OnceOrSilenced(w, CheckHalf(w, cur), key)
    ensures OnceOrSilenced(w, CheckLong(w, cur), key)
  {
    hide Fire, Times;
    forall v: Watch, k: Key, sub: Sub ensures AtMostOnce(v, Fire(v, k, sub), key) {
      FireReportsOnce(v, k, sub, key);
    }
  }

  lemma OwnerReportsOnce(w: Watch, cur: Snap, key: Key)
    ensures OnceOrSilenced(w, CheckOwner(w, cur), key)
  {
  }

  lemma PollReportsOnce(w: Watch, cur: Snap, key: Key)
    requires cur.present
    ensures OnceOrSilenced(w, Poll(w, cur), key)
  {
    hide CheckChurn, CheckHalf, CheckOwner, CheckLong, Times;
    var w1 := CheckChurn(w, cur);
    ChecksReportOnce(w, cur, key);
    ChecksReportOnce(w1, cur, key);
    var w2 := w1.(ownerAbsentSince := None);
    OwnerReportsOnce(w2, cur, key);
    ChecksReportOnce(CheckOwner(w2, cur), cur, key);
  }

  /** In any stretch of polls that never finds the directory missing, no episode is reported twice,
      whichever detector sees it, and one that was marked before is not reported at all. */
  lemma {:induction false} NeverReportedTwice(w: Watch, snaps: seq<Snap>, key: Key)
    requires forall k | 0 <= k < |snaps| :: snaps[k].present
    ensures OnceOrSilenced(w, Polls(w, snaps), key)
  {
    if snaps == [] {
    } else {
      var n := |snaps| - 1;
      NeverReportedTwice(w, snaps[..n], key);
      PollReportsOnce(Polls(w, snaps[..n]), snaps[n], key);
    }
  }

  // ---- completeness -------------------------------------------------------------------------

  /** Two consecutive polls that show an in-place change of owner: both see an owner, the tokens differ,
      and the directory's mtime did not move. */
  predicate ChangedInPlace(a: Snap, b: Snap) {
    && a.present && b.present && a.ownerExists && b.ownerExists && HasText(a) && HasText(b)
    && a.ownerText != b.ownerText && SameDir(a, b)
  }

  lemma PollMarksOnlyItsOwn(w: Watch, cur: Snap, dir: real, owner: string)
    requires cur.present && InPlace(dir, owner) in Poll(w, cur).fired
    ensures InPlace(dir, owner) in w.fired || InPlaceKey(cur) == InPlace(dir, owner)
  {
  }

  lemma {:induction false} MarkedWasSeen(w: Watch, snaps: seq<Snap>, dir: real, owner: string)
    requires forall k | 0 <= k < |snaps| :: snaps[k].present
    requires InPlace(dir, owner) in Polls(w, snaps).fired
    ensures InPlace(dir, owner) in w.fired || exists k | 0 <= k < |snaps| :: InPlaceKey(snaps[k]) == InPlace(dir, owner)
  {
    hide Poll;
    if snaps == [] {
    } else {
      var n := |snaps| - 1;
      PollMarksOnlyItsOwn(Polls(w, snaps[..n]), snaps[n], dir, owner);
      if InPlace(dir, owner) in Polls(w, snaps[..n]).fired {
        MarkedWasSeen(w, snaps[..n], dir, owner);
      }
    }
  }

  lemma PollRemembers(w: Watch, cur: Snap)
    requires cur.present
    ensures Poll(w, cur).prev == Some(cur) && Poll(w, cur).absentAt == w.absentAt
  {
  }

  lemma {:induction false} AbsenceRemembered(w: Watch, snaps: seq<Snap>)
    requires forall k | 0 <= k < |snaps| :: snaps[k].present
    ensures Polls(w, snaps).absentAt == w.absentAt
    ensures snaps != [] ==> Polls(w, snaps).prev == Some(snaps[|snaps| - 1])
  {
    hide Poll;
    if snaps == [] {
    } else {
      AbsenceRemembered(w, snaps[..|snaps| - 1]);
      PollRemembers(Polls(w, snaps[..|snaps| - 1]), snaps[|snaps| - 1]);
    }
  }

  lemma ChangeFires(w: Watch, a: Snap, b: Snap)
    requires ChangedInPlace(a, b) && w.prev == Some(a) && InPlaceKey(b) !in w.fired
    requires w.absentAt.Some? ==> w.absentAt.value < a.t
    ensures Event(OwnerMovedInPlace, InPlaceKey(b)) in Poll(w, b).events
    ensures InPlaceKey(b) in Poll(w, b).fired
      && Times(Poll(w, b).events, InPlaceKey(b)) == Times(w.events, InPlaceKey(b)) + 1
  {
    var key := InPlaceKey(b);
    var w1 := CheckChurn(w, b);
    ChurnLeavesOwners(w, b, key.dir, key.owner);
    var w2 := w1.(ownerAbsentSince := None);
    assert Moved(w2, b) && key !in w2.fired;
    var w3 := CheckOwner(w2, b);
    assert w3 == Fire(w2, key, OwnerMovedInPlace);
    FireReportsOnce(w2, key, OwnerMovedInPlace, key);
    assert w3.events[|w2.events|] == Event(OwnerMovedInPlace, key);
    LongLeavesOwners(w3, b, key.dir, key.owner);
  }

  lemma ChurnLeavesOwners(w: Watch, cur: Snap, dir: real, owner: string)
    ensures var key := InPlace(dir, owner); var v := CheckChurn(w, cur);
      && (key in v.fired <==> key in w.fired) && Times(v.events, key) == Times(w.events, key)
      && v.prev == w.prev && v.absentAt == w.absentAt
  {
    var key := InPlace(dir, owner);
    FireReportsOnce(w, Backwards(cur.dirMtime), RaceChurn, key);
    FireReportsOnce(w, Churn(cur.dirMtime), RaceChurn, key);
    FireReportsOnce(Fire(w, Backwards(cur.dirMtime), RaceChurn), Churn(cur.dirMtime), RaceChurn, key);
    hide Times;
  }

  lemma LongLeavesOwners(w: Watch, cur: Snap, dir: real, owner: string)
    ensures var key := InPlace(dir, owner); var v := CheckLong(w, cur);
      && (key in v.fired <==> key in w.fired) && Times(v.events, key) == Times(w.events, key)
      && (forall e | e in w.events :: e in v.events)
  {
  }

  ghost predicate ShowsNewToken(w: Watch, snaps: seq<Snap>, i: nat) {
    && i + 1 < |snaps| && (forall k | 0 <= k < |snaps| :: snaps[k].present)
    && ChangedInPlace(snaps[i], snaps[i + 1])
    && (forall k | 0 <= k <= i :: Printed(snaps[k]) != Printed(snaps[i + 1]))
    && InPlaceKey(snaps[i + 1]) !in w.fired && Times(w.events, InPlaceKey(snaps[i + 1])) == 0
    && (w.absentAt.Some? ==> w.absentAt.value < snaps[i].t)
  }

  lemma UnmarkedUntilSeen(w: Watch, snaps: seq<Snap>, i: nat)
    requires ShowsNewToken(w, snaps, i)
    ensures var v, key := Polls(w, snaps[..i + 1]), InPlaceKey(snaps[i + 1]);
      key !in v.fired && Times(v.events, key) == 0 && v.prev == Some(snaps[i]) && v.absentAt == w.absentAt
  {
    hide Polls, Times;
    var before, key := snaps[..i + 1], InPlaceKey(snaps[i + 1]);
    AbsenceRemembered(w, before);
    NeverReportedTwice(w, before, key);
    if key in Polls(w, before).fired {
      MarkedWasSeen(w, before, key.dir, key.owner);
    }
  }

  /** Complete and exactly once: in any stretch of polls without an observed absence, an in-place change
      to a token that had not shown before is reported, as an in-place move, exactly once over the
      whole stretch, however long it goes on. */
  lemma EveryChangeReportedOnce(w: Watch, snaps: seq<Snap>, i: nat)
    requires ShowsNewToken(w, snaps, i)
    ensures var key := InPlaceKey(snaps[i + 1]);
      && Times(Polls(w, snaps).events, key) == 1
      && Event(OwnerMovedInPlace, key) in Polls(w, snaps[..i + 2]).events
  {
    hide Poll, Times;
    var key := InPlaceKey(snaps[i + 1]);
    var upTo, later := snaps[..i + 2], snaps[i + 2..];
    assert upTo[..i + 1] == snaps[..i + 1];
    UnmarkedUntilSeen(w, snaps, i);
    ChangeFires(Polls(w, snaps[..i + 1]), snaps[i], snaps[i + 1]);
    NeverReportedTwice(Polls(w, upTo), later, key);
    PollsCompose(w, upTo, later);
    assert upTo + later == snaps;
  }

  lemma {:induction false} PollsCompose(w: Watch, a: seq<Snap>, b: seq<Snap>)
    ensures Polls(w, a + b) == Polls(Polls(w, a), b)
  {
    hide Poll;
    if b == [] {
      assert a + b == a;
    } else {
      PollsCompose(w, a, b[..|b| - 1]);
      assert (a + b)[..|a + b| - 1] == a + b[..|b| - 1];
    }
  }

  // ---- half-released ------------------------------------------------------------------------

  /** Poll `k` begins the stretch of polls, unbroken up to the last, that saw the directory without an
      owner. */
  ghost predicate StretchStart(snaps: seq<Snap>, k: nat) {
    && k < |snaps|
    && (forall j | k <= j < |snaps| :: snaps[j].present && !snaps[j].ownerExists)
    && (k > 0 ==> !snaps[k - 1].present || snaps[k - 1].ownerExists)
  }

  lemma PollTracksOwnerless(w: Watch, cur: Snap)
    ensures Poll(w, cur).ownerAbsentSince ==
      if !cur.present || cur.ownerExists then None
      else if w.ownerAbsentSince.Some? then w.ownerAbsentSince else Some(cur.t)
  {
  }

  lemma {:induction false} OwnerlessSince(snaps: seq<Snap>, k: nat)
    requires StretchStart(snaps, k)
    ensures Polls(NEW_WATCH, snaps).ownerAbsentSince == Some(snaps[k].t)
  {
    hide Poll;
    var n := |snaps| - 1;
    var earlier := snaps[..n];
    PollTracksOwnerless(Polls(NEW_WATCH, earlier), snaps[n]);
    if k < n {
      assert StretchStart(earlier, k);
      OwnerlessSince(earlier, k);
    } else {
      BeforeStretch(snaps);
    }
  }

  lemma BeforeStretch(snaps: seq<Snap>)
    requires snaps != [] && StretchStart(snaps, |snaps| - 1)
    ensures Polls(NEW_WATCH, snaps[..|snaps| - 1]).ownerAbsentSince == None
  {
  }

  lemma FireMarks(w: Watch, key: Key, sub: Sub)
    ensures key in Fire(w, key, sub).fired
  {
  }

  predicate Reports(w: Watch, cur: Snap, key: Key) {
    Times(Poll(w, cur).events, key) > Times(w.events, key)
  }

  lemma HalfFires(w: Watch, cur: Snap)
    requires cur.present && !cur.ownerExists
    ensures var since := if w.ownerAbsentSince.Some? then w.ownerAbsentSince.value else cur.t;
      var key := Half(cur.dirMtime);
      Reports(w, cur, key) <==> (key !in w.fired && cur.t - since > HALF_RELEASED_S)
  {
    var since := if w.ownerAbsentSince.Some? then w.ownerAbsentSince.value else cur.t;
    var w1, key := CheckChurn(w, cur), Half(cur.dirMtime);
    hide Times, CheckChurn, Fire;
    ChurnLeavesHalf(w, cur, cur.dirMtime);
    var w2 := w1.(ownerAbsentSince := Some(since));
    FireReportsOnce(w2, key, HalfReleased, key);
    FireMarks(w2, key, HalfReleased);
    assert CheckHalf(w1, cur) == if cur.t - since > HALF_RELEASED_S then Fire(w2, key, HalfReleased) else w2;
  }

  /** HALF_RELEASED is exact about what was seen: from a fresh start, a poll reports it if and only if the
      episode is not yet marked and the unbroken stretch of polls that found the directory present
      and ownerless, this one included, began more than 60 seconds ago. */
  lemma HalfReleasedExactly(snaps: seq<Snap>, k: nat)
    requires StretchStart(snaps, k)
    ensures var n := |snaps| - 1; var w := Polls(NEW_WATCH, snaps[..n]); var key := Half(snaps[n].dirMtime);
      Reports(w, snaps[n], key) <==> (key !in w.fired && snaps[n].t - snaps[k].t > HALF_RELEASED_S)
  {
    hide Times, CheckChurn, Poll, Reports, Polls;
    var n := |snaps| - 1;
    if k < n {
      assert StretchStart(snaps[..n], k);
      OwnerlessSince(snaps[..n], k);
    } else {
      BeforeStretch(snaps);
    }
    HalfFires(Polls(NEW_WATCH, snaps[..n]), snaps[n]);
  }

  lemma ChurnLeavesHalf(w: Watch, cur: Snap, dir: real)
    ensures var key := Half(dir); var v := CheckChurn(w, cur);
      && (key in v.fired <==> key in w.fired) && Times(v.events, key) == Times(w.events, key)
      && v.ownerAbsentSince == w.ownerAbsentSince
  {
    var key := Half(dir);
    FireReportsOnce(w, Backwards(cur.dirMtime), RaceChurn, key);
    FireReportsOnce(w, Churn(cur.dirMtime), RaceChurn, key);
    FireReportsOnce(Fire(w, Backwards(cur.dirMtime), RaceChurn), Churn(cur.dirMtime), RaceChurn, key);
    hide Times;
  }
}
