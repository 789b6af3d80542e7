/** What the watchdog of lockwatch.py says, told from what it was shown: for every history of polls, which events its
    last poll emits. */
module LockReports {
  import opened PyText
  import opened LockWatch

  // ---- one poll -----------------------------------------------------------------------------

  /** What the watch remembers when it polls: the poll before, when the directory was last seen missing, and when the
      ownerless stretch began. */
  datatype Past = Past(prev: Option<Snap>, absentAt: Option<real>, since: Option<real>)

  /** The owner named now is not the one named a poll ago, and the directory was not seen missing since. */
  predicate NewOwner(past: Past, cur: Snap) {
    && cur.present && cur.ownerExists && cur.ownerText.Some? && cur.ownerText.value != ""
    && past.prev.Some?
    && var prev := past.prev.value;
      && prev.present && prev.ownerText.Some? && prev.ownerText.value != ""
      && prev.ownerText.value != cur.ownerText.value
      && (past.absentAt.Some? && past.absentAt.value != 0.0 ==> past.absentAt.value < prev.t)
  }

  /** The directory shows the mtime it showed a poll ago, to a millisecond. */
  predicate DirUnmoved(prev: Snap, cur: Snap) {
    prev.dirMtime != 0.0 && -0.001 < cur.dirMtime - prev.dirMtime < 0.001
  }

  predicate Names(cur: Snap, owner: string) {
    owner == if cur.ownerText.Some? then cur.ownerText.value else "None"
  }

  function SubOf(key: Key): Sub {
    match key
    case Backwards(_) => RaceChurn
    case Churn(_) => RaceChurn
    case Half(_) => HalfReleased
    case InPlace(_, _) => OwnerMovedInPlace
    case Handoff(_, _) => RaceChurn
    case Long(_) => LongHold
  }

  /** What a poll sees calls for a report of this episode. */
  predicate CallsFor(past: Past, cur: Snap, key: Key) {
    cur.present &&
    match key
    case Backwards(dir) =>
      && cur.dirMtime == dir && past.prev.Some?
      && past.prev.value.present && past.prev.value.dirMtime != 0.0 && past.prev.value.dirMtime - dir > 0.001
    case Churn(dir) =>
      && cur.dirMtime == dir && dir != 0.0
      && past.absentAt.Some? && past.absentAt.value != 0.0 && 0.0 <= dir - past.absentAt.value <= 2.0
    case Half(dir) =>
      cur.dirMtime == dir && !cur.ownerExists && past.since.Some? && cur.t - past.since.value > 60.0
    case InPlace(dir, owner) =>
      && cur.dirMtime == dir && cur.ownerExists && Names(cur, owner)
      && (if NewOwner(past, cur) then DirUnmoved(past.prev.value, cur)
          else cur.ownerMtime != 0.0 && dir != 0.0 && cur.ownerMtime - dir > 5.0)
    case Handoff(dir, owner) =>
      && cur.dirMtime == dir && cur.ownerExists && Names(cur, owner)
      && NewOwner(past, cur) && !DirUnmoved(past.prev.value, cur)
    case Long(owner) =>
      cur.ownerExists && Names(cur, owner) && cur.ownerMtime != 0.0 && cur.t - cur.ownerMtime > 2700.0
  }

  /** A hand-over settles the in-place episode it could be taken for. */
  predicate Settles(past: Past, cur: Snap, key: Key) {
    CallsFor(past, cur, key) || (key.InPlace? && CallsFor(past, cur, Handoff(key.dir, key.owner)))
  }

  /** What a poll adds to what was emitted. */
  function New(w: Watch, cur: Snap): seq<Event> {
    if |w.events| <= |Poll(w, cur).events| then Poll(w, cur).events[|w.events|..] else []
  }

  function PastOf(w: Watch): Past {
    Past(w.prev, w.absentAt, w.ownerAbsentSince)
  }

  /** Over one check the events and marks about `key` grow as said, and nothing is taken back. */
  ghost predicate Adds(w: Watch, v: Watch, e: Event, due: bool, settled: bool) {
    && w.events <= v.events
    && (e in v.events[|w.events|..] <==> e.sub == SubOf(e.key) && due && e.key !in w.fired)
    && (e.key in v.fired <==> e.key in w.fired || settled)
    && v.prev == w.prev && v.absentAt == w.absentAt
  }

  lemma FireAdds(w: Watch, key: Key, e: Event)
    ensures Adds(w, Fire(w, key, SubOf(key)), e, e.key == key, e.key == key)
    ensures Fire(w, key, SubOf(key)).ownerAbsentSince == w.ownerAbsentSince
  {
    var v := Fire(w, key, SubOf(key));
    if key !in w.fired {
      assert v.events[|w.events|..] == [Event(SubOf(key), key)];
    }
  }

  lemma NothingAdded(w: Watch, e: Event)
    ensures Adds(w, w, e, false, false)
  {
  }

  lemma AddsTwice(u: Watch, v: Watch, w: Watch, e: Event, due1: bool, settled1: bool, due2: bool, settled2: bool)
    requires Adds(u, v, e, due1, settled1) && Adds(v, w, e, due2, settled2)
    requires !(settled1 && due2)
    ensures Adds(u, w, e, due1 || due2, settled1 || settled2)
  {
    assert w.events[|u.events|..] == v.events[|u.events|..] + w.events[|v.events|..];
  }

  lemma ChurnAdds(w: Watch, cur: Snap, e: Event)
    requires cur.present
    ensures var due := (e.key.Backwards? || e.key.Churn?) && CallsFor(PastOf(w), cur, e.key);
      Adds(w, CheckChurn(w, cur), e, due, due)
    ensures CheckChurn(w, cur).ownerAbsentSince == w.ownerAbsentSince
  {
    hide Adds, Fire;
    var back, churn := Backwards(cur.dirMtime), Churn(cur.dirMtime);
    NothingAdded(w, e);
    FireAdds(w, back, e);
    FireAdds(w, churn, e);
    FireAdds(Fire(w, back, RaceChurn), churn, e);
    AddsTwice(w, Fire(w, back, RaceChurn), Fire(Fire(w, back, RaceChurn), churn, RaceChurn), e,
      e.key == back, e.key == back, e.key == churn, e.key == churn);
  }

  lemma HalfAdds(w: Watch, cur: Snap, e: Event)
    requires cur.present && !cur.ownerExists
    ensures var v := CheckHalf(w, cur);
      var due := e.key.Half? && CallsFor(PastOf(v), cur, e.key);
      Adds(w, v, e, due, due)
    ensures CheckHalf(w, cur).ownerAbsentSince ==
      Some(if w.ownerAbsentSince.Some? then w.ownerAbsentSince.value else cur.t)
  {
    var w1 := w.(ownerAbsentSince := CheckHalf(w, cur).ownerAbsentSince);
    FireAdds(w1, Half(cur.dirMtime), e);
  }

  lemma OwnerAdds(w: Watch, cur: Snap, e: Event)
    requires cur.present && cur.ownerExists
    ensures var past, v := PastOf(w), CheckOwner(w, cur);
      var due := (e.key.InPlace? || e.key.Handoff?) && CallsFor(past, cur, e.key);
      Adds(w, v, e, due, due || (e.key.InPlace? && Settles(past, cur, e.key)))
  {
    hide Fire;
    var key, over := InPlaceKey(cur), Handoff(cur.dirMtime, Printed(cur));
    var w1 := w.(fired := w.fired + {key});
    FireAdds(w, key, e);
    FireAdds(w1, over, e);
    assert NewOwner(PastOf(w), cur) <==> Moved(w, cur);
    if Moved(w, cur) {
      assert DirUnmoved(w.prev.value, cur) <==> SameDir(w.prev.value, cur);
    }
  }

  lemma LongAdds(w: Watch, cur: Snap, e: Event)
    requires cur.present && cur.ownerExists
    ensures var due := e.key.Long? && CallsFor(PastOf(w), cur, e.key);
      Adds(w, CheckLong(w, cur), e, due, due)
  {
    hide Fire;
    NothingAdded(w, e);
    FireAdds(w, Long(Printed(cur)), e);
  }

  /** What the watch knows at the end of a poll is what it uses in it, but for the owner's absence. */
  function Seen(w: Watch, cur: Snap): Past {
    Past(w.prev, w.absentAt, if !cur.present || cur.ownerExists then None
      else if w.ownerAbsentSince.Some? then w.ownerAbsentSince else Some(cur.t))
  }

  lemma PollOwnerless(w: Watch, cur: Snap, e: Event)
    requires cur.present && !cur.ownerExists
    ensures var past := Seen(w, cur); var due := CallsFor(past, cur, e.key);
      Adds(w, Poll(w, cur).(prev := w.prev), e, due, Settles(past, cur, e.key))
    ensures Poll(w, cur).ownerAbsentSince == Seen(w, cur).since
  {
    hide CheckChurn, CheckHalf, Adds;
    var w1, past := CheckChurn(w, cur), Seen(w, cur);
    var w2 := CheckHalf(w1, cur);
    ChurnAdds(w, cur, e);
    HalfAdds(w1, cur, e);
    var churn, half := (e.key.Backwards? || e.key.Churn?) && CallsFor(past, cur, e.key),
      e.key.Half? && CallsFor(past, cur, e.key);
    AddsKeep(w, w1, e, churn, churn);
    AddsKeep(w1, w2, e, half, half);
    assert PastOf(w2) == past;
    AddsTwice(w, w1, w2, e, churn, churn, half, half);
  }

  lemma AddsKeep(w: Watch, v: Watch, e: Event, due: bool, settled: bool)
    requires Adds(w, v, e, due, settled)
    ensures v.prev == w.prev && v.absentAt == w.absentAt
  {
  }

  lemma PollOwned(w: Watch, cur: Snap, e: Event)
    requires cur.present && cur.ownerExists
    ensures var past := Seen(w, cur); var due := CallsFor(past, cur, e.key);
      Adds(w, Poll(w, cur).(prev := w.prev), e, due, Settles(past, cur, e.key))
    ensures Poll(w, cur).ownerAbsentSince == None
  {
    hide CheckChurn, CheckOwner, CheckLong, Adds;
    var past, w1 := Seen(w, cur), CheckChurn(w, cur);
    var w2 := w1.(ownerAbsentSince := None);
    var w3 := CheckOwner(w2, cur);
    var w4 := CheckLong(w3, cur);
    var churn, long := (e.key.Backwards? || e.key.Churn?) && CallsFor(past, cur, e.key),
      e.key.Long? && CallsFor(past, cur, e.key);
    var move := (e.key.InPlace? || e.key.Handoff?) && CallsFor(past, cur, e.key);
    var settled := move || (e.key.InPlace? && Settles(past, cur, e.key));
    ChurnAdds(w, cur, e);
    AddsKeep(w, w1, e, churn, churn);
    AddsLess(w, w1, e, churn, churn);
    OwnerAdds(w2, cur, e);
    AddsKeep(w2, w3, e, move, settled);
    LongAdds(w3, cur, e);
    AddsKeep(w3, w4, e, long, long);
    AddsTwice(w, w2, w3, e, churn, churn, move, settled);
    ChecksKeepSince(w2, cur);
    ChecksKeepSince(w3, cur);
    AddsTwice(w, w3, w4, e, churn || move, churn || settled, long, long);
  }

  lemma AddsLess(w: Watch, v: Watch, e: Event, due: bool, settled: bool)
    requires Adds(w, v, e, due, settled)
    ensures Adds(w, v.(ownerAbsentSince := None), e, due, settled)
  {
  }

  lemma ChecksKeepSince(w: Watch, cur: Snap)
    ensures CheckOwner(w, cur).ownerAbsentSince == CheckLong(w, cur).ownerAbsentSince == w.ownerAbsentSince
  {
  }

  /** What one poll does, exactly: it emits an event if and only if what it sees calls for it and the episode is not
      marked; it marks the episodes it sees, and those a hand-over settles; and an absence clears all marks. */
  lemma PollSaysExactly(w: Watch, cur: Snap, e: Event)
    ensures w.events <= Poll(w, cur).events
    ensures e in New(w, cur) <==> e.sub == SubOf(e.key) && CallsFor(Seen(w, cur), cur, e.key) && e.key !in w.fired
    ensures e.key in Poll(w, cur).fired <==> cur.present && (e.key in w.fired || Settles(Seen(w, cur), cur, e.key))
    ensures Poll(w, cur).prev == Some(cur) && Poll(w, cur).ownerAbsentSince == Seen(w, cur).since
    ensures Poll(w, cur).absentAt == if cur.present then w.absentAt else Some(cur.t)
  {
    hide CheckChurn, CheckHalf, CheckOwner, CheckLong;
    if cur.present && cur.ownerExists {
      PollOwned(w, cur, e);
    } else if cur.present {
      PollOwnerless(w, cur, e);
    }
  }

  // ---- whole histories ----------------------------------------------------------------------

  /** When the directory was last seen missing. */
  function LastAbsence(snaps: seq<Snap>): Option<real> {
    if snaps == [] then None
    else
      var cur := snaps[|snaps| - 1];
      if !cur.present then Some(cur.t) else LastAbsence(snaps[..|snaps| - 1])
  }

  /** When the ownerless stretch that the last poll is in began. */
  function OwnerlessFrom(snaps: seq<Snap>): Option<real> {
    if snaps == [] then None
    else
      var cur, before := snaps[|snaps| - 1], OwnerlessFrom(snaps[..|snaps| - 1]);
      if !cur.present || cur.ownerExists then None else if before.Some? then before else Some(cur.t)
  }

  /** What the last of these polls remembers. */
  function PastAt(snaps: seq<Snap>): Past
    requires snaps != []
  {
    var n := |snaps| - 1;
    Past(if n == 0 then None else Some(snaps[n - 1]), LastAbsence(snaps[..n]), OwnerlessFrom(snaps))
  }

  /** Since the directory was last seen missing, some poll saw this episode or a hand-over that settles it. */
  ghost predicate Settled(snaps: seq<Snap>, key: Key) {
    exists j | 0 <= j < |snaps| ::
      (forall i | j <= i < |snaps| :: snaps[i].present) && Settles(PastAt(snaps[..j + 1]), snaps[j], key)
  }

  lemma SettledSnoc(snaps: seq<Snap>, key: Key)
    requires snaps != []
    ensures var n := |snaps| - 1;
      Settled(snaps, key) <==> snaps[n].present && (Settled(snaps[..n], key) || Settles(PastAt(snaps), snaps[n], key))
  {
    hide Settles, PastAt;
    var n := |snaps| - 1;
    var before := snaps[..n];
    assert snaps[..n + 1] == snaps;
    assert forall j | 0 <= j < n :: before[..j + 1] == snaps[..j + 1] && before[j] == snaps[j];
    if snaps[n].present && Settled(before, key) {
      var j :| 0 <= j < n && (forall i | j <= i < n :: before[i].present)
        && Settles(PastAt(before[..j + 1]), before[j], key);
      assert forall i | j <= i < |snaps| :: i < n ==> snaps[i] == before[i];
      assert Settles(PastAt(snaps[..j + 1]), snaps[j], key);
    }
    if Settled(snaps, key) {
      var j :| 0 <= j < |snaps| && (forall i | j <= i < |snaps| :: snaps[i].present)
        && Settles(PastAt(snaps[..j + 1]), snaps[j], key);
      if j < n {
        assert forall i | j <= i < n :: before[i] == snaps[i];
        assert Settles(PastAt(before[..j + 1]), before[j], key);
      }
    }
  }

  /** What a watch that began fresh knows after these polls. */
  lemma {:induction false} Remembered(snaps: seq<Snap>, e: Event)
    ensures var w := Polls(NEW_WATCH, snaps);
      && w.prev == (if snaps == [] then None else Some(snaps[|snaps| - 1]))
      && w.absentAt == LastAbsence(snaps) && w.ownerAbsentSince == OwnerlessFrom(snaps)
      && (e.key in w.fired <==> Settled(snaps, e.key))
    ensures snaps != [] ==> Seen(Polls(NEW_WATCH, snaps[..|snaps| - 1]), snaps[|snaps| - 1]) == PastAt(snaps)
  {
    hide Poll, New, Settled, Settles, CallsFor;
    if snaps == [] {
      NothingSettled(e.key);
    } else {
      var n := |snaps| - 1;
      Remembered(snaps[..n], e);
      PollSaysExactly(Polls(NEW_WATCH, snaps[..n]), snaps[n], e);
      SettledSnoc(snaps, e.key);
    }
  }

  lemma NothingSettled(key: Key)
    ensures !Settled([], key)
  {
  }

  /** What the last of these polls emits. */
  predicate Emits(snaps: seq<Snap>, e: Event)
    requires snaps != []
  {
    e in New(Polls(NEW_WATCH, snaps[..|snaps| - 1]), snaps[|snaps| - 1])
  }

  /** For every history: a poll emits an event if and only if what it sees, next to the poll before and the last
      absence, calls for it, and no poll since that absence saw the same episode or a hand-over that settles it. */
  lemma EmittedExactly(snaps: seq<Snap>, e: Event)
    requires snaps != []
    ensures var n := |snaps| - 1;
      Emits(snaps, e) <==>
        e.sub == SubOf(e.key) && CallsFor(PastAt(snaps), snaps[n], e.key) && !Settled(snaps[..n], e.key)
  {
    hide Poll, New, Settled, Settles, CallsFor, Polls, PastAt;
    var n := |snaps| - 1;
    Remembered(snaps, e);
    Remembered(snaps[..n], e);
    PollSaysExactly(Polls(NEW_WATCH, snaps[..n]), snaps[n], e);
  }

  /** What poll `n` of these emits. */
  predicate EmitsAt(snaps: seq<Snap>, n: nat, e: Event)
    requires n < |snaps|
  {
    Emits(snaps[..n + 1], e)
  }

  /** And what it emitted over the whole history is what its polls emitted. */
  lemma {:induction false} AllThatIsEmitted(snaps: seq<Snap>, e: Event)
    ensures e in Polls(NEW_WATCH, snaps).events <==> exists n | 0 <= n < |snaps| :: EmitsAt(snaps, n, e)
  {
    hide Poll, Emits;
    if snaps == [] {
    } else {
      var n := |snaps| - 1;
      var before := snaps[..n];
      AllThatIsEmitted(before, e);
      assert snaps[..n + 1] == snaps;
      forall j | 0 <= j < n
        ensures EmitsAt(before, j, e) <==> EmitsAt(snaps, j, e)
      {
        assert before[..j + 1] == snaps[..j + 1];
      }
      LastEmits(snaps, e);
      if e in Polls(NEW_WATCH, before).events {
        var j :| 0 <= j < n && EmitsAt(before, j, e);
        assert EmitsAt(snaps, j, e);
      } else if Emits(snaps, e) {
        assert EmitsAt(snaps, n, e);
      }
    }
  }

  lemma LastEmits(snaps: seq<Snap>, e: Event)
    requires snaps != []
    ensures e in Polls(NEW_WATCH, snaps).events
      <==> e in Polls(NEW_WATCH, snaps[..|snaps| - 1]).events || Emits(snaps, e)
  {
    hide Poll;
    var n := |snaps| - 1;
    var w := Polls(NEW_WATCH, snaps[..n]);
    PollSaysExactly(w, snaps[n], e);
    assert Poll(w, snaps[n]).events == w.events + New(w, snaps[n]);
  }

  /** The incident the cold-start inference was written for, in seconds: a first look at a directory made at 100 whose
      owner file was written 204 seconds later is reported as an in-place move. */
  lemma {:induction false} ColdStartIsReported() returns (cur: Snap)
    ensures cur == Snap(1000.0, true, 100.0, true, 304.0, Some("x"))
    ensures Emits([cur], Event(OwnerMovedInPlace, InPlace(100.0, "x")))
  {
    cur := Snap(1000.0, true, 100.0, true, 304.0, Some("x"));
    var e := Event(OwnerMovedInPlace, InPlace(100.0, "x"));
    EmittedExactly([cur], e);
    assert [cur][..0] == [];
    NothingSettled(e.key);
    assert CallsFor(PastAt([cur]), cur, e.key);
  }
}
