/** Collecting finished gates and sending automatic reworks: `collect_gates` and `send_rework` of
    dispatcher.py. Times are in milliseconds. */
module AutoRework {
  import opened PyText
  import opened GateReport
  import opened GateParse
  import opened GateRoundTrip
  import opened GateDecide
  import opened FindingClasses

  datatype GateFile = GateFile(mtime: nat, gate: Gate)

  /** What one look at one launched gate meets: its files, the text of the review, and whether the
      item file can be written, the executor has a session and the prompt is delivered. */
  datatype Env = Env(now: nat, crashed: Option<GateFile>, md: Option<GateFile>, codex: string,
                     written: bool, session: bool, posted: bool)

  function Found(e: Env): set<string> {
    Classes(e.codex)
  }

  /** A queue row, as far as a rework touches it. */
  datatype Holder = Holder(status: string, who: string)

  datatype Book = Book(live: map<string, nat>, done: map<string, nat>, hist: map<string, History>,
                       rows: map<string, Holder>, relays: set<string>)

  datatype Event =
    | Idle
    | GaveUp
    | Escalated(key: nat)
    | NotWritten(key: nat)
    | NotPosted(key: nat)
    | Relayed(key: nat, found: set<string>)
    | Posted(key: nat, found: set<string>)

  const GIVE_UP := 3 * 3600 * 1000
  const RELAYED_EXECUTORS := {"WORKER-1", "WORKER-2", "BOSS"}

  predicate IsRelayed(who: string) {
    Upper(who) in RELAYED_EXECUTORS
  }

  function HistOf(hist: map<string, History>, id: string): History {
    if id in hist then hist[id] else History(0, {})
  }

  /** The newer-than-launch file to act on, a crash report first. */
  function PickFile(started: nat, e: Env): Option<GateFile> {
    if e.crashed.Some? && e.crashed.value.mtime > started then e.crashed
    else if e.md.Some? && e.md.value.mtime > started then e.md
    else None
  }

  function HandBack(b: Book, id: string, key: nat, e: Env): (Book, Event)
    requires id in b.rows
  {
    var h := HistOf(b.hist, id);
    var b1, row := b.(hist := b.hist[id := h]), b.rows[id];
    var sent := b1.(hist := b.hist[id := History(h.fails + 1, h.classes + Found(e))],
                    rows := b.rows[id := row.(status := "rework")]);
    if !e.written then (b1, NotWritten(key))
    else if IsRelayed(row.who) || (!e.session && row.who != "") then
      (sent.(relays := b.relays + {id}), Relayed(key, Found(e)))
    else if !e.session || !e.posted then (b1, NotPosted(key))
    else (sent, Posted(key, Found(e)))
  }

  function CollectOne(b: Book, id: string, e: Env): (Book, Event) {
    if id !in b.live then (b, Idle)
    else
      match PickFile(b.live[id], e)
      case None => if e.now - b.live[id] > GIVE_UP then (b.(live := b.live - {id}), GaveUp) else (b, Idle)
      case Some(f) =>
        var key := f.mtime / 1000;
        if id in b.done && b.done[id] == key then (b, Idle)
        else
          var b1 := b.(done := b.done[id := key], live := b.live - {id});
          var d := Decide(f.gate, Found(e), HistOf(b.hist, id));
          if d.Rework? && id in b.rows then HandBack(b1, id, key, e)
          else if id in b.rows then (b1.(rows := b.rows[id := b.rows[id].(status := "reported")]), Escalated(key))
          else (b1, Escalated(key))
  }

  function CollectAll(b: Book, order: seq<string>, env: map<string, Env>): Book
    requires forall k | 0 <= k < |order| :: order[k] in env
  {
    if order == [] then b
    else
      var id := order[|order| - 1];
      CollectOne(CollectAll(b, order[..|order| - 1], env), id, env[id]).0
  }

  // ---- the dispatcher's own state, updated in place -----------------------------------------

  class Collector {
    var live: map<string, nat>
    var done: map<string, nat>
    var hist: map<string, History>
    var rows: map<string, Holder>
    var relays: set<string>

    function Contents(): Book
      reads this
    {
      Book(live, done, hist, rows, relays)
    }

    constructor (live: map<string, nat>, rows: map<string, Holder>)
      ensures Contents() == Book(live, map[], map[], rows, {})
    {
      this.live, this.rows := live, rows;
      done, hist, relays := map[], map[], {};
    }

    method SendRework(id: string, key: nat, e: Env) returns (ev: Event)
      requires id in rows
      modifies this`hist, this`rows, this`relays
      ensures (Contents(), ev) == HandBack(old(Contents()), id, key, e)
    {
      assert id in hist ==> hist == hist[id := hist[id]];
      if id !in hist {
        hist := hist[id := History(0, {})];
      }
      ghost var counted := History(hist[id].fails + 1, hist[id].classes + Found(e));
      assert hist[id := counted] == old(hist)[id := counted];
      var n := hist[id].fails + 1;
      if !e.written {
        return NotWritten(key);
      }
      var who := rows[id].who;
      if IsRelayed(who) || (!e.session && who != "") {
        hist := hist[id := History(n, hist[id].classes + Found(e))];
        rows := rows[id := rows[id].(status := "rework")];
        relays := relays + {id};
        return Relayed(key, Found(e));
      }
      if !e.session || !e.posted {
        return NotPosted(key);
      }
      hist := hist[id := History(n, hist[id].classes + Found(e))];
      rows := rows[id := rows[id].(status := "rework")];
      ev := Posted(key, Found(e));
    }

    method Collect(id: string, e: Env) returns (ev: Event)
      modifies this
      ensures (Contents(), ev) == CollectOne(old(Contents()), id, e)
    {
      hide Decide, Classes, IsRelayed;
      if id !in live {
        return Idle;
      }
      var path := PickFile(live[id], e);
      if path.None? {
        if e.now - live[id] > GIVE_UP {
          live := live - {id};
          return GaveUp;
        }
        return Idle;
      }
      var key := path.value.mtime / 1000;
      if id in done && done[id] == key {
        return Idle;
      }
      done := done[id := key];
      live := live - {id};
      var action := Decide(path.value.gate, Found(e), HistOf(hist, id));
      if !action.Rework? || id !in rows {
        if id in rows {
          rows := rows[id := rows[id].(status := "reported")];
        }
        return Escalated(key);
      }
      ev := SendRework(id, key, e);
    }

    /** One pass over the gates the daemon launched. */
    method CollectGates(order: seq<string>, env: map<string, Env>)
      requires forall k | 0 <= k < |order| :: order[k] in env
      modifies this
      ensures Contents() == CollectAll(old(Contents()), order, env)
    {
      hide CollectOne;
      var k := 0;
      while k < |order|
        invariant 0 <= k <= |order|
        invariant Contents() == CollectAll(old(Contents()), order[..k], env)
      {
        assert order[..k + 1][..k] == order[..k];
        var ev := Collect(order[k], env[order[k]]);
        k := k + 1;
      }
      assert order[..|order|] == order;
    }
  }

  // ---- whole runs ---------------------------------------------------------------------------

  /** A run: looks at single gates, in any order, and anything else changing the launched gates, the queue
      rows and the relay notes between them. */
  datatype Step =
    | Look(id: string, env: Env)
    | Outside(live: map<string, nat>, rows: map<string, Holder>, relays: set<string>)

  function Next(b: Book, s: Step): (Book, Event) {
    match s
    case Look(id, env) => CollectOne(b, id, env)
    case Outside(live, rows, relays) => (b.(live := live, rows := rows, relays := relays), Idle)
  }

  function After(b: Book, run: seq<Step>): Book {
    if run == [] then b else Next(After(b, run[..|run| - 1]), run[|run| - 1]).0
  }

  /** The event of the last step, when it concerns `id`. */
  function LastEvent(b: Book, run: seq<Step>, id: string): Event
    requires run != []
  {
    var s := run[|run| - 1];
    if s.Look? && s.id == id then Next(After(b, run[..|run| - 1]), s).1 else Idle
  }

  /** The finding classes of the reworks of `id` that were posted or relayed, in order. */
  function Sent(b: Book, run: seq<Step>, id: string): seq<set<string>> {
    if run == [] then []
    else
      var ev := LastEvent(b, run, id);
      Sent(b, run[..|run| - 1], id) + if ev.Posted? || ev.Relayed? then [ev.found] else []
  }

  /** The gate files of `id` that were acted on, by their keys, in order. */
  function Acted(b: Book, run: seq<Step>, id: string): seq<nat> {
    if run == [] then []
    else
      var ev := LastEvent(b, run, id);
      Acted(b, run[..|run| - 1], id) + if ev.Idle? || ev.GaveUp? then [] else [ev.key]
  }

  function UnionOf(sets: seq<set<string>>): set<string> {
    if sets == [] then {} else UnionOf(sets[..|sets| - 1]) + sets[|sets| - 1]
  }

  lemma OneLook(b: Book, s: Step, id: string)
    ensures var (c, ev) := Next(b, s); var h, h2 := HistOf(b.hist, id), HistOf(c.hist, id);
      if s.Look? && s.id == id && (ev.Posted? || ev.Relayed?)
      then h2 == History(h.fails + 1, h.classes + ev.found) && h.fails < MAX_AUTO_FAILS && ev.found !! h.classes
      else h2 == h
  {
    hide Decide, Classes, IsRelayed;
    if s.Look? && s.id in b.live {
      var f := PickFile(b.live[s.id], s.env);
      if f.Some? {
        ReworkAllowed(f.value.gate, Found(s.env), HistOf(b.hist, s.id));
      }
    }
  }

  lemma ReworkAllowed(g: Gate, found: set<string>, hist: History)
    ensures Decide(g, found, hist).Rework? ==> hist.fails < MAX_AUTO_FAILS && found !! hist.classes
  {
    hide Decide, Classes, SaysNotCompleted, CodexOpinion, CodexDetail;
    DecideRework(g, found, hist);
  }

  ghost predicate PairwiseDisjoint(sets: seq<set<string>>) {
    forall j, k | 0 <= j < k < |sets| :: sets[j] !! sets[k]
  }

  lemma {:induction false} InUnion(sets: seq<set<string>>, k: nat)
    requires k < |sets|
    ensures sets[k] <= UnionOf(sets)
  {
    if k == |sets| - 1 {
    } else {
      InUnion(sets[..|sets| - 1], k);
    }
  }

  lemma DisjointSnoc(sets: seq<set<string>>, last: set<string>)
    requires PairwiseDisjoint(sets) && last !! UnionOf(sets)
    ensures PairwiseDisjoint(sets + [last]) && UnionOf(sets + [last]) == UnionOf(sets) + last
  {
    assert (sets + [last])[..|sets|] == sets;
    forall k | 0 <= k < |sets|
      ensures sets[k] !! last
    {
      InUnion(sets, k);
    }
  }

  /** Automatic reworks are bounded over whole runs. Whatever history an item starts with, it is handed back at most
      as often as that leaves of MAX_AUTO_FAILS, whatever gates are launched for it and whatever else happens to its
      row; failed posts and failed writes are not counted; and no finding class is handed back twice, nor one of
      the history. */
  lemma {:induction false} BoundedRework(b: Book, run: seq<Step>, id: string)
    ensures var h, sent := HistOf(b.hist, id), Sent(b, run, id);
      && (sent != [] ==> h.fails + |sent| <= MAX_AUTO_FAILS)
      && PairwiseDisjoint(sent) && UnionOf(sent) !! h.classes
      && HistOf(After(b, run).hist, id) == History(h.fails + |sent|, h.classes + UnionOf(sent))
  {
    hide Next, HistOf;
    var h := HistOf(b.hist, id);
    if run == [] {
      assert h.classes + {} == h.classes;
    } else {
      var n := |run| - 1;
      BoundedRework(b, run[..n], id);
      var sent := Sent(b, run[..n], id);
      OneLook(After(b, run[..n]), run[n], id);
      var ev := LastEvent(b, run, id);
      if ev.Posted? || ev.Relayed? {
        assert ev.found !! UnionOf(sent) && ev.found !! h.classes;
        DisjointSnoc(sent, ev.found);
        assert h.classes + UnionOf(sent) + ev.found == h.classes + (UnionOf(sent) + ev.found);
      } else {
        assert sent + [] == sent;
      }
    }
  }

  /** The same gate file is never acted on twice running, however often it is looked at. */
  lemma {:induction false} NoFileActedOnTwiceRunning(b: Book, run: seq<Step>, id: string)
    requires id !in b.done
    ensures var acted := Acted(b, run, id); var done := After(b, run).done;
      && (id in done <==> acted != []) && (acted != [] ==> done[id] == acted[|acted| - 1])
      && forall k | 0 < k < |acted| :: acted[k] != acted[k - 1]
  {
    hide Next;
    if run == [] {
    } else {
      var n := |run| - 1;
      NoFileActedOnTwiceRunning(b, run[..n], id);
      OneLookKey(After(b, run[..n]), run[n], id);
      var acted := Acted(b, run[..n], id);
      assert acted + [] == acted;
    }
  }

  lemma OneLookKey(b: Book, s: Step, id: string)
    ensures var (c, ev) := Next(b, s);
      if s.Look? && s.id == id && !ev.Idle? && !ev.GaveUp?
      then c.done == b.done[id := ev.key] && (id in b.done ==> b.done[id] != ev.key)
      else (id in c.done <==> id in b.done) && (id in b.done ==> c.done[id] == b.done[id])
  {
    hide Decide, Classes, IsRelayed;
  }

  lemma LookActsExactly(b: Book, id: string, e: Env)
    requires id in b.live && PickFile(b.live[id], e).Some?
    ensures var (c, ev) := CollectOne(b, id, e); var key := PickFile(b.live[id], e).value.mtime / 1000;
      && !ev.GaveUp? && (ev.Idle? <==> id in b.done && b.done[id] == key)
      && (if ev.Idle? then c == b else ev.key == key && c.live == b.live - {id} && c.done == b.done[id := key])
  {
    hide Decide, Classes, IsRelayed;
  }

  lemma OtherLook(b: Book, id: string, other: string, e: Env)
    requires other != id
    ensures var c := CollectOne(b, other, e).0;
      && (id in c.live <==> id in b.live) && (id in b.live ==> c.live[id] == b.live[id])
      && (id in c.done <==> id in b.done) && (id in b.done ==> c.done[id] == b.done[id])
  {
    hide Decide, Classes, IsRelayed;
  }

  /** Every look at `id` finds a result newer than `started`, written in second `key`. */
  predicate FindsIt(s: Step, id: string, started: nat, key: nat) {
    s.Look? && s.id == id ==> PickFile(started, s.env).Some? && PickFile(started, s.env).value.mtime / 1000 == key
  }

  predicate LooksAt(run: seq<Step>, id: string) {
    exists k | 0 <= k < |run| :: run[k].Look? && run[k].id == id
  }

  lemma LooksSnoc(run: seq<Step>, id: string)
    requires run != []
    ensures var n := |run| - 1; LooksAt(run, id) <==> LooksAt(run[..n], id) || (run[n].Look? && run[n].id == id)
  {
    var n := |run| - 1;
    assert forall k | 0 <= k < n :: run[..n][k] == run[k];
  }

  /** A launched gate's result is acted on in a run of looks if and only if some look is at it and it was not written
      in the second of the last result acted on for its item; it is then acted on once. */
  lemma {:induction false} CollectedExactly(b: Book, run: seq<Step>, id: string, key: nat)
    requires id in b.live && forall k | 0 <= k < |run| :: run[k].Look? && FindsIt(run[k], id, b.live[id], key)
    ensures var unseen, looked := !(id in b.done && b.done[id] == key), LooksAt(run, id); var c := After(b, run);
      && Acted(b, run, id) == (if looked && unseen then [key] else [])
      && (id in c.live <==> !(looked && unseen)) && (id in c.live ==> c.live[id] == b.live[id])
      && (id in c.live ==> (id in c.done <==> id in b.done) && (id in b.done ==> c.done[id] == b.done[id]))
  {
    hide CollectOne, PickFile;
    if run == [] {
    } else {
      var n := |run| - 1;
      var before, s := After(b, run[..n]), run[n];
      CollectedExactly(b, run[..n], id, key);
      LooksSnoc(run, id);
      assert FindsIt(s, id, b.live[id], key);
      if s.id != id {
        OtherLook(before, id, s.id, s.env);
      } else if id in before.live {
        LookActsExactly(before, id, s.env);
      } else {
        NotLive(before, id, s.env);
      }
    }
  }

  lemma NotLive(b: Book, id: string, e: Env)
    requires id !in b.live
    ensures CollectOne(b, id, e) == (b, Idle)
  {
  }

  /** Nothing but looks that find a result of second `key`, and changes that leave the gate launched. */
  predicate LeavesLaunched(s: Step, id: string, started: nat, key: nat) {
    FindsIt(s, id, started, key) && (s.Outside? ==> id in s.live && s.live[id] == started)
  }

  /** A result written in the second of the last one acted on is never collected: through every run, of any length
      and at any times, the gate stays launched, and not even the three-hour limit removes it. */
  lemma {:induction false} NeverCollected(b: Book, run: seq<Step>, id: string)
    requires id in b.live && id in b.done
    requires forall k | 0 <= k < |run| :: LeavesLaunched(run[k], id, b.live[id], b.done[id])
    ensures var c := After(b, run);
      && id in c.live && c.live[id] == b.live[id] && id in c.done && c.done[id] == b.done[id]
      && Acted(b, run, id) == []
  {
    hide CollectOne, PickFile;
    if run == [] {
    } else {
      var n := |run| - 1;
      var before, s := After(b, run[..n]), run[n];
      NeverCollected(b, run[..n], id);
      assert LeavesLaunched(s, id, b.live[id], b.done[id]);
      if s.Look? && s.id != id {
        OtherLook(before, id, s.id, s.env);
      } else if s.Look? {
        LookActsExactly(before, id, s.env);
      }
    }
  }

  /** Such a state is reached: a result is acted on, the gate is launched again in the same second, and its next
      result is written before that second is over. */
  lemma SameSecondIsLost(b: Book, id: string, e: Env, relaunch: Step, run: seq<Step>)
    requires id in b.live && PickFile(b.live[id], e).Some? && relaunch.Outside? && id in relaunch.live
    requires !(id in b.done && b.done[id] == PickFile(b.live[id], e).value.mtime / 1000)
    requires forall k | 0 <= k < |run| ::
      LeavesLaunched(run[k], id, relaunch.live[id], PickFile(b.live[id], e).value.mtime / 1000)
    ensures var launched := After(b, [Look(id, e), relaunch]);
      && Acted(b, [Look(id, e)], id) == [PickFile(b.live[id], e).value.mtime / 1000]
      && id in After(launched, run).live && Acted(launched, run, id) == []
  {
    hide CollectOne, PickFile;
    var start := [Look(id, e), relaunch];
    assert start[..1] == [Look(id, e)] && start[..1][..0] == [] && [Look(id, e)][..0] == [];
    LookActsExactly(b, id, e);
    assert After(b, []) == b && Acted(b, [], id) == [];
    assert After(b, [Look(id, e)]) == CollectOne(b, id, e).0;
    NeverCollected(After(b, start), run, id);
  }

  /** It happens: an item whose gate was launched at second 1 is collected from a file of second 1.5, launched again
      at 1.6, finishes at 1.9, and four hours on is still not collected. */
  lemma {:induction false} SameSecondHappens() returns (b: Book, run: seq<Step>)
    ensures b.live == map["item" := 1000] && b.done == map[] && |run| == 3
    ensures run[0].Look? && PickFile(1000, run[0].env) == Some(GateFile(1500, NOTHING))
    ensures run[1].Outside? && run[1].live == map["item" := 1600]
    ensures run[2].Look? && PickFile(1600, run[2].env) == Some(GateFile(1900, NOTHING))
    ensures run[2].env.now > 1900 + GIVE_UP
    ensures Acted(b, run[..1], "item") == [1] && "item" in After(After(b, run[..2]), run[2..]).live
    ensures Acted(After(b, run[..2]), run[2..], "item") == []
  {
    b := Book(map["item" := 1000], map[], map[], map[], {});
    var first := Env(2000, None, Some(GateFile(1500, NOTHING)), "", true, true, true);
    var second := Env(4 * 3600 * 1000, None, Some(GateFile(1900, NOTHING)), "", true, true, true);
    run := [Look("item", first), Outside(map["item" := 1600], map[], {}), Look("item", second)];
    assert run[..1] == [run[0]] && run[..2] == [run[0], run[1]] && run[2..] == [run[2]];
    assert LeavesLaunched(run[2], "item", 1600, 1);
    SameSecondIsLost(b, "item", first, run[1], run[2..]);
  }

  /** Nothing but a failed gate is ever handed back: if the file collected is the one a gate printed for its checks,
      or the report of its crash, a rework means that the gate ran to its end and one of them failed. */
  lemma HandedBackOnlyFailures(b: Book, id: string, e: Env, h: Header, cs: seq<Check>)
    requires id in b.live && IsWord(h.item)
    requires h.verdict == OutcomeOf(cs).verdict || h.verdict == "NOT COMPLETED"
    requires PickFile(b.live[id], e).Some? && PickFile(b.live[id], e).value.gate == Parse(Render(h, cs))
    ensures var ev := CollectOne(b, id, e).1;
      ev.Posted? || ev.Relayed? ==> OutcomeOf(cs).kind == GateFail && h.verdict != "NOT COMPLETED"
  {
    hide Decide, Classes, IsRelayed, Parse, Render, IsWord, OutcomeOf;
    if h.verdict == "NOT COMPLETED" {
      CrashIsNotHandedBack(h, cs, Found(e), HistOf(b.hist, id));
    } else {
      ReworkFails(h, cs, Found(e), HistOf(b.hist, id));
    }
  }

  /** A row changes to rework exactly when the rework was posted or relayed. */
  lemma ReworkStatusMeansSent(b: Book, id: string, e: Env)
    requires id in b.rows && b.rows[id].status != "rework"
    ensures var (c, ev) := CollectOne(b, id, e);
      && (c.rows[id].status == "rework" <==> ev.Posted? || ev.Relayed?)
      && (ev.Relayed? ==> id in c.relays)
      && c.rows.Keys == b.rows.Keys && forall other | other in b.rows && other != id :: c.rows[other] == b.rows[other]
  {
    hide Decide, Classes, IsRelayed;
  }

  /** A reviewer who names a file at the severity a delivered rework already named it at, in whatever words,
      is not handed back again. */
  lemma RepeatGoesToPerson(b: Book, id: string, e: Env, was: seq<Finding>, now: seq<Finding>, j: nat, k: nat)
    requires forall i | 0 <= i < |was| :: WellWritten(was[i])
    requires forall i | 0 <= i < |now| :: WellWritten(now[i])
    requires Classes(Review(was)) <= HistOf(b.hist, id).classes && e.codex == Review(now)
    requires j < |was| && k < |now| && Named(was[j]) == Named(now[k])
    ensures var ev := CollectOne(b, id, e).1; !ev.Posted? && !ev.Relayed?
  {
    hide Decide, Classes, IsRelayed, Review, WellWritten, Named, HistOf;
    WordingDoesNotMatter(was, now);
    OneLook(b, Look(id, e), id);
  }
}
