/** What a look at a finished gate does, exactly: `collect_gates` and `send_rework` of dispatcher.py, told from the
    files found, the recorded checks and whether the executor could be told. */
module ReworkExact {
  import opened PyText
  import opened GateReport
  import opened GateParse
  import opened GateRoundTrip
  import opened GateDecide
  import opened GateVerdicts
  import opened FindingClasses
  import opened AutoRework

  // ---- one look -----------------------------------------------------------------------------

  /** `f` is the result of a gate launched at `started`: its crash report if that is newer than the launch, else its
      file if that is. */
  predicate IsResult(started: nat, e: Env, f: GateFile) {
    && f.mtime > started
    && (e.crashed == Some(f) || (e.md == Some(f) && (e.crashed.Some? ==> e.crashed.value.mtime <= started)))
  }

  predicate NoResult(started: nat, e: Env) {
    (e.crashed.Some? ==> e.crashed.value.mtime <= started) && (e.md.Some? ==> e.md.value.mtime <= started)
  }

  /** What earlier reworks of the item left behind, nothing if there were none. */
  function Past(b: Book, id: string): History {
    if id in b.hist then b.hist[id] else History(0, {})
  }

  /** The prompt cannot be posted to this executor, so a person relays it. */
  predicate ByHand(who: string, e: Env) {
    Upper(who) == "WORKER-1" || Upper(who) == "WORKER-2" || Upper(who) == "BOSS" || (!e.session && who != "")
  }

  /** The findings are in the item's file and reach its executor, by hand or by a post that arrives. */
  predicate CanBeTold(b: Book, id: string, e: Env)
    requires id in b.rows
  {
    e.written && (ByHand(b.rows[id].who, e) || (e.session && e.posted))
  }

  /** The new result of a launched gate is acted on at once. A row that is to be reworked becomes rework if and only if
      its executor can be told, and then one more failure and the classes of this review are counted; any other row
      becomes reported; and nothing else changes. */
  lemma ResultActedOn(b: Book, id: string, e: Env, f: GateFile)
    requires id in b.live && IsResult(b.live[id], e, f) && !(id in b.done && b.done[id] == f.mtime / 1000)
    ensures var c, classes := CollectOne(b, id, e).0, Classes(e.codex);
      var again := Decide(f.gate, classes, Past(b, id)).Rework?;
      var sent := again && id in b.rows && CanBeTold(b, id, e);
      && c.live == b.live - {id} && c.done == b.done[id := f.mtime / 1000]
      && Past(c, id) == (if sent then History(Past(b, id).fails + 1, Past(b, id).classes + classes) else Past(b, id))
      && (forall other | other != id :: Past(c, other) == Past(b, other))
      && c.rows.Keys == b.rows.Keys && (forall other | other in b.rows && other != id :: c.rows[other] == b.rows[other])
      && (id in b.rows ==> (var row := b.rows[id];
            c.rows[id] == row.(status := if sent then "rework" else if again then row.status else "reported")))
      && c.relays == b.relays + if sent && ByHand(b.rows[id].who, e) then {id} else {}
  {
    hide Decide, Classes, Upper;
    assert PickFile(b.live[id], e) == Some(f);
    assert b.relays + {} == b.relays;
  }

  /** A result of the second last acted on changes nothing. */
  lemma SeenResultIsLeft(b: Book, id: string, e: Env, f: GateFile)
    requires id in b.live && IsResult(b.live[id], e, f) && id in b.done && b.done[id] == f.mtime / 1000
    ensures CollectOne(b, id, e).0 == b
  {
  }

  /** A launched gate without a result is given up after three hours, and before that nothing changes. */
  lemma NoResultIsAwaited(b: Book, id: string, e: Env)
    requires id in b.live && NoResult(b.live[id], e)
    ensures CollectOne(b, id, e).0 == if e.now - b.live[id] > 10800000 then b.(live := b.live - {id}) else b
  {
  }

  lemma NotLaunchedIsLeft(b: Book, id: string, e: Env)
    requires id !in b.live
    ensures CollectOne(b, id, e).0 == b
  {
  }

  // ---- one item among others ----------------------------------------------------------------

  /** All that a book says about one item. */
  datatype Entry = Entry(live: Option<nat>, done: Option<nat>, past: History, row: Option<Holder>, relay: bool)

  function About(b: Book, id: string): Entry {
    Entry(if id in b.live then Some(b.live[id]) else None, if id in b.done then Some(b.done[id]) else None, Past(b, id),
      if id in b.rows then Some(b.rows[id]) else None, id in b.relays)
  }

  lemma LooksApart(b: Book, id: string, e: Env, other: string)
    ensures id != other ==> About(CollectOne(b, id, e).0, other) == About(b, other)
  {
    hide CollectOne, Decide, Classes, ByHand, PickFile, IsResult, NoResult;
    if id !in b.live {
      NotLaunchedIsLeft(b, id, e);
    } else if NoResult(b.live[id], e) {
      NoResultIsAwaited(b, id, e);
    } else {
      PickedIsResult(b.live[id], e);
      var f := PickFile(b.live[id], e).value;
      if id in b.done && b.done[id] == f.mtime / 1000 {
        SeenResultIsLeft(b, id, e, f);
      } else {
        ResultActedOn(b, id, e, f);
        assert other in CollectOne(b, id, e).0.rows <==> other in b.rows;
      }
    }
  }

  /** The entry of an item whose new result was acted on. */
  function ActedOn(x: Entry, e: Env, f: GateFile): Entry {
    var again := Decide(f.gate, Classes(e.codex), x.past).Rework?;
    var told := x.row.Some? && e.written && (ByHand(x.row.value.who, e) || (e.session && e.posted));
    Entry(None, Some(f.mtime / 1000),
      if again && told then History(x.past.fails + 1, x.past.classes + Classes(e.codex)) else x.past,
      if x.row.None? then None
      else Some(x.row.value.(status := if again && told then "rework" else if again then x.row.value.status
        else "reported")),
      x.relay || (again && told && ByHand(x.row.value.who, e)))
  }

  lemma ActedAbout(b: Book, id: string, e: Env, f: GateFile)
    requires id in b.live && IsResult(b.live[id], e, f) && !(id in b.done && b.done[id] == f.mtime / 1000)
    ensures About(CollectOne(b, id, e).0, id) == ActedOn(About(b, id), e, f)
  {
    hide CollectOne, Decide, Classes, ByHand, IsResult;
    ResultActedOn(b, id, e, f);
    assert id in CollectOne(b, id, e).0.rows <==> id in b.rows;
  }

  lemma PickedIsResult(started: nat, e: Env)
    ensures NoResult(started, e) || (PickFile(started, e).Some? && IsResult(started, e, PickFile(started, e).value))
  {
  }

  lemma LookIsOwn(a: Book, b: Book, id: string, e: Env)
    requires About(a, id) == About(b, id)
    ensures About(CollectOne(a, id, e).0, id) == About(CollectOne(b, id, e).0, id)
  {
    hide CollectOne, ActedOn, PickFile, IsResult, NoResult;
    if id !in b.live {
      NotLaunchedIsLeft(a, id, e);
      NotLaunchedIsLeft(b, id, e);
    } else if NoResult(b.live[id], e) {
      NoResultIsAwaited(a, id, e);
      NoResultIsAwaited(b, id, e);
    } else {
      PickedIsResult(b.live[id], e);
      var f := PickFile(b.live[id], e).value;
      if id in b.done && b.done[id] == f.mtime / 1000 {
        SeenResultIsLeft(a, id, e, f);
        SeenResultIsLeft(b, id, e, f);
      } else {
        ActedAbout(a, id, e, f);
        ActedAbout(b, id, e, f);
      }
    }
  }

  /** A pass over the launched gates does to each item what a look at it alone would do, whatever the others meet. */
  lemma {:induction false} PassIsEachAlone(b: Book, order: seq<string>, env: map<string, Env>, id: string)
    requires Distinct(order) && forall k | 0 <= k < |order| :: order[k] in env
    ensures About(CollectAll(b, order, env), id)
      == if id in order then About(CollectOne(b, id, env[id]).0, id) else About(b, id)
  {
    hide CollectOne, About;
    if order == [] {
    } else {
      var n := |order| - 1;
      var before := CollectAll(b, order[..n], env);
      PassIsEachAlone(b, order[..n], env, id);
      if order[n] == id {
        assert id !in order[..n];
        LookIsOwn(before, b, id, env[id]);
      } else {
        LooksApart(before, order[n], env[order[n]], id);
        assert id in order <==> id in order[..n];
      }
    }
  }

  /** Over any run of looks, a gate whose looks all find no result stays launched if and only if none of them is more
      than three hours after its launch; all else that is known of its item is as it was. */
  lemma {:induction false} GivenUpExactly(b: Book, run: seq<Step>, id: string)
    requires id in b.live
    requires forall k | 0 <= k < |run| :: run[k].Look? && (run[k].id == id ==> NoResult(b.live[id], run[k].env))
    ensures var late := exists k | 0 <= k < |run| :: run[k].id == id && run[k].env.now - b.live[id] > 10800000;
      About(After(b, run), id) == About(b, id).(live := if late then None else Some(b.live[id]))
  {
    hide CollectOne;
    if run == [] {
    } else {
      var n := |run| - 1;
      var before, s := After(b, run[..n]), run[n];
      GivenUpExactly(b, run[..n], id);
      assert forall k | 0 <= k < n :: run[..n][k] == run[k];
      if s.id != id {
        LooksApart(before, s.id, s.env, id);
      } else if id in before.live {
        NoResultIsAwaited(before, id, s.env);
      } else {
        NotLaunchedIsLeft(before, id, s.env);
      }
    }
  }

  // ---- from recorded checks to the row ------------------------------------------------------

  /** Codex gave this verdict, and it asks for changes. */
  ghost predicate AsksForChanges(cs: seq<Check>, w: string) {
    Gives(CodexLine(cs), w) && (w == "needs-attention" || w == "reject" || w == "request-changes")
  }

  /** A failed gate comes back to its executor, from recorded checks to the row: whatever the report holds, its row
      becomes rework, and the failure is counted, if and only if the report ends undisputed, Codex asks for changes,
      the item was handed back less than twice and for no class named now, and its executor can be told. It becomes
      reported, for a person to decide, if and only if one of these fails before the last. */
  lemma HandedBackExactly(b: Book, id: string, e: Env, f: GateFile, h: Header, cs: seq<Check>, w: string)
    requires id in b.live && IsResult(b.live[id], e, f) && !(id in b.done && b.done[id] == f.mtime / 1000)
    requires id in b.rows && b.rows[id].status != "rework" && b.rows[id].status != "reported"
    requires Heads(h, cs) && (forall k | 0 <= k < |cs| :: Plain(cs[k])) && SomeFailed(cs)
    requires f.gate == Parse(Render(h, cs)) && (Gives(CodexLine(cs), w) || forall x :: !Gives(CodexLine(cs), x))
    ensures var c := CollectOne(b, id, e).0;
      var due := !Unfinished(h) && !Disagrees(h, cs) && AsksForChanges(cs, w)
        && Past(b, id).fails < 2 && Classes(e.codex) !! Past(b, id).classes;
      && id in c.rows
      && (c.rows[id].status == "rework" <==> due && CanBeTold(b, id, e))
      && (c.rows[id].status == "reported" <==> !due)
      && Past(c, id).fails == Past(b, id).fails + if due && CanBeTold(b, id, e) then 1 else 0
  {
    hide *;
    hide CanBeTold;
    ResultActedOn(b, id, e, f);
    FailureIsDecided(h, cs, w, Classes(e.codex), Past(b, id));
    NoneShared(Classes(e.codex), Past(b, id).classes);
    OnlyAsking(cs, w);
  }

  lemma NoneShared(a: set<string>, b: set<string>)
    ensures a * b == {} <==> a !! b
  {
    assert forall x | x in a && x in b :: x in a * b;
  }

  lemma OnlyAsking(cs: seq<Check>, w: string)
    ensures AsksForChanges(cs, w) <==>
      Gives(CodexLine(cs), w) && (w == "needs-attention" || w == "reject" || w == "request-changes")
  {
  }
}
