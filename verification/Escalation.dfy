/** Telling people about rows that wait: `age_and_escalate` of dispatcher.py. Ages are in minutes. */
module Escalation {
  import opened PyText

  /** The settings escalate_after_minutes, whose second level may be missing, and escalation_repeat_minutes. */
  datatype Levels = Levels(first: real, hasSecond: bool, second: real, repeat: real)

  /** A pending row: when its waiting counts from, and what was done about it. */
  datatype Row = Row(base: real, level: nat, count: nat, last: real, dead: bool, logged: bool)

  /** One pass over the row: the time in minutes, whether its session left the roster, whether it is held, and
      whether it is an error that retrying cannot cure. */
  datatype Look = Look(now: real, offRoster: bool, held: bool, hopeless: bool)

  /** What the pass said about the row. */
  datatype Said = Said(notified: bool, escalated: bool, declaredDead: bool)

  const SILENT := Said(false, false, false)

  function Pass(l: Levels, r: Row, k: Look): (Row, Said) {
    if k.offRoster then (r, SILENT)
    else if k.held then (r.(logged := true), SILENT)
    else
      var r0 := r.(logged := false);
      if k.hopeless && r.level >= 2 then (r0.(dead := true), Said(false, !r.dead, !r.dead))
      else
        var age := k.now - r.base;
        var notify := r0.level < 1 && age >= l.first;
        var r1 := if notify then r0.(level := 1) else r0;
        if l.hasSecond && age >= l.second && r1.count < 3 && (r1.level < 2 || age - r1.last >= l.repeat)
        then (r1.(level := 2, count := r1.count + 1, last := age), Said(notify, true, false))
        else (r1, Said(notify, false, false))
  }

  /** The pending rows, aged in place. */
  class Pending {
    var rows: map<string, Row>

    constructor (rows: map<string, Row>)
      ensures this.rows == rows
    {
      this.rows := rows;
    }

    method AgeOne(l: Levels, sid: string, k: Look) returns (said: Said)
      requires sid in rows
      modifies this
      ensures sid in rows && (rows[sid], said) == Pass(l, old(rows)[sid], k)
      ensures rows.Keys == old(rows).Keys && rows - {sid} == old(rows) - {sid}
    {
      var p := rows[sid];
      said := SILENT;
      if k.offRoster {
        return;
      }
      if k.held {
        rows := rows[sid := p.(logged := true)];
        return;
      }
      p := p.(logged := false);
      if k.hopeless && p.level >= 2 {
        said := Said(false, !p.dead, !p.dead);
        rows := rows[sid := p.(dead := true)];
        return;
      }
      var age := k.now - p.base;
      if p.level < 1 && age >= l.first {
        said := said.(notified := true);
        p := p.(level := 1);
      }
      if l.hasSecond && age >= l.second && p.count < 3 && (p.level < 2 || age - p.last >= l.repeat) {
        said := said.(escalated := true);
        p := p.(level := 2, count := p.count + 1, last := age);
      }
      rows := rows[sid := p];
    }

    method AgeAll(l: Levels, looks: map<string, Look>) returns (said: map<string, Said>)
      requires rows.Keys <= looks.Keys
      modifies this
      ensures rows.Keys == old(rows).Keys == said.Keys
      ensures forall sid | sid in rows :: (rows[sid], said[sid]) == Pass(l, old(rows)[sid], looks[sid])
    {
      hide Pass;
      said := map[];
      var rest := rows.Keys;
      while rest != {}
        invariant rest <= rows.Keys == old(rows).Keys && said.Keys == rows.Keys - rest
        invariant forall sid | sid in rest :: rows[sid] == old(rows)[sid]
        invariant forall sid | sid in said :: (rows[sid], said[sid]) == Pass(l, old(rows)[sid], looks[sid])
        decreases |rest|
      {
        var sid :| sid in rest;
        ghost var was := rows;
        var one := AgeOne(l, sid, looks[sid]);
        said := said[sid := one];
        assert forall other | other in rows && other != sid ::
          (other in rows - {sid} && rows[other] == (was - {sid})[other]);
        rest := rest - {sid};
      }
    }
  }

  // ---- all sequences of passes over one row -------------------------------------------------

  function Fresh(base: real): Row {
    Row(base, 0, 0, 0.0, false, false)
  }

  function After(l: Levels, base: real, run: seq<Look>): Row {
    if run == [] then Fresh(base) else Pass(l, After(l, base, run[..|run| - 1]), run[|run| - 1]).0
  }

  function SaidAt(l: Levels, base: real, run: seq<Look>, k: nat): Said
    requires k < |run|
  {
    Pass(l, After(l, base, run[..k]), run[k]).1
  }

  /** A request to act on a row that waits; the notice that it is dead is apart. */
  predicate AsksAgain(s: Said) {
    s.escalated && !s.declaredDead
  }

  /** How often a person was asked to act on the row. */
  function Asked(l: Levels, base: real, run: seq<Look>): nat {
    if run == [] then 0
    else
      var said := SaidAt(l, base, run, |run| - 1);
      Asked(l, base, run[..|run| - 1]) + if AsksAgain(said) then 1 else 0
  }

  lemma OnePass(l: Levels, r: Row, k: Look)
    requires ((r.count > 0 || r.dead) ==> r.level >= 2) && r.level <= 2
    ensures var (s, said) := Pass(l, r, k);
      && r.level <= s.level && s.base == r.base && (s.dead <==> r.dead || said.declaredDead)
      && ((s.count > 0 || s.dead) ==> s.level >= 2) && s.level <= 2
      && s.count == r.count + (if AsksAgain(said) then 1 else 0)
      && (said.notified ==> r.level < 1 && s.level >= 1)
      && (said.declaredDead ==> !r.dead)
      && (if AsksAgain(said)
          then s.level >= 2 && s.last == k.now - r.base && r.count < 3 && (r.level >= 2 ==> s.last - r.last >= l.repeat)
          else s.last == r.last)
      && (k.held || k.offRoster ==> said == SILENT)
  {
  }

  lemma AfterStep(l: Levels, base: real, run: seq<Look>, k: nat)
    requires k < |run|
    ensures Pass(l, After(l, base, run[..k]), run[k]) == (After(l, base, run[..k + 1]), SaidAt(l, base, run, k))
  {
    assert run[..k + 1][..k] == run[..k];
  }

  /** A person is asked about a waiting row at most three times, however long it waits. */
  lemma {:induction false} AskedAtMostThrice(l: Levels, base: real, run: seq<Look>)
    ensures var r := After(l, base, run);
      Asked(l, base, run) == r.count <= 3 && r.base == base && ((r.count > 0 || r.dead) ==> r.level >= 2)
        && r.level <= 2
  {
    hide Pass, AsksAgain;
    if run == [] {
    } else {
      var n := |run| - 1;
      AskedAtMostThrice(l, base, run[..n]);
      AfterStep(l, base, run, n);
      assert run[..n + 1] == run;
      OnePass(l, After(l, base, run[..n]), run[n]);
    }
  }

  lemma {:induction false} AskedStays(l: Levels, base: real, run: seq<Look>, j: nat, k: nat)
    requires j < k <= |run| && l.repeat >= 0.0 && AsksAgain(SaidAt(l, base, run, j))
    ensures var r := After(l, base, run[..k]); r.level >= 2 && r.last >= run[j].now - base
  {
    hide Pass, AsksAgain, After, SaidAt;
    AskedAtMostThrice(l, base, run[..k - 1]);
    AfterStep(l, base, run, k - 1);
    OnePass(l, After(l, base, run[..k - 1]), run[k - 1]);
    if k - 1 == j {
    } else {
      AskedStays(l, base, run, j, k - 1);
    }
  }

  /** Two requests are at least the repeat interval apart, holds and roster changes between them or not. */
  lemma AskedApart(l: Levels, base: real, run: seq<Look>, j: nat, k: nat)
    requires j < k < |run| && l.repeat >= 0.0
    requires AsksAgain(SaidAt(l, base, run, j)) && AsksAgain(SaidAt(l, base, run, k))
    ensures run[k].now - run[j].now >= l.repeat
  {
    hide Pass, AsksAgain, After, SaidAt;
    AskedStays(l, base, run, j, k);
    AskedAtMostThrice(l, base, run[..k]);
    AfterStep(l, base, run, k);
    OnePass(l, After(l, base, run[..k]), run[k]);
  }

  lemma {:induction false} MarksStay(l: Levels, base: real, run: seq<Look>, j: nat, k: nat)
    requires j < k <= |run|
    ensures SaidAt(l, base, run, j).notified ==> After(l, base, run[..k]).level >= 1
    ensures SaidAt(l, base, run, j).declaredDead ==> After(l, base, run[..k]).dead
  {
    hide Pass, AsksAgain, After, SaidAt;
    AskedAtMostThrice(l, base, run[..k - 1]);
    AfterStep(l, base, run, k - 1);
    OnePass(l, After(l, base, run[..k - 1]), run[k - 1]);
    if k - 1 == j {
    } else {
      MarksStay(l, base, run, j, k - 1);
    }
  }

  /** The owner is notified at most once, and a session is declared dead at most once. */
  lemma NotifiedOnce(l: Levels, base: real, run: seq<Look>, j: nat, k: nat)
    requires j < k < |run|
    ensures !(SaidAt(l, base, run, j).notified && SaidAt(l, base, run, k).notified)
    ensures !(SaidAt(l, base, run, j).declaredDead && SaidAt(l, base, run, k).declaredDead)
    ensures run[k].held || run[k].offRoster ==> SaidAt(l, base, run, k) == SILENT
  {
    hide Pass, AsksAgain, After, SaidAt;
    MarksStay(l, base, run, j, k);
    AskedAtMostThrice(l, base, run[..k]);
    AfterStep(l, base, run, k);
    OnePass(l, After(l, base, run[..k]), run[k]);
  }

  // ---- who is told what, from what went before ----------------------------------------------

  /** The latest pass before `k` that asked a person to act. */
  function LastAsk(l: Levels, base: real, run: seq<Look>, k: nat): (r: Option<nat>)
    requires k <= |run|
    ensures r.Some? ==> r.value < k && AsksAgain(SaidAt(l, base, run, r.value))
    ensures forall i | (if r.Some? then r.value + 1 else 0) <= i < k :: !AsksAgain(SaidAt(l, base, run, i))
  {
    if k == 0 then None
    else if AsksAgain(SaidAt(l, base, run, k - 1)) then Some(k - 1)
    else LastAsk(l, base, run, k - 1)
  }

  /** The owner was told of the row, or a person asked about it, before pass `k`; the session was declared dead. */
  ghost predicate ToldBefore(l: Levels, base: real, run: seq<Look>, k: nat)
    requires k <= |run|
  {
    exists j | 0 <= j < k :: SaidAt(l, base, run, j).notified || AsksAgain(SaidAt(l, base, run, j))
  }

  ghost predicate DeadBefore(l: Levels, base: real, run: seq<Look>, k: nat)
    requires k <= |run|
  {
    exists j | 0 <= j < k :: SaidAt(l, base, run, j).declaredDead
  }

  lemma PassRemembers(l: Levels, r: Row, k: Look)
    requires 0 <= r.level <= 2
    ensures var (s, said) := Pass(l, r, k);
      && (s.level >= 1 <==> r.level >= 1 || said.notified || AsksAgain(said))
      && (s.level >= 2 <==> r.level >= 2 || AsksAgain(said))
      && (s.dead <==> r.dead || said.declaredDead)
      && s.last == (if AsksAgain(said) then k.now - r.base else r.last) && s.base == r.base && s.level <= 2
      && s.count == r.count + if AsksAgain(said) then 1 else 0
  {
  }

  lemma {:induction false} PassesRemembered(l: Levels, base: real, run: seq<Look>, k: nat)
    requires k <= |run|
    ensures var r, last := After(l, base, run[..k]), LastAsk(l, base, run, k);
      && (r.level >= 1 <==> ToldBefore(l, base, run, k)) && (r.level >= 2 <==> last.Some?)
      && (r.dead <==> DeadBefore(l, base, run, k)) && r.base == base && r.level <= 2
      && (last.Some? ==> r.last == run[last.value].now - base)
  {
    hide Pass, SaidAt, AsksAgain;
    if k == 0 {
      assert run[..0] == [];
    } else {
      PassesRemembered(l, base, run, k - 1);
      AfterStep(l, base, run, k - 1);
      PassRemembers(l, After(l, base, run[..k - 1]), run[k - 1]);
    }
  }

  lemma AskedCounts(l: Levels, base: real, run: seq<Look>, k: nat)
    requires k <= |run|
    ensures After(l, base, run[..k]).count == Asked(l, base, run[..k])
  {
    AskedAtMostThrice(l, base, run[..k]);
  }

  /** What a pass says of a row that is waited on, and whose session is neither off the roster nor held. */
  lemma PassSays(l: Levels, r: Row, k: Look)
    requires !k.offRoster && !k.held && r.level <= 2
    ensures var age := k.now - r.base;
      Pass(l, r, k).1 ==
        if k.hopeless && r.level >= 2 then Said(false, !r.dead, !r.dead)
        else Said(r.level == 0 && age >= l.first,
          l.hasSecond && age >= l.second && r.count < 3 && (r.level < 2 || age - r.last >= l.repeat), false)
  {
  }

  /** Who is told, exactly, over any run of passes: nobody while the row is held or its session is off the roster. A
      session that retrying cannot cure is declared dead, once, when a person was asked about it before. Else the owner
      is told at the first pass past the first age; and a person is asked past the second age, if it is set, fewer than
      three times, and not within the repeat interval of the last request. */
  lemma SaidExactly(l: Levels, base: real, run: seq<Look>, k: nat)
    requires k < |run|
    ensures var x, last := run[k], LastAsk(l, base, run, k);
      var over := x.hopeless && last.Some?;
      SaidAt(l, base, run, k) ==
        if x.offRoster || x.held then Said(false, false, false)
        else if over then Said(false, !DeadBefore(l, base, run, k), !DeadBefore(l, base, run, k))
        else Said(!ToldBefore(l, base, run, k) && x.now - base >= l.first,
          l.hasSecond && x.now - base >= l.second && Asked(l, base, run[..k]) < 3
            && (last.Some? ==> x.now - run[last.value].now >= l.repeat), false)
  {
    hide Pass, AsksAgain, Asked, LastAsk, ToldBefore, DeadBefore;
    var r := After(l, base, run[..k]);
    PassesRemembered(l, base, run, k);
    AskedCounts(l, base, run, k);
    if run[k].offRoster || run[k].held {
      SilentPass(l, r, run[k]);
    } else {
      PassSays(l, r, run[k]);
    }
  }

  lemma SilentPass(l: Levels, r: Row, k: Look)
    requires k.offRoster || k.held
    ensures Pass(l, r, k).1 == SILENT
  {
  }
}
