/** Which profile a dispatch uses, exactly: `select_profile` of museadapter.py, told from the item, the holds and the
    loads. */
module PlacementChoice {
  import opened PyText
  import opened Placement

  /** The profile must be skipped now. */
  predicate Held(d: Desk, p: string, now: real) {
    p in d.unhealthy && (d.unhealthy[p].until == 0.0 || now < d.unhealthy[p].until)
  }

  /** A hold that only a person or a week ends, so that its conversations are placed anew. */
  predicate HeldLong(d: Desk, p: string, now: real) {
    Held(d, p, now) && (d.unhealthy[p].cls != Quota || d.unhealthy[p].scope == Some(Weekly))
  }

  /** The item asks for no profile, and its conversation is on none, or on one it must leave. */
  predicate NeedsPlace(it: Item, d: Desk, now: real) {
    Strip(it.profile) == "" && (Strip(it.muse) == "" || HeldLong(d, Strip(it.muse), now))
  }

  /** The slot's route names a profile to distribute over, or one that cannot be used. */
  predicate Distributes(d: Desk, now: real) {
    var route, low := Strip(d.route), Lower(Strip(d.route));
    route != "" &&
    (low == "rotate" || low == "muse" || low == "muse-go" || low == "go" || low == "pool" || Held(d, route, now))
  }

  /** What is decided without looking at loads: a profile the item names is used, held or not; a conversation stays
      where it is or waits for its hold to pass, unless that is a long one; and without a route, or with one that can
      be used, the slot's own is taken. */
  lemma SettledChoice(it: Item, d: Desk, now: real)
    ensures var c, stuck, route := SelectProfile(it, d, now), Strip(it.muse), Strip(d.route);
      && (Strip(it.profile) != "" ==> c == Profile(Strip(it.profile)))
      && (Strip(it.profile) == "" && stuck != "" && !HeldLong(d, stuck, now) ==>
            c == if Held(d, stuck, now) then Wait else Profile(stuck))
      && (NeedsPlace(it, d, now) && !Distributes(d, now) ==> c == if route == "" then Legacy else Profile(route))
  {
    hide Strip, Lower, PlaceNew;
    assert forall p :: p in HeldNow(d.unhealthy, now) <==> Held(d, p, now);
  }

  /** The profile, if it qualifies. */
  function If(p: string, free: set<string>): seq<string> {
    if p in free then [p] else []
  }

  /** The profiles among these three that qualify, in their order. */
  function Three(free: set<string>, names: seq<string>): seq<string>
    requires |names| == 3
  {
    If(names[0], free) + If(names[1], free) + If(names[2], free)
  }

  lemma {:induction false} WithoutThree(names: seq<string>, held: set<string>, free: set<string>)
    requires |names| == 3 && forall p | p in names :: p in free <==> p !in held
    ensures Without(names, held) == Three(free, names)
  {
    assert names[0] in names && names[1] in names && names[2] in names;
    assert names[1..][1..] == [names[2]] && names[1..][1..][1..] == [];
    assert Without([names[2]], held) == if names[2] in held then [] else [names[2]];
    assert Without(names[1..], held) == (if names[1] in held then [] else [names[1]]) + Without([names[2]], held);
  }

  /** How many turns after `last` the profile comes, or where it stands if `last` is none of those that qualify. */
  function TurnsAfter(names: seq<string>, p: string, last: string, free: set<string>): nat
    requires |names| == 3
  {
    var i := if names[0] == p then 0 else if names[1] == p then 1 else 2;
    if last in names && last in free then
      var j := if names[0] == last then 0 else if names[1] == last then 1 else 2;
      if i > j then i - j else i + 3 - j
    else i
  }

  /** The profile is one of those that qualify, and of them the one whose turn it is. */
  ghost predicate NextOf(names: seq<string>, p: string, last: string, free: set<string>)
    requires |names| == 3
  {
    && p in names && p in free
    && forall q | q in names && q in free ::
      TurnsAfter(names, p, last, free) <= TurnsAfter(names, q, last, free)
  }

  lemma {:induction false} NextOfThree(names: seq<string>, last: string, free: set<string>)
    requires |names| == 3 && Distinct(names)
    ensures var pool := Three(free, names);
      pool != [] ==> NextOf(names, NextProfile(pool, last).value, last, free)
  {
    var pool := Three(free, names);
    if |pool| == 1 {
    } else if |pool| == 2 {
      assert pool[1..] == [pool[1]];
    } else if |pool| == 3 {
      assert pool == names;
      assert names[1..][1..] == [names[2]];
    }
  }

  lemma WithStep(p: string, rest: seq<string>, load: map<string, nat>, m: nat)
    ensures With([p] + rest, load, m) == (if Get(load, p) == m then [p] else []) + With(rest, load, m)
  {
    hide Get;
    var pool := [p] + rest;
    assert pool[1..] == rest;
  }

  lemma WithNone(load: map<string, nat>, m: nat)
    ensures With([], load, m) == []
  {
  }

  /** One more in front, if it qualifies. */
  lemma WithFront(free: set<string>, least: set<string>, p: string, rest: seq<string>, load: map<string, nat>, m: nat)
    requires p in least <==> p in free && Get(load, p) == m
    ensures With(If(p, free) + rest, load, m) == If(p, least) + With(rest, load, m)
  {
    hide Get, With;
    WithStep(p, rest, load, m);
    assert [] + rest == rest;
    assert [] + With(rest, load, m) == With(rest, load, m);
  }

  lemma ThreeParts(free: set<string>, names: seq<string>)
    requires |names| == 3
    ensures Three(free, names) == If(names[0], free) + (If(names[1], free) + (If(names[2], free) + []))
  {
  }

  lemma {:induction false} WithThree(free: set<string>, least: set<string>, names: seq<string>, load: map<string, nat>,
      m: nat)
    requires |names| == 3 && forall p | p in names :: p in least <==> p in free && Get(load, p) == m
    ensures With(Three(free, names), load, m) == Three(least, names)
  {
    hide Get, With, If, Three;
    assert names[0] in names && names[1] in names && names[2] in names;
    var z := If(names[2], free) + [];
    ThreeParts(free, names);
    ThreeParts(least, names);
    WithFront(free, least, names[0], If(names[1], free) + z, load, m);
    WithFront(free, least, names[1], z, load, m);
    WithFront(free, least, names[2], [], load, m);
    WithNone(load, m);
  }

  /** The profiles of a tier that are not held. */
  function Open(names: seq<string>, d: Desk, now: real): set<string> {
    set p | p in names && !Held(d, p, now)
  }

  /** Of them those with the fewest conversations. */
  function LeastLoaded(names: seq<string>, d: Desk, now: real): set<string> {
    set p | p in Open(names, d, now) && forall q | q in Open(names, d, now) :: Get(d.load, p) <= Get(d.load, q)
  }

  lemma {:induction false} PoolIsOpen(names: seq<string>, d: Desk, now: real)
    requires |names| == 3
    ensures Without(names, HeldNow(d.unhealthy, now)) == Three(Open(names, d, now), names)
  {
    hide Without;
    WithoutThree(names, HeldNow(d.unhealthy, now), Open(names, d, now));
  }

  /** `m` is the fewest conversations of any profile that is open. */
  lemma LeastIsFewest(names: seq<string>, d: Desk, now: real, m: nat, p: string)
    requires forall q | q in Open(names, d, now) :: m <= Get(d.load, q)
    requires exists q | q in Open(names, d, now) :: Get(d.load, q) == m
    ensures p in LeastLoaded(names, d, now) <==> p in Open(names, d, now) && Get(d.load, p) == m
  {
    hide Get, Open;
  }

  lemma {:induction false} TiedAreLeast(names: seq<string>, d: Desk, now: real)
    requires |names| == 3 && Without(names, HeldNow(d.unhealthy, now)) != []
    ensures var pool := Without(names, HeldNow(d.unhealthy, now));
      With(pool, d.load, Fewest(pool, d.load)) == Three(LeastLoaded(names, d, now), names)
  {
    hide Get, With, Open, LeastLoaded, Without, Three;
    var pool := Without(names, HeldNow(d.unhealthy, now));
    var m := Fewest(pool, d.load);
    PoolIsOpen(names, d, now);
    PoolMembers(names, d, now);
    forall p | p in names
      ensures p in LeastLoaded(names, d, now) <==> p in Open(names, d, now) && Get(d.load, p) == m
    {
      LeastIsFewest(names, d, now, m, p);
    }
    WithThree(Open(names, d, now), LeastLoaded(names, d, now), names, d.load, m);
  }

  lemma PoolMembers(names: seq<string>, d: Desk, now: real)
    ensures forall p :: p in Without(names, HeldNow(d.unhealthy, now)) <==> p in Open(names, d, now)
  {
    hide Without;
  }

  lemma {:induction false} PlacedInTurn(names: seq<string>, d: Desk, now: real)
    requires |names| == 3 && Distinct(names) && Without(names, HeldNow(d.unhealthy, now)) != []
    ensures var pool := Without(names, HeldNow(d.unhealthy, now));
      var tied := With(pool, d.load, Fewest(pool, d.load));
      && tied != [] && NextOf(names, NextProfile(tied, d.last).value, d.last, LeastLoaded(names, d, now))
      && NextOf(names, NextProfile(pool, d.last).value, d.last, Open(names, d, now))
      && (|tied| == 1 ==> NextProfile(tied, d.last).value == tied[0])
  {
    hide NextOf, NextProfile, Get, Open, LeastLoaded, Without, Three;
    var pool := Without(names, HeldNow(d.unhealthy, now));
    var tied := With(pool, d.load, Fewest(pool, d.load));
    PoolIsOpen(names, d, now);
    TiedAreLeast(names, d, now);
    assert exists p :: p in tied;
    NextOfThree(names, d.last, LeastLoaded(names, d, now));
    NextOfThree(names, d.last, Open(names, d, now));
    OnlyOne(tied, d.last);
  }

  lemma OnlyOne(tied: seq<string>, last: string)
    ensures |tied| == 1 ==> NextProfile(tied, last).value == tied[0]
  {
  }

  /** Where a conversation goes that needs a place: to the unheld Go profile with the fewest conversations, in turn if
      there are several; to the zen profiles in turn if every Go profile is held and they may be used; and nowhere
      exactly if none of these is open. */
  lemma PlacedByLoad(it: Item, d: Desk, now: real)
    requires NeedsPlace(it, d, now) && Distributes(d, now)
    ensures var c := SelectProfile(it, d, now);
      var go, zen := ["muse-go-1", "muse-go-2", "muse-go-3"], ["muse-zen-1", "muse-zen-2", "muse-zen-3"];
      if Open(go, d, now) != {} then c.Profile? && NextOf(go, c.name, d.last, LeastLoaded(go, d, now))
      else if Open(zen, d, now) != {} && d.allowZen then c.Profile? && NextOf(zen, c.name, d.last, Open(zen, d, now))
      else c == Nothing
  {
    hide Strip, Lower, NextOf, NextProfile, Fewest, With, LeastLoaded, Without;
    assert forall p :: p in HeldNow(d.unhealthy, now) <==> Held(d, p, now);
    OpenIsWithout(GO, d, now);
    OpenIsWithout(ZEN, d, now);
    TiersDistinct();
    if Open(GO, d, now) != {} {
      PlacedInTurn(GO, d, now);
    } else if Open(ZEN, d, now) != {} {
      PlacedInTurn(ZEN, d, now);
    }
  }

  lemma TiersDistinct()
    ensures Distinct(GO) && Distinct(ZEN)
  {
  }

  lemma OpenIsWithout(names: seq<string>, d: Desk, now: real)
    ensures Open(names, d, now) == {} <==> Without(names, HeldNow(d.unhealthy, now)) == []
  {
    var pool := Without(names, HeldNow(d.unhealthy, now));
    assert forall p :: p in pool <==> p in Open(names, d, now);
    assert pool != [] ==> pool[0] in pool;
  }
}
