/** Which account a conversation runs on: `next_profile`, `mark_unhealthy`, `may_move`, `account_load`,
    `place_new`, `unhealthy_now` and `select_profile` of museadapter.py. Times are in seconds. */
module Placement {
  import opened PyText

  const GO := ["muse-go-1", "muse-go-2", "muse-go-3"]
  const ZEN := ["muse-zen-1", "muse-zen-2", "muse-zen-3"]
  const ROTATE_TOKENS := {"rotate", "muse", "muse-go", "go", "pool"}

  // ---- next_profile -------------------------------------------------------------------------

  function IndexOf(order: seq<string>, p: string): (k: nat)
    requires p in order
    ensures k < |order| && order[k] == p
  {
    if order[0] == p then 0 else 1 + IndexOf(order[1..], p)
  }

  /** The profile after `last`, wrapping; the first one when `last` is not among them. */
  function NextProfile(order: seq<string>, last: string): (r: Option<string>)
    ensures r.None? <==> order == []
    ensures r.Some? ==> r.value in order
  {
    if order == [] then None
    else if last in order then Some(order[(IndexOf(order, last) + 1) % |order|])
    else Some(order[0])
  }

  /** Rotating `n` times. */
  function Rotate(order: seq<string>, last: string, n: nat): string
    requires order != []
  {
    if n == 0 then last else NextProfile(order, Rotate(order, last, n - 1)).value
  }

  lemma IndexIsUnique(order: seq<string>, k: nat)
    requires k < |order| && Distinct(order)
    ensures IndexOf(order, order[k]) == k
  {
  }

  /** Rotation serves every profile in turn: one round after any profile, each of the others has been used
      exactly once, and that profile is due again. */
  lemma {:induction false} RotationIsFair(order: seq<string>, k: nat, n: nat)
    requires k < |order| && n <= |order| && Distinct(order)
    ensures Rotate(order, order[k], n) == order[if k + n < |order| then k + n else k + n - |order|]
  {
    hide IndexOf, Distinct;
    if n == 0 {
    } else {
      RotationIsFair(order, k, n - 1);
      var m := if k + n - 1 < |order| then k + n - 1 else k + n - 1 - |order|;
      IndexIsUnique(order, m);
      SmallMod(m + 1, |order|);
    }
  }

  lemma SmallMod(a: nat, m: nat)
    requires m > 0 && a <= m
    ensures a % m == if a < m then a else 0
  {
  }

  // ---- holds --------------------------------------------------------------------------------

  datatype Class = Auth | Quota | Transport | OtherFailure

  datatype Scope = Weekly | Rolling

  /** `until` 0 holds for good. */
  datatype Hold = Hold(cls: Class, until: real, scope: Option<Scope>)

  predicate IsHeld(h: Hold, now: real) {
    h.until == 0.0 || now < h.until
  }

  function HeldNow(unhealthy: map<string, Hold>, now: real): set<string> {
    set p | p in unhealthy && IsHeld(unhealthy[p], now)
  }

  /** Waiting cannot help: a person must act, or the wall is a weekly one. */
  predicate MayMove(unhealthy: map<string, Hold>, p: string) {
    p in unhealthy && (unhealthy[p].cls == Quota ==> unhealthy[p].scope == Some(Weekly))
  }

  /** One report that a profile is not usable; `said` is what the refusal's own words amount to. */
  datatype Refusal = Refusal(cls: Class, minutes: real, scope: Option<Scope>, said: Scope)

  function ScopeOf(r: Refusal): Option<Scope> {
    if r.scope.Some? then r.scope else if r.cls == Quota then Some(r.said) else None
  }

  function HoldMinutes(r: Refusal): real {
    if ScopeOf(r) == Some(Weekly) && r.minutes < 10080.0 then 10080.0 else r.minutes
  }

  function Marked(unhealthy: map<string, Hold>, p: string, r: Refusal, now: real): map<string, Hold> {
    match r.cls
    case Transport => unhealthy
    case Quota => unhealthy[p := Hold(Quota, now + HoldMinutes(r) * 60.0, ScopeOf(r))]
    case _ => unhealthy[p := Hold(r.cls, 0.0, ScopeOf(r))]
  }

  /** What a refusal does: a transport failure holds nothing; a refused credential holds the profile for good
      and lets its conversations move; a spent allowance holds it for its time, a weekly one for at least seven
      days, and lets them move only if it is weekly. No other profile is touched. */
  lemma MarkMeans(unhealthy: map<string, Hold>, p: string, r: Refusal, now: real, t: real)
    requires now > 0.0 && r.minutes >= 0.0
    ensures var m := Marked(unhealthy, p, r, now);
      && m - {p} == unhealthy - {p}
      && (r.cls == Transport ==> m == unhealthy)
      && (r.cls == Auth || r.cls == OtherFailure ==> p in HeldNow(m, t) && MayMove(m, p))
      && (r.cls == Quota ==> (p in HeldNow(m, t) <==> t < now + HoldMinutes(r) * 60.0))
      && (r.cls == Quota ==> (MayMove(m, p) <==> ScopeOf(r) == Some(Weekly)))
      && (r.cls == Quota && MayMove(m, p) ==> (t <= now + 604800.0 - 1.0 ==> p in HeldNow(m, t)))
  {
  }

  /** A refusal of one profile at one time. */
  datatype Notice = Notice(profile: string, r: Refusal, now: real)

  function MarkAll(unhealthy: map<string, Hold>, notices: seq<Notice>): map<string, Hold> {
    if notices == [] then unhealthy
    else
      var n := notices[|notices| - 1];
      Marked(MarkAll(unhealthy, notices[..|notices| - 1]), n.profile, n.r, n.now)
  }

  /** Held until a person clears it, with its conversations free to move. */
  predicate HeldForGood(unhealthy: map<string, Hold>, p: string) {
    p in unhealthy && unhealthy[p].cls != Quota && unhealthy[p].until == 0.0
  }

  /** The last refusal of `p` that changes its hold. */
  function LastRefusal(notices: seq<Notice>, p: string): Option<Refusal> {
    if notices == [] then None
    else
      var n := notices[|notices| - 1];
      if n.profile == p && n.r.cls != Transport then Some(n.r) else LastRefusal(notices[..|notices| - 1], p)
  }

  /** After any refusals a hold for good stands if and only if the last one that counts was not of allowance: a spent
      allowance replaces it, transport failures leave it, and another refused credential puts it back. */
  lemma {:induction false} HoldForGoodExactly(unhealthy: map<string, Hold>, notices: seq<Notice>, p: string)
    requires HeldForGood(unhealthy, p)
    ensures HeldForGood(MarkAll(unhealthy, notices), p) <==>
      (var last := LastRefusal(notices, p); last.Some? ==> last.value.cls != Quota)
  {
    if notices == [] {
    } else {
      HoldForGoodExactly(unhealthy, notices[..|notices| - 1], p);
    }
  }

  /** So it stands all along, whatever else happens, if and only if no refusal of the profile is of allowance. */
  lemma {:induction false} HoldForGoodSurvivesExactly(unhealthy: map<string, Hold>, notices: seq<Notice>, p: string)
    requires HeldForGood(unhealthy, p)
    ensures (forall k | 0 <= k <= |notices| :: HeldForGood(MarkAll(unhealthy, notices[..k]), p))
       <==> (forall k | 0 <= k < |notices| :: !(notices[k].profile == p && notices[k].r.cls == Quota))
  {
    forall k | 0 <= k < |notices| && notices[k].profile == p && notices[k].r.cls == Quota
      ensures !HeldForGood(MarkAll(unhealthy, notices[..k + 1]), p)
    {
      HoldForGoodExactly(unhealthy, notices[..k + 1], p);
    }
    if forall k | 0 <= k < |notices| :: !(notices[k].profile == p && notices[k].r.cls == Quota) {
      forall k | 0 <= k <= |notices|
        ensures HeldForGood(MarkAll(unhealthy, notices[..k]), p)
      {
        HoldForGoodExactly(unhealthy, notices[..k], p);
        NoneOfAllowance(notices[..k], p);
      }
    }
  }

  lemma {:induction false} NoneOfAllowance(notices: seq<Notice>, p: string)
    requires forall k | 0 <= k < |notices| :: !(notices[k].profile == p && notices[k].r.cls == Quota)
    ensures var last := LastRefusal(notices, p); last.Some? ==> last.value.cls != Quota
  {
    if notices == [] {
    } else {
      NoneOfAllowance(notices[..|notices| - 1], p);
    }
  }

  // ---- account_load -------------------------------------------------------------------------

  /** A queue row: an explicit `profile`, and the `muse_profile` its conversation is warm on. */
  datatype Item = Item(id: string, profile: string, muse: string)

  function SeenIds(items: seq<Item>): set<string> {
    set k | 0 <= k < |items| && items[k].muse != "" :: items[k].id
  }

  function CountItems(items: seq<Item>, p: string): nat {
    if items == [] then 0
    else
      var it := items[|items| - 1];
      CountItems(items[..|items| - 1], p) + if it.muse != "" && it.muse == p then 1 else 0
  }

  function OnlyMapped(affinity: map<string, string>, seen: set<string>, p: string): set<string> {
    set id | id in affinity && id !in seen && affinity[id] == p
  }

  function LoadOf(items: seq<Item>, affinity: map<string, string>, p: string): nat {
    CountItems(items, p) + |OnlyMapped(affinity, SeenIds(items), p)|
  }

  /** Where each conversation is: on its row's profile, else where the map has it. */
  function Placed(items: seq<Item>, affinity: map<string, string>): map<string, string> {
    if items == [] then affinity
    else
      var it := items[|items| - 1];
      var before := Placed(items[..|items| - 1], affinity);
      if it.muse != "" then before[it.id := it.muse] else before
  }

  function On(placed: map<string, string>, p: string): set<string> {
    set id | id in placed && placed[id] == p
  }

  ghost predicate OneRowEach(items: seq<Item>) {
    forall j, k | 0 <= j < k < |items| && items[j].muse != "" && items[k].muse != "" :: items[j].id != items[k].id
  }

  lemma {:induction false} UnseenStays(items: seq<Item>, affinity: map<string, string>, id: string)
    requires id !in SeenIds(items)
    ensures id in Placed(items, affinity) <==> id in affinity
    ensures id in affinity ==> Placed(items, affinity)[id] == affinity[id]
  {
    if items == [] {
    } else {
      var n := |items| - 1;
      assert items[n].muse != "" ==> items[n].id in SeenIds(items);
      assert forall k | 0 <= k < n && items[k].muse != "" :: items[k].id in SeenIds(items);
      UnseenStays(items[..n], affinity, id);
    }
  }

  lemma SeenSnoc(items: seq<Item>)
    requires items != []
    ensures var n := |items| - 1;
      SeenIds(items) == SeenIds(items[..n]) + if items[n].muse != "" then {items[n].id} else {}
  {
  }

  /** Every conversation is counted exactly once, on the profile it is placed on, even when a queue row and the
      affinity map both name it and disagree. */
  lemma {:induction false} CountedExactlyOnce(items: seq<Item>, affinity: map<string, string>, p: string)
    requires OneRowEach(items)
    ensures LoadOf(items, affinity, p) == |On(Placed(items, affinity), p)|
  {
    if items == [] {
      assert SeenIds(items) == {};
      assert OnlyMapped(affinity, {}, p) == On(affinity, p);
    } else {
      var n := |items| - 1;
      var it := items[n];
      CountedExactlyOnce(items[..n], affinity, p);
      SeenSnoc(items);
      if it.muse != "" {
        NotSeenBefore(items);
        UnseenStays(items[..n], affinity, it.id);
        OneMore(affinity, SeenIds(items[..n]), Placed(items[..n], affinity), it, p);
      } else {
        assert SeenIds(items) == SeenIds(items[..n]);
      }
    }
  }

  lemma NotSeenBefore(items: seq<Item>)
    requires items != [] && OneRowEach(items) && items[|items| - 1].muse != ""
    ensures items[|items| - 1].id !in SeenIds(items[..|items| - 1])
  {
  }

  lemma OneMore(affinity: map<string, string>, seen: set<string>, before: map<string, string>, it: Item, p: string)
    requires it.id !in seen && (it.id in before <==> it.id in affinity)
    requires it.id in affinity ==> before[it.id] == affinity[it.id]
    ensures |On(before[it.id := it.muse], p)| + |OnlyMapped(affinity, seen, p)|
         == |On(before, p)| + |OnlyMapped(affinity, seen + {it.id}, p)| + if it.muse == p then 1 else 0
  {
    hide On, OnlyMapped;
    OneMoreSets(affinity, seen, before, it, p);
    CardWithout(OnlyMapped(affinity, seen, p), it.id);
    CardWithout(On(before, p), it.id);
    CardWithout(On(before[it.id := it.muse], p), it.id);
  }

  lemma OneMoreSets(affinity: map<string, string>, seen: set<string>, before: map<string, string>, it: Item, p: string)
    requires it.id !in seen && (it.id in before <==> it.id in affinity)
    requires it.id in affinity ==> before[it.id] == affinity[it.id]
    ensures OnlyMapped(affinity, seen + {it.id}, p) == OnlyMapped(affinity, seen, p) - {it.id}
    ensures it.id in OnlyMapped(affinity, seen, p) <==> it.id in On(before, p)
    ensures On(before[it.id := it.muse], p) - {it.id} == On(before, p) - {it.id}
    ensures it.id in On(before[it.id := it.muse], p) <==> it.muse == p
  {
  }

  lemma CardWithout(s: set<string>, x: string)
    ensures |s| == |s - {x}| + if x in s then 1 else 0
  {
  }

  lemma {:induction false} CountAfterPut(items: seq<Item>, k: nat, chosen: string, p: string)
    requires k < |items| && items[k].muse == "" && chosen != ""
    ensures CountItems(items[k := items[k].(muse := chosen)], p) == CountItems(items, p) + if chosen == p then 1 else 0
  {
    var n := |items| - 1;
    var after := items[k := items[k].(muse := chosen)];
    if k < n {
      CountAfterPut(items[..n], k, chosen, p);
      assert after[..n] == items[..n][k := items[k].(muse := chosen)];
    } else {
      assert after[..n] == items[..n];
    }
  }

  lemma SeenAfterPut(items: seq<Item>, k: nat, chosen: string)
    requires k < |items| && items[k].muse == "" && chosen != ""
    ensures SeenIds(items[k := items[k].(muse := chosen)]) == SeenIds(items) + {items[k].id}
  {
    var after := items[k := items[k].(muse := chosen)];
    forall id
      ensures id in SeenIds(after) <==> id in SeenIds(items) + {items[k].id}
    {
      if id in SeenIds(items) {
        var j :| 0 <= j < |items| && items[j].muse != "" && items[j].id == id;
        assert after[j] == items[j];
      }
      assert after[k].id in SeenIds(after);
    }
  }

  /** Launching a new conversation writes its profile on the row and in the map, and raises the load of exactly
      that profile by exactly one. */
  lemma LaunchAddsOne(items: seq<Item>, k: nat, affinity: map<string, string>, chosen: string, p: string)
    requires k < |items| && items[k].muse == "" && items[k].id !in affinity && chosen != ""
    ensures LoadOf(items[k := items[k].(muse := chosen)], affinity[items[k].id := chosen], p)
         == LoadOf(items, affinity, p) + if chosen == p then 1 else 0
  {
    CountAfterPut(items, k, chosen, p);
    SeenAfterPut(items, k, chosen);
    var id := items[k].id;
    assert OnlyMapped(affinity[id := chosen], SeenIds(items) + {id}, p) == OnlyMapped(affinity, SeenIds(items), p);
  }

  // ---- place_new ----------------------------------------------------------------------------

  function Without(order: seq<string>, held: set<string>): (r: seq<string>)
    ensures forall p :: p in r <==> p in order && p !in held
    ensures Distinct(order) ==> Distinct(r)
  {
    if order == [] then []
    else
      var rest := Without(order[1..], held);
      if order[0] in held then rest else
        assert order == [order[0]] + order[1..];
        [order[0]] + rest
  }

  function Get(load: map<string, nat>, p: string): nat {
    if p in load then load[p] else 0
  }

  function Fewest(pool: seq<string>, load: map<string, nat>): (m: nat)
    requires pool != []
    ensures (exists p | p in pool :: Get(load, p) == m) && forall p | p in pool :: m <= Get(load, p)
  {
    var here := Get(load, pool[0]);
    if |pool| == 1 then here
    else
      var rest := Fewest(pool[1..], load);
      assert pool == [pool[0]] + pool[1..];
      if here <= rest then here else rest
  }

  function With(pool: seq<string>, load: map<string, nat>, m: nat): (r: seq<string>)
    ensures forall p :: p in r <==> p in pool && Get(load, p) == m
    ensures Distinct(pool) ==> Distinct(r)
  {
    if pool == [] then []
    else
      var rest := With(pool[1..], load, m);
      assert pool == [pool[0]] + pool[1..];
      if Get(load, pool[0]) == m then [pool[0]] + rest else rest
  }

  /** The least loaded healthy Go profile; among several, the one after the last used. */
  function PlaceNew(load: map<string, nat>, held: set<string>, last: string): (r: Option<string>)
    ensures r.None? <==> forall p | p in GO :: p in held
    ensures r.Some? ==> r.value in GO && r.value !in held
    ensures r.Some? ==> forall p | p in GO && p !in held :: Get(load, r.value) <= Get(load, p)
  {
    var pool := Without(GO, held);
    if pool == [] then
      assert forall p :: p !in pool;
      None
    else
      var m := Fewest(pool, load);
      var tied := With(pool, load, m);
      assert exists p :: p in tied;
      if |tied| > 1 then NextProfile(tied, last) else Some(tied[0])
  }

  function Total(pool: seq<string>, load: map<string, nat>): nat {
    if pool == [] then 0 else Get(load, pool[0]) + Total(pool[1..], load)
  }

  lemma {:induction false} FewestBelowAverage(pool: seq<string>, load: map<string, nat>, m: nat)
    requires forall p | p in pool :: m <= Get(load, p)
    ensures |pool| * m <= Total(pool, load)
  {
    if pool == [] {
    } else {
      FewestBelowAverage(pool[1..], load, m);
      assert pool[0] in pool;
    }
  }

  /** The smallest number of which `k` make at least `t`. */
  function Ceiling(t: nat, k: nat): (c: nat)
    requires k > 0
    ensures k * c >= t
    ensures forall d: nat | k * d >= t :: c <= d
  {
    CeilingIsLeast(t, k);
    (t + k - 1) / k
  }

  lemma CeilingIsLeast(t: nat, k: nat)
    requires k > 0
    ensures var c := (t + k - 1) / k; k * c >= t && forall d: nat | k * d >= t :: c <= d
  {
    var c := (t + k - 1) / k;
    assert k * c + (t + k - 1) % k == t + k - 1;
    forall d: nat | k * d >= t
      ensures c <= d
    {
      TimesGrows(k, d, c - 1);
      assert k * (c - 1) == k * c - k;
    }
  }

  lemma TimesGrows(k: nat, a: int, b: int)
    ensures a <= b ==> k * a <= k * b
  {
  }

  lemma {:induction false} TotalAfterPut(pool: seq<string>, load: map<string, nat>, c: string)
    requires Distinct(pool)
    ensures Total(pool, load[c := Get(load, c) + 1]) == Total(pool, load) + if c in pool then 1 else 0
  {
    if pool == [] {
    } else {
      assert pool == [pool[0]] + pool[1..];
      TotalAfterPut(pool[1..], load, c);
      assert c == pool[0] ==> c !in pool[1..];
    }
  }

  /** Placing `n` new conversations, one after the other, while the same profiles are held. */
  function PlaceMany(load: map<string, nat>, held: set<string>, last: string, n: nat): (map<string, nat>, string) {
    if n == 0 then (load, last)
    else
      var (before, was) := PlaceMany(load, held, last, n - 1);
      match PlaceNew(before, held, was)
      case None => (before, was)
      case Some(c) => (before[c := Get(before, c) + 1], c)
  }

  /** The profile chosen ends at or below the fair share, rounded up, of all conversations on healthy keys. */
  lemma ChosenAtMostFairShare(load: map<string, nat>, held: set<string>, last: string)
    requires PlaceNew(load, held, last).Some?
    ensures var pool := Without(GO, held);
      |pool| > 0 && Get(load, PlaceNew(load, held, last).value) + 1 <= Ceiling(Total(pool, load) + 1, |pool|)
  {
    hide Ceiling, PlaceNew, Without;
    var pool := Without(GO, held);
    var c := PlaceNew(load, held, last).value;
    assert c in pool;
    FewestBelowAverage(pool, load, Get(load, c));
    var e := Ceiling(Total(pool, load) + 1, |pool|);
    AboveAverage(|pool|, Get(load, c), e, Total(pool, load));
  }

  lemma AboveAverage(k: nat, m: nat, e: nat, t: nat)
    requires k > 0 && k * m <= t && k * e >= t + 1
    ensures m + 1 <= e
  {
  }

  lemma CeilingGrows(t: nat, u: nat, k: nat)
    requires k > 0 && t <= u
    ensures Ceiling(t, k) <= Ceiling(u, k)
  {
  }

  /** From any loads, after any number of new placements, every healthy key is at its old load or at or below
      the fair share of all conversations then on healthy keys, rounded up. */
  lemma {:induction false} LoadStaysFair(load: map<string, nat>, held: set<string>, last: string, n: nat, p: string)
    requires Without(GO, held) != [] && p in Without(GO, held)
    ensures var pool := Without(GO, held); var after := PlaceMany(load, held, last, n).0;
      && Total(pool, after) == Total(pool, load) + n
      && (Get(after, p) <= Get(load, p) || Get(after, p) <= Ceiling(Total(pool, load) + n, |pool|))
  {
    hide Ceiling, PlaceNew, Without, Total, GO;
    var pool := Without(GO, held);
    if n == 0 {
    } else {
      LoadStaysFair(load, held, last, n - 1, p);
      var (before, was) := PlaceMany(load, held, last, n - 1);
      assert p in GO && p !in held;
      ChosenAtMostFairShare(before, held, was);
      GoDistinct();
      TotalAfterPut(pool, before, PlaceNew(before, held, was).value);
      CeilingGrows(Total(pool, load) + n - 1, Total(pool, load) + n, |pool|);
    }
  }

  lemma GoDistinct()
    ensures Distinct(GO)
  {
  }

  ghost predicate Level(load: map<string, nat>, held: set<string>) {
    forall p, r | p in GO && r in GO && p !in held && r !in held :: Get(load, p) <= Get(load, r) + 1
  }

  /** Loads that differ by at most one stay so. */
  lemma {:induction false} StaysLevel(load: map<string, nat>, held: set<string>, last: string, n: nat)
    requires Level(load, held)
    ensures Level(PlaceMany(load, held, last, n).0, held)
  {
    hide PlaceNew, GO;
    if n == 0 {
    } else {
      StaysLevel(load, held, last, n - 1);
    }
  }

  // ---- runs of launches ---------------------------------------------------------------------

  /** The queue rows, the affinity map and the profile last used. */
  datatype Floor = Floor(items: seq<Item>, affinity: map<string, string>, last: string)

  /** Row `k` is of a conversation that is nowhere yet. */
  predicate IsNew(f: Floor, k: nat) {
    k < |f.items| && f.items[k].muse == "" && f.items[k].id !in f.affinity
  }

  /** Launching the conversation of row `k`: its profile is written on the row and in the map. */
  function LaunchNew(f: Floor, k: nat, held: set<string>): Floor
    requires k < |f.items|
  {
    match PlaceNew(GoLoads(f.items, f.affinity), held, f.last)
    case None => f
    case Some(c) => Floor(f.items[k := f.items[k].(muse := c)], f.affinity[f.items[k].id := c], c)
  }

  function LaunchAll(f: Floor, rows: seq<nat>, held: set<string>): Floor {
    if rows == [] then f
    else
      var before, k := LaunchAll(f, rows[..|rows| - 1], held), rows[|rows| - 1];
      if k < |before.items| then LaunchNew(before, k, held) else before
  }

  ghost predicate AllNew(f: Floor, rows: seq<nat>, held: set<string>) {
    forall i | 0 <= i < |rows| :: IsNew(LaunchAll(f, rows[..i], held), rows[i])
  }

  lemma OneLaunchPlaces(f: Floor, k: nat, held: set<string>, load: map<string, nat>)
    requires IsNew(f, k) && forall p | p in GO :: Get(GoLoads(f.items, f.affinity), p) == Get(load, p)
    ensures var g, c := LaunchNew(f, k, held), PlaceNew(load, held, f.last);
      && (c.None? ==> g == f)
      && (c.Some? ==> g.last == c.value && forall p | p in GO ::
            Get(GoLoads(g.items, g.affinity), p) == Get(load[c.value := Get(load, c.value) + 1], p))
  {
    hide PlaceNew, LoadOf, GO;
    SameLoads(GoLoads(f.items, f.affinity), load, held, f.last);
    var c := PlaceNew(load, held, f.last);
    if c.Some? {
      GoIsNamed();
      forall p | p in GO
        ensures LoadOf(LaunchNew(f, k, held).items, LaunchNew(f, k, held).affinity, p)
             == LoadOf(f.items, f.affinity, p) + if c.value == p then 1 else 0
      {
        LaunchAddsOne(f.items, k, f.affinity, c.value, p);
      }
    }
  }

  lemma GoIsNamed()
    ensures forall p | p in GO :: p != ""
  {
  }

  /** Runs of launches through rows and map move the loads as plain placements would. */
  lemma {:induction false} LaunchesPlace(f: Floor, rows: seq<nat>, held: set<string>)
    requires AllNew(f, rows, held)
    ensures var g := LaunchAll(f, rows, held);
      var (load, last) := PlaceMany(GoLoads(f.items, f.affinity), held, f.last, |rows|);
      g.last == last && forall p | p in GO :: Get(GoLoads(g.items, g.affinity), p) == Get(load, p)
  {
    hide PlaceNew, GoLoads, GO, LaunchNew;
    if rows == [] {
    } else {
      var n := |rows| - 1;
      assert forall i | 0 <= i < n :: rows[..n][..i] == rows[..i];
      assert IsNew(LaunchAll(f, rows[..n], held), rows[n]);
      LaunchesPlace(f, rows[..n], held);
      OneLaunchPlaces(LaunchAll(f, rows[..n], held), rows[n], held,
        PlaceMany(GoLoads(f.items, f.affinity), held, f.last, n).0);
    }
  }

  lemma {:induction false} SameTotal(pool: seq<string>, a: map<string, nat>, b: map<string, nat>)
    requires forall p | p in pool :: Get(a, p) == Get(b, p)
    ensures Total(pool, a) == Total(pool, b)
  {
    hide Get;
    if pool == [] {
    } else {
      assert pool[0] in pool;
      SameTotal(pool[1..], a, b);
    }
  }

  /** Over any run of launches of new conversations, counted as `account_load` counts them from rows and map, every
      healthy key stays at its old load or at or below the fair share, rounded up, of all conversations then on
      healthy keys; each launch adds one conversation to those. */
  lemma LaunchesStayFair(f: Floor, rows: seq<nat>, held: set<string>, p: string)
    requires AllNew(f, rows, held) && p in Without(GO, held)
    ensures var g, pool := LaunchAll(f, rows, held), Without(GO, held);
      var was, now := LoadOf(f.items, f.affinity, p), LoadOf(g.items, g.affinity, p);
      && Total(pool, GoLoads(g.items, g.affinity)) == Total(pool, GoLoads(f.items, f.affinity)) + |rows|
      && (now <= was || now <= Ceiling(Total(pool, GoLoads(g.items, g.affinity)), |pool|))
  {
    hide Ceiling, PlaceNew, LaunchAll, LoadOf, PlaceMany, Without, AllNew, GO;
    var g, pool, load := LaunchAll(f, rows, held), Without(GO, held), GoLoads(f.items, f.affinity);
    LaunchesPlace(f, rows, held);
    LoadStaysFair(load, held, f.last, |rows|, p);
    assert p in GO;
    SameTotal(pool, GoLoads(g.items, g.affinity), PlaceMany(load, held, f.last, |rows|).0);
  }

  /** And loads that differ by at most one stay so over such a run. */
  lemma LaunchesStayLevel(f: Floor, rows: seq<nat>, held: set<string>)
    requires AllNew(f, rows, held) && Level(GoLoads(f.items, f.affinity), held)
    ensures var g := LaunchAll(f, rows, held); Level(GoLoads(g.items, g.affinity), held)
  {
    hide PlaceNew, LaunchAll, GoLoads, PlaceMany, AllNew, GO, Get;
    LaunchesPlace(f, rows, held);
    StaysLevel(GoLoads(f.items, f.affinity), held, f.last, |rows|);
  }

  // ---- select_profile -----------------------------------------------------------------------

  /** A named profile, the historic route, waiting for the conversation's own key, or nothing usable. */
  datatype Choice = Profile(name: string) | Legacy | Wait | Nothing

  /** The dispatcher's state and settings: holds, where conversations are, the last profile used, the route
      configured for this slot, and whether the zen tier may be used. */
  datatype Desk = Desk(unhealthy: map<string, Hold>, load: map<string, nat>, last: string, route: string,
    allowZen: bool)

  function SelectProfile(it: Item, d: Desk, now: real): Choice {
    var held := HeldNow(d.unhealthy, now);
    var stuck, route := Strip(it.muse), Strip(d.route);
    if Strip(it.profile) != "" then Profile(Strip(it.profile))
    else if stuck != "" && stuck !in held then Profile(stuck)
    else if stuck != "" && !MayMove(d.unhealthy, stuck) then Wait
    else if route == "" then Legacy
    else if Lower(route) !in ROTATE_TOKENS && route !in held then Profile(route)
    else
      match PlaceNew(d.load, held, d.last)
      case Some(c) => Profile(c)
      case None =>
        var zen := Without(ZEN, held);
        if zen != [] && d.allowZen then Profile(NextProfile(zen, d.last).value) else Nothing
  }

  /** A profile on hold is used only when the item itself names it. */
  lemma HeldOnlyIfNamed(it: Item, d: Desk, now: real)
    ensures var c := SelectProfile(it, d, now);
      c.Profile? && c.name in HeldNow(d.unhealthy, now) ==> Strip(it.profile) == c.name
  {
    hide Strip, PlaceNew, Lower, MayMove, IsHeld;
  }

  /** A warm conversation stays on its profile, waits for it, or moves: it stays exactly while the profile is
      not held, waits exactly while it is held by a wall that will pass, and moves otherwise. */
  lemma WarmMovesExactly(it: Item, d: Desk, now: real)
    requires Strip(it.profile) == "" && Strip(it.muse) != ""
    ensures var c := SelectProfile(it, d, now); var stuck := Strip(it.muse);
      && (c == Profile(stuck) <==> stuck !in HeldNow(d.unhealthy, now))
      && (c == Wait <==> stuck in HeldNow(d.unhealthy, now) && !MayMove(d.unhealthy, stuck))
  {
    hide Strip, PlaceNew, Lower, MayMove, IsHeld;
  }

  /** The zen tier is used only when every Go profile is held, unless it was asked for by name; and nothing is
      found usable exactly when, besides, no zen profile may be used. */
  lemma ZenIsLastResort(it: Item, d: Desk, now: real)
    requires Strip(it.profile) == "" && Strip(it.muse) == "" && Lower(Strip(d.route)) in ROTATE_TOKENS
    ensures var c := SelectProfile(it, d, now); var held := HeldNow(d.unhealthy, now);
      && (c.Profile? && c.name in ZEN ==> forall p | p in GO :: p in held)
      && (c == Nothing <==> (forall p | p in GO :: p in held) && (!d.allowZen || forall p | p in ZEN :: p in held))
      && (c.Profile? || c == Nothing)
  {
    hide Strip, PlaceNew, Lower, MayMove, IsHeld, Without;
    GoIsNotZen();
    NoRotateIsEmpty();
    var zen := Without(ZEN, HeldNow(d.unhealthy, now));
    assert zen == [] <==> forall p | p in ZEN :: p in HeldNow(d.unhealthy, now) by {
      assert zen != [] ==> zen[0] in zen;
    }
  }

  lemma GoIsNotZen()
    ensures forall p | p in GO :: p !in ZEN
  {
  }

  lemma NoRotateIsEmpty()
    ensures Lower("") !in ROTATE_TOKENS
  {
  }

  // ---- the adapter's state, updated in place ------------------------------------------------

  class Accounts {
    var unhealthy: map<string, Hold>
    var affinity: map<string, string>
    var last: string

    constructor ()
      ensures unhealthy == map[] && affinity == map[] && last == ""
    {
      unhealthy, affinity, last := map[], map[], "";
    }

    method MarkUnhealthy(p: string, r: Refusal, now: real)
      modifies this`unhealthy
      ensures unhealthy == Marked(old(unhealthy), p, r, now)
    {
      if r.cls == Transport {
        return;
      }
      var scope := ScopeOf(r);
      var minutes := r.minutes;
      if r.cls == Quota && scope == Some(Weekly) && minutes < 10080.0 {
        minutes := 10080.0;
      }
      var until := if r.cls == Quota then now + minutes * 60.0 else 0.0;
      unhealthy := unhealthy[p := Hold(r.cls, until, scope)];
    }

    method UnhealthyNow(now: real) returns (held: set<string>)
      ensures held == HeldNow(unhealthy, now)
    {
      held := {};
      var rest := unhealthy.Keys;
      while rest != {}
        invariant rest <= unhealthy.Keys
        invariant held == set p | p in unhealthy && p !in rest && IsHeld(unhealthy[p], now)
        decreases |rest|
      {
        var p :| p in rest;
        if unhealthy[p].until == 0.0 || now < unhealthy[p].until {
          held := held + {p};
        }
        rest := rest - {p};
      }
    }

    /** The conversations named by queue rows. */
    method RowLoad(items: seq<Item>) returns (load: map<string, nat>, seen: set<string>)
      ensures forall p :: Get(load, p) == CountItems(items, p)
      ensures seen == SeenIds(items) && forall p | p in GO :: p in load
    {
      hide SeenIds;
      load := map p | p in GO :: 0;
      seen := {};
      SeenNothing();
      for k := 0 to |items|
        invariant forall p :: Get(load, p) == CountItems(items[..k], p)
        invariant seen == SeenIds(items[..k]) && forall p | p in GO :: p in load
      {
        assert items[..k + 1][..k] == items[..k];
        SeenSnoc(items[..k + 1]);
        var p := items[k].muse;
        if p != "" {
          load := load[p := Get(load, p) + 1];
          seen := seen + {items[k].id};
        } else {
          assert seen + {} == seen;
        }
      }
      assert items[..|items|] == items;
    }

    method AccountLoad(items: seq<Item>) returns (load: map<string, nat>)
      ensures forall p :: Get(load, p) == LoadOf(items, affinity, p)
      ensures forall p | p in GO :: p in load
    {
      hide SeenIds, OnlyMapped, CountItems;
      var seen;
      load, seen := RowLoad(items);
      var rest := affinity.Keys;
      NothingMapped(affinity, seen);
      while rest != {}
        invariant rest <= affinity.Keys && forall p | p in GO :: p in load
        invariant forall p :: Get(load, p) == CountItems(items, p) + |OnlyMapped(affinity, seen + rest, p)|
        decreases |rest|
      {
        var id :| id in rest;
        OneFewer(affinity, seen, rest, id);
        if id !in seen {
          load := load[affinity[id] := Get(load, affinity[id]) + 1];
        }
        rest := rest - {id};
      }
      assert seen + {} == seen;
    }

    method Select(it: Item, items: seq<Item>, route: string, allowZen: bool, now: real) returns (c: Choice)
      ensures c == SelectProfile(it, Desk(unhealthy, GoLoads(items, affinity), last, route, allowZen), now)
    {
      hide SelectProfile, HeldNow;
      var load := AccountLoad(items);
      SameChoice(it, Desk(unhealthy, load, last, route, allowZen), GoLoads(items, affinity), now);
      c := SelectProfile(it, Desk(unhealthy, load, last, route, allowZen), now);
    }
  }

  function GoLoads(items: seq<Item>, affinity: map<string, string>): map<string, nat> {
    map p | p in GO :: LoadOf(items, affinity, p)
  }

  lemma SeenNothing()
    ensures SeenIds([]) == {}
  {
  }

  lemma NothingMapped(affinity: map<string, string>, seen: set<string>)
    ensures forall p :: OnlyMapped(affinity, seen + affinity.Keys, p) == {}
  {
  }

  lemma OneFewer(affinity: map<string, string>, seen: set<string>, rest: set<string>, id: string)
    requires id in rest && rest <= affinity.Keys
    ensures forall p ::
      (|OnlyMapped(affinity, seen + (rest - {id}), p)|
       == |OnlyMapped(affinity, seen + rest, p)| + if id !in seen && affinity[id] == p then 1 else 0)
  {
    forall p
      ensures |OnlyMapped(affinity, seen + (rest - {id}), p)|
           == |OnlyMapped(affinity, seen + rest, p)| + if id !in seen && affinity[id] == p then 1 else 0
    {
      var a, b := OnlyMapped(affinity, seen + (rest - {id}), p), OnlyMapped(affinity, seen + rest, p);
      assert a == b + if id !in seen && affinity[id] == p then {id} else {};
    }
  }

  lemma {:induction false} SameFewest(pool: seq<string>, a: map<string, nat>, b: map<string, nat>, m: nat)
    requires forall p | p in pool :: Get(a, p) == Get(b, p)
    ensures pool != [] ==> Fewest(pool, a) == Fewest(pool, b)
    ensures With(pool, a, m) == With(pool, b, m)
  {
    hide Get;
    if pool == [] {
    } else {
      assert pool[0] in pool;
      SameFewest(pool[1..], a, b, m);
    }
  }

  /** Placement depends on the loads of the Go profiles alone. */
  lemma SameLoads(a: map<string, nat>, b: map<string, nat>, held: set<string>, last: string)
    requires forall p | p in GO :: Get(a, p) == Get(b, p)
    ensures PlaceNew(a, held, last) == PlaceNew(b, held, last)
  {
    hide Get;
    var pool := Without(GO, held);
    if pool != [] {
      SameFewest(pool, a, b, Fewest(pool, a));
    }
  }

  lemma SameChoice(it: Item, d: Desk, load: map<string, nat>, now: real)
    requires forall p | p in GO :: Get(d.load, p) == Get(load, p)
    ensures SelectProfile(it, d, now) == SelectProfile(it, d.(load := load), now)
  {
    hide PlaceNew, Strip, Lower, MayMove, IsHeld;
    SameLoads(d.load, load, HeldNow(d.unhealthy, now), d.last);
  }
}
