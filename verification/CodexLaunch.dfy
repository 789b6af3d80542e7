/** Launching a conversation: how dispatcher.py puts `existing`, `select_profile` and `prepare` together, and
    what that keeps for a conversation that is already warm. */
module CodexLaunch {
  import opened PyText
  import Placement
  import Identity
  import PlacementChoice

  /** What one launch meets: the desk, the time, the rest of the route behind the chosen profile (nothing if
      the profile cannot be resolved), the worktree, a new uuid, and whether the process starts. */
  datatype Env = Env(desk: Placement.Desk, now: real, route: Option<Identity.Route>, worktree: Option<string>,
                     uuid: string, starts: bool)

  datatype Outcome =
    | Waits | Nothing | Unrouted | Refused | NotStarted | OnLegacy
    | Launched(profile: string, header: string)

  /** The item and the identity files after a launch, and how it went. */
  datatype Launch = Launch(item: Placement.Item, files: Identity.Files, outcome: Outcome)

  function AskFor(it: Placement.Item, profile: string, e: Env): Identity.Ask
    requires e.route.Some?
  {
    Identity.Ask(it.id, e.route.value.(profile := profile), "", None, e.worktree, true, e.uuid)
  }

  /** The item as a crash before its last launch was recorded would have left it. */
  function Recovered(it: Placement.Item, known: Option<Identity.Record>): Placement.Item {
    if known.Some? && it.profile == "" then it.(muse := known.value.route.profile) else it
  }

  function Spawn(it: Placement.Item, files: Identity.Files, e: Env): Launch {
    match Identity.Existing(files, it.id)
    case Err(_) => Launch(it, files, Refused)
    case Ok(known) =>
      var it1 := Recovered(it, known);
      match Placement.SelectProfile(it1, e.desk, e.now)
      case Wait => Launch(it1, files, Waits)
      case Nothing => Launch(it1, files, Nothing)
      case Legacy => Launch(it1, files, if e.route.None? then Unrouted else if e.starts then OnLegacy else NotStarted)
      case Profile(p) =>
        if e.route.None? then Launch(it1, files, Unrouted)
        else
          var (after, res) := Identity.Prepare(files, AskFor(it1, p, e));
          match res
          case Err(_) => Launch(it1, after, Refused)
          case Ok(r) =>
            if !e.starts then Launch(it1, after, NotStarted)
            else Launch(if it1.profile == "" then it1.(muse := p) else it1, after, Launched(p, r.header))
  }

  /** One step of a run: a launch of some item, or the binding of a session that was seen to start. */
  datatype Step = ASpawn(it: Placement.Item, e: Env) | ABind(session: string, record: Identity.Record)

  function Next(files: Identity.Files, s: Step): Identity.Files {
    match s
    case ASpawn(it, e) => Spawn(it, files, e).files
    case ABind(session, record) => Identity.Bind(files, session, record).0
  }

  function After(files: Identity.Files, run: seq<Step>): Identity.Files {
    if run == [] then files else Next(After(files, run[..|run| - 1]), run[|run| - 1])
  }

  /** The profile is on a hold that lets its conversations move. */
  predicate MovableHold(d: Placement.Desk, profile: string, now: real) {
    profile in Placement.HeldNow(d.unhealthy, now) && Placement.MayMove(d.unhealthy, profile)
  }

  /** The launch is of this conversation, and is neither told to use another profile nor free to move. */
  predicate StaysPut(s: Step, id: string, profile: string) {
    s.ASpawn? && s.it.id == id ==> s.it.profile == "" && !MovableHold(s.e.desk, profile, s.e.now)
  }

  predicate Warm(files: Identity.Files, id: string, r: Identity.Record) {
    && Identity.Conversation(id) in files && files[Identity.Conversation(id)] == Identity.Rec(r)
    && r.route.profile != "" && Strip(r.route.profile) == r.route.profile
  }

  lemma WarmChoice(it: Placement.Item, d: Placement.Desk, now: real, profile: string)
    requires it.profile == "" && it.muse == profile && Strip(profile) == profile && profile != ""
    requires !MovableHold(d, profile, now)
    ensures var c := Placement.SelectProfile(it, d, now); c == Placement.Profile(profile) || c == Placement.Wait
  {
  }

  lemma PrepareKeeps(files: Identity.Files, a: Identity.Ask, r: Identity.Record)
    requires Identity.Conversation(a.conversation) in files
      && files[Identity.Conversation(a.conversation)] == Identity.Rec(r)
    requires a.session == "" && a.spec.profile == r.route.profile
    ensures var (after, res) := Identity.Prepare(files, a); after == files && (res.Ok? ==> res.value == r)
  {
  }

  /** One launch of a warm conversation that may not move: it waits, fails, or goes out on its own profile
      under its own header; its record is untouched in every case. */
  lemma WarmLaunch(it: Placement.Item, files: Identity.Files, e: Env, r: Identity.Record)
    requires Warm(files, it.id, r) && it.profile == "" && !MovableHold(e.desk, r.route.profile, e.now)
    ensures var l := Spawn(it, files, e);
      && l.files == files && l.item == it.(muse := r.route.profile)
      && (l.outcome == Launched(r.route.profile, r.header)
          || l.outcome == Waits || l.outcome == Unrouted || l.outcome == Refused || l.outcome == NotStarted)
  {
    hide Placement.SelectProfile, Identity.Prepare, Strip, MovableHold;
    var it1 := it.(muse := r.route.profile);
    WarmChoice(it1, e.desk, e.now, r.route.profile);
    if e.route.Some? {
      PrepareKeeps(files, AskFor(it1, r.route.profile, e), r);
    }
  }

  /** Launches of other items leave a conversation's record alone. */
  lemma OtherLaunch(it: Placement.Item, files: Identity.Files, e: Env, id: string)
    requires it.id != id && Identity.Conversation(id) in files
    ensures var l := Spawn(it, files, e);
      Identity.Conversation(id) in l.files && l.files[Identity.Conversation(id)] == files[Identity.Conversation(id)]
  {
    hide Placement.SelectProfile, Identity.UseStored, Identity.Fresh;
  }

  /** A warm conversation stays on its account for as long as it may: through any run of launches, failed
      launches, crashes and bindings, of this item and of others, its identity record is the one it began with,
      provided no launch of it names another profile and none meets its own profile on a hold that is not a
      rolling quota wall. */
  lemma {:induction false} WarmConversationStays(files: Identity.Files, run: seq<Step>, id: string, r: Identity.Record)
    requires Warm(files, id, r)
    requires forall k | 0 <= k < |run| :: StaysPut(run[k], id, r.route.profile)
    ensures Warm(After(files, run), id, r)
  {
    hide Spawn, Strip, MovableHold;
    if run == [] {
    } else {
      var n := |run| - 1;
      WarmConversationStays(files, run[..n], id, r);
      var before := After(files, run[..n]);
      assert StaysPut(run[n], id, r.route.profile);
      if run[n].ASpawn? {
        if run[n].it.id == id {
          WarmLaunch(run[n].it, before, run[n].e, r);
        } else {
          OtherLaunch(run[n].it, before, run[n].e, id);
        }
      }
    }
  }

  /** So every launch of it in such a run that succeeds goes out on that account under that header. */
  lemma WarmLaunchesAgree(files: Identity.Files, run: seq<Step>, id: string, r: Identity.Record, k: nat)
    requires Warm(files, id, r) && k < |run| && run[k].ASpawn? && run[k].it.id == id
    requires forall j | 0 <= j <= k :: StaysPut(run[j], id, r.route.profile)
    ensures var o := Spawn(run[k].it, After(files, run[..k]), run[k].e).outcome;
      o.Launched? ==> o == Launched(r.route.profile, r.header)
  {
    hide Spawn, Strip, MovableHold;
    WarmConversationStays(files, run[..k], id, r);
    assert StaysPut(run[k], id, r.route.profile);
    WarmLaunch(run[k].it, After(files, run[..k]), run[k].e, r);
  }

  /** Where a new conversation goes, it is warm from then on: a launch that succeeds leaves the profile it went
      out on in the identity files, under the header it was given, for the next launch to find. */
  lemma LaunchMakesWarm(it: Placement.Item, files: Identity.Files, e: Env)
    requires Spawn(it, files, e).outcome.Launched?
    ensures var l := Spawn(it, files, e); var key := Identity.Conversation(it.id);
      && key in l.files && l.files[key].Rec?
      && l.files[key].r.route.profile == l.outcome.profile && l.files[key].r.header == l.outcome.header
      && (it.profile == "" ==> l.item.muse == l.outcome.profile)
  {
    hide Placement.SelectProfile, Identity.Prepare;
    var it1 := Recovered(it, Identity.Existing(files, it.id).value);
    Identity.PrepareMeans(files, AskFor(it1, Placement.SelectProfile(it1, e.desk, e.now).name, e));
  }

  // ---- where a launch goes, and what it leaves ----------------------------------------------

  /** The record a new conversation gets. */
  function NewRecord(it: Placement.Item, p: string, e: Env): Identity.Record
    requires e.route.Some?
  {
    Identity.Record(e.uuid, e.route.value.(profile := p), it.id, it.id, e.worktree, "")
  }

  /** A launch for which profile `p` was chosen and can be resolved, by what is on record for its conversation: with
      none, or one of its own on another profile, it goes out under a new header that is put on record even if the
      process does not start; with one of its own on exactly this route, under that header; with any other, not. */
  lemma LaunchExactly(it: Placement.Item, files: Identity.Files, e: Env, p: string)
    requires var key := Identity.Conversation(it.id);
      var known := key in files && files[key].Rec?;
      var warm := if known && it.profile == "" then it.(muse := files[key].r.route.profile) else it;
      (key in files ==> known) && e.route.Some? && Placement.SelectProfile(warm, e.desk, e.now) == Placement.Profile(p)
    ensures var l, key := Spawn(it, files, e), Identity.Conversation(it.id);
      var known := key in files;
      var own := known && files[key].r.owner == it.id && files[key].r.worktree == e.worktree;
      var anew := !known || (own && files[key].r.route.profile != p);
      var usable := own && files[key].r.route == e.route.value.(profile := p);
      && l.files == (if anew then files[key := Identity.Rec(NewRecord(it, p, e))] else files)
      && l.outcome == (if !anew && !usable then Refused
           else if !e.starts then NotStarted
           else Launched(p, if anew then e.uuid else files[key].r.header))
      && (l.outcome.Launched? && it.profile == "" ==> l.item.muse == p)
      && l.item.profile == it.profile && l.item.id == it.id
  {
    hide Placement.SelectProfile;
  }

  /** When no profile is chosen, or the chosen one cannot be resolved, nothing is launched or stored. */
  lemma NothingLaunched(it: Placement.Item, files: Identity.Files, e: Env)
    ensures var key := Identity.Conversation(it.id);
      var warm := if key in files && files[key].Rec? && it.profile == "" then it.(muse := files[key].r.route.profile)
        else it;
      var c, l := Placement.SelectProfile(warm, e.desk, e.now), Spawn(it, files, e);
      && (key in files && files[key].Malformed? ==> l == Launch(it, files, Refused))
      && (!(key in files && files[key].Malformed?) && (!c.Profile? || e.route.None?) ==>
            l == Launch(warm, files, match c
              case Wait => Waits
              case Nothing => Nothing
              case Profile(_) => Unrouted
              case Legacy => if e.route.None? then Unrouted else if e.starts then OnLegacy else NotStarted))
  {
    hide Placement.SelectProfile;
  }

  /** Where a new conversation goes: with a slot that distributes and some Go profile open, to the open one with the
      fewest conversations, in turn, under a new header; and that is on record for every later launch of it. */
  lemma ColdGoesToLeastLoaded(it: Placement.Item, files: Identity.Files, e: Env)
    requires Identity.Conversation(it.id) !in files && it.profile == "" && it.muse == ""
    requires e.route.Some? && e.starts && PlacementChoice.Distributes(e.desk, e.now)
    requires PlacementChoice.Open(["muse-go-1", "muse-go-2", "muse-go-3"], e.desk, e.now) != {}
    ensures var l, go := Spawn(it, files, e), ["muse-go-1", "muse-go-2", "muse-go-3"];
      && l.outcome.Launched? && l.outcome.header == e.uuid && l.item.muse == l.outcome.profile
      && PlacementChoice.NextOf(go, l.outcome.profile, e.desk.last, PlacementChoice.LeastLoaded(go, e.desk, e.now))
      && l.files == files[Identity.Conversation(it.id) := Identity.Rec(NewRecord(it, l.outcome.profile, e))]
  {
    hide Placement.SelectProfile, PlacementChoice.Distributes, PlacementChoice.NextOf, PlacementChoice.LeastLoaded,
      PlacementChoice.Open, Spawn;
    NothingToStrip();
    PlacementChoice.PlacedByLoad(it, e.desk, e.now);
    LaunchExactly(it, files, e, Placement.SelectProfile(it, e.desk, e.now).name);
  }

  lemma NothingToStrip()
    ensures Strip("") == ""
  {
  }
}
