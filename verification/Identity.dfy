/** The durable identities of launched conversations: `existing`, `prepare` and `bind` of musesession.py. */
module Identity {
  import opened PyText

  datatype Route = Route(profile: string, provider: string, model: string, effort: string, envKey: string)

  /** A well-formed record; `session` is empty until a session is bound to it. */
  datatype Record = Record(header: string, route: Route, conversation: string, owner: string,
                           worktree: Option<string>, session: string)

  /** What a file holds: a record, or something the shape, version and header checks refuse. */
  datatype Stored = Malformed | Rec(r: Record)

  datatype Key = Conversation(id: string) | Session(sid: string)

  type Files = map<Key, Stored>

  datatype Refusal = Invalid | NoSuchSession | NotYours | RouteChanged | OtherSession | SessionTaken

  datatype Result<T> = Ok(value: T) | Err(why: Refusal)

  /** One call of `prepare`; an empty `session` asks for a new or resumed launch, another one for an exact
      resume. `uuid` is the header a new record would be given. */
  datatype Ask = Ask(conversation: string, spec: Route, session: string, owner: Option<string>,
                     worktree: Option<string>, replaceProfile: bool, uuid: string)

  function Owner(a: Ask): string {
    if a.owner.Some? then a.owner.value else a.conversation
  }

  function KeyOf(a: Ask): Key {
    if a.session != "" then Session(a.session) else Conversation(a.conversation)
  }

  function Fresh(a: Ask): Record {
    Record(a.uuid, a.spec, a.conversation, Owner(a), a.worktree, "")
  }

  /** The record to be used is the stored one. */
  function UseStored(a: Ask, r: Record): Result<Record> {
    if r.route != a.spec then Err(RouteChanged)
    else if a.session != "" && r.session != a.session then Err(OtherSession)
    else Ok(r)
  }

  predicate Replaces(a: Ask, r: Record) {
    a.session == "" && a.replaceProfile && r.route.profile != a.spec.profile
  }

  function Prepare(files: Files, a: Ask): (Files, Result<Record>) {
    var key := KeyOf(a);
    if key !in files then
      if a.session != "" then (files, Err(NoSuchSession)) else (files[key := Rec(Fresh(a))], Ok(Fresh(a)))
    else
      match files[key]
      case Malformed => (files, Err(Invalid))
      case Rec(r) =>
        if r.owner != Owner(a) || r.worktree != a.worktree then (files, Err(NotYours))
        else if Replaces(a, r) then (files[key := Rec(Fresh(a))], Ok(Fresh(a)))
        else (files, UseStored(a, r))
  }

  function Bind(files: Files, session: string, record: Record): (Files, Result<()>) {
    var key, value := Session(session), Rec(record.(session := session));
    if key !in files then (files[key := value], Ok(()))
    else if files[key] != value then (files, Err(SessionTaken))
    else (files, Ok(()))
  }

  function Existing(files: Files, conversation: string): Result<Option<Record>> {
    if Conversation(conversation) !in files then Ok(None)
    else
      match files[Conversation(conversation)]
      case Malformed => Err(Invalid)
      case Rec(r) => Ok(Some(r))
  }

  // ---- the store, updated in place ----------------------------------------------------------

  class Store {
    var files: Files

    constructor ()
      ensures files == map[]
    {
      files := map[];
    }

    method PrepareRecord(a: Ask) returns (res: Result<Record>)
      modifies this
      ensures (files, res) == Prepare(old(files), a)
    {
      var key := KeyOf(a);
      var record: Option<Record> := None;
      if key in files {
        if files[key].Malformed? {
          return Err(Invalid);
        }
        var r := files[key].r;
        if r.owner != Owner(a) || r.worktree != a.worktree {
          return Err(NotYours);
        }
        if !(a.session == "" && a.replaceProfile && r.route.profile != a.spec.profile) {
          record := Some(r);
        }
      } else if a.session != "" {
        return Err(NoSuchSession);
      }
      if record.None? {
        record := Some(Fresh(a));
        files := files[key := Rec(Fresh(a))];
      }
      if record.value.route != a.spec {
        return Err(RouteChanged);
      }
      if a.session != "" && record.value.session != a.session {
        return Err(OtherSession);
      }
      res := Ok(record.value);
    }

    method BindSession(session: string, record: Record) returns (res: Result<()>)
      modifies this
      ensures (files, res) == Bind(old(files), session, record)
    {
      var value := record.(session := session);
      if Session(session) in files {
        if files[Session(session)] != Rec(value) {
          return Err(SessionTaken);
        }
        return Ok(());
      }
      files := files[Session(session) := Rec(value)];
      res := Ok(());
    }
  }

  // ---- single calls -------------------------------------------------------------------------

  /** What a prepared launch may rely on: the record is stored before the launch, goes out on exactly the route
      that was asked for, and belongs to the asking owner, worktree and, for an exact resume, session. A
      refusal stores nothing, and an exact resume never stores anything. */
  lemma PrepareMeans(files: Files, a: Ask)
    ensures var (after, res) := Prepare(files, a);
      && (res.Ok? ==>
            (&& KeyOf(a) in after && after[KeyOf(a)] == Rec(res.value) && res.value.route == a.spec
             && res.value.owner == Owner(a) && res.value.worktree == a.worktree
             && (a.session != "" ==> res.value.session == a.session)))
      && (res.Err? || a.session != "" ==> after == files)
      && after - {KeyOf(a)} == files - {KeyOf(a)}
  {
  }

  /** Asking again, whether to resume a crashed launch or to retry a failed one, gives the same record and
      writes nothing, whatever new header it would have been given. */
  lemma PrepareAgain(files: Files, a: Ask, uuid: string)
    requires Prepare(files, a).1.Ok?
    ensures Prepare(Prepare(files, a).0, a.(uuid := uuid)) == Prepare(files, a)
  {
  }

  // ---- whole runs ---------------------------------------------------------------------------

  datatype Step = APrepare(a: Ask) | ABind(session: string, record: Record)

  function Next(files: Files, s: Step): Files {
    match s
    case APrepare(a) => Prepare(files, a).0
    case ABind(session, record) => Bind(files, session, record).0
  }

  function After(files: Files, run: seq<Step>): Files {
    if run == [] then files else Next(After(files, run[..|run| - 1]), run[|run| - 1])
  }

  /** A session binding, once written, never changes, whatever is prepared or bound after it. */
  lemma {:induction false} BindingNeverChanges(files: Files, run: seq<Step>, session: string)
    requires Session(session) in files
    ensures Session(session) in After(files, run) && After(files, run)[Session(session)] == files[Session(session)]
  {
    hide Fresh, UseStored;
    if run == [] {
    } else {
      BindingNeverChanges(files, run[..|run| - 1], session);
    }
  }

  /** A step that would put the conversation on another profile. */
  predicate Moves(s: Step, conversation: string, profile: string) {
    s.APrepare? && s.a.conversation == conversation && s.a.session == "" && s.a.replaceProfile
      && s.a.spec.profile != profile
  }

  /** A conversation keeps its record, header, account and model, through every run that does not explicitly
      re-place it on another profile. */
  lemma {:induction false} ConversationKept(files: Files, run: seq<Step>, conversation: string)
    requires Conversation(conversation) in files && files[Conversation(conversation)].Rec?
    requires forall k | 0 <= k < |run| ::
      !Moves(run[k], conversation, files[Conversation(conversation)].r.route.profile)
    ensures Conversation(conversation) in After(files, run)
         && After(files, run)[Conversation(conversation)] == files[Conversation(conversation)]
  {
    hide Fresh, UseStored;
    if run == [] {
    } else {
      var n := |run| - 1;
      ConversationKept(files, run[..n], conversation);
      assert !Moves(run[n], conversation, files[Conversation(conversation)].r.route.profile);
    }
  }

  // ---- one header, one account --------------------------------------------------------------

  /** The records issued so far, and the uuids used up. */
  datatype Ledger = Ledger(files: Files, issued: set<Record>, used: set<string>)

  function Keep(l: Ledger, s: Step): Ledger {
    match s
    case APrepare(a) =>
      var (files, res) := Prepare(l.files, a);
      Ledger(files, if files != l.files then l.issued + {Fresh(a)} else l.issued, l.used + {a.uuid})
    case ABind(session, record) => l.(files := Bind(l.files, session, record).0)
  }

  /** The uuid is new, and what is bound was issued. */
  predicate Allowed(l: Ledger, s: Step) {
    match s
    case APrepare(a) => a.uuid !in l.used
    case ABind(_, record) => record.(session := "") in l.issued
  }

  /** Everything stored was issued, and every header was issued once. */
  ghost predicate Accounted(l: Ledger) {
    && (forall key | key in l.files && l.files[key].Rec? :: l.files[key].r.(session := "") in l.issued)
    && (forall r | r in l.issued :: r.header in l.used)
    && forall r, s | r in l.issued && s in l.issued && r.header == s.header :: r == s
  }

  lemma KeepAccounts(l: Ledger, s: Step)
    requires Accounted(l) && Allowed(l, s)
    ensures Accounted(Keep(l, s))
  {
    hide UseStored, Replaces;
    var m := Keep(l, s);
    if s.APrepare? {
      assert Fresh(s.a).header == s.a.uuid && Fresh(s.a).(session := "") == Fresh(s.a);
    }
    forall key | key in m.files && m.files[key].Rec?
      ensures m.files[key].r.(session := "") in m.issued
    {
      if key in l.files && m.files[key] == l.files[key] {
        assert l.files[key].r.(session := "") in l.issued;
      } else if s.ABind? {
        assert m.files[key].r.(session := "") == s.record.(session := "");
      }
    }
  }

  function KeepAll(l: Ledger, run: seq<Step>): Ledger {
    if run == [] then l else Keep(KeepAll(l, run[..|run| - 1]), run[|run| - 1])
  }

  /** No header is ever used for two accounts: in every run with unrepeated uuids whose binds are of records
      issued before, any two stored identities with one header name the same route, conversation, owner and
      worktree. */
  lemma {:induction false} OneHeaderOneAccount(run: seq<Step>)
    requires forall k | 0 <= k < |run| :: Allowed(KeepAll(Ledger(map[], {}, {}), run[..k]), run[k])
    ensures var l := KeepAll(Ledger(map[], {}, {}), run);
      && Accounted(l)
      && forall x, y | x in l.files && y in l.files && l.files[x].Rec? && l.files[y].Rec?
        && l.files[x].r.header == l.files[y].r.header ::
           l.files[x].r.(session := "") == l.files[y].r.(session := "")
  {
    hide Keep, Allowed;
    if run == [] {
    } else {
      var n := |run| - 1;
      assert forall k | 0 <= k < n :: run[..n][..k] == run[..k];
      OneHeaderOneAccount(run[..n]);
      KeepAccounts(KeepAll(Ledger(map[], {}, {}), run[..n]), run[n]);
    }
  }

  // ---- when a call succeeds, and what it leaves ---------------------------------------------

  /** When `prepare` gives a record, and which: an exact resume, the record bound to its session, if that is of the
      asking owner, worktree, route and session; a launch, a new record under a new header if there is none, or if it
      may replace the one there and names another profile, else the one there if it is on the asked route. A file that
      is malformed or belongs to another is refused first. */
  lemma PrepareExactly(files: Files, a: Ask)
    ensures var (after, res) := Prepare(files, a);
      var who := if a.owner.Some? then a.owner.value else a.conversation;
      var made := Record(a.uuid, a.spec, a.conversation, who, a.worktree, "");
      var key := if a.session != "" then Session(a.session) else Conversation(a.conversation);
      var found := key in files && files[key].Rec?;
      var own := found && files[key].r.owner == who && files[key].r.worktree == a.worktree;
      var anew := a.session == "" && (key !in files
        || (own && a.replaceProfile && files[key].r.route.profile != a.spec.profile));
      var usable := own && files[key].r.route == a.spec && (a.session != "" ==> files[key].r.session == a.session);
      && after == (if anew then files[key := Rec(made)] else files)
      && (res.Ok? <==> anew || usable)
      && (res.Ok? ==> res.value == if anew then made else files[key].r)
      && (res == Err(Invalid) <==> key in files && !found)
      && (res == Err(NotYours) <==> found && !own)
  {
  }

  /** The first record that a run binds to this session. */
  function FirstBound(run: seq<Step>, session: string): Option<Record> {
    if run == [] then None
    else
      var before, s := FirstBound(run[..|run| - 1], session), run[|run| - 1];
      if before.Some? then before
      else if s.ABind? && s.session == session then Some(s.record.(session := session))
      else None
  }

  /** Over every run a session holds the first record bound to it, and nothing before that; so a bind succeeds exactly
      if it is the first or repeats it. */
  lemma {:induction false} BoundToFirst(files: Files, run: seq<Step>, session: string, record: Record)
    requires Session(session) !in files
    ensures var l, first := After(files, run), FirstBound(run, session);
      && (Session(session) in l <==> first.Some?) && (first.Some? ==> l[Session(session)] == Rec(first.value))
      && (Bind(l, session, record).1.Ok? <==> first.None? || first.value == record.(session := session))
      && (Bind(l, session, record).1.Ok? ==>
            Session(session) in Bind(l, session, record).0
            && Bind(l, session, record).0[Session(session)] == Rec(record.(session := session)))
  {
    hide Fresh, UseStored;
    if run == [] {
    } else {
      BoundToFirst(files, run[..|run| - 1], session, record);
    }
  }
}
