/** Turns cut by their provider: `stall_shape` and `check_stall` of dispatcher.py. Times are in seconds. */
module StallWatch {
  import opened PyText

  // ---- stall_shape --------------------------------------------------------------------------

  datatype Part = Text(text: string) | Tool(status: string) | Bare

  /** The newest message of a session; `size` is the length of its serialised form. */
  datatype Message = Message(role: string, id: string, completed: bool, error: bool, parts: seq<Part>, size: nat)

  function Spoken(parts: seq<Part>): string {
    if parts == [] then ""
    else
      var p, rest := parts[0], Spoken(parts[1..]);
      if p.Text? then (if rest == "" then p.text else p.text + " " + rest) else rest
  }

  predicate InFlight(p: Part) {
    p.Tool? && (p.status == "running" || p.status == "pending")
  }

  function Fingerprint(m: Message): string {
    m.id + ":" + Decimal(|m.parts|) + ":" + Decimal(m.size)
  }

  /** A message that looks cut off: an assistant's, neither completed nor failed, with no text and no tool in
      flight. */
  predicate CutOff(m: Message) {
    && m.role == "assistant" && !m.completed && !m.error && Strip(Spoken(m.parts)) == ""
    && !exists p | p in m.parts :: InFlight(p)
  }

  lemma {:induction false} BlankText(parts: seq<Part>)
    ensures Blank(Spoken(parts)) <==> forall k | 0 <= k < |parts| :: parts[k].Text? ==> Blank(parts[k].text)
  {
    if parts == [] {
    } else {
      var rest := Spoken(parts[1..]);
      BlankText(parts[1..]);
      assert forall k | 1 <= k < |parts| :: parts[k] == parts[1..][k - 1];
      if parts[0].Text? {
        BlankJoin(parts[0].text, rest);
      }
    }
  }

  lemma BlankJoin(a: string, b: string)
    ensures Blank(a + " " + b) <==> Blank(a) && Blank(b)
  {
    var s := a + " " + b;
    assert forall k | 0 <= k < |a| :: s[k] == a[k];
    assert forall k | 0 <= k < |b| :: s[|a| + 1 + k] == b[k];
  }

  lemma {:induction false} LStripOfBlank(s: string)
    ensures LStrip(s) == "" <==> Blank(s)
  {
    if s == "" {
    } else if IsSpace(s[0]) {
      LStripOfBlank(s[1..]);
      assert Blank(s) <==> Blank(s[1..]) by {
        assert forall k | 1 <= k < |s| :: s[k] == s[1..][k - 1];
      }
    }
  }

  lemma StripsToNothing(s: string)
    ensures Strip(s) == "" <==> Blank(s)
  {
    LStripOfBlank(s);
  }

  /** What counts as cut off: an assistant's message, unfinished and without an error, all of whose texts are blank and
      none of whose tools is pending or running. */
  lemma CutOffExactly(m: Message)
    ensures CutOff(m) <==>
      (&& m.role == "assistant" && !m.completed && !m.error
       && forall k | 0 <= k < |m.parts| ::
         && (m.parts[k].Text? ==> Blank(m.parts[k].text))
         && (m.parts[k].Tool? ==> m.parts[k].status != "pending" && m.parts[k].status != "running"))
  {
    hide Strip, Blank, Spoken;
    BlankText(m.parts);
    StripsToNothing(Spoken(m.parts));
    assert (exists p | p in m.parts :: InFlight(p)) <==> exists k | 0 <= k < |m.parts| :: InFlight(m.parts[k]);
  }

  /** The fingerprint of a message that looks cut off, and nothing for a message that looks alive. */
  function StallShape(m: Message): Option<string> {
    if CutOff(m) then Some(Fingerprint(m)) else None
  }

  lemma {:induction false} DecimalInjective(m: nat, n: nat)
    requires Decimal(m) == Decimal(n)
    ensures m == n
  {
    var a, b := Decimal(m), Decimal(n);
    assert a[|a| - 1] == DIGITS[m % 10] && b[|b| - 1] == DIGITS[n % 10];
    DigitsDiffer(m % 10, n % 10);
    if m >= 10 && n >= 10 {
      assert a[..|a| - 1] == Decimal(m / 10) && b[..|b| - 1] == Decimal(n / 10);
      DecimalInjective(m / 10, n / 10);
    }
  }

  lemma DigitsDiffer(i: nat, j: nat)
    requires i < 10 && j < 10 && DIGITS[i] == DIGITS[j]
    ensures i == j
  {
  }

  lemma ColonNotAfter(a: string, c: string, b: string, d: string)
    requires a + ":" + c == b + ":" + d && ':' !in c
    ensures |b| <= |a|
  {
    var s := a + ":" + c;
    assert forall i | |a| < i < |s| :: s[i] == c[i - |a| - 1] && s[i] != ':';
    assert s[|b|] == ':';
  }

  /** The last colon divides a text in one way only. */
  lemma LastColon(a: string, c: string, b: string, d: string)
    requires a + ":" + c == b + ":" + d && ':' !in c && ':' !in d
    ensures a == b && c == d
  {
    ColonNotAfter(a, c, b, d);
    ColonNotAfter(b, d, a, c);
    var s := a + ":" + c;
    assert a == s[..|a|] && b == s[..|b|];
    assert c == s[|a| + 1..] && d == s[|b| + 1..];
  }

  /** One fingerprint means one message that has grown in neither parts nor size. */
  lemma SameFingerprint(m: Message, n: Message)
    ensures Fingerprint(m) == Fingerprint(n) <==> m.id == n.id && |m.parts| == |n.parts| && m.size == n.size
  {
    if Fingerprint(m) == Fingerprint(n) {
      LastColon(m.id + ":" + Decimal(|m.parts|), Decimal(m.size), n.id + ":" + Decimal(|n.parts|), Decimal(n.size));
      LastColon(m.id, Decimal(|m.parts|), n.id, Decimal(|n.parts|));
      DecimalInjective(|m.parts|, |n.parts|);
      DecimalInjective(m.size, n.size);
    }
  }

  /** The same message, grown in neither parts nor size. */
  predicate SameTurn(m: Message, n: Message) {
    m.id == n.id && |m.parts| == |n.parts| && m.size == n.size
  }

  // ---- check_stall, for one session ---------------------------------------------------------

  /** The settings stall_min_polls, stall_after_seconds and stall_reresume_block_minutes (in seconds). */
  datatype Settings = Settings(minPolls: int, after: real, window: real)

  datatype Streak = Streak(fp: string, since: real, polls: nat, fired: bool)

  datatype Session = Session(streak: Option<Streak>, compacting: Option<string>, resumed: Option<real>)

  /** One call: the time, the newest message, the compaction the newest user message is (if it is one), and whether
      a posted prompt would arrive. */
  datatype Call = Call(now: real, newest: Message, compaction: Option<string>, delivered: bool)

  datatype Outcome = Alive | Began | Waiting | Watching | Compacting(announced: bool) | Blocked | Resumed | PostFailed

  /** A remembered time, where 0 counts as none. */
  predicate Recent(prev: Option<real>, now: real, window: real) {
    prev.Some? && prev.value != 0.0 && now - prev.value < window
  }

  function Check(cfg: Settings, s: Session, c: Call): (Session, Outcome) {
    var shape := StallShape(c.newest);
    if shape.None? then (s.(streak := None, compacting := None), Alive)
    else if s.streak.None? || s.streak.value.fp != shape.value then
      (s.(streak := Some(Streak(shape.value, c.now, 1, false))), Began)
    else
      var r := s.streak.value.(polls := s.streak.value.polls + 1);
      var s1 := s.(streak := Some(r));
      if r.fired then (s1, Watching)
      else if r.polls < cfg.minPolls || c.now - r.since < cfg.after then (s1, Waiting)
      else if c.compaction.Some? then
        (s.(streak := None, compacting := c.compaction), Compacting(s.compacting != c.compaction))
      else
        var s2 := s.(streak := Some(r.(fired := true)));
        if Recent(s.resumed, c.now, cfg.window) then (s2, Blocked)
        else (s2.(resumed := Some(c.now)), if c.delivered then Resumed else PostFailed)
  }

  // ---- the dispatcher's maps ----------------------------------------------------------------

  class StallMaps {
    var stall: map<string, Streak>
    var compacting: map<string, string>
    var stallResumed: map<string, real>

    function Of(sid: string): Session
      reads this
    {
      Session(if sid in stall then Some(stall[sid]) else None,
              if sid in compacting then Some(compacting[sid]) else None,
              if sid in stallResumed then Some(stallResumed[sid]) else None)
    }

    constructor ()
      ensures forall sid :: Of(sid) == Session(None, None, None)
    {
      stall, compacting, stallResumed := map[], map[], map[];
    }

    method CheckStall(cfg: Settings, sid: string, c: Call) returns (o: Outcome)
      modifies this
      ensures (Of(sid), o) == Check(cfg, old(Of(sid)), c)
      ensures forall other | other != sid :: Of(other) == old(Of(other))
    {
      hide StallShape;
      var shape := StallShape(c.newest);
      if shape.None? {
        stall := stall - {sid};
        compacting := compacting - {sid};
        return Alive;
      }
      if sid !in stall || stall[sid].fp != shape.value {
        stall := stall[sid := Streak(shape.value, c.now, 1, false)];
        return Began;
      }
      stall := stall[sid := stall[sid].(polls := stall[sid].polls + 1)];
      var held := c.now - stall[sid].since;
      if stall[sid].fired {
        return Watching;
      }
      if stall[sid].polls < cfg.minPolls || held < cfg.after {
        return Waiting;
      }
      if c.compaction.Some? {
        var announced := sid !in compacting || compacting[sid] != c.compaction.value;
        compacting := compacting[sid := c.compaction.value];
        stall := stall - {sid};
        return Compacting(announced);
      }
      stall := stall[sid := stall[sid].(fired := true)];
      if Recent(if sid in stallResumed then Some(stallResumed[sid]) else None, c.now, cfg.window) {
        return Blocked;
      }
      stallResumed := stallResumed[sid := c.now];
      o := if c.delivered then Resumed else PostFailed;
    }
  }

  // ---- all sequences of calls ---------------------------------------------------------------

  const FRESH := Session(None, None, None)

  function After(cfg: Settings, calls: seq<Call>): Session {
    if calls == [] then FRESH else Check(cfg, After(cfg, calls[..|calls| - 1]), calls[|calls| - 1]).0
  }

  function OutcomeAt(cfg: Settings, calls: seq<Call>, k: nat): Outcome
    requires k < |calls|
  {
    Check(cfg, After(cfg, calls[..k]), calls[k]).1
  }

  /** A RESUME was sent, or at least tried. */
  predicate Attempt(o: Outcome) {
    o.Resumed? || o.PostFailed?
  }

  /** The stall was declared: resumed, or handed to a person because a resume was sent lately. */
  predicate Declared(o: Outcome) {
    Attempt(o) || o.Blocked?
  }

  lemma AfterStep(cfg: Settings, calls: seq<Call>, k: nat)
    requires k < |calls|
    ensures After(cfg, calls[..k + 1]) == Check(cfg, After(cfg, calls[..k]), calls[k]).0
  {
    assert calls[..k + 1][..k] == calls[..k];
  }

  /** Calls `j` to `k` (excluded) all saw the same cut-off turn, by its fingerprint. */
  ghost predicate Inert(calls: seq<Call>, fp: string, j: nat, k: nat)
    requires j <= k <= |calls|
  {
    forall i | j <= i < k :: StallShape(calls[i].newest) == Some(fp)
  }

  /** A running streak began at some call, and only that turn was seen since. */
  lemma {:induction false} StreakBegan(cfg: Settings, calls: seq<Call>) returns (j: nat)
    requires After(cfg, calls).streak.Some?
    ensures var s := After(cfg, calls).streak.value;
      j < |calls| && Inert(calls, s.fp, j, |calls|) && s.since == calls[j].now && s.polls == |calls| - j
  {
    hide StallShape;
    var n := |calls| - 1;
    var s := After(cfg, calls[..n]);
    if s.streak.None? || s.streak.value.fp != StallShape(calls[n].newest).value {
      j := n;
    } else {
      j := StreakBegan(cfg, calls[..n]);
      assert Inert(calls[..n], s.streak.value.fp, j, n);
      assert forall i | j <= i < n :: calls[i] == calls[..n][i];
    }
  }

  /** Calls `j` to `k` (excluded) all saw the newest message of call `j`, cut off, grown in neither parts nor size. */
  ghost predicate StoodStill(calls: seq<Call>, j: nat, k: nat)
    requires j < k <= |calls|
  {
    forall i | j <= i < k :: CutOff(calls[i].newest) && SameTurn(calls[i].newest, calls[j].newest)
  }

  /** One fingerprint throughout means just that. */
  lemma InertMeans(calls: seq<Call>, j: nat, k: nat)
    requires j < k <= |calls|
    ensures StoodStill(calls, j, k)
       <==> CutOff(calls[j].newest) && Inert(calls, Fingerprint(calls[j].newest), j, k)
  {
    hide CutOff, Fingerprint, SameTurn;
    if StoodStill(calls, j, k) {
      forall i | j <= i < k
        ensures StallShape(calls[i].newest) == Some(Fingerprint(calls[j].newest))
      {
        SameFingerprint(calls[i].newest, calls[j].newest);
        SameMeans(calls[i].newest, calls[j].newest);
      }
    }
    if CutOff(calls[j].newest) && Inert(calls, Fingerprint(calls[j].newest), j, k) {
      forall i | j <= i < k
        ensures CutOff(calls[i].newest) && SameTurn(calls[i].newest, calls[j].newest)
      {
        SameFingerprint(calls[i].newest, calls[j].newest);
        SameMeans(calls[i].newest, calls[j].newest);
      }
    }
  }

  lemma SameMeans(m: Message, n: Message)
    ensures SameTurn(m, n) <==> m.id == n.id && |m.parts| == |n.parts| && m.size == n.size
  {
  }

  lemma PrintedOnEvidence(cfg: Settings, calls: seq<Call>, k: nat) returns (j: nat)
    requires k < |calls| && Declared(OutcomeAt(cfg, calls, k))
    ensures j < k && CutOff(calls[k].newest) && Inert(calls, Fingerprint(calls[k].newest), j, k + 1)
    ensures calls[k].now - calls[j].now >= cfg.after && k + 1 - j >= cfg.minPolls && calls[k].compaction.None?
  {
    hide CutOff, Fingerprint;
    j := StreakBegan(cfg, calls[..k]);
    assert forall i | j <= i < k :: calls[i] == calls[..k][i];
    assert Inert(calls[..k], Fingerprint(calls[k].newest), j, k);
  }

  /** A stall is declared only on evidence: at least two consecutive calls, and as many as the setting asks, saw one
      and the same assistant's message, neither completed nor failed, without text or a tool in flight and grown in
      neither parts nor size, over at least the dwell time; and at the declaring call the newest user message was
      not a compaction. */
  lemma DeclaredOnEvidence(cfg: Settings, calls: seq<Call>, k: nat) returns (j: nat)
    requires k < |calls| && Declared(OutcomeAt(cfg, calls, k))
    ensures j < k && StoodStill(calls, j, k + 1)
    ensures calls[k].now - calls[j].now >= cfg.after && k + 1 - j >= cfg.minPolls && calls[k].compaction.None?
  {
    hide OutcomeAt, CutOff, Fingerprint;
    j := PrintedOnEvidence(cfg, calls, k);
    assert StallShape(calls[j].newest) == Some(Fingerprint(calls[k].newest));
    InertMeans(calls, j, k + 1);
  }

  lemma {:induction false} FiredStays(cfg: Settings, calls: seq<Call>, j: nat, k: nat)
    requires j < k <= |calls| && Declared(OutcomeAt(cfg, calls, j))
    requires StallShape(calls[j].newest).Some? && Inert(calls, StallShape(calls[j].newest).value, j, k)
    ensures var s := After(cfg, calls[..k]).streak;
      s.Some? && s.value.fired && s.value.fp == StallShape(calls[j].newest).value
  {
    hide StallShape;
    AfterStep(cfg, calls, k - 1);
    if k - 1 == j {
    } else {
      FiredStays(cfg, calls, j, k - 1);
    }
  }

  /** One turn is declared stalled at most once: between two declarations the newest message was another one, or grew,
      or looked alive. */
  lemma DeclaredOncePerTurn(cfg: Settings, calls: seq<Call>, j: nat, k: nat)
    requires j < k < |calls| && Declared(OutcomeAt(cfg, calls, j)) && Declared(OutcomeAt(cfg, calls, k))
    ensures !StoodStill(calls, j, k + 1)
  {
    hide StallShape, CutOff, Fingerprint;
    if StoodStill(calls, j, k + 1) {
      InertMeans(calls, j, k + 1);
      ShapeOf(calls[j].newest);
      ShapeOf(calls[k].newest);
      FiredStays(cfg, calls, j, k);
    }
  }

  lemma ShapeOf(m: Message)
    ensures CutOff(m) ==> StallShape(m) == Some(Fingerprint(m))
  {
  }

  /** Time never runs back, and is never zero. */
  ghost predicate Clock(calls: seq<Call>) {
    && (forall i, j | 0 <= i <= j < |calls| :: calls[i].now <= calls[j].now)
    && forall i | 0 <= i < |calls| :: 0.0 < calls[i].now
  }

  lemma {:induction false} ResumedIsLatest(cfg: Settings, calls: seq<Call>, j: nat)
    requires Clock(calls) && j < |calls| && Attempt(OutcomeAt(cfg, calls, j))
    ensures var r := After(cfg, calls).resumed; r.Some? && calls[j].now <= r.value && r.value > 0.0
  {
    hide StallShape;
    var n := |calls| - 1;
    AfterStep(cfg, calls, n);
    assert calls[..n + 1] == calls;
    if j == n {
    } else {
      assert calls[..n][..j] == calls[..j];
      ResumedIsLatest(cfg, calls[..n], j);
    }
  }

  /** Two resumes of one session are never closer than the re-resume window, however the turns look between
      them and whether or not they arrived. */
  lemma ResumesApart(cfg: Settings, calls: seq<Call>, j: nat, k: nat)
    requires Clock(calls) && j < k < |calls|
    requires Attempt(OutcomeAt(cfg, calls, j)) && Attempt(OutcomeAt(cfg, calls, k))
    ensures calls[k].now - calls[j].now >= cfg.window
  {
    hide StallShape;
    var before := calls[..k];
    assert before[..j] == calls[..j];
    ResumedIsLatest(cfg, before, j);
  }

  /** Call `k` closes enough evidence on a streak that began at call `j`. */
  predicate Ripe(cfg: Settings, calls: seq<Call>, j: nat, k: nat)
    requires j <= k < |calls|
  {
    j < k && k + 1 - j >= cfg.minPolls && calls[k].now - calls[j].now >= cfg.after
  }

  ghost predicate RipeBefore(cfg: Settings, calls: seq<Call>, j: nat, k: nat)
    requires j <= k <= |calls|
  {
    exists i | j <= i < k :: Ripe(cfg, calls, j, i)
  }

  /** A new streak at call `j`, the same turn ever since, and no compaction. */
  ghost predicate PlainStreak(cfg: Settings, calls: seq<Call>, j: nat) {
    && j < |calls| && StoodStill(calls, j, |calls|)
    && OutcomeAt(cfg, calls, j) == Began
    && forall i | j <= i < |calls| :: calls[i].compaction.None?
  }

  ghost predicate PrintStreak(cfg: Settings, calls: seq<Call>, fp: string, j: nat) {
    && j < |calls| && Inert(calls, fp, j, |calls|) && OutcomeAt(cfg, calls, j) == Began
    && forall i | j <= i < |calls| :: calls[i].compaction.None?
  }

  lemma {:induction false} StreakRuns(cfg: Settings, calls: seq<Call>, fp: string, j: nat)
    requires PrintStreak(cfg, calls, fp, j)
    ensures var s := After(cfg, calls).streak;
      && s.Some? && s.value.fp == fp && s.value.since == calls[j].now && s.value.polls == |calls| - j
      && (s.value.fired <==> RipeBefore(cfg, calls, j, |calls|))
  {
    hide StallShape, Recent;
    var n := |calls| - 1;
    AfterStep(cfg, calls, n);
    assert calls[..n + 1] == calls;
    if j == n {
    } else {
      var before := calls[..n];
      assert before[..j] == calls[..j];
      assert forall i | 0 <= i < n :: before[i] == calls[i];
      StreakRuns(cfg, before, fp, j);
      assert forall i | j <= i < n :: Ripe(cfg, before, j, i) <==> Ripe(cfg, calls, j, i);
      assert RipeBefore(cfg, before, j, n) <==> RipeBefore(cfg, calls, j, n);
      assert RipeBefore(cfg, calls, j, n + 1) <==> RipeBefore(cfg, calls, j, n) || Ripe(cfg, calls, j, n);
    }
  }

  lemma RunsToCall(cfg: Settings, calls: seq<Call>, fp: string, j: nat, k: nat)
    requires j < k < |calls| && PrintStreak(cfg, calls, fp, j)
    ensures Declared(OutcomeAt(cfg, calls, k)) <==> Ripe(cfg, calls, j, k) && !RipeBefore(cfg, calls, j, k)
  {
    hide StallShape, Recent;
    var before := calls[..k];
    assert before[..j] == calls[..j];
    assert forall i | 0 <= i < k :: before[i] == calls[i];
    StreakRuns(cfg, before, fp, j);
    assert forall i | j <= i < k :: Ripe(cfg, before, j, i) <==> Ripe(cfg, calls, j, i);
  }

  /** No stall is missed: while one cut-off turn stands still and no compaction is in progress, call `k` declares the
      stall if and only if it is the first to close enough evidence. */
  lemma DeclaredExactly(cfg: Settings, calls: seq<Call>, j: nat, k: nat)
    requires j < k < |calls| && PlainStreak(cfg, calls, j)
    ensures Declared(OutcomeAt(cfg, calls, k)) <==> Ripe(cfg, calls, j, k) && !RipeBefore(cfg, calls, j, k)
  {
    hide StallShape, Fingerprint, CutOff, OutcomeAt, StoodStill, Inert;
    InertMeans(calls, j, |calls|);
    RunsToCall(cfg, calls, Fingerprint(calls[j].newest), j, k);
  }

  lemma StreakIsLast(cfg: Settings, calls: seq<Call>)
    requires calls != []
    ensures var n := |calls| - 1; var s := After(cfg, calls).streak;
      if CutOff(calls[n].newest) && !OutcomeAt(cfg, calls, n).Compacting?
      then s.Some? && s.value.fp == Fingerprint(calls[n].newest) else s.None?
  {
    hide CutOff, Fingerprint, Recent;
  }

  /** A call finds the session alive exactly if its newest message does not look cut off; and it begins to watch a turn
      exactly if that looks cut off and is not the one of the call before, or a compaction excused it there. */
  lemma BeganExactly(cfg: Settings, calls: seq<Call>, k: nat)
    requires k < |calls|
    ensures OutcomeAt(cfg, calls, k) == Alive <==> !CutOff(calls[k].newest)
    ensures OutcomeAt(cfg, calls, k) == Began <==>
      && CutOff(calls[k].newest)
      && (k > 0 && StoodStill(calls, k - 1, k + 1) ==> OutcomeAt(cfg, calls, k - 1).Compacting?)
  {
    hide CutOff, Fingerprint, Recent, SameTurn;
    if k > 0 {
      var before := calls[..k];
      assert before[..k - 1] == calls[..k - 1];
      StreakIsLast(cfg, before);
      InertMeans(calls, k - 1, k + 1);
      SameFingerprint(calls[k].newest, calls[k - 1].newest);
      SameMeans(calls[k].newest, calls[k - 1].newest);
    }
  }

  // ---- what a declaration does --------------------------------------------------------------

  lemma {:induction false} ResumedWasTried(cfg: Settings, calls: seq<Call>) returns (j: nat)
    requires After(cfg, calls).resumed.Some?
    ensures j < |calls| && Attempt(OutcomeAt(cfg, calls, j)) && After(cfg, calls).resumed == Some(calls[j].now)
  {
    hide StallShape, Recent;
    var n := |calls| - 1;
    AfterStep(cfg, calls, n);
    assert calls[..n + 1] == calls;
    if Attempt(OutcomeAt(cfg, calls, n)) {
      j := n;
    } else {
      j := ResumedWasTried(cfg, calls[..n]);
      assert calls[..n][..j] == calls[..j];
    }
  }

  lemma DeclaredDoes(cfg: Settings, calls: seq<Call>, k: nat)
    requires k < |calls| && Declared(OutcomeAt(cfg, calls, k))
    ensures OutcomeAt(cfg, calls, k) ==
      if Recent(After(cfg, calls[..k]).resumed, calls[k].now, cfg.window) then Blocked
      else if calls[k].delivered then Resumed else PostFailed
  {
    hide StallShape, Recent;
  }

  /** A resume was tried less than the re-resume window before call `k`. */
  ghost predicate TriedLately(cfg: Settings, calls: seq<Call>, k: nat)
    requires k < |calls|
  {
    exists j | 0 <= j < k :: Attempt(OutcomeAt(cfg, calls, j)) && calls[k].now - calls[j].now < cfg.window
  }

  /** Every declared stall is resumed, and handed to a person instead if and only if a resume was tried within the
      window before it; the resume fails only with its post. */
  lemma ResumedExactly(cfg: Settings, calls: seq<Call>, k: nat)
    requires Clock(calls) && k < |calls| && Declared(OutcomeAt(cfg, calls, k))
    ensures OutcomeAt(cfg, calls, k) ==
      if TriedLately(cfg, calls, k) then Blocked else if calls[k].delivered then Resumed else PostFailed
  {
    hide OutcomeAt, Attempt, StallShape;
    var before := calls[..k];
    DeclaredDoes(cfg, calls, k);
    if TriedLately(cfg, calls, k) {
      var j :| 0 <= j < k && Attempt(OutcomeAt(cfg, calls, j)) && calls[k].now - calls[j].now < cfg.window;
      SameOutcome(cfg, calls, j, k);
      ResumedIsLatest(cfg, before, j);
    }
    if After(cfg, before).resumed.Some? {
      var j := ResumedWasTried(cfg, before);
      SameOutcome(cfg, calls, j, k);
    }
  }

  lemma SameOutcome(cfg: Settings, calls: seq<Call>, j: nat, k: nat)
    requires j < k <= |calls|
    ensures OutcomeAt(cfg, calls[..k], j) == OutcomeAt(cfg, calls, j) && calls[..k][j] == calls[j]
  {
    assert calls[..k][..j] == calls[..j];
  }

  /** The compaction announced last, unless the session looked alive since. */
  function LastAnnounced(calls: seq<Call>, outcomes: seq<Outcome>): Option<string>
    requires |calls| == |outcomes|
  {
    if calls == [] then None
    else
      var n := |calls| - 1;
      if outcomes[n] == Alive then None
      else if outcomes[n].Compacting? then calls[n].compaction
      else LastAnnounced(calls[..n], outcomes[..n])
  }

  function Outcomes(cfg: Settings, calls: seq<Call>): (r: seq<Outcome>)
    ensures |r| == |calls|
  {
    if calls == [] then [] else Outcomes(cfg, calls[..|calls| - 1]) + [OutcomeAt(cfg, calls, |calls| - 1)]
  }

  lemma {:induction false} AnnouncedIsKept(cfg: Settings, calls: seq<Call>)
    ensures After(cfg, calls).compacting == LastAnnounced(calls, Outcomes(cfg, calls))
  {
    hide StallShape, Recent;
    if calls == [] {
    } else {
      var n := |calls| - 1;
      AnnouncedIsKept(cfg, calls[..n]);
      assert Outcomes(cfg, calls)[..n] == Outcomes(cfg, calls[..n]);
    }
  }

  /** A turn that stood still from call `j` on without a compaction, until call `k` closes enough evidence and finds
      one: no stall is declared, and the compaction is announced unless it is the one announced last. */
  lemma CompactionExcuses(cfg: Settings, calls: seq<Call>, j: nat, k: nat)
    requires j < k == |calls| - 1 && PlainStreak(cfg, calls[..k], j) && StoodStill(calls, j, k + 1)
    requires Ripe(cfg, calls, j, k) && !RipeBefore(cfg, calls, j, k) && calls[k].compaction.Some?
    ensures OutcomeAt(cfg, calls, k)
      == Compacting(calls[k].compaction != LastAnnounced(calls[..k], Outcomes(cfg, calls[..k])))
  {
    hide StallShape, Fingerprint, CutOff, Recent, LastAnnounced, Outcomes;
    var before, fp := calls[..k], Fingerprint(calls[j].newest);
    InertMeans(before, j, k);
    InertMeans(calls, j, k + 1);
    assert before[..j] == calls[..j];
    StreakRuns(cfg, before, fp, j);
    assert forall i | j <= i < k :: Ripe(cfg, before, j, i) <==> Ripe(cfg, calls, j, i);
    AnnouncedIsKept(cfg, before);
  }
}
