/** What the owner tokens of mergegate.py's two locks say to `portal_pid_alive` and `break_dead_box_lock`, and so
    which dead holders either lock can be freed of. */
module LockTokens {
  import opened PyText
  import opened BoxLock

  function Digits(s: string): (n: nat)
    ensures n <= |s|
  {
    if s != "" && '0' <= s[0] <= '9' then 1 + Digits(s[1..]) else 0
  }

  /** `pid=(\d+)`: the digits behind the first such place. */
  function PidIn(s: string): Option<string> {
    if s == "" then None
    else if At(s, 0, "pid=") && Digits(s[4..]) > 0 then Some(s[4..][..Digits(s[4..])])
    else PidIn(s[1..])
  }

  function GateToken(item: string, pid: nat, t: nat): string {
    "gate" + ("-" + (item + ("-" + (Decimal(pid) + ("-" + Decimal(t))))))
  }

  function PortalToken(item: string, pid: nat, t: nat): string {
    "portal" + ("-" + (item + ("-" + (("pid=" + Decimal(pid)) + ("-" + Decimal(t))))))
  }

  lemma {:induction false} DigitsStop(a: string, b: string)
    ensures Digits(a + ("-" + b)) == Digits(a)
  {
    if a == "" {
    } else {
      assert (a + ("-" + b))[1..] == a[1..] + ("-" + b);
      DigitsStop(a[1..], b);
    }
  }

  lemma PidBeforeDash(a: string, b: string)
    requires a != ""
    ensures var s := a + ("-" + b);
      && (At(s, 0, "pid=") <==> At(a, 0, "pid="))
      && (At(a, 0, "pid=") ==> Digits(s[4..]) == Digits(a[4..]) && s[4..][..Digits(a[4..])] == a[4..][..Digits(a[4..])])
  {
    var s := a + ("-" + b);
    if |a| < 4 {
      assert s[|a|] == '-';
      NotAt(s, 0, "pid=", |a|);
    } else {
      assert s[0..4] == a[0..4];
      assert s[4..] == a[4..] + ("-" + b);
      DigitsStop(a[4..], b);
    }
  }

  /** A dash is no part of what is looked for, so the two sides of one are searched apart, the left one first. */
  lemma {:induction false} PidSplit(a: string, b: string)
    ensures PidIn(a + ("-" + b)) == if PidIn(a).Some? then PidIn(a) else PidIn(b)
  {
    hide Digits;
    var s := a + ("-" + b);
    if a == "" {
      NotAt(s, 0, "pid=", 0);
      assert s[1..] == b;
    } else {
      PidBeforeDash(a, b);
      assert s[1..] == a[1..] + ("-" + b);
      PidSplit(a[1..], b);
    }
  }

  lemma {:induction false} AllDigits(s: string)
    requires forall k | 0 <= k < |s| :: '0' <= s[k] <= '9'
    ensures Digits(s) == |s|
  {
    if s == "" {
    } else {
      AllDigits(s[1..]);
    }
  }

  lemma {:induction false} NoEqualsNoPid(s: string)
    requires forall k | 0 <= k < |s| :: s[k] != '='
    ensures PidIn(s) == None
  {
    if s == "" {
    } else {
      NotAt(s, 0, "pid=", 3);
      NoEqualsNoPid(s[1..]);
    }
  }

  lemma NumberNamesNone(n: nat)
    ensures PidIn(Decimal(n)) == None && Digits(Decimal(n)) == |Decimal(n)|
  {
    hide PidIn, Digits, Decimal;
    var s := Decimal(n);
    assert forall k | 0 <= k < |s| :: s[k] in s;
    AllDigits(s);
    NoEqualsNoPid(s);
  }

  /** A gate's box token names a pid exactly if its item does, and then that one and not its own. */
  lemma GateTokenNames(item: string, pid: nat, t: nat)
    ensures PidIn(GateToken(item, pid, t)) == PidIn(item)
  {
    hide PidIn, Decimal;
    NoEqualsNoPid("gate");
    NumberNamesNone(pid);
    NumberNamesNone(t);
    PidSplit(Decimal(pid), Decimal(t));
    PidSplit(item, Decimal(pid) + ("-" + Decimal(t)));
    PidSplit("gate", item + ("-" + (Decimal(pid) + ("-" + Decimal(t)))));
  }

  lemma PidItself(pid: nat)
    ensures PidIn("pid=" + Decimal(pid)) == Some(Decimal(pid))
  {
    hide Decimal;
    var s := "pid=" + Decimal(pid);
    NumberNamesNone(pid);
    AtFront("pid=", Decimal(pid));
    assert s[4..] == Decimal(pid);
    assert Decimal(pid)[..|Decimal(pid)|] == Decimal(pid);
  }

  /** A portal token always names a pid: its gate's own, if and only if its item names no other. */
  lemma PortalTokenNames(item: string, pid: nat, t: nat)
    ensures var named := PidIn(PortalToken(item, pid, t));
      && named == (if PidIn(item).Some? then PidIn(item) else Some(Decimal(pid)))
      && (named == Some(Decimal(pid)) <==> PidIn(item) == None || PidIn(item) == Some(Decimal(pid)))
  {
    hide PidIn, Decimal;
    NoEqualsNoPid("portal");
    PidItself(pid);
    PidSplit("pid=" + Decimal(pid), Decimal(t));
    PidSplit(item, ("pid=" + Decimal(pid)) + ("-" + Decimal(t)));
    PidSplit("portal", item + ("-" + (("pid=" + Decimal(pid)) + ("-" + Decimal(t)))));
  }

  /** What each process works on, and when it started. */
  datatype Job = Job(item: string, t: nat)

  /** The processes whose box token names a pid. */
  function BoxNamed(jobs: map<Pid, Job>): set<Pid> {
    set p | p in jobs && PidIn(GateToken(jobs[p].item, p, jobs[p].t)).Some?
  }

  function PortalNamed(jobs: map<Pid, Job>): set<Pid> {
    set p | p in jobs && PidIn(PortalToken(jobs[p].item, p, jobs[p].t)).Some?
  }

  lemma WhoIsNamed(jobs: map<Pid, Job>)
    ensures BoxNamed(jobs) == set p | p in jobs && PidIn(jobs[p].item).Some?
    ensures PortalNamed(jobs) == jobs.Keys
  {
    hide PidIn, GateToken, PortalToken;
    forall p | p in jobs
      ensures PidIn(GateToken(jobs[p].item, p, jobs[p].t)) == PidIn(jobs[p].item)
      ensures PidIn(PortalToken(jobs[p].item, p, jobs[p].t)).Some?
    {
      GateTokenNames(jobs[p].item, p, jobs[p].t);
      PortalTokenNames(jobs[p].item, p, jobs[p].t);
    }
  }

  /** While no item's name holds a pid, a gate that dies anywhere between its mkdir and its rmdir keeps the box lock
      for good: through every later run no mkdir succeeds. */
  lemma DeadGateKeepsBox(w: World, acts: seq<Action>, later: seq<Action>, jobs: map<Pid, Job>)
    requires Initial(w) && w.procs.Keys <= jobs.Keys && forall p | p in jobs :: PidIn(jobs[p].item) == None
    requires ValidRun(w, acts, BoxNamed(jobs))
    requires var v := After(w, acts, BoxNamed(jobs));
      && v.claim.Some? && v.claim.value in v.procs && !v.procs[v.claim.value].alive
      && ValidRun(v, later, BoxNamed(jobs))
    ensures After(After(w, acts, BoxNamed(jobs)), later, BoxNamed(jobs)).dir
  {
    hide PidIn, GateToken;
    var named := BoxNamed(jobs);
    WhoIsNamed(jobs);
    assert named == {};
    NoneNamedNoneRemoved(w, acts);
    RunKeepsInv(w, acts, named);
    SuspectsStayNamed(w, acts, named);
    NoneNamedNoneRemoved(After(w, acts, named), later);
    WedgedForever(After(w, acts, named), later, named);
  }
}
