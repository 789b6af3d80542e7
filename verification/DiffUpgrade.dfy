/** The second half of gatereview2.py's packer: swapping hunks for whole files, cheapest first,
    and `pack_diff` as a whole. */
module DiffUpgrade {
  import opened PyText
  import opened DiffPack

  /** `whole_file`: None where the source returns nothing or raises. */
  type WholeFile = string -> Option<string>

  /** One upgrade on offer: what it costs, where it goes and what it puts there. */
  datatype Cand = Cand(extra: int, slot: nat, path: string, block: string)

  function RStripNewlines(s: string): string {
    if s != [] && s[|s| - 1] == '\n' then RStripNewlines(s[..|s| - 1]) else s
  }

  /** A whole file between a header that says it is not a diff and a footer that closes it. */
  function FullBlock(path: string, body: string): string {
    "===== FULL FILE (not a diff): " + path + " \U{2014} " + Decimal(|body|) + " bytes at the candidate sha =====\n"
    + RStripNewlines(body) + "\n" + "===== end of " + path + " =====\n"
  }

  lemma {:induction false} OnlyNewlinesGo(s: string)
    ensures RStripNewlines(s) <= s
    ensures forall k | |RStripNewlines(s)| <= k < |s| :: s[k] == '\n'
  {
    if s == [] || s[|s| - 1] != '\n' {
    } else {
      OnlyNewlinesGo(s[..|s| - 1]);
    }
  }

  /** A whole file shows its body, less newlines at the end, on lines of its own between a header and a footer that
      both name it; so what follows it starts a new line. */
  lemma BlockEncloses(path: string, body: string)
    ensures var front := "===== FULL FILE (not a diff): " + path + " \U{2014} " + Decimal(|body|)
      + " bytes at the candidate sha =====\n";
      var shown := RStripNewlines(body); var block := FullBlock(path, body);
      && At(block, 0, front) && At(block, |front|, shown + "\n")
      && At(block, |front| + |shown| + 1, "===== end of " + path + " =====\n")
      && |block| == |front| + |shown| + 1 + |"===== end of " + path + " =====\n"|
      && shown <= body && forall k | |shown| <= k < |body| :: body[k] == '\n'
  {
    hide Decimal, RStripNewlines;
    var front := "===== FULL FILE (not a diff): " + path + " \U{2014} " + Decimal(|body|)
      + " bytes at the candidate sha =====\n";
    var shown, foot := RStripNewlines(body), "===== end of " + path + " =====\n";
    OnlyNewlinesGo(body);
    ThreeParts(front, shown + "\n", foot);
    assert FullBlock(path, body) == front + (shown + "\n") + foot;
  }

  lemma ThreeParts(a: string, b: string, c: string)
    ensures var s := a + b + c; At(s, 0, a) && At(s, |a|, b) && At(s, |a| + |b|, c)
  {
    var s := a + b + c;
    assert s[0..|a|] == a && s[|a|..|a| + |b|] == b && s[|a| + |b|..|a| + |b| + |c|] == c;
  }

  /** `by_path`: the first packed slot whose stanza has this path. */
  function SlotOf(ss: seq<Stanza>, slots: seq<nat>, path: string): (r: Option<nat>)
    requires InRange(slots, |ss|)
    ensures r.Some? ==> r.value in slots && ss[r.value].path == path
    ensures r.None? ==> forall k | 0 <= k < |slots| :: ss[slots[k]].path != path
  {
    if slots == [] then None
    else if ss[slots[0]].path == path then Some(slots[0])
    else SlotOf(ss, slots[1..], path)
  }

  /** The paths that were head-truncated. */
  predicate Truncated(ds: seq<Drop>, path: string) {
    exists k | 0 <= k < |ds| :: ds[k].tail && ds[k].path == path
  }

  /** The candidate a kept row gives rise to, if any. */
  function CandOf(ss: seq<Stanza>, st: Pack, e: Entry, whole: WholeFile): (r: Option<Cand>)
    requires InRange(st.slots, |ss|)
    ensures r.Some? ==>
      && r.value.path == e.path && r.value.slot in st.slots && ss[r.value.slot].path == e.path
      && Rank(e.path) == 0 && !Truncated(st.dropped, e.path)
      && whole(e.path).Some? && r.value.block == FullBlock(e.path, whole(e.path).value)
      && r.value.extra == |r.value.block| - |Shown(st.packed, r.value.slot)|
  {
    if Rank(e.path) != 0 || Truncated(st.dropped, e.path) then None
    else
      match whole(e.path)
      case None => None
      case Some(body) =>
        if body == [] then None
        else
          match SlotOf(ss, st.slots, e.path)
          case None => None
          case Some(slot) =>
            var block := FullBlock(e.path, body);
            Some(Cand(|block| - |Shown(st.packed, slot)|, slot, e.path, block))
  }

  function Cands(ss: seq<Stanza>, st: Pack, k: nat, whole: WholeFile): (cs: seq<Cand>)
    requires InRange(st.slots, |ss|) && k <= |st.kept|
    ensures |cs| <= k
  {
    if k == 0 then []
    else
      Cands(ss, st, k - 1, whole) +
      match CandOf(ss, st, st.kept[k - 1], whole) case None => [] case Some(c) => [c]
  }

  // ---- sorted(cands) ------------------------------------------------------------------------

  /** The order of the source's tuples. Its last two components are decided by the slot. */
  predicate Leq(a: Cand, b: Cand) {
    a.extra < b.extra || (a.extra == b.extra && a.slot <= b.slot)
  }

  predicate SortedCands(cs: seq<Cand>) {
    forall i, j | 0 <= i < j < |cs| :: Leq(cs[i], cs[j])
  }

  function Insert(c: Cand, cs: seq<Cand>): seq<Cand> {
    if cs == [] || Leq(c, cs[0]) then [c] + cs else [cs[0]] + Insert(c, cs[1..])
  }

  function SortCands(cs: seq<Cand>): seq<Cand> {
    if cs == [] then [] else Insert(cs[0], SortCands(cs[1..]))
  }

  lemma {:induction false} InsertSorts(c: Cand, cs: seq<Cand>)
    requires SortedCands(cs)
    ensures SortedCands(Insert(c, cs)) && multiset(Insert(c, cs)) == multiset(cs) + multiset{c}
  {
    if cs == [] || Leq(c, cs[0]) {
    } else {
      InsertSorts(c, cs[1..]);
      var rest := Insert(c, cs[1..]);
      assert cs == [cs[0]] + cs[1..];
      forall j | 0 <= j < |rest| ensures Leq(cs[0], rest[j]) {
        assert rest[j] in multiset(rest);
        assert rest[j] in multiset(cs[1..]) + multiset{c};
      }
    }
  }

  lemma {:induction false} SortCandsSorts(cs: seq<Cand>)
    ensures SortedCands(SortCands(cs)) && multiset(SortCands(cs)) == multiset(cs)
  {
    if cs == [] {
    } else {
      SortCandsSorts(cs[1..]);
      InsertSorts(cs[0], SortCands(cs[1..]));
      assert cs == [cs[0]] + cs[1..];
    }
  }

  // ---- the upgrade loop ---------------------------------------------------------------------

  datatype Upgrade = Upgrade(packed: map<nat, string>, used: int, taken: seq<Cand>)

  function UpgradeStep(u: Upgrade, c: Cand, budget: nat): Upgrade {
    if u.used + c.extra <= budget
    then Upgrade(u.packed[c.slot := c.block], u.used + c.extra, u.taken + [c])
    else u
  }

  /** The loop after its first `k` candidates. */
  function UpgradeUpTo(start: Upgrade, cs: seq<Cand>, k: nat, budget: nat): Upgrade
    requires k <= |cs|
  {
    if k == 0 then start else UpgradeStep(UpgradeUpTo(start, cs, k - 1, budget), cs[k - 1], budget)
  }

  function Spend(cs: seq<Cand>): int {
    if cs == [] then 0 else Spend(cs[..|cs| - 1]) + cs[|cs| - 1].extra
  }

  lemma SpendAppend(cs: seq<Cand>, c: Cand)
    ensures Spend(cs + [c]) == Spend(cs) + c.extra
  {
  }

  lemma {:induction false} SpendConcat(a: seq<Cand>, b: seq<Cand>)
    ensures Spend(a + b) == Spend(a) + Spend(b)
  {
    if b == [] {
      assert a + b == a;
    } else {
      SpendConcat(a, b[..|b| - 1]);
      assert (a + b)[..|a + b| - 1] == a + b[..|b| - 1];
    }
  }

  /** On sorted candidates the loop takes a prefix, and stops taking only where the next one no
      longer fits. */
  lemma {:induction false} TakesPrefix(start: Upgrade, cs: seq<Cand>, k: nat, budget: nat)
    requires k <= |cs| && SortedCands(cs) && start.used <= budget && start.taken == []
    ensures var u := UpgradeUpTo(start, cs, k, budget); var m := |u.taken|;
      && m <= k && u.taken == cs[..m] && u.used == start.used + Spend(cs[..m]) <= budget
      && (m < k ==> u.used + cs[m].extra > budget)
  {
    if k > 0 {
      hide Spend, Leq, SortedCands, SortCands;
      TakesPrefix(start, cs, k - 1, budget);
      var m := |UpgradeUpTo(start, cs, k - 1, budget).taken|;
      SortedExtras(cs, m, k - 1);
      if m == k - 1 {
        SpendAppend(cs[..m], cs[m]);
        assert cs[..m] + [cs[m]] == cs[..k];
      }
    } else {
      assert cs[..0] == [];
    }
  }

  lemma TakeOut(t: seq<Cand>, c: Cand) returns (rest: seq<Cand>)
    requires c in t
    ensures multiset(t) == multiset(rest) + multiset{c}
    ensures |t| == |rest| + 1 && Spend(t) == Spend(rest) + c.extra
  {
    var j :| 0 <= j < |t| && t[j] == c;
    rest := t[..j] + t[j + 1..];
    assert t == (t[..j] + [c]) + t[j + 1..];
    SpendAppend(t[..j], c);
    SpendConcat(t[..j] + [c], t[j + 1..]);
    SpendConcat(t[..j], t[j + 1..]);
  }

  lemma WithoutLast(cs: seq<Cand>, t: seq<Cand>)
    requires cs != [] && multiset(t) <= multiset(cs) && cs[|cs| - 1] !in t
    ensures multiset(t) <= multiset(cs[..|cs| - 1])
  {
    var n := |cs| - 1;
    assert cs == cs[..n] + [cs[n]];
    forall x | x in multiset(t) ensures multiset(t)[x] <= multiset(cs[..n])[x] {
      assert x != cs[n];
    }
  }

  lemma WithoutShared(cs: seq<Cand>, t: seq<Cand>, rest: seq<Cand>)
    requires cs != [] && multiset(t) <= multiset(cs) && multiset(t) == multiset(rest) + multiset{cs[|cs| - 1]}
    ensures multiset(rest) <= multiset(cs[..|cs| - 1])
  {
    var n := |cs| - 1;
    assert cs == cs[..n] + [cs[n]];
    forall x | x in multiset(rest) ensures multiset(rest)[x] <= multiset(cs[..n])[x] {
      assert multiset(t)[x] <= multiset(cs)[x];
    }
  }

  lemma AddDearest(cs: seq<Cand>, k: nat)
    requires SortedCands(cs) && k < |cs|
    ensures cs[..|cs| - 1][..k] == cs[..k]
    ensures Spend(cs[..k + 1]) <= Spend(cs[..k]) + cs[|cs| - 1].extra
  {
    SpendAppend(cs[..k], cs[k]);
    assert cs[..k] + [cs[k]] == cs[..k + 1];
    SortedExtras(cs, k, |cs| - 1);
  }

  /** Exchange argument: no selection of `|t|` candidates is cheaper than the `|t|` cheapest. */
  lemma {:induction false} CheapestFirst(cs: seq<Cand>, t: seq<Cand>)
    requires SortedCands(cs) && multiset(t) <= multiset(cs)
    ensures |t| <= |cs| && Spend(cs[..|t|]) <= Spend(t)
  {
    hide Leq, SortedCands, Spend;
    if t == [] {
      assert cs[..0] == t;
    } else {
      assert t[0] in multiset(cs);
      assert t[0] in cs;
      var n := |cs| - 1;
      SortedPrefix(cs, n);
      if cs[n] in t {
        var rest := TakeOut(t, cs[n]);
        WithoutShared(cs, t, rest);
        CheapestFirst(cs[..n], rest);
        AddDearest(cs, |rest|);
      } else {
        WithoutLast(cs, t);
        CheapestFirst(cs[..n], t);
        assert cs[..n][..|t|] == cs[..|t|];
      }
    }
  }

  lemma SortedPrefix(cs: seq<Cand>, n: nat)
    requires n <= |cs| && SortedCands(cs)
    ensures SortedCands(cs[..n])
  {
  }

  lemma SortedExtras(cs: seq<Cand>, i: nat, j: nat)
    requires i <= j < |cs| && SortedCands(cs)
    ensures cs[i].extra <= cs[j].extra
  {
  }

  lemma {:induction false} PastTheFirstMisfit(cs: seq<Cand>, m: nat, n: nat)
    requires SortedCands(cs) && m < n <= |cs| && cs[m].extra > 0
    ensures Spend(cs[..m]) + cs[m].extra <= Spend(cs[..n])
  {
    SpendAppend(cs[..n - 1], cs[n - 1]);
    assert cs[..n - 1] + [cs[n - 1]] == cs[..n];
    if m == n - 1 {
    } else {
      PastTheFirstMisfit(cs, m, n - 1);
      SortedExtras(cs, m, n - 1);
    }
  }

  /** Greedy optimality: among all selections of candidates the budget can pay for, cheap negative
      ones included, none holds more files than the loop upgrades. */
  lemma UpgradeBuysMost(start: Upgrade, cands: seq<Cand>, t: seq<Cand>, budget: nat)
    requires start.used <= budget && start.taken == []
    requires multiset(t) <= multiset(cands) && start.used + Spend(t) <= budget
    ensures |t| <= |UpgradeUpTo(start, SortCands(cands), |SortCands(cands)|, budget).taken|
  {
    hide UpgradeUpTo, SortCands, SortedCands, Spend;
    var cs := SortCands(cands);
    SortCandsSorts(cands);
    TakesPrefix(start, cs, |cs|, budget);
    CheapestFirst(cs, t);
    var m := |UpgradeUpTo(start, cs, |cs|, budget).taken|;
    if m < |t| {
      PastTheFirstMisfit(cs, m, |t|);
    }
  }

  // ---- what an upgrade does to what is packed -----------------------------------------------

  predicate SlotTaken(cs: seq<Cand>, slot: nat) {
    exists k | 0 <= k < |cs| :: cs[k].slot == slot
  }

  /** The part of the spending that bought nothing: a slot paid for a second time. */
  function Repaid(cs: seq<Cand>): int {
    if cs == [] then 0
    else
      var c, before := cs[|cs| - 1], cs[..|cs| - 1];
      Repaid(before) + if SlotTaken(before, c.slot) then c.extra else 0
  }

  /** Each candidate is priced against the stanza it replaces, and one slot has one block. */
  ghost predicate Priced(packed: map<nat, string>, cs: seq<Cand>) {
    && (forall k | 0 <= k < |cs| :: cs[k].slot in packed && cs[k].extra == |cs[k].block| - |packed[cs[k].slot]|)
    && (forall j, k | 0 <= j < |cs| && 0 <= k < |cs| && cs[j].slot == cs[k].slot :: cs[j].block == cs[k].block)
  }

  /** What every slot shows after the loop took `cs`: its block if it was taken, else its hunk. */
  ghost predicate Swapped(before: map<nat, string>, after: map<nat, string>, cs: seq<Cand>) {
    && after.Keys == before.Keys
    && (forall k | 0 <= k < |cs| :: cs[k].slot in after && after[cs[k].slot] == cs[k].block)
    && (forall i | i in before && !SlotTaken(cs, i) :: after[i] == before[i])
  }

  lemma SwapOne(before: map<nat, string>, after: map<nat, string>, cs: seq<Cand>, c: Cand)
    requires Swapped(before, after, cs) && c.slot in before
    requires forall k | 0 <= k < |cs| && cs[k].slot == c.slot :: cs[k].block == c.block
    ensures Swapped(before, after[c.slot := c.block], cs + [c])
    ensures SlotTaken(cs, c.slot) ==> after[c.slot] == c.block
    ensures !SlotTaken(cs, c.slot) ==> after[c.slot] == before[c.slot]
  {
    var more := cs + [c];
    assert more[|cs|] == c;
    assert forall k | 0 <= k < |cs| :: more[k] == cs[k];
    forall i | i in before && !SlotTaken(more, i) ensures !SlotTaken(cs, i) && i != c.slot {
      assert more[|cs|].slot != i;
      forall k | 0 <= k < |cs| ensures cs[k].slot != i {
        assert more[k].slot != i;
      }
    }
  }

  ghost predicate Ledger(start: Upgrade, u: Upgrade, n: nat) {
    && Swapped(start.packed, u.packed, u.taken)
    && u.used == start.used + Spend(u.taken)
    && |Emit(u.packed, 0, n)| == |Emit(start.packed, 0, n)| + Spend(u.taken) - Repaid(u.taken)
  }

  lemma StepKeepsLedger(start: Upgrade, u: Upgrade, c: Cand, n: nat)
    requires Ledger(start, u, n) && c.slot < n
    requires c.slot in start.packed && c.extra == |c.block| - |start.packed[c.slot]|
    requires forall k | 0 <= k < |u.taken| && u.taken[k].slot == c.slot :: u.taken[k].block == c.block
    ensures Ledger(start, Upgrade(u.packed[c.slot := c.block], u.used + c.extra, u.taken + [c]), n)
  {
    hide Emit, Spend;
    SwapOne(start.packed, u.packed, u.taken, c);
    SpendAppend(u.taken, c);
    assert (u.taken + [c])[..|u.taken|] == u.taken;
    EmitAfterStore(u.packed, 0, n, c.slot, c.block);
  }

  /** Everything the loop does, for any candidates and any budget: it keeps the set of packed stanzas,
      shows a block in each slot it took and the old hunk in each it did not, and the emitted text grows
      by what was spent less what was spent twice. */
  lemma {:induction false} UpgradeAccounts(start: Upgrade, cs: seq<Cand>, k: nat, n: nat, budget: nat)
    requires k <= |cs| && start.taken == [] && Priced(start.packed, cs)
    requires forall i | i in start.packed :: i < n
    ensures var u := UpgradeUpTo(start, cs, k, budget);
      && Ledger(start, u, n)
      && forall j | 0 <= j < |u.taken| :: u.taken[j] in cs[..k]
  {
    if k > 0 {
      hide Ledger;
      UpgradeAccounts(start, cs, k - 1, n, budget);
      var u, c := UpgradeUpTo(start, cs, k - 1, budget), cs[k - 1];
      assert cs[..k] == cs[..k - 1] + [c];
      if u.used + c.extra <= budget {
        forall j | 0 <= j < |u.taken| && u.taken[j].slot == c.slot ensures u.taken[j].block == c.block {
          assert u.taken[j] in cs[..k - 1];
        }
        StepKeepsLedger(start, u, c, n);
      }
    }
  }

  lemma {:induction false} NothingRepaid(cs: seq<Cand>)
    requires forall j, k | 0 <= j < k < |cs| :: cs[j].slot != cs[k].slot
    ensures Repaid(cs) == 0
  {
    if cs == [] {
    } else {
      NothingRepaid(cs[..|cs| - 1]);
    }
  }
}
