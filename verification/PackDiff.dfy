/** `pack_diff` of gatereview2.py from end to end, and the refusal in `review` that depends on it. */
module PackDiff {
  import opened PyText
  import opened DiffPack
  import opened DiffUpgrade

  // ---- the two passes fit together ----------------------------------------------------------

  /** `kept` and the packed slots run in step, and every packed slot is listed once. */
  ghost predicate Aligned(ss: seq<Stanza>, st: Pack) {
    && |st.slots| == |st.kept| && InRange(st.slots, |ss|) && Distinct(st.slots)
    && (forall k | 0 <= k < |st.slots| :: st.slots[k] in st.packed && ss[st.slots[k]].path == st.kept[k].path)
    && (forall i | i in st.packed :: i in st.slots)
  }

  lemma TurnAligns(ss: seq<Stanza>, st: Pack, i: nat, budget: nat)
    requires i < |ss| && st.used <= budget && Aligned(ss, st) && i !in st.packed
    ensures Aligned(ss, PackStep(st, i, ss[i], budget))
  {
  }

  lemma {:induction false} AlignedSoFar(ss: seq<Stanza>, order: seq<nat>, k: nat, budget: nat)
    requires k <= |order| && InRange(order, |ss|) && Distinct(order)
    ensures Aligned(ss, PackUpTo(ss, order, k, budget))
  {
    if k == 0 {
    } else {
      hide PackStep, Aligned;
      AlignedSoFar(ss, order, k - 1, budget);
      PackedSoFar(ss, order, k - 1, budget);
      assert order[k - 1] !in order[..k - 1];
      TurnAligns(ss, PackUpTo(ss, order, k - 1, budget), order[k - 1], budget);
    }
  }

  lemma FirstPassAligned(ss: seq<Stanza>, budget: nat)
    ensures Aligned(ss, FirstPass(ss, budget))
  {
    PackingOrderDistinct(ss);
    AlignedSoFar(ss, PackingOrder(ss), |PackingOrder(ss)|, budget);
  }

  function Upgraded(ss: seq<Stanza>, st: Pack, budget: nat, whole: Option<WholeFile>): Upgrade
    requires InRange(st.slots, |ss|)
  {
    var start := Upgrade(st.packed, st.used, []);
    match whole
    case None => start
    case Some(w) =>
      var cs := SortCands(Cands(ss, st, |st.kept|, w));
      UpgradeUpTo(start, cs, |cs|, budget)
  }

  lemma {:induction false} CandsFromKept(ss: seq<Stanza>, st: Pack, k: nat, w: WholeFile, c: Cand) returns (m: nat)
    requires InRange(st.slots, |ss|) && k <= |st.kept| && c in Cands(ss, st, k, w)
    ensures m < k && CandOf(ss, st, st.kept[m], w) == Some(c)
  {
    hide CandOf;
    if c in Cands(ss, st, k - 1, w) {
      m := CandsFromKept(ss, st, k - 1, w, c);
    } else {
      m := k - 1;
    }
  }

  /** What a candidate is: the whole text of a product file that is packed and was not truncated. */
  lemma CandFacts(ss: seq<Stanza>, st: Pack, w: WholeFile, c: Cand)
    requires Aligned(ss, st) && c in Cands(ss, st, |st.kept|, w)
    ensures c.slot in st.packed && c.slot < |ss| && ss[c.slot].path == c.path
    ensures Rank(c.path) == 0 && !Truncated(st.dropped, c.path)
    ensures w(c.path).Some? && c.block == FullBlock(c.path, w(c.path).value)
    ensures c.extra == |c.block| - |st.packed[c.slot]|
  {
    hide Rank, Truncated, FullBlock;
    var m := CandsFromKept(ss, st, |st.kept|, w, c);
  }

  lemma CandsPriced(ss: seq<Stanza>, st: Pack, w: WholeFile)
    requires Aligned(ss, st)
    ensures Priced(st.packed, SortCands(Cands(ss, st, |st.kept|, w)))
  {
    hide Rank, Truncated, FullBlock, SortCands, Cands;
    var cands := Cands(ss, st, |st.kept|, w);
    var cs := SortCands(cands);
    SortCandsSorts(cands);
    forall k | 0 <= k < |cs|
      ensures cs[k].slot in st.packed && cs[k].extra == |cs[k].block| - |st.packed[cs[k].slot]|
      ensures cs[k].slot < |ss| && cs[k].path == ss[cs[k].slot].path
      ensures w(cs[k].path).Some? && cs[k].block == FullBlock(cs[k].path, w(cs[k].path).value)
    {
      assert cs[k] in multiset(cands);
      CandFacts(ss, st, w, cs[k]);
    }
  }

  // ---- pack_diff ----------------------------------------------------------------------------

  datatype Report = Report(out: string, kept: seq<Entry>, dropped: seq<Drop>, upgraded: seq<Entry>)

  function Names(cs: seq<Cand>): seq<Entry> {
    seq(|cs|, k requires 0 <= k < |cs| => Entry(cs[k].path, |cs[k].block|))
  }

  /** `budget or MAX_DIFF`. */
  function BudgetOr(budget: nat): nat {
    if budget == 0 then MAX_DIFF else budget
  }

  function FinalPack(ss: seq<Stanza>, budget: nat, whole: Option<WholeFile>): Upgrade {
    FirstPassAligned(ss, budget);
    Upgraded(ss, FirstPass(ss, budget), budget, whole)
  }

  function PackReport(text: string, given: nat, whole: Option<WholeFile>): Report {
    var ss, budget := SplitDiff(text), BudgetOr(given);
    if ss == [] then
      Report(text[..if budget <= |text| then budget else |text|], [], [], [])
    else
      var st, u := FirstPass(ss, budget), FinalPack(ss, budget, whole);
      Report(Emit(u.packed, 0, |ss|), st.kept, st.dropped, Names(u.taken))
  }

  /** The book-keeping of both passes together, on every input: the emitted text is `used` long, plus the
      overrun of a truncation marker, less what the upgrades paid for twice. */
  lemma PackAccounts(ss: seq<Stanza>, budget: nat, whole: Option<WholeFile>)
    ensures var st, u := FirstPass(ss, budget), FinalPack(ss, budget, whole);
      && u.used <= budget
      && |Emit(u.packed, 0, |ss|)| == u.used + Slack(st.dropped) - Repaid(u.taken)
      && Swapped(st.packed, u.packed, u.taken)
  {
    hide FirstPass, Emit, Slack, Cands, SortCands, Aligned, Priced;
    var st := FirstPass(ss, budget);
    FirstPassAligned(ss, budget);
    FirstPassLength(ss, budget);
    match whole {
      case None =>
      case Some(w) =>
        var start := Upgrade(st.packed, st.used, []);
        var cands := Cands(ss, st, |st.kept|, w);
        var cs := SortCands(cands);
        CandsPriced(ss, st, w);
        SortCandsSorts(cands);
        PackedBelow(ss, budget);
        UpgradeAccounts(start, cs, |cs|, |ss|, budget);
        TakesPrefix(start, cs, |cs|, budget);
    }
  }

  lemma PackedBelow(ss: seq<Stanza>, budget: nat)
    ensures forall i | i in FirstPass(ss, budget).packed :: i < |ss|
  {
    hide FirstPass;
    FirstPassAligned(ss, budget);
    var st := FirstPass(ss, budget);
    forall i | i in st.packed ensures i < |ss| {
      assert i in st.slots;
    }
  }

  /** No two product stanzas are about the same file. */
  ghost predicate DistinctProducts(ss: seq<Stanza>) {
    forall i, j | 0 <= i < j < |ss| && Rank(ss[i].path) == 0 :: ss[i].path != ss[j].path
  }

  lemma NewSlotFresh(ss: seq<Stanza>, st: Pack, k: nat, w: WholeFile, i: nat)
    requires Aligned(ss, st) && k < |st.kept| && DistinctProducts(ss) && CandOf(ss, st, st.kept[k], w).Some?
    requires i < |Cands(ss, st, k, w)|
    ensures Cands(ss, st, k, w)[i].slot != CandOf(ss, st, st.kept[k], w).value.slot
  {
    hide CandOf, Rank, DistinctProducts, Distinct, Cands;
    var m := CandsFromKept(ss, st, k, w, Cands(ss, st, k, w)[i]);
    RowsApart(ss, st, m, k, w);
  }

  lemma {:induction false} CandSlotsDistinct(ss: seq<Stanza>, st: Pack, k: nat, w: WholeFile)
    requires Aligned(ss, st) && k <= |st.kept| && DistinctProducts(ss)
    ensures forall i, j | 0 <= i < j < |Cands(ss, st, k, w)| ::
      Cands(ss, st, k, w)[i].slot != Cands(ss, st, k, w)[j].slot
  {
    hide CandOf, Rank, DistinctProducts, Distinct;
    if k == 0 {
    } else {
      CandSlotsDistinct(ss, st, k - 1, w);
      if CandOf(ss, st, st.kept[k - 1], w).Some? {
        var before := Cands(ss, st, k - 1, w);
        forall i | 0 <= i < |before| ensures before[i].slot != CandOf(ss, st, st.kept[k - 1], w).value.slot {
          NewSlotFresh(ss, st, k - 1, w, i);
        }
      }
    }
  }

  lemma RowsApart(ss: seq<Stanza>, st: Pack, m: nat, n: nat, w: WholeFile)
    requires Aligned(ss, st) && m < n < |st.kept| && DistinctProducts(ss)
    requires CandOf(ss, st, st.kept[m], w).Some? && CandOf(ss, st, st.kept[n], w).Some?
    ensures CandOf(ss, st, st.kept[m], w).value.slot != CandOf(ss, st, st.kept[n], w).value.slot
  {
  }

  lemma OnceEach(cands: seq<Cand>, a: Cand)
    requires forall i, j | 0 <= i < j < |cands| :: cands[i].slot != cands[j].slot
    ensures multiset(cands)[a] <= 1
  {
    if a in cands {
      var i :| 0 <= i < |cands| && cands[i] == a;
      assert cands == cands[..i] + [a] + cands[i + 1..];
      assert a !in cands[..i] && a !in cands[i + 1..];
    }
  }

  lemma CountedTwice(cs: seq<Cand>, i: nat, j: nat)
    requires i < j < |cs|
    ensures cs[i] == cs[j] ==> multiset(cs)[cs[i]] >= 2
  {
    assert cs == cs[..j] + cs[j..];
    assert cs[i] in cs[..j] && cs[j] in cs[j..];
  }

  lemma SortedSlotsDistinct(cands: seq<Cand>)
    requires forall i, j | 0 <= i < j < |cands| :: cands[i].slot != cands[j].slot
    ensures var cs := SortCands(cands); forall i, j | 0 <= i < j < |cs| :: cs[i].slot != cs[j].slot
  {
    hide SortCands;
    var cs := SortCands(cands);
    SortCandsSorts(cands);
    forall i, j | 0 <= i < j < |cs| ensures cs[i].slot != cs[j].slot {
      CountedTwice(cs, i, j);
      OnceEach(cands, cs[i]);
      assert cs[i] in multiset(cands) && cs[j] in multiset(cands);
      assert cs[i] in cands && cs[j] in cands;
    }
  }

  /** With one stanza per product file, or no whole files on offer, the output is as long as it is said to be, plus
      the overrun of the truncation marker that the diff alone decides. It keeps within that length, and without
      whole files within the budget, if and only if that marker does not overrun. */
  lemma PackFitsExactly(ss: seq<Stanza>, budget: nat, whole: Option<WholeFile>)
    requires whole.None? || DistinctProducts(ss)
    ensures var u := FinalPack(ss, budget, whole); var length := |Emit(u.packed, 0, |ss|)|;
      && u.used <= budget && length == u.used + Overrun(ss, budget)
      && (length <= u.used <==> Overrun(ss, budget) <= 0)
      && (whole.None? ==> (length <= budget <==> Overrun(ss, budget) <= 0))
  {
    hide FirstPass, Emit, Slack, SortCands, Cands, Aligned, Overrun;
    PackAccounts(ss, budget, whole);
    OverrunKnown(ss, budget);
    FirstPassAligned(ss, budget);
    FirstPassLength(ss, budget);
    var st, u := FirstPass(ss, budget), FinalPack(ss, budget, whole);
    match whole {
      case None =>
        assert u.taken == [];
      case Some(w) =>
        var cands := Cands(ss, st, |st.kept|, w);
        CandSlotsDistinct(ss, st, |st.kept|, w);
        SortedSlotsDistinct(cands);
        SortCandsSorts(cands);
        TakesPrefix(Upgrade(st.packed, st.used, []), SortCands(cands), |SortCands(cands)|, budget);
        NothingRepaid(u.taken);
    }
  }

  // ---- two stanzas of one file --------------------------------------------------------------

  /** No product file with two stanzas has one that is longer than its whole text would be as a block. */
  ghost predicate NoShrinkingTwin(ss: seq<Stanza>, w: WholeFile) {
    forall i, j | 0 <= i < |ss| && 0 <= j < |ss| && i != j && ss[i].path == ss[j].path && Rank(ss[i].path) == 0 ::
      w(ss[i].path).Some? && w(ss[i].path).value != "" ==> |ss[i].text| <= |FullBlock(ss[i].path, w(ss[i].path).value)|
  }

  lemma TurnShows(ss: seq<Stanza>, st: Pack, i: nat, budget: nat)
    requires i < |ss| && st.used <= budget && i !in st.packed
    requires forall k | k in st.packed :: k < |ss| && (st.packed[k] == ss[k].text || Truncated(st.dropped, ss[k].path))
    ensures var r := PackStep(st, i, ss[i], budget);
      forall k | k in r.packed :: k < |ss| && (r.packed[k] == ss[k].text || Truncated(r.dropped, ss[k].path))
  {
    hide Rank, Marker;
    var r := PackStep(st, i, ss[i], budget);
    assert forall k | 0 <= k < |st.dropped| :: r.dropped[k] == st.dropped[k];
    assert forall p | Truncated(st.dropped, p) :: Truncated(r.dropped, p);
    if i in r.packed && r.packed[i] != ss[i].text {
      assert r.dropped[|st.dropped|].tail && r.dropped[|st.dropped|].path == ss[i].path;
    }
  }

  /** What is packed is the stanza itself, unless its file was truncated. */
  lemma {:induction false} ShownSoFar(ss: seq<Stanza>, order: seq<nat>, k: nat, budget: nat)
    requires k <= |order| && InRange(order, |ss|) && Distinct(order)
    ensures var st := PackUpTo(ss, order, k, budget);
      forall i | i in st.packed :: i < |ss| && (st.packed[i] == ss[i].text || Truncated(st.dropped, ss[i].path))
  {
    hide PackStep, Truncated;
    if k == 0 {
    } else {
      ShownSoFar(ss, order, k - 1, budget);
      PackedSoFar(ss, order, k - 1, budget);
      assert order[k - 1] !in order[..k - 1];
      TurnShows(ss, PackUpTo(ss, order, k - 1, budget), order[k - 1], budget);
    }
  }

  lemma RowsTwin(ss: seq<Stanza>, budget: nat, m: nat, n: nat, w: WholeFile)
    requires var st := FirstPass(ss, budget);
      && Aligned(ss, st) && m < n < |st.kept| && NoShrinkingTwin(ss, w)
      && CandOf(ss, st, st.kept[m], w).Some? && CandOf(ss, st, st.kept[n], w).Some?
      && CandOf(ss, st, st.kept[m], w).value.slot == CandOf(ss, st, st.kept[n], w).value.slot
    ensures var st := FirstPass(ss, budget); CandOf(ss, st, st.kept[n], w).value.extra >= 0
  {
    hide Rank, Truncated, FullBlock, FirstPass;
    var st := FirstPass(ss, budget);
    var c := CandOf(ss, st, st.kept[n], w).value;
    PackingOrderDistinct(ss);
    FirstPassShows(ss, budget);
    assert st.slots[m] != st.slots[n];
    var t := if st.slots[m] == c.slot then st.slots[n] else st.slots[m];
    assert ss[t].path == ss[c.slot].path == c.path;
  }

  lemma FirstPassShows(ss: seq<Stanza>, budget: nat)
    ensures var st := FirstPass(ss, budget);
      forall i | i in st.packed :: i < |ss| && (st.packed[i] == ss[i].text || Truncated(st.dropped, ss[i].path))
  {
    PackingOrderDistinct(ss);
    ShownSoFar(ss, PackingOrder(ss), |PackingOrder(ss)|, budget);
  }

  /** A slot that stands twice costs nothing less the second time. */
  ghost predicate TwinSafe(cs: seq<Cand>) {
    forall i, j | 0 <= i < j < |cs| && cs[i].slot == cs[j].slot :: cs[j].extra >= 0
  }

  /** Of two rows that offer the same slot the later one offers it at no less than it shows. */
  ghost predicate RowsSafe(ss: seq<Stanza>, budget: nat, w: WholeFile)
    requires Aligned(ss, FirstPass(ss, budget))
  {
    var st := FirstPass(ss, budget);
    forall m, n | 0 <= m < n < |st.kept| && SameSlot(ss, st, m, n, w) :: CandOf(ss, st, st.kept[n], w).value.extra >= 0
  }

  predicate SameSlot(ss: seq<Stanza>, st: Pack, m: nat, n: nat, w: WholeFile)
    requires InRange(st.slots, |ss|) && m < |st.kept| && n < |st.kept|
  {
    var c, d := CandOf(ss, st, st.kept[m], w), CandOf(ss, st, st.kept[n], w);
    c.Some? && d.Some? && c.value.slot == d.value.slot
  }

  lemma NoShrinkIsSafe(ss: seq<Stanza>, budget: nat, w: WholeFile)
    requires Aligned(ss, FirstPass(ss, budget)) && NoShrinkingTwin(ss, w)
    ensures RowsSafe(ss, budget, w)
  {
    hide CandOf, Rank, NoShrinkingTwin, FirstPass, Aligned;
    var st := FirstPass(ss, budget);
    AlignedInRange(ss, st);
    forall m, n | 0 <= m < n < |st.kept| && SameSlot(ss, st, m, n, w)
      ensures CandOf(ss, st, st.kept[n], w).value.extra >= 0
    {
      RowsTwin(ss, budget, m, n, w);
    }
  }

  lemma NewTwinSafe(ss: seq<Stanza>, budget: nat, k: nat, w: WholeFile, i: nat)
    requires var st := FirstPass(ss, budget);
      && Aligned(ss, st) && k < |st.kept| && RowsSafe(ss, budget, w) && CandOf(ss, st, st.kept[k], w).Some?
      && i < |Cands(ss, st, k, w)| && Cands(ss, st, k, w)[i].slot == CandOf(ss, st, st.kept[k], w).value.slot
    ensures CandOf(ss, FirstPass(ss, budget), FirstPass(ss, budget).kept[k], w).value.extra >= 0
  {
    hide CandOf, Rank, Distinct, FirstPass, Cands;
    var st := FirstPass(ss, budget);
    var m := CandsFromKept(ss, st, k, w, Cands(ss, st, k, w)[i]);
    assert SameSlot(ss, st, m, k, w);
  }

  lemma TwinSafeSnoc(cs: seq<Cand>, c: Cand)
    requires TwinSafe(cs) && forall i | 0 <= i < |cs| && cs[i].slot == c.slot :: c.extra >= 0
    ensures TwinSafe(cs + [c])
  {
  }

  lemma CandsSnoc(ss: seq<Stanza>, st: Pack, k: nat, w: WholeFile)
    requires InRange(st.slots, |ss|) && 0 < k <= |st.kept|
    ensures var c := CandOf(ss, st, st.kept[k - 1], w);
      Cands(ss, st, k, w) == Cands(ss, st, k - 1, w) + if c.Some? then [c.value] else []
    ensures Cands(ss, st, 0, w) == []
  {
    hide CandOf;
  }

  lemma {:induction false} CandsTwinSafe(ss: seq<Stanza>, budget: nat, k: nat, w: WholeFile)
    requires Aligned(ss, FirstPass(ss, budget)) && k <= |FirstPass(ss, budget).kept| && RowsSafe(ss, budget, w)
    ensures TwinSafe(Cands(ss, FirstPass(ss, budget), k, w))
  {
    hide CandOf, Rank, RowsSafe, FirstPass, TwinSafe, Cands, Aligned, InRange;
    var st := FirstPass(ss, budget);
    AlignedInRange(ss, st);
    if k == 0 {
      NoTwins();
      NoCands(ss, st, w);
    } else {
      CandsTwinSafe(ss, budget, k - 1, w);
      CandsSnoc(ss, st, k, w);
      var before := Cands(ss, st, k - 1, w);
      if CandOf(ss, st, st.kept[k - 1], w).Some? {
        var c := CandOf(ss, st, st.kept[k - 1], w).value;
        forall i | 0 <= i < |before| && before[i].slot == c.slot
          ensures c.extra >= 0
        {
          NewTwinSafe(ss, budget, k - 1, w, i);
        }
        TwinSafeSnoc(before, c);
      } else {
        assert before + [] == before;
      }
    }
  }

  lemma NoTwins()
    ensures TwinSafe([])
  {
  }

  lemma OnceAt(cs: seq<Cand>, a: Cand)
    requires forall i, j | 0 <= i < j < |cs| :: !(cs[i] == a && cs[j] == a)
    ensures multiset(cs)[a] <= 1
  {
    if a in cs {
      var i :| 0 <= i < |cs| && cs[i] == a;
      assert cs == cs[..i] + [a] + cs[i + 1..];
      assert a !in cs[..i] && a !in cs[i + 1..];
    }
  }

  lemma SortedTwinSafe(packed: map<nat, string>, cands: seq<Cand>)
    requires TwinSafe(cands) && Priced(packed, SortCands(cands))
    requires forall c | c in cands :: c.extra == |c.block| - (if c.slot in packed then |packed[c.slot]| else 0)
    requires forall c, d | c in cands && d in cands && c.slot == d.slot :: c == d
    ensures TwinSafe(SortCands(cands))
  {
    hide SortCands, Priced;
    var cs := SortCands(cands);
    SortCandsSorts(cands);
    forall i, j | 0 <= i < j < |cs| && cs[i].slot == cs[j].slot
      ensures cs[j].extra >= 0
    {
      assert cs[i] in multiset(cands) && cs[j] in multiset(cands);
      assert cs[i] == cs[j];
      CountedTwice(cs, i, j);
      if cs[j].extra < 0 {
        OnceAt(cands, cs[j]);
      }
    }
  }

  lemma {:induction false} RepaidCosts(cs: seq<Cand>)
    requires TwinSafe(cs)
    ensures Repaid(cs) >= 0
  {
    if cs == [] {
    } else {
      RepaidCosts(cs[..|cs| - 1]);
    }
  }

  lemma SameSlotSameCand(ss: seq<Stanza>, st: Pack, w: WholeFile, c: Cand, d: Cand)
    requires Aligned(ss, st) && c in Cands(ss, st, |st.kept|, w) && d in Cands(ss, st, |st.kept|, w) && c.slot == d.slot
    ensures c == d && c.slot in st.packed && c.extra == |c.block| - |st.packed[c.slot]|
  {
    hide Cands, Aligned, FullBlock, Truncated, Rank;
    CandFacts(ss, st, w, c);
    CandFacts(ss, st, w, d);
  }

  lemma SafeRowsFit(ss: seq<Stanza>, budget: nat, w: WholeFile)
    requires Aligned(ss, FirstPass(ss, budget)) && RowsSafe(ss, budget, w)
    ensures var u := FinalPack(ss, budget, Some(w));
      u.used <= budget && |Emit(u.packed, 0, |ss|)| <= u.used + Overrun(ss, budget)
  {
    hide FirstPass, Emit, Slack, SortCands, Cands, Aligned, Overrun, RowsSafe;
    PackAccounts(ss, budget, Some(w));
    OverrunKnown(ss, budget);
    FirstPassAligned(ss, budget);
    var st, u := FirstPass(ss, budget), FinalPack(ss, budget, Some(w));
    var cands := Cands(ss, st, |st.kept|, w);
    CandsTwinSafe(ss, budget, |st.kept|, w);
    CandsPriced(ss, st, w);
    forall c, d | c in cands && d in cands && c.slot == d.slot
      ensures c == d && c.slot in st.packed && c.extra == |c.block| - |st.packed[c.slot]|
    {
      SameSlotSameCand(ss, st, w, c, d);
    }
    SortedTwinSafe(st.packed, cands);
    SortCandsSorts(cands);
    TakesPrefix(Upgrade(st.packed, st.used, []), SortCands(cands), |SortCands(cands)|, budget);
    RepaidCosts(u.taken);
  }

  /** The budget holds through both passes: for every diff and every supply of whole files in which no file with two
      stanzas would shrink, the output is no longer than `used` plus the marker's overrun, and `used` no more than
      the budget. */
  lemma PackFitsBudget(ss: seq<Stanza>, budget: nat, w: WholeFile)
    requires NoShrinkingTwin(ss, w)
    ensures var u := FinalPack(ss, budget, Some(w));
      u.used <= budget && |Emit(u.packed, 0, |ss|)| <= u.used + Overrun(ss, budget)
  {
    hide FirstPass, Emit, NoShrinkingTwin, RowsSafe, FinalPack, Overrun;
    FirstPassAligned(ss, budget);
    NoShrinkIsSafe(ss, budget, w);
    SafeRowsFit(ss, budget, w);
  }

  /** What a caller can check beforehand: if the paths of product files are short and no file with two stanzas would
      shrink, the output keeps to every budget. */
  lemma ShortPathsFit(text: string, given: nat, whole: Option<WholeFile>)
    requires ShortPaths(SplitDiff(text)) && (whole.Some? ==> NoShrinkingTwin(SplitDiff(text), whole.value))
    ensures |PackReport(text, given, whole).out| <= BudgetOr(given)
  {
    hide SplitDiff, FirstPass, Emit, Overrun, ShortPaths, NoShrinkingTwin, FinalPack;
    var ss, budget := SplitDiff(text), BudgetOr(given);
    ShortPathsSuffice(ss, budget);
    match whole {
      case None => PackFitsExactly(ss, budget, None);
      case Some(w) => PackFitsBudget(ss, budget, w);
    }
  }

  /** Upgrading touches nothing but whole product files: the same stanzas are packed, and a log, a
      document or a head-truncated file shows what the first pass gave it. */
  lemma UpgradeLeavesTheRest(ss: seq<Stanza>, budget: nat, whole: Option<WholeFile>, i: nat)
    requires i < |ss|
    ensures var st, u := FirstPass(ss, budget), FinalPack(ss, budget, whole);
      && (i in u.packed <==> i in st.packed)
      && (i in st.packed && u.packed[i] != st.packed[i] ==>
            && whole.Some? && whole.value(ss[i].path).Some?
            && u.packed[i] == FullBlock(ss[i].path, whole.value(ss[i].path).value)
            && Rank(ss[i].path) == 0 && !Truncated(st.dropped, ss[i].path))
  {
    hide FirstPass, Emit, Slack, SortCands, Cands, Rank, Truncated, FullBlock, Aligned;
    PackAccounts(ss, budget, whole);
    FirstPassAligned(ss, budget);
    var st, u := FirstPass(ss, budget), FinalPack(ss, budget, whole);
    if whole.Some? && SlotTaken(u.taken, i) {
      var k :| 0 <= k < |u.taken| && u.taken[k].slot == i;
      var cands := Cands(ss, st, |st.kept|, whole.value);
      SortCandsSorts(cands);
      TakesPrefix(Upgrade(st.packed, st.used, []), SortCands(cands), |SortCands(cands)|, budget);
      assert u.taken[k] in multiset(cands);
      assert u.taken[k] in cands;
      CandFacts(ss, st, whole.value, u.taken[k]);
    }
  }

  /** Among all sets of whole files the budget left by the first pass can pay for, none is larger than
      the set `pack_diff` shows whole. */
  lemma WholeFilesAreMost(ss: seq<Stanza>, budget: nat, w: WholeFile, t: seq<Cand>)
    requires InRange(FirstPass(ss, budget).slots, |ss|)
    requires multiset(t) <= multiset(Cands(ss, FirstPass(ss, budget), |FirstPass(ss, budget).kept|, w))
    requires FirstPass(ss, budget).used + Spend(t) <= budget
    ensures |t| <= |FinalPack(ss, budget, Some(w)).taken|
  {
    hide FirstPass, Cands, UpgradeUpTo, SortCands, Spend;
    var st := FirstPass(ss, budget);
    UpgradeBuysMost(Upgrade(st.packed, st.used, []), Cands(ss, st, |st.kept|, w), t, budget);
  }

  // ---- everything fits ----------------------------------------------------------------------

  lemma PrefixWeighsLess(ss: seq<Stanza>, order: seq<nat>, k: nat)
    requires 0 < k <= |order| && InRange(order, |ss|)
    ensures WeightOf(ss, order[..k]) <= WeightOf(ss, order)
    ensures WeightOf(ss, order[..k]) == WeightOf(ss, order[..k - 1]) + |ss[order[k - 1]].text|
  {
    WeightConcat(ss, order[..k], order[k..], "");
    assert order == order[..k] + order[k..];
    assert order[..k][..k - 1] == order[..k - 1];
  }

  lemma TurnTakesFitting(st: Pack, i: nat, s: Stanza, budget: nat)
    requires st.used + |s.text| <= budget
    ensures PackStep(st, i, s, budget).packed == st.packed[i := s.text]
    ensures PackStep(st, i, s, budget).used == st.used + |s.text|
    ensures PackStep(st, i, s, budget).dropped == st.dropped
  {
  }

  lemma {:induction false} AllFitSoFar(ss: seq<Stanza>, order: seq<nat>, k: nat, budget: nat)
    requires k <= |order| && InRange(order, |ss|) && Distinct(order) && WeightOf(ss, order) <= budget
    ensures var st := PackUpTo(ss, order, k, budget);
      && st.dropped == [] && st.used == WeightOf(ss, order[..k])
      && forall j | 0 <= j < k :: Contents(st, order[j]) == Some(ss[order[j]].text)
  {
    if k == 0 {
    } else {
      hide PackStep, WeightOf;
      AllFitSoFar(ss, order, k - 1, budget);
      PrefixWeighsLess(ss, order, k);
      TurnTakesFitting(PackUpTo(ss, order, k - 1, budget), order[k - 1], ss[order[k - 1]], budget);
    }
  }

  lemma {:induction false} EmitsSpelling(ss: seq<Stanza>, packed: map<nat, string>, i: nat)
    requires i <= |ss| && forall j | 0 <= j < |ss| :: Shown(packed, j) == ss[j].text
    ensures Emit(packed, i, |ss|) == Spell(ss[i..])
    decreases |ss| - i
  {
    if i == |ss| {
    } else {
      EmitsSpelling(ss, packed, i + 1);
      assert ss[i..][1..] == ss[i + 1..];
    }
  }

  /** A diff that fits is shown whole: with no whole files on offer the prompt holds exactly the diff,
      less a blank preamble, and nothing is dropped. */
  lemma SmallDiffShownVerbatim(text: string, given: nat)
    requires |text| - BlankPreamble(text) <= BudgetOr(given) && SplitDiff(text) != []
    ensures PackReport(text, given, None).out == text[BlankPreamble(text)..]
    ensures PackReport(text, given, None).dropped == []
  {
    hide SplitDiff, BlankPreamble, PackingOrder, Rank, PackUpTo, WeightOf, Emit;
    var ss, budget := SplitDiff(text), BudgetOr(given);
    var order := PackingOrder(ss);
    SplitDiffSpellsDiff(text);
    OrderCovers(ss, "");
    PackingOrderDistinct(ss);
    PackingOrderSorts(ss);
    AllFitSoFar(ss, order, |order|, budget);
    var st := FirstPass(ss, budget);
    forall j | 0 <= j < |ss| ensures Shown(st.packed, j) == ss[j].text {
      assert j in order;
    }
    EmitsSpelling(ss, st.packed, 0);
    assert ss[0..] == ss;
  }

  // ---- review's refusal ---------------------------------------------------------------------

  /** `got_code`: some kept row is product code. */
  ghost predicate GotCode(st: Pack) {
    exists k | 0 <= k < |st.kept| :: Rank(st.kept[k].path) == 0
  }

  lemma TurnGetsCode(st: Pack, i: nat, s: Stanza, budget: nat)
    requires st.used <= budget
    ensures GotCode(PackStep(st, i, s, budget))
       <==> GotCode(st) || (Rank(s.path) == 0 && (st.used + |s.text| <= budget || budget - st.used > TRUNCATE_ABOVE))
  {
    hide Rank, Marker;
    var r := PackStep(st, i, s, budget);
    assert forall k | 0 <= k < |st.kept| :: r.kept[k] == st.kept[k];
    if |r.kept| > |st.kept| {
      assert r.kept[|st.kept|].path == s.path;
    }
  }

  lemma TurnSkips(st: Pack, i: nat, s: Stanza, budget: nat)
    requires st.used <= budget
    ensures Rank(s.path) == 0 && st.used + |s.text| > budget && budget - st.used <= TRUNCATE_ABOVE
      ==> PackStep(st, i, s, budget).used == st.used
  {
  }

  /** Not even an empty pack has room for this stanza, whole or truncated. */
  predicate NeverFits(s: Stanza, budget: nat) {
    budget <= TRUNCATE_ABOVE && |s.text| > budget
  }

  lemma EmptyHasNoCode()
    ensures !GotCode(EMPTY_PACK)
  {
  }

  lemma NoCodeTurn(st: Pack, i: nat, s: Stanza, budget: nat)
    requires st.used <= budget && (Rank(s.path) == 0 && !GotCode(st) ==> st.used == 0)
    ensures var r := PackStep(st, i, s, budget);
      if Rank(s.path) == 0 then
        (!GotCode(r) <==> !GotCode(st) && NeverFits(s, budget)) && (!GotCode(r) ==> r.used == 0)
      else GotCode(r) <==> GotCode(st)
  {
    hide Rank, GotCode, PackStep;
    TurnGetsCode(st, i, s, budget);
    TurnSkips(st, i, s, budget);
  }

  lemma {:induction false} NoCodeSoFar(ss: seq<Stanza>, order: seq<nat>, m: nat, k: nat, budget: nat)
    requires m <= |order| && k <= |order| && InRange(order, |ss|)
    requires forall j | 0 <= j < |order| :: j < m <==> Rank(ss[order[j]].path) == 0
    ensures var st := PackUpTo(ss, order, k, budget);
      && (!GotCode(st) <==> forall j | 0 <= j < k && j < m :: NeverFits(ss[order[j]], budget))
      && (k <= m && !GotCode(st) ==> st.used == 0)
  {
    hide Rank, GotCode, PackStep, NeverFits;
    if k == 0 {
      EmptyHasNoCode();
    } else {
      NoCodeSoFar(ss, order, m, k - 1, budget);
      NoCodeTurn(PackUpTo(ss, order, k - 1, budget), order[k - 1], ss[order[k - 1]], budget);
    }
  }

  /** `review` refuses (it packed a diff that has code and kept none of it) if and only if the budget is
      2000 or less and every product stanza is longer than the whole budget. Under the shipped
      budget that branch cannot be reached. */
  lemma RefusalExactly(ss: seq<Stanza>, budget: nat)
    requires Products(ss) != []
    ensures !GotCode(FirstPass(ss, budget))
      <==> forall j | 0 <= j < |Products(ss)| :: NeverFits(Products(ss)[j], budget)
    ensures budget == MAX_DIFF ==> GotCode(FirstPass(ss, budget))
  {
    hide Rank, GotCode, PackUpTo, OfRank, PackingOrder, NeverFits;
    var order, ps := PackingOrder(ss), Products(ss);
    ProductsPackInOrder(ss);
    ProductsExactlyFirst(ss);
    NoCodeSoFar(ss, order, |ps|, |order|, budget);
    forall j | 0 <= j < |ps| ensures ps[j] == ss[order[j]] {
      assert order[j] == OfRank(ss, 0, 0)[j];
    }
    if budget == MAX_DIFF {
      LargeBudgetFits(ps[0]);
    }
  }

  lemma LargeBudgetFits(s: Stanza)
    ensures !NeverFits(s, MAX_DIFF)
  {
  }

  lemma ProductsExactlyFirst(ss: seq<Stanza>)
    ensures |Products(ss)| <= |PackingOrder(ss)|
    ensures forall j | 0 <= j < |PackingOrder(ss)| :: j < |Products(ss)| <==> Rank(ss[PackingOrder(ss)[j]].path) == 0
  {
  }

  // ---- the loops ----------------------------------------------------------------------------

  /** A kept row with the slot its path is packed in. */
  datatype Pair = Pair(slot: nat, row: Entry)

  ghost predicate PairsUp(ss: seq<Stanza>, st: Pack, pairs: seq<Pair>) {
    && InRange(st.slots, |ss|) && |pairs| == |st.kept|
    && forall k | 0 <= k < |pairs| ::
         pairs[k].row == st.kept[k] && SlotOf(ss, st.slots, st.kept[k].path) == Some(pairs[k].slot)
  }

  lemma NoCands(ss: seq<Stanza>, st: Pack, w: WholeFile)
    requires InRange(st.slots, |ss|)
    ensures Cands(ss, st, 0, w) == []
  {
  }

  lemma CandsTurn(ss: seq<Stanza>, st: Pack, k: nat, w: WholeFile, slot: nat)
    requires InRange(st.slots, |ss|) && k < |st.kept| && SlotOf(ss, st.slots, st.kept[k].path) == Some(slot)
    ensures var path := st.kept[k].path; var body := w(path);
      Cands(ss, st, k + 1, w) ==
        if Rank(path) == 0 && !Truncated(st.dropped, path) && body.Some? && body.value != []
        then Cands(ss, st, k, w)
          + [Cand(|FullBlock(path, body.value)| - |Shown(st.packed, slot)|, slot, path, FullBlock(path, body.value))]
        else Cands(ss, st, k, w)
  {
    hide Rank, FullBlock, Truncated, SlotOf, Distinct, Shown;
  }

  /** The first loop and the last loop of the upgrade: price every candidate, then buy cheapest first. */
  method UpgradeToWhole(ghost ss: seq<Stanza>, ghost st: Pack, packedIn: map<nat, string>, pairs: seq<Pair>,
                        usedIn: int, budget: nat, whole: Option<WholeFile>, truncated: set<string>)
    returns (packed: map<nat, string>, used: int, taken: seq<Cand>)
    requires Aligned(ss, st) && PairsUp(ss, st, pairs) && packedIn == st.packed && usedIn == st.used
    requires forall p :: p in truncated <==> Truncated(st.dropped, p)
    ensures Upgrade(packed, used, taken) == Upgraded(ss, st, budget, whole)
  {
    hide Rank, FullBlock, Truncated, SlotOf, Distinct, Shown, Cands;
    packed, used, taken := packedIn, usedIn, [];
    if whole.None? {
      return;
    }
    var cands: seq<Cand> := [];
    NoCands(ss, st, whole.value);
    var k := 0;
    while k < |pairs|
      invariant 0 <= k <= |pairs|
      invariant cands == Cands(ss, st, k, whole.value)
    {
      var i, path := pairs[k].slot, pairs[k].row.path;
      CandsTurn(ss, st, k, whole.value, i);
      if Rank(path) == 0 && path !in truncated {
        var body := whole.value(path);
        if body.Some? && body.value != [] {
          var block := FullBlock(path, body.value);
          cands := cands + [Cand(|block| - |Shown(packed, i)|, i, path, block)];
        }
      }
      k := k + 1;
    }
    hide Aligned;
    var ordered := SortCands(cands);
    k := 0;
    while k < |ordered|
      invariant 0 <= k <= |ordered|
      invariant Upgrade(packed, used, taken) == UpgradeUpTo(Upgrade(st.packed, st.used, []), ordered, k, budget)
    {
      var c := ordered[k];
      if used + c.extra <= budget {
        used := used + c.extra;
        packed := packed[c.slot := c.block];
        taken := taken + [c];
      }
      k := k + 1;
    }
  }

  /** The packing loop over all stanzas, updating its four accumulators in place. */
  method PackInOrder(ss: seq<Stanza>, budget: nat)
    returns (packed: map<nat, string>, slots: seq<nat>, kept: seq<Entry>, dropped: seq<Drop>, used: nat)
    ensures Pack(packed, slots, kept, dropped, used) == FirstPass(ss, budget)
  {
    hide Rank, Marker, PackingOrder;
    var order := PackingOrder(ss);
    packed, slots, kept, dropped, used := map[], [], [], [], 0;
    var k := 0;
    while k < |order|
      invariant 0 <= k <= |order| && used <= budget
      invariant Pack(packed, slots, kept, dropped, used) == PackUpTo(ss, order, k, budget)
    {
      var i := order[k];
      var path, chunk := ss[i].path, ss[i].text;
      if used + |chunk| <= budget {
        packed, slots := packed[i := chunk], slots + [i];
        kept := kept + [Entry(path, |chunk|)];
        used := used + |chunk|;
      } else if Rank(path) == 0 && budget - used > TRUNCATE_ABOVE {
        var room := budget - used - MARKER_ALLOWANCE;
        packed, slots := packed[i := chunk[..room] + Marker(|chunk| - room, path)], slots + [i];
        kept := kept + [Entry(path, room)];
        used := budget;
        dropped := dropped + [Drop(path, true, |chunk| - room)];
      } else {
        dropped := dropped + [Drop(path, false, |chunk|)];
      }
      k := k + 1;
    }
  }

  lemma {:induction false} SlotOfSnoc(ss: seq<Stanza>, slots: seq<nat>, i: nat, path: string)
    requires InRange(slots + [i], |ss|) && InRange(slots, |ss|) && i < |ss|
    ensures SlotOf(ss, slots + [i], path)
         == if SlotOf(ss, slots, path).Some? then SlotOf(ss, slots, path)
            else if ss[i].path == path then Some(i) else None
  {
    if slots != [] {
      assert (slots + [i])[1..] == slots[1..] + [i];
      SlotOfSnoc(ss, slots[1..], i, path);
    } else {
      assert (slots + [i])[1..] == [];
    }
  }

  /** `by_path`, filled with setdefault in packing order. */
  method SlotsByPath(ss: seq<Stanza>, slots: seq<nat>) returns (byPath: map<string, nat>)
    requires InRange(slots, |ss|)
    ensures forall p :: p in byPath <==> SlotOf(ss, slots, p).Some?
    ensures forall p | p in byPath :: SlotOf(ss, slots, p) == Some(byPath[p])
  {
    hide SlotOf;
    byPath := map[];
    var k := 0;
    NoSlots(ss);
    while k < |slots|
      invariant 0 <= k <= |slots| && InRange(slots[..k], |ss|)
      invariant forall p :: p in byPath <==> SlotOf(ss, slots[..k], p).Some?
      invariant forall p | p in byPath :: SlotOf(ss, slots[..k], p) == Some(byPath[p])
    {
      var i := slots[k];
      assert slots[..k + 1] == slots[..k] + [i];
      forall p ensures SlotOf(ss, slots[..k + 1], p) ==
          if SlotOf(ss, slots[..k], p).Some? then SlotOf(ss, slots[..k], p)
          else if ss[i].path == p then Some(i) else None
      {
        SlotOfSnoc(ss, slots[..k], i, p);
      }
      if ss[i].path !in byPath {
        byPath := byPath[ss[i].path := i];
      }
      k := k + 1;
    }
    assert slots[..|slots|] == slots;
  }

  lemma NoSlots(ss: seq<Stanza>)
    ensures forall p :: SlotOf(ss, [], p) == None
  {
  }

  lemma AlignedInRange(ss: seq<Stanza>, st: Pack)
    requires Aligned(ss, st)
    ensures InRange(st.slots, |ss|)
  {
  }

  method PairRows(ss: seq<Stanza>, ghost st: Pack, kept: seq<Entry>, byPath: map<string, nat>)
      returns (pairs: seq<Pair>)
    requires Aligned(ss, st) && kept == st.kept
    requires forall p :: p in byPath <==> SlotOf(ss, st.slots, p).Some?
    requires forall p | p in byPath :: SlotOf(ss, st.slots, p) == Some(byPath[p])
    ensures PairsUp(ss, st, pairs)
  {
    hide SlotOf, Distinct;
    pairs := [];
    var k := 0;
    while k < |kept|
      invariant 0 <= k <= |kept| && |pairs| == k
      invariant forall m | 0 <= m < k ::
        (pairs[m].row == kept[m] && SlotOf(ss, st.slots, kept[m].path) == Some(pairs[m].slot))
    {
      assert ss[st.slots[k]].path == kept[k].path;
      pairs := pairs + [Pair(byPath[kept[k].path], kept[k])];
      k := k + 1;
    }
  }

  /** `pack_diff`: split, pack, pair kept rows with slots, upgrade, join. */
  method PackDiffByLoops(text: string, given: nat, whole: Option<WholeFile>) returns (r: Report)
    ensures r == PackReport(text, given, whole)
  {
    hide SplitDiff, FirstPass, Upgraded, Emit, Aligned, PairsUp, SlotOf;
    var budget := BudgetOr(given);
    var ss := SplitDiffByLoop(text);
    if ss == [] {
      return Report(text[..if budget <= |text| then budget else |text|], [], [], []);
    }
    var packed, slots, kept, dropped, used := PackInOrder(ss, budget);
    ghost var st := FirstPass(ss, budget);
    FirstPassAligned(ss, budget);
    AlignedInRange(ss, st);
    var truncated := set k | 0 <= k < |dropped| && dropped[k].tail :: dropped[k].path;
    var byPath := SlotsByPath(ss, slots);
    var pairs := PairRows(ss, st, kept, byPath);
    var taken;
    packed, used, taken := UpgradeToWhole(ss, st, packed, pairs, used, budget, whole, truncated);
    r := Report(Emit(packed, 0, |ss|), kept, dropped, Names(taken));
  }
}
