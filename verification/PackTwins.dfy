/** Why the budget of `pack_diff` in gatereview2.py needs its condition: diffs with two stanzas of one product file, and
    exactly when they overdraw. */
module PackTwins {
  import opened PyText
  import opened DiffPack
  import opened DiffUpgrade
  import opened PackDiff

  // ---- a family of diffs --------------------------------------------------------------------

  lemma {:induction false} AllFitRows(ss: seq<Stanza>, order: seq<nat>, k: nat, budget: nat)
    requires k <= |order| && InRange(order, |ss|) && Distinct(order) && WeightOf(ss, order) <= budget
    ensures var st := PackUpTo(ss, order, k, budget);
      st.slots == order[..k] && |st.kept| == k && forall j | 0 <= j < k :: st.kept[j].path == ss[order[j]].path
  {
    hide PackStep, WeightOf, Distinct, Contents;
    if k == 0 {
    } else {
      AllFitRows(ss, order, k - 1, budget);
      FitsAt(ss, order, k, budget);
      TurnKeepsRow(PackUpTo(ss, order, k - 1, budget), order[k - 1], ss[order[k - 1]], budget);
      assert order[..k] == order[..k - 1] + [order[k - 1]];
    }
  }

  lemma FitsAt(ss: seq<Stanza>, order: seq<nat>, k: nat, budget: nat)
    requires 0 < k <= |order| && InRange(order, |ss|) && Distinct(order) && WeightOf(ss, order) <= budget
    ensures PackUpTo(ss, order, k - 1, budget).used + |ss[order[k - 1]].text| <= budget
  {
    hide WeightOf, PackStep;
    AllFitSoFar(ss, order, k - 1, budget);
    PrefixWeighsLess(ss, order, k);
  }

  lemma TurnKeepsRow(st: Pack, i: nat, s: Stanza, budget: nat)
    requires st.used + |s.text| <= budget
    ensures PackStep(st, i, s, budget).slots == st.slots + [i]
    ensures PackStep(st, i, s, budget).kept == st.kept + [Entry(s.path, |s.text|)]
  {
  }

  /** Two stanzas of one product file and one of another. */
  ghost predicate Twins(ss: seq<Stanza>) {
    && |ss| == 3 && (forall k | 0 <= k < 3 :: Rank(ss[k].path) == 0)
    && ss[0].path == ss[1].path && ss[2].path != ss[0].path
  }

  lemma TwinsOrder(ss: seq<Stanza>)
    requires Twins(ss)
    ensures PackingOrder(ss) == [0, 1, 2]
  {
    hide Rank;
    AllOneRank(ss, 0, 0);
    AllOneRank(ss, 1, 0);
    AllOneRank(ss, 2, 0);
    AllOneRank(ss, 3, 0);
  }

  /** Under a budget of exactly its size such a diff is packed whole. */
  lemma {:induction false} TwinsPacked(ss: seq<Stanza>)
    requires Twins(ss)
    ensures var st := FirstPass(ss, |Spell(ss)|);
      && st.slots == [0, 1, 2] && |st.kept| == 3 && st.dropped == [] && st.used == |Spell(ss)|
      && forall k | 0 <= k < 3 :: st.kept[k].path == ss[k].path && k in st.packed && st.packed[k] == ss[k].text
  {
    hide Rank, PackUpTo, WeightOf, PackingOrder;
    var order, budget := PackingOrder(ss), |Spell(ss)|;
    TwinsOrder(ss);
    OrderCovers(ss, "");
    PackingOrderDistinct(ss);
    AllFitSoFar(ss, order, 3, budget);
    AllFitRows(ss, order, 3, budget);
    assert order[..3] == order;
    assert forall k | 0 <= k < 3 :: Contents(FirstPass(ss, budget), order[k]) == Some(ss[order[k]].text);
  }

  function CandFor(ss: seq<Stanza>, slot: nat, body: string): Cand
    requires slot < |ss|
  {
    var block := FullBlock(ss[slot].path, body);
    Cand(|block| - |ss[slot].text|, slot, ss[slot].path, block)
  }

  lemma {:induction false} TwinsCands(ss: seq<Stanza>, w: WholeFile, body: string, other: string)
    requires Twins(ss) && w(ss[0].path) == Some(body) && body != "" && w(ss[2].path) == Some(other) && other != ""
    ensures var st := FirstPass(ss, |Spell(ss)|); var c := CandFor(ss, 0, body);
      InRange(st.slots, |ss|) && Cands(ss, st, |st.kept|, w) == [c, c, CandFor(ss, 2, other)]
  {
    hide Rank, FirstPass, FullBlock;
    TwinsPacked(ss);
    var st := FirstPass(ss, |Spell(ss)|);
    assert st.slots[0] == 0 && st.slots[1..] == [1, 2] && st.slots[1..][1..] == [2];
    assert SlotOf(ss, st.slots, ss[0].path) == Some(0);
    assert SlotOf(ss, [1, 2][1..], ss[2].path) == Some(2);
    assert SlotOf(ss, [1, 2], ss[2].path) == Some(2);
    assert SlotOf(ss, st.slots, ss[2].path) == Some(2);
    assert Cands(ss, st, 1, w) == [CandFor(ss, 0, body)];
    assert Cands(ss, st, 2, w) == [CandFor(ss, 0, body), CandFor(ss, 0, body)];
  }

  lemma {:induction false} SortThree(c: Cand, d: Cand)
    requires c.extra < d.extra
    ensures SortCands([c, c, d]) == [c, c, d]
  {
    assert [c, c, d][1..] == [c, d] && [c, d][1..] == [d] && [d][1..] == [];
    assert SortCands([d]) == [d];
    assert SortCands([c, d]) == Insert(c, [d]) == [c, d];
    assert SortCands([c, c, d]) == Insert(c, [c, d]) == [c] + [c, d];
  }

  lemma EmitThree(packed: map<nat, string>)
    ensures |Emit(packed, 0, 3)| == |Shown(packed, 0)| + |Shown(packed, 1)| + |Shown(packed, 2)|
  {
    assert Emit(packed, 3, 3) == [];
    assert Emit(packed, 2, 3) == Shown(packed, 2) + Emit(packed, 3, 3);
    assert Emit(packed, 1, 3) == Shown(packed, 1) + Emit(packed, 2, 3);
    assert Emit(packed, 0, 3) == Shown(packed, 0) + Emit(packed, 1, 3);
  }

  lemma SpellThree(ss: seq<Stanza>)
    requires |ss| == 3
    ensures |Spell(ss)| == |ss[0].text| + |ss[1].text| + |ss[2].text|
  {
    assert Spell(ss[1..][1..][1..]) == [];
    assert Spell(ss[1..][1..]) == ss[2].text + Spell(ss[1..][1..][1..]);
    assert Spell(ss[1..]) == ss[1].text + Spell(ss[1..][1..]);
  }

  lemma {:induction false} UpgradeThree(start: Upgrade, c: Cand, d: Cand, budget: nat)
    requires c.extra < 0 < d.extra && start.used == budget && c.slot != d.slot
    ensures var u := UpgradeUpTo(start, [c, c, d], 3, budget);
      u.packed == (if d.extra <= -2 * c.extra then start.packed[c.slot := c.block][d.slot := d.block]
                   else start.packed[c.slot := c.block])
  {
    var cs := [c, c, d];
    var u1 := UpgradeUpTo(start, cs, 1, budget);
    assert u1 == UpgradeStep(UpgradeUpTo(start, cs, 0, budget), c, budget);
    var u2 := UpgradeUpTo(start, cs, 2, budget);
    assert u2 == UpgradeStep(u1, c, budget);
    assert UpgradeUpTo(start, cs, 3, budget) == UpgradeStep(u2, d, budget);
    assert start.packed[c.slot := c.block][c.slot := c.block] == start.packed[c.slot := c.block];
  }

  /** Two stanzas of one product file (git prints a change of type that way) are paired with one slot, and if the
      whole file is shorter than its first stanza the saving is credited twice. Under a budget the diff just
      fits, another file's whole text then drives the output over the budget exactly if it costs more than the
      saving and no more than twice the saving. */
  lemma {:induction false} TwinsOverdrawExactly(ss: seq<Stanza>, w: WholeFile, body: string, other: string)
    requires Twins(ss) && w(ss[0].path) == Some(body) && body != "" && w(ss[2].path) == Some(other) && other != ""
    requires CandFor(ss, 0, body).extra < 0 < CandFor(ss, 2, other).extra
    ensures var saved, cost := -CandFor(ss, 0, body).extra, CandFor(ss, 2, other).extra;
      |Emit(FinalPack(ss, |Spell(ss)|, Some(w)).packed, 0, 3)| > |Spell(ss)| <==> saved < cost <= 2 * saved
  {
    hide Rank, FirstPass, FullBlock, SortCands, Cands, UpgradeUpTo, Emit, Spell;
    var budget, c, d := |Spell(ss)|, CandFor(ss, 0, body), CandFor(ss, 2, other);
    var st := FirstPass(ss, budget);
    TwinsPacked(ss);
    TwinsCands(ss, w, body, other);
    SortThree(c, d);
    UpgradeThree(Upgrade(st.packed, st.used, []), c, d, budget);
    var u := FinalPack(ss, budget, Some(w));
    EmitThree(u.packed);
    SpellThree(ss);
  }

  // ---- a diff that does so ------------------------------------------------------------------

  function Signs(n: nat): (s: string)
    ensures |s| == n && forall k | 0 <= k < n :: s[k] == '+'
  {
    seq(n, _ => '+')
  }

  function HunkHead(path: string): string {
    "diff --git a/" + (path + (" b/" + (path + "\n")))
  }

  /** One section of a diff, with `n` characters under its opening line. */
  function Hunk(path: string, n: nat): Stanza {
    Stanza(path, HunkHead(path) + (Signs(n) + "\n"))
  }

  lemma {:induction false} WordEnds(s: string, i: nat, j: nat)
    requires i <= j < |s| && IsSpace(s[j]) && forall k | i <= k < j :: !IsSpace(s[k])
    ensures SkipWord(s, i) == j
  {
    hide IsSpace;
    var e := SkipWord(s, i);
    assert forall k | i <= k < e :: !IsSpace(s[k]);
    assert e < |s| ==> IsSpace(s[e]);
  }

  lemma PathRead(piece: string, path: string)
    requires path != "" && At(piece, 0, "diff --git a/") && 13 + |path| <= |piece| && 16 + 2 * |path| <= |piece|
    requires SkipWord(piece, 13) == 13 + |path| && At(piece, 13 + |path|, " b/")
    requires SkipWord(piece, 16 + |path|) == 16 + 2 * |path|
    ensures PathOf(piece) == piece[16 + |path|..16 + 2 * |path|]
  {
    hide SkipWord, At;
  }

  lemma HunkSplits(path: string, rest: string)
    ensures var tail, front := " b/" + (path + ("\n" + rest)), "diff --git a/" + path; var t := HunkHead(path) + rest;
      && t == "diff --git a/" + (path + tail) && t == front + tail && t == (front + " b/") + (path + ("\n" + rest))
  {
  }

  lemma {:induction false} HunkPath(path: string, rest: string)
    requires path != "" && forall k | 0 <= k < |path| :: !IsSpace(path[k])
    ensures PathOf(HunkHead(path) + rest) == path
  {
    hide IsSpace, SkipWord, PathOf, HunkHead, At;
    var t, tail, front := HunkHead(path) + rest, " b/" + (path + ("\n" + rest)), "diff --git a/" + path;
    HunkSplits(path, rest);
    BlankAndBreak();
    AtFront("diff --git a/", path + tail);
    WordAt("diff --git a/", path, tail);
    StandsAt(front, " b/", path + ("\n" + rest));
    WordAt(front + " b/", path, "\n" + rest);
    PathRead(t, path);
  }

  lemma StandsAt(a: string, b: string, c: string)
    ensures At(a + (b + c), |a|, b) && a + (b + c) == (a + b) + c
  {
    assert (a + (b + c))[|a|..|a| + |b|] == b;
  }

  /** A word between other text and a blank. */
  lemma {:induction false} WordAt(front: string, word: string, tail: string)
    requires tail != "" && IsSpace(tail[0]) && forall k | 0 <= k < |word| :: !IsSpace(word[k])
    ensures var s, i := front + (word + tail), |front|;
      SkipWord(s, i) == i + |word| && s[i..i + |word|] == word
  {
    hide IsSpace, SkipWord;
    var s, i := front + (word + tail), |front|;
    assert s[i..i + |word|] == word;
    assert forall k | i <= k < i + |word| :: s[k] == word[k - i];
    WordEnds(s, i, i + |word|);
  }

  lemma BlankAndBreak()
    ensures IsSpace(' ') && IsSpace('\n')
  {
  }

  lemma {:induction false} HunkIsGitShaped(path: string, n: nat)
    requires path != "" && forall k | 0 <= k < |path| :: !IsSpace(path[k])
    ensures GitShaped(Hunk(path, n)) && |Hunk(path, n).text| == |HunkHead(path)| + n + 1
  {
    hide IsSpace, PathOf;
    var s := Hunk(path, n);
    var t, h := s.text, |HunkHead(path)|;
    HunkPath(path, Signs(n) + "\n");
    assert t[0..11] == OPENER;
    assert forall k | h <= k < h + n :: t[k] == '+';
    NoBreakBefore(path, n);
    forall k | 1 <= k < |t|
      ensures !Opens(t, k)
    {
      if t[k - 1] == '\n' {
        NotAt(t, k, OPENER, 0);
      }
    }
  }

  lemma {:induction false} NoBreakBefore(path: string, n: nat)
    requires forall k | 0 <= k < |path| :: !IsSpace(path[k])
    ensures forall k | 0 <= k < |HunkHead(path)| - 1 :: Hunk(path, n).text[k] != '\n'
  {
    BlankAndBreak();
    var t, m := Hunk(path, n).text, |path|;
    assert forall k | 0 <= k < 13 :: t[k] == "diff --git a/"[k];
    assert forall k | 13 <= k < 13 + m :: t[k] == path[k - 13];
    assert forall k | 13 + m <= k < 16 + m :: t[k] == " b/"[k - 13 - m];
    assert forall k | 16 + m <= k < 16 + 2 * m :: t[k] == path[k - 16 - m];
  }

  lemma SignsBody(n: nat)
    ensures RStripNewlines(Signs(n)) == Signs(n)
  {
    var s := Signs(n);
    assert s != "" ==> s[|s| - 1] == '+';
  }

  lemma BlockIsLong(path: string, body: string)
    ensures |FullBlock(path, body)| > |HunkHead(path)| + 40 && |FullBlock(path, body)| > |RStripNewlines(body)| + 60
  {
    hide RStripNewlines, Decimal;
    BlockEncloses(path, body);
  }

  const FIRST := "agent/a"
  const OTHER := "agent/b"

  lemma AgentPaths()
    ensures Rank(FIRST) == 0 && Rank(OTHER) == 0 && FIRST != OTHER
    ensures forall k | 0 <= k < 7 :: !IsSpace(FIRST[k]) && !IsSpace(OTHER[k])
  {
    assert StartsWith(FIRST, PRODUCT_DIRS[2]) && StartsWith(OTHER, PRODUCT_DIRS[2]);
  }

  /** A diff on which the shipped packer overdraws: two stanzas of agent/a, one of agent/b, and nothing truncated or
      dropped; with whole texts that fit their purpose the output is longer than the budget it was given. */
  lemma {:induction false} TwoStanzasOverdraw() returns (text: string, budget: nat, w: WholeFile)
    ensures budget > 0 && !DistinctProducts(SplitDiff(text))
    ensures PackReport(text, budget, Some(w)).dropped == [] && |PackReport(text, budget, Some(w)).out| > budget
  {
    hide Rank, FullBlock, IsSpace, SplitDiff, Spell, GitShaped, HunkHead, FinalPack, FirstPass, DistinctProducts;
    AgentPaths();
    var body, other := "x", Signs(200);
    var small, large := FullBlock(FIRST, body), FullBlock(OTHER, other);
    BlockIsLong(FIRST, body);
    BlockIsLong(OTHER, other);
    SignsBody(200);
    w := (p: string) => if p == FIRST then Some(body) else if p == OTHER then Some(other) else None;
    var head := |HunkHead(FIRST)|;
    SameHeads();
    var ss := [Hunk(FIRST, |small| + 100 - head - 1), Hunk(FIRST, 1), Hunk(OTHER, |large| - 150 - head - 1)];
    text, budget := Spell(ss), |Spell(ss)|;
    HunkIsGitShaped(FIRST, |small| + 100 - head - 1);
    HunkIsGitShaped(FIRST, 1);
    HunkIsGitShaped(OTHER, |large| - 150 - head - 1);
    SplitDiffInvertsSpell(ss);
    SpellThree(ss);
    TwinsPacked(ss);
    TwinsOverdrawExactly(ss, w, body, other);
    TwinsAreNotDistinct(ss);
  }

  lemma SameHeads()
    ensures |HunkHead(FIRST)| == |HunkHead(OTHER)| < 40
  {
  }

  lemma TwinsAreNotDistinct(ss: seq<Stanza>)
    requires Twins(ss)
    ensures !DistinctProducts(ss)
  {
    hide Rank;
  }

  // ---- exactly when the books are right -----------------------------------------------------

  /** The shortest whole file there is, as a block. */
  function LeastBlock(path: string): string {
    FullBlock(path, "\n")
  }

  lemma LeastIsLeast(path: string, body: string)
    requires body != ""
    ensures |LeastBlock(path)| <= |FullBlock(path, body)|
  {
    hide RStripNewlines, Decimal;
    BlockEncloses(path, "\n");
    BlockEncloses(path, body);
    OneNewlineGoes();
    DecimalGrows(1, |body|);
  }

  lemma OneNewlineGoes()
    ensures RStripNewlines("\n") == ""
  {
  }

  /** Two kept rows are of one product file, not truncated, whose shown stanza is longer than its shortest block. */
  ghost predicate Shrinkable(ss: seq<Stanza>, st: Pack, m: nat, n: nat)
    requires InRange(st.slots, |ss|) && m < n < |st.kept|
  {
    var path := st.kept[m].path;
    var slot := SlotOf(ss, st.slots, path);
    && st.kept[n].path == path && Rank(path) == 0 && !Truncated(st.dropped, path)
    && slot.Some? && |ss[slot.value].text| > |LeastBlock(path)|
  }

  ghost predicate ShrinkableTwin(ss: seq<Stanza>, budget: nat) {
    var st := FirstPass(ss, budget);
    InRange(st.slots, |ss|) && exists m, n | 0 <= m < n < |st.kept| :: Shrinkable(ss, st, m, n)
  }

  lemma RowsOffer(ss: seq<Stanza>, budget: nat, m: nat, n: nat, w: WholeFile)
    requires var st := FirstPass(ss, budget);
      Aligned(ss, st) && m < n < |st.kept| && SameSlot(ss, st, m, n, w) && !Shrinkable(ss, st, m, n)
    ensures CandOf(ss, FirstPass(ss, budget), FirstPass(ss, budget).kept[n], w).value.extra >= 0
  {
    hide FirstPass, FullBlock, Rank, Truncated, Aligned, LeastBlock;
    var st := FirstPass(ss, budget);
    AlignedInRange(ss, st);
    var c := CandOf(ss, st, st.kept[n], w).value;
    FirstPassShows(ss, budget);
    SlotIsShown(ss, st, c.slot);
    LeastIsLeast(c.path, w(c.path).value);
  }

  lemma SlotIsShown(ss: seq<Stanza>, st: Pack, slot: nat)
    requires Aligned(ss, st) && slot in st.slots
    ensures slot in st.packed
  {
  }

  lemma NoneShrinks(ss: seq<Stanza>, budget: nat, w: WholeFile)
    requires Aligned(ss, FirstPass(ss, budget)) && !ShrinkableTwin(ss, budget)
    ensures RowsSafe(ss, budget, w)
  {
    hide FirstPass, CandOf, Aligned, Shrinkable;
    var st := FirstPass(ss, budget);
    AlignedInRange(ss, st);
    forall m, n | 0 <= m < n < |st.kept| && SameSlot(ss, st, m, n, w)
      ensures CandOf(ss, st, st.kept[n], w).value.extra >= 0
    {
      RowsOffer(ss, budget, m, n, w);
    }
  }

  /** Only one file is on offer, at its shortest. */
  function Shortest(path: string): WholeFile {
    p => if p == path then Some("\n") else None
  }

  lemma {:induction false} OneOffer(ss: seq<Stanza>, st: Pack, k: nat, path: string, slot: nat)
    requires InRange(st.slots, |ss|) && k <= |st.kept| && SlotOf(ss, st.slots, path) == Some(slot)
    requires Rank(path) == 0 && !Truncated(st.dropped, path)
    ensures var block := LeastBlock(path); var c := Cand(|block| - |Shown(st.packed, slot)|, slot, path, block);
      var cs := Cands(ss, st, k, Shortest(path));
      && (forall i | 0 <= i < |cs| :: cs[i] == c) && |cs| == KeptTimes(st.kept[..k], path)
  {
    hide Rank, FullBlock, Truncated, SlotOf, Shown, Cands, Distinct;
    if k == 0 {
      NoCands(ss, st, Shortest(path));
    } else {
      OneOffer(ss, st, k - 1, path, slot);
      CandsSnoc(ss, st, k, Shortest(path));
      assert st.kept[..k][..k - 1] == st.kept[..k - 1];
    }
  }

  lemma {:induction false} TwiceKept(es: seq<Entry>, m: nat, n: nat)
    requires m < n < |es| && es[m].path == es[n].path
    ensures KeptTimes(es, es[m].path) >= 2
  {
    if n == |es| - 1 {
      OnceKept(es[..n], m);
    } else {
      TwiceKept(es[..|es| - 1], m, n);
    }
  }

  lemma {:induction false} OnceKept(es: seq<Entry>, m: nat)
    requires m < |es|
    ensures KeptTimes(es, es[m].path) >= 1
  {
    if m == |es| - 1 {
    } else {
      OnceKept(es[..|es| - 1], m);
    }
  }

  lemma {:induction false} RepaidAlike(cs: seq<Cand>, c: Cand)
    requires c.extra < 0 && forall i | 0 <= i < |cs| :: cs[i] == c
    ensures Repaid(cs) <= 0 && (|cs| >= 2 ==> Repaid(cs) < 0)
  {
    if cs == [] {
    } else {
      var before := cs[..|cs| - 1];
      RepaidAlike(before, c);
      assert before != [] ==> before[0].slot == c.slot;
    }
  }

  lemma SortedAlike(cs: seq<Cand>, c: Cand)
    requires forall i | 0 <= i < |cs| :: cs[i] == c
    ensures var sorted := SortCands(cs); |sorted| == |cs| && forall i | 0 <= i < |sorted| :: sorted[i] == c
  {
    hide SortCands;
    SortCandsSorts(cs);
    var sorted := SortCands(cs);
    forall i | 0 <= i < |sorted|
      ensures sorted[i] == c
    {
      assert sorted[i] in multiset(cs);
    }
    assert |multiset(sorted)| == |multiset(cs)|;
  }

  /** A file that can shrink under two stanzas puts the books out as soon as it does. */
  lemma ShrinkingTwinOverdraws(ss: seq<Stanza>, budget: nat, m: nat, n: nat)
    requires var st := FirstPass(ss, budget);
      Aligned(ss, st) && m < n < |st.kept| && Shrinkable(ss, st, m, n)
    ensures var u := FinalPack(ss, budget, Some(Shortest(FirstPass(ss, budget).kept[m].path)));
      |Emit(u.packed, 0, |ss|)| > u.used + Overrun(ss, budget)
  {
    hide FirstPass, FullBlock, Rank, Truncated, Cands, SortCands, Aligned, Overrun, Emit, Slack, Repaid, KeptTimes;
    hide UpgradeUpTo, LeastBlock, Spend, Leq;
    var st := FirstPass(ss, budget);
    AlignedInRange(ss, st);
    var path := st.kept[m].path;
    var slot, w := SlotOf(ss, st.slots, path).value, Shortest(path);
    OneOffer(ss, st, |st.kept|, path, slot);
    assert st.kept[..|st.kept|] == st.kept;
    TwiceKept(st.kept, m, n);
    var cands := Cands(ss, st, |st.kept|, w);
    var c := cands[0];
    FirstPassShows(ss, budget);
    SlotIsShown(ss, st, slot);
    SortedAlike(cands, c);
    SortCandsSorts(cands);
    var cs := SortCands(cands);
    TakesPrefix(Upgrade(st.packed, st.used, []), cs, |cs|, budget);
    var u := FinalPack(ss, budget, Some(w));
    assert |u.taken| == |cs|;
    RepaidAlike(u.taken, c);
    PackAccounts(ss, budget, Some(w));
    OverrunKnown(ss, budget);
  }

  /** The output keeps within what it is said to use and the marker's overrun. */
  ghost predicate BooksRight(ss: seq<Stanza>, budget: nat, w: WholeFile) {
    var u := FinalPack(ss, budget, Some(w));
    |Emit(u.packed, 0, |ss|)| <= u.used + Overrun(ss, budget)
  }

  /** The books of the packer are right for every supply of whole files if and only if no untruncated product file is
      kept twice with a shown stanza longer than the shortest block of that file. */
  lemma BooksRightByRows(ss: seq<Stanza>, budget: nat)
    ensures (forall w: WholeFile :: BooksRight(ss, budget, w)) <==> !ShrinkableTwin(ss, budget)
  {
    hide FirstPass, FinalPack, Emit, Overrun, Aligned, Shrinkable, RowsSafe;
    var st := FirstPass(ss, budget);
    FirstPassAligned(ss, budget);
    AlignedInRange(ss, st);
    if ShrinkableTwin(ss, budget) {
      var m, n :| 0 <= m < n < |st.kept| && Shrinkable(ss, st, m, n);
      ShrinkingTwinOverdraws(ss, budget, m, n);
      assert !BooksRight(ss, budget, Shortest(st.kept[m].path));
    } else {
      forall w: WholeFile
        ensures BooksRight(ss, budget, w)
      {
        NoneShrinks(ss, budget, w);
        SafeRowsFit(ss, budget, w);
      }
    }
  }
}
