/** What `pack_diff` of gatereview2.py answers, told from the diff, the budget and the whole files on offer. */
module PackAnswer {
  import opened PyText
  import opened DiffPack
  import opened DiffUpgrade
  import opened PackDiff
  import opened PackTwins
  import opened PackCode
  import opened PackOverdraw

  // ---- each stanza at its turn --------------------------------------------------------------

  /** What the packer makes of a stanza when its turn comes. */
  datatype Turn = Whole | Head(room: nat) | Omitted

  /** With this much room left: all of it if it fits, the head of a product file if there is room for one, else
      nothing. */
  function TurnFor(s: Stanza, left: nat): Turn {
    if |s.text| <= left then Whole
    else if Rank(s.path) == 0 && left > 2000 then Head(left - 200)
    else Omitted
  }

  /** The text shown. */
  function Hunk(s: Stanza, t: Turn): Option<string> {
    match t
    case Whole => Some(s.text)
    case Head(room) =>
      if room <= |s.text| then
        Some(s.text[..room] + ("\n[... " + Decimal(|s.text| - room) + " bytes of " + s.path + " truncated ...]\n"))
      else None
    case Omitted => None
  }

  /** The row that says how much is shown. */
  function KeptRow(s: Stanza, t: Turn): seq<Entry> {
    match t
    case Whole => [Entry(s.path, |s.text|)]
    case Head(room) => [Entry(s.path, room)]
    case Omitted => []
  }

  /** The row that says how much is not. */
  function DroppedRow(s: Stanza, t: Turn): seq<Drop> {
    match t
    case Whole => []
    case Head(room) => [Drop(s.path, true, if room <= |s.text| then |s.text| - room else 0)]
    case Omitted => [Drop(s.path, false, |s.text|)]
  }

  function TurnOf(ss: seq<Stanza>, k: nat, budget: nat): Turn
    requires k < |PackingOrder(ss)|
  {
    TurnFor(ss[PackingOrder(ss)[k]], budget - UsedInOrder(ss, k, budget))
  }

  function HunkAt(ss: seq<Stanza>, k: nat, budget: nat): Option<string>
    requires k < |PackingOrder(ss)|
  {
    Hunk(ss[PackingOrder(ss)[k]], TurnOf(ss, k, budget))
  }

  function KeptRows(ss: seq<Stanza>, k: nat, budget: nat): seq<Entry>
    requires k <= |PackingOrder(ss)|
  {
    if k == 0 then []
    else KeptRows(ss, k - 1, budget) + KeptRow(ss[PackingOrder(ss)[k - 1]], TurnOf(ss, k - 1, budget))
  }

  function DroppedRows(ss: seq<Stanza>, k: nat, budget: nat): seq<Drop>
    requires k <= |PackingOrder(ss)|
  {
    if k == 0 then []
    else DroppedRows(ss, k - 1, budget) + DroppedRow(ss[PackingOrder(ss)[k - 1]], TurnOf(ss, k - 1, budget))
  }

  lemma StepAnswers(st: Pack, i: nat, s: Stanza, budget: nat)
    requires st.used <= budget && i !in st.packed
    ensures var after, t := PackStep(st, i, s, budget), TurnFor(s, budget - st.used);
      && after.kept == st.kept + KeptRow(s, t) && after.dropped == st.dropped + DroppedRow(s, t)
      && Contents(after, i) == Hunk(s, t)
  {
    hide Rank, Decimal;
  }

  lemma OneTurn(ss: seq<Stanza>, k: nat, budget: nat)
    requires k < |PackingOrder(ss)|
    ensures var order := PackingOrder(ss); var s, t := ss[order[k]], TurnOf(ss, k, budget);
      var st, after := PackUpTo(ss, order, k, budget), PackUpTo(ss, order, k + 1, budget);
      && after.kept == st.kept + KeptRow(s, t) && after.dropped == st.dropped + DroppedRow(s, t)
      && Contents(after, order[k]) == HunkAt(ss, k, budget)
  {
    hide PackingOrder, PackStep, KeptRow, DroppedRow, Hunk, TurnFor, Contents, UsedInOrder;
    UsedAsRead(ss, k, budget);
    NotPackedYet(ss, k, budget);
    StepAnswers(PackUpTo(ss, PackingOrder(ss), k, budget), PackingOrder(ss)[k], ss[PackingOrder(ss)[k]], budget);
  }

  lemma {:induction false} RowsAsRead(ss: seq<Stanza>, k: nat, budget: nat)
    requires k <= |PackingOrder(ss)|
    ensures var st := PackUpTo(ss, PackingOrder(ss), k, budget);
      st.kept == KeptRows(ss, k, budget) && st.dropped == DroppedRows(ss, k, budget)
  {
    hide Rank, PackingOrder, TurnOf, PackStep, Contents, HunkAt, KeptRow, DroppedRow;
    if k == 0 {
    } else {
      RowsAsRead(ss, k - 1, budget);
      OneTurn(ss, k - 1, budget);
    }
  }

  lemma HunkShown(ss: seq<Stanza>, k: nat, budget: nat)
    requires k < |PackingOrder(ss)|
    ensures Contents(FirstPass(ss, budget), PackingOrder(ss)[k]) == HunkAt(ss, k, budget)
  {
    hide Rank, PackingOrder, TurnOf, PackStep, Contents, HunkAt, PackUpTo, KeptRows, DroppedRows;
    OneTurn(ss, k, budget);
    PackingOrderDistinct(ss);
    LaterTurnsKeep(ss, PackingOrder(ss), k, |PackingOrder(ss)|, budget);
  }

  // ---- the pieces of the answer -------------------------------------------------------------

  predicate Bought(upgraded: seq<Entry>, path: string) {
    exists k | 0 <= k < |upgraded| :: upgraded[k].path == path
  }

  /** What the answer shows of the stanza of turn `k`: its whole file if that is listed as upgraded and this is the
      first stanza of it that is shown, else its hunk. */
  function PieceAt(ss: seq<Stanza>, k: nat, budget: nat, whole: Option<WholeFile>, upgraded: seq<Entry>): string
    requires k < |PackingOrder(ss)|
  {
    var path, ps := ss[PackingOrder(ss)[k]].path, Products(ss);
    if whole.Some? && whole.value(path).Some? && Bought(upgraded, path)
       && FirstShown(ps, |ps|, path, budget) == Some(k)
    then FullBlock(path, whole.value(path).value)
    else if HunkAt(ss, k, budget).Some? then HunkAt(ss, k, budget).value else ""
  }

  lemma TakenAsRead(ss: seq<Stanza>, budget: nat, w: WholeFile, c: Cand)
    requires c in FinalPack(ss, budget, Some(w)).taken
    ensures InRange(FirstPass(ss, budget).slots, |ss|)
      && c in Cands(ss, FirstPass(ss, budget), |FirstPass(ss, budget).kept|, w)
    ensures var ps := Products(ss); var j := FirstShown(ps, |ps|, c.path, budget);
      && w(c.path).Some? && c.block == FullBlock(c.path, w(c.path).value)
      && j.Some? && j.value < |PackingOrder(ss)| && c.slot == PackingOrder(ss)[j.value]
  {
    hide Rank, FirstPass, Products, CodePaths, Cands, SortCands, FirstShown, IsCut, FinalPack, FullBlock, PackingOrder;
    FirstPassAsRead(ss, budget, "");
    TakenAreTried(ss, budget, w);
    CandAsRead(ss, budget, w, c);
  }

  lemma TakenSlot(ss: seq<Stanza>, budget: nat, w: WholeFile, k: nat)
    requires k < |PackingOrder(ss)|
    ensures var path, ps, taken := ss[PackingOrder(ss)[k]].path, Products(ss), FinalPack(ss, budget, Some(w)).taken;
      SlotTaken(taken, PackingOrder(ss)[k]) <==>
        Bought(Names(taken), path) && FirstShown(ps, |ps|, path, budget) == Some(k)
  {
    hide Rank, FirstPass, Products, CodePaths, Cands, SortCands, FirstShown, IsCut, FinalPack, FullBlock, PackingOrder;
    var order, ps, taken := PackingOrder(ss), Products(ss), FinalPack(ss, budget, Some(w)).taken;
    var path := ss[order[k]].path;
    PackingOrderDistinct(ss);
    if SlotTaken(taken, order[k]) {
      var i :| 0 <= i < |taken| && taken[i].slot == order[k];
      TakenAsRead(ss, budget, w, taken[i]);
      ProductRank(ss, FirstShown(ps, |ps|, taken[i].path, budget).value);
      assert Names(taken)[i].path == path;
    }
    if Bought(Names(taken), path) {
      var i :| 0 <= i < |Names(taken)| && Names(taken)[i].path == path;
      TakenAsRead(ss, budget, w, taken[i]);
    }
  }

  lemma PieceShown(ss: seq<Stanza>, budget: nat, whole: Option<WholeFile>, k: nat)
    requires k < |PackingOrder(ss)|
    ensures var u := FinalPack(ss, budget, whole);
      Shown(u.packed, PackingOrder(ss)[k]) == PieceAt(ss, k, budget, whole, Names(u.taken))
  {
    hide Rank, FirstPass, Products, CodePaths, FirstShown, FinalPack, FullBlock, PackingOrder, HunkAt, Emit, Slack,
      Repaid;
    var st, u, i := FirstPass(ss, budget), FinalPack(ss, budget, whole), PackingOrder(ss)[k];
    PackAccounts(ss, budget, whole);
    HunkShown(ss, k, budget);
    match whole {
      case None =>
        NothingTaken(ss, budget);
      case Some(w) =>
        TakenSlot(ss, budget, w, k);
        if SlotTaken(u.taken, i) {
          var m :| 0 <= m < |u.taken| && u.taken[m].slot == i;
          TakenAsRead(ss, budget, w, u.taken[m]);
          ProductRank(ss, FirstShown(Products(ss), |Products(ss)|, u.taken[m].path, budget).value);
        }
    }
  }

  lemma NothingTaken(ss: seq<Stanza>, budget: nat)
    ensures FinalPack(ss, budget, None).taken == []
  {
  }

  lemma {:induction false} EmitsPieces(packed: map<nat, string>, pieces: seq<string>, i: nat)
    requires i <= |pieces| && forall j | 0 <= j < |pieces| :: pieces[j] == Shown(packed, j)
    ensures Emit(packed, i, |pieces|) == Concat(pieces[i..])
    decreases |pieces| - i
  {
    if i < |pieces| {
      EmitsPieces(packed, pieces, i + 1);
      assert pieces[i..] == [pieces[i]] + pieces[i + 1..];
    } else {
      assert pieces[i..] == [];
    }
  }

  /** What the packer shows: one piece for every stanza of the diff, in diff order. A piece is the stanza as the room
      left at its turn allows, or its whole file exactly if the answer lists that as upgraded. */
  lemma AnswerSpells(text: string, given: nat, whole: Option<WholeFile>) returns (pieces: seq<string>)
    requires SplitDiff(text) != []
    ensures var r, ss, budget := PackReport(text, given, whole), SplitDiff(text), if given == 0 then 180000 else given;
      && |pieces| == |ss| && r.out == Concat(pieces)
      && (forall k | 0 <= k < |PackingOrder(ss)| ::
            pieces[PackingOrder(ss)[k]] == PieceAt(ss, k, budget, whole, r.upgraded))
      && CodeFirst(ss, budget)
  {
    hide Rank, FirstPass, Products, FinalPack, PackingOrder, HunkAt, Emit, SplitDiff, CodeFirst, PieceAt, OfRank;
    hide Contents;
    var ss, budget := SplitDiff(text), if given == 0 then 180000 else given;
    var u := FinalPack(ss, budget, whole);
    pieces := seq(|ss|, i requires 0 <= i < |ss| => Shown(u.packed, i));
    EmitsPieces(u.packed, pieces, 0);
    assert pieces[0..] == pieces;
    forall k | 0 <= k < |PackingOrder(ss)|
      ensures pieces[PackingOrder(ss)[k]] == PieceAt(ss, k, budget, whole, Names(u.taken))
    {
      PieceShown(ss, budget, whole, k);
    }
    CodeComesInOrder(ss, budget);
  }

  /** The first turns are those of the product stanzas, in diff order, and show what the room for code allows. */
  ghost predicate CodeFirst(ss: seq<Stanza>, budget: nat) {
    && |Products(ss)| <= |PackingOrder(ss)|
    && forall k | 0 <= k < |Products(ss)| ::
      PackingOrder(ss)[k] == OfRank(ss, 0, 0)[k] && HunkAt(ss, k, budget) == ShownOf(Products(ss), k, budget)
  }

  lemma CodeComesInOrder(ss: seq<Stanza>, budget: nat)
    ensures CodeFirst(ss, budget)
  {
    hide Rank, FirstPass, PackingOrder, HunkAt, ShownOf, OfRank, Contents;
    OrderFits(ss, |Products(ss)|);
    forall k | 0 <= k < |Products(ss)|
      ensures PackingOrder(ss)[k] == OfRank(ss, 0, 0)[k] && HunkAt(ss, k, budget) == ShownOf(Products(ss), k, budget)
    {
      OrderFits(ss, k);
      HunkShown(ss, k, budget);
      ProductShownExactly(ss, k, budget);
    }
  }

  /** What it says it kept and left out: each stanza in its turn, with the characters shown and the characters not
      shown, so that they add up to the diff; and every stanza is named once, a truncated one in both lists. A diff
      without stanzas is blank, and is shown as far as the budget goes. */
  lemma AnswerRows(text: string, given: nat, whole: Option<WholeFile>, path: string)
    ensures var r, ss, budget := PackReport(text, given, whole), SplitDiff(text), if given == 0 then 180000 else given;
      && r.kept == KeptRows(ss, |PackingOrder(ss)|, budget) && r.dropped == DroppedRows(ss, |PackingOrder(ss)|, budget)
      && KeptSize(r.kept) + DroppedSize(r.dropped) == |text| - BlankPreamble(text)
      && KeptTimes(r.kept, path) + DroppedTimes(r.dropped, path) == Named(ss, path) + TailTimes(r.dropped, path)
      && (ss == [] ==> BlankPreamble(text) == |text| && r.out == if budget <= |text| then text[..budget] else text)
  {
    hide Rank, Products, FinalPack, PackingOrder, Emit, SplitDiff, KeptSize, DroppedSize, KeptTimes, DroppedTimes,
      Named, TailTimes, KeptRows, DroppedRows, PackUpTo, BlankPreamble;
    var ss, budget := SplitDiff(text), if given == 0 then 180000 else given;
    BytesConserved(text, budget, path);
    RowsAsRead(ss, |PackingOrder(ss)|, budget);
    if ss == [] {
      NothingPacked(budget);
      SplitDiffSpellsDiff(text);
    }
  }

  lemma NothingPacked(budget: nat)
    ensures FirstPass([], budget) == EMPTY_PACK
  {
  }

  // ---- which files are shown whole ----------------------------------------------------------

  /** The file's diff is shown and not cut, and its whole text can be had. */
  predicate OnOffer(ss: seq<Stanza>, budget: nat, w: WholeFile, path: string) {
    var ps := Products(ss);
    FirstShown(ps, |ps|, path, budget).Some? && !IsCut(ps, path, budget) && w(path).Some? && w(path).value != ""
  }

  /** What showing it whole costs. */
  function ExtraOf(ss: seq<Stanza>, budget: nat, w: WholeFile, path: string): int {
    var ps := Products(ss);
    var j := FirstShown(ps, |ps|, path, budget);
    if j.Some? && w(path).Some? then |FullBlock(path, w(path).value)| - |ps[j.value].text| else 0
  }

  function Cost(ss: seq<Stanza>, budget: nat, w: WholeFile, paths: seq<string>): int {
    if paths == [] then 0
    else Cost(ss, budget, w, paths[..|paths| - 1]) + ExtraOf(ss, budget, w, paths[|paths| - 1])
  }

  /** Cheaper, or as dear and first in the diff. */
  predicate NotAfter(ss: seq<Stanza>, budget: nat, w: WholeFile, a: string, b: string) {
    var ps, x, y := Products(ss), ExtraOf(ss, budget, w, a), ExtraOf(ss, budget, w, b);
    var i, j := FirstShown(ps, |ps|, a, budget), FirstShown(ps, |ps|, b, budget);
    x < y || (x == y && i.Some? && j.Some? && i.value <= j.value)
  }

  /** A candidate is its path: where it goes, what it costs and how long it is follow from that. */
  lemma CandByPath(ss: seq<Stanza>, budget: nat, w: WholeFile, c: Cand)
    requires InRange(FirstPass(ss, budget).slots, |ss|)
    requires c in Cands(ss, FirstPass(ss, budget), |FirstPass(ss, budget).kept|, w)
    ensures OnOffer(ss, budget, w, c.path) && c.extra == ExtraOf(ss, budget, w, c.path)
    ensures w(c.path).Some? && c.block == FullBlock(c.path, w(c.path).value)
  {
    hide Rank, FirstPass, Products, CodePaths, Cands, FirstShown, IsCut, FullBlock, PackingOrder;
    CandAsRead(ss, budget, w, c);
  }

  lemma OrderByPath(ss: seq<Stanza>, budget: nat, w: WholeFile, c: Cand, d: Cand)
    requires InRange(FirstPass(ss, budget).slots, |ss|) && Leq(c, d)
    requires c in Cands(ss, FirstPass(ss, budget), |FirstPass(ss, budget).kept|, w)
    requires d in Cands(ss, FirstPass(ss, budget), |FirstPass(ss, budget).kept|, w)
    ensures NotAfter(ss, budget, w, c.path, d.path)
  {
    hide Rank, FirstPass, Products, CodePaths, Cands, FirstShown, IsCut, FullBlock, PackingOrder, OfRank;
    CandAsRead(ss, budget, w, c);
    CandAsRead(ss, budget, w, d);
    var ps := Products(ss);
    var i, j := FirstShown(ps, |ps|, c.path, budget).value, FirstShown(ps, |ps|, d.path, budget).value;
    OrderFits(ss, i);
    OrderFits(ss, j);
    assert i > j ==> OfRank(ss, 0, 0)[j] < OfRank(ss, 0, 0)[i];
  }

  lemma {:induction false} SpendByPath(ss: seq<Stanza>, budget: nat, w: WholeFile, cs: seq<Cand>)
    requires forall k | 0 <= k < |cs| :: cs[k].extra == ExtraOf(ss, budget, w, cs[k].path)
    ensures Spend(cs) == Cost(ss, budget, w, CandPaths(cs))
  {
    hide ExtraOf;
    if cs == [] {
    } else {
      var n := |cs| - 1;
      SpendByPath(ss, budget, w, cs[..n]);
      assert CandPaths(cs)[..n] == CandPaths(cs[..n]);
    }
  }

  /** A file on offer has as many candidates as it has kept rows. */
  lemma {:induction false} OneOfferARow(ss: seq<Stanza>, st: Pack, k: nat, w: WholeFile, path: string)
    requires InRange(st.slots, |ss|) && k <= |st.kept|
    requires forall m | 0 <= m < |st.kept| && st.kept[m].path == path :: CandOf(ss, st, st.kept[m], w).Some?
    ensures multiset(CandPaths(Cands(ss, st, k, w)))[path] == multiset(PathsOf(st.kept[..k]))[path]
  {
    hide Cands, CandOf, CandPaths, PathsOf;
    CandsSnocAt(ss, st, k, w);
    if k == 0 {
      assert st.kept[..0] == [];
      NoPaths();
    } else {
      OneOfferARow(ss, st, k - 1, w, path);
      RowsSnoc(st.kept, k);
      var c := CandOf(ss, st, st.kept[k - 1], w);
      if c.Some? {
        CandPathsSnoc(Cands(ss, st, k - 1, w), c.value);
      }
    }
  }

  lemma NoPaths()
    ensures CandPaths([]) == [] && PathsOf([]) == []
  {
  }

  lemma OffersCounted(ss: seq<Stanza>, budget: nat, w: WholeFile, path: string)
    requires InRange(FirstPass(ss, budget).slots, |ss|) && OnOffer(ss, budget, w, path)
    ensures var st, ps := FirstPass(ss, budget), Products(ss);
      multiset(CandPaths(Cands(ss, st, |st.kept|, w)))[path] == multiset(CodePaths(ps, |ps|, budget))[path]
  {
    hide Rank, FirstPass, Products, CodePaths, Cands, CandOf, FirstShown, IsCut, FullBlock, PackingOrder, CandPaths;
    var st, ps := FirstPass(ss, budget), Products(ss);
    var rows, code := PathsOf(st.kept), CodePaths(ps, |ps|, budget);
    FirstPassAsRead(ss, budget, path);
    ProductRank(ss, FirstShown(ps, |ps|, path, budget).value);
    forall m | 0 <= m < |st.kept| && st.kept[m].path == path
      ensures CandOf(ss, st, st.kept[m], w).Some?
    {
      RowOffersFile(ss, budget, w, m);
    }
    OneOfferARow(ss, st, |st.kept|, w, path);
    assert st.kept[..|st.kept|] == st.kept;
    assert rows == code + rows[|code|..];
    assert path !in rows[|code|..];
  }

  /** The files shown whole are an affordable prefix of all that are on offer, one for each stanza of theirs that is
      shown, in order of what they cost, then of the diff; and the next would not have fitted. */
  ghost predicate BoughtRightly(ss: seq<Stanza>, budget: nat, w: WholeFile, upgraded: seq<Entry>) {
    var paths, code := PathsOf(upgraded), CodePaths(Products(ss), |Products(ss)|, budget);
    var cost := Cost(ss, budget, w, paths);
    && (forall k | 0 <= k < |upgraded| :: OnOffer(ss, budget, w, paths[k])
          && upgraded[k].size == |FullBlock(paths[k], w(paths[k]).value)|)
    && (forall j, k | 0 <= j < k < |paths| :: NotAfter(ss, budget, w, paths[j], paths[k]))
    && cost <= Room(ss, budget)
    && (forall p | OnOffer(ss, budget, w, p) :: multiset(paths)[p] <= multiset(code)[p])
    && (forall p | OnOffer(ss, budget, w, p) && multiset(paths)[p] < multiset(code)[p] ::
          && cost + ExtraOf(ss, budget, w, p) > Room(ss, budget)
          && forall k | 0 <= k < |paths| :: NotAfter(ss, budget, w, paths[k], p))
  }

  lemma NextInLine(cs: seq<Cand>, m: nat, path: string) returns (k: nat)
    requires m <= |cs| && multiset(CandPaths(cs[..m]))[path] < multiset(CandPaths(cs))[path]
    ensures m <= k < |cs| && cs[k].path == path
  {
    assert CandPaths(cs) == CandPaths(cs[..m]) + CandPaths(cs[m..]);
    assert path in CandPaths(cs[m..]);
    var i :| 0 <= i < |cs| - m && CandPaths(cs[m..])[i] == path;
    k := m + i;
  }

  lemma NoMoreThanAll(cs: seq<Cand>, m: nat, path: string)
    requires m <= |cs|
    ensures multiset(CandPaths(cs[..m]))[path] <= multiset(CandPaths(cs))[path]
  {
    assert CandPaths(cs) == CandPaths(cs[..m]) + CandPaths(cs[m..]);
  }

  /** Which whole files the packer shows, for every diff, budget and supply of them. */
  lemma AnswerUpgrades(text: string, given: nat, whole: Option<WholeFile>)
    ensures var r, ss, budget := PackReport(text, given, whole), SplitDiff(text), if given == 0 then 180000 else given;
      if ss == [] || whole.None? then r.upgraded == [] else BoughtRightly(ss, budget, whole.value, r.upgraded)
  {
    hide FirstPass, FinalPack, Emit, SplitDiff, BoughtRightly;
    var ss, budget := SplitDiff(text), if given == 0 then 180000 else given;
    match whole {
      case None => NothingTaken(ss, budget);
      case Some(w) => BuysRightly(ss, budget, w);
    }
  }

  lemma BuysRightly(ss: seq<Stanza>, budget: nat, w: WholeFile)
    ensures BoughtRightly(ss, budget, w, Names(FinalPack(ss, budget, Some(w)).taken))
  {
    hide Rank, FirstPass, Products, CodePaths, Cands, SortCands, FirstShown, IsCut, FinalPack, FullBlock, Room, Spend,
      Cost, OnOffer, NotAfter, ExtraOf, CandPaths, PathsOf, Leq;
    var st, u := FirstPass(ss, budget), FinalPack(ss, budget, Some(w));
    FirstPassAsRead(ss, budget, "");
    var cands, m, up := Cands(ss, st, |st.kept|, w), |u.taken|, Names(u.taken);
    var cs := SortCands(cands);
    TakenAreTried(ss, budget, w);
    SortCandsSorts(cands);
    SamePaths(cs, cands);
    forall k | 0 <= k < |cs|
      ensures OnOffer(ss, budget, w, cs[k].path) && cs[k].extra == ExtraOf(ss, budget, w, cs[k].path)
      ensures w(cs[k].path).Some? && cs[k].block == FullBlock(cs[k].path, w(cs[k].path).value)
    {
      CandByPath(ss, budget, w, cs[k]);
    }
    forall j, k | 0 <= j < k < |cs|
      ensures NotAfter(ss, budget, w, cs[j].path, cs[k].path)
    {
      OrderByPath(ss, budget, w, cs[j], cs[k]);
    }
    assert PathsOf(up) == CandPaths(cs[..m]);
    SpendByPath(ss, budget, w, cs[..m]);
    forall p | OnOffer(ss, budget, w, p)
      ensures multiset(PathsOf(up))[p] <= multiset(CodePaths(Products(ss), |Products(ss)|, budget))[p]
    {
      OffersCounted(ss, budget, w, p);
      NoMoreThanAll(cs, m, p);
    }
    forall p | OnOffer(ss, budget, w, p)
      && multiset(PathsOf(up))[p] < multiset(CodePaths(Products(ss), |Products(ss)|, budget))[p]
      ensures Cost(ss, budget, w, PathsOf(up)) + ExtraOf(ss, budget, w, p) > Room(ss, budget)
      ensures forall k | 0 <= k < |up| :: NotAfter(ss, budget, w, PathsOf(up)[k], p)
    {
      OffersCounted(ss, budget, w, p);
      var n := NextInLine(cs, m, p);
      SortedExtras(cs, m, n);
    }
  }
}
