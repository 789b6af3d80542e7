/** What `pack_diff` of gatereview2.py does with product files, read off the diff before it is packed. */
module PackCode {
  import opened PyText
  import opened DiffPack
  import opened DiffUpgrade
  import opened PackDiff
  import opened PackTwins

  // ---- read off the diff --------------------------------------------------------------------

  /** Product stanza `k` does not fit, and enough room is left to show its head. */
  predicate CutAt(ps: seq<Stanza>, k: nat, budget: nat)
    requires k < |ps|
  {
    var u := UsedByCode(ps, k, budget);
    u + |ps[k].text| > budget && budget - u > TRUNCATE_ABOVE
  }

  predicate CutBefore(ps: seq<Stanza>, k: nat, path: string, budget: nat)
    requires k <= |ps|
  {
    exists i | 0 <= i < k :: ps[i].path == path && CutAt(ps, i, budget)
  }

  predicate IsCut(ps: seq<Stanza>, path: string, budget: nat) {
    CutBefore(ps, |ps|, path, budget)
  }

  /** The paths of the first `k` product stanzas as far as they are shown. */
  function CodePaths(ps: seq<Stanza>, k: nat, budget: nat): seq<string>
    requires k <= |ps|
  {
    if k == 0 then []
    else CodePaths(ps, k - 1, budget) + if ShownOf(ps, k - 1, budget).Some? then [ps[k - 1].path] else []
  }

  /** The first of them that is about `path`. */
  function FirstShown(ps: seq<Stanza>, k: nat, path: string, budget: nat): (r: Option<nat>)
    requires k <= |ps|
    ensures r.Some? ==> r.value < k && ps[r.value].path == path && ShownOf(ps, r.value, budget).Some?
  {
    if k == 0 then None
    else if FirstShown(ps, k - 1, path, budget).Some? then FirstShown(ps, k - 1, path, budget)
    else if ps[k - 1].path == path && ShownOf(ps, k - 1, budget).Some? then Some(k - 1)
    else None
  }

  /** How much the first `k` stanzas in packing order use, from their sizes and ranks. */
  function UsedInOrder(ss: seq<Stanza>, k: nat, budget: nat): (used: nat)
    requires k <= |PackingOrder(ss)|
    ensures used <= budget
  {
    if k == 0 then 0
    else
      var u, s := UsedInOrder(ss, k - 1, budget), ss[PackingOrder(ss)[k - 1]];
      if u + |s.text| <= budget then u + |s.text|
      else if Rank(s.path) == 0 && budget - u > TRUNCATE_ABOVE then budget
      else u
  }

  /** What the first pass leaves of the budget. */
  function Room(ss: seq<Stanza>, budget: nat): nat {
    budget - UsedInOrder(ss, |PackingOrder(ss)|, budget)
  }

  // ---- the first pass does what was read ----------------------------------------------------

  lemma TurnUses(st: Pack, i: nat, s: Stanza, budget: nat)
    requires st.used <= budget
    ensures PackStep(st, i, s, budget).used ==
      if st.used + |s.text| <= budget then st.used + |s.text|
      else if Rank(s.path) == 0 && budget - st.used > TRUNCATE_ABOVE then budget else st.used
  {
  }

  lemma {:induction false} UsedAsRead(ss: seq<Stanza>, k: nat, budget: nat)
    requires k <= |PackingOrder(ss)|
    ensures PackUpTo(ss, PackingOrder(ss), k, budget).used == UsedInOrder(ss, k, budget)
  {
    hide Rank, PackStep, PackingOrder;
    if k == 0 {
    } else {
      var order := PackingOrder(ss);
      UsedAsRead(ss, k - 1, budget);
      TurnUses(PackUpTo(ss, order, k - 1, budget), order[k - 1], ss[order[k - 1]], budget);
    }
  }

  lemma TurnCuts(st: Pack, i: nat, s: Stanza, budget: nat, path: string)
    requires st.used <= budget
    ensures Truncated(PackStep(st, i, s, budget).dropped, path) <==>
      (|| Truncated(st.dropped, path)
       || (s.path == path && st.used + |s.text| > budget && Rank(s.path) == 0 && budget - st.used > TRUNCATE_ABOVE))
  {
    hide Rank, Marker;
    var ds := PackStep(st, i, s, budget).dropped;
    assert forall k | 0 <= k < |st.dropped| :: ds[k] == st.dropped[k];
    assert |ds| <= |st.dropped| + 1;
    assert |ds| > |st.dropped| ==> ds[|st.dropped|].path == s.path;
  }

  lemma {:induction false} CutsAsRead(ss: seq<Stanza>, k: nat, budget: nat, path: string)
    requires k <= |Products(ss)| && k <= |PackingOrder(ss)|
    ensures var dropped := PackUpTo(ss, PackingOrder(ss), k, budget).dropped;
      Truncated(dropped, path) <==> CutBefore(Products(ss), k, path, budget)
  {
    hide Rank, PackStep, OfRank, PackingOrder, Products, UsedByCode, Truncated;
    if k == 0 {
      NothingCut(path);
    } else {
      var order := PackingOrder(ss);
      CutsAsRead(ss, k - 1, budget, path);
      OrderFits(ss, k - 1);
      CodeUses(ss, k - 1, budget);
      TurnCuts(PackUpTo(ss, order, k - 1, budget), order[k - 1], ss[order[k - 1]], budget, path);
    }
  }

  lemma NothingCut(path: string)
    ensures !Truncated([], path)
  {
  }

  lemma {:induction false} RestCutsNothing(ss: seq<Stanza>, k: nat, budget: nat, path: string)
    requires |Products(ss)| <= k <= |PackingOrder(ss)|
    ensures Truncated(PackUpTo(ss, PackingOrder(ss), k, budget).dropped, path) <==> IsCut(Products(ss), path, budget)
  {
    hide Rank, PackStep, OfRank, PackingOrder, Products, CutBefore, Truncated;
    if k == |Products(ss)| {
      CutsAsRead(ss, k, budget, path);
    } else {
      var order := PackingOrder(ss);
      RestCutsNothing(ss, k - 1, budget, path);
      CodeComesFirst(ss, k - 1);
      TurnCuts(PackUpTo(ss, order, k - 1, budget), order[k - 1], ss[order[k - 1]], budget, path);
    }
  }

  function PathsOf(es: seq<Entry>): (r: seq<string>)
    ensures |r| == |es| && forall k | 0 <= k < |es| :: r[k] == es[k].path
  {
    seq(|es|, k requires 0 <= k < |es| => es[k].path)
  }

  /** A turn adds its path to the kept rows and its slot to the packed ones if it shows something. */
  lemma TurnKeeps(st: Pack, i: nat, s: Stanza, budget: nat)
    requires st.used <= budget && i !in st.packed
    ensures var r := PackStep(st, i, s, budget); var shown := i in r.packed;
      && PathsOf(r.kept) == PathsOf(st.kept) + (if shown then [s.path] else [])
      && r.slots == st.slots + (if shown then [i] else [])
  {
    hide Rank, Marker;
  }

  lemma TurnShowsCode(ss: seq<Stanza>, k: nat, budget: nat)
    requires k < |Products(ss)| && k < |PackingOrder(ss)|
    ensures var order := PackingOrder(ss); var st := PackUpTo(ss, order, k, budget);
      && order[k] !in st.packed
      && (order[k] in PackStep(st, order[k], ss[order[k]], budget).packed <==> ShownOf(Products(ss), k, budget).Some?)
  {
    hide Rank, PackStep, OfRank, PackingOrder, Products, Marker, UsedByCode;
    var order := PackingOrder(ss);
    OrderFits(ss, k);
    CodeUses(ss, k, budget);
    PackingOrderDistinct(ss);
    PackedSoFar(ss, order, k, budget);
    assert order[k] !in order[..k];
    CodeTurn(PackUpTo(ss, order, k, budget), order[k], ss[order[k]], budget);
  }

  lemma {:induction false} KeptAsRead(ss: seq<Stanza>, k: nat, budget: nat)
    requires k <= |Products(ss)| && k <= |PackingOrder(ss)|
    ensures PathsOf(PackUpTo(ss, PackingOrder(ss), k, budget).kept) == CodePaths(Products(ss), k, budget)
  {
    hide Rank, PackStep, OfRank, PackingOrder, Products, ShownOf;
    if k == 0 {
    } else {
      var order := PackingOrder(ss);
      KeptAsRead(ss, k - 1, budget);
      OrderFits(ss, k - 1);
      TurnShowsCode(ss, k - 1, budget);
      TurnKeeps(PackUpTo(ss, order, k - 1, budget), order[k - 1], ss[order[k - 1]], budget);
    }
  }

  lemma NotPackedYet(ss: seq<Stanza>, k: nat, budget: nat)
    requires k < |PackingOrder(ss)|
    ensures PackingOrder(ss)[k] !in PackUpTo(ss, PackingOrder(ss), k, budget).packed
  {
    hide Rank, PackStep, PackingOrder;
    var order := PackingOrder(ss);
    PackingOrderDistinct(ss);
    PackedSoFar(ss, order, k, budget);
    assert order[k] !in order[..k];
  }

  /** The kept rows open with the product files that are shown, and no other row is about a product file. */
  lemma {:induction false} RestKeepsOthers(ss: seq<Stanza>, k: nat, budget: nat)
    requires |Products(ss)| <= k <= |PackingOrder(ss)|
    ensures var kept := PathsOf(PackUpTo(ss, PackingOrder(ss), k, budget).kept);
      var code := CodePaths(Products(ss), |Products(ss)|, budget);
      code <= kept && forall i | |code| <= i < |kept| :: Rank(kept[i]) != 0
  {
    hide Rank, PackStep, OfRank, PackingOrder, Products, CodePaths;
    if k == |Products(ss)| {
      KeptAsRead(ss, k, budget);
    } else {
      var order := PackingOrder(ss);
      RestKeepsOthers(ss, k - 1, budget);
      CodeComesFirst(ss, k - 1);
      NotPackedYet(ss, k - 1, budget);
      TurnKeeps(PackUpTo(ss, order, k - 1, budget), order[k - 1], ss[order[k - 1]], budget);
    }
  }

  /** The slot of a shown product stanza. */
  function SlotAt(ss: seq<Stanza>, j: Option<nat>): Option<nat>
    requires j.Some? ==> j.value < |PackingOrder(ss)|
  {
    if j.Some? then Some(PackingOrder(ss)[j.value]) else None
  }

  lemma SlotsInRange(ss: seq<Stanza>, k: nat, budget: nat)
    requires k <= |PackingOrder(ss)|
    ensures InRange(PackUpTo(ss, PackingOrder(ss), k, budget).slots, |ss|)
  {
    hide Rank, PackStep, PackingOrder, PackUpTo;
    PackingOrderDistinct(ss);
    AlignedSoFar(ss, PackingOrder(ss), k, budget);
  }

  lemma {:induction false} SlotsAsRead(ss: seq<Stanza>, k: nat, budget: nat, path: string)
    requires k <= |Products(ss)| && k <= |PackingOrder(ss)|
    requires InRange(PackUpTo(ss, PackingOrder(ss), k, budget).slots, |ss|)
    ensures SlotOf(ss, PackUpTo(ss, PackingOrder(ss), k, budget).slots, path)
         == SlotAt(ss, FirstShown(Products(ss), k, path, budget))
  {
    hide Rank, PackStep, OfRank, PackingOrder, Products, ShownOf, SlotOf;
    if k == 0 {
      NoSlots(ss);
    } else {
      var order := PackingOrder(ss);
      var st := PackUpTo(ss, order, k - 1, budget);
      SlotsInRange(ss, k - 1, budget);
      SlotsAsRead(ss, k - 1, budget, path);
      OrderFits(ss, k - 1);
      TurnShowsCode(ss, k - 1, budget);
      TurnKeeps(st, order[k - 1], ss[order[k - 1]], budget);
      if ShownOf(Products(ss), k - 1, budget).Some? {
        SlotOfSnoc(ss, st.slots, order[k - 1], path);
      } else {
        assert st.slots + [] == st.slots;
      }
    }
  }

  lemma {:induction false} RestSlotsOthers(ss: seq<Stanza>, k: nat, budget: nat, path: string)
    requires |Products(ss)| <= k <= |PackingOrder(ss)| && Rank(path) == 0
    requires InRange(PackUpTo(ss, PackingOrder(ss), k, budget).slots, |ss|)
    ensures SlotOf(ss, PackUpTo(ss, PackingOrder(ss), k, budget).slots, path)
         == SlotAt(ss, FirstShown(Products(ss), |Products(ss)|, path, budget))
  {
    hide Rank, PackStep, OfRank, PackingOrder, Products, FirstShown, SlotOf;
    if k == |Products(ss)| {
      SlotsAsRead(ss, k, budget, path);
    } else {
      var order := PackingOrder(ss);
      var st := PackUpTo(ss, order, k - 1, budget);
      SlotsInRange(ss, k - 1, budget);
      RestSlotsOthers(ss, k - 1, budget, path);
      CodeComesFirst(ss, k - 1);
      NotPackedYet(ss, k - 1, budget);
      TurnKeeps(st, order[k - 1], ss[order[k - 1]], budget);
      if |PackUpTo(ss, order, k, budget).slots| > |st.slots| {
        SlotOfSnoc(ss, st.slots, order[k - 1], path);
      } else {
        assert st.slots + [] == st.slots;
      }
    }
  }

  lemma ProductRank(ss: seq<Stanza>, j: nat)
    requires j < |Products(ss)|
    ensures Rank(Products(ss)[j].path) == 0 && j < |PackingOrder(ss)| && PackingOrder(ss)[j] < |ss|
    ensures ss[PackingOrder(ss)[j]] == Products(ss)[j]
  {
    hide Rank, OfRank, PackingOrder, Products;
    OrderFits(ss, j);
  }

  /** All of it at once: what is left, which files are cut, which rows are kept, and where a file is packed. */
  lemma FirstPassAsRead(ss: seq<Stanza>, budget: nat, path: string)
    ensures var st, ps := FirstPass(ss, budget), Products(ss); var code := CodePaths(ps, |ps|, budget);
      && st.used == budget - Room(ss, budget)
      && (Truncated(st.dropped, path) <==> IsCut(ps, path, budget))
      && code <= PathsOf(st.kept) && (forall i | |code| <= i < |st.kept| :: Rank(st.kept[i].path) != 0)
      && InRange(st.slots, |ss|)
      && (Rank(path) == 0 ==>
            var j := FirstShown(ps, |ps|, path, budget);
            (j.Some? ==> j.value < |PackingOrder(ss)|) && SlotOf(ss, st.slots, path) == SlotAt(ss, j))
  {
    hide Rank, PackUpTo, OfRank, PackingOrder, Products, FirstShown, SlotOf, CodePaths, Truncated, UsedInOrder, IsCut;
    var n := |PackingOrder(ss)|;
    OrderFits(ss, |Products(ss)|);
    UsedAsRead(ss, n, budget);
    RestCutsNothing(ss, n, budget, path);
    RestKeepsOthers(ss, n, budget);
    SlotsInRange(ss, n, budget);
    if Rank(path) == 0 {
      RestSlotsOthers(ss, n, budget, path);
    }
  }
}
