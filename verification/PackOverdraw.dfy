/** When `pack_diff` of gatereview2.py can exceed its budget, for every diff: an exact condition that is read off the
    diff beforehand. */
module PackOverdraw {
  import opened PyText
  import opened DiffPack
  import opened DiffUpgrade
  import opened PackDiff
  import opened PackTwins
  import opened PackCode

  // ---- sums over paths ----------------------------------------------------------------------

  function Sum(paths: seq<string>, g: string -> nat): nat {
    if paths == [] then 0 else Sum(paths[..|paths| - 1], g) + g(paths[|paths| - 1])
  }

  /** As `Sum`, but only over paths that stood in the list before. */
  function Repeats(paths: seq<string>, g: string -> nat): nat {
    if paths == [] then 0
    else
      var before, p := paths[..|paths| - 1], paths[|paths| - 1];
      Repeats(before, g) + if p in before then g(p) else 0
  }

  lemma SumSnoc(paths: seq<string>, p: string, g: string -> nat)
    ensures Sum(paths + [p], g) == Sum(paths, g) + g(p)
    ensures Repeats(paths + [p], g) == Repeats(paths, g) + if p in paths then g(p) else 0
  {
    assert (paths + [p])[..|paths|] == paths;
  }

  function Without(paths: seq<string>, j: nat): seq<string>
    requires j < |paths|
  {
    paths[..j] + paths[j + 1..]
  }

  lemma WithoutLast(paths: seq<string>, j: nat)
    requires j + 1 < |paths|
    ensures Without(paths, j) == Without(paths[..|paths| - 1], j) + [paths[|paths| - 1]]
  {
  }

  /** One place less takes its value off the sum, and off the repeats if its path stands elsewhere. */
  lemma {:induction false} TakeOutPath(paths: seq<string>, j: nat, g: string -> nat)
    requires j < |paths|
    ensures var rest, p := Without(paths, j), paths[j];
      && Sum(paths, g) == Sum(rest, g) + g(p)
      && Repeats(paths, g) == Repeats(rest, g) + if p in rest then g(p) else 0
  {
    var n := |paths| - 1;
    var before, last := paths[..n], paths[n];
    if j == n {
      assert Without(paths, j) == before;
    } else {
      TakeOutPath(before, j, g);
      WithoutLast(paths, j);
      SumSnoc(Without(before, j), last, g);
      assert before[j] == paths[j];
      assert last != paths[j] ==> (last in before <==> last in Without(before, j));
    }
  }

  lemma WithoutMultiset(paths: seq<string>, j: nat)
    requires j < |paths|
    ensures multiset(paths) == multiset(Without(paths, j)) + multiset{paths[j]}
  {
    assert paths == (paths[..j] + [paths[j]]) + paths[j + 1..];
  }

  /** Both sums depend on the paths alone, not on their order. */
  lemma {:induction false} SumsOfAnyOrder(a: seq<string>, b: seq<string>, g: string -> nat)
    requires multiset(a) == multiset(b)
    ensures Sum(a, g) == Sum(b, g) && Repeats(a, g) == Repeats(b, g)
  {
    hide Sum, Repeats;
    assert |multiset(a)| == |a| && |multiset(b)| == |b|;
    if a == [] {
      assert b == [];
    } else {
      var n := |a| - 1;
      assert a[n] in multiset(b);
      var j :| 0 <= j < |b| && b[j] == a[n];
      WithoutMultiset(a, n);
      WithoutMultiset(b, j);
      assert multiset(Without(a, n)) == multiset(a) - multiset{a[n]};
      assert multiset(Without(b, j)) == multiset(b) - multiset{a[n]};
      SumsOfAnyOrder(Without(a, n), Without(b, j), g);
      TakeOutPath(a, n, g);
      TakeOutPath(b, j, g);
      assert a[n] in multiset(Without(a, n)) <==> a[n] in multiset(Without(b, j));
    }
  }

  lemma {:induction false} SumsOfPrefix(a: seq<string>, b: seq<string>, g: string -> nat)
    ensures Sum(a, g) <= Sum(a + b, g) && Repeats(a, g) <= Repeats(a + b, g)
    ensures (forall i | 0 <= i < |b| :: g(b[i]) == 0) ==>
      Sum(a, g) == Sum(a + b, g) && Repeats(a, g) == Repeats(a + b, g)
  {
    if b == [] {
      assert a + b == a;
    } else {
      var n := |b| - 1;
      SumsOfPrefix(a, b[..n], g);
      assert a + b == (a + b[..n]) + [b[n]];
      SumSnoc(a + b[..n], b[n], g);
    }
  }

  // ---- what a file can save and cost --------------------------------------------------------

  /** By how much the shortest whole text of a shown, untruncated product file is shorter than its shown stanza. */
  function Gain(ps: seq<Stanza>, path: string, budget: nat): nat {
    var j := FirstShown(ps, |ps|, path, budget);
    if j.None? || IsCut(ps, path, budget) then 0
    else
      var long, least := |ps[j.value].text|, |LeastBlock(path)|;
      if long > least then long - least else 0
  }

  /** The gains of all files but one. */
  function GainBut(ps: seq<Stanza>, q: string, budget: nat): string -> nat {
    p => if p == q then 0 else Gain(ps, p, budget)
  }

  /** A supply of whole files can drive the output over the budget with file `q`: the others' savings are credited more
      often than they are made, by more than the marker leaves, and with what is credited the budget seems to have
      room for `q` at its shortest. */
  predicate CanOverdraw(ss: seq<Stanza>, budget: nat, q: string) {
    var ps := Products(ss);
    var code, g, j := CodePaths(ps, |ps|, budget), GainBut(ps, q, budget), FirstShown(ps, |ps|, q, budget);
    && q in code && !IsCut(ps, q, budget) && j.Some?
    && Repeats(code, g) + Overrun(ss, budget) > 0
    && |LeastBlock(q)| - |ps[j.value].text| <= Room(ss, budget) + Sum(code, g)
  }

  // ---- candidates, by their paths -----------------------------------------------------------

  function CandPaths(cs: seq<Cand>): (r: seq<string>)
    ensures |r| == |cs| && forall k | 0 <= k < |cs| :: r[k] == cs[k].path
  {
    seq(|cs|, k requires 0 <= k < |cs| => cs[k].path)
  }

  lemma CandPathsSnoc(cs: seq<Cand>, c: Cand)
    ensures CandPaths(cs + [c]) == CandPaths(cs) + [c.path]
  {
  }

  lemma CandPathsWithout(cs: seq<Cand>, j: nat)
    requires j < |cs|
    ensures CandPaths(cs[..j] + cs[j + 1..]) == Without(CandPaths(cs), j)
  {
  }

  lemma CandWithout(cs: seq<Cand>, j: nat)
    requires j < |cs|
    ensures multiset(cs[..j] + cs[j + 1..]) == multiset(cs) - multiset{cs[j]}
  {
    assert cs == (cs[..j] + [cs[j]]) + cs[j + 1..];
  }

  function LessOne(cs: seq<Cand>, j: nat): seq<Cand>
    requires j < |cs|
  {
    cs[..j] + cs[j + 1..]
  }

  lemma PutBack(a: seq<Cand>, i: nat, b: seq<Cand>, j: nat)
    requires i < |a| && j < |b| && a[i] == b[j]
    requires multiset(CandPaths(LessOne(a, i))) == multiset(CandPaths(LessOne(b, j)))
    ensures multiset(CandPaths(a)) == multiset(CandPaths(b))
  {
    hide Without;
    CandPathsWithout(a, i);
    CandPathsWithout(b, j);
    WithoutMultiset(CandPaths(a), i);
    WithoutMultiset(CandPaths(b), j);
  }

  lemma SameLessOne(a: seq<Cand>, b: seq<Cand>) returns (j: nat)
    requires multiset(a) == multiset(b) && a != []
    ensures j < |b| && b[j] == a[0] && multiset(LessOne(a, 0)) == multiset(LessOne(b, j)) && |LessOne(a, 0)| < |a|
  {
    assert a[0] in multiset(b);
    j :| 0 <= j < |b| && b[j] == a[0];
    CandWithout(a, 0);
    CandWithout(b, j);
  }

  lemma {:induction false} SamePaths(a: seq<Cand>, b: seq<Cand>)
    requires multiset(a) == multiset(b)
    ensures multiset(CandPaths(a)) == multiset(CandPaths(b))
    decreases |a|
  {
    hide CandPaths, LessOne;
    if a == [] {
      assert |multiset(a)| == 0 && |multiset(b)| == |b|;
    } else {
      var j := SameLessOne(a, b);
      SamePaths(LessOne(a, 0), LessOne(b, j));
      PutBack(a, 0, b, j);
    }
  }

  /** No candidate saves more than its gain, and two of them have one slot exactly if they have one path. */
  ghost predicate Bounded(cs: seq<Cand>, g: string -> nat) {
    && (forall k | 0 <= k < |cs| :: cs[k].extra >= -(g(cs[k].path) as int))
    && forall j, k | 0 <= j < |cs| && 0 <= k < |cs| :: cs[j].slot == cs[k].slot <==> cs[j].path == cs[k].path
  }

  lemma BoundedPrefix(cs: seq<Cand>, n: nat, g: string -> nat)
    requires Bounded(cs, g) && n <= |cs|
    ensures Bounded(cs[..n], g)
  {
  }

  lemma {:induction false} SpendAtLeast(cs: seq<Cand>, g: string -> nat)
    requires Bounded(cs, g)
    ensures Spend(cs) >= -(Sum(CandPaths(cs), g) as int)
  {
    if cs == [] {
    } else {
      var n := |cs| - 1;
      BoundedPrefix(cs, n, g);
      SpendAtLeast(cs[..n], g);
      assert cs == cs[..n] + [cs[n]];
      CandPathsSnoc(cs[..n], cs[n]);
      SumSnoc(CandPaths(cs[..n]), cs[n].path, g);
    }
  }

  /** The one candidate `i` apart. */
  lemma {:induction false} SpendWithOne(cs: seq<Cand>, i: nat, g: string -> nat)
    requires Bounded(cs, g) && i < |cs| && g(cs[i].path) == 0
    ensures Spend(cs) >= cs[i].extra - Sum(CandPaths(cs), g)
  {
    var n := |cs| - 1;
    BoundedPrefix(cs, n, g);
    assert cs == cs[..n] + [cs[n]];
    CandPathsSnoc(cs[..n], cs[n]);
    SumSnoc(CandPaths(cs[..n]), cs[n].path, g);
    if i == n {
      SpendAtLeast(cs[..n], g);
    } else {
      SpendWithOne(cs[..n], i, g);
    }
  }

  lemma TakenIffPathSeen(cs: seq<Cand>, g: string -> nat)
    requires cs != [] && Bounded(cs, g)
    ensures var n := |cs| - 1; SlotTaken(cs[..n], cs[n].slot) <==> cs[n].path in CandPaths(cs[..n])
  {
    var n := |cs| - 1;
    var before := cs[..n];
    assert forall k | 0 <= k < n :: before[k] == cs[k];
    if SlotTaken(before, cs[n].slot) {
      var k :| 0 <= k < n && before[k].slot == cs[n].slot;
      assert CandPaths(before)[k] == cs[n].path;
    }
    if cs[n].path in CandPaths(before) {
      var k :| 0 <= k < n && CandPaths(before)[k] == cs[n].path;
      assert before[k].slot == cs[n].slot;
    }
  }

  lemma {:induction false} RepaidAtLeast(cs: seq<Cand>, g: string -> nat)
    requires Bounded(cs, g)
    ensures Repaid(cs) >= -(Repeats(CandPaths(cs), g) as int)
  {
    if cs == [] {
    } else {
      var n := |cs| - 1;
      BoundedPrefix(cs, n, g);
      RepaidAtLeast(cs[..n], g);
      TakenIffPathSeen(cs, g);
      assert cs == cs[..n] + [cs[n]];
      CandPathsSnoc(cs[..n], cs[n]);
      SumSnoc(CandPaths(cs[..n]), cs[n].path, g);
    }
  }

  /** Without a candidate that costs, nothing is gained in length. */
  lemma {:induction false} NoCostNoGrowth(cs: seq<Cand>)
    requires forall k | 0 <= k < |cs| :: cs[k].extra <= 0
    ensures Spend(cs) - Repaid(cs) <= 0
  {
    if cs == [] {
    } else {
      NoCostNoGrowth(cs[..|cs| - 1]);
    }
  }

  // ---- what the first pass offers -----------------------------------------------------------

  /** A candidate, in terms of the diff: its file is shown and not cut, and it is priced against the first stanza of
      that file that is shown. */
  lemma CandAsRead(ss: seq<Stanza>, budget: nat, w: WholeFile, c: Cand)
    requires InRange(FirstPass(ss, budget).slots, |ss|)
    requires c in Cands(ss, FirstPass(ss, budget), |FirstPass(ss, budget).kept|, w)
    ensures var ps := Products(ss); var j := FirstShown(ps, |ps|, c.path, budget);
      && Rank(c.path) == 0 && !IsCut(ps, c.path, budget) && c.path in CodePaths(ps, |ps|, budget)
      && w(c.path).Some? && w(c.path).value != "" && c.block == FullBlock(c.path, w(c.path).value)
      && j.Some? && j.value < |PackingOrder(ss)| && c.slot == PackingOrder(ss)[j.value]
      && c.extra == |c.block| - |ps[j.value].text|
  {
    hide Rank, OfRank, PackingOrder, Products, FirstShown, SlotOf, CodePaths, Truncated, IsCut, FirstPass, Cands;
    hide FullBlock;
    var st, ps := FirstPass(ss, budget), Products(ss);
    var m := CandsFromKept(ss, st, |st.kept|, w, c);
    FirstPassAsRead(ss, budget, c.path);
    var j := FirstShown(ps, |ps|, c.path, budget);
    ProductRank(ss, j.value);
    FirstPassAligned(ss, budget);
    FirstPassShows(ss, budget);
    SlotIsShown(ss, st, c.slot);
    assert PathsOf(st.kept)[m] == c.path;
  }

  /** The slot of a path is its own. */
  lemma SlotsApart(ss: seq<Stanza>, budget: nat, w: WholeFile, c: Cand, d: Cand)
    requires InRange(FirstPass(ss, budget).slots, |ss|)
    requires c in Cands(ss, FirstPass(ss, budget), |FirstPass(ss, budget).kept|, w)
    requires d in Cands(ss, FirstPass(ss, budget), |FirstPass(ss, budget).kept|, w)
    ensures c.slot == d.slot <==> c.path == d.path
    ensures c.path == d.path ==> c == d
  {
    hide Rank, OfRank, PackingOrder, Products, FirstShown, CodePaths, IsCut, FirstPass, Cands, FullBlock;
    CandAsRead(ss, budget, w, c);
    CandAsRead(ss, budget, w, d);
    ProductRank(ss, FirstShown(Products(ss), |Products(ss)|, c.path, budget).value);
    ProductRank(ss, FirstShown(Products(ss), |Products(ss)|, d.path, budget).value);
  }

  lemma SavesAtMostGain(ss: seq<Stanza>, budget: nat, w: WholeFile, c: Cand)
    requires InRange(FirstPass(ss, budget).slots, |ss|)
    requires c in Cands(ss, FirstPass(ss, budget), |FirstPass(ss, budget).kept|, w)
    ensures c.extra >= -(Gain(Products(ss), c.path, budget) as int)
  {
    hide Rank, OfRank, PackingOrder, Products, FirstShown, CodePaths, IsCut, FirstPass, Cands, FullBlock, LeastBlock;
    CandAsRead(ss, budget, w, c);
    LeastIsLeast(c.path, w(c.path).value);
  }

  /** The candidates a pass tries, and the gains they are bounded by when `q` is one that costs. */
  lemma TriedAreBounded(ss: seq<Stanza>, budget: nat, w: WholeFile, cs: seq<Cand>, q: string)
    requires InRange(FirstPass(ss, budget).slots, |ss|)
    requires forall k | 0 <= k < |cs| :: cs[k] in Cands(ss, FirstPass(ss, budget), |FirstPass(ss, budget).kept|, w)
    requires forall k | 0 <= k < |cs| && cs[k].path == q :: cs[k].extra >= 0
    ensures Bounded(cs, GainBut(Products(ss), q, budget))
  {
    hide Cands, FirstPass, Gain, Products;
    forall j, k | 0 <= j < |cs| && 0 <= k < |cs|
      ensures cs[j].slot == cs[k].slot <==> cs[j].path == cs[k].path
    {
      SlotsApart(ss, budget, w, cs[j], cs[k]);
    }
    forall k | 0 <= k < |cs|
      ensures cs[k].extra >= -(GainBut(Products(ss), q, budget)(cs[k].path) as int)
    {
      SavesAtMostGain(ss, budget, w, cs[k]);
    }
  }

  /** Offers are made for some of the kept rows, so their sums are no larger. */
  lemma {:induction false} OffersWithinRows(ss: seq<Stanza>, st: Pack, k: nat, w: WholeFile, g: string -> nat)
    requires InRange(st.slots, |ss|) && k <= |st.kept|
    ensures var offers, rows := CandPaths(Cands(ss, st, k, w)), PathsOf(st.kept[..k]);
      && Sum(offers, g) <= Sum(rows, g) && Repeats(offers, g) <= Repeats(rows, g)
      && forall p | p in offers :: p in rows
  {
    hide Cands, CandOf;
    CandsSnocAt(ss, st, k, w);
    if k == 0 {
    } else {
      OffersWithinRows(ss, st, k - 1, w, g);
      var e := st.kept[k - 1];
      RowsSnoc(st.kept, k);
      SumSnoc(PathsOf(st.kept[..k - 1]), e.path, g);
      var c := CandOf(ss, st, e, w);
      if c.Some? {
        CandPathsSnoc(Cands(ss, st, k - 1, w), c.value);
        SumSnoc(CandPaths(Cands(ss, st, k - 1, w)), e.path, g);
      }
    }
  }

  lemma CandsSnocAt(ss: seq<Stanza>, st: Pack, k: nat, w: WholeFile)
    requires InRange(st.slots, |ss|) && k <= |st.kept|
    ensures Cands(ss, st, 0, w) == []
    ensures k > 0 ==>
      var c := CandOf(ss, st, st.kept[k - 1], w);
      && Cands(ss, st, k, w) == Cands(ss, st, k - 1, w) + (if c.Some? then [c.value] else [])
      && (c.Some? ==> c.value.path == st.kept[k - 1].path)
      && Cands(ss, st, k - 1, w) + [] == Cands(ss, st, k - 1, w)
  {
    hide CandOf;
    NoCands(ss, st, w);
    if k > 0 {
      CandsSnoc(ss, st, k, w);
    }
  }

  lemma RowsSnoc(es: seq<Entry>, k: nat)
    requires 0 < k <= |es|
    ensures PathsOf(es[..k]) == PathsOf(es[..k - 1]) + [es[k - 1].path]
  {
  }

  /** Over the kept rows the sums are those over the shown product files. */
  lemma RowsSumAsCode(ss: seq<Stanza>, budget: nat, g: string -> nat)
    requires forall p | Rank(p) != 0 :: g(p) == 0
    ensures var st, ps := FirstPass(ss, budget), Products(ss); var code := CodePaths(ps, |ps|, budget);
      Sum(PathsOf(st.kept), g) == Sum(code, g) && Repeats(PathsOf(st.kept), g) == Repeats(code, g)
  {
    hide Rank, FirstPass, Products, CodePaths, Truncated, IsCut, FirstShown, SlotOf, PackingOrder;
    var st, ps := FirstPass(ss, budget), Products(ss);
    var code, rows := CodePaths(ps, |ps|, budget), PathsOf(st.kept);
    FirstPassAsRead(ss, budget, "");
    assert rows == code + rows[|code|..];
    SumsOfPrefix(code, rows[|code|..], g);
  }

  lemma OthersGainNothing(ss: seq<Stanza>, q: string, budget: nat)
    ensures forall p | Rank(p) != 0 :: GainBut(Products(ss), q, budget)(p) == 0
  {
    hide Rank, Products, FirstShown, IsCut, LeastBlock, PackingOrder;
    forall p | Rank(p) != 0
      ensures Gain(Products(ss), p, budget) == 0
    {
      var j := FirstShown(Products(ss), |Products(ss)|, p, budget);
      if j.Some? {
        ProductRank(ss, j.value);
      }
    }
  }

  /** The sums over what is tried and taken are bounded by those over the shown product files. */
  lemma TakenWithinCode(ss: seq<Stanza>, budget: nat, w: WholeFile, n: nat, q: string)
    requires InRange(FirstPass(ss, budget).slots, |ss|)
    requires n <= |SortCands(Cands(ss, FirstPass(ss, budget), |FirstPass(ss, budget).kept|, w))|
    ensures var st, ps := FirstPass(ss, budget), Products(ss);
      var taken := SortCands(Cands(ss, st, |st.kept|, w))[..n]; var code := CodePaths(ps, |ps|, budget);
      var g := GainBut(ps, q, budget);
      Sum(CandPaths(taken), g) <= Sum(code, g) && Repeats(CandPaths(taken), g) <= Repeats(code, g)
  {
    hide Rank, FirstPass, Products, CodePaths, Cands, SortCands, Gain, Sum, Repeats;
    var st, g := FirstPass(ss, budget), GainBut(Products(ss), q, budget);
    var cands := Cands(ss, st, |st.kept|, w);
    var cs := SortCands(cands);
    OthersGainNothing(ss, q, budget);
    RowsSumAsCode(ss, budget, g);
    OffersWithinRows(ss, st, |st.kept|, w, g);
    assert st.kept[..|st.kept|] == st.kept;
    SortCandsSorts(cands);
    SamePaths(cs, cands);
    SumsOfAnyOrder(CandPaths(cs), CandPaths(cands), g);
    assert CandPaths(cs) == CandPaths(cs[..n]) + CandPaths(cs[n..]);
    SumsOfPrefix(CandPaths(cs[..n]), CandPaths(cs[n..]), g);
  }

  // ---- an overdraw needs the condition ------------------------------------------------------

  lemma TakenAreTried(ss: seq<Stanza>, budget: nat, w: WholeFile)
    requires InRange(FirstPass(ss, budget).slots, |ss|)
    ensures var st, u := FirstPass(ss, budget), FinalPack(ss, budget, Some(w));
      var cs := SortCands(Cands(ss, st, |st.kept|, w));
      && |u.taken| <= |cs| && u.taken == cs[..|u.taken|] && u.used == st.used + Spend(u.taken) <= budget
      && (|u.taken| < |cs| ==> u.used + cs[|u.taken|].extra > budget) && SortedCands(cs)
      && forall k | 0 <= k < |cs| :: cs[k] in Cands(ss, st, |st.kept|, w)
  {
    hide FirstPass, Cands, SortCands, Spend, Leq;
    var st := FirstPass(ss, budget);
    var cands := Cands(ss, st, |st.kept|, w);
    var cs := SortCands(cands);
    SortCandsSorts(cands);
    TakesPrefix(Upgrade(st.packed, st.used, []), cs, |cs|, budget);
    forall k | 0 <= k < |cs|
      ensures cs[k] in cands
    {
      assert cs[k] in multiset(cands);
    }
  }

  lemma OverdrawNeeds(ss: seq<Stanza>, budget: nat, w: WholeFile) returns (q: string)
    requires Overrun(ss, budget) <= 0 && |Emit(FinalPack(ss, budget, Some(w)).packed, 0, |ss|)| > budget
    ensures CanOverdraw(ss, budget, q)
  {
    hide Rank, FirstPass, Products, CodePaths, Cands, SortCands, Gain, Sum, Repeats, FirstShown, IsCut, FinalPack;
    hide Overrun, Emit, Slack, Spend, Repaid, SortedCands, Room, LeastBlock, FullBlock, PackingOrder, SlotOf, Truncated;
    var st, u, ps := FirstPass(ss, budget), FinalPack(ss, budget, Some(w)), Products(ss);
    FirstPassAsRead(ss, budget, "");
    PackAccounts(ss, budget, Some(w));
    OverrunKnown(ss, budget);
    TakenAreTried(ss, budget, w);
    var taken := u.taken;
    if forall k | 0 <= k < |taken| :: taken[k].extra <= 0 {
      NoCostNoGrowth(taken);
    }
    var i :| 0 <= i < |taken| && taken[i].extra > 0;
    q := taken[i].path;
    forall k | 0 <= k < |taken| && taken[k].path == q
      ensures taken[k].extra >= 0
    {
      SlotsApart(ss, budget, w, taken[k], taken[i]);
    }
    var g := GainBut(ps, q, budget);
    TriedAreBounded(ss, budget, w, taken, q);
    TakenWithinCode(ss, budget, w, |taken|, q);
    SpendWithOne(taken, i, g);
    RepaidAtLeast(taken, g);
    CandAsRead(ss, budget, w, taken[i]);
    LeastIsLeast(q, w(q).value);
  }

  // ---- a whole text of every length ---------------------------------------------------------

  lemma {:induction false} OneMoreDigit(n: nat)
    ensures |Decimal(n)| <= |Decimal(n + 1)| <= |Decimal(n)| + 1
  {
    if n < 10 {
      assert (n + 1) / 10 < 10;
    } else if n % 10 == 9 {
      assert (n + 1) / 10 == n / 10 + 1;
      OneMoreDigit(n / 10);
    } else {
      assert (n + 1) / 10 == n / 10;
    }
  }

  /** Characters and newlines for a body whose block is `d` longer than the shortest. */
  lemma {:induction false} Lengths(d: nat) returns (m: nat, n: nat)
    ensures m + |Decimal(n)| == d + 1 && m <= n <= m + 1 && 0 < n
  {
    hide Decimal;
    if d == 0 {
      m, n := 0, 1;
      OneDigit();
    } else {
      m, n := Lengths(d - 1);
      OneMoreDigit(m);
      if n == m + 1 || |Decimal(m + 1)| == |Decimal(m)| {
        m, n := m + 1, m + 1;
      } else {
        n := m + 1;
      }
    }
  }

  lemma OneDigit()
    ensures |Decimal(1)| == 1
  {
  }

  lemma NewlinesGo(m: nat, n: nat)
    requires m <= n <= m + 1
    ensures RStripNewlines(if n == m then Signs(m) else Signs(m) + "\n") == Signs(m)
  {
    SignsBody(m);
    assert (Signs(m) + "\n")[..m] == Signs(m);
  }

  /** Any length from the shortest on is the length of some whole text's block. */
  lemma BodyOfLength(path: string, length: nat) returns (body: string)
    requires length >= |LeastBlock(path)|
    ensures body != "" && |FullBlock(path, body)| == length
  {
    hide Decimal, RStripNewlines, FullBlock;
    var m, n := Lengths(length - |LeastBlock(path)|);
    body := if n == m then Signs(m) else Signs(m) + "\n";
    NewlinesGo(m, n);
    BlockEncloses(path, body);
    BlockEncloses(path, "\n");
    OneNewlineGoes();
    OneDigit();
  }

  // ---- the supply that drives the output over -----------------------------------------------

  /** File `q` with the given text, and every other file that gains, at its shortest. */
  function Drive(ps: seq<Stanza>, budget: nat, q: string, body: string): WholeFile {
    p => if p == q then Some(body) else if Gain(ps, p, budget) > 0 then Some("\n") else None
  }

  lemma DriveCand(ss: seq<Stanza>, budget: nat, q: string, body: string, c: Cand)
    requires InRange(FirstPass(ss, budget).slots, |ss|)
    requires var w := Drive(Products(ss), budget, q, body);
      c in Cands(ss, FirstPass(ss, budget), |FirstPass(ss, budget).kept|, w)
    ensures var ps := Products(ss); var j := FirstShown(ps, |ps|, c.path, budget);
      && j.Some? && (c.path == q ==> c.extra == |FullBlock(q, body)| - |ps[j.value].text|)
      && (c.path != q ==> Gain(ps, c.path, budget) > 0 && c.extra == -(Gain(ps, c.path, budget) as int))
  {
    hide Rank, OfRank, PackingOrder, Products, FirstShown, CodePaths, IsCut, FirstPass, Cands, FullBlock;
    CandAsRead(ss, budget, Drive(Products(ss), budget, q, body), c);
  }

  /** A row offers its file if that is on offer, shown and not cut. */
  lemma RowOffersFile(ss: seq<Stanza>, budget: nat, w: WholeFile, m: nat)
    requires var st, ps := FirstPass(ss, budget), Products(ss);
      && InRange(st.slots, |ss|) && m < |st.kept|
      && w(st.kept[m].path).Some? && w(st.kept[m].path).value != "" && !IsCut(ps, st.kept[m].path, budget)
      && FirstShown(ps, |ps|, st.kept[m].path, budget).Some?
    ensures CandOf(ss, FirstPass(ss, budget), FirstPass(ss, budget).kept[m], w).Some?
  {
    hide Rank, OfRank, PackingOrder, Products, FirstShown, CodePaths, IsCut, FirstPass, FullBlock, SlotOf, Truncated;
    var st, ps := FirstPass(ss, budget), Products(ss);
    var path := st.kept[m].path;
    ProductRank(ss, FirstShown(ps, |ps|, path, budget).value);
    FirstPassAsRead(ss, budget, path);
  }

  /** If every row of a file that counts makes its offer, the sums are those over the rows. */
  lemma {:induction false} OffersAsRows(ss: seq<Stanza>, st: Pack, k: nat, w: WholeFile, g: string -> nat)
    requires InRange(st.slots, |ss|) && k <= |st.kept|
    requires forall m | 0 <= m < |st.kept| && g(st.kept[m].path) > 0 :: CandOf(ss, st, st.kept[m], w).Some?
    ensures var offers, rows := CandPaths(Cands(ss, st, k, w)), PathsOf(st.kept[..k]);
      && Sum(offers, g) == Sum(rows, g) && Repeats(offers, g) == Repeats(rows, g)
      && forall p | g(p) > 0 :: p in offers <==> p in rows
  {
    hide Cands, CandOf, Sum, Repeats;
    CandsSnocAt(ss, st, k, w);
    if k == 0 {
      assert CandPaths([]) == PathsOf(st.kept[..0]) == [];
    } else {
      OffersAsRows(ss, st, k - 1, w, g);
      var e := st.kept[k - 1];
      RowsSnoc(st.kept, k);
      SumSnoc(PathsOf(st.kept[..k - 1]), e.path, g);
      var c := CandOf(ss, st, e, w);
      if c.Some? {
        CandPathsSnoc(Cands(ss, st, k - 1, w), c.value);
        SumSnoc(CandPaths(Cands(ss, st, k - 1, w)), e.path, g);
      }
    }
  }

  lemma {:induction false} OfferIsCand(ss: seq<Stanza>, st: Pack, k: nat, w: WholeFile, m: nat)
    requires InRange(st.slots, |ss|) && m < k <= |st.kept| && CandOf(ss, st, st.kept[m], w).Some?
    ensures CandOf(ss, st, st.kept[m], w).value in Cands(ss, st, k, w)
  {
    hide Cands, CandOf;
    CandsSnocAt(ss, st, k, w);
    if m == k - 1 {
    } else {
      OfferIsCand(ss, st, k - 1, w, m);
    }
  }

  // ---- what it does -------------------------------------------------------------------------

  function Times(cs: seq<Cand>, q: string): nat {
    if cs == [] then 0 else Times(cs[..|cs| - 1], q) + if cs[|cs| - 1].path == q then 1 else 0
  }

  /** Candidates of `q` cost `x`, and all others save their gain. */
  ghost predicate Driven(cs: seq<Cand>, q: string, x: int, g: string -> nat) {
    && g(q) == 0 && x > 0
    && (forall k | 0 <= k < |cs| && cs[k].path == q :: cs[k].extra == x)
    && (forall k | 0 <= k < |cs| && cs[k].path != q :: cs[k].extra == -(g(cs[k].path) as int) < 0)
    && forall j, k | 0 <= j < |cs| && 0 <= k < |cs| :: cs[j].slot == cs[k].slot <==> cs[j].path == cs[k].path
  }

  lemma DrivenPrefix(cs: seq<Cand>, n: nat, q: string, x: int, g: string -> nat)
    requires Driven(cs, q, x, g) && n <= |cs|
    ensures Driven(cs[..n], q, x, g) && Bounded(cs, g)
  {
  }

  lemma TimesSnoc(cs: seq<Cand>, q: string)
    requires cs != []
    ensures Times(cs, q) == Times(cs[..|cs| - 1], q) + if cs[|cs| - 1].path == q then 1 else 0
  {
  }

  lemma OneMoreTime(x: int, k: nat)
    ensures x * (k + 1) == x * k + x
  {
  }

  lemma NothingDriven(q: string, x: int, g: string -> nat)
    ensures x * Times([], q) == Sum(CandPaths([]), g)
  {
  }

  lemma {:induction false} DrivenSpend(cs: seq<Cand>, q: string, x: int, g: string -> nat)
    requires Driven(cs, q, x, g)
    ensures Spend(cs) == x * Times(cs, q) - Sum(CandPaths(cs), g)
  {
    hide Times, CandPaths, Sum, Repeats;
    if cs == [] {
      NothingDriven(q, x, g);
    } else {
      var n := |cs| - 1;
      DrivenPrefix(cs, n, q, x, g);
      DrivenSpend(cs[..n], q, x, g);
      assert cs == cs[..n] + [cs[n]];
      CandPathsSnoc(cs[..n], cs[n]);
      SumSnoc(CandPaths(cs[..n]), cs[n].path, g);
      TimesSnoc(cs, q);
      OneMoreTime(x, Times(cs[..n], q));
    }
  }

  lemma {:induction false} NoneOrOne(cs: seq<Cand>, q: string)
    ensures Times(cs, q) == 0 <==> forall k | 0 <= k < |cs| :: cs[k].path != q
  {
    if cs == [] {
    } else {
      NoneOrOne(cs[..|cs| - 1], q);
    }
  }

  lemma NotListed(cs: seq<Cand>, q: string)
    ensures q in CandPaths(cs) <==> Times(cs, q) > 0
  {
    hide Times;
    NoneOrOne(cs, q);
    if q in CandPaths(cs) {
      var k :| 0 <= k < |cs| && CandPaths(cs)[k] == q;
    } else {
      assert forall k | 0 <= k < |cs| :: CandPaths(cs)[k] == cs[k].path;
    }
  }

  lemma {:induction false} DrivenRepaid(cs: seq<Cand>, q: string, x: int, g: string -> nat)
    requires Driven(cs, q, x, g) && Times(cs, q) <= 1
    ensures Repaid(cs) == -(Repeats(CandPaths(cs), g) as int)
  {
    hide Times, CandPaths, SlotTaken, Sum;
    if cs == [] {
      NothingRepeats(g);
    } else {
      var n := |cs| - 1;
      DrivenPrefix(cs, n, q, x, g);
      TimesSnoc(cs, q);
      DrivenRepaid(cs[..n], q, x, g);
      TakenIffPathSeen(cs, g);
      assert cs == cs[..n] + [cs[n]];
      CandPathsSnoc(cs[..n], cs[n]);
      SumSnoc(CandPaths(cs[..n]), cs[n].path, g);
      NotListed(cs[..n], q);
    }
  }

  lemma NothingRepeats(g: string -> nat)
    ensures Repeats(CandPaths([]), g) == 0
  {
  }

  lemma AtMostOnce(x: int, k: nat)
    requires x > 0 && x * k <= x
    ensures k <= 1
  {
    assert k >= 2 ==> x * k >= x * 2;
  }

  /** What is not taken of driven candidates in order is `q` alone. */
  lemma RestIsOther(cs: seq<Cand>, m: nat, q: string, x: int, g: string -> nat, used: int, budget: int)
    requires Driven(cs, q, x, g) && SortedCands(cs) && m <= |cs| && used <= budget
    requires m < |cs| ==> used + cs[m].extra > budget
    ensures forall k | m <= k < |cs| :: cs[k].path == q
  {
    forall k | m <= k < |cs|
      ensures cs[k].path == q
    {
      SortedExtras(cs, m, k);
    }
  }

  /** So the sums over what is taken are those over all. */
  lemma TakenSumsAll(cs: seq<Cand>, m: nat, q: string, g: string -> nat)
    requires m <= |cs| && g(q) == 0 && forall k | m <= k < |cs| :: cs[k].path == q
    ensures Sum(CandPaths(cs[..m]), g) == Sum(CandPaths(cs), g)
    ensures Repeats(CandPaths(cs[..m]), g) == Repeats(CandPaths(cs), g)
  {
    hide Sum, Repeats;
    assert CandPaths(cs) == CandPaths(cs[..m]) + CandPaths(cs[m..]);
    SumsOfPrefix(CandPaths(cs[..m]), CandPaths(cs[m..]), g);
  }

  /** `q` is taken once if `start` less all gains leaves room for it exactly once. */
  lemma TakenOnce(cs: seq<Cand>, m: nat, q: string, x: int, start: int, budget: int, gains: int)
    requires m <= |cs| && x > 0 && Times(cs, q) > 0 && forall k | m <= k < |cs| :: cs[k].path == q && cs[k].extra == x
    requires start - gains + x == budget && Spend(cs[..m]) == x * Times(cs[..m], q) - gains
    requires start + Spend(cs[..m]) <= budget && (m < |cs| ==> start + Spend(cs[..m]) + x > budget)
    ensures Times(cs[..m], q) == 1 && start + Spend(cs[..m]) == budget
  {
    hide Spend, Times;
    AtMostOnce(x, Times(cs[..m], q));
    assert x * 0 == 0 && x * 1 == x;
    assert m == |cs| ==> cs[..m] == cs;
  }

  /** Of driven candidates that would fill the budget exactly with `q` once, just that is taken. */
  lemma DrivenFills(cs: seq<Cand>, m: nat, q: string, x: int, g: string -> nat, start: int, budget: int)
    requires Driven(cs, q, x, g) && SortedCands(cs) && m <= |cs| && Times(cs, q) > 0
    requires start + Spend(cs[..m]) <= budget && (m < |cs| ==> start + Spend(cs[..m]) + cs[m].extra > budget)
    requires start - Sum(CandPaths(cs), g) + x == budget
    ensures start + Spend(cs[..m]) == budget && Repaid(cs[..m]) == -(Repeats(CandPaths(cs), g) as int)
  {
    hide Spend, Sum, Repeats, Repaid, Leq, SortedCands, Times, CandPaths;
    RestIsOther(cs, m, q, x, g, start + Spend(cs[..m]), budget);
    TakenSumsAll(cs, m, q, g);
    DrivenPrefix(cs, m, q, x, g);
    DrivenSpend(cs[..m], q, x, g);
    TakenOnce(cs, m, q, x, start, budget, Sum(CandPaths(cs), g));
    DrivenRepaid(cs[..m], q, x, g);
  }

  // ---- exactly ------------------------------------------------------------------------------

  /** With these whole files the output is longer than the budget. */
  ghost predicate Overdraws(ss: seq<Stanza>, budget: nat, w: WholeFile) {
    |Emit(FinalPack(ss, budget, Some(w)).packed, 0, |ss|)| > budget
  }

  /** The candidates of the driving supply are driven, and their sums are those over the shown product files. */
  lemma DriveOffers(ss: seq<Stanza>, budget: nat, q: string, body: string)
    requires body != "" && CanOverdraw(ss, budget, q) && InRange(FirstPass(ss, budget).slots, |ss|)
    ensures var ps, st := Products(ss), FirstPass(ss, budget);
      var code, g, j := CodePaths(ps, |ps|, budget), GainBut(ps, q, budget), FirstShown(ps, |ps|, q, budget).value;
      var cands := Cands(ss, st, |st.kept|, Drive(ps, budget, q, body));
      && Sum(CandPaths(cands), g) == Sum(code, g) && Repeats(CandPaths(cands), g) == Repeats(code, g)
      && q in CandPaths(cands)
  {
    hide Rank, FirstPass, Products, CodePaths, Cands, Sum, Repeats, FirstShown, IsCut, CandOf, FullBlock, LeastBlock;
    hide Overrun, Room, SlotOf, Truncated, PackingOrder;
    var ps, st, w := Products(ss), FirstPass(ss, budget), Drive(Products(ss), budget, q, body);
    var g := GainBut(ps, q, budget);
    FirstPassAsRead(ss, budget, "");
    forall m | 0 <= m < |st.kept| && (g(st.kept[m].path) > 0 || st.kept[m].path == q)
      ensures CandOf(ss, st, st.kept[m], w).Some?
    {
      RowOffersFile(ss, budget, w, m);
    }
    OffersAsRows(ss, st, |st.kept|, w, g);
    assert st.kept[..|st.kept|] == st.kept;
    OthersGainNothing(ss, q, budget);
    RowsSumAsCode(ss, budget, g);
    var i :| 0 <= i < |CodePaths(ps, |ps|, budget)| && CodePaths(ps, |ps|, budget)[i] == q;
    assert PathsOf(st.kept)[i] == q;
    OfferIsCand(ss, st, |st.kept|, w, i);
    OfferHasPath(ss, st, w, i);
    PathListed(Cands(ss, st, |st.kept|, w), CandOf(ss, st, st.kept[i], w).value);
  }

  lemma OfferHasPath(ss: seq<Stanza>, st: Pack, w: WholeFile, i: nat)
    requires InRange(st.slots, |ss|) && i < |st.kept| && CandOf(ss, st, st.kept[i], w).Some?
    ensures CandOf(ss, st, st.kept[i], w).value.path == st.kept[i].path
  {
  }

  lemma PathListed(cs: seq<Cand>, c: Cand)
    requires c in cs
    ensures c.path in CandPaths(cs)
  {
    var k :| 0 <= k < |cs| && cs[k] == c;
    assert CandPaths(cs)[k] == c.path;
  }

  lemma DriveIsDriven(ss: seq<Stanza>, budget: nat, q: string, body: string, x: int, cs: seq<Cand>)
    requires InRange(FirstPass(ss, budget).slots, |ss|) && x > 0
    requires var ps, st := Products(ss), FirstPass(ss, budget); var j := FirstShown(ps, |ps|, q, budget);
      && j.Some? && |FullBlock(q, body)| - |ps[j.value].text| == x
      && forall k | 0 <= k < |cs| :: cs[k] in Cands(ss, st, |st.kept|, Drive(ps, budget, q, body))
    ensures Driven(cs, q, x, GainBut(Products(ss), q, budget))
  {
    hide FirstPass, Products, Cands, Gain, FirstShown, FullBlock;
    var w := Drive(Products(ss), budget, q, body);
    forall k | 0 <= k < |cs|
      ensures cs[k].path == q ==> cs[k].extra == x
      ensures cs[k].path != q ==> cs[k].extra == -(GainBut(Products(ss), q, budget)(cs[k].path) as int) < 0
    {
      DriveCand(ss, budget, q, body, cs[k]);
    }
    forall j, k | 0 <= j < |cs| && 0 <= k < |cs|
      ensures cs[j].slot == cs[k].slot <==> cs[j].path == cs[k].path
    {
      SlotsApart(ss, budget, w, cs[j], cs[k]);
    }
  }

  lemma {:induction false} RepeatsWithinSum(paths: seq<string>, g: string -> nat)
    ensures Repeats(paths, g) <= Sum(paths, g)
  {
    if paths == [] {
    } else {
      RepeatsWithinSum(paths[..|paths| - 1], g);
    }
  }

  lemma DriveOverdraws(ss: seq<Stanza>, budget: nat, q: string) returns (w: WholeFile)
    requires Overrun(ss, budget) <= 0 && CanOverdraw(ss, budget, q)
    ensures Overdraws(ss, budget, w)
  {
    hide Rank, FirstPass, Products, CodePaths, Cands, SortCands, Gain, Sum, Repeats, FirstShown, IsCut, FinalPack;
    hide Times, Overrun, Emit, Slack, Spend, Repaid, SortedCands, Room, LeastBlock, FullBlock, PackingOrder, SlotOf;
    hide Truncated, Driven, Drive, CandPaths;
    var ps, st := Products(ss), FirstPass(ss, budget);
    var code, g, j := CodePaths(ps, |ps|, budget), GainBut(ps, q, budget), FirstShown(ps, |ps|, q, budget).value;
    FirstPassAsRead(ss, budget, "");
    RepeatsWithinSum(code, g);
    var x := Room(ss, budget) + Sum(code, g);
    var body := BodyOfLength(q, |ps[j].text| + x);
    w := Drive(ps, budget, q, body);
    TakenAreTried(ss, budget, w);
    var u, cands := FinalPack(ss, budget, Some(w)), Cands(ss, st, |st.kept|, w);
    var cs := SortCands(cands);
    DriveIsDriven(ss, budget, q, body, x, cs);
    DriveOffers(ss, budget, q, body);
    SortCandsSorts(cands);
    SamePaths(cs, cands);
    SumsOfAnyOrder(CandPaths(cs), CandPaths(cands), g);
    assert q in multiset(CandPaths(cs));
    PathIsTimed(cs, q);
    DrivenFills(cs, |u.taken|, q, x, g, st.used, budget);
    PackAccounts(ss, budget, Some(w));
    OverrunKnown(ss, budget);
  }

  lemma PathIsTimed(cs: seq<Cand>, q: string)
    requires q in multiset(CandPaths(cs))
    ensures Times(cs, q) > 0
  {
    NotListed(cs, q);
  }

  /** No whole files at all. */
  function NoFiles(): WholeFile {
    p => None
  }

  lemma {:induction false} NothingOffered(ss: seq<Stanza>, st: Pack, k: nat)
    requires InRange(st.slots, |ss|) && k <= |st.kept|
    ensures Cands(ss, st, k, NoFiles()) == []
  {
    CandsSnocAt(ss, st, k, NoFiles());
    if k == 0 {
    } else {
      NothingOffered(ss, st, k - 1);
    }
  }

  lemma NoFilesAsNone(ss: seq<Stanza>, budget: nat)
    ensures FinalPack(ss, budget, Some(NoFiles())).packed == FinalPack(ss, budget, None).packed
  {
    hide FirstPass, Cands, Aligned;
    var st := FirstPass(ss, budget);
    FirstPassAligned(ss, budget);
    AlignedInRange(ss, st);
    NothingOffered(ss, st, |st.kept|);
  }

  /** When the budget can be exceeded, for every diff and every budget: some supply of whole files drives the output
      over it, if and only if the truncation marker alone does, or some shown product file can be bought with
      savings that the others are credited for more often than they make them. */
  lemma OverdrawExactly(ss: seq<Stanza>, budget: nat)
    ensures (exists w: WholeFile :: Overdraws(ss, budget, w))
       <==> (Overrun(ss, budget) > 0 || exists q: string :: CanOverdraw(ss, budget, q))
  {
    hide FinalPack, Emit, Overrun, CanOverdraw;
    if Overrun(ss, budget) > 0 {
      PackFitsExactly(ss, budget, None);
      NoFilesAsNone(ss, budget);
      assert Overdraws(ss, budget, NoFiles());
    } else {
      if w: WholeFile :| Overdraws(ss, budget, w) {
        var q := OverdrawNeeds(ss, budget, w);
      }
      if q: string :| CanOverdraw(ss, budget, q) {
        var w := DriveOverdraws(ss, budget, q);
      }
    }
  }

  // ---- and when its books are right ---------------------------------------------------------

  /** Some product file is shown twice, and the first stanza shown of it is longer than its shortest block. */
  ghost predicate ShrinkingCode(ps: seq<Stanza>, budget: nat) {
    var code := CodePaths(ps, |ps|, budget);
    exists a, b | 0 <= a < b < |code| :: code[a] == code[b] && Gain(ps, code[a], budget) > 0
  }

  lemma RowsShrinkAsRead(ss: seq<Stanza>, budget: nat, m: nat, n: nat)
    requires InRange(FirstPass(ss, budget).slots, |ss|) && m < n < |FirstPass(ss, budget).kept|
    ensures var st, ps := FirstPass(ss, budget), Products(ss); var path := st.kept[m].path;
      Shrinkable(ss, st, m, n) <==> st.kept[n].path == path && Rank(path) == 0 && Gain(ps, path, budget) > 0
  {
    hide Rank, FirstPass, Products, CodePaths, FirstShown, IsCut, LeastBlock, PackingOrder, SlotOf, Truncated, Room;
    var st, ps := FirstPass(ss, budget), Products(ss);
    var path := st.kept[m].path;
    FirstPassAsRead(ss, budget, path);
    var j := FirstShown(ps, |ps|, path, budget);
    if j.Some? {
      ProductRank(ss, j.value);
    }
  }

  /** Read off the kept rows or off the diff, it is the same. */
  lemma ShrinksAsRead(ss: seq<Stanza>, budget: nat)
    ensures ShrinkableTwin(ss, budget) <==> ShrinkingCode(Products(ss), budget)
  {
    hide Rank, FirstPass, Products, CodePaths, Gain, Shrinkable, FirstShown, IsCut, PackingOrder, SlotOf, Truncated;
    hide Room;
    var st, ps := FirstPass(ss, budget), Products(ss);
    var code := CodePaths(ps, |ps|, budget);
    FirstPassAsRead(ss, budget, "");
    assert forall i | 0 <= i < |code| :: PathsOf(st.kept)[i] == code[i];
    if ShrinkableTwin(ss, budget) {
      var m, n :| 0 <= m < n < |st.kept| && Shrinkable(ss, st, m, n);
      RowsShrinkAsRead(ss, budget, m, n);
      assert code[m] == code[n];
    }
    if ShrinkingCode(ps, budget) {
      var a, b :| 0 <= a < b < |code| && code[a] == code[b] && Gain(ps, code[a], budget) > 0;
      RowsShrinkAsRead(ss, budget, a, b);
      GainIsCode(ss, code[a], budget);
    }
  }

  lemma GainIsCode(ss: seq<Stanza>, path: string, budget: nat)
    requires Gain(Products(ss), path, budget) > 0
    ensures Rank(path) == 0
  {
    hide Rank, Products, FirstShown, IsCut, LeastBlock, PackingOrder;
    ProductRank(ss, FirstShown(Products(ss), |Products(ss)|, path, budget).value);
  }

  /** The books of the packer are right for every supply of whole files, so that the output never exceeds what it is
      said to use and the marker's overrun, if and only if no product file of the diff is shown twice, uncut, with a
      first stanza longer than its shortest block. */
  lemma BooksRightExactly(ss: seq<Stanza>, budget: nat)
    ensures (forall w: WholeFile :: BooksRight(ss, budget, w)) <==> !ShrinkingCode(Products(ss), budget)
  {
    hide BooksRight, ShrinkingCode, ShrinkableTwin;
    BooksRightByRows(ss, budget);
    ShrinksAsRead(ss, budget);
  }
}
