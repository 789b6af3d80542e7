/** The budgeted diff packer of gatereview2.py: cutting a diff into stanzas, packing them code
    first into a character budget, and swapping hunks for whole files, cheapest first. */
module DiffPack {
  import opened PyText

  const MAX_DIFF: nat := 180000
  const TRUNCATE_ABOVE: nat := 2000
  const MARKER_ALLOWANCE: nat := 200

  const PRODUCT_DIRS: seq<string> :=
    ["platform/", "portal/", "agent/", "deploy/", ".circleci/", ".github/", "scripts/", "dispatcher/"]
  const LOWEST_DIRS: seq<string> := ["audit/", "test-logs/", "plans/"]

  predicate UnderAny(path: string, dirs: seq<string>) {
    exists d | d in dirs :: StartsWith(path, d)
  }

  /** 0 is product code; 3 is what is dropped first. */
  function Rank(path: string): (r: nat)
    ensures r <= 3
  {
    if UnderAny(path, PRODUCT_DIRS) then 0
    else if UnderAny(path, LOWEST_DIRS) || EndsWith(path, ".log") then 3
    else if StartsWith(path, "docs/") then 2
    else 1
  }

  // ---- split_diff ---------------------------------------------------------------------------

  const OPENER := "diff --git "

  datatype Stanza = Stanza(path: string, text: string)

  /** The pattern `(?m)^(?=diff --git )` matches at `i`. */
  predicate Opens(text: string, i: nat) {
    At(text, i, OPENER) && (i == 0 || text[i - 1] == '\n')
  }

  /** The first opening at or after `i`, or the end of the text. */
  function NextOpen(text: string, i: nat): (j: nat)
    requires i <= |text|
    ensures i <= j <= |text|
    ensures j < |text| ==> Opens(text, j)
    ensures forall k | i <= k < j :: !Opens(text, k)
    decreases |text| - i
  {
    if i == |text| || Opens(text, i) then i else NextOpen(text, i + 1)
  }

  /** The text from `i` on, cut before every opening. */
  function Pieces(text: string, i: nat): seq<string>
    requires i <= |text|
    decreases |text| - i
  {
    if i == |text| then []
    else
      var j := NextOpen(text, i + 1);
      [text[i..j]] + Pieces(text, j)
  }

  /** What `diff --git a/(\S+) b/(\S+)` captures second at the start of a piece, else "?". */
  function PathOf(piece: string): string {
    if !At(piece, 0, "diff --git a/") then "?"
    else
      var a := SkipWord(piece, 13);
      if a == 13 || !At(piece, a, " b/") then "?"
      else
        var b := SkipWord(piece, a + 3);
        if b == a + 3 then "?" else piece[a + 3..b]
  }

  function Stanzas(pieces: seq<string>): (r: seq<Stanza>)
    ensures |r| <= |pieces|
  {
    if pieces == [] then []
    else (if Blank(pieces[0]) then [] else [Stanza(PathOf(pieces[0]), pieces[0])]) + Stanzas(pieces[1..])
  }

  function SplitDiff(text: string): seq<Stanza> {
    Stanzas(Pieces(text, 0))
  }

  function Spell(ss: seq<Stanza>): string {
    if ss == [] then [] else ss[0].text + Spell(ss[1..])
  }

  /** How much leading text is thrown away: the part before the first opening, when it is blank. */
  function BlankPreamble(text: string): (p: nat)
    ensures p <= |text|
  {
    if text == [] then 0
    else
      var j := NextOpen(text, 1);
      if Blank(text[..j]) then j else 0
  }

  /** An opening holds no line break, so the next one starts after it. */
  lemma OpeningStaysInPiece(text: string, i: nat, j: nat)
    requires Opens(text, i) && i < j <= |text| && (j == |text| || Opens(text, j))
    ensures i + |OPENER| <= j && At(text[i..j], 0, OPENER) && !Blank(text[i..j])
  {
    assert forall k | 0 <= k < |OPENER| :: text[i..i + |OPENER|][k] == text[i + k] == OPENER[k] != '\n';
    assert text[i..j][0] == OPENER[0];
    assert !IsSpace(OPENER[0]);
    assert text[i..j][0..|OPENER|] == text[i..i + |OPENER|];
  }

  lemma {:induction false} PiecesFromOpening(text: string, i: nat)
    requires i <= |text| && (i < |text| ==> Opens(text, i))
    ensures Spell(Stanzas(Pieces(text, i))) == text[i..]
    ensures forall s | s in Stanzas(Pieces(text, i)) :: At(s.text, 0, OPENER)
    decreases |text| - i
  {
    hide PathOf, Blank, At, Opens;
    if i < |text| {
      var j := NextOpen(text, i + 1);
      OpeningStaysInPiece(text, i, j);
      PiecesFromOpening(text, j);
      var head, rest := Stanza(PathOf(text[i..j]), text[i..j]), Stanzas(Pieces(text, j));
      assert Pieces(text, i)[1..] == Pieces(text, j);
      assert Stanzas(Pieces(text, i)) == [head] + rest;
      assert ([head] + rest)[1..] == rest;
      assert text[i..] == text[i..j] + text[j..];
    }
  }

  /** Nothing is lost or reordered by cutting: the stanzas spell the diff after its blank preamble,
      and past the text in front of the first opening every stanza is one `diff --git` section. */
  lemma SplitDiffSpellsDiff(text: string)
    ensures Spell(SplitDiff(text)) == text[BlankPreamble(text)..]
    ensures forall k | 1 <= k < |SplitDiff(text)| :: At(SplitDiff(text)[k].text, 0, OPENER)
  {
    hide PathOf, At, IsSpace;
    if text != [] {
      var j := NextOpen(text, 1);
      var first, rest := text[0..j], Stanzas(Pieces(text, j));
      PiecesFromOpening(text, j);
      assert text[..j] == first;
      assert Pieces(text, 0)[1..] == Pieces(text, j);
      if Blank(first) {
        assert SplitDiff(text) == rest;
      } else {
        var head := Stanza(PathOf(first), first);
        assert SplitDiff(text) == [head] + rest;
        assert ([head] + rest)[1..] == rest;
        assert text == first + text[j..];
      }
    }
  }

  /** A stanza as `git diff` prints it: one section, one opening, complete lines. */
  predicate GitShaped(s: Stanza) {
    && At(s.text, 0, OPENER) && s.text[|s.text| - 1] == '\n' && s.path == PathOf(s.text)
    && forall k | 1 <= k < |s.text| :: !Opens(s.text, k)
  }

  lemma {:induction false} NextOpenShifts(a: string, b: string, i: nat)
    requires a != [] && a[|a| - 1] == '\n' && i <= |b|
    ensures NextOpen(a + b, |a| + i) == |a| + NextOpen(b, i)
    decreases |b| - i
  {
    OpensShifts(a, b, i);
    if i == |b| || Opens(b, i) {
    } else {
      NextOpenShifts(a, b, i + 1);
    }
  }

  lemma OpensShifts(a: string, b: string, i: nat)
    requires a != [] && a[|a| - 1] == '\n' && i <= |b|
    ensures Opens(a + b, |a| + i) == Opens(b, i)
  {
  }

  lemma {:induction false} PiecesShift(a: string, b: string, i: nat)
    requires a != [] && a[|a| - 1] == '\n' && i <= |b|
    ensures Pieces(a + b, |a| + i) == Pieces(b, i)
    decreases |b| - i
  {
    hide PathOf, Blank, Opens, At, NextOpen;
    if i == |b| {
    } else {
      NextOpenShifts(a, b, i + 1);
      var j := NextOpen(b, i + 1);
      assert (a + b)[|a| + i..|a| + j] == b[i..j];
      PiecesShift(a, b, j);
    }
  }

  lemma {:induction false} FirstPieceOfSpelling(s: Stanza, rest: string, k: nat)
    requires GitShaped(s) && (rest == [] || Opens(rest, 0)) && 1 <= k <= |s.text|
    ensures NextOpen(s.text + rest, k) == |s.text|
    decreases |s.text| - k
  {
    var t := s.text + rest;
    if k < |s.text| {
      if Opens(t, k) {
        assert forall m | k <= m < k + |OPENER| :: t[m] == t[k..k + |OPENER|][m - k] == OPENER[m - k] != '\n';
        assert t[|s.text| - 1] == '\n';
        assert t[k..k + |OPENER|] == s.text[k..k + |OPENER|];
        assert Opens(s.text, k);
      }
      FirstPieceOfSpelling(s, rest, k + 1);
    } else if rest != [] {
      OpensShifts(s.text, rest, 0);
    } else {
      assert t == s.text;
    }
  }

  lemma SplitDiffPeels(s: Stanza, rest: string)
    requires GitShaped(s) && (rest == [] || Opens(rest, 0))
    ensures SplitDiff(s.text + rest) == [s] + SplitDiff(rest)
  {
    var t := s.text + rest;
    FirstPieceOfSpelling(s, rest, 1);
    assert t[0..|s.text|] == s.text;
    PiecesShift(s.text, rest, 0);
    assert Pieces(t, 0)[1..] == Pieces(rest, 0);
    assert s.text[0] == s.text[0..|OPENER|][0] == OPENER[0];
    assert !IsSpace(OPENER[0]);
  }

  /** Round trip: cutting what git printed gives back git's own sections, paths included. */
  lemma {:induction false} SplitDiffInvertsSpell(ss: seq<Stanza>)
    requires forall s | s in ss :: GitShaped(s)
    ensures SplitDiff(Spell(ss)) == ss
  {
    if ss == [] {
    } else {
      SplitDiffInvertsSpell(ss[1..]);
      if ss[1..] != [] {
        assert ss[1] in ss;
        SpellOpens(ss[1..]);
      }
      SplitDiffPeels(ss[0], Spell(ss[1..]));
    }
  }

  lemma SpellOpens(ss: seq<Stanza>)
    requires ss != [] && GitShaped(ss[0])
    ensures Opens(Spell(ss), 0)
  {
  }

  lemma {:induction false} StanzasSnoc(pieces: seq<string>, p: string)
    ensures Stanzas(pieces + [p]) == Stanzas(pieces) + if Blank(p) then [] else [Stanza(PathOf(p), p)]
  {
    hide PathOf, Blank;
    if pieces == [] {
      assert [p][1..] == [];
    } else {
      StanzasSnoc(pieces[1..], p);
      assert (pieces + [p])[1..] == pieces[1..] + [p];
    }
  }

  method SplitDiffByLoop(text: string) returns (out: seq<Stanza>)
    ensures out == SplitDiff(text)
  {
    hide PathOf, Pieces, Stanzas;
    out := [];
    var parts := Pieces(text, 0);
    var k := 0;
    while k < |parts|
      invariant 0 <= k <= |parts|
      invariant out == Stanzas(parts[..k])
    {
      var p := parts[k];
      StanzasSnoc(parts[..k], p);
      assert parts[..k + 1] == parts[..k] + [p];
      if !Blank(p) {
        out := out + [Stanza(PathOf(p), p)];
      }
      k := k + 1;
    }
    assert parts[..|parts|] == parts;
  }

  // ---- pack_diff: the packing pass ----------------------------------------------------------

  datatype Entry = Entry(path: string, size: nat)

  /** A dropped row; `tail` marks the "(TAIL ONLY)" suffix of a head-truncated file. */
  datatype Drop = Drop(path: string, tail: bool, size: nat)

  /** `packed` with its insertion order in `slots`, and the three accumulators of the loop. */
  datatype Pack = Pack(packed: map<nat, string>, slots: seq<nat>, kept: seq<Entry>, dropped: seq<Drop>, used: nat)

  const EMPTY_PACK := Pack(map[], [], [], [], 0)

  function Marker(omitted: nat, path: string): string {
    "\n[... " + Decimal(omitted) + " bytes of " + path + " truncated ...]\n"
  }

  /** The indices from `i` on whose stanza has rank `r`, in diff order. */
  function OfRank(ss: seq<Stanza>, r: nat, i: nat): (idx: seq<nat>)
    requires i <= |ss|
    ensures forall k | 0 <= k < |idx| :: i <= idx[k] < |ss| && Rank(ss[idx[k]].path) == r
    ensures forall k, m | 0 <= k < m < |idx| :: idx[k] < idx[m]
    decreases |ss| - i
  {
    if i == |ss| then []
    else (if Rank(ss[i].path) == r then [i] else []) + OfRank(ss, r, i + 1)
  }

  predicate InRange(order: seq<nat>, n: nat) {
    forall k | 0 <= k < |order| :: order[k] < n
  }

  /** `sorted(range(n), key=lambda i: (rank, i))`. */
  function PackingOrder(ss: seq<Stanza>): (order: seq<nat>)
    ensures InRange(order, |ss|)
  {
    OfRank(ss, 0, 0) + OfRank(ss, 1, 0) + OfRank(ss, 2, 0) + OfRank(ss, 3, 0)
  }

  ghost predicate Before(ss: seq<Stanza>, i: nat, j: nat)
    requires i < |ss| && j < |ss|
  {
    Rank(ss[i].path) < Rank(ss[j].path) || (Rank(ss[i].path) == Rank(ss[j].path) && i < j)
  }

  lemma {:induction false} OfRankFindsAll(ss: seq<Stanza>, i: nat, j: nat)
    requires i <= j < |ss|
    ensures j in OfRank(ss, Rank(ss[j].path), i)
    decreases j - i
  {
    hide Rank;
    if i == j {
    } else {
      OfRankFindsAll(ss, i + 1, j);
    }
  }

  /** The packing order is the one strictly increasing arrangement of all indices under (rank, index). */
  lemma PackingOrderSorts(ss: seq<Stanza>)
    ensures forall k | 0 <= k < |PackingOrder(ss)| :: PackingOrder(ss)[k] < |ss|
    ensures forall k, m | 0 <= k < m < |PackingOrder(ss)| :: Before(ss, PackingOrder(ss)[k], PackingOrder(ss)[m])
    ensures forall j | 0 <= j < |ss| :: j in PackingOrder(ss)
  {
    forall j | 0 <= j < |ss| ensures j in PackingOrder(ss) {
      OfRankFindsAll(ss, 0, j);
    }
  }

  /** One turn of the packing loop. */
  function PackStep(st: Pack, i: nat, s: Stanza, budget: nat): (r: Pack)
    requires st.used <= budget
    ensures r.used <= budget
  {
    var n := |s.text|;
    if st.used + n <= budget then
      Pack(st.packed[i := s.text], st.slots + [i], st.kept + [Entry(s.path, n)], st.dropped, st.used + n)
    else if Rank(s.path) == 0 && budget - st.used > TRUNCATE_ABOVE then
      var room := budget - st.used - MARKER_ALLOWANCE;
      Pack(st.packed[i := s.text[..room] + Marker(n - room, s.path)], st.slots + [i],
           st.kept + [Entry(s.path, room)], st.dropped + [Drop(s.path, true, n - room)], budget)
    else
      st.(dropped := st.dropped + [Drop(s.path, false, n)])
  }

  /** The packing loop after its first `k` turns over `order`. */
  function PackUpTo(ss: seq<Stanza>, order: seq<nat>, k: nat, budget: nat): (r: Pack)
    requires k <= |order| && InRange(order, |ss|)
    ensures r.used <= budget
  {
    if k == 0 then EMPTY_PACK
    else PackStep(PackUpTo(ss, order, k - 1, budget), order[k - 1], ss[order[k - 1]], budget)
  }

  function FirstPass(ss: seq<Stanza>, budget: nat): (r: Pack)
    ensures r.used <= budget
  {
    PackUpTo(ss, PackingOrder(ss), |PackingOrder(ss)|, budget)
  }

  // ---- noninterference: logs never displace code --------------------------------------------

  function Contents(st: Pack, i: nat): Option<string> {
    if i in st.packed then Some(st.packed[i]) else None
  }

  /** The product stanzas of a diff, in diff order. */
  function Products(ss: seq<Stanza>): (ps: seq<Stanza>)
    ensures |ps| == |OfRank(ss, 0, 0)|
    ensures forall k | 0 <= k < |ps| :: ps[k] == ss[OfRank(ss, 0, 0)[k]]
  {
    seq(|OfRank(ss, 0, 0)|, k requires 0 <= k < |OfRank(ss, 0, 0)| => ss[OfRank(ss, 0, 0)[k]])
  }

  lemma PackingOrderDistinct(ss: seq<Stanza>)
    ensures Distinct(PackingOrder(ss))
  {
  }

  lemma {:induction false} AllOneRank(ss: seq<Stanza>, r: nat, i: nat)
    requires i <= |ss| && forall k | 0 <= k < |ss| :: Rank(ss[k].path) == 0
    ensures |OfRank(ss, r, i)| == if r == 0 then |ss| - i else 0
    ensures r == 0 ==> forall k | 0 <= k < |ss| - i :: OfRank(ss, r, i)[k] == i + k
    decreases |ss| - i
  {
    hide Rank;
    if i == |ss| {
    } else {
      AllOneRank(ss, r, i + 1);
    }
  }

  lemma ProductsPackInOrder(ss: seq<Stanza>)
    ensures |PackingOrder(Products(ss))| == |Products(ss)| <= |PackingOrder(ss)|
    ensures forall k | 0 <= k < |Products(ss)| :: PackingOrder(Products(ss))[k] == k
    ensures forall k | 0 <= k < |Products(ss)| :: PackingOrder(ss)[k] == OfRank(ss, 0, 0)[k]
  {
    hide Rank;
    var ps := Products(ss);
    AllOneRank(ps, 0, 0);
    AllOneRank(ps, 1, 0);
    AllOneRank(ps, 2, 0);
    AllOneRank(ps, 3, 0);
  }

  /** What a stanza was given is never touched by a later turn. */
  lemma {:induction false} LaterTurnsKeep(ss: seq<Stanza>, order: seq<nat>, j: nat, k: nat, budget: nat)
    requires j < k <= |order| && InRange(order, |ss|) && Distinct(order)
    ensures Contents(PackUpTo(ss, order, k, budget), order[j]) == Contents(PackUpTo(ss, order, j + 1, budget), order[j])
  {
    hide Rank;
    if k == j + 1 {
    } else {
      LaterTurnsKeep(ss, order, j, k - 1, budget);
      TurnKeepsOthers(PackUpTo(ss, order, k - 1, budget), order[k - 1], ss[order[k - 1]], budget, order[j]);
    }
  }

  lemma TurnKeepsOthers(st: Pack, i: nat, s: Stanza, budget: nat, other: nat)
    requires st.used <= budget && i != other
    ensures Contents(PackStep(st, i, s, budget), other) == Contents(st, other)
  {
  }

  /** A turn depends on its stanza and on what was used so far, not on where the stanza stands. */
  lemma TurnsAlike(a: Pack, b: Pack, i: nat, j: nat, s: Stanza, budget: nat)
    requires a.used == b.used <= budget && i !in a.packed && j !in b.packed
    ensures PackStep(a, i, s, budget).used == PackStep(b, j, s, budget).used
    ensures Contents(PackStep(a, i, s, budget), i) == Contents(PackStep(b, j, s, budget), j)
  {
  }

  lemma {:induction false} PackedSoFar(ss: seq<Stanza>, order: seq<nat>, k: nat, budget: nat)
    requires k <= |order| && InRange(order, |ss|)
    ensures forall i | i in PackUpTo(ss, order, k, budget).packed :: i in order[..k]
  {
    hide Rank;
    if k == 0 {
    } else {
      PackedSoFar(ss, order, k - 1, budget);
      assert order[..k] == order[..k - 1] + [order[k - 1]];
    }
  }

  lemma {:induction false} PrefixesPackAlike(ss: seq<Stanza>, order: seq<nat>, ts: seq<Stanza>, other: seq<nat>,
      k: nat, budget: nat)
    requires k <= |order| && k <= |other| && InRange(order, |ss|) && InRange(other, |ts|)
    requires Distinct(order) && Distinct(other)
    requires forall m | 0 <= m < k :: ss[order[m]] == ts[other[m]]
    ensures PackUpTo(ss, order, k, budget).used == PackUpTo(ts, other, k, budget).used
    ensures k > 0 ==>
      Contents(PackUpTo(ss, order, k, budget), order[k - 1]) == Contents(PackUpTo(ts, other, k, budget), other[k - 1])
  {
    hide Rank;
    if k == 0 {
    } else {
      PrefixesPackAlike(ss, order, ts, other, k - 1, budget);
      PackedSoFar(ss, order, k - 1, budget);
      PackedSoFar(ts, other, k - 1, budget);
      TurnsAlike(PackUpTo(ss, order, k - 1, budget), PackUpTo(ts, other, k - 1, budget),
                 order[k - 1], other[k - 1], ss[order[k - 1]], budget);
    }
  }

  /** Every product stanza is shown exactly as it would be if the diff held product files alone. */
  lemma LogsNeverDisplaceCode(ss: seq<Stanza>, j: nat, budget: nat)
    requires j < |Products(ss)|
    ensures Contents(FirstPass(ss, budget), OfRank(ss, 0, 0)[j])
         == Contents(FirstPass(Products(ss), budget), j)
  {
    hide Rank, OfRank, PackingOrder, PackUpTo;
    var ps := Products(ss);
    var order, other := PackingOrder(ss), PackingOrder(ps);
    ProductsPackInOrder(ss);
    PackingOrderDistinct(ss);
    PackingOrderDistinct(ps);
    PrefixesPackAlike(ss, order, ps, other, j + 1, budget);
    LaterTurnsKeep(ss, order, j, |order|, budget);
    LaterTurnsKeep(ps, other, j, |other|, budget);
  }

  /** Two diffs with the same product stanzas show the same code, whatever else each one carries. */
  lemma SameCodeSamePack(a: seq<Stanza>, b: seq<Stanza>, j: nat, budget: nat)
    requires Products(a) == Products(b) && j < |Products(a)|
    ensures Contents(FirstPass(a, budget), OfRank(a, 0, 0)[j])
         == Contents(FirstPass(b, budget), OfRank(b, 0, 0)[j])
  {
    hide Rank;
    LogsNeverDisplaceCode(a, j, budget);
    LogsNeverDisplaceCode(b, j, budget);
  }

  // ---- what is kept, truncated and dropped --------------------------------------------------

  function KeptSize(es: seq<Entry>): nat {
    if es == [] then 0 else KeptSize(es[..|es| - 1]) + es[|es| - 1].size
  }

  function DroppedSize(ds: seq<Drop>): nat {
    if ds == [] then 0 else DroppedSize(ds[..|ds| - 1]) + ds[|ds| - 1].size
  }

  function KeptTimes(es: seq<Entry>, path: string): nat {
    if es == [] then 0 else KeptTimes(es[..|es| - 1], path) + if es[|es| - 1].path == path then 1 else 0
  }

  /** How many dropped rows name `path`; how many of them are truncated tails. */
  function DroppedTimes(ds: seq<Drop>, path: string): nat {
    if ds == [] then 0 else DroppedTimes(ds[..|ds| - 1], path) + if ds[|ds| - 1].path == path then 1 else 0
  }

  function TailTimes(ds: seq<Drop>, path: string): nat {
    if ds == [] then 0
    else TailTimes(ds[..|ds| - 1], path) + if ds[|ds| - 1].tail && ds[|ds| - 1].path == path then 1 else 0
  }

  function WeightOf(ss: seq<Stanza>, order: seq<nat>): nat
    requires InRange(order, |ss|)
  {
    if order == [] then 0 else WeightOf(ss, order[..|order| - 1]) + |ss[order[|order| - 1]].text|
  }

  function TimesIn(ss: seq<Stanza>, order: seq<nat>, path: string): nat
    requires InRange(order, |ss|)
  {
    if order == [] then 0
    else TimesIn(ss, order[..|order| - 1], path) + if ss[order[|order| - 1]].path == path then 1 else 0
  }

  lemma AppendRows(es: seq<Entry>, e: Entry, ds: seq<Drop>, d: Drop, path: string)
    ensures KeptSize(es + [e]) == KeptSize(es) + e.size
    ensures KeptTimes(es + [e], path) == KeptTimes(es, path) + if e.path == path then 1 else 0
    ensures DroppedSize(ds + [d]) == DroppedSize(ds) + d.size
    ensures DroppedTimes(ds + [d], path) == DroppedTimes(ds, path) + if d.path == path then 1 else 0
    ensures TailTimes(ds + [d], path) == TailTimes(ds, path) + if d.tail && d.path == path then 1 else 0
  {
  }

  lemma TurnConserves(st: Pack, i: nat, s: Stanza, budget: nat, path: string)
    requires st.used <= budget
    ensures var r := PackStep(st, i, s, budget);
      && KeptSize(r.kept) + DroppedSize(r.dropped) == KeptSize(st.kept) + DroppedSize(st.dropped) + |s.text|
      && KeptTimes(r.kept, path) + DroppedTimes(r.dropped, path) - TailTimes(r.dropped, path)
         == KeptTimes(st.kept, path) + DroppedTimes(st.dropped, path) - TailTimes(st.dropped, path)
            + if s.path == path then 1 else 0
  {
    hide Rank, Marker;
    var n := |s.text|;
    if st.used + n <= budget {
      AppendRows(st.kept, Entry(s.path, n), st.dropped, Drop(s.path, false, n), path);
    } else if Rank(s.path) == 0 && budget - st.used > TRUNCATE_ABOVE {
      var room := budget - st.used - MARKER_ALLOWANCE;
      AppendRows(st.kept, Entry(s.path, room), st.dropped, Drop(s.path, true, n - room), path);
    } else {
      AppendRows(st.kept, Entry(s.path, n), st.dropped, Drop(s.path, false, n), path);
    }
  }

  lemma {:induction false} ConservedSoFar(ss: seq<Stanza>, order: seq<nat>, k: nat, budget: nat, path: string)
    requires k <= |order| && InRange(order, |ss|)
    ensures var st := PackUpTo(ss, order, k, budget);
      && KeptSize(st.kept) + DroppedSize(st.dropped) == WeightOf(ss, order[..k])
      && KeptTimes(st.kept, path) + DroppedTimes(st.dropped, path)
         == TimesIn(ss, order[..k], path) + TailTimes(st.dropped, path)
  {
    if k == 0 {
    } else {
      hide PackStep;
      ConservedSoFar(ss, order, k - 1, budget, path);
      assert order[..k][..k - 1] == order[..k - 1];
      TurnConserves(PackUpTo(ss, order, k - 1, budget), order[k - 1], ss[order[k - 1]], budget, path);
    }
  }

  lemma {:induction false} WeightConcat(ss: seq<Stanza>, a: seq<nat>, b: seq<nat>, path: string)
    requires InRange(a, |ss|) && InRange(b, |ss|)
    ensures InRange(a + b, |ss|)
    ensures WeightOf(ss, a + b) == WeightOf(ss, a) + WeightOf(ss, b)
    ensures TimesIn(ss, a + b, path) == TimesIn(ss, a, path) + TimesIn(ss, b, path)
  {
    if b == [] {
      assert a + b == a;
    } else {
      WeightConcat(ss, a, b[..|b| - 1], path);
      assert (a + b)[..|a + b| - 1] == a + b[..|b| - 1];
    }
  }

  function Named(ss: seq<Stanza>, path: string): nat {
    if ss == [] then 0 else (if ss[0].path == path then 1 else 0) + Named(ss[1..], path)
  }

  lemma RankSliceStep(ss: seq<Stanza>, r: nat, i: nat, path: string)
    requires i < |ss|
    ensures WeightOf(ss, OfRank(ss, r, i))
         == WeightOf(ss, OfRank(ss, r, i + 1)) + if Rank(ss[i].path) == r then |ss[i].text| else 0
    ensures TimesIn(ss, OfRank(ss, r, i), path)
         == TimesIn(ss, OfRank(ss, r, i + 1), path) + if Rank(ss[i].path) == r && ss[i].path == path then 1 else 0
  {
    hide Rank;
    var rest := OfRank(ss, r, i + 1);
    if Rank(ss[i].path) == r {
      WeightConcat(ss, [i], rest, path);
      assert [i][..0] == [];
    } else {
      assert [] + rest == rest;
    }
  }

  lemma {:induction false} RankSlicesCover(ss: seq<Stanza>, i: nat, path: string)
    requires i <= |ss|
    ensures WeightOf(ss, OfRank(ss, 0, i)) + WeightOf(ss, OfRank(ss, 1, i))
          + WeightOf(ss, OfRank(ss, 2, i)) + WeightOf(ss, OfRank(ss, 3, i)) == |Spell(ss[i..])|
    ensures TimesIn(ss, OfRank(ss, 0, i), path) + TimesIn(ss, OfRank(ss, 1, i), path)
          + TimesIn(ss, OfRank(ss, 2, i), path) + TimesIn(ss, OfRank(ss, 3, i), path) == Named(ss[i..], path)
    decreases |ss| - i
  {
    hide Rank, OfRank;
    if i < |ss| {
      hide WeightOf, TimesIn;
      RankSlicesCover(ss, i + 1, path);
      assert ss[i..][1..] == ss[i + 1..];
      RankSliceStep(ss, 0, i, path);
      RankSliceStep(ss, 1, i, path);
      RankSliceStep(ss, 2, i, path);
      RankSliceStep(ss, 3, i, path);
    } else {
      NoneLeft(ss, i);
    }
  }

  lemma NoneLeft(ss: seq<Stanza>, i: nat)
    requires i == |ss|
    ensures forall r: nat | r <= 3 :: OfRank(ss, r, i) == []
  {
  }

  lemma OrderCovers(ss: seq<Stanza>, path: string)
    ensures WeightOf(ss, PackingOrder(ss)) == |Spell(ss)|
    ensures TimesIn(ss, PackingOrder(ss), path) == Named(ss, path)
  {
    hide OfRank, WeightOf, TimesIn, Rank;
    RankSlicesCover(ss, 0, path);
    assert ss[0..] == ss;
    var a, b, c, e := OfRank(ss, 0, 0), OfRank(ss, 1, 0), OfRank(ss, 2, 0), OfRank(ss, 3, 0);
    WeightConcat(ss, a, b, path);
    WeightConcat(ss, a + b, c, path);
    WeightConcat(ss, a + b + c, e, path);
  }

  /** Every byte of the diff is counted once, as kept or as dropped, and every stanza is named once,
      the head-truncated one in both lists. */
  lemma BytesConserved(text: string, budget: nat, path: string)
    ensures var ss := SplitDiff(text); var st := FirstPass(ss, budget);
      && KeptSize(st.kept) + DroppedSize(st.dropped) == |text| - BlankPreamble(text)
      && KeptTimes(st.kept, path) + DroppedTimes(st.dropped, path) == Named(ss, path) + TailTimes(st.dropped, path)
  {
    hide SplitDiff, PackingOrder, PackUpTo, BlankPreamble, WeightOf, TimesIn;
    var ss := SplitDiff(text);
    var order := PackingOrder(ss);
    SplitDiffSpellsDiff(text);
    OrderCovers(ss, path);
    ConservedSoFar(ss, order, |order|, budget, path);
    assert order[..|order|] == order;
  }

  // ---- the emitted text ---------------------------------------------------------------------

  function Shown(packed: map<nat, string>, i: nat): string {
    if i in packed then packed[i] else []
  }

  /** `"".join(packed[i] for i in sorted(packed))`, for keys below `n`, from key `i` on. */
  function Emit(packed: map<nat, string>, i: nat, n: nat): string
    decreases n - i
  {
    if i >= n then [] else Shown(packed, i) + Emit(packed, i + 1, n)
  }

  lemma {:induction false} EmitAfterStore(packed: map<nat, string>, i: nat, n: nat, slot: nat, v: string)
    ensures |Emit(packed[slot := v], i, n)|
         == |Emit(packed, i, n)| + if i <= slot < n then |v| - |Shown(packed, slot)| else 0
    decreases n - i
  {
    if i >= n {
    } else {
      EmitAfterStore(packed, i + 1, n, slot, v);
    }
  }

  /** By how much the truncation marker overruns the room set aside for it, over all tails. */
  function Slack(ds: seq<Drop>): int {
    if ds == [] then 0
    else
      var d := ds[|ds| - 1];
      Slack(ds[..|ds| - 1]) + if d.tail then |Marker(d.size, d.path)| - MARKER_ALLOWANCE else 0
  }

  function Tails(ds: seq<Drop>): nat {
    if ds == [] then 0 else Tails(ds[..|ds| - 1]) + if ds[|ds| - 1].tail then 1 else 0
  }

  lemma MarkerLength(omitted: nat, path: string)
    ensures |Marker(omitted, path)| == 32 + |Decimal(omitted)| + |path|
  {
  }

  lemma AppendSlack(ds: seq<Drop>, d: Drop)
    ensures Slack(ds + [d]) == Slack(ds) + if d.tail then |Marker(d.size, d.path)| - MARKER_ALLOWANCE else 0
    ensures Tails(ds + [d]) == Tails(ds) + if d.tail then 1 else 0
  {
  }

  ghost predicate Accounted(st: Pack, n: nat, budget: nat) {
    && |Emit(st.packed, 0, n)| == st.used + Slack(st.dropped)
    && Tails(st.dropped) <= 1
    && (Tails(st.dropped) == 0 ==> Slack(st.dropped) == 0)
    && (Tails(st.dropped) == 1 ==> st.used == budget)
  }

  lemma TurnAccounts(st: Pack, i: nat, s: Stanza, n: nat, budget: nat)
    requires st.used <= budget && i < n && i !in st.packed && Accounted(st, n, budget)
    ensures Accounted(PackStep(st, i, s, budget), n, budget)
  {
    hide Rank, Marker, Emit, Slack, Tails;
    var len := |s.text|;
    if st.used + len <= budget {
      EmitAfterStore(st.packed, 0, n, i, s.text);
    } else if Rank(s.path) == 0 && budget - st.used > TRUNCATE_ABOVE {
      var room := budget - st.used - MARKER_ALLOWANCE;
      EmitAfterStore(st.packed, 0, n, i, s.text[..room] + Marker(len - room, s.path));
      AppendSlack(st.dropped, Drop(s.path, true, len - room));
    } else {
      AppendSlack(st.dropped, Drop(s.path, false, len));
    }
  }

  lemma {:induction false} EmptyEmits(i: nat, n: nat)
    ensures Emit(map[], i, n) == []
    decreases n - i
  {
    if i >= n {
    } else {
      EmptyEmits(i + 1, n);
    }
  }

  lemma {:induction false} AccountedSoFar(ss: seq<Stanza>, order: seq<nat>, k: nat, budget: nat)
    requires k <= |order| && InRange(order, |ss|) && Distinct(order)
    ensures Accounted(PackUpTo(ss, order, k, budget), |ss|, budget)
  {
    if k == 0 {
      EmptyEmits(0, |ss|);
    } else {
      hide PackStep, Accounted;
      AccountedSoFar(ss, order, k - 1, budget);
      PackedSoFar(ss, order, k - 1, budget);
      assert order[k - 1] !in order[..k - 1];
      TurnAccounts(PackUpTo(ss, order, k - 1, budget), order[k - 1], ss[order[k - 1]], |ss|, budget);
    }
  }

  /** The text of the first pass is exactly `used` characters long plus the marker's overrun; it
      fits the budget if and only if the marker fits the 200 characters set aside for it, and at
      most one file is head-truncated. */
  lemma FirstPassLength(ss: seq<Stanza>, budget: nat)
    ensures var st := FirstPass(ss, budget);
      && |Emit(st.packed, 0, |ss|)| == st.used + Slack(st.dropped)
      && Tails(st.dropped) <= 1
      && (|Emit(st.packed, 0, |ss|)| <= budget <==> Slack(st.dropped) <= 0)
  {
    PackingOrderDistinct(ss);
    AccountedSoFar(ss, PackingOrder(ss), |PackingOrder(ss)|, budget);
  }

  // ---- what becomes of every product file ---------------------------------------------------

  /** How much of the budget the first `k` product stanzas use. */
  function UsedByCode(ps: seq<Stanza>, k: nat, budget: nat): (used: nat)
    requires k <= |ps|
    ensures used <= budget
  {
    if k == 0 then 0
    else
      var u, n := UsedByCode(ps, k - 1, budget), |ps[k - 1].text|;
      if u + n <= budget then u + n else if budget - u > TRUNCATE_ABOVE then budget else u
  }

  /** What the reader gets to see of product stanza `k`: all of it, its head and a marker, or nothing. */
  function ShownOf(ps: seq<Stanza>, k: nat, budget: nat): Option<string>
    requires k < |ps|
  {
    var u, s := UsedByCode(ps, k, budget), ps[k];
    if u + |s.text| <= budget then Some(s.text)
    else if budget - u > TRUNCATE_ABOVE then
      var room := budget - u - MARKER_ALLOWANCE;
      Some(s.text[..room] + Marker(|s.text| - room, s.path))
    else None
  }

  lemma CodeTurn(st: Pack, i: nat, s: Stanza, budget: nat)
    requires st.used <= budget && i !in st.packed && Rank(s.path) == 0
    ensures var r, n := PackStep(st, i, s, budget), |s.text|;
      && r.used == (if st.used + n <= budget then st.used + n else if budget - st.used > TRUNCATE_ABOVE then budget
        else st.used)
      && Contents(r, i) ==
           (if st.used + n <= budget then Some(s.text)
            else if budget - st.used > TRUNCATE_ABOVE then
              var room := budget - st.used - MARKER_ALLOWANCE;
              Some(s.text[..room] + Marker(n - room, s.path))
            else None)
  {
  }

  lemma OrderFits(ss: seq<Stanza>, k: nat)
    requires k <= |Products(ss)|
    ensures k <= |PackingOrder(ss)|
    ensures k < |Products(ss)| ==>
      k < |PackingOrder(ss)| && ss[PackingOrder(ss)[k]] == Products(ss)[k] && Rank(Products(ss)[k].path) == 0
      && PackingOrder(ss)[k] == OfRank(ss, 0, 0)[k]
  {
    hide Rank;
    ProductsPackInOrder(ss);
  }

  lemma {:induction false} CodeUses(ss: seq<Stanza>, k: nat, budget: nat)
    requires k <= |Products(ss)| && k <= |PackingOrder(ss)|
    ensures PackUpTo(ss, PackingOrder(ss), k, budget).used == UsedByCode(Products(ss), k, budget)
  {
    hide Rank, PackStep, OfRank, PackingOrder, Products;
    if k == 0 {
    } else {
      var order := PackingOrder(ss);
      CodeUses(ss, k - 1, budget);
      OrderFits(ss, k - 1);
      PackingOrderDistinct(ss);
      PackedSoFar(ss, order, k - 1, budget);
      assert order[k - 1] !in order[..k - 1];
      CodeTurn(PackUpTo(ss, order, k - 1, budget), order[k - 1], ss[order[k - 1]], budget);
    }
  }

  /** Every product file is shown whole, shown up to the end of the budget, or left out, as the room that is left
      when its turn comes demands: it is left out exactly if it does not fit and at most 2000 characters are left
      at that turn. */
  lemma ProductShownExactly(ss: seq<Stanza>, j: nat, budget: nat)
    requires j < |Products(ss)|
    ensures Contents(FirstPass(ss, budget), OfRank(ss, 0, 0)[j]) == ShownOf(Products(ss), j, budget)
    ensures Contents(FirstPass(ss, budget), OfRank(ss, 0, 0)[j]) == None <==>
      (var used := UsedByCode(Products(ss), j, budget);
       used + |Products(ss)[j].text| > budget && budget - used <= TRUNCATE_ABOVE)
  {
    hide Rank, PackStep, OfRank, PackingOrder, Products, Marker, UsedByCode;
    var order := PackingOrder(ss);
    OrderFits(ss, j);
    CodeUses(ss, j, budget);
    PackingOrderDistinct(ss);
    LaterTurnsKeep(ss, order, j, |order|, budget);
    PackedSoFar(ss, order, j, budget);
    assert order[j] !in order[..j];
    CodeTurn(PackUpTo(ss, order, j, budget), order[j], ss[order[j]], budget);
  }

  // ---- the marker's overrun, before the packing ---------------------------------------------

  /** By how much the marker overruns its allowance if product stanza `k` is truncated. */
  function OverrunAt(ps: seq<Stanza>, k: nat, budget: nat): int
    requires k < |ps|
  {
    var u, n := UsedByCode(ps, k, budget), |ps[k].text|;
    if u + n > budget && budget - u > TRUNCATE_ABOVE
    then |Decimal(n - (budget - u - MARKER_ALLOWANCE))| + |ps[k].path| - 168
    else 0
  }

  function OverrunUpTo(ps: seq<Stanza>, k: nat, budget: nat): int
    requires k <= |ps|
  {
    if k == 0 then 0 else OverrunUpTo(ps, k - 1, budget) + OverrunAt(ps, k - 1, budget)
  }

  lemma TurnOverruns(st: Pack, i: nat, s: Stanza, budget: nat)
    requires st.used <= budget
    ensures Slack(PackStep(st, i, s, budget).dropped) == Slack(st.dropped) +
      (if st.used + |s.text| > budget && Rank(s.path) == 0 && budget - st.used > TRUNCATE_ABOVE
       then |Decimal(|s.text| - (budget - st.used - MARKER_ALLOWANCE))| + |s.path| - 168 else 0)
  {
    hide Rank, Marker, Slack, Decimal;
    var n := |s.text|;
    if st.used + n <= budget {
    } else if Rank(s.path) == 0 && budget - st.used > TRUNCATE_ABOVE {
      var room := budget - st.used - MARKER_ALLOWANCE;
      AppendSlack(st.dropped, Drop(s.path, true, n - room));
      MarkerLength(n - room, s.path);
    } else {
      AppendSlack(st.dropped, Drop(s.path, false, n));
    }
  }

  lemma {:induction false} CodeOverruns(ss: seq<Stanza>, k: nat, budget: nat)
    requires k <= |Products(ss)| && k <= |PackingOrder(ss)|
    ensures Slack(PackUpTo(ss, PackingOrder(ss), k, budget).dropped) == OverrunUpTo(Products(ss), k, budget)
  {
    hide Rank, PackStep, OfRank, PackingOrder, Products, UsedByCode, Decimal;
    if k == 0 {
    } else {
      var order := PackingOrder(ss);
      CodeOverruns(ss, k - 1, budget);
      OrderFits(ss, k - 1);
      CodeUses(ss, k - 1, budget);
      TurnOverruns(PackUpTo(ss, order, k - 1, budget), order[k - 1], ss[order[k - 1]], budget);
    }
  }

  lemma CodeComesFirst(ss: seq<Stanza>, k: nat)
    requires |Products(ss)| <= k < |PackingOrder(ss)|
    ensures Rank(ss[PackingOrder(ss)[k]].path) != 0
  {
    hide Rank;
  }

  lemma {:induction false} RestOverrunsNothing(ss: seq<Stanza>, k: nat, budget: nat)
    requires |Products(ss)| <= k <= |PackingOrder(ss)|
    ensures Slack(PackUpTo(ss, PackingOrder(ss), k, budget).dropped)
      == OverrunUpTo(Products(ss), |Products(ss)|, budget)
  {
    hide Rank, PackStep, OfRank, PackingOrder, Products, OverrunUpTo, Decimal;
    if k == |Products(ss)| {
      CodeOverruns(ss, k, budget);
    } else {
      var order := PackingOrder(ss);
      RestOverrunsNothing(ss, k - 1, budget);
      CodeComesFirst(ss, k - 1);
      TurnOverruns(PackUpTo(ss, order, k - 1, budget), order[k - 1], ss[order[k - 1]], budget);
    }
  }

  /** The first product stanza from `k` on that does not fit, with what is used before it. */
  function FirstMisfit(ps: seq<Stanza>, k: nat, used: nat, budget: nat): (r: Option<(nat, nat)>)
    requires k <= |ps| && used <= budget
    ensures r.Some? ==> k <= r.value.0 < |ps| && r.value.1 <= budget && r.value.1 + |ps[r.value.0].text| > budget
    decreases |ps| - k
  {
    if k == |ps| then None
    else if used + |ps[k].text| <= budget then FirstMisfit(ps, k + 1, used + |ps[k].text|, budget)
    else Some((k, used))
  }

  /** By how much the output of the first pass will overrun what it is said to use, read off the diff: only the first
      product stanza that does not fit can be truncated, if more than 2000 characters are left for it. */
  function Overrun(ss: seq<Stanza>, budget: nat): int {
    match FirstMisfit(Products(ss), 0, 0, budget)
    case None => 0
    case Some((j, used)) =>
      if budget - used > TRUNCATE_ABOVE
      then |Decimal(|Products(ss)[j].text| - (budget - used - MARKER_ALLOWANCE))| + |Products(ss)[j].path| - 168
      else 0
  }

  lemma {:induction false} NothingAfterMisfit(ps: seq<Stanza>, j: nat, k: nat, budget: nat)
    requires j < k <= |ps| && UsedByCode(ps, j, budget) + |ps[j].text| > budget
    ensures budget - UsedByCode(ps, k, budget) <= TRUNCATE_ABOVE
    ensures OverrunUpTo(ps, k, budget) == OverrunUpTo(ps, j + 1, budget)
  {
    hide Decimal;
    if k == j + 1 {
    } else {
      NothingAfterMisfit(ps, j, k - 1, budget);
    }
  }

  lemma {:induction false} OverrunFrom(ps: seq<Stanza>, k: nat, budget: nat)
    requires k <= |ps|
    ensures OverrunUpTo(ps, |ps|, budget) == OverrunUpTo(ps, k, budget) +
      match FirstMisfit(ps, k, UsedByCode(ps, k, budget), budget)
      case None => 0
      case Some((j, used)) =>
        (if budget - used > TRUNCATE_ABOVE
         then |Decimal(|ps[j].text| - (budget - used - MARKER_ALLOWANCE))| + |ps[j].path| - 168 else 0)
    decreases |ps| - k
  {
    hide Decimal;
    if k == |ps| {
    } else if UsedByCode(ps, k, budget) + |ps[k].text| <= budget {
      OverrunFrom(ps, k + 1, budget);
    } else {
      NothingAfterMisfit(ps, k, |ps|, budget);
    }
  }

  /** The overrun read off the diff beforehand is the one the first pass makes. */
  lemma OverrunKnown(ss: seq<Stanza>, budget: nat)
    ensures Slack(FirstPass(ss, budget).dropped) == Overrun(ss, budget)
  {
    hide Rank, PackUpTo, OfRank, PackingOrder, Products, Decimal, OverrunUpTo, FirstMisfit;
    OrderFits(ss, |Products(ss)|);
    RestOverrunsNothing(ss, |PackingOrder(ss)|, budget);
    OverrunFrom(Products(ss), 0, budget);
    NoOverrunYet(Products(ss), budget);
  }

  lemma NoOverrunYet(ps: seq<Stanza>, budget: nat)
    ensures OverrunUpTo(ps, 0, budget) == 0 && UsedByCode(ps, 0, budget) == 0
  {
  }

  lemma {:induction false} DecimalGrows(m: nat, n: nat)
    requires m <= n
    ensures |Decimal(m)| <= |Decimal(n)|
  {
    if m < 10 {
    } else {
      DecimalGrows(m / 10, n / 10);
    }
  }

  /** Product paths are short, next to the sizes of their stanzas. */
  ghost predicate ShortPaths(ss: seq<Stanza>) {
    forall k | 0 <= k < |Products(ss)| :: |Decimal(|Products(ss)[k].text|)| + |Products(ss)[k].path| <= 168
  }

  /** With short paths no budget makes the marker overrun. */
  lemma ShortPathsSuffice(ss: seq<Stanza>, budget: nat)
    requires ShortPaths(ss)
    ensures Overrun(ss, budget) <= 0
  {
    hide Decimal, Products, FirstMisfit;
    var m := FirstMisfit(Products(ss), 0, 0, budget);
    if m.Some? && budget - m.value.1 > TRUNCATE_ABOVE {
      var n := |Products(ss)[m.value.0].text|;
      DecimalGrows(n - (budget - m.value.1 - MARKER_ALLOWANCE), n);
    }
  }
}
