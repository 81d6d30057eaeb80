/** The candidate search for one chamber (reco.py `compute`).

    For the hits of one super-layer in one event, `compute` decides how many hits a track
    needs, enumerates groups of hits, resolves each hit's left/right ambiguity by choosing
    entries of a doubled position list, fits every admissible choice, and keeps the one with
    the strictly smallest |chisq_comp| (the first one on a tie). The enumeration and the
    choice are specified by the functions below; the method `Compute` is the loop of the
    source and is proved to return what `ComputeSpec` describes. */
module Reco {
  import opened Wrappers
  import opened Numeric
  import opened Seqs
  import opened Combinatorics
  import opened LineFit

  /** One row of an event table, as event building and mapping leave it: the columns the
      reconstruction and the post-processing read. */
  datatype Hit = Hit(
    fpga: int,
    tdcChannel: nat,
    hitDriftTime: real,
    sl: int,
    layer: int,
    wireXGlob: real,
    wireZGlob: real,
    xLeftGlob: real,
    xRightGlob: real)

  /** A row of a reconstructed track: the hit's columns plus the shared m and q and the
      chosen position X. */
  datatype RecoRow = RecoRow(hit: Hit, m: real, q: real, x: real)

  /** The two ways `compute` raises: curve_fit raised, or no candidate was ever accepted
      and `best_data` is unbound when the output is built. */
  datatype RecoError = FitFailed | NoCandidate

  // ---------------------------------------------------------------------------------
  // Layers and the required number of hits
  // ---------------------------------------------------------------------------------

  function LayerColumn(hits: seq<Hit>): seq<int> {
    seq(|hits|, k requires 0 <= k < |hits| => hits[k].layer)
  }

  /** `df.LAYER.unique()`. */
  function DistinctLayers(hits: seq<Hit>): set<int> {
    ValueSet(LayerColumn(hits))
  }

  /** `tot_Hits`: 3 when exactly three distinct layers are present, 4 otherwise. */
  function TotHits(hits: seq<Hit>): (tot: nat)
    ensures tot == 3 <==> |DistinctLayers(hits)| == 3
    ensures tot == 4 <==> |DistinctLayers(hits)| != 3
  {
    if |DistinctLayers(hits)| == 3 then 3 else 4
  }

  // ---------------------------------------------------------------------------------
  // Outer enumeration: groups of hits
  // ---------------------------------------------------------------------------------

  predicate AllInRange(idxs: seq<seq<nat>>, n: nat) {
    forall j :: 0 <= j < |idxs| ==> InRange(idxs[j], n)
  }

  /** The groups `df.loc[index]` for the index tuples `idxs`, in order, keeping those whose
      layers are all distinct (four distinct values). */
  function FourLayerGroups(hits: seq<Hit>, idxs: seq<seq<nat>>): seq<seq<Hit>>
    requires AllInRange(idxs, |hits|)
  {
    if idxs == [] then []
    else
      var last := idxs[|idxs| - 1];
      FourLayerGroups(hits, idxs[..|idxs| - 1])
        + (if |DistinctLayers(Select(hits, last))| == 4 then [Select(hits, last)] else [])
  }

  /** `comb`: the whole table when three layers are present, otherwise every 4-subset of
      the hits (in `combinations(df.index, 4)` order) whose layers are pairwise distinct. */
  function OuterGroups(hits: seq<Hit>): seq<seq<Hit>> {
    if |DistinctLayers(hits)| == 3 then [hits]
    else
      CombinationsShape(|hits|, 4);
      FourLayerGroups(hits, Combinations(|hits|, 4))
  }

  lemma {:induction false} FourLayerGroupsFacts(hits: seq<Hit>, idxs: seq<seq<nat>>)
    requires AllInRange(idxs, |hits|)
    ensures forall g :: g in FourLayerGroups(hits, idxs) ==>
      exists j :: 0 <= j < |idxs| && g == Select(hits, idxs[j]) && |DistinctLayers(g)| == 4
    ensures forall j :: 0 <= j < |idxs| && |DistinctLayers(Select(hits, idxs[j]))| == 4 ==>
      Select(hits, idxs[j]) in FourLayerGroups(hits, idxs)
  {
    if idxs != [] {
      var init := idxs[..|idxs| - 1];
      FourLayerGroupsFacts(hits, init);
      forall g | g in FourLayerGroups(hits, idxs)
        ensures exists j :: 0 <= j < |idxs| && g == Select(hits, idxs[j]) && |DistinctLayers(g)| == 4
      {
        if g in FourLayerGroups(hits, init) {
          var j :| 0 <= j < |init| && g == Select(hits, init[j]) && |DistinctLayers(g)| == 4;
          assert init[j] == idxs[j];
        } else {
          assert g == Select(hits, idxs[|idxs| - 1]);
        }
      }
      forall j | 0 <= j < |idxs| && |DistinctLayers(Select(hits, idxs[j]))| == 4
        ensures Select(hits, idxs[j]) in FourLayerGroups(hits, idxs)
      {
        if j < |init| {
          assert init[j] == idxs[j];
        }
      }
    }
  }

  /** The outer groups: the whole table in the three-layer case; otherwise exactly the
      4-element index subsets of the hits whose layers are pairwise distinct. Every group
      consists of the chamber's own hits. */
  lemma OuterGroupsFacts(hits: seq<Hit>)
    ensures |DistinctLayers(hits)| == 3 ==> OuterGroups(hits) == [hits]
    ensures |DistinctLayers(hits)| != 3 ==>
      forall g :: g in OuterGroups(hits) ==>
        |g| == 4 && NoDuplicates(LayerColumn(g)) &&
        exists c :: IsCombination(c, 0, |hits|, 4) && g == Select(hits, c)
    ensures |DistinctLayers(hits)| != 3 ==>
      forall c :: IsCombination(c, 0, |hits|, 4) && NoDuplicates(LayerColumn(Select(hits, c))) ==>
        Select(hits, c) in OuterGroups(hits)
    ensures forall g, j :: g in OuterGroups(hits) && 0 <= j < |g| ==> g[j] in hits
  {
    if |DistinctLayers(hits)| != 3 {
      var idxs := Combinations(|hits|, 4);
      CombinationsFacts(|hits|, 4);
      FourLayerGroupsFacts(hits, idxs);
      forall g | g in OuterGroups(hits)
        ensures |g| == 4 && NoDuplicates(LayerColumn(g))
        ensures exists c :: IsCombination(c, 0, |hits|, 4) && g == Select(hits, c)
        ensures forall j :: 0 <= j < |g| ==> g[j] in hits
      {
        var j :| 0 <= j < |idxs| && g == Select(hits, idxs[j]) && |DistinctLayers(g)| == 4;
        assert idxs[j] in idxs;
        DistinctCount(LayerColumn(g));
      }
      forall c | IsCombination(c, 0, |hits|, 4) && NoDuplicates(LayerColumn(Select(hits, c)))
        ensures Select(hits, c) in OuterGroups(hits)
      {
        DistinctCount(LayerColumn(Select(hits, c)));
        var j :| 0 <= j < |idxs| && idxs[j] == c;
      }
    }
  }

  /** The groups keep the order of their index tuples: group j is the one of tuple pos[j],
      and the positions ascend. */
  lemma {:induction false} FourLayerGroupsOrder(hits: seq<Hit>, idxs: seq<seq<nat>>) returns (pos: seq<nat>)
    requires AllInRange(idxs, |hits|)
    ensures |pos| == |FourLayerGroups(hits, idxs)| && Increasing(pos)
    ensures forall j :: 0 <= j < |pos| ==>
      pos[j] < |idxs| && FourLayerGroups(hits, idxs)[j] == Select(hits, idxs[pos[j]])
  {
    if idxs == [] {
      return [];
    }
    var init, last := idxs[..|idxs| - 1], |idxs| - 1;
    var pos0 := FourLayerGroupsOrder(hits, init);
    var keep := |DistinctLayers(Select(hits, idxs[last]))| == 4;
    pos := pos0 + if keep then [last] else [];
    assert FourLayerGroups(hits, idxs) ==
      FourLayerGroups(hits, init) + (if keep then [Select(hits, idxs[last])] else []);
    forall j | 0 <= j < |pos|
      ensures pos[j] < |idxs| && FourLayerGroups(hits, idxs)[j] == Select(hits, idxs[pos[j]])
    {
      if j < |pos0| {
        assert init[pos0[j]] == idxs[pos0[j]];
      }
    }
  }

  /** With four or more layers the groups come in `combinations(df.index, 4)` order: group
      j is the hits at the 4-tuple ts[j], and the tuples ascend lexicographically. */
  lemma OuterGroupsOrder(hits: seq<Hit>) returns (ts: seq<seq<nat>>)
    ensures |DistinctLayers(hits)| != 3 ==> |ts| == |OuterGroups(hits)|
    ensures |DistinctLayers(hits)| != 3 ==> forall j :: 0 <= j < |ts| ==>
      IsCombination(ts[j], 0, |hits|, 4) && OuterGroups(hits)[j] == Select(hits, ts[j])
    ensures |DistinctLayers(hits)| != 3 ==> forall i, j :: 0 <= i < j < |ts| ==> LexLess(ts[i], ts[j])
  {
    if |DistinctLayers(hits)| == 3 {
      return [];
    }
    var idxs := Combinations(|hits|, 4);
    CombinationsShape(|hits|, 4);
    CombinationsFacts(|hits|, 4);
    var pos := FourLayerGroupsOrder(hits, idxs);
    ts := seq(|pos|, j requires 0 <= j < |pos| => idxs[pos[j]]);
  }

  // ---------------------------------------------------------------------------------
  // Inner enumeration: the doubled position list
  // ---------------------------------------------------------------------------------

  /** `X`: the right positions of the group's hits, then their left positions. */
  function XDoubled(g: seq<Hit>): seq<real> {
    seq(|g|, k requires 0 <= k < |g| => g[k].xRightGlob) + seq(|g|, k requires 0 <= k < |g| => g[k].xLeftGlob)
  }

  /** `Y`: the wire depths of the group's hits, twice. */
  function YDoubled(g: seq<Hit>): seq<real> {
    var z := seq(|g|, k requires 0 <= k < |g| => g[k].wireZGlob);
    z + z
  }

  /** Position chosen by entry `i` of the doubled list: hit i's right position for i < n,
      hit (i - n)'s left position otherwise. */
  function ChosenPosition(g: seq<Hit>, i: nat): real
    requires i < 2 * |g|
  {
    if i < |g| then g[i].xRightGlob else g[i - |g|].xLeftGlob
  }

  /** Entries i and i + n of the doubled list belong to hit i: same depth, and X holds the
      position that entry chooses. */
  lemma DoubledAt(g: seq<Hit>, i: nat)
    requires i < 2 * |g|
    ensures |XDoubled(g)| == |YDoubled(g)| == 2 * |g|
    ensures XDoubled(g)[i] == ChosenPosition(g, i)
    ensures YDoubled(g)[i] == g[i % |g|].wireZGlob
  {
    if i >= |g| {
      assert i % |g| == i - |g|;
    }
  }

  /** An inner candidate: a group and a tuple of indices into its doubled list. */
  datatype Cand = Cand(group: seq<Hit>, comb: seq<nat>)

  predicate WellFormed(c: Cand) {
    3 <= |c.comb| <= 4 && InRange(c.comb, 2 * |c.group|)
  }

  /** `len(np.unique(Y[indexes_comb])) == tot_Hits`. */
  predicate Admissible(g: seq<Hit>, comb: seq<nat>, tot: nat)
    requires InRange(comb, 2 * |g|)
  {
    |ValueSet(Select(YDoubled(g), comb))| == tot
  }

  predicate CombsFit(g: seq<Hit>, tot: nat, combs: seq<seq<nat>>) {
    forall j :: 0 <= j < |combs| ==> |combs[j]| == tot && InRange(combs[j], 2 * |g|)
  }

  /** The admissible index tuples of `combs` for group `g`, in order. */
  function CandsOf(g: seq<Hit>, tot: nat, combs: seq<seq<nat>>): (r: seq<Cand>)
    requires 3 <= tot <= 4 && CombsFit(g, tot, combs)
    ensures forall k :: 0 <= k < |r| ==>
      WellFormed(r[k]) && r[k].group == g && |r[k].comb| == tot && r[k].comb in combs &&
      Admissible(g, r[k].comb, tot)
  {
    if combs == [] then []
    else
      var init, last := combs[..|combs| - 1], combs[|combs| - 1];
      CandsOf(g, tot, init) + (if Admissible(g, last, tot) then [Cand(g, last)] else [])
  }

  /** Every candidate of every group, outer order first, then inner order. */
  function AllCands(groups: seq<seq<Hit>>, tot: nat): (r: seq<Cand>)
    requires 3 <= tot <= 4
    ensures forall k :: 0 <= k < |r| ==>
      WellFormed(r[k]) && r[k].group in groups && |r[k].comb| == tot &&
      IsCombination(r[k].comb, 0, 2 * |r[k].group|, tot) && Admissible(r[k].group, r[k].comb, tot)
  {
    if groups == [] then []
    else
      var init, g := groups[..|groups| - 1], groups[|groups| - 1];
      CombinationsFacts(2 * |g|, tot);
      AllCands(init, tot) + CandsOf(g, tot, Combinations(2 * |g|, tot))
  }

  /** All candidates of the chamber, in the order `compute` visits them. */
  function Candidates(hits: seq<Hit>): seq<Cand> {
    AllCands(OuterGroups(hits), TotHits(hits))
  }

  /** CandsOf keeps the admissible tuples in their given order: candidate k is the one of
      tuple pos[k], and the positions ascend. */
  lemma {:induction false} CandsOfOrder(g: seq<Hit>, tot: nat, combs: seq<seq<nat>>) returns (pos: seq<nat>)
    requires 3 <= tot <= 4 && CombsFit(g, tot, combs)
    ensures |pos| == |CandsOf(g, tot, combs)| && Increasing(pos)
    ensures forall k :: 0 <= k < |pos| ==>
      pos[k] < |combs| && CandsOf(g, tot, combs)[k] == Cand(g, combs[pos[k]])
  {
    if combs == [] {
      return [];
    }
    var init, last := combs[..|combs| - 1], |combs| - 1;
    assert CombsFit(g, tot, init);
    var pos0 := CandsOfOrder(g, tot, init);
    var keep := Admissible(g, combs[last], tot);
    pos := pos0 + if keep then [last] else [];
    assert CandsOf(g, tot, combs) == CandsOf(g, tot, init) + (if keep then [Cand(g, combs[last])] else []);
    forall k | 0 <= k < |pos|
      ensures pos[k] < |combs| && CandsOf(g, tot, combs)[k] == Cand(g, combs[pos[k]])
    {
      if k < |pos0| {
        assert init[pos0[k]] == combs[pos0[k]];
      }
    }
  }

  /** The candidates come group by group in the order of `groups` (group gpos[k]), and within
      one group in ascending lexicographic order of their index tuples. */
  lemma {:induction false} AllCandsOrder(groups: seq<seq<Hit>>, tot: nat) returns (gpos: seq<nat>)
    requires 3 <= tot <= 4
    ensures |gpos| == |AllCands(groups, tot)|
    ensures forall k :: 0 <= k < |gpos| ==>
      gpos[k] < |groups| && AllCands(groups, tot)[k].group == groups[gpos[k]]
    ensures forall k, l :: 0 <= k < l < |gpos| ==>
      gpos[k] < gpos[l] ||
      (gpos[k] == gpos[l] && LexLess(AllCands(groups, tot)[k].comb, AllCands(groups, tot)[l].comb))
  {
    if groups == [] {
      return [];
    }
    var init, g := groups[..|groups| - 1], groups[|groups| - 1];
    var g0 := AllCandsOrder(init, tot);
    var combs := Combinations(2 * |g|, tot);
    CombinationsFacts(2 * |g|, tot);
    var pos := CandsOfOrder(g, tot, combs);
    var prev, mine := AllCands(init, tot), CandsOf(g, tot, combs);
    var all := AllCands(groups, tot);
    assert all == prev + mine;
    gpos := g0 + seq(|mine|, _ => |groups| - 1);
    forall k | 0 <= k < |gpos|
      ensures gpos[k] < |groups| && all[k].group == groups[gpos[k]]
    {
      if k < |prev| {
        assert init[g0[k]] == groups[g0[k]];
      }
    }
    AppendGroupOrder(prev, g0, |groups| - 1, mine, combs, pos);
  }

  /** Appending the candidates of one more group, in the order of their tuples, to candidates
      ordered by earlier groups keeps the group-then-tuple order. */
  lemma AppendGroupOrder(prev: seq<Cand>, g0: seq<nat>, last: nat, mine: seq<Cand>,
                         combs: seq<seq<nat>>, pos: seq<nat>)
    requires |g0| == |prev| && forall k :: 0 <= k < |g0| ==> g0[k] < last
    requires forall k, l :: 0 <= k < l < |g0| ==>
      g0[k] < g0[l] || (g0[k] == g0[l] && LexLess(prev[k].comb, prev[l].comb))
    requires |pos| == |mine| && Increasing(pos)
    requires forall k :: 0 <= k < |pos| ==> pos[k] < |combs| && mine[k].comb == combs[pos[k]]
    requires forall i, j :: 0 <= i < j < |combs| ==> LexLess(combs[i], combs[j])
    ensures var gpos, all := g0 + seq(|mine|, _ => last), prev + mine;
      forall k, l :: 0 <= k < l < |gpos| ==>
        gpos[k] < gpos[l] || (gpos[k] == gpos[l] && LexLess(all[k].comb, all[l].comb))
  {
    var gpos, all := g0 + seq(|mine|, _ => last), prev + mine;
    forall k, l | 0 <= k < l < |gpos|
      ensures gpos[k] < gpos[l] || (gpos[k] == gpos[l] && LexLess(all[k].comb, all[l].comb))
    {
      if |prev| <= k {
        assert all[k] == mine[k - |prev|] && all[l] == mine[l - |prev|];
        assert pos[k - |prev|] < pos[l - |prev|];
      }
    }
  }

  /** `len(np.unique(Y[indexes_comb])) == tot_Hits` holds exactly when the chosen depths are
      pairwise distinct. */
  lemma AdmissibleDistinct(g: seq<Hit>, comb: seq<nat>, tot: nat)
    requires InRange(comb, 2 * |g|) && |comb| == tot
    ensures Admissible(g, comb, tot) <==> NoDuplicates(Select(YDoubled(g), comb))
  {
    DistinctCount(Select(YDoubled(g), comb));
  }

  /** Every admissible tuple of `combs` yields a candidate. */
  lemma {:induction false} CandsOfComplete(g: seq<Hit>, tot: nat, combs: seq<seq<nat>>, j: nat)
    requires 3 <= tot <= 4 && CombsFit(g, tot, combs) && j < |combs|
    requires Admissible(g, combs[j], tot)
    ensures Cand(g, combs[j]) in CandsOf(g, tot, combs)
    decreases |combs|
  {
    var init := combs[..|combs| - 1];
    if j < |combs| - 1 {
      assert init[j] == combs[j];
      assert CombsFit(g, tot, init);
      CandsOfComplete(g, tot, init, j);
    }
  }

  /** Every admissible `tot`-subset of 0..2n-1 of every group yields a candidate. */
  lemma {:induction false} AllCandsComplete(groups: seq<seq<Hit>>, tot: nat, g: seq<Hit>, c: seq<nat>)
    requires 3 <= tot <= 4 && g in groups
    requires IsCombination(c, 0, 2 * |g|, tot) && InRange(c, 2 * |g|) && Admissible(g, c, tot)
    ensures Cand(g, c) in AllCands(groups, tot)
    decreases |groups|
  {
    var init, last := groups[..|groups| - 1], groups[|groups| - 1];
    if g == last {
      var combs := Combinations(2 * |g|, tot);
      CombinationsFacts(2 * |g|, tot);
      var j :| 0 <= j < |combs| && combs[j] == c;
      CandsOfComplete(g, tot, combs, j);
    } else {
      assert g in init;
      AllCandsComplete(init, tot, g, c);
    }
  }

  /** The candidates are exactly the pairs of an outer group and a `tot_Hits`-subset of
      0..2n-1 whose chosen depths are pairwise distinct. */
  lemma CandidatesFacts(hits: seq<Hit>)
    ensures forall c: Cand :: c in Candidates(hits) <==>
      && c.group in OuterGroups(hits)
      && IsCombination(c.comb, 0, 2 * |c.group|, TotHits(hits))
      && NoDuplicates(Select(YDoubled(c.group), c.comb))
  {
    var groups, tot, cs := OuterGroups(hits), TotHits(hits), Candidates(hits);
    assert cs == AllCands(groups, tot);
    forall c | c in cs
      ensures c.group in groups && IsCombination(c.comb, 0, 2 * |c.group|, tot)
      ensures NoDuplicates(Select(YDoubled(c.group), c.comb))
    {
      var k :| 0 <= k < |cs| && cs[k] == c;
      AdmissibleDistinct(c.group, c.comb, tot);
    }
    forall c: Cand | c.group in groups && IsCombination(c.comb, 0, 2 * |c.group|, tot) &&
      NoDuplicates(Select(YDoubled(c.group), c.comb))
      ensures c in cs
    {
      AdmissibleDistinct(c.group, c.comb, tot);
      AllCandsComplete(groups, tot, c.group, c.comb);
    }
  }

  /** `compute` visits the candidates in its nested loop order: first by outer group, whose
      index 4-tuples outer[k] ascend in `combinations` order (with three layers there is one
      group, the whole table, and outer[k] is empty), then by the candidate's own index tuple,
      in ascending lexicographic order. */
  lemma CandidatesOrder(hits: seq<Hit>) returns (outer: seq<seq<nat>>)
    ensures |outer| == |Candidates(hits)|
    ensures |DistinctLayers(hits)| == 3 ==> forall k :: 0 <= k < |outer| ==>
      outer[k] == [] && Candidates(hits)[k].group == hits
    ensures |DistinctLayers(hits)| != 3 ==> forall k :: 0 <= k < |outer| ==>
      IsCombination(outer[k], 0, |hits|, 4) && Candidates(hits)[k].group == Select(hits, outer[k])
    ensures forall k, l :: 0 <= k < l < |outer| ==>
      LexLess(outer[k], outer[l]) ||
      (outer[k] == outer[l] && LexLess(Candidates(hits)[k].comb, Candidates(hits)[l].comb))
  {
    var groups, cs := OuterGroups(hits), Candidates(hits);
    assert cs == AllCands(groups, TotHits(hits));
    var gpos := AllCandsOrder(groups, TotHits(hits));
    if |DistinctLayers(hits)| == 3 {
      OuterGroupsFacts(hits);
      outer := seq(|cs|, _ => []);
    } else {
      var ts := OuterGroupsOrder(hits);
      outer := seq(|gpos|, k requires 0 <= k < |gpos| => ts[gpos[k]]);
      forall k, l | 0 <= k < l < |outer|
        ensures LexLess(outer[k], outer[l]) || (outer[k] == outer[l] && LexLess(cs[k].comb, cs[l].comb))
      {
        if gpos[k] < gpos[l] {
          assert LexLess(ts[gpos[k]], ts[gpos[l]]);
        }
      }
    }
  }

  // ---------------------------------------------------------------------------------
  // Scoring and the arg-min
  // ---------------------------------------------------------------------------------

  /** `linear_reg(X[indexes_comb], Y[indexes_comb])`. */
  function Score(curveFit: CurveFit, c: Cand): Option<FitResult>
    requires WellFormed(c)
  {
    LinearReg(curveFit, Select(XDoubled(c.group), c.comb), Select(YDoubled(c.group), c.comb))
  }

  /** `abs(regr_dict["chisq_comp"])`. */
  function AbsScore(curveFit: CurveFit, c: Cand): real
    requires WellFormed(c) && Score(curveFit, c).Some?
  {
    Abs(Score(curveFit, c).value.chisqComp)
  }

  predicate AllWellFormed(cs: seq<Cand>) {
    forall k :: 0 <= k < |cs| ==> WellFormed(cs[k])
  }

  predicate AllFitted(curveFit: CurveFit, cs: seq<Cand>)
    requires AllWellFormed(cs)
  {
    forall k :: 0 <= k < |cs| ==> Score(curveFit, cs[k]).Some?
  }

  /** Candidate `i` is the one a strict `<` scan from the largest double keeps: its score is
      below that start, no larger than any other score, and strictly smaller than every
      earlier one. */
  predicate IsFirstMin(curveFit: CurveFit, cs: seq<Cand>, i: nat)
    requires AllWellFormed(cs)
  {
    && AllFitted(curveFit, cs)
    && i < |cs|
    && AbsScore(curveFit, cs[i]) < FloatMax
    && (forall k :: 0 <= k < |cs| ==> AbsScore(curveFit, cs[i]) <= AbsScore(curveFit, cs[k]))
    && (forall k :: 0 <= k < i ==> AbsScore(curveFit, cs[i]) < AbsScore(curveFit, cs[k]))
  }

  /** The kept candidate and its fit (`best_data`/`best_comb` and `res_dict`). */
  datatype Best = Best(cand: Cand, fit: FitResult)

  /** State of the scan: `min_lambda` and the kept candidate, or aborted by a raise. */
  datatype Search = Scanning(minLambda: real, best: Option<Best>) | Aborted

  /** One iteration of the inner loop body on an admissible candidate. */
  function Step(curveFit: CurveFit, st: Search, c: Cand): Search
    requires WellFormed(c)
  {
    match st
    case Aborted => Aborted
    case Scanning(minLambda, best) =>
      match Score(curveFit, c)
      case None => Aborted
      case Some(f) =>
        if Abs(f.chisqComp) < minLambda then Scanning(Abs(f.chisqComp), Some(Best(c, f))) else st
  }

  /** The scan over `cs`, starting from `min_lambda = np.finfo(float).max`. */
  function Scan(curveFit: CurveFit, cs: seq<Cand>): (st: Search)
    requires AllWellFormed(cs)
    ensures st.Scanning? && st.best.Some? ==> WellFormed(st.best.value.cand)
  {
    if cs == [] then Scanning(FloatMax, None)
    else Step(curveFit, Scan(curveFit, cs[..|cs| - 1]), cs[|cs| - 1])
  }

  lemma ScanAppend(curveFit: CurveFit, cs: seq<Cand>, c: Cand)
    requires AllWellFormed(cs) && WellFormed(c)
    ensures AllWellFormed(cs + [c])
    ensures Scan(curveFit, cs + [c]) == Step(curveFit, Scan(curveFit, cs), c)
  {
    assert (cs + [c])[..|cs|] == cs;
  }

  /** Every score of `cs` is at least `bound`. */
  predicate AllAbove(curveFit: CurveFit, cs: seq<Cand>, bound: real)
    requires AllWellFormed(cs)
  {
    AllFitted(curveFit, cs) && forall k :: 0 <= k < |cs| ==> AbsScore(curveFit, cs[k]) >= bound
  }

  lemma AllFittedSnoc(curveFit: CurveFit, init: seq<Cand>, c: Cand)
    requires AllWellFormed(init) && WellFormed(c)
    ensures AllWellFormed(init + [c])
    ensures AllFitted(curveFit, init + [c]) <==> AllFitted(curveFit, init) && Score(curveFit, c).Some?
  {
    var cs := init + [c];
    assert cs[|init|] == c;
    assert forall k :: 0 <= k < |init| ==> cs[k] == init[k];
  }

  lemma AllAboveSnoc(curveFit: CurveFit, init: seq<Cand>, c: Cand, bound: real)
    requires AllWellFormed(init) && WellFormed(c)
    requires AllAbove(curveFit, init, bound) && Score(curveFit, c).Some?
    requires AbsScore(curveFit, c) >= bound
    ensures AllWellFormed(init + [c]) && AllAbove(curveFit, init + [c], bound)
  {
    AllFittedSnoc(curveFit, init, c);
    var cs := init + [c];
    assert forall k :: 0 <= k < |init| ==> cs[k] == init[k];
  }

  lemma FirstMinSnocKeep(curveFit: CurveFit, init: seq<Cand>, c: Cand, i: nat)
    requires AllWellFormed(init) && WellFormed(c)
    requires IsFirstMin(curveFit, init, i) && Score(curveFit, c).Some?
    requires AbsScore(curveFit, c) >= AbsScore(curveFit, init[i])
    ensures AllWellFormed(init + [c]) && IsFirstMin(curveFit, init + [c], i)
    ensures (init + [c])[i] == init[i]
  {
    AllFittedSnoc(curveFit, init, c);
    var cs := init + [c];
    assert forall k :: 0 <= k < |init| ==> cs[k] == init[k];
  }

  lemma FirstMinSnocNew(curveFit: CurveFit, init: seq<Cand>, c: Cand, bound: real)
    requires AllWellFormed(init) && WellFormed(c)
    requires AllAbove(curveFit, init, bound) && Score(curveFit, c).Some?
    requires AbsScore(curveFit, c) < bound <= FloatMax
    ensures AllWellFormed(init + [c]) && IsFirstMin(curveFit, init + [c], |init|)
  {
    AllFittedSnoc(curveFit, init, c);
    var cs := init + [c];
    assert forall k :: 0 <= k < |init| ==> cs[k] == init[k];
  }

  /** A first minimum is in particular a lower bound of every score. */
  lemma FirstMinIsBound(curveFit: CurveFit, cs: seq<Cand>, i: nat)
    requires AllWellFormed(cs) && IsFirstMin(curveFit, cs, i)
    ensures AllAbove(curveFit, cs, AbsScore(curveFit, cs[i]))
  {
  }

  /** One more scored candidate after a scan that has not aborted: the kept candidate stays
      the first minimum, or is replaced by the new one when it scores strictly lower. */
  lemma ScanStepScored(curveFit: CurveFit, init: seq<Cand>, c: Cand, i0: nat) returns (i: nat)
    requires AllWellFormed(init) && WellFormed(c)
    requires Scan(curveFit, init).Scanning? && Score(curveFit, c).Some?
    requires Scan(curveFit, init).best.None? ==>
      Scan(curveFit, init).minLambda == FloatMax && AllAbove(curveFit, init, FloatMax)
    requires Scan(curveFit, init).best.Some? ==>
      IsFirstMin(curveFit, init, i0) &&
      init[i0] == Scan(curveFit, init).best.value.cand &&
      Score(curveFit, init[i0]) == Some(Scan(curveFit, init).best.value.fit) &&
      Scan(curveFit, init).minLambda == AbsScore(curveFit, init[i0])
    ensures AllWellFormed(init + [c])
    ensures Step(curveFit, Scan(curveFit, init), c).Scanning?
    ensures Step(curveFit, Scan(curveFit, init), c).best.None? ==>
      Step(curveFit, Scan(curveFit, init), c).minLambda == FloatMax && AllAbove(curveFit, init + [c], FloatMax)
    ensures Step(curveFit, Scan(curveFit, init), c).best.Some? ==>
      IsFirstMin(curveFit, init + [c], i) &&
      (init + [c])[i] == Step(curveFit, Scan(curveFit, init), c).best.value.cand &&
      Score(curveFit, (init + [c])[i]) == Some(Step(curveFit, Scan(curveFit, init), c).best.value.fit) &&
      Step(curveFit, Scan(curveFit, init), c).minLambda == AbsScore(curveFit, (init + [c])[i])
  {
    AllFittedSnoc(curveFit, init, c);
    var minLambda, best := Scan(curveFit, init).minLambda, Scan(curveFit, init).best;
    var a := AbsScore(curveFit, c);
    i := 0;
    if best.None? {
      if a < minLambda {
        FirstMinSnocNew(curveFit, init, c, FloatMax);
        i := |init|;
      } else {
        AllAboveSnoc(curveFit, init, c, FloatMax);
      }
    } else if a < minLambda {
      FirstMinIsBound(curveFit, init, i0);
      FirstMinSnocNew(curveFit, init, c, minLambda);
      i := |init|;
    } else {
      FirstMinSnocKeep(curveFit, init, c, i0);
      i := i0;
    }
  }

  /** What the scan computes: it aborts exactly when some fit raises; it keeps nothing
      exactly when every score is at least the largest double; otherwise it keeps the first
      candidate with the smallest score. */
  lemma {:induction false} ScanOutcome(curveFit: CurveFit, cs: seq<Cand>) returns (i: nat)
    requires AllWellFormed(cs)
    ensures Scan(curveFit, cs).Aborted? <==> !AllFitted(curveFit, cs)
    ensures Scan(curveFit, cs).Scanning? && Scan(curveFit, cs).best.None? ==>
      Scan(curveFit, cs).minLambda == FloatMax && AllAbove(curveFit, cs, FloatMax)
    ensures Scan(curveFit, cs).Scanning? && Scan(curveFit, cs).best.Some? ==>
      IsFirstMin(curveFit, cs, i) &&
      cs[i] == Scan(curveFit, cs).best.value.cand &&
      Score(curveFit, cs[i]) == Some(Scan(curveFit, cs).best.value.fit) &&
      Scan(curveFit, cs).minLambda == AbsScore(curveFit, cs[i])
  {
    if cs == [] {
      return 0;
    }
    var init, c := cs[..|cs| - 1], cs[|cs| - 1];
    assert cs == init + [c];
    var i0 := ScanOutcome(curveFit, init);
    AllFittedSnoc(curveFit, init, c);
    i := 0;
    if Scan(curveFit, init).Scanning? && Score(curveFit, c).Some? {
      i := ScanStepScored(curveFit, init, c, i0);
    }
  }

  // ---------------------------------------------------------------------------------
  // The output rows
  // ---------------------------------------------------------------------------------

  /** `pd.concat([best_data, best_data], ignore_index=True).loc[best_comb]` with the columns
      m, q and X = xdata added, where xdata = X[best_comb]: row k is hit `best_comb[k] mod n`
      of the group, with the position entry `best_comb[k]` chooses and the fitted m and q. */
  function TrackRows(data: seq<Hit>, bestComb: seq<nat>, res: FitResult, xdata: seq<real>): (rows: seq<RecoRow>)
    requires InRange(bestComb, 2 * |data|) && xdata == Select(XDoubled(data), bestComb)
    ensures |rows| == |bestComb|
    ensures forall k :: 0 <= k < |bestComb| ==>
      && rows[k].hit == data[bestComb[k] % |data|]
      && rows[k].x == ChosenPosition(data, bestComb[k])
      && rows[k].m == res.m && rows[k].q == res.q
  {
    DoubledAll(data, bestComb);
    var doubled := data + data;
    seq(|bestComb|, k requires 0 <= k < |bestComb| => RecoRow(doubled[bestComb[k]], res.m, res.q, xdata[k]))
  }

  /** Entry `idx[k]` of the doubled table is hit `idx[k] mod n`, and of X the position it
      chooses. */
  lemma DoubledAll(data: seq<Hit>, idx: seq<nat>)
    requires InRange(idx, 2 * |data|)
    ensures forall k :: 0 <= k < |idx| ==>
      && (data + data)[idx[k]] == data[idx[k] % |data|]
      && XDoubled(data)[idx[k]] == ChosenPosition(data, idx[k])
  {
    forall k | 0 <= k < |idx|
      ensures (data + data)[idx[k]] == data[idx[k] % |data|]
      ensures XDoubled(data)[idx[k]] == ChosenPosition(data, idx[k])
    {
      DoubledAt(data, idx[k]);
      DoubledIndex(data, idx[k]);
    }
  }

  /** The result of `compute(df)`. */
  function ComputeSpec(curveFit: CurveFit, hits: seq<Hit>): Result<seq<RecoRow>, RecoError> {
    match Scan(curveFit, Candidates(hits))
    case Aborted => Failure(FitFailed)
    case Scanning(_, None) => Failure(NoCandidate)
    case Scanning(_, Some(b)) =>
      Success(TrackRows(b.cand.group, b.cand.comb, b.fit, Select(XDoubled(b.cand.group), b.cand.comb)))
  }

  /** The rows of candidate `c` fitted as `f`: one per chosen index, the hit that index
      belongs to, the position it chooses, and the shared slope and intercept. */
  ghost predicate IsTrack(rows: seq<RecoRow>, c: Cand, f: FitResult)
    requires WellFormed(c)
  {
    && |rows| == |c.comb|
    && |c.group| > 0
    && forall k :: 0 <= k < |rows| ==>
      && rows[k].hit == c.group[c.comb[k] % |c.group|]
      && rows[k].x == ChosenPosition(c.group, c.comb[k])
      && rows[k].m == f.m
      && rows[k].q == f.q
  }

  /** `compute` raises FitFailed exactly when some candidate's fit raises, and NoCandidate
      exactly when every fit succeeds but no score is below the largest double. */
  lemma ComputeSpecFailure(curveFit: CurveFit, hits: seq<Hit>)
    ensures ComputeSpec(curveFit, hits) == Failure(FitFailed) <==> !AllFitted(curveFit, Candidates(hits))
    ensures ComputeSpec(curveFit, hits) == Failure(NoCandidate) <==>
      AllFitted(curveFit, Candidates(hits)) &&
      forall k :: 0 <= k < |Candidates(hits)| ==> AbsScore(curveFit, Candidates(hits)[k]) >= FloatMax
  {
    var cs := Candidates(hits);
    var i := ScanOutcome(curveFit, cs);
  }

  /** On success `compute` returns the track of the first candidate with the smallest
      |chisq_comp|: exactly `tot_Hits` rows, each a hit of the chamber, with the chosen
      position and the shared m and q. */
  lemma ComputeSpecTrack(curveFit: CurveFit, hits: seq<Hit>) returns (i: nat)
    requires ComputeSpec(curveFit, hits).Success?
    ensures IsFirstMin(curveFit, Candidates(hits), i)
    ensures IsTrack(ComputeSpec(curveFit, hits).value, Candidates(hits)[i],
                    Score(curveFit, Candidates(hits)[i]).value)
    ensures |ComputeSpec(curveFit, hits).value| == TotHits(hits)
    ensures forall k :: 0 <= k < |ComputeSpec(curveFit, hits).value| ==>
      ComputeSpec(curveFit, hits).value[k].hit in hits
  {
    var cs := Candidates(hits);
    i := ScanOutcome(curveFit, cs);
    var b := Scan(curveFit, cs).best.value;
    var c := cs[i];
    var rows := TrackRows(c.group, c.comb, b.fit, Select(XDoubled(c.group), c.comb));
    assert ComputeSpec(curveFit, hits).value == rows;
    TrackRowsIsTrack(c, b.fit);
    assert |c.comb| == TotHits(hits) && c.group in OuterGroups(hits);
    TrackRowsInHits(hits, c, b.fit);
  }

  /** On success the track is that of a valid choice (an outer group and a `tot_Hits`-subset
      of its doubled positions with pairwise distinct depths) whose |chisq_comp| is no larger
      than that of any other valid choice, each of which was fitted. */
  lemma ComputeSpecOptimal(curveFit: CurveFit, hits: seq<Hit>) returns (best: Cand)
    requires ComputeSpec(curveFit, hits).Success?
    ensures && best.group in OuterGroups(hits)
            && IsCombination(best.comb, 0, 2 * |best.group|, TotHits(hits))
            && NoDuplicates(Select(YDoubled(best.group), best.comb))
    ensures WellFormed(best) && Score(curveFit, best).Some?
    ensures IsTrack(ComputeSpec(curveFit, hits).value, best, Score(curveFit, best).value)
    ensures forall c: Cand ::
      (&& c.group in OuterGroups(hits)
       && IsCombination(c.comb, 0, 2 * |c.group|, TotHits(hits))
       && NoDuplicates(Select(YDoubled(c.group), c.comb))) ==>
        WellFormed(c) && Score(curveFit, c).Some? && AbsScore(curveFit, best) <= AbsScore(curveFit, c)
  {
    var cs := Candidates(hits);
    var i := ComputeSpecTrack(curveFit, hits);
    best := cs[i];
    CandidatesFacts(hits);
    assert best in cs;
    forall c: Cand | && c.group in OuterGroups(hits)
                     && IsCombination(c.comb, 0, 2 * |c.group|, TotHits(hits))
                     && NoDuplicates(Select(YDoubled(c.group), c.comb))
      ensures WellFormed(c) && Score(curveFit, c).Some? && AbsScore(curveFit, best) <= AbsScore(curveFit, c)
    {
      assert c in cs;
      var k :| 0 <= k < |cs| && cs[k] == c;
    }
  }

  /** The rows of a candidate of an outer group are hits of the chamber. */
  lemma TrackRowsInHits(hits: seq<Hit>, c: Cand, f: FitResult)
    requires WellFormed(c) && c.group in OuterGroups(hits)
    ensures forall k :: 0 <= k < |c.comb| ==>
      TrackRows(c.group, c.comb, f, Select(XDoubled(c.group), c.comb))[k].hit in hits
  {
    OuterGroupsFacts(hits);
    assert c.comb[0] < 2 * |c.group|;
  }

  /** The rows TrackRows builds for a well-formed candidate are its track. */
  lemma TrackRowsIsTrack(c: Cand, f: FitResult)
    requires WellFormed(c)
    ensures IsTrack(TrackRows(c.group, c.comb, f, Select(XDoubled(c.group), c.comb)), c, f)
  {
    assert c.comb[0] < 2 * |c.group|;
  }

  lemma DoubledIndex<T>(s: seq<T>, j: nat)
    requires j < 2 * |s|
    ensures (s + s)[j] == s[j % |s|]
  {
    if j >= |s| {
      assert j % |s| == j - |s|;
    }
  }

  // ---------------------------------------------------------------------------------
  // Prefixes of the enumeration
  // ---------------------------------------------------------------------------------

  lemma CandsOfStep(g: seq<Hit>, tot: nat, combs: seq<seq<nat>>, i: nat)
    requires 3 <= tot <= 4 && CombsFit(g, tot, combs) && i < |combs|
    ensures CandsOf(g, tot, combs[..i + 1]) ==
      CandsOf(g, tot, combs[..i]) + (if Admissible(g, combs[i], tot) then [Cand(g, combs[i])] else [])
  {
    assert combs[..i + 1][..i] == combs[..i];
  }

  lemma {:induction false} CandsOfPrefix(g: seq<Hit>, tot: nat, combs: seq<seq<nat>>, i: nat)
    requires 3 <= tot <= 4 && CombsFit(g, tot, combs) && i <= |combs|
    ensures CandsOf(g, tot, combs[..i]) <= CandsOf(g, tot, combs)
    decreases |combs| - i
  {
    if i < |combs| {
      CandsOfPrefix(g, tot, combs, i + 1);
      CandsOfStep(g, tot, combs, i);
    } else {
      assert combs[..i] == combs;
    }
  }

  lemma AllCandsStep(groups: seq<seq<Hit>>, tot: nat, gi: nat)
    requires 3 <= tot <= 4 && gi < |groups|
    ensures CombsFit(groups[gi], tot, Combinations(2 * |groups[gi]|, tot))
    ensures AllCands(groups[..gi + 1], tot) ==
      AllCands(groups[..gi], tot) + CandsOf(groups[gi], tot, Combinations(2 * |groups[gi]|, tot))
  {
    CombinationsShape(2 * |groups[gi]|, tot);
    assert groups[..gi + 1][..gi] == groups[..gi];
  }

  lemma {:induction false} AllCandsPrefix(groups: seq<seq<Hit>>, tot: nat, gi: nat, p: seq<Cand>)
    requires 3 <= tot <= 4 && gi < |groups|
    requires CombsFit(groups[gi], tot, Combinations(2 * |groups[gi]|, tot))
    requires p <= CandsOf(groups[gi], tot, Combinations(2 * |groups[gi]|, tot))
    ensures AllCands(groups[..gi], tot) + p <= AllCands(groups, tot)
    decreases |groups| - gi
  {
    AllCandsStep(groups, tot, gi);
    var full := CandsOf(groups[gi], tot, Combinations(2 * |groups[gi]|, tot));
    var a := AllCands(groups[..gi], tot);
    assert a + p <= a + full by {
      assert (a + full)[..|a + p|] == a + p;
    }
    if gi + 1 < |groups| {
      AllCandsStep(groups, tot, gi + 1);
      AllCandsPrefix(groups, tot, gi + 1, []);
      assert AllCands(groups[..gi + 1], tot) + [] == AllCands(groups[..gi + 1], tot);
    } else {
      assert groups[..gi + 1] == groups;
    }
  }

  /** A raise ends the scan: once a prefix has aborted, so has every extension. */
  lemma {:induction false} ScanAbortedPrefix(curveFit: CurveFit, a: seq<Cand>, b: seq<Cand>)
    requires AllWellFormed(b) && a <= b
    requires Scan(curveFit, a).Aborted?
    ensures Scan(curveFit, b).Aborted?
    decreases |b|
  {
    if |a| < |b| {
      ScanAbortedPrefix(curveFit, a, b[..|b| - 1]);
    } else {
      assert a == b;
    }
  }

  /** One iteration of the inner loop: the next index tuple is scanned when admissible
      and skipped otherwise. */
  lemma ScanInnerStep(curveFit: CurveFit, done: seq<Cand>, g: seq<Hit>, tot: nat,
                      combs: seq<seq<nat>>, i: nat)
    requires AllWellFormed(done) && 3 <= tot <= 4 && CombsFit(g, tot, combs) && i < |combs|
    ensures AllWellFormed(done + CandsOf(g, tot, combs[..i]))
    ensures AllWellFormed(done + CandsOf(g, tot, combs[..i + 1]))
    ensures WellFormed(Cand(g, combs[i]))
    ensures Scan(curveFit, done + CandsOf(g, tot, combs[..i + 1])) ==
      if Admissible(g, combs[i], tot)
      then Step(curveFit, Scan(curveFit, done + CandsOf(g, tot, combs[..i])), Cand(g, combs[i]))
      else Scan(curveFit, done + CandsOf(g, tot, combs[..i]))
  {
    CandsOfStep(g, tot, combs, i);
    var seen := done + CandsOf(g, tot, combs[..i]);
    if Admissible(g, combs[i], tot) {
      assert done + CandsOf(g, tot, combs[..i + 1]) == seen + [Cand(g, combs[i])];
      ScanAppend(curveFit, seen, Cand(g, combs[i]));
    } else {
      assert done + CandsOf(g, tot, combs[..i + 1]) == seen;
    }
  }

  // ---------------------------------------------------------------------------------
  // compute
  // ---------------------------------------------------------------------------------

  lemma GroupScanFacts(curveFit: CurveFit, done: seq<Cand>, data: seq<Hit>, tot: nat)
    requires AllWellFormed(done) && 3 <= tot <= 4
    ensures CombsFit(data, tot, Combinations(2 * |data|, tot))
    ensures AllWellFormed(done + CandsOf(data, tot, Combinations(2 * |data|, tot)))
  {
    var combos := Combinations(2 * |data|, tot);
    CombinationsShape(2 * |data|, tot);
    assert combos[..|combos|] == combos;
    if combos != [] {
      ScanInnerStep(curveFit, done, data, tot, combos, |combos| - 1);
    } else {
      assert done + CandsOf(data, tot, combos) == done;
    }
  }

  /** Once the scan of a group's first `i` index tuples has aborted, so has the scan of the
      whole group. */
  lemma GroupScanAborted(curveFit: CurveFit, done: seq<Cand>, data: seq<Hit>, tot: nat, i: nat)
    requires AllWellFormed(done) && 3 <= tot <= 4
    requires CombsFit(data, tot, Combinations(2 * |data|, tot))
    requires i <= |Combinations(2 * |data|, tot)|
    requires AllWellFormed(done + CandsOf(data, tot, Combinations(2 * |data|, tot)[..i]))
    requires Scan(curveFit, done + CandsOf(data, tot, Combinations(2 * |data|, tot)[..i])).Aborted?
    ensures AllWellFormed(done + CandsOf(data, tot, Combinations(2 * |data|, tot)))
    ensures Scan(curveFit, done + CandsOf(data, tot, Combinations(2 * |data|, tot))).Aborted?
  {
    var combos := Combinations(2 * |data|, tot);
    GroupScanFacts(curveFit, done, data, tot);
    var seen := done + CandsOf(data, tot, combos[..i]);
    var full := done + CandsOf(data, tot, combos);
    CandsOfPrefix(data, tot, combos, i);
    assert seen <= full by {
      assert full[..|seen|] == seen;
    }
    ScanAbortedPrefix(curveFit, seen, full);
  }

  /** The loop variables of `compute`: `min_lambda`, whether a candidate has been kept,
      and `xdata`, `res_dict`, `best_comb`, `best_data` of the kept one. */
  datatype Tracker = Tracker(minLambda: real, found: bool, xdata: seq<real>, resDict: FitResult,
                             bestComb: seq<nat>, bestData: seq<Hit>)

  /** The scan state `st` and the loop variables of `compute` agree. */
  ghost predicate ScanMatches(st: Search, t: Tracker)
  {
    && st.Scanning?
    && st.minLambda == t.minLambda
    && (t.found <==> st.best.Some?)
    && (t.found ==>
         && st.best.value == Best(Cand(t.bestData, t.bestComb), t.resDict)
         && WellFormed(Cand(t.bestData, t.bestComb))
         && t.xdata == Select(XDoubled(t.bestData), t.bestComb))
  }

  /** One iteration of the inner loop of `compute`: index tuple `ci` of the group's doubled
      list is scored when its depths are distinct, and kept when it beats `min_lambda`;
      `aborted` reports that curve_fit raised. */
  method VisitCandidate(curveFit: CurveFit, ghost done: seq<Cand>, data: seq<Hit>, X: seq<real>,
                        Y: seq<real>, totHits: nat, combos: seq<seq<nat>>, ci: nat, t0: Tracker)
    returns (aborted: bool, t: Tracker)
    requires AllWellFormed(done) && 3 <= totHits <= 4
    requires X == XDoubled(data) && Y == YDoubled(data)
    requires combos == Combinations(2 * |data|, totHits) && CombsFit(data, totHits, combos)
    requires ci < |combos|
    requires AllWellFormed(done + CandsOf(data, totHits, combos[..ci]))
    requires ScanMatches(Scan(curveFit, done + CandsOf(data, totHits, combos[..ci])), t0)
    ensures AllWellFormed(done + CandsOf(data, totHits, combos[..ci + 1]))
    ensures AllWellFormed(done + CandsOf(data, totHits, combos))
    ensures aborted ==> Scan(curveFit, done + CandsOf(data, totHits, combos)).Aborted?
    ensures !aborted ==> ScanMatches(Scan(curveFit, done + CandsOf(data, totHits, combos[..ci + 1])), t)
  {
    GroupScanFacts(curveFit, done, data, totHits);
    var indexesComb := combos[ci];
    ScanInnerStep(curveFit, done, data, totHits, combos, ci);
    t := t0;
    if |ValueSet(Select(Y, indexesComb))| == totHits {
      var regrDict := LinearReg(curveFit, Select(X, indexesComb), Select(Y, indexesComb));
      assert regrDict == Score(curveFit, Cand(data, indexesComb));
      if regrDict.None? {
        // curve_fit raised: the exception leaves compute
        GroupScanAborted(curveFit, done, data, totHits, ci + 1);
        return true, t;
      }
      if Abs(regrDict.value.chisqComp) < t.minLambda {
        t := Tracker(Abs(regrDict.value.chisqComp), true, Select(X, indexesComb), regrDict.value,
                     indexesComb, data);
      }
    }
    aborted := false;
  }

  /** The inner loop of `compute` over the index tuples of one group's doubled list;
      `aborted` reports that curve_fit raised. */
  method ScanGroup(curveFit: CurveFit, ghost done: seq<Cand>, data: seq<Hit>, totHits: nat, t0: Tracker)
    returns (aborted: bool, t: Tracker)
    requires AllWellFormed(done) && 3 <= totHits <= 4
    requires ScanMatches(Scan(curveFit, done), t0)
    ensures CombsFit(data, totHits, Combinations(2 * |data|, totHits))
    ensures AllWellFormed(done + CandsOf(data, totHits, Combinations(2 * |data|, totHits)))
    ensures aborted ==> Scan(curveFit, done + CandsOf(data, totHits, Combinations(2 * |data|, totHits))).Aborted?
    ensures !aborted ==> ScanMatches(Scan(curveFit, done + CandsOf(data, totHits, Combinations(2 * |data|, totHits))), t)
  {
    var X := XDoubled(data);
    var Y := YDoubled(data);
    var combos := Combinations(2 * |data|, totHits);
    GroupScanFacts(curveFit, done, data, totHits);
    assert done + CandsOf(data, totHits, combos[..0]) == done;
    t := t0;
    for ci := 0 to |combos|
      invariant AllWellFormed(done + CandsOf(data, totHits, combos[..ci]))
      invariant ScanMatches(Scan(curveFit, done + CandsOf(data, totHits, combos[..ci])), t)
    {
      aborted, t := VisitCandidate(curveFit, done, data, X, Y, totHits, combos, ci, t);
      if aborted {
        return;
      }
    }
    assert combos[..|combos|] == combos;
    aborted := false;
  }

  /** The first block of `compute`: `tot_Hits` and the outer hit groups. */
  method ChamberGroups(df: seq<Hit>) returns (comb: seq<seq<Hit>>, totHits: nat)
    ensures comb == OuterGroups(df) && totHits == TotHits(df)
  {
    comb := [];
    if |DistinctLayers(df)| == 3 {
      comb := [df];
      totHits := 3;
    } else {
      var indexes := Combinations(|df|, 4);
      CombinationsShape(|df|, 4);
      for i := 0 to |indexes|
        invariant comb == FourLayerGroups(df, indexes[..i])
      {
        assert indexes[..i + 1][..i] == indexes[..i];
        var group := Select(df, indexes[i]);
        if |DistinctLayers(group)| == 4 {
          comb := comb + [group];
        }
      }
      assert indexes[..|indexes|] == indexes;
      totHits := 4;
    }
  }

  /** reco.py `compute(df)` for the hits of one chamber. */
  method Compute(curveFit: CurveFit, df: seq<Hit>) returns (r: Result<seq<RecoRow>, RecoError>)
    ensures r == ComputeSpec(curveFit, df)
  {
    var comb, totHits := ChamberGroups(df);
    var t := Tracker(FloatMax, false, [], FitResult(0.0, 0.0, 0.0), [], []);
    for gi := 0 to |comb|
      invariant ScanMatches(Scan(curveFit, AllCands(comb[..gi], totHits)), t)
    {
      AllCandsStep(comb, totHits, gi);
      var aborted;
      aborted, t := ScanGroup(curveFit, AllCands(comb[..gi], totHits), comb[gi], totHits, t);
      if aborted {
        AllCandsPrefix(comb, totHits, gi, CandsOf(comb[gi], totHits, Combinations(2 * |comb[gi]|, totHits)));
        ScanAbortedPrefix(curveFit, AllCands(comb[..gi + 1], totHits), AllCands(comb, totHits));
        return Failure(FitFailed);
      }
    }
    assert comb[..|comb|] == comb;
    if !t.found {
      // best_data is unbound when the output is built: compute raises
      return Failure(NoCandidate);
    }
    r := Success(TrackRows(t.bestData, t.bestComb, t.resDict, t.xdata));
  }
}
