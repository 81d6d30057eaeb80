# Drift-tube track reconstruction and calibration dataset, modelled in Dafny

This project models the core of an offline analysis chain for a drift-tube muon chamber
made of four super-layers (SL), each with four staggered layers of cells:

* **Wire mapping** (`optimization/mappings.py`, class `Mapping`). Each hit is read out
  as an electronics address: an FPGA and a TDC channel. `sl_map` assigns it:
  * a super-layer, from the FPGA/channel ranges of the run configuration; later entries
    overwrite earlier ones;
  * a layer, from `TDC_CHANNEL % 4`;
  * a local wire position `(TDC_CHANNEL % 64 // 4) * XCELL + X_POS_SHIFT[layer]` and a
    local depth `Z_POS_SHIFT[layer]`.

  `global_map` then adds the per-super-layer shifts of the configuration. The table is a
  `Frame` object whose rows the methods update in place, as pandas' masked assignments
  do. The uint8 cast returns a fresh `Frame`.
* **Track reconstruction** (`optimization/reco.py`). `compute` works on the hits of one
  chamber. The outer groups are:
  * the whole chamber, when it has three distinct layers;
  * otherwise every 4-subset of its hits, in `itertools.combinations` order, whose four
    layers are distinct.

  For each group, the right positions and then the left positions form a doubled list
  of `2n` positions, each paired with its hit's depth. Every `tot_Hits`-subset of that
  list whose depths are pairwise distinct is a candidate. Each candidate is fitted by
  `linear_reg`, and the candidate with the smallest `|chisq_comp|` is kept: the first
  one wins on ties, because the comparison is a strict `<` starting from the largest
  double. It is then turned into output rows. `computeEvent` runs `compute` on each
  chamber with at least three distinct layers and concatenates the tracks.
  `getRecoResults` and `getRecoResults_mp` map events to tracks and drop the events
  without any.
* **Dataset post-processing** (`optimization/dataset_script.py`, `buildDataframe` after
  the reconstruction):
  * every track table gains `D_WIRE_HIT = X - WIRE_X_GLOB`, in place;
  * the tables are concatenated;
  * `CH` becomes the channel, plus 128 on FPGA 1, cast to uint8;
  * rows outside `-200 < HIT_DRIFT_TIME < 600` or `-21 < D_WIRE_HIT < 21` are dropped;
  * `THETA` is added in degrees;
  * `SL` is added as `CH // 64`, with blocks 0 and 1 swapped.

The loops of the source are methods (`Reco.Compute`, `RecoEvents.ComputeEvent`,
`RecoEvents.GetRecoResults`, `Mappings.Mapping.SlMap`, `Mappings.Mapping.GlobalMap`,
`DatasetScript.BuildDataframe` and their helpers). Each is proved equal to a
specification function, and the properties are proved as lemmas about those functions.
Tables are sequences of row records; a missing (NaN) value is `None`.

Modules:
* `Wrappers`: Option and Result.
* `Numeric`: uint8, `abs`, the largest double.
* `Seqs`: fancy indexing, `unique`, boolean masks, last match, concatenation.
* `Combinatorics`: `itertools.combinations`.
* `LineFit`: `chisq`, `fitfunc`, `linear_reg`.
* `Reco`: `compute`.
* `RecoEvents`: `computeEvent`, `getRecoResults`, `getRecoResults_mp`. The loop of
  `computeEvent` is stated for any chamber reconstruction passed as a function value,
  and used with `compute` (`ComputeOf`), whose promise `Sound` is proved once.
* `Mappings`: `Mapping`.
* `DatasetScript`: `buildDataframe`.

Two behaviours of the code that the model follows as written:

* Initial guess. In the code the guess for the slope is the difference of the first
  two depths divided by the difference of their positions. The nominal slope 100 is
  used when the two positions, not the depths, are equal. This guess describes the
  line `depth = q + m * position`, while `curve_fit` fits `position = q + m * depth`.
  `LineFit.InitialGuess` states exactly what the code computes.
* Events without a track. The run-level result drops them. The event-level result is
  absent, not an empty table.

## Model

| member | source | states |
|---|---|---|
| Numeric.Abs | optimization/reco.py:31 | `abs` is non-negative and is `x` or `-x` |
| Numeric.ToUInt8 | optimization/mappings.py:32 | the uint8 cast lands in 0..255, is the identity on 0..255 and keeps the value modulo 256 |
| Seqs.DistinctCount | optimization/reco.py:64 | `len(unique(s))` is at most `len(s)`, with equality exactly when no value repeats |
| Seqs.Filter | optimization/dataset_script.py:86-87 | a boolean mask never adds rows and keeps only rows of the table that satisfy it |
| Seqs.FilterComplete | optimization/dataset_script.py:86-87 | a boolean mask keeps every row that satisfies it |
| Seqs.FilterConcat | optimization/dataset_script.py:86-87 | masking commutes with concatenation, so the relative order of rows is kept |
| Seqs.FilterIdempotent | optimization/dataset_script.py:86-87 | applying a mask twice keeps the same rows as applying it once |
| Seqs.FilterFilter | optimization/dataset_script.py:86-87 | two masks in sequence keep the rows satisfying their conjunction |
| Seqs.LastMatch | optimization/mappings.py:18-24 | the index of the last entry that matches; none exactly when no entry matches |
| Seqs.Flatten | optimization/dataset_script.py:76 | every row of a concatenation comes from one of the tables |
| Seqs.FlattenComplete | optimization/dataset_script.py:76 | every row of every table is in the concatenation |
| Combinatorics.CombinationsFromSound | optimization/reco.py:52 | every tuple `combinations(range(n), k)` yields is a strictly increasing k-tuple of 0..n-1 |
| Combinatorics.CombinationsFromComplete | optimization/reco.py:52 | every strictly increasing k-tuple of 0..n-1 is yielded |
| Combinatorics.CombinationsFromOrdered | optimization/reco.py:62 | the tuples come in strictly increasing lexicographic order |
| Combinatorics.CombinationsFromCount | optimization/reco.py:62 | there are C(n, k) of them |
| Combinatorics.CombinationsShape | optimization/reco.py:62 | each tuple has k entries, all below n |
| Combinatorics.CombinationsFacts | optimization/reco.py:52 | for `range(n)`: exactly the increasing k-subsets, in lexicographic order, C(n, k) of them |
| LineFit.Chisq | optimization/reco.py:13-14 | chi-square is non-negative |
| LineFit.ChisqOnLine | optimization/reco.py:13-18 | chi-square is zero when every point lies on the line `fitfunc` describes |
| LineFit.SqrtTwiceDof | optimization/reco.py:31 | `sqrt(2 * dof)` is positive for the 1 or 2 degrees of freedom of a 3- or 4-point fit |
| LineFit.SqrtTwiceDofSquare | optimization/reco.py:31 | that constant squared is `2 * dof`: exactly for dof 2; for dof 1 it lies strictly between 2 and 2.0000000000000002, less than half a double spacing above 2 |
| LineFit.ChisqComp | optimization/reco.py:31 | the score is non-negative |
| LineFit.ChisqCompMeaning | optimization/reco.py:29-31 | times `sqrt(2 * dof)` the score is `abs(chi2 - dof)`; the score is 0 exactly when chi2 = dof; a perfect fit scores `dof / sqrt(2 * dof)` |
| LineFit.InitialGuess | optimization/reco.py:24-26 | slope 100 when the first two positions coincide (no division by zero); the guessed line passes through the first point, and through the second when the positions differ |
| LineFit.LinearReg | optimization/reco.py:21-35 | fails exactly when `curve_fit` raises; otherwise returns the fitted slope and intercept and a non-negative score |
| LineFit.LinearRegOnLine | optimization/reco.py:21-35 | when the fitted line goes through every point, the score is `dof / sqrt(2 * dof)` |
| Reco.FourLayerGroupsFacts | optimization/reco.py:52-54 | the filtered groups are exactly the selected 4-subsets whose layers are pairwise distinct |
| Reco.FourLayerGroupsOrder | optimization/reco.py:52-54 | the kept groups appear in the order of their index tuples: group j comes from tuple pos[j], with the positions strictly ascending |
| Reco.OuterGroupsFacts | optimization/reco.py:47-55 | 3 layers: the only group is the whole chamber; otherwise exactly the 4-subsets with distinct layers; every group member is a hit of the chamber |
| Reco.OuterGroupsOrder | optimization/reco.py:51-54 | with four or more layers, group j is the hits at a strictly increasing 4-tuple of row indices, and these tuples ascend lexicographically (`combinations` order) |
| Reco.DoubledAt | optimization/reco.py:60-61 | entry i of the doubled lists is the right position of hit i for i < n and the left position of hit i - n above; both halves carry the hit's depth |
| Reco.AdmissibleDistinct | optimization/reco.py:64 | `len(np.unique(Y[indexes_comb])) == tot_Hits` holds exactly when the chosen depths are pairwise distinct |
| Reco.CandsOfComplete | optimization/reco.py:62-64 | every admissible index tuple in the enumerated list of a group yields a candidate |
| Reco.AllCandsComplete | optimization/reco.py:59-64 | every admissible `tot_Hits`-subset of 0..2n-1 of every group yields a candidate |
| Reco.CandsOfOrder | optimization/reco.py:62-64 | the admissible tuples of a group become candidates in their enumeration order: candidate k comes from tuple pos[k], with the positions strictly ascending |
| Reco.AllCandsOrder | optimization/reco.py:59-64 | candidates come group by group in the order of the groups, and within one group in ascending lexicographic order of their index tuples |
| Reco.CandidatesFacts | optimization/reco.py:47-64 | a pair (group, index tuple) is a candidate if and only if the group is an outer group, the tuple is a `tot_Hits`-subset of 0..2n-1, and the chosen depths are pairwise distinct |
| Reco.CandidatesOrder | optimization/reco.py:47-64 | the nested loops visit candidates ordered first by their outer group's 4-tuple in `combinations` order (a single group, the whole table, with three layers), then by their own index tuple in lexicographic order |
| Reco.ScanStepScored | optimization/reco.py:63-71 | one more scored candidate after a scan that has not aborted: the kept candidate stays the first minimum, or the new one becomes it when it scores strictly lower |
| Reco.ScanOutcome | optimization/reco.py:57-71 | the scan aborts exactly when some fit raises; with no kept candidate every score is at least the largest double; otherwise the kept one is the first minimum (below the start, at most every score, strictly below every earlier one) |
| Reco.TrackRows | optimization/reco.py:73-77 | one row per entry of `best_comb`: row k is hit `best_comb[k] mod n` of the group, its X is the position that entry chooses (right for entries below n, left otherwise), and m and q are the fitted ones |
| Reco.DoubledAll | optimization/reco.py:60-61 | entry j of the doubled table is hit `j mod n`, and entry j of X is that hit's right position below n and its left one from n on |
| Reco.TrackRowsIsTrack | optimization/reco.py:73-77 | the rows built from a well-formed candidate are exactly its track: one per chosen index, with its hit, its chosen position and the shared m and q |
| Reco.ComputeSpecFailure | optimization/reco.py:65-73 | `compute` fails with a fit error exactly when some fit raises, and with an unbound `best_data` exactly when every fit succeeds but no score is below the largest double |
| Reco.ComputeSpecTrack | optimization/reco.py:57-80 | on success the track comes from the first-minimum candidate; it has `tot_Hits` rows; row k is hit `best_comb[k] mod n` of the winning group with its chosen position; all rows share m and q; every row is a hit of the chamber |
| Reco.ComputeSpecOptimal | optimization/reco.py:47-80 | on success the track belongs to a valid choice (outer group, `tot_Hits`-subset, distinct depths) whose abs(chisq_comp) is no larger than that of every other valid choice, each of which was fitted |
| Reco.DoubledIndex | optimization/reco.py:73-74 | row j of a table concatenated with itself is row `j mod n` |
| Reco.ChamberGroups | optimization/reco.py:47-55 | the outer loop builds exactly the outer groups and `tot_Hits` |
| Reco.VisitCandidate | optimization/reco.py:63-71 | one candidate of the inner loop: the admissibility test, the fit and the strict-less update, kept in step with the selection |
| Reco.ScanGroup | optimization/reco.py:62-71 | the inner loop over one group leaves the selection state of the scan over that group's candidates |
| Reco.Compute | optimization/reco.py:45-80 | `compute(df)` returns the specified track or raises the specified error |
| RecoEvents.ChamberHits | optimization/reco.py:125 | a chamber holds only hits of the event with its SL |
| RecoEvents.ChamberHitsComplete | optimization/reco.py:125 | a chamber holds every hit of the event with its SL |
| RecoEvents.ComputeEvent | optimization/reco.py:123-140 | `computeEvent` returns the specified outcome |
| RecoEvents.EventRowsFailureSticky | optimization/reco.py:128-135 | once a chamber raises, the event fails with that error |
| RecoEvents.ComputeSound | optimization/reco.py:73-80 | every table `compute` returns has `tot_Hits` rows, each a hit of the chamber |
| RecoEvents.EventRowsFailure | optimization/reco.py:128-135 | the event fails exactly when some qualifying chamber's `compute` fails |
| RecoEvents.EventRowsCount | optimization/reco.py:128-135 | the event table has the sum of `tot_Hits` over the qualifying chambers as its row count |
| RecoEvents.EventRowsEmpty | optimization/reco.py:128-138 | the event table is empty exactly when no chamber qualifies |
| RecoEvents.RowCountZero | optimization/reco.py:129-130 | the expected row count is zero exactly when no chamber has three distinct layers |
| RecoEvents.EventRowsProvenance | optimization/reco.py:125-135 | every row of the event table is a hit of the event, from a qualifying chamber |
| RecoEvents.ComputeEventFacts | optimization/reco.py:123-140 | fails exactly when some qualifying chamber fails; absent exactly when no chamber qualifies; otherwise the row count and the provenance of every row |
| RecoEvents.MapEvents | optimization/reco.py:170-171 | the map yields one outcome per event |
| RecoEvents.MapEventsFailureSticky | optimization/reco.py:170-171 | an event that raises makes the whole map raise |
| RecoEvents.GetRecoResults | optimization/reco.py:148-159 | the sequential loop returns what the map followed by dropping `None` returns |
| RecoEvents.PresentFacts | optimization/reco.py:174 | dropping `None` keeps at most as many entries, only present ones, and every present one |
| RecoEvents.PresentOrder | optimization/reco.py:174 | dropping `None` keeps the remaining tables in their order: table j sits at position pos[j], the positions ascend, and every present entry's position is among them |
| RecoEvents.RecoResultsFacts | optimization/reco.py:166-176 | at most one table per event; every table is non-empty and is some event's reconstruction; every event with a track contributes it |
| RecoEvents.RecoResultsOrder | optimization/reco.py:166-176 | the tables come in event order: table j is the reconstruction of event pos[j], the event positions ascend, and every event with a track is among them |
| RecoEvents.MapEventsOutcomes | optimization/reco.py:170-171 | on success, entry i of the map is event i's outcome, and every present outcome is a non-empty table |
| Mappings.LayerOf | optimization/mappings.py:27-30 | the layer is 1..4 |
| Mappings.WireIndex | optimization/mappings.py:39 | the wire index is 0..15 |
| Mappings.LayerOfResidue | optimization/mappings.py:27-30 | two channels have the same layer exactly when they agree modulo 4 |
| Mappings.ChannelDecomposition | optimization/mappings.py:33-40 | channel = 64 * block + 4 * wire + residue |
| Mappings.LayerAssignments | optimization/mappings.py:27-30 | the four masked assignments give every row the layer of its channel |
| Mappings.SlAfterLastEntryWins | optimization/mappings.py:18-24 | a row ends with the SL of the last entry whose range selects it |
| Mappings.SlAfterUnselected | optimization/mappings.py:18-24 | a row no entry selects keeps its SL |
| Mappings.LocalMappedFailure | optimization/mappings.py:18-32 | the uint8 cast raises exactly when some row had no SL and no entry selects it |
| Mappings.LocalMappedRows | optimization/mappings.py:7-45 | `sl_map` keeps the row count, FPGA, channel and global columns, and sets the cast SL, the channel's layer, and that layer's local wire position and depth |
| Mappings.LocalMappedRow | optimization/mappings.py:7-45 | row k of `sl_map`'s output is input row k after the SL and layer assignments, the uint8 cast and the local wire assignment, and its SL is present |
| Mappings.MappedRow | optimization/mappings.py:7-45 | one row through `sl_map`, column by column: FPGA and channel kept, cast SL, the channel's layer, that layer's local wire position `x_cell * wire + x_pos_shift[layer]` and depth, global columns kept |
| Mappings.LocalDepthByLayer | optimization/mappings.py:43 | all hits of one layer share one depth |
| Mappings.GlobalRowShifted | optimization/mappings.py:59-64 | a row of an SL listed in `sl_shift` gets the last matching shift added to its local depth and position |
| Mappings.GlobalRowUnshifted | optimization/mappings.py:59-64 | a row whose SL is not listed keeps its global columns |
| Mappings.GlobalMappedRows | optimization/mappings.py:47-68 | `global_map` keeps the row count and adds the last matching shift to every row of a listed SL; every other row stays as `sl_map` left it |
| Mappings.Mapping.constructor | optimization/mappings.py:4-5 | the mapping keeps its configuration |
| Mappings.Mapping.SlMap | optimization/mappings.py:7-45 | the caller's table gets SL and LAYER in place; the returned fresh table is the specified local mapping, or the cast error |
| Mappings.LocalWires | optimization/mappings.py:36-43 | the layer loop gives every row of layers 1..4 its local wire position and depth |
| Mappings.Mapping.GlobalMap | optimization/mappings.py:47-68 | `sl_map`, then the shift loop: the specified global mapping, or the cast error |
| DatasetScript.WithDWireHitIdempotent | optimization/dataset_script.py:73-74 | adding `D_WIRE_HIT` twice equals adding it once |
| DatasetScript.AddDWireHit | optimization/dataset_script.py:73-75 | every track table is updated in place, also when the list holds the same table twice |
| DatasetScript.ChTag | optimization/dataset_script.py:79-80 | `CH` is set exactly for FPGA 0 and 1, to `TDC_CHANNEL + 128 * FPGA` |
| DatasetScript.SlOfCh | optimization/dataset_script.py:93-94 | SL is 0..3, in the FPGA half of the channel; blocks 2 and 3 keep their number, blocks 0 and 1 swap |
| DatasetScript.SlOfChBlocks | optimization/dataset_script.py:93-94 | two channels get the same SL exactly when they are in the same block of 64 |
| DatasetScript.ProjectCh | optimization/dataset_script.py:79-87 | a projected hit passes both filters exactly when its drift time and `D_WIRE_HIT` are inside the windows |
| DatasetScript.Project | optimization/dataset_script.py:79-94 | the final row of a hit: its drift time, slope and `D_WIRE_HIT`; `CH = TDC_CHANNEL + 128 * FPGA` for channels below 128; SL from CH |
| DatasetScript.ConcatenatedRows | optimization/dataset_script.py:73-76 | the concatenated table holds exactly the extended rows of the track tables |
| DatasetScript.PostProcessFailure | optimization/dataset_script.py:76-82 | fails on an empty list of tables exactly, and on a missing CH exactly when some hit's FPGA is neither 0 nor 1 |
| DatasetScript.ExtendedRowOrigin | optimization/dataset_script.py:73-76 | each row of the concatenated table is a row of one of the track tables, with `D_WIRE_HIT` added |
| DatasetScript.ExtendedRowAt | optimization/dataset_script.py:73-76 | each row of each track table, with `D_WIRE_HIT` added, is at some position of the concatenated table |
| DatasetScript.CleanedSound | optimization/dataset_script.py:79-85 | each row cut to the kept columns is the projection of an input hit |
| DatasetScript.CleanedComplete | optimization/dataset_script.py:79-85 | every tagged input hit is in the table cut to the kept columns |
| DatasetScript.WindowedRows | optimization/dataset_script.py:86-87 | the two filters keep exactly the rows inside both windows |
| DatasetScript.FinalRowOrigin | optimization/dataset_script.py:79-94 | each final row is the final form of an input hit with FPGA 0 or 1 inside both windows |
| DatasetScript.PostProcessSound | optimization/dataset_script.py:73-94 | no row is added; every final row is the projection of an input hit with FPGA 0 or 1 inside both strict windows |
| DatasetScript.PostProcessComplete | optimization/dataset_script.py:73-94 | every input hit with FPGA 0 or 1 inside both windows reaches the final table |
| DatasetScript.WindowFilters | optimization/dataset_script.py:86-87 | the two filters equal one filter on both windows, and are idempotent |
| DatasetScript.ChannelTagging | optimization/dataset_script.py:79-94 | channels 0..127 of FPGA 0 and 1 get distinct tags 0..255 without wrapping; FPGA 0 holds SL 1 then 0, FPGA 1 holds SL 2 then 3 |
| DatasetScript.Concatenate | optimization/dataset_script.py:76 | `pd.concat` of a non-empty list is the concatenation of its tables |
| DatasetScript.TagChannels | optimization/dataset_script.py:79-80 | the two masked assignments give every row its `CH` tag |
| DatasetScript.AddThetaAndSl | optimization/dataset_script.py:90-94 | THETA and SL are added to every row; the positional replacement swaps SL 0 and 1 |
| DatasetScript.CleanAndTag | optimization/dataset_script.py:79-94 | from the concatenated table on: the specified final table, or the CH cast error |
| DatasetScript.BuildDataframe | optimization/dataset_script.py:71-98 | the track tables gain `D_WIRE_HIT` in place, and the result is the specified final table or error |

## Left out

- `scipy.optimize.curve_fit` (optimization/reco.py:27) is a parameter `CurveFit`: a
  function from the fit request to the fitted parameters, or `None` when it raises. Its
  numerical method is not modelled. A raise is not caught anywhere: it aborts the
  chamber, the event and the run.
- Floating point. Positions, depths and scores are reals. The largest double is
  written as (2^53 - 1) * 2^971 and `sqrt(2)` as its double value. `np.arctan` is a
  parameter `atan` of `DatasetScript.BuildDataframe`. Rounding, infinities and NaN scores are not modelled.
- Non-finite values in the data. A NaN in a window column is modelled only for
  `D_WIRE_HIT`, where a table without the column compares false. Every other
  hit value is a finite real.
- Multiprocessing in `getRecoResults_mp`: the `Pool`, `cpu_count() - 2`, `close` and
  `join`. The result is modelled as a map followed by dropping `None`. When several events
  raise, the pool re-raises one of them depending on completion order. The model reports
  the first in event order.
- `RecoEvents.GetRecoResults`: the `len(event_reco_df) == 0` test of the sequential
  loop can never succeed, because `computeEvent` returns `None` instead of an
  empty table. The model keeps the test as a dead branch.
- Reading events (`getEvents` from `eventsFactory`), yaml configuration, argument parsing,
  `main`, `saveChannels` (HDF5 writes) and all `print` logging. `eventsFactory` is not part
  of this model. `getEvents` is the source of the hit rows that `Compute` receives.
- constants.py is not part of this model. `XCELL`, `X_POS_SHIFT` and `Z_POS_SHIFT` are the
  `Geometry` parameter of `Mappings.Mapping`.
- The configuration dictionaries `sl_mapping` and `sl_shift` are sequences of entries in
  their iteration order. A missing key (a `KeyError` in the source) is not modelled.
- The commented-out `computeOpt` block (optimization/reco.py:81-118) is a string literal,
  not code.
- The track tables that `buildDataframe` receives are values whose rows carry the hit
  columns as `Reco.RecoRow`. The column selection `df_[KEEP]` at
  optimization/dataset_script.py:75 only rebinds a loop variable and has no effect.
  Columns that the final table drops are not carried.
- The positional assignment `df["SL"][df["SL"] < 2] = [...]` at
  optimization/dataset_script.py:94 is chained assignment. It is modelled as updating the
  table, as pandas without copy-on-write does.
- Numeric.ToUInt8: out-of-range values are modelled as wrapping modulo 256. NumPy leaves
  out-of-range float-to-uint8 casts unspecified. Channel tags stay in 0..255 for channels
  below 128 (`DatasetScript.ChannelTagging`), and SL numbers are small.
- Index labels. `combinations(df.index, 4)` and `df.loc[index, :]` (optimization/reco.py:52-53)
  work on the index labels that the chamber table inherits from the event table
  (optimization/reco.py:125). The model uses row positions instead. The two agree when the
  labels of a chamber are unique. Repeated labels, where `.loc` would return several rows
  per label, are not modelled.
- Python integer and pandas dtypes: `TDC_CHANNEL` is a natural number, and every other
  integer column is an unbounded integer.
