/** Post-processing of the reconstructed tracks into the per-channel training table
    (dataset_script.py `buildDataframe` after the events are reconstructed).

    Every track table gains the signed distance D_WIRE_HIT between the chosen position and
    the wire; the tables are concatenated; every hit gets a sequential channel tag CH
    (FPGA 1 counts from 128); hits outside the drift-time and distance windows are dropped;
    the track angle THETA and the super-layer SL of the channel are added. */
module DatasetScript {
  import opened Wrappers
  import opened Numeric
  import opened Seqs
  import opened Reco

  /** `math.pi`. */
  const Pi: real := 3.141592653589793

  /** A row of a track table: the reconstruction's columns and D_WIRE_HIT once it is added
      (None before, and NaN in a table that never got it). */
  datatype ResultRow = ResultRow(reco: RecoRow, dWireHit: Option<real>)

  /** A track table of `resultsDf`, updated in place by the D_WIRE_HIT loop. */
  class ResultFrame {
    var rows: seq<ResultRow>

    constructor(rows: seq<ResultRow>)
      ensures this.rows == rows
    {
      this.rows := rows;
    }
  }

  /** A row of the concatenated table with its CH tag (None where no mask assigned it). */
  datatype TaggedRow = TaggedRow(src: ResultRow, ch: Option<int>)

  /** A row after `astype(np.uint8)` and the column selection CH, HIT_DRIFT_TIME,
      D_WIRE_HIT, m. */
  datatype ChRow = ChRow(ch: UInt8, hitDriftTime: real, dWireHit: Option<real>, m: real)

  /** A row of the final table. */
  datatype OutRow = OutRow(ch: UInt8, hitDriftTime: real, dWireHit: Option<real>, m: real, theta: real, sl: int)

  /** `pd.concat([])` raises, and so does casting a missing CH to uint8. */
  datatype BuildError = NothingToConcatenate | NonFiniteCh

  // ---------------------------------------------------------------------------------
  // Columns
  // ---------------------------------------------------------------------------------

  /** `X - WIRE_X_GLOB`: where the track crosses the hit's layer, seen from the wire. */
  function DWireHit(row: RecoRow): (d: real)
    ensures row.hit.wireXGlob + d == row.x
  {
    row.x - row.hit.wireXGlob
  }

  /** A track table after `df_["D_WIRE_HIT"] = df_["X"] - df_["WIRE_X_GLOB"]`. */
  function WithDWireHit(rows: seq<ResultRow>): (r: seq<ResultRow>)
    ensures |r| == |rows|
    ensures forall k :: 0 <= k < |rows| ==> r[k].reco == rows[k].reco && r[k].dWireHit == Some(DWireHit(rows[k].reco))
  {
    seq(|rows|, k requires 0 <= k < |rows| => rows[k].(dWireHit := Some(DWireHit(rows[k].reco))))
  }

  function WithDWireHits(tables: seq<seq<ResultRow>>): (r: seq<seq<ResultRow>>)
    ensures |r| == |tables| && forall i :: 0 <= i < |tables| ==> r[i] == WithDWireHit(tables[i])
  {
    seq(|tables|, i requires 0 <= i < |tables| => WithDWireHit(tables[i]))
  }

  /** The tag of the masks `FPGA == 0` (CH = TDC_CHANNEL) and `FPGA == 1`
      (CH = TDC_CHANNEL + 128); a row of any other FPGA keeps a missing CH. */
  function ChTag(hit: Hit): (ch: Option<int>)
    ensures ch.Some? <==> hit.fpga == 0 || hit.fpga == 1
    ensures ch.Some? ==> ch.value == hit.tdcChannel + 128 * hit.fpga
  {
    if hit.fpga == 0 then Some(hit.tdcChannel)
    else if hit.fpga == 1 then Some(hit.tdcChannel + 128)
    else None
  }

  /** `int(not x)`. */
  function IntNot(x: int): (r: int)
    ensures r == 1 <==> x == 0
    ensures r == 0 <==> x != 0
  {
    if x == 0 then 1 else 0
  }

  /** SL from CH: the block of 64 channels, with blocks 0 and 1 swapped. */
  function SlOfCh(ch: UInt8): (sl: int)
    ensures 0 <= sl < 4
    ensures sl / 2 == ch / 128
    ensures ch / 64 >= 2 ==> sl == ch / 64
    ensures ch / 64 < 2 ==> sl == 1 - ch / 64
  {
    var block := ch / 64;
    if block < 2 then IntNot(block) else block
  }

  /** Two channels get the same SL exactly when they are in the same block of 64. */
  lemma SlOfChBlocks(a: UInt8, b: UInt8)
    ensures SlOfCh(a) == SlOfCh(b) <==> a / 64 == b / 64
  {
  }

  // ---------------------------------------------------------------------------------
  // Specification of the post-processing
  // ---------------------------------------------------------------------------------

  function Tagged(df: seq<ResultRow>): (r: seq<TaggedRow>)
    ensures |r| == |df| && forall k :: 0 <= k < |df| ==> r[k] == TaggedRow(df[k], ChTag(df[k].reco.hit))
  {
    seq(|df|, k requires 0 <= k < |df| => TaggedRow(df[k], ChTag(df[k].reco.hit)))
  }

  predicate AllTagged(rows: seq<TaggedRow>) {
    forall k :: 0 <= k < |rows| ==> rows[k].ch.Some?
  }

  /** The kept columns of a tagged row, CH cast to uint8. */
  function CleanRow(row: TaggedRow): ChRow
    requires row.ch.Some?
  {
    ChRow(ToUInt8(row.ch.value), row.src.reco.hit.hitDriftTime, row.src.dWireHit, row.src.reco.m)
  }

  function Cleaned(rows: seq<TaggedRow>): (r: seq<ChRow>)
    requires AllTagged(rows)
    ensures |r| == |rows| && forall k :: 0 <= k < |rows| ==> r[k] == CleanRow(rows[k])
  {
    seq(|rows|, k requires 0 <= k < |rows| => CleanRow(rows[k]))
  }

  /** `(HIT_DRIFT_TIME > -200) & (HIT_DRIFT_TIME < 600)`. */
  predicate InDriftWindow(row: ChRow) {
    -200.0 < row.hitDriftTime < 600.0
  }

  /** `(D_WIRE_HIT > -21) & (D_WIRE_HIT < 21)`; a missing value compares false. */
  predicate InDWireWindow(row: ChRow) {
    row.dWireHit.Some? && -21.0 < row.dWireHit.value < 21.0
  }

  predicate InBothWindows(row: ChRow) {
    InDriftWindow(row) && InDWireWindow(row)
  }

  /** THETA in degrees from the slope (arctan is a parameter) and SL from CH. */
  function Finish(row: ChRow, atan: real -> real): (r: OutRow)
    ensures r.ch == row.ch && r.hitDriftTime == row.hitDriftTime && r.dWireHit == row.dWireHit && r.m == row.m
    ensures r.theta * Pi == atan(row.m) * 180.0
    ensures r.sl == SlOfCh(row.ch)
  {
    OutRow(row.ch, row.hitDriftTime, row.dWireHit, row.m, atan(row.m) * 180.0 / Pi, SlOfCh(row.ch))
  }

  function Finished(rows: seq<ChRow>, atan: real -> real): (r: seq<OutRow>)
    ensures |r| == |rows| && forall k :: 0 <= k < |rows| ==> r[k] == Finish(rows[k], atan)
  {
    seq(|rows|, k requires 0 <= k < |rows| => Finish(rows[k], atan))
  }

  /** The table `buildDataframe` returns for the track tables `tables` (as they are before
      D_WIRE_HIT is added). */
  function PostProcess(tables: seq<seq<ResultRow>>, atan: real -> real): Result<seq<OutRow>, BuildError> {
    if tables == [] then Failure(NothingToConcatenate)
    else
      var tagged := Tagged(Flatten(WithDWireHits(tables)));
      if !AllTagged(tagged) then Failure(NonFiniteCh)
      else Success(Finished(Filter(Filter(Cleaned(tagged), InDriftWindow), InDWireWindow), atan))
  }

  /** What an input hit becomes once tagged, cast and cut to the kept columns. */
  function ProjectCh(row: RecoRow): (r: ChRow)
    requires row.hit.fpga == 0 || row.hit.fpga == 1
    ensures InDriftWindow(r) && InDWireWindow(r) <==> InWindows(row)
  {
    ChRow(ToUInt8(row.hit.tdcChannel + 128 * row.hit.fpga), row.hit.hitDriftTime, Some(DWireHit(row)), row.m)
  }

  /** What an input hit becomes in the final table. */
  function Project(row: RecoRow, atan: real -> real): (r: OutRow)
    requires row.hit.fpga == 0 || row.hit.fpga == 1
    ensures r.hitDriftTime == row.hit.hitDriftTime && r.m == row.m && r.dWireHit == Some(DWireHit(row))
    ensures 0 <= row.hit.tdcChannel < 128 ==> r.ch == row.hit.tdcChannel + 128 * row.hit.fpga
    ensures r.sl == SlOfCh(r.ch)
  {
    Finish(ProjectCh(row), atan)
  }

  /** The hit passes both windows. */
  predicate InWindows(row: RecoRow) {
    -200.0 < row.hit.hitDriftTime < 600.0 && -21.0 < DWireHit(row) < 21.0
  }

  predicate HasFpgaTag(row: RecoRow) {
    row.hit.fpga == 0 || row.hit.fpga == 1
  }

  // ---------------------------------------------------------------------------------
  // Properties
  // ---------------------------------------------------------------------------------

  /** Adding D_WIRE_HIT twice gives the same table as adding it once. */
  lemma WithDWireHitIdempotent(rows: seq<ResultRow>)
    ensures WithDWireHit(WithDWireHit(rows)) == WithDWireHit(rows)
  {
    var once := WithDWireHit(rows);
    assert forall k :: 0 <= k < |rows| ==> WithDWireHit(once)[k] == once[k];
  }

  /** `row` is the D_WIRE_HIT-extended form of some input row. */
  ghost predicate ExtendedInput(tables: seq<seq<ResultRow>>, row: ResultRow) {
    exists i, j :: 0 <= i < |tables| && 0 <= j < |tables[i]| && row == WithDWireHit(tables[i])[j]
  }

  /** Every row of the concatenated table is the D_WIRE_HIT-extended form of an input row,
      and every input row is in it. */
  lemma ConcatenatedRows(tables: seq<seq<ResultRow>>)
    ensures forall k :: 0 <= k < |Flatten(WithDWireHits(tables))| ==>
      ExtendedInput(tables, Flatten(WithDWireHits(tables))[k])
    ensures forall i, j :: 0 <= i < |tables| && 0 <= j < |tables[i]| ==>
      WithDWireHit(tables[i])[j] in Flatten(WithDWireHits(tables))
  {
    var ext := WithDWireHits(tables);
    var df := Flatten(ext);
    forall k | 0 <= k < |df|
      ensures ExtendedInput(tables, df[k])
    {
      var i :| 0 <= i < |ext| && df[k] in ext[i];
      var j :| 0 <= j < |ext[i]| && ext[i][j] == df[k];
      assert df[k] == WithDWireHit(tables[i])[j];
    }
    FlattenComplete(ext);
  }

  /** `buildDataframe` raises exactly when there is no track table, or when some hit is
      read out by an FPGA other than 0 and 1 (its CH stays NaN and cannot be cast). */
  lemma PostProcessFailure(tables: seq<seq<ResultRow>>, atan: real -> real)
    ensures PostProcess(tables, atan) == Failure(NothingToConcatenate) <==> tables == []
    ensures PostProcess(tables, atan) == Failure(NonFiniteCh) <==>
      tables != [] && exists i, j :: 0 <= i < |tables| && 0 <= j < |tables[i]| && !HasFpgaTag(tables[i][j].reco)
  {
    if tables != [] {
      var df := Flatten(WithDWireHits(tables));
      var tagged := Tagged(df);
      ConcatenatedRows(tables);
      if !AllTagged(tagged) {
        var k :| 0 <= k < |tagged| && tagged[k].ch.None?;
        assert ExtendedInput(tables, df[k]);
        var i, j :| 0 <= i < |tables| && 0 <= j < |tables[i]| && df[k] == WithDWireHit(tables[i])[j];
        assert !HasFpgaTag(tables[i][j].reco);
      }
      if i, j :| 0 <= i < |tables| && 0 <= j < |tables[i]| && !HasFpgaTag(tables[i][j].reco) {
        var k :| 0 <= k < |df| && df[k] == WithDWireHit(tables[i])[j];
        assert tagged[k].ch.None?;
      }
    }
  }

  /** Where row `c` of the concatenated table comes from. */
  lemma ExtendedRowOrigin(tables: seq<seq<ResultRow>>, c: nat) returns (i: nat, j: nat)
    requires c < |Flatten(WithDWireHits(tables))|
    ensures i < |tables| && j < |tables[i]|
    ensures Flatten(WithDWireHits(tables))[c] == WithDWireHit(tables[i])[j]
  {
    var ext := WithDWireHits(tables);
    var df := Flatten(ext);
    i :| 0 <= i < |ext| && df[c] in ext[i];
    j :| 0 <= j < |ext[i]| && ext[i][j] == df[c];
  }

  /** Where row `j` of table `i` lands in the concatenated table. */
  lemma ExtendedRowAt(tables: seq<seq<ResultRow>>, i: nat, j: nat) returns (c: nat)
    requires i < |tables| && j < |tables[i]|
    ensures c < |Flatten(WithDWireHits(tables))|
    ensures Flatten(WithDWireHits(tables))[c] == WithDWireHit(tables[i])[j]
  {
    var ext := WithDWireHits(tables);
    FlattenComplete(ext);
    assert ext[i][j] in Flatten(ext);
    c :| 0 <= c < |Flatten(ext)| && Flatten(ext)[c] == ext[i][j];
  }

  /** Row `c` of the table cut to the kept columns is the projection of an input hit. */
  lemma CleanedSound(tables: seq<seq<ResultRow>>, c: nat) returns (i: nat, j: nat)
    requires AllTagged(Tagged(Flatten(WithDWireHits(tables))))
    requires c < |Flatten(WithDWireHits(tables))|
    ensures i < |tables| && j < |tables[i]| && HasFpgaTag(tables[i][j].reco)
    ensures Cleaned(Tagged(Flatten(WithDWireHits(tables))))[c] == ProjectCh(tables[i][j].reco)
  {
    var df := Flatten(WithDWireHits(tables));
    i, j := ExtendedRowOrigin(tables, c);
    var row := tables[i][j].reco;
    assert df[c].reco == row;
    assert Tagged(df)[c] == TaggedRow(df[c], ChTag(row.hit));
    assert Tagged(df)[c].ch.Some?;
  }

  /** Every input hit with an FPGA tag reaches the table cut to the kept columns. */
  lemma CleanedComplete(tables: seq<seq<ResultRow>>, i: nat, j: nat)
    requires AllTagged(Tagged(Flatten(WithDWireHits(tables))))
    requires i < |tables| && j < |tables[i]| && HasFpgaTag(tables[i][j].reco)
    ensures ProjectCh(tables[i][j].reco) in Cleaned(Tagged(Flatten(WithDWireHits(tables))))
  {
    var df := Flatten(WithDWireHits(tables));
    var c := ExtendedRowAt(tables, i, j);
    var row := tables[i][j].reco;
    assert df[c].reco == row;
    assert Tagged(df)[c] == TaggedRow(df[c], ChTag(row.hit));
    assert Cleaned(Tagged(df))[c] == ProjectCh(row);
  }

  /** The two window filters keep the rows inside both windows and no other. */
  lemma WindowedRows(rows: seq<ChRow>)
    ensures forall k :: 0 <= k < |Filter(Filter(rows, InDriftWindow), InDWireWindow)| ==>
      var row := Filter(Filter(rows, InDriftWindow), InDWireWindow)[k];
      row in rows && InDriftWindow(row) && InDWireWindow(row)
    ensures forall c :: 0 <= c < |rows| && InDriftWindow(rows[c]) && InDWireWindow(rows[c]) ==>
      rows[c] in Filter(Filter(rows, InDriftWindow), InDWireWindow)
  {
    var drift := Filter(rows, InDriftWindow);
    var kept := Filter(drift, InDWireWindow);
    forall k | 0 <= k < |kept|
      ensures kept[k] in rows && InDriftWindow(kept[k])
    {
      var d :| 0 <= d < |drift| && drift[d] == kept[k];
    }
    FilterComplete(rows, InDriftWindow);
    FilterComplete(drift, InDWireWindow);
    forall c | 0 <= c < |rows| && InDriftWindow(rows[c]) && InDWireWindow(rows[c])
      ensures rows[c] in kept
    {
      var d :| 0 <= d < |drift| && drift[d] == rows[c];
    }
  }

  /** Row `k` of the final table is the projection of an input hit inside both windows. */
  lemma FinalRowOrigin(tables: seq<seq<ResultRow>>, atan: real -> real, k: nat) returns (i: nat, j: nat)
    requires PostProcess(tables, atan).Success?
    requires k < |PostProcess(tables, atan).value|
    ensures i < |tables| && j < |tables[i]| && HasFpgaTag(tables[i][j].reco) && InWindows(tables[i][j].reco)
    ensures PostProcess(tables, atan).value[k] == Project(tables[i][j].reco, atan)
  {
    var cleaned := Cleaned(Tagged(Flatten(WithDWireHits(tables))));
    var kept := Filter(Filter(cleaned, InDriftWindow), InDWireWindow);
    assert PostProcess(tables, atan).value == Finished(kept, atan);
    WindowedRows(cleaned);
    var c :| 0 <= c < |cleaned| && cleaned[c] == kept[k];
    i, j := CleanedSound(tables, c);
  }

  /** `row` is the final row of some input hit with FPGA 0 or 1 inside both windows. */
  ghost predicate FromWindowedHit(tables: seq<seq<ResultRow>>, atan: real -> real, row: OutRow) {
    exists i, j ::
      && 0 <= i < |tables| && 0 <= j < |tables[i]| && HasFpgaTag(tables[i][j].reco)
      && InWindows(tables[i][j].reco) && row == Project(tables[i][j].reco, atan)
  }

  /** Every row of the final table is an input hit inside both windows, projected: CH from
      FPGA and channel, the hit's drift time, its D_WIRE_HIT, the track's slope, and SL
      from CH. No row is added. */
  lemma PostProcessSound(tables: seq<seq<ResultRow>>, atan: real -> real)
    requires PostProcess(tables, atan).Success?
    ensures |PostProcess(tables, atan).value| <= |Flatten(WithDWireHits(tables))|
    ensures forall k :: 0 <= k < |PostProcess(tables, atan).value| ==>
      FromWindowedHit(tables, atan, PostProcess(tables, atan).value[k])
  {
    var out := PostProcess(tables, atan).value;
    forall k | 0 <= k < |out|
      ensures FromWindowedHit(tables, atan, out[k])
    {
      var i, j := FinalRowOrigin(tables, atan, k);
      assert 0 <= i < |tables| && 0 <= j < |tables[i]| && out[k] == Project(tables[i][j].reco, atan);
    }
  }

  /** Every input hit with an FPGA tag inside both windows reaches the final table. */
  lemma PostProcessComplete(tables: seq<seq<ResultRow>>, atan: real -> real)
    requires PostProcess(tables, atan).Success?
    ensures forall i, j :: (0 <= i < |tables| && 0 <= j < |tables[i]| &&
      HasFpgaTag(tables[i][j].reco) && InWindows(tables[i][j].reco)) ==>
        Project(tables[i][j].reco, atan) in PostProcess(tables, atan).value
  {
    var cleaned := Cleaned(Tagged(Flatten(WithDWireHits(tables))));
    var kept := Filter(Filter(cleaned, InDriftWindow), InDWireWindow);
    var out := Finished(kept, atan);
    WindowedRows(cleaned);
    forall i, j | 0 <= i < |tables| && 0 <= j < |tables[i]| &&
      HasFpgaTag(tables[i][j].reco) && InWindows(tables[i][j].reco)
      ensures Project(tables[i][j].reco, atan) in out
    {
      CleanedComplete(tables, i, j);
      var row := ProjectCh(tables[i][j].reco);
      var c :| 0 <= c < |cleaned| && cleaned[c] == row;
      var e :| 0 <= e < |kept| && kept[e] == row;
      assert out[e] == Project(tables[i][j].reco, atan);
    }
  }

  /** Both windows at once: the two filters equal one filter on the conjunction, and
      applying them again changes nothing. */
  lemma WindowFilters(rows: seq<ChRow>)
    ensures Filter(Filter(rows, InDriftWindow), InDWireWindow) == Filter(rows, InBothWindows)
    ensures Filter(Filter(Filter(rows, InDriftWindow), InDWireWindow), InDWireWindow) ==
      Filter(Filter(rows, InDriftWindow), InDWireWindow)
  {
    FilterFilter(rows, InDriftWindow, InDWireWindow, InBothWindows);
    FilterIdempotent(Filter(rows, InDriftWindow), InDWireWindow);
  }

  /** The channels 0..127 of FPGA 0 and of FPGA 1 get distinct tags 0..255 without wrapping,
      and SL counts blocks of 64: FPGA 0 holds SL 1 then 0, FPGA 1 holds SL 2 then 3. */
  lemma ChannelTagging(hit: Hit)
    requires hit.fpga == 0 || hit.fpga == 1
    requires hit.tdcChannel < 128
    ensures ChTag(hit).Some? && 0 <= ChTag(hit).value < 256
    ensures ToUInt8(ChTag(hit).value) == ChTag(hit).value
    ensures SlOfCh(ToUInt8(ChTag(hit).value)) ==
      if hit.fpga == 0 then 1 - hit.tdcChannel / 64 else 2 + hit.tdcChannel / 64
  {
    var ch := hit.tdcChannel + 128 * hit.fpga;
    assert ch / 64 == 2 * hit.fpga + hit.tdcChannel / 64;
  }

  // ---------------------------------------------------------------------------------
  // buildDataframe
  // ---------------------------------------------------------------------------------

  ghost function RowsOf(frames: seq<ResultFrame>): (r: seq<seq<ResultRow>>)
    reads set f | f in frames
    ensures |r| == |frames| && forall i :: 0 <= i < |frames| ==> r[i] == frames[i].rows
  {
    seq(|frames|, i requires 0 <= i < |frames| reads set f | f in frames => frames[i].rows)
  }

  /** The loop `for df_ in resultsDf: df_["D_WIRE_HIT"] = ...`; a table listed twice is
      updated twice, to the same result. */
  method AddDWireHit(frames: seq<ResultFrame>)
    modifies set f | f in frames
    ensures forall i :: 0 <= i < |frames| ==> frames[i].rows == WithDWireHit(old(frames[i].rows))
  {
    for i := 0 to |frames|
      invariant forall j :: 0 <= j < |frames| ==>
        frames[j].rows == if frames[j] in frames[..i] then WithDWireHit(old(frames[j].rows)) else old(frames[j].rows)
    {
      var f := frames[i];
      if f in frames[..i] {
        WithDWireHitIdempotent(old(f.rows));
      }
      f.rows := WithDWireHit(f.rows);
      assert frames[..i + 1] == frames[..i] + [f];
    }
  }

  /** `pd.concat(resultsDf, axis=0, ignore_index=True)` of a non-empty list. */
  method Concatenate(frames: seq<ResultFrame>) returns (df: seq<ResultRow>)
    ensures df == Flatten(RowsOf(frames))
  {
    df := [];
    for i := 0 to |frames|
      invariant df == Flatten(RowsOf(frames)[..i])
    {
      FlattenSnoc(RowsOf(frames), i);
      df := df + frames[i].rows;
    }
    assert RowsOf(frames)[..|frames|] == RowsOf(frames);
  }

  /** The masked assignment `df.loc[(df["FPGA"] == fpga), "CH"] = df["TDC_CHANNEL"] + offset`. */
  function WithChWhere(rows: seq<TaggedRow>, fpga: int, offset: int): (r: seq<TaggedRow>)
    ensures |r| == |rows|
    ensures forall k :: 0 <= k < |rows| ==>
      r[k] == if rows[k].src.reco.hit.fpga == fpga then rows[k].(ch := Some(rows[k].src.reco.hit.tdcChannel + offset)) else rows[k]
  {
    seq(|rows|, k requires 0 <= k < |rows| =>
      if rows[k].src.reco.hit.fpga == fpga then rows[k].(ch := Some(rows[k].src.reco.hit.tdcChannel + offset)) else rows[k])
  }

  /** The two CH assignments on a table without a CH column. */
  method TagChannels(df: seq<ResultRow>) returns (tagged: seq<TaggedRow>)
    ensures tagged == Tagged(df)
  {
    tagged := seq(|df|, k requires 0 <= k < |df| => TaggedRow(df[k], None));
    tagged := WithChWhere(tagged, 0, 0);
    tagged := WithChWhere(tagged, 1, 128);
    assert forall k :: 0 <= k < |df| ==> tagged[k] == Tagged(df)[k];
  }

  /** THETA and SL: `df["SL"] = df["CH"] // 64`, then the rows with SL below 2 take, by
      position, the values of `[int(not x) for x in df["SL"]]`. */
  method AddThetaAndSl(rows: seq<ChRow>, atan: real -> real) returns (out: seq<OutRow>)
    ensures out == Finished(rows, atan)
  {
    out := seq(|rows|, k requires 0 <= k < |rows| =>
      OutRow(rows[k].ch, rows[k].hitDriftTime, rows[k].dWireHit, rows[k].m, atan(rows[k].m) * 180.0 / Pi, rows[k].ch / 64));
    var flipped: seq<int> := [];
    for k := 0 to |out|
      invariant |flipped| == k && forall j :: 0 <= j < k ==> flipped[j] == IntNot(out[j].sl)
    {
      flipped := flipped + [IntNot(out[k].sl)];
    }
    out := seq(|out|, k requires 0 <= k < |out| => if out[k].sl < 2 then out[k].(sl := flipped[k]) else out[k]);
    assert forall k :: 0 <= k < |rows| ==> out[k] == Finish(rows[k], atan);
  }

  /** From the concatenated table on: the CH tag and its cast, the column selection, the
      two window filters, THETA and SL. */
  method CleanAndTag(df: seq<ResultRow>, ghost tables: seq<seq<ResultRow>>, atan: real -> real)
    returns (r: Result<seq<OutRow>, BuildError>)
    requires tables != [] && df == Flatten(WithDWireHits(tables))
    ensures r == PostProcess(tables, atan)
  {
    var tagged := TagChannels(df);
    if exists k :: 0 <= k < |tagged| && tagged[k].ch.None? {
      return Failure(NonFiniteCh);
    }
    var kept := Filter(Cleaned(tagged), InDriftWindow);
    kept := Filter(kept, InDWireWindow);
    var out := AddThetaAndSl(kept, atan);
    return Success(out);
  }

  /** `buildDataframe` from the reconstructed track tables on: the tables gain D_WIRE_HIT in
      place and the final table is returned. */
  method BuildDataframe(frames: seq<ResultFrame>, atan: real -> real) returns (r: Result<seq<OutRow>, BuildError>)
    modifies set f | f in frames
    ensures forall i :: 0 <= i < |frames| ==> frames[i].rows == WithDWireHit(old(frames[i].rows))
    ensures r == PostProcess(old(RowsOf(frames)), atan)
  {
    ghost var before := RowsOf(frames);
    AddDWireHit(frames);
    assert RowsOf(frames) == WithDWireHits(before);
    if |frames| == 0 {
      return Failure(NothingToConcatenate);
    }
    var df := Concatenate(frames);
    r := CleanAndTag(df, before, atan);
  }
}
