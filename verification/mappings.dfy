/** Wire mapping (mappings.py `Mapping`): from the electronics address of a hit (FPGA and
    TDC channel) to its super-layer, layer, local wire position and global wire position.

    The hit table is a `Frame` whose rows the mapping updates in place, as pandas' masked
    assignments `df.loc[mask, col] = value` do. A missing value (NaN in the table) is `None`.
    The geometry constants of constants.py are parameters: constants.py is not part of this
    model. */
module Mappings {
  import opened Wrappers
  import opened Numeric
  import opened Seqs

  /** The columns of a hit row that the mapping reads or writes. */
  datatype HitRow = HitRow(
    fpga: int,
    tdcChannel: nat,
    sl: Option<int>,
    layer: Option<int>,
    wireXLoc: Option<real>,
    wireZLoc: Option<real>,
    wireXGlob: Option<real>,
    wireZGlob: Option<real>)

  /** An entry of `cfg["sl_mapping"]`: super-layer `sl` is read out by FPGA `fpga` on the
      channels `chStart` to `chEnd`. */
  datatype SlMappingEntry = SlMappingEntry(sl: int, fpga: int, chStart: int, chEnd: int)

  /** An entry of `cfg["sl_shift"]`: the position of super-layer `sl` in the detector. */
  datatype SlShiftEntry = SlShiftEntry(sl: int, x: real, z: real)

  /** The configuration of a run: the two dictionaries, in their iteration order. */
  datatype Config = Config(slMapping: seq<SlMappingEntry>, slShift: seq<SlShiftEntry>)

  /** XCELL (cell width) and the per-layer shifts X_POS_SHIFT and Z_POS_SHIFT. */
  datatype Geometry = Geometry(xCell: real, xPosShift: int -> real, zPosShift: int -> real)

  /** `astype({"SL": "uint8", ...})` raises on a missing SL. */
  datatype MapError = NonFiniteSl

  /** A hit table updated in place. */
  class Frame {
    var rows: seq<HitRow>

    constructor(rows: seq<HitRow>)
      ensures this.rows == rows
    {
      this.rows := rows;
    }
  }

  // ---------------------------------------------------------------------------------
  // Super-layer, layer and wire of a channel
  // ---------------------------------------------------------------------------------

  /** The mask of an `sl_mapping` entry. */
  predicate InSlRange(row: HitRow, e: SlMappingEntry) {
    row.fpga == e.fpga && e.chStart <= row.tdcChannel <= e.chEnd
  }

  function MatchesRow(row: HitRow): SlMappingEntry -> bool {
    (e: SlMappingEntry) => InSlRange(row, e)
  }

  /** SL after the loop over `entries`: the last entry whose mask selects the row wins; a
      row no entry selects keeps what it had. */
  function SlAfter(row: HitRow, entries: seq<SlMappingEntry>): Option<int> {
    match LastMatch(entries, MatchesRow(row))
    case None => row.sl
    case Some(j) => Some(entries[j].sl)
  }

  /** LAYER from the channel: residue 0 is layer 4 (the top one), 2 is 3, 1 is 2, 3 is 1. */
  function LayerOf(channel: nat): (layer: int)
    ensures 1 <= layer <= 4
  {
    match channel % 4
    case 0 => 4
    case 2 => 3
    case 1 => 2
    case _ => 1
  }

  /** Wire number inside the layer, counted from 0: `TDC_CHANNEL % 64 // 4`. */
  function WireIndex(channel: nat): (w: nat)
    ensures w < 16
  {
    channel % 64 / 4
  }

  /** The layer is a function of the channel's residue modulo 4 and tells it back. */
  lemma LayerOfResidue(a: nat, b: nat)
    ensures LayerOf(a) == LayerOf(b) <==> a % 4 == b % 4
  {
  }

  /** Within its block of 64 channels a channel is wire `WireIndex` of the layer its residue
      names: channel = 64 * block + 4 * wire + residue. */
  lemma ChannelDecomposition(channel: nat)
    ensures channel == 64 * (channel / 64) + 4 * WireIndex(channel) + channel % 4
  {
    var r := channel % 64;
    assert channel == 64 * (channel / 64) + r;
    assert r == 4 * (r / 4) + r % 4;
    assert r % 4 == channel % 4 by {
      assert channel == 4 * (16 * (channel / 64) + r / 4) + r % 4;
    }
  }

  // ---------------------------------------------------------------------------------
  // Specification of sl_map and global_map
  // ---------------------------------------------------------------------------------

  /** A row after the SL and LAYER assignments, made in place on the caller's table. */
  function SlLayerRow(row: HitRow, cfg: Config): HitRow {
    row.(sl := SlAfter(row, cfg.slMapping), layer := Some(LayerOf(row.tdcChannel)))
  }

  function SlLayerRows(rows: seq<HitRow>, cfg: Config): (r: seq<HitRow>)
    ensures |r| == |rows| && forall k :: 0 <= k < |rows| ==> r[k] == SlLayerRow(rows[k], cfg)
  {
    seq(|rows|, k requires 0 <= k < |rows| => SlLayerRow(rows[k], cfg))
  }

  // Masked assignments `df.loc[mask, col] = value`, one per statement of the source.

  /** `df.loc[sl_mask, "SL"] = sl` for one `sl_mapping` entry. */
  function WithSlWhere(rows: seq<HitRow>, e: SlMappingEntry): (r: seq<HitRow>)
    ensures |r| == |rows|
    ensures forall k :: 0 <= k < |rows| ==>
      r[k] == if InSlRange(rows[k], e) then rows[k].(sl := Some(e.sl)) else rows[k]
  {
    seq(|rows|, k requires 0 <= k < |rows| =>
      if InSlRange(rows[k], e) then rows[k].(sl := Some(e.sl)) else rows[k])
  }

  /** `df.loc[(df["TDC_CHANNEL"] % 4 == residue), "LAYER"] = layer`. */
  function WithLayerWhere(rows: seq<HitRow>, residue: nat, layer: int): (r: seq<HitRow>)
    ensures |r| == |rows|
    ensures forall k :: 0 <= k < |rows| ==>
      r[k] == if rows[k].tdcChannel % 4 == residue then rows[k].(layer := Some(layer)) else rows[k]
  {
    seq(|rows|, k requires 0 <= k < |rows| =>
      if rows[k].tdcChannel % 4 == residue then rows[k].(layer := Some(layer)) else rows[k])
  }

  /** `x_cell * wire + x_pos_shift[layer]`: the local position of the channel's wire in
      layer `layer`. */
  function WireX(channel: nat, layer: int, geo: Geometry): real {
    WireIndex(channel) as real * geo.xCell + geo.xPosShift(layer)
  }

  /** The local position and depth of the wire of a row's channel in layer `layer`. */
  function LocalWire(row: HitRow, layer: int, geo: Geometry): HitRow {
    row.(wireXLoc := Some(WireX(row.tdcChannel, layer, geo)),
         wireZLoc := Some(geo.zPosShift(layer)))
  }

  /** The two assignments of the layer loop of `sl_map` for one layer. */
  function WithLocalWireWhere(rows: seq<HitRow>, layer: int, geo: Geometry): (r: seq<HitRow>)
    ensures |r| == |rows|
    ensures forall k :: 0 <= k < |rows| ==>
      r[k] == if rows[k].layer == Some(layer) then LocalWire(rows[k], layer, geo) else rows[k]
  {
    seq(|rows|, k requires 0 <= k < |rows| =>
      if rows[k].layer == Some(layer) then LocalWire(rows[k], layer, geo) else rows[k])
  }

  /** `df.loc[df["SL"] == sl, "WIRE_Z_GLOB"] = df["WIRE_Z_LOC"] + z`. */
  function WithZGlobWhere(rows: seq<HitRow>, e: SlShiftEntry): (r: seq<HitRow>)
    ensures |r| == |rows|
    ensures forall k :: 0 <= k < |rows| ==>
      r[k] == if rows[k].sl == Some(e.sl) then rows[k].(wireZGlob := AddOpt(rows[k].wireZLoc, e.z)) else rows[k]
  {
    seq(|rows|, k requires 0 <= k < |rows| =>
      if rows[k].sl == Some(e.sl) then rows[k].(wireZGlob := AddOpt(rows[k].wireZLoc, e.z)) else rows[k])
  }

  /** `df.loc[df["SL"] == sl, "WIRE_X_GLOB"] = df["WIRE_X_LOC"] + x`. */
  function WithXGlobWhere(rows: seq<HitRow>, e: SlShiftEntry): (r: seq<HitRow>)
    ensures |r| == |rows|
    ensures forall k :: 0 <= k < |rows| ==>
      r[k] == if rows[k].sl == Some(e.sl) then rows[k].(wireXGlob := AddOpt(rows[k].wireXLoc, e.x)) else rows[k]
  {
    seq(|rows|, k requires 0 <= k < |rows| =>
      if rows[k].sl == Some(e.sl) then rows[k].(wireXGlob := AddOpt(rows[k].wireXLoc, e.x)) else rows[k])
  }

  /** The four layer assignments give every row the layer of its channel. */
  lemma LayerAssignments(rows: seq<HitRow>)
    ensures var r := WithLayerWhere(WithLayerWhere(WithLayerWhere(WithLayerWhere(rows, 0, 4), 2, 3), 1, 2), 3, 1);
      |r| == |rows| && forall k :: 0 <= k < |rows| ==> r[k] == rows[k].(layer := Some(LayerOf(rows[k].tdcChannel)))
  {
  }

  function CastOpt(v: Option<int>): Option<int> {
    match v
    case None => None
    case Some(x) => Some(ToUInt8(x))
  }

  /** `astype({"SL": "uint8", "LAYER": "uint8"})` on a row whose SL is present. */
  function CastRow(row: HitRow): HitRow {
    row.(sl := CastOpt(row.sl), layer := CastOpt(row.layer))
  }

  /** The local wire position of a row of layer 1..4; other rows are left alone. */
  function LocalRow(row: HitRow, geo: Geometry): HitRow {
    if row.layer.Some? && 1 <= row.layer.value <= 4 then LocalWire(row, row.layer.value, geo)
    else row
  }

  predicate SlDefined(rows: seq<HitRow>) {
    forall k :: 0 <= k < |rows| ==> rows[k].sl.Some?
  }

  /** The table `sl_map` returns. */
  function LocalMapped(rows: seq<HitRow>, cfg: Config, geo: Geometry): Result<seq<HitRow>, MapError> {
    var slRows := SlLayerRows(rows, cfg);
    if !SlDefined(slRows) then Failure(NonFiniteSl)
    else Success(seq(|slRows|, k requires 0 <= k < |slRows| => LocalRow(CastRow(slRows[k]), geo)))
  }

  function HasSl(sl: Option<int>): SlShiftEntry -> bool {
    (e: SlShiftEntry) => sl == Some(e.sl)
  }

  /** `a + b` where a missing `a` stays missing. */
  function AddOpt(a: Option<real>, b: real): Option<real> {
    match a
    case None => None
    case Some(x) => Some(x + b)
  }

  /** The global wire position of a row, from the last `sl_shift` entry of its SL. */
  function GlobalRow(row: HitRow, shifts: seq<SlShiftEntry>): HitRow {
    match LastMatch(shifts, HasSl(row.sl))
    case None => row
    case Some(j) =>
      row.(wireZGlob := AddOpt(row.wireZLoc, shifts[j].z), wireXGlob := AddOpt(row.wireXLoc, shifts[j].x))
  }

  /** The table `global_map` returns. */
  function GlobalMapped(rows: seq<HitRow>, cfg: Config, geo: Geometry): Result<seq<HitRow>, MapError> {
    match LocalMapped(rows, cfg, geo)
    case Failure(e) => Failure(e)
    case Success(local) =>
      Success(seq(|local|, k requires 0 <= k < |local| => GlobalRow(local[k], cfg.slShift)))
  }

  // ---------------------------------------------------------------------------------
  // Properties
  // ---------------------------------------------------------------------------------

  /** Later entries overwrite earlier ones: the SL a row ends with is the one of the last
      entry selecting it; a row no entry selects keeps its SL. */
  lemma SlAfterLastEntryWins(row: HitRow, entries: seq<SlMappingEntry>, j: nat)
    requires j < |entries| && InSlRange(row, entries[j])
    requires forall i :: j < i < |entries| ==> !InSlRange(row, entries[i])
    ensures SlAfter(row, entries) == Some(entries[j].sl)
  {
    var m := LastMatch(entries, MatchesRow(row));
    assert MatchesRow(row)(entries[j]);
  }

  lemma SlAfterUnselected(row: HitRow, entries: seq<SlMappingEntry>)
    requires forall i :: 0 <= i < |entries| ==> !InSlRange(row, entries[i])
    ensures SlAfter(row, entries) == row.sl
  {
    assert forall i :: 0 <= i < |entries| ==> !MatchesRow(row)(entries[i]);
  }

  /** `sl_map` raises exactly when some row has no SL before the mapping and no entry
      selects it. */
  lemma LocalMappedFailure(rows: seq<HitRow>, cfg: Config, geo: Geometry)
    ensures LocalMapped(rows, cfg, geo).Failure? <==>
      exists k :: 0 <= k < |rows| && rows[k].sl.None? &&
        forall i :: 0 <= i < |cfg.slMapping| ==> !InSlRange(rows[k], cfg.slMapping[i])
  {
    var slRows := SlLayerRows(rows, cfg);
    forall k | 0 <= k < |rows|
      ensures slRows[k].sl.None? <==>
        rows[k].sl.None? && forall i :: 0 <= i < |cfg.slMapping| ==> !InSlRange(rows[k], cfg.slMapping[i])
    {
      var m := LastMatch(cfg.slMapping, MatchesRow(rows[k]));
      if m.Some? {
        assert InSlRange(rows[k], cfg.slMapping[m.value]);
      } else {
        assert forall i :: 0 <= i < |cfg.slMapping| ==> !MatchesRow(rows[k])(cfg.slMapping[i]);
      }
    }
  }

  /** What `sl_map` writes into each row: the SL (cast to uint8), the layer of the channel,
      and the local wire position of that layer; the row count and the other columns are
      unchanged. */
  lemma LocalMappedRows(rows: seq<HitRow>, cfg: Config, geo: Geometry)
    requires LocalMapped(rows, cfg, geo).Success?
    ensures |LocalMapped(rows, cfg, geo).value| == |rows|
    ensures forall k :: 0 <= k < |rows| ==>
      var out, ch := LocalMapped(rows, cfg, geo).value[k], rows[k].tdcChannel;
      && out.fpga == rows[k].fpga && out.tdcChannel == ch
      && SlAfter(rows[k], cfg.slMapping).Some?
      && out.sl == Some(ToUInt8(SlAfter(rows[k], cfg.slMapping).value))
      && out.layer == Some(LayerOf(ch))
      && out.wireXLoc == Some(WireX(ch, LayerOf(ch), geo))
      && out.wireZLoc == Some(geo.zPosShift(LayerOf(ch)))
      && out.wireXGlob == rows[k].wireXGlob && out.wireZGlob == rows[k].wireZGlob
  {
    forall k | 0 <= k < |rows|
      ensures var out, ch := LocalMapped(rows, cfg, geo).value[k], rows[k].tdcChannel;
        && out.fpga == rows[k].fpga && out.tdcChannel == ch
        && SlAfter(rows[k], cfg.slMapping).Some?
        && out.sl == Some(ToUInt8(SlAfter(rows[k], cfg.slMapping).value))
        && out.layer == Some(LayerOf(ch))
        && out.wireXLoc == Some(WireX(ch, LayerOf(ch), geo))
        && out.wireZLoc == Some(geo.zPosShift(LayerOf(ch)))
        && out.wireXGlob == rows[k].wireXGlob && out.wireZGlob == rows[k].wireZGlob
    {
      LocalMappedRow(rows, cfg, geo, k);
      MappedRow(rows[k], cfg, geo);
    }
  }

  /** Row k of `sl_map`'s output is input row k after the SL and layer assignments, the
      cast and the local wire position, and its SL is present. */
  lemma LocalMappedRow(rows: seq<HitRow>, cfg: Config, geo: Geometry, k: nat)
    requires LocalMapped(rows, cfg, geo).Success? && k < |rows|
    ensures |LocalMapped(rows, cfg, geo).value| == |rows|
    ensures SlAfter(rows[k], cfg.slMapping).Some?
    ensures LocalMapped(rows, cfg, geo).value[k] == LocalRow(CastRow(SlLayerRow(rows[k], cfg)), geo)
  {
    var slRows := SlLayerRows(rows, cfg);
    assert slRows[k].sl.Some?;
  }

  /** One row through the SL and layer assignments, the cast and the local wire position. */
  lemma MappedRow(row: HitRow, cfg: Config, geo: Geometry)
    requires SlAfter(row, cfg.slMapping).Some?
    ensures var out, ch := LocalRow(CastRow(SlLayerRow(row, cfg)), geo), row.tdcChannel;
      && out.fpga == row.fpga && out.tdcChannel == ch
      && out.sl == Some(ToUInt8(SlAfter(row, cfg.slMapping).value))
      && out.layer == Some(LayerOf(ch))
      && out.wireXLoc == Some(WireX(ch, LayerOf(ch), geo))
      && out.wireZLoc == Some(geo.zPosShift(LayerOf(ch)))
      && out.wireXGlob == row.wireXGlob && out.wireZGlob == row.wireZGlob
  {
    var ch := row.tdcChannel;
    var cast := CastRow(SlLayerRow(row, cfg));
    assert cast.layer == Some(LayerOf(ch)) && cast.tdcChannel == ch;
    assert LocalRow(cast, geo) == LocalWire(cast, LayerOf(ch), geo);
  }

  /** All hits of one layer share one depth. */
  lemma LocalDepthByLayer(rows: seq<HitRow>, cfg: Config, geo: Geometry)
    requires LocalMapped(rows, cfg, geo).Success?
    ensures forall i, j :: (0 <= i < |rows| && 0 <= j < |rows| &&
      LocalMapped(rows, cfg, geo).value[i].layer == LocalMapped(rows, cfg, geo).value[j].layer) ==>
      LocalMapped(rows, cfg, geo).value[i].wireZLoc == LocalMapped(rows, cfg, geo).value[j].wireZLoc
  {
    LocalMappedRows(rows, cfg, geo);
  }

  /** Entry `j` is the last `sl_shift` entry for super-layer `sl`. */
  predicate IsLastShift(shifts: seq<SlShiftEntry>, sl: Option<int>, j: int) {
    0 <= j < |shifts| && sl == Some(shifts[j].sl) && forall i :: j < i < |shifts| ==> sl != Some(shifts[i].sl)
  }

  lemma GlobalRowShifted(row: HitRow, shifts: seq<SlShiftEntry>, j: int)
    requires IsLastShift(shifts, row.sl, j)
    ensures GlobalRow(row, shifts) ==
      row.(wireZGlob := AddOpt(row.wireZLoc, shifts[j].z), wireXGlob := AddOpt(row.wireXLoc, shifts[j].x))
  {
    assert HasSl(row.sl)(shifts[j]);
    assert forall i :: j < i < |shifts| ==> !HasSl(row.sl)(shifts[i]);
  }

  lemma GlobalRowUnshifted(row: HitRow, shifts: seq<SlShiftEntry>)
    requires forall i :: 0 <= i < |shifts| ==> row.sl != Some(shifts[i].sl)
    ensures GlobalRow(row, shifts) == row
  {
    assert forall i :: 0 <= i < |shifts| ==> !HasSl(row.sl)(shifts[i]);
  }

  /** `global_map` adds the shift of the last `sl_shift` entry of a row's SL to its depth
      and to its position and changes nothing else; a row whose SL has no entry is left as
      `sl_map` made it. */
  lemma GlobalMappedRows(rows: seq<HitRow>, cfg: Config, geo: Geometry)
    requires GlobalMapped(rows, cfg, geo).Success?
    ensures LocalMapped(rows, cfg, geo).Success?
    ensures |GlobalMapped(rows, cfg, geo).value| == |rows|
    ensures forall k, j :: 0 <= k < |rows| && IsLastShift(cfg.slShift, LocalMapped(rows, cfg, geo).value[k].sl, j) ==>
      var local := LocalMapped(rows, cfg, geo).value[k];
      GlobalMapped(rows, cfg, geo).value[k] ==
        local.(wireZGlob := Some(local.wireZLoc.value + cfg.slShift[j].z),
               wireXGlob := Some(local.wireXLoc.value + cfg.slShift[j].x))
    ensures forall k :: (0 <= k < |rows| &&
      forall i :: 0 <= i < |cfg.slShift| ==> LocalMapped(rows, cfg, geo).value[k].sl != Some(cfg.slShift[i].sl)) ==>
        GlobalMapped(rows, cfg, geo).value[k] == LocalMapped(rows, cfg, geo).value[k]
  {
    assert |LocalMapped(rows, cfg, geo).value| == |SlLayerRows(rows, cfg)| == |rows|;
    GlobalMappedShifted(rows, cfg, geo);
    GlobalMappedUnshifted(rows, cfg, geo);
  }

  /** The rows whose SL has an `sl_shift` entry get the shift of the last one. */
  lemma GlobalMappedShifted(rows: seq<HitRow>, cfg: Config, geo: Geometry)
    requires GlobalMapped(rows, cfg, geo).Success?
    ensures forall k, j ::
      (0 <= k < |LocalMapped(rows, cfg, geo).value| && k < |rows| &&
       IsLastShift(cfg.slShift, LocalMapped(rows, cfg, geo).value[k].sl, j)) ==>
      var local := LocalMapped(rows, cfg, geo).value[k];
      local.wireZLoc.Some? && local.wireXLoc.Some? &&
      GlobalMapped(rows, cfg, geo).value[k] ==
        local.(wireZGlob := Some(local.wireZLoc.value + cfg.slShift[j].z),
               wireXGlob := Some(local.wireXLoc.value + cfg.slShift[j].x))
  {
    var local := LocalMapped(rows, cfg, geo).value;
    var out := GlobalMapped(rows, cfg, geo).value;
    forall k, j | 0 <= k < |local| && k < |rows| && IsLastShift(cfg.slShift, local[k].sl, j)
      ensures local[k].wireZLoc.Some? && local[k].wireXLoc.Some?
      ensures out[k] == local[k].(wireZGlob := Some(local[k].wireZLoc.value + cfg.slShift[j].z),
                                 wireXGlob := Some(local[k].wireXLoc.value + cfg.slShift[j].x))
    {
      GlobalMappedAt(rows, cfg, geo, k);
      GlobalRowShifted(local[k], cfg.slShift, j);
    }
  }

  /** The rows whose SL has no `sl_shift` entry are left as they are. */
  lemma GlobalMappedUnshifted(rows: seq<HitRow>, cfg: Config, geo: Geometry)
    requires GlobalMapped(rows, cfg, geo).Success?
    ensures forall k :: (0 <= k < |LocalMapped(rows, cfg, geo).value| && k < |rows| &&
      forall i :: 0 <= i < |cfg.slShift| ==> LocalMapped(rows, cfg, geo).value[k].sl != Some(cfg.slShift[i].sl)) ==>
        GlobalMapped(rows, cfg, geo).value[k] == LocalMapped(rows, cfg, geo).value[k]
  {
    var local := LocalMapped(rows, cfg, geo).value;
    var out := GlobalMapped(rows, cfg, geo).value;
    forall k | 0 <= k < |local| && k < |rows| &&
      (forall i :: 0 <= i < |cfg.slShift| ==> local[k].sl != Some(cfg.slShift[i].sl))
      ensures out[k] == local[k]
    {
      GlobalMappedAt(rows, cfg, geo, k);
      GlobalRowUnshifted(local[k], cfg.slShift);
    }
  }

  /** Row k of `global_map`'s output is row k of `sl_map`'s, shifted, and that row has a
      local position and depth. */
  lemma GlobalMappedAt(rows: seq<HitRow>, cfg: Config, geo: Geometry, k: nat)
    requires GlobalMapped(rows, cfg, geo).Success? && k < |rows|
    ensures LocalMapped(rows, cfg, geo).Success?
    ensures |LocalMapped(rows, cfg, geo).value| == |GlobalMapped(rows, cfg, geo).value| == |rows|
    ensures var local := LocalMapped(rows, cfg, geo).value[k];
      && local.wireXLoc.Some? && local.wireZLoc.Some?
      && GlobalMapped(rows, cfg, geo).value[k] == GlobalRow(local, cfg.slShift)
  {
    LocalMappedRow(rows, cfg, geo, k);
    MappedRow(rows[k], cfg, geo);
  }

  /** One more `sl_mapping` entry: the rows it selects take its SL, the others keep theirs. */
  lemma SlAfterStep(row: HitRow, entries: seq<SlMappingEntry>, i: nat)
    requires i < |entries|
    ensures SlAfter(row, entries[..i + 1]) ==
      if InSlRange(row, entries[i]) then Some(entries[i].sl) else SlAfter(row, entries[..i])
  {
    assert entries[..i + 1][..i] == entries[..i];
    assert MatchesRow(row)(entries[i]) == InSlRange(row, entries[i]);
  }

  /** One more `sl_shift` entry becomes the last match of the rows of its SL. */
  lemma GlobalRowStep(row: HitRow, shifts: seq<SlShiftEntry>, i: nat)
    requires i < |shifts|
    ensures LastMatch(shifts[..i + 1], HasSl(row.sl)) ==
      if row.sl == Some(shifts[i].sl) then Some(i) else LastMatch(shifts[..i], HasSl(row.sl))
  {
    assert shifts[..i + 1][..i] == shifts[..i];
  }

  // ---------------------------------------------------------------------------------
  // The class
  // ---------------------------------------------------------------------------------

  /** mappings.py `Mapping`. */
  class Mapping {
    const cfg: Config
    const geometry: Geometry

    constructor(cfg: Config, geometry: Geometry)
      ensures this.cfg == cfg && this.geometry == geometry
    {
      this.cfg := cfg;
      this.geometry := geometry;
    }

    /** `sl_map(df)`: SL and LAYER are written into the caller's table; the local wire
        positions go into the uint8-cast copy that is returned. */
    method SlMap(df: Frame) returns (r: Result<Frame, MapError>)
      modifies df
      ensures df.rows == SlLayerRows(old(df.rows), cfg)
      ensures r.Failure? ==> LocalMapped(old(df.rows), cfg, geometry).Failure?
      ensures r.Success? ==> fresh(r.value) && LocalMapped(old(df.rows), cfg, geometry) == Success(r.value.rows)
    {
      ghost var rows0 := df.rows;
      // assign SL to each hit
      for i := 0 to |cfg.slMapping|
        invariant |df.rows| == |rows0|
        invariant forall k :: 0 <= k < |rows0| ==> df.rows[k] == rows0[k].(sl := SlAfter(rows0[k], cfg.slMapping[..i]))
      {
        df.rows := WithSlWhere(df.rows, cfg.slMapping[i]);
        forall k | 0 <= k < |rows0|
          ensures df.rows[k] == rows0[k].(sl := SlAfter(rows0[k], cfg.slMapping[..i + 1]))
        {
          SlAfterStep(rows0[k], cfg.slMapping, i);
        }
      }
      assert cfg.slMapping[..|cfg.slMapping|] == cfg.slMapping;

      // the layer column (layer 4 is the top one)
      ghost var withSl := df.rows;
      df.rows := WithLayerWhere(df.rows, 0, 4);
      df.rows := WithLayerWhere(df.rows, 2, 3);
      df.rows := WithLayerWhere(df.rows, 1, 2);
      df.rows := WithLayerWhere(df.rows, 3, 1);
      LayerAssignments(withSl);
      assert df.rows == SlLayerRows(rows0, cfg);

      // astype: a missing SL cannot be cast
      var slRows := df.rows;
      if exists k :: 0 <= k < |slRows| && slRows[k].sl.None? {
        return Failure(NonFiniteSl);
      }
      var out := new Frame(seq(|slRows|, k requires 0 <= k < |slRows| => CastRow(slRows[k])));
      LocalWires(out, geometry);
      assert out.rows == LocalMapped(rows0, cfg, geometry).value;
      return Success(out);
    }

    /** `global_map(df)`: `sl_map` followed by the per-super-layer shifts. */
    method GlobalMap(df: Frame) returns (r: Result<Frame, MapError>)
      modifies df
      ensures df.rows == SlLayerRows(old(df.rows), cfg)
      ensures r.Failure? ==> GlobalMapped(old(df.rows), cfg, geometry).Failure?
      ensures r.Success? ==> fresh(r.value) && GlobalMapped(old(df.rows), cfg, geometry) == Success(r.value.rows)
    {
      var local := SlMap(df);
      if local.Failure? {
        return local;
      }
      var out := local.value;
      ghost var rows1 := out.rows;
      // place the wires in space
      for i := 0 to |cfg.slShift|
        invariant df.rows == SlLayerRows(old(df.rows), cfg)
        invariant |out.rows| == |rows1|
        invariant forall k :: 0 <= k < |rows1| ==> out.rows[k] == GlobalRow(rows1[k], cfg.slShift[..i])
      {
        out.rows := WithZGlobWhere(out.rows, cfg.slShift[i]);
        out.rows := WithXGlobWhere(out.rows, cfg.slShift[i]);
        forall k | 0 <= k < |rows1|
          ensures out.rows[k] == GlobalRow(rows1[k], cfg.slShift[..i + 1])
        {
          GlobalRowStep(rows1[k], cfg.slShift, i);
        }
      }
      assert cfg.slShift[..|cfg.slShift|] == cfg.slShift;
      assert out.rows == GlobalMapped(old(df.rows), cfg, geometry).value;
      return Success(out);
    }
  }

  /** The layer loop of `sl_map` on the cast copy: every row of layer 1..4 gets the local
      position and depth of its wire. */
  method LocalWires(out: Frame, geometry: Geometry)
    modifies out
    ensures |out.rows| == |old(out.rows)|
    ensures forall k :: 0 <= k < |out.rows| ==> out.rows[k] == LocalRow(old(out.rows)[k], geometry)
  {
    ghost var cast := out.rows;
    for layer := 1 to 5
      invariant |out.rows| == |cast|
      invariant forall k :: 0 <= k < |cast| ==>
        out.rows[k] == if cast[k].layer.Some? && 1 <= cast[k].layer.value < layer
                       then LocalRow(cast[k], geometry) else cast[k]
    {
      out.rows := WithLocalWireWhere(out.rows, layer, geometry);
    }
  }
}
