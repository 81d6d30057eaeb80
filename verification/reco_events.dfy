/** Event and run level of the reconstruction (reco.py `computeEvent`, `getRecoResults`,
    `getRecoResults_mp`).

    An event is split into its four chambers by the SL column; every chamber with at least
    three distinct layers is reconstructed and the tracks are concatenated. A run maps this
    over its events and drops the events without any track. */
module RecoEvents {
  import opened Wrappers
  import opened Seqs
  import opened LineFit
  import opened Reco

  /** The outcome of `computeEvent`: the event's rows, None when no chamber was
      reconstructed, or the error `compute` raised. */
  type EventOutcome = Result<Option<seq<RecoRow>>, RecoError>

  /** A chamber reconstruction: what `compute` returns for a chamber's hits. The loop of
      `computeEvent` is stated for any such function and then used with `compute` itself. */
  type ChamberReco = seq<Hit> -> Result<seq<RecoRow>, RecoError>

  /** reco.py `compute` as a function value. */
  function ComputeOf(curveFit: CurveFit): ChamberReco {
    hits => ComputeSpec(curveFit, hits)
  }

  /** `df_E[df_E["SL"] == sl]`. */
  function ChamberHits(event: seq<Hit>, sl: int): (hits: seq<Hit>)
    ensures forall k :: 0 <= k < |hits| ==> hits[k] in event && hits[k].sl == sl
  {
    Filter(event, (h: Hit) => h.sl == sl)
  }

  /** The chamber of super-layer `sl` holds every hit of the event with that SL. */
  lemma ChamberHitsComplete(event: seq<Hit>, sl: int)
    ensures forall k :: 0 <= k < |event| && event[k].sl == sl ==> event[k] in ChamberHits(event, sl)
  {
    FilterComplete(event, (h: Hit) => h.sl == sl);
  }

  /** A chamber is reconstructed when it has hits on at least three distinct layers. */
  predicate Qualifies(hits: seq<Hit>) {
    |DistinctLayers(hits)| >= 3
  }

  /** `event_reco_df` after the loop has handled chambers 0 .. k-1. */
  function EventRows(compute: ChamberReco, event: seq<Hit>, k: nat): Result<seq<RecoRow>, RecoError> {
    if k == 0 then Success([])
    else
      match EventRows(compute, event, k - 1)
      case Failure(e) => Failure(e)
      case Success(rows) =>
        var hits := ChamberHits(event, k - 1);
        if !Qualifies(hits) then Success(rows)
        else
          match compute(hits)
          case Failure(e) => Failure(e)
          case Success(track) => Success(rows + track)
  }

  /** The result of `computeEvent(df_E)`. */
  function ComputeEventSpec(curveFit: CurveFit, event: seq<Hit>): EventOutcome {
    match EventRows(ComputeOf(curveFit), event, 4)
    case Failure(e) => Failure(e)
    case Success(rows) => if |rows| == 0 then Success(None) else Success(Some(rows))
  }

  /** reco.py `computeEvent(df_E)`. */
  method ComputeEvent(curveFit: CurveFit, event: seq<Hit>) returns (r: EventOutcome)
    ensures r == ComputeEventSpec(curveFit, event)
  {
    var chamber := seq(4, sl => ChamberHits(event, sl));
    var eventRecoRows: seq<RecoRow> := [];
    for sl := 0 to 4
      invariant EventRows(ComputeOf(curveFit), event, sl) == Success(eventRecoRows)
    {
      var df := chamber[sl];
      if |DistinctLayers(df)| < 3 {
        continue;
      }
      var chamberReco := Compute(curveFit, df);
      EventRowsNext(ComputeOf(curveFit), event, sl, eventRecoRows, chamberReco);
      if chamberReco.Failure? {
        // the exception leaves computeEvent: no later chamber can change the outcome
        EventRowsFailureSticky(ComputeOf(curveFit), event, sl + 1, 4);
        return Failure(chamberReco.error);
      }
      eventRecoRows := eventRecoRows + chamberReco.value;
    }
    if |eventRecoRows| == 0 {
      return Success(None);
    }
    return Success(Some(eventRecoRows));
  }

  /** One more qualifying chamber, whose reconstruction is `reco`. */
  lemma EventRowsNext(compute: ChamberReco, event: seq<Hit>, sl: nat, rows: seq<RecoRow>,
                      reco: Result<seq<RecoRow>, RecoError>)
    requires EventRows(compute, event, sl) == Success(rows)
    requires Qualifies(ChamberHits(event, sl)) && compute(ChamberHits(event, sl)) == reco
    ensures reco.Failure? ==> EventRows(compute, event, sl + 1) == Failure(reco.error)
    ensures reco.Success? ==> EventRows(compute, event, sl + 1) == Success(rows + reco.value)
  {
  }

  lemma {:induction false} EventRowsFailureSticky(compute: ChamberReco, event: seq<Hit>, k: nat, n: nat)
    requires k <= n && EventRows(compute, event, k).Failure?
    ensures EventRows(compute, event, n) == EventRows(compute, event, k)
    decreases n - k
  {
    if k < n {
      EventRowsFailureSticky(compute, event, k + 1, n);
    }
  }

  /** What `compute` promises of a chamber it reconstructs: `tot_Hits` rows, each a hit of
      the chamber. */
  ghost predicate Sound(compute: ChamberReco) {
    forall hits :: compute(hits).Success? ==>
      |compute(hits).value| == TotHits(hits) &&
      forall j :: 0 <= j < |compute(hits).value| ==> compute(hits).value[j].hit in hits
  }

  /** `compute` keeps that promise. */
  lemma ComputeSound(curveFit: CurveFit)
    ensures Sound(ComputeOf(curveFit))
  {
    forall hits | ComputeOf(curveFit)(hits).Success?
      ensures |ComputeOf(curveFit)(hits).value| == TotHits(hits)
      ensures forall j :: 0 <= j < |ComputeOf(curveFit)(hits).value| ==> ComputeOf(curveFit)(hits).value[j].hit in hits
    {
      var _ := ComputeSpecTrack(curveFit, hits);
    }
  }

  /** Number of rows the chambers 0 .. k-1 contribute: tot_Hits for each one reconstructed. */
  function RowCount(event: seq<Hit>, k: nat): nat {
    if k == 0 then 0
    else
      var hits := ChamberHits(event, k - 1);
      RowCount(event, k - 1) + (if Qualifies(hits) then TotHits(hits) else 0)
  }

  /** The reconstruction raises on the chamber of super-layer `sl`, which has at least three
      layers. */
  ghost predicate ChamberFails(compute: ChamberReco, event: seq<Hit>, sl: int) {
    Qualifies(ChamberHits(event, sl)) && compute(ChamberHits(event, sl)).Failure?
  }

  /** The loop fails exactly when the reconstruction raises on some qualifying chamber. */
  lemma {:induction false} EventRowsFailure(compute: ChamberReco, event: seq<Hit>, k: nat)
    ensures EventRows(compute, event, k).Failure? <==>
      exists sl :: 0 <= sl < k && ChamberFails(compute, event, sl)
  {
    if k > 0 {
      EventRowsFailure(compute, event, k - 1);
      if EventRows(compute, event, k - 1).Failure? {
        var sl :| 0 <= sl < k - 1 && ChamberFails(compute, event, sl);
        assert EventRows(compute, event, k).Failure?;
      } else if ChamberFails(compute, event, k - 1) {
        assert EventRows(compute, event, k).Failure?;
      } else {
        assert EventRows(compute, event, k).Success?;
        forall sl | 0 <= sl < k
          ensures !ChamberFails(compute, event, sl)
        {
        }
      }
    }
  }

  /** Otherwise every qualifying chamber adds exactly tot_Hits rows. */
  lemma {:induction false} EventRowsCount(compute: ChamberReco, event: seq<Hit>, k: nat)
    requires Sound(compute) && EventRows(compute, event, k).Success?
    ensures |EventRows(compute, event, k).value| == RowCount(event, k)
  {
    if k > 0 {
      EventRowsCount(compute, event, k - 1);
    }
  }

  /** The rows are empty exactly when no chamber qualifies. */
  lemma {:induction false} EventRowsEmpty(compute: ChamberReco, event: seq<Hit>, k: nat)
    requires Sound(compute) && EventRows(compute, event, k).Success?
    ensures |EventRows(compute, event, k).value| == 0 <==>
      forall sl :: 0 <= sl < k ==> !Qualifies(ChamberHits(event, sl))
  {
    EventRowsCount(compute, event, k);
    RowCountZero(event, k);
  }

  lemma {:induction false} RowCountZero(event: seq<Hit>, k: nat)
    ensures RowCount(event, k) == 0 <==> forall sl :: 0 <= sl < k ==> !Qualifies(ChamberHits(event, sl))
  {
    if k > 0 {
      RowCountZero(event, k - 1);
    }
  }

  /** Every row is a hit of the event from a qualifying chamber of a handled super-layer. */
  lemma {:induction false} EventRowsProvenance(compute: ChamberReco, event: seq<Hit>, k: nat)
    requires Sound(compute) && EventRows(compute, event, k).Success?
    ensures forall j :: 0 <= j < |EventRows(compute, event, k).value| ==>
      var h := EventRows(compute, event, k).value[j].hit;
      h in event && 0 <= h.sl < k && Qualifies(ChamberHits(event, h.sl))
  {
    if k > 0 {
      EventRowsProvenance(compute, event, k - 1);
      var hits := ChamberHits(event, k - 1);
      var prev := EventRows(compute, event, k - 1).value;
      if Qualifies(hits) {
        var track := compute(hits).value;
        var rows := prev + track;
        assert EventRows(compute, event, k).value == rows;
        forall j | 0 <= j < |rows|
          ensures rows[j].hit in event && 0 <= rows[j].hit.sl < k && Qualifies(ChamberHits(event, rows[j].hit.sl))
        {
          if j >= |prev| {
            assert rows[j] == track[j - |prev|];
            assert track[j - |prev|].hit in hits;
          }
        }
      }
    }
  }

  /** `computeEvent` raises exactly when `compute` raises on some chamber with at least
      three layers; it returns None exactly when no chamber has three layers; otherwise its
      rows are the chambers' tracks, tot_Hits rows per reconstructed chamber, each a hit of
      the event. */
  lemma ComputeEventFacts(curveFit: CurveFit, event: seq<Hit>)
    ensures ComputeEventSpec(curveFit, event).Failure? <==>
      exists sl :: 0 <= sl < 4 && ChamberFails(ComputeOf(curveFit), event, sl)
    ensures ComputeEventSpec(curveFit, event) == Success(None) <==>
      forall sl :: 0 <= sl < 4 ==> !Qualifies(ChamberHits(event, sl))
    ensures ComputeEventSpec(curveFit, event).Success? && ComputeEventSpec(curveFit, event).value.Some? ==>
      var rows := ComputeEventSpec(curveFit, event).value.value;
      |rows| == RowCount(event, 4) &&
      forall j :: 0 <= j < |rows| ==>
        rows[j].hit in event && 0 <= rows[j].hit.sl < 4 && Qualifies(ChamberHits(event, rows[j].hit.sl))
  {
    var compute := ComputeOf(curveFit);
    ComputeSound(curveFit);
    EventRowsFailure(compute, event, 4);
    if EventRows(compute, event, 4).Success? {
      EventRowsEmpty(compute, event, 4);
      EventRowsCount(compute, event, 4);
      EventRowsProvenance(compute, event, 4);
    } else if forall sl :: 0 <= sl < 4 ==> !Qualifies(ChamberHits(event, sl)) {
      assert false;
    }
  }

  // ---------------------------------------------------------------------------------
  // A run
  // ---------------------------------------------------------------------------------

  /** `pool.map_async(computeEvent, events).get()`: every event's outcome in order, or the
      error of the first event (in event order) whose reconstruction raised. */
  function MapEvents(curveFit: CurveFit, events: seq<seq<Hit>>): (r: Result<seq<Option<seq<RecoRow>>>, RecoError>)
    ensures r.Success? ==> |r.value| == |events|
  {
    if events == [] then Success([])
    else
      match MapEvents(curveFit, events[..|events| - 1])
      case Failure(e) => Failure(e)
      case Success(outs) =>
        match ComputeEventSpec(curveFit, events[|events| - 1])
        case Failure(e) => Failure(e)
        case Success(o) => Success(outs + [o])
  }

  /** `[x for x in resultsDf if x is not None]`. */
  function Present(outs: seq<Option<seq<RecoRow>>>): seq<seq<RecoRow>> {
    if outs == [] then []
    else
      var last := outs[|outs| - 1];
      Present(outs[..|outs| - 1]) + (if last.Some? then [last.value] else [])
  }

  /** reco.py `getRecoResults_mp(events)`. */
  function RecoResultsMp(curveFit: CurveFit, events: seq<seq<Hit>>): Result<seq<seq<RecoRow>>, RecoError> {
    match MapEvents(curveFit, events)
    case Failure(e) => Failure(e)
    case Success(outs) => Success(Present(outs))
  }

  lemma MapEventsStep(curveFit: CurveFit, events: seq<seq<Hit>>, i: nat)
    requires i < |events|
    ensures MapEvents(curveFit, events[..i + 1]) ==
      match MapEvents(curveFit, events[..i])
      case Failure(e) => Failure(e)
      case Success(outs) =>
        match ComputeEventSpec(curveFit, events[i])
        case Failure(e) => Failure(e)
        case Success(o) => Success(outs + [o])
  {
    assert events[..i + 1][..i] == events[..i];
  }

  lemma {:induction false} MapEventsFailureSticky(curveFit: CurveFit, events: seq<seq<Hit>>, i: nat)
    requires i <= |events| && MapEvents(curveFit, events[..i]).Failure?
    ensures MapEvents(curveFit, events) == MapEvents(curveFit, events[..i])
    decreases |events| - i
  {
    if i < |events| {
      MapEventsStep(curveFit, events, i);
      MapEventsFailureSticky(curveFit, events, i + 1);
    } else {
      assert events[..i] == events;
    }
  }

  /** reco.py `getRecoResults(events)`: the sequential loop computes what the pool version
      computes. */
  method GetRecoResults(curveFit: CurveFit, events: seq<seq<Hit>>) returns (r: Result<seq<seq<RecoRow>>, RecoError>)
    ensures r == RecoResultsMp(curveFit, events)
  {
    var resultsDf: seq<seq<RecoRow>> := [];
    for i := 0 to |events|
      invariant MapEvents(curveFit, events[..i]).Success?
      invariant Present(MapEvents(curveFit, events[..i]).value) == resultsDf
    {
      MapEventsStep(curveFit, events, i);
      var eventReco := ComputeEvent(curveFit, events[i]);
      if eventReco.Failure? {
        MapEventsFailureSticky(curveFit, events, i + 1);
        return Failure(eventReco.error);
      }
      var outs := MapEvents(curveFit, events[..i]).value;
      assert MapEvents(curveFit, events[..i + 1]).value == outs + [eventReco.value];
      assert (outs + [eventReco.value])[..|outs|] == outs;
      if eventReco.value.None? {
        continue;
      }
      if |eventReco.value.value| == 0 {
        // computeEvent never returns an empty table
        assert false;
        continue;
      }
      resultsDf := resultsDf + [eventReco.value.value];
    }
    assert events[..|events|] == events;
    return Success(resultsDf);
  }

  lemma {:induction false} PresentFacts(outs: seq<Option<seq<RecoRow>>>)
    ensures |Present(outs)| <= |outs|
    ensures forall j :: 0 <= j < |Present(outs)| ==> Some(Present(outs)[j]) in outs
    ensures forall i :: 0 <= i < |outs| && outs[i].Some? ==> outs[i].value in Present(outs)
  {
    if outs != [] {
      var init := outs[..|outs| - 1];
      PresentFacts(init);
      assert forall i :: 0 <= i < |init| ==> init[i] == outs[i];
    }
  }

  /** A successful run keeps at most one table per event; each is the non-empty table
      `computeEvent` returned for one of the events, and every event that produced a table
      contributes it. */
  lemma RecoResultsFacts(curveFit: CurveFit, events: seq<seq<Hit>>)
    requires RecoResultsMp(curveFit, events).Success?
    ensures |RecoResultsMp(curveFit, events).value| <= |events|
    ensures forall j :: 0 <= j < |RecoResultsMp(curveFit, events).value| ==>
      |RecoResultsMp(curveFit, events).value[j]| > 0 &&
      exists i :: 0 <= i < |events| &&
        ComputeEventSpec(curveFit, events[i]) == Success(Some(RecoResultsMp(curveFit, events).value[j]))
    ensures forall i ::
      (0 <= i < |events| && ComputeEventSpec(curveFit, events[i]).Success? &&
       ComputeEventSpec(curveFit, events[i]).value.Some?) ==>
        ComputeEventSpec(curveFit, events[i]).value.value in RecoResultsMp(curveFit, events).value
  {
    MapEventsOutcomes(curveFit, events);
    var outs := MapEvents(curveFit, events).value;
    PresentFacts(outs);
    forall j | 0 <= j < |Present(outs)|
      ensures |Present(outs)[j]| > 0
      ensures exists i :: 0 <= i < |events| && ComputeEventSpec(curveFit, events[i]) == Success(Some(Present(outs)[j]))
    {
      var i :| 0 <= i < |outs| && outs[i] == Some(Present(outs)[j]);
    }
  }

  /** `[x for x in resultsDf if x is not None]` keeps the present tables in their order: table
      j is the one at position pos[j], the positions ascend, and every present table's
      position is among them. */
  lemma {:induction false} PresentOrder(outs: seq<Option<seq<RecoRow>>>) returns (pos: seq<nat>)
    ensures |pos| == |Present(outs)| && Increasing(pos)
    ensures forall j :: 0 <= j < |pos| ==> pos[j] < |outs| && outs[pos[j]] == Some(Present(outs)[j])
    ensures forall i :: 0 <= i < |outs| && outs[i].Some? ==> i in pos
  {
    if outs == [] {
      return [];
    }
    var init, last := outs[..|outs| - 1], |outs| - 1;
    var pos0 := PresentOrder(init);
    var tail := if outs[last].Some? then [last] else [];
    pos := pos0 + tail;
    assert Present(outs) == Present(init) + (if outs[last].Some? then [outs[last].value] else []);
    forall j | 0 <= j < |pos|
      ensures pos[j] < |outs| && outs[pos[j]] == Some(Present(outs)[j])
    {
      if j < |pos0| {
        assert init[pos0[j]] == outs[pos0[j]];
      }
    }
    forall i | 0 <= i < |outs| && outs[i].Some?
      ensures i in pos
    {
      if i < last {
        assert init[i] == outs[i];
        assert i in pos0;
      }
    }
  }

  /** A successful run lists the tables in event order: table j is what `computeEvent`
      returned for event pos[j], the event positions ascend, and every event that produced a
      table is among them. */
  lemma RecoResultsOrder(curveFit: CurveFit, events: seq<seq<Hit>>) returns (pos: seq<nat>)
    requires RecoResultsMp(curveFit, events).Success?
    ensures |pos| == |RecoResultsMp(curveFit, events).value| && Increasing(pos)
    ensures forall j :: 0 <= j < |pos| ==>
      pos[j] < |events| &&
      ComputeEventSpec(curveFit, events[pos[j]]) == Success(Some(RecoResultsMp(curveFit, events).value[j]))
    ensures forall i ::
      (0 <= i < |events| && ComputeEventSpec(curveFit, events[i]).Success? &&
       ComputeEventSpec(curveFit, events[i]).value.Some?) ==> i in pos
  {
    MapEventsOutcomes(curveFit, events);
    pos := PresentOrder(MapEvents(curveFit, events).value);
  }

  /** On success, the pool's list holds each event's outcome at its position. */
  lemma {:induction false} MapEventsOutcomes(curveFit: CurveFit, events: seq<seq<Hit>>)
    ensures MapEvents(curveFit, events).Success? ==>
      forall i :: 0 <= i < |events| ==> ComputeEventSpec(curveFit, events[i]) == Success(MapEvents(curveFit, events).value[i])
    ensures MapEvents(curveFit, events).Success? ==>
      forall i :: 0 <= i < |events| && MapEvents(curveFit, events).value[i].Some? ==>
        |MapEvents(curveFit, events).value[i].value| > 0
  {
    if events != [] {
      var init := events[..|events| - 1];
      MapEventsOutcomes(curveFit, init);
      assert forall i :: 0 <= i < |init| ==> init[i] == events[i];
    }
  }
}
