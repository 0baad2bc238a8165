/** The stand-alone April script: it derives the same series identifiers, sends
    them in the same batches and keeps, from every successful response, only the
    data points of period "M04", as (series, "year-04", value) rows without an
    item name. The network is replaced by the list of responses, one per batch. */
module AprilScript {
  import opened SeriesBatching
  import opened Sequences
  import opened BlsApi
  import CpiDataApi

  /** One output row: Series_ID, Date, CPI Value. */
  datatype AprilRecord = AprilRecord(seriesId: string, date: string, cpiValue: string)

  /** The period code of April. */
  const April: string := "M04"

  /** The row an observation gives: one row for an April point, none otherwise. */
  function AprilRow(o: Observation): (r: seq<AprilRecord>)
    ensures |r| == (if o.point.period == April then 1 else 0)
    ensures r != [] ==> r[0].seriesId == o.seriesId && r[0].cpiValue == o.point.value
                        && r[0].date == CpiDataApi.DateString(o.point.year, o.point.period)
  {
    assert Drop(April, 1) == "04";
    if o.point.period == April then [AprilRecord(o.seriesId, o.point.year + "-04", o.point.value)] else []
  }

  /** The rows of a list of observations, in order. */
  function AprilOf(obs: seq<Observation>): seq<AprilRecord>
  {
    FlatMap(AprilRow, obs)
  }

  /** The rows the script collects from the responses. */
  function AprilRecords(rs: seq<Response>): (r: seq<AprilRecord>)
    ensures |r| == multiset(Periods(Observations(rs)))[April]
  {
    AprilRowCount(Observations(rs));
    AprilOf(Observations(rs))
  }

  /** Every row comes from an April observation and carries its series
      identifier, its year followed by "-04", and its value. */
  lemma {:induction false} AprilRowsSound(obs: seq<Observation>)
    ensures forall x :: x in AprilOf(obs) ==>
              exists o :: o in obs && o.point.period == April && x == AprilRecord(o.seriesId, o.point.year + "-04", o.point.value)
  {
    if obs != [] {
      var init := obs[..|obs| - 1];
      AprilRowsSound(init);
      forall x | x in AprilOf(obs)
        ensures exists o :: o in obs && o.point.period == April && x == AprilRecord(o.seriesId, o.point.year + "-04", o.point.value)
      {
        if x in AprilOf(init) {
          var o :| o in init && o.point.period == April && x == AprilRecord(o.seriesId, o.point.year + "-04", o.point.value);
          assert o in obs;
        } else {
          assert obs[|obs| - 1] in obs;
        }
      }
    }
  }

  /** Every April observation gives a row. */
  lemma {:induction false} AprilRowsComplete(obs: seq<Observation>, m: nat)
    requires m < |obs| && obs[m].point.period == April
    ensures AprilRecord(obs[m].seriesId, obs[m].point.year + "-04", obs[m].point.value) in AprilOf(obs)
  {
    var init := obs[..|obs| - 1];
    if m < |obs| - 1 {
      assert init[m] == obs[m];
      AprilRowsComplete(init, m);
    }
  }

  /** The period codes of a list of observations. */
  function Periods(obs: seq<Observation>): seq<string>
  {
    seq(|obs|, i requires 0 <= i < |obs| => obs[i].point.period)
  }

  /** There are as many rows as observations whose period is "M04". */
  lemma {:induction false} AprilRowCount(obs: seq<Observation>)
    ensures |AprilOf(obs)| == multiset(Periods(obs))[April]
  {
    if obs != [] {
      var init, last := obs[..|obs| - 1], obs[|obs| - 1];
      AprilRowCount(init);
      assert Periods(obs) == Periods(init) + [last.point.period];
    }
  }

  /** Responses processed later add their rows after the earlier ones. */
  lemma AprilRecordsAppend(a: seq<Response>, b: seq<Response>)
    ensures AprilRecords(a + b) == AprilRecords(a) + AprilRecords(b)
  {
    FlatMapAppend(SeriesIfSucceeded, a, b);
    FlatMapAppend(SeriesObservations, SuccessfulSeries(a), SuccessfulSeries(b));
    FlatMapAppend(AprilRow, Observations(a), Observations(b));
  }

  /** A response whose status is not REQUEST_SUCCEEDED adds no rows, and the
      following responses are still read. */
  lemma AprilSkipsFailedChunk(rs: seq<Response>, i: nat)
    requires i < |rs| && !Succeeded(rs[i])
    ensures AprilRecords(rs) == AprilRecords(rs[..i] + rs[i + 1..])
  {
    SkipFailedResponse(rs, i);
  }

  /** A successful response whose one series has only an annual-average point
      (period "M13") gives no row. */
  lemma AnnualAverageDropped(sid: string, year: string, value: string)
    ensures AprilRecords([Response(RequestSucceeded, Wrappers.None, [Series(sid, [DataPoint(year, "M13", value, [])])])]) == []
  {
    var s := Series(sid, [DataPoint(year, "M13", value, [])]);
    var rs := [Response(RequestSucceeded, Wrappers.None, [s])];
    FlatMapSingleton(SeriesIfSucceeded, rs[0]);
    FlatMapSingleton(SeriesObservations, s);
    var obs := SeriesObservations(s);
    assert obs == [obs[0]];
    FlatMapSingleton(AprilRow, obs[0]);
  }

  /** An April row's date is the date the main script gives the same point. */
  lemma AprilDateAgreesWithMainScript(year: string)
    ensures year + "-04" == CpiDataApi.DateString(year, April)
  {
    assert Sequences.Drop(April, 1) == "04";
  }

  /** The script: builds `series_ids` and `item_names` from the table, sends the
      batches in order, reading `responses[i]` as the answer to batch i, and
      collects the April rows. */
  method RunAprilScript(table: seq<ItemRow>, responses: seq<Response>)
    returns (seriesIds: seq<string>, itemNames: seq<string>, fetched: seq<seq<string>>, allRecords: seq<AprilRecord>)
    requires |responses| == |Chunks(SeriesIds(table), ChunkSize)|
    ensures |seriesIds| == |itemNames| == |table|
    ensures forall i :: 0 <= i < |table| ==> seriesIds[i] == Prefix + table[i].code && itemNames[i] == table[i].name
    ensures fetched == Chunks(seriesIds, ChunkSize)
    ensures allRecords == AprilRecords(responses)
  {
    seriesIds := SeriesIds(table);
    itemNames := seq(|table|, i requires 0 <= i < |table| => table[i].name);
    var chunks := Chunks(seriesIds, ChunkSize);
    allRecords := [];
    fetched := [];
    var i := 0;
    while i < |chunks|
      invariant 0 <= i <= |chunks|
      invariant fetched == chunks[..i]
      invariant allRecords == AprilOf(Observations(responses[..i]))
    {
      fetched := fetched + [chunks[i]];
      PrefixStep(chunks, i);
      allRecords := HandleAprilResponse(responses, i, allRecords);
      i := i + 1;
    }
    assert responses[..i] == responses;
  }

  /** The handling of the answer to batch i inside the script's loop: a failed
      request adds nothing, a successful one adds the April rows of its series
      in order. */
  method HandleAprilResponse(rs: seq<Response>, i: nat, allRecords: seq<AprilRecord>) returns (extended: seq<AprilRecord>)
    requires i < |rs| && allRecords == AprilOf(Observations(rs[..i]))
    ensures extended == AprilOf(Observations(rs[..i + 1]))
  {
    var jsonData := rs[i];
    if jsonData.status != RequestSucceeded {
      // The failure message is printed; the batch adds nothing.
      extended := allRecords;
    } else {
      extended := AppendResponseRows(allRecords, jsonData.series);
    }
    AprilNextResponse(rs, i);
  }

  /** The loop over the series of one successful response: appends the rows of
      each series in turn to the rows collected so far. */
  method AppendResponseRows(allRecords: seq<AprilRecord>, series: seq<Series>) returns (extended: seq<AprilRecord>)
    ensures extended == allRecords + AprilOf(ObservationsOf(series))
  {
    extended := allRecords;
    var j := 0;
    while j < |series|
      invariant 0 <= j <= |series|
      invariant extended == allRecords + AprilOf(ObservationsOf(series[..j]))
    {
      var s := series[j];
      extended := AppendAprilRows(extended, s);
      AprilNextSeries(series, j);
      AppendAssociates(allRecords, AprilOf(ObservationsOf(series[..j])), AprilOf(SeriesObservations(s)));
      j := j + 1;
    }
    assert series[..j] == series;
  }

  /** The loop over one series' data points: appends a row for each April point,
      in order, to the rows collected so far, which stay as they were. */
  method AppendAprilRows(allRecords: seq<AprilRecord>, s: Series) returns (extended: seq<AprilRecord>)
    ensures extended == allRecords + AprilOf(SeriesObservations(s))
  {
    extended := allRecords;
    var k := 0;
    while k < |s.data|
      invariant 0 <= k <= |s.data|
      invariant extended == allRecords + AprilOf(SeriesObservations(s)[..k])
    {
      var item := s.data[k];
      var footnotes := CollectFootnotes(item.footnotes);
      if item.period == April {
        var dateStr := item.year + "-04";
        extended := extended + [AprilRecord(s.seriesId, dateStr, item.value)];
      }
      AprilNextPoint(s, k);
      k := k + 1;
    }
    assert SeriesObservations(s)[..k] == SeriesObservations(s);
  }

  /** Walking one more data point of a series adds that point's row, if any. */
  lemma AprilNextPoint(s: Series, k: nat)
    requires k < |s.data|
    ensures AprilOf(SeriesObservations(s)[..k + 1]) == AprilOf(SeriesObservations(s)[..k])
              + (if s.data[k].period == April then [AprilRecord(s.seriesId, s.data[k].year + "-04", s.data[k].value)] else [])
  {
    FlatMapStep(AprilRow, SeriesObservations(s), k);
  }

  /** Extending the walked series by the next one adds that series' rows. */
  lemma AprilNextSeries(series: seq<Series>, j: nat)
    requires j < |series|
    ensures AprilOf(ObservationsOf(series[..j + 1]))
            == AprilOf(ObservationsOf(series[..j])) + AprilOf(SeriesObservations(series[j]))
  {
    FlatMapStep(SeriesObservations, series, j);
    FlatMapAppend(AprilRow, ObservationsOf(series[..j]), SeriesObservations(series[j]));
  }

  /** Reading one more response adds the rows of its series when it succeeded,
      and nothing otherwise. */
  lemma AprilNextResponse(rs: seq<Response>, i: nat)
    requires i < |rs|
    ensures Succeeded(rs[i]) ==> AprilOf(Observations(rs[..i + 1])) == AprilOf(Observations(rs[..i])) + AprilOf(ObservationsOf(rs[i].series))
    ensures !Succeeded(rs[i]) ==> AprilOf(Observations(rs[..i + 1])) == AprilOf(Observations(rs[..i]))
  {
    SuccessfulSeriesStep(rs, i);
    if Succeeded(rs[i]) {
      FlatMapAppend(SeriesObservations, SuccessfulSeries(rs[..i]), rs[i].series);
      FlatMapAppend(AprilRow, Observations(rs[..i]), ObservationsOf(rs[i].series));
    }
  }
}
