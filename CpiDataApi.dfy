/** The CPIDataFetcher class of the main download script: it derives series
    identifiers from the item table, sends them in batches of 24 and flattens
    every successful response into one record per data point, naming each
    record's item from the table. The network is replaced by the list of
    responses, one per batch, in the order the batches are sent. */
module CpiDataApi {
  import opened Wrappers
  import opened Sequences
  import opened SeriesBatching
  import opened BlsApi

  /** One output row: Series_ID, Item_name, Date ("year-month"), CPI_value. */
  datatype Record = Record(seriesId: string, itemName: string, date: string, cpiValue: string)

  /** Processing stops when a series names an item code the table does not hold
      (the empty selection's `.values[0]` raises). */
  datatype ProcessError = ItemNotFound(seriesId: string)

  /** The name in the first table row whose code is `code`, or None when no row
      has that code: the pandas selection of matching rows, then its first name. */
  function Lookup(table: seq<ItemRow>, code: string): (r: Option<string>)
    ensures r.Some? ==> ItemRow(code, r.value) in table
  {
    if table == [] then None
    else if table[0].code == code then Some(table[0].name)
    else Lookup(table[1..], code)
  }

  /** The lookup misses exactly when no row has the code; when it hits, it gives
      the name of the first row that has it. */
  lemma {:induction false} LookupFirstMatch(table: seq<ItemRow>, code: string)
    ensures Lookup(table, code).None? <==> forall i :: 0 <= i < |table| ==> table[i].code != code
    ensures Lookup(table, code).Some? ==>
              exists i :: 0 <= i < |table| && table[i].code == code && Lookup(table, code).value == table[i].name
                          && forall j :: 0 <= j < i ==> table[j].code != code
  {
    if table != [] && table[0].code != code {
      var rest := table[1..];
      LookupFirstMatch(rest, code);
      if Lookup(rest, code).None? {
        forall i | 0 <= i < |table| ensures table[i].code != code {
          if i > 0 { assert table[i] == rest[i - 1]; }
        }
      } else {
        var i :| 0 <= i < |rest| && rest[i].code == code && Lookup(rest, code).value == rest[i].name
                 && forall j :: 0 <= j < i ==> rest[j].code != code;
        assert table[i + 1] == rest[i];
        forall j | 0 <= j < i + 1 ensures table[j].code != code {
          if j > 0 { assert table[j] == rest[j - 1]; }
        }
      }
    }
  }

  /** The series identifier's item code (the identifier without its prefix) is
      in the table. */
  predicate Resolves(table: seq<ItemRow>, sid: string)
  {
    Lookup(table, ItemCode(sid)).Some?
  }

  function ItemName(table: seq<ItemRow>, sid: string): string
    requires Resolves(table, sid)
  {
    Lookup(table, ItemCode(sid)).value
  }

  /** The date string of a data point: the year, a hyphen, and the period
      without its first character. */
  function DateString(year: string, period: string): (date: string)
    ensures |date| == |year| + 1 + |Drop(period, 1)|
    ensures date[..|year|] == year && date[|year|] == '-' && date[|year| + 1..] == Drop(period, 1)
  {
    year + "-" + Drop(period, 1)
  }

  predicate IsDigit(c: char)
  {
    '0' <= c <= '9'
  }

  /** A two-digit month "01".."12". */
  predicate IsMonth(m: string)
  {
    |m| == 2 && ((m[0] == '0' && '1' <= m[1] <= '9') || (m[0] == '1' && '0' <= m[1] <= '2'))
  }

  /** Four digits, a hyphen and a month: what the later "%Y-%m" conversion of
      the Date column accepts. */
  predicate IsYearMonth(d: string)
  {
    |d| == 7 && IsDigit(d[0]) && IsDigit(d[1]) && IsDigit(d[2]) && IsDigit(d[3]) && d[4] == '-' && IsMonth(d[5..])
  }

  /** A monthly period code "M01".."M12" with a four-digit year gives a valid
      year-month date. */
  lemma MonthlyPeriodGivesYearMonth(year: string, period: string)
    requires |year| == 4 && forall i :: 0 <= i < 4 ==> IsDigit(year[i])
    requires |period| == 3 && period[0] == 'M' && IsMonth(period[1..])
    ensures IsYearMonth(DateString(year, period))
  {
    var d := DateString(year, period);
    assert d[..4] == year;
    assert d[5..] == period[1..];
    assert forall i :: 0 <= i < 4 ==> d[i] == year[i];
  }

  /** The annual-average period "M13" gives month "13", which is not a month:
      the date string the script builds for it is not a valid year-month. */
  lemma AnnualAveragePeriodIsNoMonth(year: string)
    ensures !IsYearMonth(DateString(year, "M13"))
  {
    var d := DateString(year, "M13");
    if |d| == 7 {
      assert |year| == 4;
      assert d[5..] == "13";
    }
  }

  /** "2023" with period "M06" gives "2023-06". */
  lemma DateStringExample()
    ensures DateString("2023", "M06") == "2023-06"
  {
    assert Drop("M06", 1) == "06";
  }

  /** The record of one data point of a series whose item name is `name`; the
      footnotes take no part in it. */
  function PointRecord(sid: string, name: string, p: DataPoint): (r: Record)
    ensures r.seriesId == sid && r.itemName == name && r.cpiValue == p.value
    ensures |r.date| == |p.year| + 1 + |Drop(p.period, 1)|
    ensures r.date[..|p.year|] == p.year && r.date[|p.year|] == '-' && r.date[|p.year| + 1..] == Drop(p.period, 1)
  {
    Record(sid, name, DateString(p.year, p.period), p.value)
  }

  /** One record per data point of a series, all with the item name `name`. */
  function PointRecords(s: Series, name: string): (rs: seq<Record>)
    ensures |rs| == |s.data|
    ensures forall k :: 0 <= k < |rs| ==>
              rs[k].seriesId == s.seriesId && rs[k].itemName == name && rs[k].cpiValue == s.data[k].value
              && rs[k].date == DateString(s.data[k].year, s.data[k].period)
  {
    seq(|s.data|, k requires 0 <= k < |s.data| => PointRecord(s.seriesId, name, s.data[k]))
  }

  /** The records of a series, named from the table. A series whose item code is
      not in the table has none here; `Process` reports it as an error before
      any records are used. */
  function SeriesRecords(table: seq<ItemRow>, s: Series): seq<Record>
  {
    match Lookup(table, ItemCode(s.seriesId))
    case Some(name) => PointRecords(s, name)
    case None => []
  }

  predicate AllResolved(table: seq<ItemRow>, ss: seq<Series>)
  {
    forall i :: 0 <= i < |ss| ==> Resolves(table, ss[i].seriesId)
  }

  /** The records of one series, as a function of the series. */
  function SeriesRecordsIn(table: seq<ItemRow>): Series -> seq<Record>
  {
    s => SeriesRecords(table, s)
  }

  /** The records of a list of series, series after series. */
  function RecordsOf(table: seq<ItemRow>, ss: seq<Series>): seq<Record>
  {
    FlatMap(SeriesRecordsIn(table), ss)
  }

  /** The identifier of the first series whose item code is not in the table. */
  function FirstUnresolved(table: seq<ItemRow>, ss: seq<Series>): (r: Option<string>)
    ensures r.None? <==> AllResolved(table, ss)
    ensures r.Some? ==> exists i :: 0 <= i < |ss| && ss[i].seriesId == r.value
                                    && !Resolves(table, ss[i].seriesId) && AllResolved(table, ss[..i])
  {
    if ss == [] then None
    else if !Resolves(table, ss[0].seriesId) then
      assert AllResolved(table, ss[..0]);
      Some(ss[0].seriesId)
    else
      var r := FirstUnresolved(table, ss[1..]);
      AllResolvedTail(table, ss);
      if r.Some? then
        var i :| 0 <= i < |ss[1..]| && ss[1..][i].seriesId == r.value
                 && !Resolves(table, ss[1..][i].seriesId) && AllResolved(table, ss[1..][..i]);
        assert ss[i + 1] == ss[1..][i];
        AllResolvedPrefixTail(table, ss, i);
        r
      else
        r
  }

  /** Behind a series that resolves, the rest all resolve exactly when the
      whole list does. */
  lemma AllResolvedTail(table: seq<ItemRow>, ss: seq<Series>)
    requires ss != [] && Resolves(table, ss[0].seriesId)
    ensures AllResolved(table, ss) <==> AllResolved(table, ss[1..])
  {
    if AllResolved(table, ss[1..]) {
      forall i | 0 <= i < |ss| ensures Resolves(table, ss[i].seriesId) {
        if i > 0 { assert ss[i] == ss[1..][i - 1]; }
      }
    }
    if AllResolved(table, ss) {
      forall i | 0 <= i < |ss[1..]| ensures Resolves(table, ss[1..][i].seriesId) {
        assert ss[1..][i] == ss[i + 1];
      }
    }
  }

  /** A resolving head followed by a resolving prefix of the rest is a
      resolving prefix of the whole list. */
  lemma AllResolvedPrefixTail(table: seq<ItemRow>, ss: seq<Series>, i: nat)
    requires i < |ss| - 1 && Resolves(table, ss[0].seriesId) && AllResolved(table, ss[1..][..i])
    ensures AllResolved(table, ss[..i + 1])
  {
    var pre := ss[..i + 1];
    forall j | 0 <= j < |pre| ensures Resolves(table, pre[j].seriesId) {
      if j > 0 { assert pre[j] == ss[1..][..i][j - 1]; }
    }
  }

  /** What `process_data` produces from the table and the responses: the records
      of every series of every successful response, or the error for the first
      series whose item code is not in the table. */
  function Process(table: seq<ItemRow>, responses: seq<Response>): (r: Result<seq<Record>, ProcessError>)
    ensures r.Success? <==> AllResolved(table, SuccessfulSeries(responses))
    ensures r.Failure? ==>
              exists i :: 0 <= i < |SuccessfulSeries(responses)|
                          && SuccessfulSeries(responses)[i].seriesId == r.error.seriesId
                          && !Resolves(table, r.error.seriesId)
                          && AllResolved(table, SuccessfulSeries(responses)[..i])
  {
    var ss := SuccessfulSeries(responses);
    match FirstUnresolved(table, ss)
    case Some(sid) => Failure(ItemNotFound(sid))
    case None => Success(RecordsOf(table, ss))
  }

  /** Series that all resolve, put in front, do not change which series is the
      first unresolved one. */
  lemma {:induction false} FirstUnresolvedAfterResolved(table: seq<ItemRow>, a: seq<Series>, b: seq<Series>)
    requires AllResolved(table, a)
    ensures FirstUnresolved(table, a + b) == FirstUnresolved(table, b)
  {
    if a != [] {
      assert (a + b)[0] == a[0];
      TailOfAppend(a, b);
      assert AllResolved(table, a[1..]) by {
        forall i | 0 <= i < |a[1..]| ensures Resolves(table, a[1..][i].seriesId) {
          assert a[1..][i] == a[i + 1];
        }
      }
      FirstUnresolvedAfterResolved(table, a[1..], b);
    } else {
      assert a + b == b;
    }
  }

  /** Two lists that resolve resolve together. */
  lemma AllResolvedAppend(table: seq<ItemRow>, a: seq<Series>, b: seq<Series>)
    requires AllResolved(table, a) && AllResolved(table, b)
    ensures AllResolved(table, a + b)
  {
    forall i | 0 <= i < |a + b| ensures Resolves(table, (a + b)[i].seriesId) {
      if i >= |a| { assert (a + b)[i] == b[i - |a|]; }
    }
  }

  /** The first unresolved series of a list stays the first when more series follow. */
  lemma {:induction false} FirstUnresolvedBeforeRest(table: seq<ItemRow>, a: seq<Series>, b: seq<Series>)
    requires FirstUnresolved(table, a).Some?
    ensures FirstUnresolved(table, a + b) == FirstUnresolved(table, a)
  {
    assert a != [];
    assert (a + b)[0] == a[0];
    if Resolves(table, a[0].seriesId) {
      TailOfAppend(a, b);
      FirstUnresolvedBeforeRest(table, a[1..], b);
    }
  }

  /** The records of series given in two parts are those of each part, in order. */
  lemma RecordsOfAppend(table: seq<ItemRow>, a: seq<Series>, b: seq<Series>)
    ensures RecordsOf(table, a + b) == RecordsOf(table, a) + RecordsOf(table, b)
  {
    FlatMapAppend(SeriesRecordsIn(table), a, b);
  }

  /** Processing fails exactly when some successful response holds a series
      whose item code is not in the table; failed responses are never looked at. */
  lemma ProcessFailsIffUnknownItem(table: seq<ItemRow>, rs: seq<Response>)
    ensures Process(table, rs).Failure? <==>
              exists i, s :: 0 <= i < |rs| && Succeeded(rs[i]) && s in rs[i].series && !Resolves(table, s.seriesId)
  {
    var ss := SuccessfulSeries(rs);
    if Process(table, rs).Failure? {
      var k :| 0 <= k < |ss| && !Resolves(table, ss[k].seriesId);
      SuccessfulSeriesMembers(rs, ss[k]);
    }
    if exists i, s :: 0 <= i < |rs| && Succeeded(rs[i]) && s in rs[i].series && !Resolves(table, s.seriesId) {
      var i, s :| 0 <= i < |rs| && Succeeded(rs[i]) && s in rs[i].series && !Resolves(table, s.seriesId);
      SuccessfulSeriesMembers(rs, s);
    }
  }

  /** The records of resolved series are the observations of those series, one
      record each and in the same order, each carrying the series identifier, the
      item's name from the table, the date string and the value. */
  lemma {:induction false} RecordsFollowObservations(table: seq<ItemRow>, ss: seq<Series>)
    requires AllResolved(table, ss)
    ensures |RecordsOf(table, ss)| == |ObservationsOf(ss)|
    ensures forall m :: 0 <= m < |ObservationsOf(ss)| ==>
              var o := ObservationsOf(ss)[m];
              Resolves(table, o.seriesId) && RecordsOf(table, ss)[m] == PointRecord(o.seriesId, ItemName(table, o.seriesId), o.point)
  {
    if ss != [] {
      var init, last := ss[..|ss| - 1], ss[|ss| - 1];
      assert AllResolved(table, init) by {
        forall i | 0 <= i < |init| ensures Resolves(table, init[i].seriesId) {
          assert init[i] == ss[i];
        }
      }
      assert Resolves(table, last.seriesId);
      RecordsFollowObservations(table, init);
      var recs, obs := RecordsOf(table, ss), ObservationsOf(ss);
      assert recs == RecordsOf(table, init) + SeriesRecords(table, last);
      assert obs == ObservationsOf(init) + SeriesObservations(last);
      forall m | 0 <= m < |obs|
        ensures Resolves(table, obs[m].seriesId)
        ensures recs[m] == PointRecord(obs[m].seriesId, ItemName(table, obs[m].seriesId), obs[m].point)
      {
        if m >= |ObservationsOf(init)| {
          var k := m - |ObservationsOf(init)|;
          assert obs[m] == SeriesObservations(last)[k] == Observation(last.seriesId, last.data[k]);
          assert recs[m] == SeriesRecords(table, last)[k];
        }
      }
    }
  }

  /** A successful run yields one record per data point of the successful
      responses, ordered by response, then series, then data point. */
  lemma ProcessRecordsObservations(table: seq<ItemRow>, rs: seq<Response>)
    requires Process(table, rs).Success?
    ensures |Process(table, rs).value| == |Observations(rs)| == PointCount(SuccessfulSeries(rs))
    ensures forall m :: 0 <= m < |Observations(rs)| ==>
              var o := Observations(rs)[m];
              var rec := Process(table, rs).value[m];
              Lookup(table, ItemCode(o.seriesId)) == Some(rec.itemName)
              && rec == Record(o.seriesId, rec.itemName, DateString(o.point.year, o.point.period), o.point.value)
  {
    RecordsFollowObservations(table, SuccessfulSeries(rs));
    ObservationCount(SuccessfulSeries(rs));
  }

  /** Responses processed after others add their records after the earlier ones
      and leave those unchanged; an error in the earlier responses is the error of
      the whole run, whatever comes later. */
  lemma ProcessAppend(table: seq<ItemRow>, a: seq<Response>, b: seq<Response>)
    ensures Process(table, a).Failure? ==> Process(table, a + b) == Process(table, a)
    ensures Process(table, a).Success? && Process(table, b).Success? ==>
              Process(table, a + b) == Success(Process(table, a).value + Process(table, b).value)
    ensures Process(table, a).Success? && Process(table, b).Failure? ==> Process(table, a + b) == Process(table, b)
  {
    var sa, sb := SuccessfulSeries(a), SuccessfulSeries(b);
    FlatMapAppend(SeriesIfSucceeded, a, b);
    if Process(table, a).Failure? {
      FirstUnresolvedBeforeRest(table, sa, sb);
    } else {
      FirstUnresolvedAfterResolved(table, sa, sb);
      if Process(table, b).Success? {
        RecordsOfAppend(table, sa, sb);
      }
    }
  }

  /** A response whose status is not REQUEST_SUCCEEDED adds no records and no
      error: processing goes on as if it had not been received. */
  lemma SkipFailedChunk(table: seq<ItemRow>, rs: seq<Response>, i: nat)
    requires i < |rs| && !Succeeded(rs[i])
    ensures Process(table, rs) == Process(table, rs[..i] + rs[i + 1..])
  {
    SkipFailedResponse(rs, i);
  }

  /** Every identifier built from the table resolves; the name found is the name
      of the first row with the same code, which is the row's own name when no
      earlier row repeats its code. */
  lemma SeriesIdsResolve(table: seq<ItemRow>, i: nat)
    requires i < |table|
    ensures Resolves(table, SeriesIds(table)[i])
    ensures (forall j :: 0 <= j < i ==> table[j].code != table[i].code) ==>
              ItemName(table, SeriesIds(table)[i]) == table[i].name
  {
    var code := table[i].code;
    assert ItemCode(SeriesIds(table)[i]) == code;
    LookupFirstMatch(table, code);
    if forall j :: 0 <= j < i ==> table[j].code != code {
      var k :| 0 <= k < |table| && table[k].code == code && Lookup(table, code).value == table[k].name
               && forall j :: 0 <= j < k ==> table[j].code != code;
      assert k == i;
    }
  }

  /** One item "SA0" named "All items" and one successful response with a single
      June 2023 point give the single row (CUUR0000SA0, All items, 2023-06, 301.5). */
  lemma SingleItemScenario()
    ensures Process([ItemRow("SA0", "All items")],
                    [Response(RequestSucceeded, None,
                              [Series("CUUR0000SA0", [DataPoint("2023", "M06", "301.5", [])])])])
            == Success([Record("CUUR0000SA0", "All items", "2023-06", "301.5")])
  {
    var table := [ItemRow("SA0", "All items")];
    var s := Series("CUUR0000SA0", [DataPoint("2023", "M06", "301.5", [])]);
    var rs := [Response(RequestSucceeded, None, [s])];
    FlatMapSingleton(SeriesIfSucceeded, rs[0]);
    FlatMapSingleton(SeriesRecordsIn(table), s);
    assert ItemCode("CUUR0000SA0") == "SA0";
    assert Lookup(table, "SA0") == Some("All items");
    assert FirstUnresolved(table, [s]) == None;
    assert [s][..0] == [];
    assert ItemName(table, s.seriesId) == "All items";
    DateStringExample();
    assert PointRecord(s.seriesId, "All items", s.data[0]) == Record("CUUR0000SA0", "All items", "2023-06", "301.5");
    assert RecordsOf(table, [s]) == SeriesRecords(table, s);
    assert SeriesRecords(table, s) == [Record("CUUR0000SA0", "All items", "2023-06", "301.5")];
  }

  /** The footnotes of a data point never reach a record: the run gives the same
      result, records or error, with every footnote removed. */
  lemma ProcessIgnoresFootnotes(table: seq<ItemRow>, rs: seq<Response>)
    ensures Process(table, WithoutFootnotes(rs)) == Process(table, rs)
  {
    var ss := SuccessfulSeries(rs);
    SuccessfulSeriesWithoutFootnotes(rs);
    FirstUnresolvedWithoutFootnotes(table, ss);
    if AllResolved(table, ss) {
      RecordsOfWithoutFootnotes(table, ss);
    }
  }

  lemma {:induction false} FirstUnresolvedWithoutFootnotes(table: seq<ItemRow>, ss: seq<Series>)
    ensures FirstUnresolved(table, SeriesListWithoutFootnotes(ss)) == FirstUnresolved(table, ss)
  {
    if ss != [] {
      var w := SeriesListWithoutFootnotes(ss);
      assert w[0].seriesId == ss[0].seriesId;
      assert w[1..] == SeriesListWithoutFootnotes(ss[1..]);
      FirstUnresolvedWithoutFootnotes(table, ss[1..]);
    }
  }

  lemma {:induction false} RecordsOfWithoutFootnotes(table: seq<ItemRow>, ss: seq<Series>)
    requires AllResolved(table, ss)
    ensures AllResolved(table, SeriesListWithoutFootnotes(ss))
    ensures RecordsOf(table, SeriesListWithoutFootnotes(ss)) == RecordsOf(table, ss)
  {
    var w := SeriesListWithoutFootnotes(ss);
    assert forall j :: 0 <= j < |w| ==> w[j].seriesId == ss[j].seriesId;
    if ss != [] {
      var init, last := ss[..|ss| - 1], ss[|ss| - 1];
      assert AllResolved(table, init) by {
        forall i | 0 <= i < |init| ensures Resolves(table, init[i].seriesId) {
          assert init[i] == ss[i];
        }
      }
      RecordsOfWithoutFootnotes(table, init);
      assert w[..|w| - 1] == SeriesListWithoutFootnotes(init);
      assert SeriesRecords(table, w[|w| - 1]) == SeriesRecords(table, last);
    }
  }

  /** The downloader object. It keeps its configuration, the item table and the
      series identifiers derived from it. */
  class CpiDataFetcher {
    var csvFile: string
    var outputCsvFile: string
    var startYear: int
    var endYear: int
    var table: seq<ItemRow>
    var seriesIds: seq<string>

    /** `__init__`: stores the configuration and the table read from `csvFile`
        (passed in here) and builds one series identifier per table row. */
    constructor (csvFile: string, outputCsvFile: string, startYear: int, endYear: int, table: seq<ItemRow>)
      ensures this.csvFile == csvFile && this.outputCsvFile == outputCsvFile
      ensures this.startYear == startYear && this.endYear == endYear
      ensures this.table == table
      ensures |seriesIds| == |table|
      ensures forall i :: 0 <= i < |table| ==> seriesIds[i] == Prefix + table[i].code
    {
      this.csvFile := csvFile;
      this.outputCsvFile := outputCsvFile;
      this.startYear := startYear;
      this.endYear := endYear;
      this.table := table;
      seriesIds := SeriesIds(table);
    }

    /** `process_data`: sends the batches in order, reading `responses[i]` as the
        answer to batch i, and collects the records. `fetched` lists the batches
        sent, in order; every batch is sent unless processing stops on a series
        whose item code is not in the table, and then the batches sent are
        exactly those up to the first one whose answer holds such a series. */
    method ProcessData(responses: seq<Response>) returns (fetched: seq<seq<string>>, result: Result<seq<Record>, ProcessError>)
      requires |responses| == |Chunks(seriesIds, ChunkSize)|
      ensures result == Process(table, responses)
      ensures fetched <= Chunks(seriesIds, ChunkSize)
      ensures result.Success? ==> fetched == Chunks(seriesIds, ChunkSize)
      ensures result.Failure? ==> 0 < |fetched| <= |responses|
                                  && Process(table, responses[..|fetched|]).Failure?
                                  && Process(table, responses[..|fetched| - 1]).Success?
    {
      var table, chunks := this.table, Chunks(seriesIds, ChunkSize);
      var allRecords: seq<Record> := [];
      fetched := [];
      var i := 0;
      while i < |chunks|
        invariant 0 <= i <= |chunks|
        invariant fetched == chunks[..i]
        invariant Process(table, responses[..i]) == Success(allRecords)
      {
        fetched := fetched + [chunks[i]];
        PrefixStep(chunks, i);
        var unknown;
        allRecords, unknown := HandleResponse(table, responses, i, allRecords);
        if unknown.Some? {
          result := Failure(ItemNotFound(unknown.value));
          return;
        }
        i := i + 1;
      }
      assert responses[..i] == responses;
      result := Success(allRecords);
    }
  }

  /** The handling of the answer to batch i inside `process_data`: a failed
      request adds nothing, a successful one adds the records of its series in
      order, and a series whose item code is not in the table stops processing
      with that series identifier as the error. */
  method HandleResponse(table: seq<ItemRow>, rs: seq<Response>, i: nat, allRecords: seq<Record>)
    returns (extended: seq<Record>, unknown: Option<string>)
    requires i < |rs| && Process(table, rs[..i]) == Success(allRecords)
    ensures unknown.None? ==> Process(table, rs[..i + 1]) == Success(extended)
    ensures unknown.Some? ==> Process(table, rs) == Failure(ItemNotFound(unknown.value))
                              && Process(table, rs[..i + 1]) == Process(table, rs)
  {
    var jsonData := rs[i];
    ProcessNextResponse(table, rs, i);
    if jsonData.status != RequestSucceeded {
      // The failure message is printed; the batch adds nothing.
      extended, unknown := allRecords, None;
    } else {
      extended, unknown := AppendResponseRecords(table, allRecords, jsonData.series);
    }
  }

  /** The loop over one series' data points: appends one record per point, in
      order, to the records collected so far, which stay as they were. */
  method AppendSeriesRecords(allRecords: seq<Record>, s: Series, itemName: string) returns (extended: seq<Record>)
    ensures extended == allRecords + PointRecords(s, itemName)
  {
    extended := allRecords;
    var k := 0;
    while k < |s.data|
      invariant 0 <= k <= |s.data|
      invariant extended == allRecords + PointRecords(s, itemName)[..k]
    {
      var item := s.data[k];
      var footnotes := CollectFootnotes(item.footnotes);
      var month := Drop(item.period, 1);
      var dateStr := item.year + "-" + month;
      extended := extended + [Record(s.seriesId, itemName, dateStr, item.value)];
      assert PointRecords(s, itemName)[..k + 1] == PointRecords(s, itemName)[..k] + [PointRecords(s, itemName)[k]];
      k := k + 1;
    }
    assert PointRecords(s, itemName)[..k] == PointRecords(s, itemName);
  }

  /** The loop over the series of one successful response: looks up each
      series' item name and appends its records, and stops at the first series
      whose item code is not in the table, which it reports. */
  method AppendResponseRecords(table: seq<ItemRow>, allRecords: seq<Record>, series: seq<Series>)
    returns (extended: seq<Record>, unknown: Option<string>)
    ensures unknown == FirstUnresolved(table, series)
    ensures unknown.None? ==> extended == allRecords + RecordsOf(table, series)
  {
    extended := allRecords;
    var j := 0;
    while j < |series|
      invariant 0 <= j <= |series|
      invariant AllResolved(table, series[..j])
      invariant extended == allRecords + RecordsOf(table, series[..j])
    {
      var s := series[j];
      var name := Lookup(table, ItemCode(s.seriesId));
      if name.None? {
        unknown := Some(s.seriesId);
        UnresolvedSeriesIsFirst(table, series, j);
        return;
      }
      var itemName := name.value;
      extended := AppendSeriesRecords(extended, s, itemName);
      AppendResolvedSeries(table, series, j, itemName);
      AppendAssociates(allRecords, RecordsOf(table, series[..j]), PointRecords(s, itemName));
      j := j + 1;
    }
    assert series[..j] == series;
    unknown := None;
  }

  /** Processing one more series, whose item name the table gives, appends
      exactly its records. */
  lemma AppendResolvedSeries(table: seq<ItemRow>, series: seq<Series>, j: nat, name: string)
    requires j < |series|
    requires AllResolved(table, series[..j]) && Lookup(table, ItemCode(series[j].seriesId)) == Some(name)
    ensures AllResolved(table, series[..j + 1])
    ensures RecordsOf(table, series[..j + 1]) == RecordsOf(table, series[..j]) + PointRecords(series[j], name)
  {
    assert series[..j + 1] == series[..j] + [series[j]];
    AllResolvedAppend(table, series[..j], [series[j]]);
    FlatMapStep(SeriesRecordsIn(table), series, j);
  }


  /** A series whose item code is missing, after series that all resolve, is
      the first unresolved one. */
  lemma UnresolvedSeriesIsFirst(table: seq<ItemRow>, series: seq<Series>, j: nat)
    requires j < |series|
    requires AllResolved(table, series[..j]) && !Resolves(table, series[j].seriesId)
    ensures FirstUnresolved(table, series) == Some(series[j].seriesId)
  {
    assert series == series[..j] + series[j..];
    FirstUnresolvedAfterResolved(table, series[..j], series[j..]);
    assert series[j..][0] == series[j];
  }

  /** What reading response i does to a run whose earlier responses succeeded:
      a failed response changes nothing; a successful one appends the records of
      its series when they all resolve, and otherwise makes the run, and every
      longer run, fail with its first unresolved series. */
  lemma ProcessNextResponse(table: seq<ItemRow>, rs: seq<Response>, i: nat)
    requires i < |rs| && Process(table, rs[..i]).Success?
    ensures !Succeeded(rs[i]) ==> Process(table, rs[..i + 1]) == Process(table, rs[..i])
    ensures Succeeded(rs[i]) && FirstUnresolved(table, rs[i].series).None? ==>
              Process(table, rs[..i + 1]) == Success(Process(table, rs[..i]).value + RecordsOf(table, rs[i].series))
    ensures Succeeded(rs[i]) && FirstUnresolved(table, rs[i].series).Some? ==>
              Process(table, rs) == Failure(ItemNotFound(FirstUnresolved(table, rs[i].series).value))
              && Process(table, rs[..i + 1]) == Process(table, rs)
  {
    var done := SuccessfulSeries(rs[..i]);
    SuccessfulSeriesStep(rs, i);
    if Succeeded(rs[i]) {
      if FirstUnresolved(table, rs[i].series).None? {
        AllResolvedAppend(table, done, rs[i].series);
        RecordsOfAppend(table, done, rs[i].series);
      } else {
        UnresolvedResponseFails(table, rs, i);
        var head := rs[..i + 1];
        assert head[..i] == rs[..i];
        assert head[i] == rs[i];
        UnresolvedResponseFails(table, head, i);
      }
    }
  }

  /** A successful response holding a series whose item code is missing, after
      responses whose series all resolve, makes the run fail with its first such
      series. */
  lemma UnresolvedResponseFails(table: seq<ItemRow>, rs: seq<Response>, i: nat)
    requires i < |rs| && Succeeded(rs[i]) && AllResolved(table, SuccessfulSeries(rs[..i]))
    requires FirstUnresolved(table, rs[i].series).Some?
    ensures Process(table, rs) == Failure(ItemNotFound(FirstUnresolved(table, rs[i].series).value))
  {
    var done, series := SuccessfulSeries(rs[..i]), rs[i].series;
    var upTo, rest := SuccessfulSeries(rs[..i + 1]), SuccessfulSeries(rs[i + 1..]);
    assert rs[..i + 1] + rs[i + 1..] == rs;
    FlatMapAppend(SeriesIfSucceeded, rs[..i + 1], rs[i + 1..]);
    SuccessfulSeriesStep(rs, i);
    FirstUnresolvedAfterResolved(table, done, series);
    FirstUnresolvedBeforeRest(table, upTo, rest);
  }

  /** A series of successful response i whose item code is not in the table, after
      all earlier series resolved, is the run's error. */
  lemma UnknownItemStopsProcessing(table: seq<ItemRow>, rs: seq<Response>, i: nat, j: nat)
    requires i < |rs| && Succeeded(rs[i]) && j < |rs[i].series|
    requires AllResolved(table, SuccessfulSeries(rs[..i]) + rs[i].series[..j])
    requires !Resolves(table, rs[i].series[j].seriesId)
    ensures Process(table, rs) == Failure(ItemNotFound(rs[i].series[j].seriesId))
  {
    var done, series := SuccessfulSeries(rs[..i]), rs[i].series;
    var upTo, rest := SuccessfulSeries(rs[..i + 1]), SuccessfulSeries(rs[i + 1..]);
    assert rs[..i + 1] + rs[i + 1..] == rs;
    FlatMapAppend(SeriesIfSucceeded, rs[..i + 1], rs[i + 1..]);
    SuccessfulSeriesStep(rs, i);
    assert series[..j] + series[j..] == series;
    AppendAssociates(done, series[..j], series[j..]);
    FirstUnresolvedAfterResolved(table, done + series[..j], series[j..]);
    assert series[j..][0] == series[j];
    FirstUnresolvedBeforeRest(table, upTo, rest);
  }
}
