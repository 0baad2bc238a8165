/** The shape of a BLS timeseries API response, as both download scripts read it,
    and the flattening of a run's responses into (series, data point) pairs. */
module BlsApi {
  import opened Wrappers
  import opened Sequences

  /** The status a successful request reports. */
  const RequestSucceeded: string := "REQUEST_SUCCEEDED"

  /** One entry of a data point's footnotes list. The API sends an empty object
      (falsy in Python) where there is no footnote. */
  datatype Footnote = EmptyNote | Note(text: string)

  /** One observation of a series: year, period code ("M01".."M12", "M13" for
      the annual average), the value as sent and its footnotes. */
  datatype DataPoint = DataPoint(year: string, period: string, value: string, footnotes: seq<Footnote>)

  datatype Series = Series(seriesId: string, data: seq<DataPoint>)

  /** One request's answer: `status`, the optional `message`, and
      `Results.series`. */
  datatype Response = Response(status: string, message: Option<string>, series: seq<Series>)

  predicate Succeeded(r: Response)
  {
    r.status == RequestSucceeded
  }

  /** What one footnote adds to the footnote string: nothing for an empty entry,
      its text and a comma otherwise. */
  function NoteText(f: Footnote): string
  {
    match f
    case EmptyNote => ""
    case Note(text) => text + ","
  }

  /** The footnote string both scripts build for a data point (and then drop). */
  function FootnoteText(fs: seq<Footnote>): (text: string)
    ensures text == [] || text[|text| - 1] == ','
  {
    FootnoteTextEndsWithComma(fs);
    FlatMap(NoteText, fs)
  }

  /** Each footnote's text is followed by a comma, so a non-empty footnote
      string ends with one. */
  lemma {:induction false} FootnoteTextEndsWithComma(fs: seq<Footnote>)
    ensures FlatMap(NoteText, fs) == [] || FlatMap(NoteText, fs)[|FlatMap(NoteText, fs)| - 1] == ','
  {
    if fs != [] {
      FootnoteTextEndsWithComma(fs[..|fs| - 1]);
    }
  }

  /** The footnote loop of one data point. */
  method CollectFootnotes(fs: seq<Footnote>) returns (footnotes: string)
    ensures footnotes == FootnoteText(fs)
  {
    footnotes := "";
    var f := 0;
    while f < |fs|
      invariant 0 <= f <= |fs|
      invariant footnotes == FootnoteText(fs[..f])
    {
      match fs[f] {
        case Note(text) =>
          footnotes := footnotes + text + ",";
        case EmptyNote =>
      }
      FlatMapStep(NoteText, fs, f);
      f := f + 1;
    }
    assert fs[..f] == fs;
  }

  /** Empty footnote entries contribute nothing. */
  lemma {:induction false} FootnoteTextOfEmptyNotes(fs: seq<Footnote>)
    requires forall i :: 0 <= i < |fs| ==> fs[i] == EmptyNote
    ensures FootnoteText(fs) == ""
  {
    if fs != [] {
      FootnoteTextOfEmptyNotes(fs[..|fs| - 1]);
    }
  }

  /** Each text is followed by a comma, including the last, and empty entries
      leave no trace. */
  lemma FootnoteTextExample()
    ensures FootnoteText([Note("Preliminary"), EmptyNote, Note("Revised")]) == "Preliminary,Revised,"
  {
    var fs := [Note("Preliminary"), EmptyNote, Note("Revised")];
    assert [Note("Preliminary")][..0] == [];
    assert FootnoteText([Note("Preliminary")]) == "Preliminary,";
    assert [Note("Preliminary"), EmptyNote][..1] == [Note("Preliminary")];
    assert FootnoteText([Note("Preliminary"), EmptyNote]) == "Preliminary,";
    assert fs[..2] == [Note("Preliminary"), EmptyNote];
  }

  /** The series a response contributes: all of them if it succeeded, none
      otherwise. */
  function SeriesIfSucceeded(r: Response): seq<Series>
  {
    if Succeeded(r) then r.series else []
  }

  /** The series of every successful response, response by response. */
  function SuccessfulSeries(rs: seq<Response>): seq<Series>
  {
    FlatMap(SeriesIfSucceeded, rs)
  }

  /** Reading one more response adds its series if it succeeded. */
  lemma SuccessfulSeriesStep(rs: seq<Response>, i: nat)
    requires i < |rs|
    ensures Succeeded(rs[i]) ==> SuccessfulSeries(rs[..i + 1]) == SuccessfulSeries(rs[..i]) + rs[i].series
    ensures !Succeeded(rs[i]) ==> SuccessfulSeries(rs[..i + 1]) == SuccessfulSeries(rs[..i])
  {
    FlatMapStep(SeriesIfSucceeded, rs, i);
    assert SuccessfulSeries(rs[..i]) + [] == SuccessfulSeries(rs[..i]);
  }

  /** A series is taken exactly when it belongs to some successful response. */
  lemma {:induction false} SuccessfulSeriesMembers(rs: seq<Response>, s: Series)
    ensures s in SuccessfulSeries(rs) <==> exists i :: 0 <= i < |rs| && Succeeded(rs[i]) && s in rs[i].series
  {
    if rs != [] {
      var init := rs[..|rs| - 1];
      SuccessfulSeriesMembers(init, s);
      if s in SuccessfulSeries(rs) && s !in SuccessfulSeries(init) {
        assert Succeeded(rs[|rs| - 1]) && s in rs[|rs| - 1].series;
      }
      if exists i :: 0 <= i < |rs| && Succeeded(rs[i]) && s in rs[i].series {
        var i :| 0 <= i < |rs| && Succeeded(rs[i]) && s in rs[i].series;
        if i < |rs| - 1 {
          assert init[i] == rs[i];
        }
      }
    }
  }

  /** A response that did not succeed can be removed without changing the series
      taken: a failed request contributes nothing and the next one is still read. */
  lemma SkipFailedResponse(rs: seq<Response>, i: nat)
    requires i < |rs| && !Succeeded(rs[i])
    ensures SuccessfulSeries(rs) == SuccessfulSeries(rs[..i] + rs[i + 1..])
  {
    var before, after := rs[..i], rs[i + 1..];
    assert rs[..i + 1] + after == rs;
    FlatMapAppend(SeriesIfSucceeded, rs[..i + 1], after);
    SuccessfulSeriesStep(rs, i);
    FlatMapAppend(SeriesIfSucceeded, before, after);
  }

  /** One data point together with the identifier of the series it came in. */
  datatype Observation = Observation(seriesId: string, point: DataPoint)

  function SeriesObservations(s: Series): seq<Observation>
  {
    seq(|s.data|, k requires 0 <= k < |s.data| => Observation(s.seriesId, s.data[k]))
  }

  /** Every data point of a list of series: series order, then data-point order. */
  function ObservationsOf(ss: seq<Series>): seq<Observation>
  {
    FlatMap(SeriesObservations, ss)
  }

  /** Every data point of every successful response, in the order the scripts
      walk them: response, then series, then data point. */
  function Observations(rs: seq<Response>): seq<Observation>
  {
    ObservationsOf(SuccessfulSeries(rs))
  }

  /** Total number of data points in a list of series. */
  function PointCount(ss: seq<Series>): nat
  {
    if ss == [] then 0 else |ss[0].data| + PointCount(ss[1..])
  }

  lemma {:induction false} PointCountAppend(a: seq<Series>, b: seq<Series>)
    ensures PointCount(a + b) == PointCount(a) + PointCount(b)
  {
    if a != [] {
      PointCountAppend(a[1..], b);
      TailOfAppend(a, b);
    } else {
      assert a + b == b;
    }
  }

  /** There is one observation per data point. */
  lemma {:induction false} ObservationCount(ss: seq<Series>)
    ensures |ObservationsOf(ss)| == PointCount(ss)
  {
    if ss != [] {
      var init := ss[..|ss| - 1];
      ObservationCount(init);
      PointCountAppend(init, [ss[|ss| - 1]]);
      assert init + [ss[|ss| - 1]] == ss;
      assert PointCount([ss[|ss| - 1]]) == |ss[|ss| - 1].data| by {
        assert [ss[|ss| - 1]][1..] == [];
      }
    }
  }

  /** The same series with every data point's footnotes removed. */
  function SeriesWithoutFootnotes(s: Series): Series
  {
    s.(data := seq(|s.data|, k requires 0 <= k < |s.data| => s.data[k].(footnotes := [])))
  }

  function SeriesListWithoutFootnotes(ss: seq<Series>): seq<Series>
  {
    seq(|ss|, j requires 0 <= j < |ss| => SeriesWithoutFootnotes(ss[j]))
  }

  /** The same responses with every footnote removed. */
  function WithoutFootnotes(rs: seq<Response>): seq<Response>
  {
    seq(|rs|, i requires 0 <= i < |rs| => rs[i].(series := SeriesListWithoutFootnotes(rs[i].series)))
  }

  /** Removing footnotes keeps the statuses, so the same series are taken. */
  lemma {:induction false} SuccessfulSeriesWithoutFootnotes(rs: seq<Response>)
    ensures SuccessfulSeries(WithoutFootnotes(rs)) == SeriesListWithoutFootnotes(SuccessfulSeries(rs))
  {
    if rs != [] {
      var init := rs[..|rs| - 1];
      SuccessfulSeriesWithoutFootnotes(init);
      var w := WithoutFootnotes(rs);
      assert w[..|w| - 1] == WithoutFootnotes(init);
      var tail := SeriesIfSucceeded(rs[|rs| - 1]);
      assert SuccessfulSeries(rs) == SuccessfulSeries(init) + tail;
      assert SuccessfulSeries(w) == SeriesListWithoutFootnotes(SuccessfulSeries(init)) + SeriesListWithoutFootnotes(tail);
      assert SeriesListWithoutFootnotes(SuccessfulSeries(init) + tail)
             == SeriesListWithoutFootnotes(SuccessfulSeries(init)) + SeriesListWithoutFootnotes(tail);
    }
  }
}
