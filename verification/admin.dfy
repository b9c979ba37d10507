/**
 * The admin dashboard's data side: the stored responses it loads and the
 * three counts it shows above the table.
 */
module Admin {
  import opened Wrappers
  import opened JsText

  /** A row of `rsvps` as the dashboard receives it. */
  datatype Rsvp = Rsvp(
    id: int,
    name: JsString,
    attending: bool,
    message: Option<JsString>,
    pinUsed: JsString,
    submittedAt: JsString)

  datatype Stats = Stats(attending: nat, notAttending: nat, total: nat)

  /** The responses whose `attending` flag is `choice`, in their original order (`rows.filter(...)`). */
  function WithChoice(rows: seq<Rsvp>, choice: bool): (r: seq<Rsvp>)
    ensures |r| <= |rows|
    ensures forall i :: 0 <= i < |r| ==> r[i].attending == choice && r[i] in rows
  {
    if rows == [] then []
    else
      var last := rows[|rows| - 1];
      WithChoice(rows[..|rows| - 1], choice) + (if last.attending == choice then [last] else [])
  }

  /** The positions of the list holding a response with the given choice. */
  ghost function PositionsWith(rows: seq<Rsvp>, choice: bool): set<nat> {
    set i: nat | i < |rows| && rows[i].attending == choice
  }

  /** The filtered list has one entry per position holding that choice. */
  lemma {:induction false} WithChoiceCountsPositions(rows: seq<Rsvp>, choice: bool)
    ensures |WithChoice(rows, choice)| == |PositionsWith(rows, choice)|
  {
    if rows != [] {
      var n := |rows| - 1;
      var init := rows[..n];
      WithChoiceCountsPositions(init, choice);
      var before := PositionsWith(init, choice);
      if rows[n].attending == choice {
        assert PositionsWith(rows, choice) == before + {n};
      } else {
        assert PositionsWith(rows, choice) == before;
      }
    }
  }

  /** The two filters split the list: every response lands in exactly one of them. */
  lemma {:induction false} WithChoicePartitions(rows: seq<Rsvp>)
    ensures multiset(WithChoice(rows, true)) + multiset(WithChoice(rows, false)) == multiset(rows)
  {
    if rows != [] {
      var n := |rows| - 1;
      var init, last := rows[..n], rows[n];
      WithChoicePartitions(init);
      assert rows == init + [last];
      assert multiset(rows) == multiset(init) + multiset{last};
      if last.attending {
        assert WithChoice(rows, true) == WithChoice(init, true) + [last];
      } else {
        assert WithChoice(rows, false) == WithChoice(init, false) + [last];
      }
    }
  }

  /** Hence the two filtered lists together are as long as the whole list. */
  lemma WithChoiceSizes(rows: seq<Rsvp>)
    ensures |WithChoice(rows, true)| + |WithChoice(rows, false)| == |rows|
  {
    WithChoicePartitions(rows);
    assert |multiset(WithChoice(rows, true)) + multiset(WithChoice(rows, false))| == |multiset(rows)|;
  }

  /** The counts the dashboard shows: those attending, those not, and all responses. */
  function ComputeStats(rows: seq<Rsvp>): (st: Stats)
    ensures st.attending == |PositionsWith(rows, true)|
    ensures st.notAttending == |PositionsWith(rows, false)|
    ensures st.total == |rows|
    ensures st.attending + st.notAttending == st.total
  {
    WithChoiceCountsPositions(rows, true);
    WithChoiceCountsPositions(rows, false);
    WithChoiceSizes(rows);
    Stats(|WithChoice(rows, true)|, |WithChoice(rows, false)|, |rows|)
  }

  /** What the `rsvps` query reported: rows (possibly `null`) or an error. */
  datatype FetchOutcome = Fetched(data: Option<seq<Rsvp>>) | FetchFailed(message: string)

  datatype Dashboard = Dashboard(rsvps: seq<Rsvp>, stats: Stats, loading: bool, error: string)

  /** The dashboard as first rendered, before its load completes. */
  const Initial := Dashboard([], Stats(0, 0, 0), true, "")

  const LoadErrorPrefix := "Error al cargar las respuestas: "

  /** The counts on screen describe the list on screen. */
  predicate StatsMatch(d: Dashboard) {
    d.stats == ComputeStats(d.rsvps)
  }

  /**
   * `loadRSVPs` once the query has answered: rows replace the list and the
   * counts (`null` reads as no rows); an error keeps both and shows the
   * prefixed message. Loading ends either way.
   */
  function LoadRsvps(d: Dashboard, outcome: FetchOutcome): (r: Dashboard)
    ensures !r.loading
    ensures outcome.Fetched? ==> r.rsvps == outcome.data.GetOr([]) && r.error == "" && StatsMatch(r)
    ensures outcome == Fetched(None) ==> r.rsvps == [] && r.stats == Stats(0, 0, 0)
    ensures outcome.FetchFailed? ==>
      && r.rsvps == d.rsvps && r.stats == d.stats
      && r.error == LoadErrorPrefix + outcome.message
  {
    match outcome
    case Fetched(data) =>
      var rows := data.GetOr([]);
      Dashboard(rows, ComputeStats(rows), false, "")
    case FetchFailed(message) =>
      d.(loading := false, error := LoadErrorPrefix + message)
  }

  /** The counts shown always agree with the list shown, from the first render through any sequence of loads. */
  lemma LoadKeepsStatsMatch(d: Dashboard, outcome: FetchOutcome)
    requires StatsMatch(d)
    ensures StatsMatch(LoadRsvps(d, outcome))
  {
  }

  lemma InitialStatsMatch()
    ensures StatsMatch(Initial)
  {
  }
}
