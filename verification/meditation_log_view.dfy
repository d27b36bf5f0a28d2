/**
 * The meditation log table: what it shows while loading, on an error, for
 * an empty list and for a list of logs (a summary of sessions, total and
 * average time, then one row per log), and the deleting-row marker that is
 * set while a delete is in flight.
 */
module MeditationLogView {
  import opened Wrappers
  import opened Text
  import opened Lists
  import opened MeditationLogs
  import opened MeditationStats
  import opened Notifications

  /**
   * The table's `formatDuration`: whole minutes, then the leftover seconds
   * when there are any, with no hours.  Its text is the statistics panel's
   * short form, so it is that function.
   */
  function FormatDuration(seconds: nat): (r: string)
    ensures ReadDuration(r) == Some(seconds)
    ensures r[|r| - 1] == 'm' <==> seconds % 60 == 0
  {
    FormatDurationShortRoundTrip(seconds);
    FormatDurationShort(seconds)
  }

  /** The average in whole minutes, `Math.round(total / n / 60)`. */
  function AverageMinutes(logs: seq<Log>): (m: nat)
    requires logs != []
    ensures var n := 60 * |logs|; n * (2 * m) <= 2 * Sum(logs, Duration) + n < n * (2 * m + 2)
  {
    RoundDiv(Sum(logs, Duration), 60 * |logs|)
  }

  /** When every log lasts between lo and hi minutes, so does the average. */
  lemma AverageBetween(logs: seq<Log>, lo: nat, hi: nat)
    requires logs != []
    requires forall l :: l in logs ==> 60 * lo <= l.duration <= 60 * hi
    ensures lo <= AverageMinutes(logs) <= hi
  {
    var n := |logs|;
    SumBounds(logs, Duration, 60 * lo, 60 * hi);
    assert n * (60 * lo) == (60 * n) * lo && n * (60 * hi) == (60 * n) * hi;
    RoundDivBetween(Sum(logs, Duration), 60 * n, lo, hi);
  }

  /** The dash shown for a log without music. */
  const Dash: string := "–"

  /** The music cell: the tracks joined by ", ", or a dash when there are none. */
  function MusicCell(music: seq<string>): (r: string)
    ensures music == [] ==> r == Dash
    ensures |music| == 1 ==> r == music[0]
  {
    if music != [] then Join(music, ", ") else Dash
  }

  /** When no track name holds a comma, cutting the cell at commas gives the first name and each other name after its space. */
  lemma MusicCellTracks(music: seq<string>)
    requires music != []
    requires forall i :: 0 <= i < |music| ==> Lacks(music[i], ',')
    ensures SplitOn(MusicCell(music), ',') == [music[0]] + Led(music[1..], " ")
  {
    assert ", " == [','] + " ";
    SplitJoinLed(music, ',', " ");
  }

  datatype Row = Row(date: int, duration: string, music: string, deleting: bool)

  datatype View =
    | Loading
    | Failed(error: string)
    | Empty
    | Table(sessions: nat, total: string, average: string, rows: seq<Row>)

  /**
   * What the component renders: loading first, then an error (a truthy
   * one: the empty string does not count), then the empty message, then
   * the summary and one row per log, the row at `deleting` marked.
   */
  function Render(logs: seq<Log>, loading: bool, error: Option<string>, deleting: Option<nat>): (v: View)
    ensures loading <==> v == Loading
    ensures v.Failed? <==> !loading && error.Some? && error.value != []
    ensures v.Failed? ==> v.error == error.value
    ensures v.Empty? <==> !loading && (error.None? || error.value == []) && logs == []
    ensures v.Table? ==>
      v.sessions == |logs| && v.total == FormatDuration(Sum(logs, Duration)) &&
      v.average == NatToString(AverageMinutes(logs)) + "m" && |v.rows| == |logs|
    ensures v.Table? ==> forall i :: 0 <= i < |logs| ==>
      v.rows[i].date == logs[i].date && v.rows[i].duration == FormatDuration(logs[i].duration) &&
      v.rows[i].music == MusicCell(logs[i].music) && (v.rows[i].deleting <==> deleting == Some(i))
  {
    if loading then Loading
    else if error.Some? && error.value != [] then Failed(error.value)
    else if logs == [] then Empty
    else
      var rows := seq(|logs|, i requires 0 <= i < |logs| =>
        Row(logs[i].date, FormatDuration(logs[i].duration), MusicCell(logs[i].music), deleting == Some(i)));
      Table(|logs|, FormatDuration(Sum(logs, Duration)), NatToString(AverageMinutes(logs)) + "m", rows)
  }

  /** The notice shown once the delete has settled. */
  function DeleteNotice(outcome: Result<(), string>): (n: Notification)
    ensures n.isVisible
    ensures outcome.Ok? ==> n.kind == Success && n.message == "Meditation log deleted successfully"
    ensures outcome.Err? ==> n.kind == Info && n.message == "Failed to delete meditation log: " + outcome.error
  {
    match outcome
    case Ok(_) => Shown("Meditation log deleted successfully", Success)
    case Err(message) => Shown("Failed to delete meditation log: " + message, Info)
  }

  class DeleteMarker {
    var deletingIndex: Option<nat>
    var notification: Notification

    constructor()
      ensures deletingIndex == None && notification == Notification("", false, Success)
    {
      deletingIndex := None;
      notification := Notification("", false, Success);
    }

    /** `handleDelete` up to the awaited delete: the row is marked. */
    method BeginDelete(idx: nat)
      modifies this
      ensures deletingIndex == Some(idx) && notification == old(notification)
    {
      deletingIndex := Some(idx);
    }

    /**
     * The rest of `handleDelete` once the delete has settled with `outcome`
     * (an `Err` carries the thrown message): the notice is shown and, in
     * the `finally`, the marker is cleared either way.
     */
    method FinishDelete(outcome: Result<(), string>)
      modifies this
      ensures notification == DeleteNotice(outcome)
      ensures deletingIndex == None
    {
      notification := DeleteNotice(outcome);
      deletingIndex := None;
    }
  }
}
