/**
 * The meditation-log hook: the signed-in user's list of logs with its
 * loading and error flags, the statistics computed over it and the list
 * queries the components use.  Log dates are day numbers; `new Date(log.date)`
 * of a "yyyy-MM-dd" string is the instant `date * MsPerDay` in milliseconds.
 * The database is an oracle: each operation receives the response it got.
 */
module MeditationLogs {
  import opened Wrappers
  import opened Calendar
  import opened Lists

  /** One row of the meditation_logs table: duration in seconds, the tracks played. */
  datatype Log = Log(id: string, date: int, duration: nat, music: seq<string>)

  const MsPerDay: nat := 24 * 60 * 60 * 1000

  /** The instant, in milliseconds, at which a log's date begins. */
  function Instant(date: int): int { date * MsPerDay }

  function Duration(l: Log): nat { l.duration }

  /** The filter `log => new Date(log.date) >= from`. */
  function OnOrAfter(from: int): Log -> bool
  {
    (l: Log) => Instant(l.date) >= from
  }

  /** The filter `log => start <= new Date(log.date) && new Date(log.date) <= end`. */
  function Within(start: int, end: int): Log -> bool
  {
    (l: Log) => start <= Instant(l.date) <= end
  }

  /** The filter `l => l.id !== id`. */
  function IdIsNot(id: string): Log -> bool
  {
    (l: Log) => l.id != id
  }

  /** `Math.round(a / b)` for a non-negative quotient: the nearest integer, halves rounded up. */
  function RoundDiv(a: nat, b: nat): (r: nat)
    requires b > 0
    ensures b * (2 * r) <= 2 * a + b < b * (2 * r + 2)
  {
    var r := (2 * a + b) / (2 * b);
    DivFacts(2 * a + b, 2 * b);
    r
  }

  lemma DivFacts(x: nat, d: nat)
    requires d > 0
    ensures d * (x / d) <= x < d * (x / d) + d
  {
  }

  /** A rounded quotient of a total lies between the bounds of its terms. */
  lemma {:induction false} RoundDivBetween(a: nat, b: nat, lo: nat, hi: nat)
    requires b > 0 && b * lo <= a <= b * hi
    ensures lo <= RoundDiv(a, b) <= hi
  {
    var r := RoundDiv(a, b);
    if r < lo {
      MulMonotone(b, 2 * r + 2, 2 * lo);
      MulDouble(b, lo);
      assert false;
    }
    if r > hi {
      MulMonotone(b, 2 * hi + 2, 2 * r);
      MulDouble(b, hi);
      assert false;
    }
  }

  lemma MulMonotone(b: nat, x: nat, y: nat)
    requires x <= y
    ensures b * x <= b * y
  {
  }

  lemma MulDouble(b: nat, x: nat)
    ensures b * (2 * x) == 2 * (b * x) && b * (2 * x + 2) == 2 * (b * x) + 2 * b
  {
  }

  /** `Math.max(...durations)` of a non-empty list. */
  function LongestDuration(logs: seq<Log>): (m: nat)
    requires logs != []
    ensures forall l :: l in logs ==> l.duration <= m
    ensures exists l :: l in logs && l.duration == m
  {
    if |logs| == 1 then logs[0].duration
    else
      var rest := LongestDuration(logs[1..]);
      assert forall l :: l in logs ==> l == logs[0] || l in logs[1..];
      if logs[0].duration >= rest then logs[0].duration else rest
  }

  /** `Math.min(...durations)` of a non-empty list. */
  function ShortestDuration(logs: seq<Log>): (m: nat)
    requires logs != []
    ensures forall l :: l in logs ==> m <= l.duration
    ensures exists l :: l in logs && l.duration == m
  {
    if |logs| == 1 then logs[0].duration
    else
      var rest := ShortestDuration(logs[1..]);
      assert forall l :: l in logs ==> l == logs[0] || l in logs[1..];
      if logs[0].duration <= rest then logs[0].duration else rest
  }

  datatype Stats = Stats(
    totalSessions: nat,
    totalDuration: nat,
    averageDuration: nat,
    longestSession: nat,
    shortestSession: nat,
    sessionsThisWeek: nat,
    sessionsThisMonth: nat,
    totalDurationThisWeek: nat,
    totalDurationThisMonth: nat)

  /**
   * `calculateStats` at instant `now`: the week window starts 7 days before
   * `now`, the month window 30 days before.
   */
  function CalculateStats(logs: seq<Log>, now: int): (s: Stats)
    ensures logs == [] ==> s == Stats(0, 0, 0, 0, 0, 0, 0, 0, 0)
    ensures s.totalSessions == |logs| && s.totalDuration == Sum(logs, Duration)
    ensures logs != [] ==> s.averageDuration == RoundDiv(s.totalDuration, |logs|)
    ensures logs != [] ==>
      s.sessionsThisWeek == |Filter(logs, OnOrAfter(now - 7 * MsPerDay))| &&
      s.sessionsThisMonth == |Filter(logs, OnOrAfter(now - 30 * MsPerDay))| &&
      s.totalDurationThisWeek == Sum(Filter(logs, OnOrAfter(now - 7 * MsPerDay)), Duration) &&
      s.totalDurationThisMonth == Sum(Filter(logs, OnOrAfter(now - 30 * MsPerDay)), Duration)
    ensures logs != [] ==> s.shortestSession <= s.averageDuration <= s.longestSession
    ensures logs != [] ==>
      (forall l :: l in logs ==> s.shortestSession <= l.duration <= s.longestSession) &&
      (exists l :: l in logs && l.duration == s.shortestSession) &&
      (exists l :: l in logs && l.duration == s.longestSession)
    ensures s.sessionsThisWeek <= s.sessionsThisMonth <= s.totalSessions
    ensures s.totalDurationThisWeek <= s.totalDurationThisMonth <= s.totalDuration
  {
    if logs == [] then Stats(0, 0, 0, 0, 0, 0, 0, 0, 0)
    else
      var week := Filter(logs, OnOrAfter(now - 7 * MsPerDay));
      var month := Filter(logs, OnOrAfter(now - 30 * MsPerDay));
      var total := Sum(logs, Duration);
      var longest := LongestDuration(logs);
      var shortest := ShortestDuration(logs);
      SumBounds(logs, Duration, shortest, longest);
      RoundDivBetween(total, |logs|, shortest, longest);
      FilterMonotone(logs, OnOrAfter(now - 7 * MsPerDay), OnOrAfter(now - 30 * MsPerDay), Duration);
      FilterSumAtMost(logs, OnOrAfter(now - 30 * MsPerDay), Duration);
      Stats(|logs|, total, RoundDiv(total, |logs|), longest, shortest,
            |week|, |month|, Sum(week, Duration), Sum(month, Duration))
  }

  /** `getLogsByDateRange`: the logs whose date lies in [start, end], both ends included. */
  function LogsByDateRange(logs: seq<Log>, start: int, end: int): (r: seq<Log>)
    ensures |r| <= |logs|
    ensures forall l :: l in r <==> l in logs && start <= Instant(l.date) <= end
  {
    Filter(logs, Within(start, end))
  }

  /** The range query keeps the logs in their original order: it distributes over concatenation. */
  lemma LogsByDateRangeKeepsOrder(a: seq<Log>, b: seq<Log>, start: int, end: int)
    ensures LogsByDateRange(a + b, start, end) == LogsByDateRange(a, start, end) + LogsByDateRange(b, start, end)
  {
    FilterAppend(a, b, Within(start, end));
  }

  /** A log outside the range is skipped and one inside is kept, one position at a time. */
  lemma LogsByDateRangeSnoc(a: seq<Log>, l: Log, start: int, end: int)
    ensures LogsByDateRange(a + [l], start, end) ==
      LogsByDateRange(a, start, end) + (if start <= Instant(l.date) <= end then [l] else [])
  {
    FilterSnoc(a, l, Within(start, end));
  }

  /** How many elements `slice(0, count)` keeps of a list of length n. */
  function SliceEnd(n: nat, count: int): (k: nat)
    ensures k <= n
  {
    if count < 0 then (if n + count < 0 then 0 else n + count)
    else if count < n then count else n
  }

  /** `getRecentLogs(count = 5)`: the first `count` logs (a negative count drops that many from the end). */
  function RecentLogs(logs: seq<Log>, count: int := 5): (r: seq<Log>)
    ensures |r| <= |logs| && r == logs[..|r|]
    ensures 0 <= count ==> |r| == (if count < |logs| then count else |logs|)
    ensures count < 0 ==> |r| == (if |logs| + count < 0 then 0 else |logs| + count)
  {
    logs[..SliceEnd(|logs|, count)]
  }

  /** The list after `prev.filter(l => l.id !== id)`. */
  function WithoutId(logs: seq<Log>, id: string): (r: seq<Log>)
    ensures forall l :: l in r <==> l in logs && l.id != id
  {
    Filter(logs, IdIsNot(id))
  }

  /** Removing an id keeps the other logs in order: deleting from a concatenation deletes from each part. */
  lemma WithoutIdKeepsOrder(a: seq<Log>, b: seq<Log>, id: string)
    ensures WithoutId(a + b, id) == WithoutId(a, id) + WithoutId(b, id)
  {
    FilterAppend(a, b, IdIsNot(id));
  }

  /** The `date` argument of `saveMeditationLog`. */
  datatype DateArg =
    | DateValue(fields: Option<Civil>)  // a Date object: its calendar fields, None for an Invalid Date
    | DateText(text: string)             // a string, sent as it is
    | NoDate                             // anything else

  datatype NewLog = NewLog(date: DateArg, duration: nat, music: Option<seq<string>>)

  /** The row sent to the insert. */
  datatype InsertRow = InsertRow(userId: string, date: string, duration: nat, music: seq<string>)

  /** The date and music normalisation of `saveMeditationLog`; `today` is the local date. */
  function InsertRowFor(entry: NewLog, userId: string, today: Civil): (row: InsertRow)
    requires Valid(today)
    requires entry.date.DateValue? && entry.date.fields.Some? ==> Valid(entry.date.fields.value)
    ensures row.userId == userId && row.duration == entry.duration
    ensures entry.date.DateValue? && entry.date.fields.Some? ==> ParseIsoDate(row.date) == entry.date.fields
    ensures entry.date.DateText? ==> row.date == entry.date.text
    ensures !entry.date.DateText? && !(entry.date.DateValue? && entry.date.fields.Some?) ==>
      ParseIsoDate(row.date) == Some(today)
    ensures row.music == (if entry.music.Some? then entry.music.value else [])
  {
    var date :=
      match entry.date {
        case DateValue(Some(c)) => (ParseFormatIsoDate(c); FormatIsoDate(c))
        case DateText(t) => t
        case _ => (ParseFormatIsoDate(today); FormatIsoDate(today))
      };
    InsertRow(userId, date, entry.duration, if entry.music.Some? then entry.music.value else [])
  }

  /** What the select query of `fetchMeditationLogs` gave. */
  datatype Query =
    | Rows(data: Option<seq<Log>>)   // no error; `data` may be null
    | QueryFailed(message: string)   // the query reported an error
    | QueryThrew                     // the call itself threw

  /** What the insert of `saveMeditationLog` gave. */
  datatype Insertion =
    | Inserted(data: Option<seq<Log>>)
    | InsertFailed(message: string)

  /** The list and error a fetch leaves behind. */
  function Fetched(signedIn: bool, q: Query): (r: (seq<Log>, Option<string>))
    ensures r.1.None? ==> !signedIn || q.Rows?
    ensures r.1.Some? ==> r.0 == []
    ensures !signedIn ==> r == ([], None)
    ensures signedIn && q.Rows? && q.data.Some? ==> r == (q.data.value, None)
    ensures signedIn && q == Rows(None) ==> r == ([], None)
    ensures signedIn && q.QueryFailed? ==> r == ([], Some(q.message))
    ensures signedIn && q.QueryThrew? ==> r == ([], Some("Failed to load meditation logs"))
  {
    if !signedIn then ([], None)
    else match q
      case Rows(data) => (if data.Some? then data.value else [], None)
      case QueryFailed(message) => ([], Some(message))
      case QueryThrew => ([], Some("Failed to load meditation logs"))
  }

  class LogStore {
    var logs: seq<Log>
    var loading: bool
    var error: Option<string>

    constructor()
      ensures logs == [] && loading && error == None
    {
      logs := [];
      loading := true;
      error := None;
    }

    /** `fetchMeditationLogs`: the signed-out case clears the list, otherwise the query decides. */
    method Fetch(signedIn: bool, q: Query)
      modifies this
      ensures (logs, error) == Fetched(signedIn, q)
      ensures !loading
    {
      if !signedIn {
        logs := [];
        loading := false;
        error := None;
        return;
      }
      loading := true;
      error := None;
      match q {
        case Rows(data) =>
          logs := if data.Some? then data.value else [];
        case QueryFailed(message) =>
          error := Some(message);
          logs := [];
        case QueryThrew =>
          error := Some("Failed to load meditation logs");
          logs := [];
      }
      loading := false;
    }

    /**
     * `saveMeditationLog`: `sent` is the row given to the insert, `insertion`
     * its outcome and `refresh` the response of the refetch that follows a
     * successful insert.
     */
    method Save(signedIn: bool, userId: string, entry: NewLog, today: Civil, insertion: Insertion, refresh: Query)
      returns (r: Result<Log, string>, sent: Option<InsertRow>)
      requires Valid(today)
      requires entry.date.DateValue? && entry.date.fields.Some? ==> Valid(entry.date.fields.value)
      modifies this
      ensures !signedIn ==> r == Err("Not authenticated") && sent == None
      ensures signedIn ==> sent == Some(InsertRowFor(entry, userId, today))
      ensures r.Ok? <==> signedIn && insertion.Inserted? && insertion.data.Some? && insertion.data.value != []
      ensures r.Ok? ==> r.value == insertion.data.value[0] && (logs, error) == Fetched(true, refresh) && !loading
      ensures signedIn && insertion.InsertFailed? ==> r == Err(insertion.message)
      ensures signedIn && insertion.Inserted? && (insertion.data.None? || insertion.data.value == []) ==>
        r == Err("No data returned from insert")
      ensures r.Err? ==> unchanged(this)
    {
      if !signedIn {
        return Err("Not authenticated"), None;
      }
      var row := InsertRowFor(entry, userId, today);
      sent := Some(row);
      match insertion {
        case InsertFailed(message) =>
          r := Err(message);
        case Inserted(data) =>
          if data.Some? && |data.value| > 0 {
            Fetch(true, refresh);
            r := Ok(data.value[0]);
          } else {
            r := Err("No data returned from insert");
          }
      }
    }

    /** `deleteMeditationLog`: `failure` is the error the delete reported, if any. */
    method Delete(signedIn: bool, id: string, failure: Option<string>) returns (r: Result<(), string>)
      modifies this
      ensures !signedIn ==> r == Err("Not authenticated")
      ensures signedIn && failure.Some? ==> r == Err(failure.value)
      ensures r.Ok? <==> signedIn && failure.None?
      ensures r.Ok? ==> logs == WithoutId(old(logs), id) && loading == old(loading) && error == old(error)
      ensures r.Err? ==> unchanged(this)
    {
      if !signedIn {
        return Err("Not authenticated");
      }
      if failure.Some? {
        return Err(failure.value);
      }
      logs := WithoutId(logs, id);
      r := Ok(());
    }
  }
}
