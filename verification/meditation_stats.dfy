/**
 * The statistics panel: current and longest streak, the milestone
 * notification, the achievement level and the duration formatters.
 * Dates are day numbers; `today` is a parameter.
 */
module MeditationStats {
  import opened Wrappers
  import opened Text
  import opened Sorting
  import opened MeditationLogs

  function Max(a: int, b: int): int { if a >= b then a else b }

  function LogDate(l: Log): int { l.date }

  /** The days of a list of logs, position by position. */
  function DatesOf(logs: seq<Log>): (d: seq<int>)
    ensures |d| == |logs| && forall i :: 0 <= i < |logs| ==> d[i] == logs[i].date
  {
    seq(|logs|, i requires 0 <= i < |logs| => logs[i].date)
  }

  /** The `dates` list of `getStreakInfo`: the log days, latest first, duplicates kept. */
  function StreakDates(logs: seq<Log>): (d: seq<int>)
    ensures |d| == |logs|
    ensures Descending(d)
    ensures multiset(d) == multiset(DatesOf(logs))
    ensures forall x :: x in d <==> exists l :: l in logs && l.date == x
  {
    var sorted := SortDesc(logs, LogDate);
    SameMembers(sorted, logs);
    DatesOfPermutation(sorted, logs);
    DatesOfSorted(sorted);
    DatesOfMembers(sorted);
    DatesOf(sorted)
  }

  lemma SameMembers(a: seq<Log>, b: seq<Log>)
    requires multiset(a) == multiset(b)
    ensures forall l :: l in a <==> l in b
  {
    forall l ensures l in a <==> l in b {
      assert l in a <==> l in multiset(a);
      assert l in b <==> l in multiset(b);
    }
  }

  lemma DatesOfAppend(a: seq<Log>, b: seq<Log>)
    ensures DatesOf(a + b) == DatesOf(a) + DatesOf(b)
  {
  }

  /** Reordering the logs reorders their days: the same days with the same multiplicities. */
  lemma {:induction false} DatesOfPermutation(a: seq<Log>, b: seq<Log>)
    requires multiset(a) == multiset(b)
    ensures multiset(DatesOf(a)) == multiset(DatesOf(b))
    decreases |a|
  {
    if a == [] {
      assert |b| == |multiset(b)| == 0;
    } else {
      var x := a[0];
      assert x in multiset(b);
      var k :| 0 <= k < |b| && b[k] == x;
      var before, after := b[..k], b[k + 1..];
      assert b == before + [x] + after;
      assert a == [x] + a[1..];
      assert multiset(a) == multiset{x} + multiset(a[1..]);
      assert multiset(b) == multiset{x} + multiset(before + after);
      assert multiset(a[1..]) == multiset(a) - multiset{x};
      assert multiset(before + after) == multiset(b) - multiset{x};
      DatesOfPermutation(a[1..], before + after);
      DatesOfAppend([x], a[1..]);
      DatesOfAppend(before + [x], after);
      DatesOfAppend(before, [x]);
      DatesOfAppend(before, after);
    }
  }

  lemma DatesOfSorted(sorted: seq<Log>)
    requires NonIncreasing(sorted, LogDate)
    ensures Descending(DatesOf(sorted))
  {
    var d := DatesOf(sorted);
    forall i, j | 0 <= i < j < |d| ensures d[i] >= d[j] {
      assert LogDate(sorted[i]) >= LogDate(sorted[j]);
    }
  }

  lemma DatesOfMembers(ls: seq<Log>)
    ensures forall x :: x in DatesOf(ls) <==> exists l :: l in ls && l.date == x
  {
    var d := DatesOf(ls);
    forall x | x in d ensures exists l :: l in ls && l.date == x {
      var i :| 0 <= i < |d| && d[i] == x;
      assert ls[i] in ls;
    }
    forall l | l in ls ensures l.date in d {
      var i :| 0 <= i < |ls| && ls[i] == l;
      assert d[i] == l.date;
    }
  }

  predicate Descending(d: seq<int>) { forall i, j :: 0 <= i < j < |d| ==> d[i] >= d[j] }

  predicate StrictlyDescending(d: seq<int>) { forall i, j :: 0 <= i < j < |d| ==> d[i] > d[j] }

  // ---------------------------------------------------------------------
  // Current streak

  /**
   * The number of consecutive days, going back from `day`, that appear in
   * `dates`, looking at no more than `budget` days.
   */
  function CurrentRun(dates: seq<int>, day: int, budget: nat): (r: nat)
    ensures r <= budget
    ensures forall x :: day - r < x <= day ==> x in dates
    ensures r < budget ==> day - r !in dates
    decreases budget
  {
    if budget == 0 || day !in dates then 0
    else 1 + CurrentRun(dates, day - 1, budget - 1)
  }

  /** The first loop of `getStreakInfo`: walk back from today while the day is logged, at most 365 days. */
  method CurrentStreak(dates: seq<int>, today: int) returns (streak: nat)
    ensures streak == CurrentRun(dates, today, 365)
  {
    streak := 0;
    var day := today;
    var i := 0;
    while i < 365
      invariant 0 <= i <= 365 && streak == i && day == today - i
      invariant CurrentRun(dates, today, 365) == i + CurrentRun(dates, day, 365 - i)
    {
      if day !in dates {
        break;
      }
      streak := streak + 1;
      day := day - 1;
      i := i + 1;
    }
  }

  // ---------------------------------------------------------------------
  // Longest streak

  /** Positions lo .. hi-1 hold days that each come exactly one day before the previous one. */
  predicate IsRun(d: seq<int>, lo: int, hi: int)
    requires 0 <= lo <= hi <= |d|
  {
    forall k :: lo <= k < hi - 1 ==> d[k] - d[k + 1] == 1
  }

  /** The length of the maximal run that ends at position i. */
  function RunEnding(d: seq<int>, i: nat): (r: nat)
    requires i < |d|
    ensures 1 <= r <= i + 1
  {
    if i == 0 then 1
    else if d[i - 1] - d[i] == 1 then RunEnding(d, i - 1) + 1
    else 1
  }

  /** The positions counted by `RunEnding` do form a run, and it cannot be extended to the left. */
  lemma {:induction false} RunEndingIsRun(d: seq<int>, i: nat)
    requires i < |d|
    ensures IsRun(d, i + 1 - RunEnding(d, i), i + 1)
    ensures RunEnding(d, i) <= i ==> d[i - RunEnding(d, i)] - d[i + 1 - RunEnding(d, i)] != 1
  {
    if i > 0 && d[i - 1] - d[i] == 1 {
      RunEndingIsRun(d, i - 1);
    }
  }

  /** How one more position extends the run ending before it and the longest run so far. */
  lemma RunStep(d: seq<int>, i: nat)
    requires i + 1 < |d|
    ensures RunEnding(d, i + 1) == if d[i] - d[i + 1] == 1 then RunEnding(d, i) + 1 else 1
    ensures MaxRun(d, i + 2) == Max(MaxRun(d, i + 1), RunEnding(d, i + 1))
  {
  }

  /** The longest run among those ending at positions 0 .. n-1. */
  function MaxRun(d: seq<int>, n: nat): (r: nat)
    requires n <= |d|
    ensures n == 0 ==> r == 0
    ensures n > 0 ==> 1 <= r <= n
    ensures forall i :: 0 <= i < n ==> RunEnding(d, i) <= r
  {
    if n == 0 then 0 else Max(MaxRun(d, n - 1), RunEnding(d, n - 1))
  }

  /** Position i ends a run, and its run is as long as the longest among the first n positions. */
  predicate EndsLongestRun(d: seq<int>, n: nat, i: nat)
    requires i < n <= |d|
  {
    RunEnding(d, i) == MaxRun(d, n) && IsRun(d, i + 1 - MaxRun(d, n), i + 1)
  }

  /** The longest run is one of the runs: some position ends a run of exactly that length. */
  lemma {:induction false} MaxRunAttained(d: seq<int>, n: nat)
    requires 0 < n <= |d|
    ensures exists i :: 0 <= i < n && EndsLongestRun(d, n, i)
  {
    if n > 1 && MaxRun(d, n - 1) >= RunEnding(d, n - 1) {
      MaxRunAttained(d, n - 1);
      var i :| 0 <= i < n - 1 && EndsLongestRun(d, n - 1, i);
      assert MaxRun(d, n) == MaxRun(d, n - 1);
      assert EndsLongestRun(d, n, i);
    } else {
      RunEndingIsRun(d, n - 1);
      assert EndsLongestRun(d, n, n - 1);
    }
  }

  /** Every run, wherever it lies, is at most as long as the run `MaxRun` reports. */
  lemma {:induction false} RunEndingAtLeast(d: seq<int>, lo: nat, i: nat)
    requires lo <= i < |d| && IsRun(d, lo, i + 1)
    ensures RunEnding(d, i) >= i + 1 - lo
    decreases i
  {
    if i > lo {
      assert d[i - 1] - d[i] == 1;
      RunEndingAtLeast(d, lo, i - 1);
    }
  }

  /** `MaxRun` of the whole list is the length of its longest run of adjacent days. */
  lemma LongestRunIsMaxRun(d: seq<int>, lo: nat, hi: nat)
    requires lo < hi <= |d| && IsRun(d, lo, hi)
    ensures hi - lo <= MaxRun(d, |d|)
  {
    RunEndingAtLeast(d, lo, hi - 1);
  }

  /** The second loop of `getStreakInfo`: a gap other than exactly one day closes the open run. */
  method LongestStreak(dates: seq<int>) returns (longest: nat)
    ensures longest == MaxRun(dates, |dates|)
  {
    longest := 0;
    var temp := 0;
    for i := 0 to |dates|
      invariant i < |dates| ==> temp + 1 == RunEnding(dates, i) && Max(longest, temp + 1) == MaxRun(dates, i + 1)
      invariant i == |dates| ==> longest == MaxRun(dates, |dates|)
    {
      if i < |dates| - 1 {
        RunStep(dates, i);
        var diffDays := dates[i] - dates[i + 1];
        if diffDays == 1 {
          temp := temp + 1;
        } else {
          longest := Max(longest, temp + 1);
          temp := 0;
        }
      } else {
        temp := temp + 1;
        longest := Max(longest, temp);
      }
    }
  }

  /** `getStreakInfo` as written: duplicate days stay in the list. */
  method GetStreakInfo(logs: seq<Log>, today: int) returns (current: nat, longest: nat)
    ensures logs == [] ==> current == 0 && longest == 0
    ensures current == CurrentRun(StreakDates(logs), today, 365)
    ensures longest == MaxRun(StreakDates(logs), |logs|)
    ensures current <= 365 && (logs != [] ==> 1 <= longest <= |logs|)
  {
    if logs == [] {
      return 0, 0;
    }
    var dates := StreakDates(logs);
    current := CurrentStreak(dates, today);
    longest := LongestStreak(dates);
  }

  /**
   * Two logs on one day give a gap of 0 days, which ends the run: with logs
   * on today, yesterday (twice) and the day before, the current streak is 3
   * but the longest streak is 2.
   */
  lemma DuplicateDayBreaksRun(t: int)
    ensures CurrentRun([t, t - 1, t - 1, t - 2], t, 365) == 3
    ensures MaxRun([t, t - 1, t - 1, t - 2], 4) == 2
  {
    var d := [t, t - 1, t - 1, t - 2];
    assert t - 3 !in d;
    assert CurrentRun(d, t - 3, 362) == 0;
    assert RunEnding(d, 1) == 2;
    assert RunEnding(d, 2) == 1;
    assert RunEnding(d, 3) == 2;
  }

  /** Removes repeated days from a latest-first list. */
  function Distinct(d: seq<int>): (r: seq<int>)
    requires Descending(d)
    ensures StrictlyDescending(r)
    ensures forall x :: x in r <==> x in d
    ensures |r| <= |d|
  {
    if d == [] then []
    else
      var t := Distinct(d[1..]);
      assert forall x :: x in d <==> x == d[0] || x in d[1..];
      if t != [] && t[0] == d[0] then t
      else
        assert forall x :: x in t ==> d[0] >= x;
        [d[0]] + t
  }

  /** Only membership matters to the current streak. */
  lemma {:induction false} CurrentRunSameDays(d1: seq<int>, d2: seq<int>, day: int, budget: nat)
    requires forall x :: x in d1 <==> x in d2
    ensures CurrentRun(d1, day, budget) == CurrentRun(d2, day, budget)
    decreases budget
  {
    if budget > 0 && day in d1 {
      CurrentRunSameDays(d1, d2, day - 1, budget - 1);
    }
  }

  /** In a list without repeated days, the entry after day x is x - 1 whenever x - 1 is listed. */
  lemma NextIsPreviousDay(d: seq<int>, j: nat, x: int)
    requires StrictlyDescending(d) && j < |d| && d[j] == x && x - 1 in d
    ensures j + 1 < |d| && d[j + 1] == x - 1
  {
    var k :| 0 <= k < |d| && d[k] == x - 1;
    assert j < k;
  }

  lemma {:induction false} WalkBack(d: seq<int>, j: nat, today: int, c: nat, m: nat)
    requires StrictlyDescending(d) && j < |d| && d[j] == today
    requires forall x :: today - c < x <= today ==> x in d
    requires m < c
    ensures j + m < |d| && d[j + m] == today - m
    ensures IsRun(d, j, j + m + 1)
  {
    if m > 0 {
      WalkBack(d, j, today, c, m - 1);
      assert today - m in d;
      NextIsPreviousDay(d, j + m - 1, today - (m - 1));
    }
  }

  /** Without repeated days, the current streak never exceeds the longest streak. */
  lemma CurrentAtMostLongest(d: seq<int>, today: int)
    requires StrictlyDescending(d)
    ensures CurrentRun(d, today, 365) <= MaxRun(d, |d|)
  {
    var c := CurrentRun(d, today, 365);
    if c > 0 {
      assert today in d;
      var j :| 0 <= j < |d| && d[j] == today;
      WalkBack(d, j, today, c, c - 1);
      LongestRunIsMaxRun(d, j, j + c);
    }
  }

  /** `getStreakInfo` with repeated days removed before the runs are scanned. */
  method GetStreakInfoDistinct(logs: seq<Log>, today: int) returns (current: nat, longest: nat)
    ensures logs == [] ==> current == 0 && longest == 0
    ensures current == CurrentRun(StreakDates(logs), today, 365)
    ensures longest == MaxRun(Distinct(StreakDates(logs)), |Distinct(StreakDates(logs))|)
    ensures current <= longest
  {
    if logs == [] {
      return 0, 0;
    }
    var dates := StreakDates(logs);
    var days := Distinct(dates);
    current := CurrentStreak(dates, today);
    longest := LongestStreak(days);
    CurrentRunSameDays(dates, days, today, 365);
    CurrentAtMostLongest(days, today);
  }

  // ---------------------------------------------------------------------
  // Milestones

  const Milestones: seq<nat> := [5, 7, 10, 15, 30]

  predicate IsMilestone(n: nat) { n in Milestones }

  /** The notice for a streak of n days; each one names the number of days right after its emoji and space. */
  function MilestoneMessage(n: nat): (r: string)
    ensures 2 < |r| && ReadNumber(r[2..]).Some? && ReadNumber(r[2..]).value.0 == n
  {
    if n == 5 then Announce("🌟 ", 5, "Streak! You’re building a beautiful habit!")
    else if n == 7 then Announce("✨ ", 7, "Streak! One mindful week complete!")
    else if n == 10 then Announce("🏅 ", 10, "Streak! Double digits! Your dedication shines.")
    else Announce("🎉 ", n, "Meditation Streak! You’re on fire!")
  }

  /** An emoji and a space, the number in decimal, "-Day " and the rest of the text. */
  function Announce(lead: string, n: nat, rest: string): (r: string)
    requires |lead| == 2
    ensures 2 < |r| && ReadNumber(r[2..]) == Some((n, "-Day " + rest))
  {
    var tail := "-Day " + rest;
    assert tail[0] == '-';
    ReadNatToString(n, tail);
    assert (lead + NatToString(n) + tail)[2..] == NatToString(n) + tail;
    lead + NatToString(n) + tail
  }

  /**
   * The milestone effect: given the streak last shown and the current streak,
   * the success notice to show (if any) and the streak now recorded as shown.
   */
  function MilestoneStep(shown: Option<nat>, current: nat): (r: (Option<string>, Option<nat>))
    ensures r.0.Some? <==> IsMilestone(current) && shown != Some(current)
    ensures r.0.Some? ==> r.0.value == MilestoneMessage(current) && r.1 == Some(current)
    ensures r.0.None? ==> r.1 == shown
  {
    if IsMilestone(current) && shown != Some(current) then (Some(MilestoneMessage(current)), Some(current))
    else (None, shown)
  }

  /** A milestone is announced once: running the effect again with the same streak shows nothing. */
  lemma MilestoneShownOnce(shown: Option<nat>, current: nat)
    ensures MilestoneStep(MilestoneStep(shown, current).1, current).0 == None
  {
  }

  /** A streak that is not one of the five milestones never produces a notice. */
  lemma OnlyMilestonesAnnounced(shown: Option<nat>, current: nat)
    requires current !in {5, 7, 10, 15, 30}
    ensures MilestoneStep(shown, current) == (None, shown)
  {
  }

  class MilestoneTracker {
    var shown: Option<nat>

    constructor()
      ensures shown == None
    {
      shown := None;
    }

    /** Runs the milestone effect for the current streak and returns the notice it shows. */
    method Observe(current: nat) returns (notice: Option<string>)
      modifies this
      ensures (notice, shown) == MilestoneStep(old(shown), current)
    {
      notice := None;
      if IsMilestone(current) && shown != Some(current) {
        notice := Some(MilestoneMessage(current));
        shown := Some(current);
      }
    }
  }

  // ---------------------------------------------------------------------
  // Achievement level

  datatype Level = Newcomer | Beginner | Intermediate | Advanced | Master

  function Rank(l: Level): nat
  {
    match l
    case Newcomer => 0
    case Beginner => 1
    case Intermediate => 2
    case Advanced => 3
    case Master => 4
  }

  /** `getAchievementLevel` for a number of sessions. */
  function AchievementLevel(totalSessions: nat): (l: Level)
    ensures l == Master <==> totalSessions >= 100
    ensures l == Advanced <==> 50 <= totalSessions < 100
    ensures l == Intermediate <==> 20 <= totalSessions < 50
    ensures l == Beginner <==> 10 <= totalSessions < 20
    ensures l == Newcomer <==> totalSessions < 10
  {
    if totalSessions >= 100 then Master
    else if totalSessions >= 50 then Advanced
    else if totalSessions >= 20 then Intermediate
    else if totalSessions >= 10 then Beginner
    else Newcomer
  }

  /** More sessions never lower the level. */
  lemma AchievementMonotone(a: nat, b: nat)
    requires a <= b
    ensures Rank(AchievementLevel(a)) <= Rank(AchievementLevel(b))
  {
  }


  // ---------------------------------------------------------------------
  // Duration formatters

  /** `formatDuration`: hours and minutes from an hour up, else minutes and seconds, else seconds. */
  function FormatDuration(seconds: nat): (r: string)
    ensures |r| >= 2
    ensures r[|r| - 1] == 'm' <==> seconds >= 3600
    ensures r[|r| - 1] == ' ' <==> 60 <= seconds < 3600 && seconds % 60 == 0
    ensures r[|r| - 1] == 's' <==> seconds < 60 || (seconds < 3600 && seconds % 60 != 0)
  {
    FormatParts(seconds / 3600, (seconds % 3600) / 60, seconds % 60)
  }

  function FormatParts(hours: nat, minutes: nat, remaining: nat): (r: string)
    ensures |r| >= 2
    ensures r[|r| - 1] == 'm' <==> hours > 0
    ensures r[|r| - 1] == ' ' <==> hours == 0 && minutes > 0 && remaining == 0
    ensures r[|r| - 1] == 's' <==> hours == 0 && (minutes == 0 || remaining > 0)
  {
    if hours > 0 then NatToString(hours) + "h " + NatToString(minutes) + "m"
    else if minutes > 0 then NatToString(minutes) + "m " + (if remaining > 0 then NatToString(remaining) + "s" else "")
    else NatToString(remaining) + "s"
  }


  /** `formatDurationShort`: whole minutes, then the leftover seconds when there are any. */
  function FormatDurationShort(seconds: nat): (r: string)
    ensures |r| >= 2
    ensures r[|r| - 1] == 'm' <==> seconds % 60 == 0
  {
    ShortParts(seconds / 60, seconds % 60)
  }

  function ShortParts(minutes: nat, remaining: nat): (r: string)
    ensures |r| >= 2
    ensures r[|r| - 1] == 'm' <==> remaining == 0
  {
    if remaining == 0 then NatToString(minutes) + "m"
    else NatToString(minutes) + "m " + NatToString(remaining) + "s"
  }

  // ---------------------------------------------------------------------
  // Reading a duration text back

  /**
   * Reads back any of the duration texts above ("Hh Mm", "Mm", "Mm ",
   * "Mm Ss", "Ss") as a number of seconds: the text is cut at spaces and
   * each piece is a number followed by one unit letter.
   */
  function ReadDuration(t: string): Option<nat>
  {
    ReadTokens(SplitOn(t, ' '))
  }

  /** A number followed by exactly one unit letter. */
  function ReadToken(token: string): Option<(nat, char)>
  {
    match ReadNumber(token)
    case None => None
    case Some((n, unit)) => if |unit| == 1 then Some((n, unit[0])) else None
  }

  function ReadTokens(tokens: seq<string>): Option<nat>
  {
    if |tokens| == 1 then
      match ReadToken(tokens[0])
      case Some((n, 's')) => Some(n)
      case Some((n, 'm')) => Some(60 * n)
      case _ => None
    else if |tokens| == 2 then
      match ReadToken(tokens[0])
      case Some((n, 'h')) =>
        (match ReadToken(tokens[1])
         case Some((k, 'm')) => Some(3600 * n + 60 * k)
         case _ => None)
      case Some((n, 'm')) =>
        if tokens[1] == [] then Some(60 * n)
        else
          (match ReadToken(tokens[1])
           case Some((k, 's')) => Some(60 * n + k)
           case _ => None)
      case _ => None
    else None
  }

  /** A number written out with a unit letter after it is one token that reads back as that number and letter. */
  lemma ReadTokenOf(n: nat, unit: char)
    requires !IsDigit(unit)
    ensures ReadToken(NatToString(n) + [unit]) == Some((n, unit))
  {
    ReadNatToString(n, [unit]);
  }

  /** Such a token holds no space. */
  lemma TokenLacksSpace(n: nat, unit: char)
    requires unit != ' '
    ensures Lacks(NatToString(n) + [unit], ' ')
  {
  }

  /** Two tokens joined by one space. */
  lemma ReadPair(n: nat, u: char, k: nat, v: char)
    requires !IsDigit(u) && u != ' ' && !IsDigit(v) && v != ' '
    ensures SplitOn(NatToString(n) + [u, ' '] + NatToString(k) + [v], ' ') ==
      [NatToString(n) + [u], NatToString(k) + [v]]
  {
    TokenLacksSpace(n, u);
    TokenLacksSpace(k, v);
    SplitAroundSpace(NatToString(n), u, NatToString(k), v);
  }

  lemma SplitAroundSpace(x: string, u: char, y: string, v: char)
    requires Lacks(x + [u], ' ') && Lacks(y + [v], ' ')
    ensures SplitOn(x + [u, ' '] + y + [v], ' ') == [x + [u], y + [v]]
  {
    assert x + [u, ' '] + y + [v] == (x + [u]) + [' '] + (y + [v]);
    SplitOnce(x + [u], ' ', y + [v]);
  }

  /** Two tokens that each read as a number and a unit: only hours-minutes and minutes-seconds are durations. */
  lemma ReadTokenPair(a: string, b: string, n: nat, u: char, k: nat, v: char)
    requires ReadToken(a) == Some((n, u)) && ReadToken(b) == Some((k, v)) && b != []
    ensures ReadTokens([a, b]) ==
      if u == 'h' && v == 'm' then Some(3600 * n + 60 * k)
      else if u == 'm' && v == 's' then Some(60 * n + k)
      else None
  {
  }

  /** "Hh Mm" and "Mm Ss": two tokens, each read as a number and its unit. */
  lemma ReadTwoFields(n: nat, u: char, k: nat, v: char)
    requires !IsDigit(u) && u != ' ' && !IsDigit(v) && v != ' '
    ensures ReadDuration(NatToString(n) + [u, ' '] + NatToString(k) + [v]) ==
      if u == 'h' && v == 'm' then Some(3600 * n + 60 * k)
      else if u == 'm' && v == 's' then Some(60 * n + k)
      else None
  {
    var a, b := NatToString(n) + [u], NatToString(k) + [v];
    ReadPair(n, u, k, v);
    assert ReadDuration(NatToString(n) + [u, ' '] + NatToString(k) + [v]) == ReadTokens([a, b]);
    ReadTokenOf(n, u);
    ReadTokenOf(k, v);
    ReadTokenPair(a, b, n, u, k, v);
  }

  /** "Mm " and "Ss": one token, with or without a space after it. */
  lemma ReadOneField(n: nat, u: char, space: bool)
    requires !IsDigit(u) && u != ' '
    ensures ReadDuration(NatToString(n) + [u] + (if space then " " else "")) ==
      if u == 's' && !space then Some(n)
      else if u == 'm' then Some(60 * n)
      else if u == 'h' || u == 's' then None
      else None
  {
    var a := NatToString(n) + [u];
    ReadTokenOf(n, u);
    TokenLacksSpace(n, u);
    if space {
      assert a + " " == a + [' '] + [];
      SplitOnce(a, ' ', []);
      assert ReadDuration(a + " ") == ReadTokens([a, []]);
    } else {
      assert a + "" == a;
      SplitNone(a, ' ');
    }
  }

  /** What each part of the long form reads back as. */
  lemma ReadParts(hours: nat, minutes: nat, remaining: nat)
    ensures ReadDuration(FormatParts(hours, minutes, remaining)) ==
      if hours > 0 then Some(3600 * hours + 60 * minutes)
      else if minutes > 0 then Some(60 * minutes + remaining)
      else Some(remaining)
  {
    var t := FormatParts(hours, minutes, remaining);
    if hours > 0 {
      assert t == NatToString(hours) + ['h', ' '] + NatToString(minutes) + ['m'];
      ReadTwoFields(hours, 'h', minutes, 'm');
    } else if minutes > 0 && remaining > 0 {
      assert t == NatToString(minutes) + ['m', ' '] + NatToString(remaining) + ['s'];
      ReadTwoFields(minutes, 'm', remaining, 's');
    } else if minutes > 0 {
      assert t == NatToString(minutes) + ['m'] + " ";
      ReadOneField(minutes, 'm', true);
    } else {
      assert t == NatToString(remaining) + ['s'] + "";
      ReadOneField(remaining, 's', false);
    }
  }

  /** The short form loses nothing: it reads back as the same number of seconds. */
  lemma FormatDurationShortRoundTrip(seconds: nat)
    ensures ReadDuration(FormatDurationShort(seconds)) == Some(seconds)
  {
    assert seconds == 60 * (seconds / 60) + seconds % 60;
    ReadShortParts(seconds / 60, seconds % 60);
  }

  lemma ReadShortParts(minutes: nat, remaining: nat)
    ensures ReadDuration(ShortParts(minutes, remaining)) == Some(60 * minutes + remaining)
  {
    if remaining == 0 {
      assert ShortParts(minutes, remaining) == NatToString(minutes) + ['m'] + "";
      ReadOneField(minutes, 'm', false);
    } else {
      assert ShortParts(minutes, remaining) == NatToString(minutes) + ['m', ' '] + NatToString(remaining) + ['s'];
      ReadTwoFields(minutes, 'm', remaining, 's');
    }
  }

  /** Below an hour the long form loses nothing either. */
  lemma FormatDurationRoundTrip(seconds: nat)
    requires seconds < 3600
    ensures ReadDuration(FormatDuration(seconds)) == Some(seconds)
  {
    assert seconds / 3600 == 0 && seconds % 3600 == seconds;
    assert seconds == 60 * (seconds / 60) + seconds % 60;
    ReadParts(0, seconds / 60, seconds % 60);
  }

  /** From an hour up the long form keeps hours and minutes and drops the seconds. */
  lemma FormatDurationDropsSeconds(seconds: nat)
    requires seconds >= 3600
    ensures ReadDuration(FormatDuration(seconds)) == Some(seconds - seconds % 60)
    ensures FormatDuration(seconds) == FormatDuration(seconds - seconds % 60)
  {
    var hours := seconds / 3600;
    var minutes := (seconds % 3600) / 60;
    WholeMinutes(seconds);
    ReadParts(hours, minutes, seconds % 60);
  }

  lemma WholeMinutes(seconds: nat)
    ensures var whole := seconds - seconds % 60;
      whole == 3600 * (seconds / 3600) + 60 * ((seconds % 3600) / 60) &&
      whole / 3600 == seconds / 3600 && (whole % 3600) / 60 == (seconds % 3600) / 60 && whole % 60 == 0
  {
  }
}
