/**
 * Meditation goals: a list of daily, weekly and monthly targets in minutes.
 * Whenever the logs change, every goal's progress is recomputed from the
 * logs that fall in the goal's current period; goals are added from a small
 * form and deleted by id.  Dates are day numbers (see `Calendar`), and a
 * period boundary `new Date(y, m, d)` is the instant at which its day begins.
 */
module MeditationGoals {
  import opened Wrappers
  import opened Calendar
  import opened Lists
  import opened MeditationLogs
  import opened Notifications

  datatype GoalType = Daily | Weekly | Monthly

  /** A goal; `period` is the day number on which its current period starts. */
  datatype Goal = Goal(id: string, kind: GoalType, target: int, current: nat, period: int, completed: bool)

  // ---------------------------------------------------------------------
  // Periods

  /** `dayOfWeek === 0 ? 6 : dayOfWeek - 1`: how many days ago the week began. */
  function DaysToMonday(dayOfWeek: int): (r: int)
    ensures 0 <= dayOfWeek < 7 ==> 0 <= r < 7 && (dayOfWeek - r) % 7 == 1
  {
    if dayOfWeek == 0 then 6 else dayOfWeek - 1
  }

  /** Counting back to Monday lands on the start of the seven-day block the day lies in, which is a Monday. */
  lemma DaysToMondayIsOffset(t: int)
    ensures DaysToMonday(WeekDay(t)) == t % 7
    ensures WeekDay(t - t % 7) == 1
  {
  }

  /**
   * The half-open window [start, end) of day numbers that a goal of this
   * type covers on `today`: the day itself, the week from Monday, or the
   * calendar month.
   */
  function Window(kind: GoalType, today: Civil): (w: (int, int))
    requires Valid(today)
    ensures w.0 <= DayNumber(today) < w.1
    ensures kind == Daily ==> w.1 == w.0 + 1
    ensures kind == Weekly ==> w.1 == w.0 + 7 && WeekDay(w.0) == 1
    ensures kind == Monthly ==>
      w.0 == DayNumber(MonthStart(today)) && w.1 == w.0 + DaysInMonth(today.year, today.month)
  {
    var t := DayNumber(today);
    match kind
    case Daily => (t, t + 1)
    case Weekly =>
      DaysToMondayIsOffset(t);
      var start := t - DaysToMonday(WeekDay(t));
      (start, start + 7)
    case Monthly =>
      MonthLength(today);
      (DayNumber(MonthStart(today)), DayNumber(NextMonthStart(today)))
  }

  /** The filter `log => new Date(log.date) >= periodStart && new Date(log.date) < periodEnd`. */
  function InWindow(w: (int, int)): (f: Log -> bool)
    ensures forall l :: f(l) <==> w.0 <= l.date < w.1
  {
    (l: Log) => Instant(w.0) <= Instant(l.date) < Instant(w.1)
  }

  /** `Math.round(log.duration / 60)`: a log's duration in whole minutes, halves rounded up. */
  function Minutes(l: Log): (m: nat)
    ensures 60 * (2 * m) <= 2 * l.duration + 60 < 60 * (2 * m + 2)
  {
    RoundDiv(l.duration, 60)
  }

  /** The recompute for one goal: minutes logged in its current period, and whether they reach the target. */
  function Progress(goal: Goal, logs: seq<Log>, today: Civil): (g: Goal)
    requires Valid(today)
    ensures g.id == goal.id && g.kind == goal.kind && g.target == goal.target
    ensures g.period == Window(goal.kind, today).0
    ensures g.current == Sum(Filter(logs, InWindow(Window(goal.kind, today))), Minutes)
    ensures g.completed <==> g.current >= g.target
  {
    var w := Window(goal.kind, today);
    var total := Sum(Filter(logs, InWindow(w)), Minutes);
    goal.(current := total, period := w.0, completed := total >= goal.target)
  }

  /** The progress effect: skipped when there are no logs, otherwise every goal recomputed in place. */
  function Recompute(goals: seq<Goal>, logs: seq<Log>, today: Civil): (r: seq<Goal>)
    requires Valid(today)
    ensures logs == [] ==> r == goals
    ensures |r| == |goals|
    ensures logs != [] ==> forall i :: 0 <= i < |goals| ==> r[i] == Progress(goals[i], logs, today)
  {
    if logs == [] then goals
    else seq(|goals|, i requires 0 <= i < |goals| => Progress(goals[i], logs, today))
  }

  /** Recomputing does not depend on the progress recorded before: doing it twice is doing it once. */
  lemma RecomputeIdempotent(goals: seq<Goal>, logs: seq<Log>, today: Civil)
    requires Valid(today)
    ensures Recompute(Recompute(goals, logs, today), logs, today) == Recompute(goals, logs, today)
  {
  }

  /** Today lies in this week and in this month, so a daily goal never shows more minutes than a weekly or monthly one. */
  lemma DayWithinWeekAndMonth(logs: seq<Log>, today: Civil, id: string, target: int)
    requires Valid(today)
    ensures Progress(Goal(id, Daily, target, 0, 0, false), logs, today).current <=
            Progress(Goal(id, Weekly, target, 0, 0, false), logs, today).current
    ensures Progress(Goal(id, Daily, target, 0, 0, false), logs, today).current <=
            Progress(Goal(id, Monthly, target, 0, 0, false), logs, today).current
  {
    var d, w, m := Window(Daily, today), Window(Weekly, today), Window(Monthly, today);
    forall l ensures InWindow(d)(l) ==> InWindow(w)(l) && InWindow(m)(l) {
    }
    FilterMonotone(logs, InWindow(d), InWindow(w), Minutes);
    FilterMonotone(logs, InWindow(d), InWindow(m), Minutes);
  }

  /** A goal is completed by a period's logs exactly when their rounded minutes reach its target. */
  lemma CompletedByPeriodLogs(goal: Goal, logs: seq<Log>, today: Civil)
    requires Valid(today)
    ensures var w := Window(goal.kind, today);
      Progress(goal, logs, today).completed <==>
        Sum(Filter(logs, InWindow(w)), Minutes) >= goal.target
  {
  }

  // ---------------------------------------------------------------------
  // The summary

  function IsCompleted(g: Goal): bool { g.completed }

  function InProgress(g: Goal): bool { !g.completed }

  /** Completed goals plus goals in progress make up all the goals. */
  lemma SummaryCounts(goals: seq<Goal>)
    ensures |Filter(goals, IsCompleted)| + |Filter(goals, InProgress)| == |goals|
  {
    FilterSplit(goals, IsCompleted, InProgress);
  }

  /** The filter `goal => goal.id !== id`. */
  function GoalIdIsNot(id: string): Goal -> bool
  {
    (g: Goal) => g.id != id
  }

  /** Deleting from a concatenation deletes from each part, so the remaining goals keep their order. */
  lemma DeleteKeepsOrder(a: seq<Goal>, b: seq<Goal>, id: string)
    ensures Filter(a + b, GoalIdIsNot(id)) == Filter(a, GoalIdIsNot(id)) + Filter(b, GoalIdIsNot(id))
  {
    FilterAppend(a, b, GoalIdIsNot(id));
  }

  // ---------------------------------------------------------------------
  // The goal list and its form

  class GoalBoard {
    var goals: seq<Goal>
    var newType: GoalType
    var newTarget: int
    var showAddGoal: bool

    constructor()
      ensures goals == [] && newType == Daily && newTarget == 10 && !showAddGoal
    {
      goals := [];
      newType := Daily;
      newTarget := 10;
      showAddGoal := false;
    }

    /** Choosing a goal type in the form's select. */
    method SetType(kind: GoalType)
      modifies this
      ensures newType == kind && goals == old(goals)
      ensures newTarget == old(newTarget) && showAddGoal == old(showAddGoal)
    {
      newType := kind;
    }

    /**
     * Typing into the target input: `parseInt(value) || 0`, where `parsed`
     * is what `parseInt` read, or None for NaN; NaN becomes 0.
     */
    method SetTarget(parsed: Option<int>)
      modifies this
      ensures newTarget == (if parsed.Some? then parsed.value else 0)
      ensures goals == old(goals) && newType == old(newType) && showAddGoal == old(showAddGoal)
    {
      match parsed
      case Some(n) => newTarget := n;
      case None => newTarget := 0;
    }

    /**
     * `addGoal`: a target that is not positive only raises an info notice;
     * otherwise a fresh goal is appended and the form is reset.  `id` is
     * `Date.now().toString()`, `today` the current date.
     */
    method AddGoal(id: string, today: Civil) returns (notice: Notification)
      requires Valid(today)
      modifies this
      ensures old(newTarget) <= 0 ==>
        goals == old(goals) && newType == old(newType) && newTarget == old(newTarget) &&
        showAddGoal == old(showAddGoal) && notice == Shown("Please enter a valid target time", Info)
      ensures old(newTarget) > 0 ==>
        goals == old(goals) + [Goal(id, old(newType), old(newTarget), 0, DayNumber(today), false)] &&
        newType == Daily && newTarget == 10 && !showAddGoal &&
        notice == Shown("Goal added successfully!", Success)
    {
      if newTarget <= 0 {
        notice := Shown("Please enter a valid target time", Info);
        return;
      }
      var goal := Goal(id, newType, newTarget, 0, DayNumber(today), false);
      goals := goals + [goal];
      newType, newTarget := Daily, 10;
      showAddGoal := false;
      notice := Shown("Goal added successfully!", Success);
    }

    /** `deleteGoal`: keeps every goal with another id, in order. */
    method DeleteGoal(id: string) returns (notice: Notification)
      modifies this
      ensures goals == Filter(old(goals), GoalIdIsNot(id))
      ensures forall g :: g in goals <==> g in old(goals) && g.id != id
      ensures newType == old(newType) && newTarget == old(newTarget) && showAddGoal == old(showAddGoal)
      ensures notice == Shown("Goal deleted", Success)
    {
      goals := Filter(goals, GoalIdIsNot(id));
      notice := Shown("Goal deleted", Success);
    }

    /** The progress effect, run with the current logs and date. */
    method Refresh(logs: seq<Log>, today: Civil)
      requires Valid(today)
      modifies this
      ensures goals == Recompute(old(goals), logs, today)
      ensures newType == old(newType) && newTarget == old(newTarget) && showAddGoal == old(showAddGoal)
    {
      if |logs| == 0 {
        return;
      }
      goals := Recompute(goals, logs, today);
    }
  }
}
