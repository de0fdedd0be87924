/**
 * `checkUpcomingTasks`: which of a user's tasks are due soon.
 *
 * Dates are JavaScript time values in milliseconds, read on the local wall clock (a fixed
 * offset, no daylight-saving jumps); an Invalid Date is `None`, and every comparison with
 * it is false, so such a task never passes a date test.
 */
module Classifier {
  import opened Wrappers

  const MsPerDay: int := 86_400_000

  /** The status value the task model uses for a finished task. */
  const Completed: string := "completada"

  /** A task as the client receives it: `dueDate` already converted by `new Date(...)`. */
  datatype Task = Task(title: string, dueDate: Option<int>, status: string)

  /** `setHours(0, 0, 0, 0)`: the first millisecond of the day that contains t. */
  function StartOfDay(t: int): (r: int)
    ensures r <= t < r + MsPerDay
    ensures r % MsPerDay == 0
  {
    t - t % MsPerDay
  }

  /** The calendar day a time value falls on, counted from the epoch's day. */
  function DayNumber(t: int): int {
    t / MsPerDay
  }

  lemma StartOfDayOfDay(t: int)
    ensures StartOfDay(t) == DayNumber(t) * MsPerDay
  {
  }

  /**
   * The filter callback of `checkUpcomingTasks`, with `today` already normalised: not
   * completed, and the normalised due date lies between today and two days later.
   */
  predicate IsUpcoming(t: Task, today: int)
    ensures IsUpcoming(t, today) ==> t.status != Completed && t.dueDate.Some?
  {
    t.status != Completed &&
    match t.dueDate
    case None => false
    case Some(d) => today <= StartOfDay(d) && StartOfDay(d) <= today + 2 * MsPerDay
  }

  /** The reference reading in calendar days: due today, tomorrow or the day after, not completed. */
  predicate DueWithinTwoDays(t: Task, nowDay: int) {
    t.status != Completed && t.dueDate.Some? &&
    nowDay <= DayNumber(t.dueDate.value) <= nowDay + 2
  }

  /** `r` is obtained from `s` by deleting elements, keeping the rest in their order. */
  ghost predicate Subsequence<T>(r: seq<T>, s: seq<T>)
    decreases |s|
  {
    |r| == 0 ||
    (|s| > 0 && (Subsequence(r, s[1..]) || (r[0] == s[0] && Subsequence(r[1..], s[1..]))))
  }

  /** `tasks.filter(...)` with the callback above. */
  function FilterUpcoming(tasks: seq<Task>, today: int): (r: seq<Task>)
    ensures forall t :: t in r <==> t in tasks && IsUpcoming(t, today)
    ensures forall t :: multiset(r)[t] == if IsUpcoming(t, today) then multiset(tasks)[t] else 0
    ensures Subsequence(r, tasks)
    ensures |r| <= |tasks|
    decreases |tasks|
  {
    assert |tasks| > 0 ==> tasks == [tasks[0]] + tasks[1..];
    if |tasks| == 0 then []
    else if IsUpcoming(tasks[0], today) then [tasks[0]] + FilterUpcoming(tasks[1..], today)
    else FilterUpcoming(tasks[1..], today)
  }

  /**
   * `checkUpcomingTasks(tasks)` at clock reading `now`; `None` stands for an argument that is
   * not an array.
   */
  function CheckUpcomingTasks(tasks: Option<seq<Task>>, now: int): (r: seq<Task>)
    ensures tasks.None? || tasks == Some([]) ==> r == []
    ensures tasks.Some? ==> Subsequence(r, tasks.value)
    ensures forall t :: t in r <==> tasks.Some? && t in tasks.value && DueWithinTwoDays(t, DayNumber(now))
    ensures tasks.Some? ==>
              forall t :: multiset(r)[t] == if DueWithinTwoDays(t, DayNumber(now)) then multiset(tasks.value)[t] else 0
  {
    UpcomingIsWithinTwoDays(now);
    match tasks
    case None => []
    case Some(ts) => if |ts| == 0 then [] else FilterUpcoming(ts, StartOfDay(now))
  }

  /** The millisecond test of the source and the calendar-day reading agree on every task. */
  lemma UpcomingIsWithinTwoDays(now: int)
    ensures forall t :: IsUpcoming(t, StartOfDay(now)) <==> DueWithinTwoDays(t, DayNumber(now))
  {
    forall t: Task
      ensures IsUpcoming(t, StartOfDay(now)) <==> DueWithinTwoDays(t, DayNumber(now))
    {
      if t.dueDate.Some? {
        StartOfDayOfDay(t.dueDate.value);
        StartOfDayOfDay(now);
      }
    }
  }

  /** Whatever its due date, a completed task is never reported. */
  lemma CompletedNeverUpcoming(tasks: seq<Task>, now: int, t: Task)
    requires t.status == Completed
    ensures t !in CheckUpcomingTasks(Some(tasks), now)
  {
  }

  /** Overdue tasks and tasks without a valid date are dropped; the rest of the batch is kept. */
  lemma OverdueOrInvalidDropped(tasks: seq<Task>, now: int, t: Task)
    requires t.dueDate.None? || DayNumber(t.dueDate.value) < DayNumber(now)
    ensures t !in CheckUpcomingTasks(Some(tasks), now)
  {
  }
}
