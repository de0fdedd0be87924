/**
 * The three groups `notifyUpcomingTasks` builds from the upcoming tasks: due today, due
 * tomorrow, and later than tomorrow.
 */
module Buckets {
  import opened Wrappers
  import opened Classifier

  datatype Bucket = DueToday | DueTomorrow | DueLater

  /**
   * The filter callbacks of `tasksToday`, `tasksTomorrow` and `tasksLater`. A task in a
   * bucket has a valid date; when today is the start of a day, that date is no earlier than
   * today plus the bucket's offset in days.
   */
  predicate InBucket(b: Bucket, t: Task, today: int)
    ensures InBucket(b, t, today) ==>
              t.dueDate.Some? &&
              (today % MsPerDay == 0 ==> StartOfDay(t.dueDate.value) >= today + DayOffset(b) * MsPerDay)
  {
    match t.dueDate
    case None => false
    case Some(d) =>
      match b
      case DueToday => StartOfDay(d) == today
      case DueTomorrow => StartOfDay(d) == today + MsPerDay
      case DueLater => StartOfDay(d) > today + MsPerDay
  }

  /** `upcomingTasks.filter(...)` with the callback of bucket b. */
  function BucketTasks(b: Bucket, tasks: seq<Task>, today: int): (r: seq<Task>)
    ensures forall t :: t in r <==> t in tasks && InBucket(b, t, today)
    ensures forall t :: multiset(r)[t] == if InBucket(b, t, today) then multiset(tasks)[t] else 0
    ensures Subsequence(r, tasks)
    ensures |r| <= |tasks|
    decreases |tasks|
  {
    assert |tasks| > 0 ==> tasks == [tasks[0]] + tasks[1..];
    if |tasks| == 0 then []
    else if InBucket(b, tasks[0], today) then [tasks[0]] + BucketTasks(b, tasks[1..], today)
    else BucketTasks(b, tasks[1..], today)
  }

  /** How many days after today a bucket's tasks are due. */
  function DayOffset(b: Bucket): int {
    match b
    case DueToday => 0
    case DueTomorrow => 1
    case DueLater => 2
  }

  /** No task is in two buckets. */
  lemma BucketsExclusive(b1: Bucket, b2: Bucket, t: Task, today: int)
    requires b1 != b2
    ensures !(InBucket(b1, t, today) && InBucket(b2, t, today))
  {
  }

  /**
   * On an upcoming task each bucket is one calendar day: today, tomorrow, and for the
   * "later" bucket exactly the day after tomorrow, because the window ends there.
   */
  lemma BucketIsDay(b: Bucket, t: Task, now: int)
    requires IsUpcoming(t, StartOfDay(now))
    ensures InBucket(b, t, StartOfDay(now)) <==> DayNumber(t.dueDate.value) == DayNumber(now) + DayOffset(b)
  {
    StartOfDayOfDay(now);
    StartOfDayOfDay(t.dueDate.value);
  }

  /** The buckets are pairwise disjoint as sequences. */
  lemma BucketsDisjoint(tasks: seq<Task>, today: int)
    ensures forall t :: t in BucketTasks(DueToday, tasks, today) ==>
      t !in BucketTasks(DueTomorrow, tasks, today) && t !in BucketTasks(DueLater, tasks, today)
    ensures forall t :: t in BucketTasks(DueTomorrow, tasks, today) ==> t !in BucketTasks(DueLater, tasks, today)
  {
  }

  /** One step of a bucket filter, seen as a multiset. */
  lemma BucketStep(b: Bucket, tasks: seq<Task>, today: int)
    requires |tasks| > 0
    ensures multiset(BucketTasks(b, tasks, today)) ==
      (if InBucket(b, tasks[0], today) then multiset{tasks[0]} else multiset{})
      + multiset(BucketTasks(b, tasks[1..], today))
  {
  }

  /** Every upcoming task falls in exactly one bucket. */
  lemma UpcomingInOneBucket(t: Task, today: int)
    requires today % MsPerDay == 0 && IsUpcoming(t, today)
    ensures (if InBucket(DueToday, t, today) then 1 else 0) + (if InBucket(DueTomorrow, t, today) then 1 else 0)
            + (if InBucket(DueLater, t, today) then 1 else 0) == 1
  {
  }

  lemma {:induction false} BucketsCover(tasks: seq<Task>, today: int)
    requires today % MsPerDay == 0
    requires forall t :: t in tasks ==> IsUpcoming(t, today)
    ensures multiset(BucketTasks(DueToday, tasks, today)) + multiset(BucketTasks(DueTomorrow, tasks, today))
            + multiset(BucketTasks(DueLater, tasks, today)) == multiset(tasks)
    decreases |tasks|
  {
    if |tasks| > 0 {
      var h := tasks[0];
      BucketsCover(tasks[1..], today);
      BucketStep(DueToday, tasks, today);
      BucketStep(DueTomorrow, tasks, today);
      BucketStep(DueLater, tasks, today);
      UpcomingInOneBucket(h, today);
      assert tasks == [h] + tasks[1..];
      assert multiset(tasks) == multiset{h} + multiset(tasks[1..]);
    }
  }

  /**
   * Over upcoming tasks the three buckets together hold every task exactly as often as the
   * input does: their concatenation is a permutation of `upcomingTasks`.
   */
  lemma BucketsPartition(tasks: seq<Task>, today: int)
    requires today % MsPerDay == 0
    requires forall t :: t in tasks ==> IsUpcoming(t, today)
    ensures multiset(BucketTasks(DueToday, tasks, today) + BucketTasks(DueTomorrow, tasks, today)
                     + BucketTasks(DueLater, tasks, today)) == multiset(tasks)
  {
    BucketsCover(tasks, today);
  }

  /** The bucket sizes add up to the number of upcoming tasks. */
  lemma BucketSizes(tasks: seq<Task>, today: int)
    requires today % MsPerDay == 0
    requires forall t :: t in tasks ==> IsUpcoming(t, today)
    ensures |BucketTasks(DueToday, tasks, today)| + |BucketTasks(DueTomorrow, tasks, today)|
            + |BucketTasks(DueLater, tasks, today)| == |tasks|
  {
    BucketsPartition(tasks, today);
    var all := BucketTasks(DueToday, tasks, today) + BucketTasks(DueTomorrow, tasks, today)
               + BucketTasks(DueLater, tasks, today);
    assert |multiset(all)| == |all|;
    assert |multiset(tasks)| == |tasks|;
  }
}
