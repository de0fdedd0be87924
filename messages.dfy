/**
 * The notification requests `notifyUpcomingTasks` builds, one per non-empty bucket: a
 * headline that starts with the bucket's size and agrees with it in number, the titles
 * joined by ", ", a fixed tag, and a high priority for the tasks due today only.
 */
module Messages {
  import opened Wrappers
  import opened Text
  import opened Classifier
  import opened Buckets

  /** The title and options passed to `sendBrowserNotification`. */
  datatype NotificationRequest = NotificationRequest(title: string, body: string, tag: string, priority: Option<string>)

  /** The `tag` option of each bucket's request. */
  function Tag(b: Bucket): (tag: string)
    ensures tag in {"tasks-today", "tasks-tomorrow", "tasks-upcoming"}
  {
    match b
    case DueToday => "tasks-today"
    case DueTomorrow => "tasks-tomorrow"
    case DueLater => "tasks-upcoming"
  }

  /** The headline's fixed text around the count and the noun phrase. */
  function Lead(b: Bucket): string {
    if b == DueToday then "¡" else ""
  }

  function Singular(b: Bucket): string {
    if b == DueLater then "tarea próxima" else "tarea vence"
  }

  function Plural(b: Bucket): string {
    if b == DueLater then "tareas próximas" else "tareas vencen"
  }

  function Tail(b: Bucket): string {
    match b
    case DueToday => " hoy!"
    case DueTomorrow => " mañana"
    case DueLater => " a vencer"
  }

  /** The noun phrase and the fixed ending, in the singular exactly for one task. */
  function Phrase(b: Bucket, n: nat): string {
    (if n == 1 then Singular(b) else Plural(b)) + Tail(b)
  }

  /** The template literal of the headline for a bucket of n tasks, written out as the source spells it. */
  function Headline(b: Bucket, n: nat): (h: string)
    ensures b == DueToday ==>
              h == "¡" + NatToString(n) + " " + (if n == 1 then "tarea vence" else "tareas vencen") + " hoy!"
    ensures b == DueTomorrow ==>
              h == NatToString(n) + " " + (if n == 1 then "tarea vence" else "tareas vencen") + " mañana"
    ensures b == DueLater ==>
              h == NatToString(n) + " " + (if n == 1 then "tarea próxima" else "tareas próximas") + " a vencer"
  {
    var h := Lead(b) + (NatToString(n) + " " + Phrase(b, n));
    assert b != DueToday ==> h == NatToString(n) + " " + Phrase(b, n);
    h
  }

  /** A headline assembled from its numeral and its phrase. */
  lemma HeadlineFromParts(b: Bucket, n: nat, numeral: string, h: string)
    requires NatToString(n) == numeral
    requires Lead(b) + (numeral + " " + Phrase(b, n)) == h
    ensures Headline(b, n) == h
  {
  }

  /** The singular texts, assembled from the fixed parts of each template. */
  lemma SingularTextToday()
    ensures Lead(DueToday) + ("1" + " " + Phrase(DueToday, 1)) == "¡1 tarea vence hoy!"
  {
    assert Phrase(DueToday, 1) == "tarea vence hoy!";
  }

  lemma SingularTextTomorrow()
    ensures Lead(DueTomorrow) + ("1" + " " + Phrase(DueTomorrow, 1)) == "1 tarea vence mañana"
  {
    assert Phrase(DueTomorrow, 1) == "tarea vence mañana";
    assert "1" + " " + "tarea vence mañana" == "1 tarea vence mañana";
    assert Lead(DueTomorrow) == "";
  }

  lemma SingularTextLater()
    ensures Lead(DueLater) + ("1" + " " + Phrase(DueLater, 1)) == "1 tarea próxima a vencer"
  {
    assert Phrase(DueLater, 1) == "tarea próxima a vencer";
    assert "1" + " " + "tarea próxima a vencer" == "1 tarea próxima a vencer";
    assert Lead(DueLater) == "";
  }

  /** Headlines spelled out, one per bucket, for a single task. */
  lemma HeadlineExampleToday()
    ensures Headline(DueToday, 1) == "¡1 tarea vence hoy!"
  {
    SingularTextToday();
    HeadlineFromParts(DueToday, 1, "1", "¡1 tarea vence hoy!");
  }

  lemma HeadlineExampleTomorrow()
    ensures Headline(DueTomorrow, 1) == "1 tarea vence mañana"
  {
    SingularTextTomorrow();
    HeadlineFromParts(DueTomorrow, 1, "1", "1 tarea vence mañana");
  }

  lemma HeadlineExampleLater()
    ensures Headline(DueLater, 1) == "1 tarea próxima a vencer"
  {
    SingularTextLater();
    HeadlineFromParts(DueLater, 1, "1", "1 tarea próxima a vencer");
  }

  /** The plural texts, assembled from the fixed parts of each template. */
  lemma PluralTextToday()
    ensures Lead(DueToday) + ("2" + " " + Phrase(DueToday, 2)) == "¡2 tareas vencen hoy!"
  {
    assert Phrase(DueToday, 2) == "tareas vencen hoy!";
  }

  lemma PluralTextTomorrow()
    ensures Lead(DueTomorrow) + ("3" + " " + Phrase(DueTomorrow, 3)) == "3 tareas vencen mañana"
  {
    assert Phrase(DueTomorrow, 3) == "tareas vencen mañana";
    assert "3" + " " + "tareas vencen mañana" == "3 tareas vencen mañana";
    assert Lead(DueTomorrow) == "";
  }

  lemma PluralTextLater()
    ensures Lead(DueLater) + ("4" + " " + Phrase(DueLater, 4)) == "4 tareas próximas a vencer"
  {
    assert Phrase(DueLater, 4) == "tareas próximas a vencer";
    assert "4" + " " + "tareas próximas a vencer" == "4 tareas próximas a vencer";
    assert Lead(DueLater) == "";
  }

  /** Headlines spelled out for several tasks, one per bucket. */
  lemma HeadlinePluralToday()
    ensures Headline(DueToday, 2) == "¡2 tareas vencen hoy!"
  {
    PluralTextToday();
    HeadlineFromParts(DueToday, 2, "2", "¡2 tareas vencen hoy!");
  }

  lemma HeadlinePluralTomorrow()
    ensures Headline(DueTomorrow, 3) == "3 tareas vencen mañana"
  {
    PluralTextTomorrow();
    HeadlineFromParts(DueTomorrow, 3, "3", "3 tareas vencen mañana");
  }

  lemma HeadlinePluralLater()
    ensures Headline(DueLater, 4) == "4 tareas próximas a vencer"
  {
    PluralTextLater();
    HeadlineFromParts(DueLater, 4, "4", "4 tareas próximas a vencer");
  }

  lemma PrefixCancel(p: string, x: string, y: string)
    requires p + x == p + y
    ensures x == y
  {
    assert (p + x)[|p|..] == x;
    assert (p + y)[|p|..] == y;
  }

  /** The singular and the plural phrases differ for every bucket. */
  lemma PhrasesDiffer(b: Bucket)
    ensures Singular(b) + Tail(b) != Plural(b) + Tail(b)
  {
    assert (Singular(b) + Tail(b))[5] == ' ' && (Plural(b) + Tail(b))[5] == 's';
  }

  /**
   * The headline is the count followed by the singular phrase exactly when the count is one,
   * and by the plural phrase otherwise.
   */
  lemma HeadlineAgreesInNumber(b: Bucket, n: nat)
    ensures Headline(b, n) == Lead(b) + (NatToString(n) + " " + (Singular(b) + Tail(b))) <==> n == 1
    ensures Headline(b, n) == Lead(b) + (NatToString(n) + " " + (Plural(b) + Tail(b))) <==> n != 1
  {
    PhrasesDiffer(b);
    var c := NatToString(n) + " ";
    if Headline(b, n) == Lead(b) + (c + (Singular(b) + Tail(b))) {
      PrefixCancel(Lead(b), c + Phrase(b, n), c + (Singular(b) + Tail(b)));
      PrefixCancel(c, Phrase(b, n), Singular(b) + Tail(b));
    }
    if Headline(b, n) == Lead(b) + (c + (Plural(b) + Tail(b))) {
      PrefixCancel(Lead(b), c + Phrase(b, n), c + (Plural(b) + Tail(b)));
      PrefixCancel(c, Phrase(b, n), Plural(b) + Tail(b));
    }
  }

  /**
   * The headline gives the count back: two buckets of the same kind with equal headlines have
   * the same size.
   */
  lemma HeadlineDeterminesCount(b: Bucket, n: nat, m: nat)
    requires Headline(b, n) == Headline(b, m)
    ensures n == m
  {
    PrefixCancel(Lead(b), NatToString(n) + " " + Phrase(b, n), NatToString(m) + " " + Phrase(b, m));
    NumeralPrefixUnique(NatToString(n), Phrase(b, n), NatToString(m), Phrase(b, m));
    NumeralInjective(n, m);
  }

  /** `tasks.map(t => t.title)`. */
  function Titles(tasks: seq<Task>): (r: seq<string>)
    ensures |r| == |tasks|
    ensures forall i :: 0 <= i < |tasks| ==> r[i] == tasks[i].title
    decreases |tasks|
  {
    if |tasks| == 0 then [] else [tasks[0].title] + Titles(tasks[1..])
  }

  /**
   * The request for bucket b holding the given tasks. Its body lists the bucket's titles in
   * bucket order (when no title holds a comma), and a priority, if any, is 'high'.
   */
  function Message(b: Bucket, tasks: seq<Task>): (r: NotificationRequest)
    ensures (|tasks| > 0 && forall i :: 0 <= i < |tasks| ==> NoComma(tasks[i].title)) ==>
              Split(r.body) == Titles(tasks)
    ensures r.priority.Some? ==> r.priority == Some("high")
  {
    var r := NotificationRequest(Headline(b, |tasks|), Join(Titles(tasks)), Tag(b),
                                 if b == DueToday then Some("high") else None);
    assert (|tasks| > 0 && forall i :: 0 <= i < |tasks| ==> NoComma(tasks[i].title)) ==>
             Split(r.body) == Titles(tasks) by {
      if |tasks| > 0 && forall i :: 0 <= i < |tasks| ==> NoComma(tasks[i].title) {
        SplitJoin(Titles(tasks));
      }
    }
    r
  }

  /** The tags name the buckets one to one. */
  lemma TagsDistinct(b1: Bucket, b2: Bucket)
    requires b1 != b2
    ensures Tag(b1) != Tag(b2)
  {
    assert Tag(DueTomorrow)[6] == 't' && Tag(DueLater)[6] == 'u';
  }

  /** The position of a tag in the order today, tomorrow, later. */
  function Rank(tag: string): nat {
    if tag == Tag(DueToday) then 0 else if tag == Tag(DueTomorrow) then 1 else 2
  }

  /** The request of one guarded send: present exactly when the bucket is non-empty. */
  function MaybeMessage(b: Bucket, upcoming: seq<Task>, today: int): (r: seq<NotificationRequest>)
    ensures |r| == if |BucketTasks(b, upcoming, today)| > 0 then 1 else 0
    ensures forall x :: x in r ==> x == Message(b, BucketTasks(b, upcoming, today))
  {
    var ts := BucketTasks(b, upcoming, today);
    if |ts| > 0 then [Message(b, ts)] else []
  }

  /** The requests of one `notifyUpcomingTasks` call with a non-empty upcoming list, in order. */
  function BuildRequests(upcoming: seq<Task>, today: int): (r: seq<NotificationRequest>)
    ensures |r| <= 3
    ensures upcoming == [] ==> r == []
  {
    MaybeMessage(DueToday, upcoming, today) + MaybeMessage(DueTomorrow, upcoming, today)
    + MaybeMessage(DueLater, upcoming, today)
  }

  lemma MaybeMessageShape(b: Bucket, upcoming: seq<Task>, today: int)
    ensures forall r :: r in MaybeMessage(b, upcoming, today) ==> Rank(r.tag) == BucketRank(b)
  {
    TagsDistinct(DueToday, DueTomorrow);
    TagsDistinct(DueToday, DueLater);
  }

  function BucketRank(b: Bucket): nat {
    match b
    case DueToday => 0
    case DueTomorrow => 1
    case DueLater => 2
  }

  lemma ConcatRanked(x: seq<NotificationRequest>, y: seq<NotificationRequest>, z: seq<NotificationRequest>)
    requires |x| <= 1 && |y| <= 1 && |z| <= 1
    requires forall r :: r in x ==> Rank(r.tag) == 0
    requires forall r :: r in y ==> Rank(r.tag) == 1
    requires forall r :: r in z ==> Rank(r.tag) == 2
    ensures forall i, j :: 0 <= i < j < |x + y + z| ==> Rank((x + y + z)[i].tag) < Rank((x + y + z)[j].tag)
  {
    var all := x + y + z;
    forall i, j | 0 <= i < j < |all| ensures Rank(all[i].tag) < Rank(all[j].tag) {
      assert all[i] in all && all[j] in all;
    }
  }

  /** At most three requests, in the order today, tomorrow, later, so no tag twice. */
  lemma RequestsOrdered(upcoming: seq<Task>, today: int)
    ensures |BuildRequests(upcoming, today)| <= 3
    ensures forall i, j :: 0 <= i < j < |BuildRequests(upcoming, today)| ==>
              Rank(BuildRequests(upcoming, today)[i].tag) < Rank(BuildRequests(upcoming, today)[j].tag)
  {
    MaybeMessageShape(DueToday, upcoming, today);
    MaybeMessageShape(DueTomorrow, upcoming, today);
    MaybeMessageShape(DueLater, upcoming, today);
    ConcatRanked(MaybeMessage(DueToday, upcoming, today), MaybeMessage(DueTomorrow, upcoming, today),
                 MaybeMessage(DueLater, upcoming, today));
  }

  /** Bucket b has a request exactly when it is non-empty, and that request is built from its tasks. */
  lemma RequestIffNonEmpty(b: Bucket, upcoming: seq<Task>, today: int)
    ensures |BucketTasks(b, upcoming, today)| > 0 <==>
              Message(b, BucketTasks(b, upcoming, today)) in BuildRequests(upcoming, today)
  {
    MaybeMessageShape(DueToday, upcoming, today);
    MaybeMessageShape(DueTomorrow, upcoming, today);
    MaybeMessageShape(DueLater, upcoming, today);
    TagsDistinct(DueToday, DueTomorrow);
    TagsDistinct(DueToday, DueLater);
    TagsDistinct(DueTomorrow, DueLater);
    var m := Message(b, BucketTasks(b, upcoming, today));
    assert m in BuildRequests(upcoming, today) <==> m in MaybeMessage(b, upcoming, today);
  }

  /** Only the request for the tasks due today carries a priority. */
  lemma OnlyTodayIsHighPriority(upcoming: seq<Task>, today: int)
    ensures forall r :: r in BuildRequests(upcoming, today) ==>
              (r.priority == Some("high") <==> r.tag == Tag(DueToday)) && (r.priority.Some? ==> r.priority == Some("high"))
  {
    MaybeMessageShape(DueToday, upcoming, today);
    MaybeMessageShape(DueTomorrow, upcoming, today);
    MaybeMessageShape(DueLater, upcoming, today);
    TagsDistinct(DueToday, DueTomorrow);
    TagsDistinct(DueToday, DueLater);
  }

  /**
   * Over the upcoming tasks of a normalised day there is a request exactly when there is an
   * upcoming task, and every upcoming task is in the bucket of some request that is built.
   */
  lemma RequestsCoverUpcoming(upcoming: seq<Task>, today: int)
    requires today % MsPerDay == 0
    requires forall t :: t in upcoming ==> IsUpcoming(t, today)
    ensures BuildRequests(upcoming, today) == [] <==> upcoming == []
    ensures forall t :: t in upcoming ==>
              exists b: Bucket :: t in BucketTasks(b, upcoming, today) &&
                                  Message(b, BucketTasks(b, upcoming, today)) in BuildRequests(upcoming, today)
  {
    BucketSizes(upcoming, today);
    forall t | t in upcoming
      ensures exists b: Bucket :: t in BucketTasks(b, upcoming, today) &&
                                  Message(b, BucketTasks(b, upcoming, today)) in BuildRequests(upcoming, today)
    {
      UpcomingInOneBucket(t, today);
      var b := if InBucket(DueToday, t, today) then DueToday
               else if InBucket(DueTomorrow, t, today) then DueTomorrow else DueLater;
      assert t in BucketTasks(b, upcoming, today);
      RequestIffNonEmpty(b, upcoming, today);
    }
  }
}
