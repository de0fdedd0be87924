/**
 * The side-effecting half of the notification service: asking for permission, sending one
 * notification, and `notifyUpcomingTasks`, which sends one notification per non-empty bucket.
 *
 * The browser's notification state (`'Notification' in window`, `Notification.permission`,
 * and for which requests the `Notification` constructor throws) is an injected object that
 * records what it was asked to show.
 */
module NotificationService {
  import opened Wrappers
  import opened Classifier
  import opened Buckets
  import opened Messages

  datatype Permission = Granted | Denied | Default

  /** How the permission prompt ended: the user's answer, or a rejected promise. */
  datatype PromptOutcome = Answered(choice: Permission) | Threw

  /** Only an undecided permission on a browser that supports notifications makes a prompt appear. */
  predicate Prompts(supported: bool, status: Permission) {
    supported && status == Default
  }

  /** What `requestNotificationPermission` resolves to. */
  function PermissionDecision(supported: bool, status: Permission, prompt: PromptOutcome): (granted: bool)
    ensures granted ==> supported && status != Denied
    ensures supported && status == Granted ==> granted
    ensures Prompts(supported, status) ==> (granted <==> prompt == Answered(Granted))
  {
    if !supported then false
    else if status == Granted then true
    else if status == Denied then false
    else match prompt
      case Answered(choice) => choice == Granted
      case Threw => false
  }

  /** The browser's permission after the request: an answered prompt records the answer. */
  function NextPermission(supported: bool, status: Permission, prompt: PromptOutcome): (next: Permission)
    ensures !Prompts(supported, status) ==> next == status
  {
    if Prompts(supported, status) && prompt.Answered? then prompt.choice else status
  }

  /**
   * Granting or denying is final: after a prompt answered either way, asking again gives the
   * same answer and shows no prompt.
   */
  lemma AnswerIsRemembered(supported: bool, prompt: PromptOutcome, again: PromptOutcome)
    requires supported && prompt.Answered? && prompt.choice != Default
    ensures !Prompts(supported, NextPermission(supported, Default, prompt))
    ensures PermissionDecision(supported, NextPermission(supported, Default, prompt), again)
            == PermissionDecision(supported, Default, prompt)
  {
  }

  class NotificationCenter {
    /** `'Notification' in window` */
    var supported: bool
    /** `Notification.permission` */
    var permission: Permission
    /** The tags of the requests for which `new Notification(...)` throws. */
    var throwsOn: set<string>
    /** How many permission prompts the user has been shown. */
    var prompts: nat
    /** The notifications shown, oldest first. */
    var shown: seq<NotificationRequest>

    constructor (supported: bool, permission: Permission, throwsOn: set<string>)
      ensures this.supported == supported && this.permission == permission
      ensures this.throwsOn == throwsOn
      ensures prompts == 0 && shown == []
    {
      this.supported := supported;
      this.permission := permission;
      this.throwsOn := throwsOn;
      prompts := 0;
      shown := [];
    }

    /** The guard of `sendBrowserNotification`: notifications exist and are granted. */
    predicate Permits()
      reads this
      ensures Permits() ==> supported && PermissionDecision(supported, permission, Threw)
    {
      supported && permission == Granted
    }

    /** Whether a request sent now is shown: the guard passes and its constructor does not throw. */
    predicate Delivers(request: NotificationRequest)
      reads this
      ensures Delivers(request) ==> Permits()
    {
      Permits() && request.tag !in throwsOn
    }
  }

  /** `requestNotificationPermission`, with the user's handling of the prompt as an input. */
  method RequestNotificationPermission(center: NotificationCenter, prompt: PromptOutcome) returns (granted: bool)
    modifies center`permission, center`prompts
    ensures granted == PermissionDecision(old(center.supported), old(center.permission), prompt)
    ensures center.prompts == old(center.prompts) + (if Prompts(center.supported, old(center.permission)) then 1 else 0)
    ensures center.permission == NextPermission(center.supported, old(center.permission), prompt)
  {
    if !center.supported {
      return false;
    }
    if center.permission == Granted {
      return true;
    }
    if center.permission == Denied {
      return false;
    }
    center.prompts := center.prompts + 1;
    match prompt
    case Answered(choice) =>
      center.permission := choice;
      granted := choice == Granted;
    case Threw =>
      granted := false;
  }

  /** `sendBrowserNotification`: shows the request only with permission, and reports whether it did. */
  method SendBrowserNotification(center: NotificationCenter, request: NotificationRequest) returns (sent: bool)
    modifies center`shown
    ensures sent == center.Delivers(request)
    ensures center.shown == old(center.shown) + (if sent then [request] else [])
  {
    if !center.supported || center.permission != Granted {
      return false;
    }
    if request.tag in center.throwsOn {
      return false;
    }
    center.shown := center.shown + [request];
    sent := true;
  }

  /** The requests a browser shows, in order: those whose constructor does not throw. */
  function Shown(requests: seq<NotificationRequest>, throwsOn: set<string>): (r: seq<NotificationRequest>)
    ensures forall x :: x in r <==> x in requests && x.tag !in throwsOn
    ensures Subsequence(r, requests)
    decreases |requests|
  {
    if |requests| == 0 then []
    else if requests[0].tag !in throwsOn then [requests[0]] + Shown(requests[1..], throwsOn)
    else Shown(requests[1..], throwsOn)
  }

  lemma {:induction false} ShownAppend(x: seq<NotificationRequest>, y: seq<NotificationRequest>, throwsOn: set<string>)
    ensures Shown(x + y, throwsOn) == Shown(x, throwsOn) + Shown(y, throwsOn)
    decreases |x|
  {
    if |x| == 0 {
      assert x + y == y;
    } else {
      assert (x + y)[1..] == x[1..] + y;
      ShownAppend(x[1..], y, throwsOn);
    }
  }

  /** Each request not thrown on is shown as many times as it was sent, every other never. */
  lemma {:induction false} ShownCount(requests: seq<NotificationRequest>, throwsOn: set<string>)
    ensures forall x :: multiset(Shown(requests, throwsOn))[x] == if x.tag !in throwsOn then multiset(requests)[x] else 0
    decreases |requests|
  {
    if |requests| > 0 {
      assert requests == [requests[0]] + requests[1..];
      ShownCount(requests[1..], throwsOn);
    }
  }

  /** The one possible request of a bucket is shown exactly when it exists and does not throw. */
  lemma ShownBucket(b: Bucket, upcoming: seq<Task>, today: int, throwsOn: set<string>)
    ensures Shown(MaybeMessage(b, upcoming, today), throwsOn)
              == if |BucketTasks(b, upcoming, today)| > 0 && Tag(b) !in throwsOn
                 then [Message(b, BucketTasks(b, upcoming, today))] else []
  {
    var m := MaybeMessage(b, upcoming, today);
    if |m| == 1 {
      assert m[1..] == [];
    }
  }

  /** What the three sends show, bucket by bucket, is what the built requests show. */
  lemma ShownRequests(upcoming: seq<Task>, today: int, throwsOn: set<string>)
    ensures Shown(BuildRequests(upcoming, today), throwsOn)
              == Shown(MaybeMessage(DueToday, upcoming, today), throwsOn)
                 + Shown(MaybeMessage(DueTomorrow, upcoming, today), throwsOn)
                 + Shown(MaybeMessage(DueLater, upcoming, today), throwsOn)
  {
    var m1 := MaybeMessage(DueToday, upcoming, today);
    var m2 := MaybeMessage(DueTomorrow, upcoming, today);
    var m3 := MaybeMessage(DueLater, upcoming, today);
    ShownAppend(m1, m2, throwsOn);
    ShownAppend(m1 + m2, m3, throwsOn);
  }

  /** One step of `notifyUpcomingTasks`: when the bucket is non-empty, send its message. */
  method NotifyBucket(center: NotificationCenter, b: Bucket, bucket: seq<Task>,
                      ghost upcoming: seq<Task>, ghost today: int)
    requires bucket == BucketTasks(b, upcoming, today)
    modifies center`shown
    ensures center.shown == old(center.shown)
              + (if center.Permits() then Shown(MaybeMessage(b, upcoming, today), center.throwsOn) else [])
  {
    ShownBucket(b, upcoming, today, center.throwsOn);
    if |bucket| > 0 {
      var sent := SendBrowserNotification(center, Message(b, bucket));
    }
  }

  /**
   * `notifyUpcomingTasks`: returns the upcoming tasks whatever the sends report. When the guard
   * passes, it shows the requests of the non-empty buckets, in the order today, tomorrow, later,
   * leaving out only those whose own constructor throws; otherwise it shows nothing.
   */
  method NotifyUpcomingTasks(center: NotificationCenter, tasks: Option<seq<Task>>, now: int)
    returns (notified: seq<Task>)
    modifies center`shown
    ensures notified == CheckUpcomingTasks(tasks, now)
    ensures center.shown == old(center.shown)
              + (if center.Permits() then Shown(BuildRequests(notified, StartOfDay(now)), center.throwsOn) else [])
  {
    var upcoming := CheckUpcomingTasks(tasks, now);
    if |upcoming| > 0 {
      var today := StartOfDay(now);
      var tasksToday := BucketTasks(DueToday, upcoming, today);
      var tasksTomorrow := BucketTasks(DueTomorrow, upcoming, today);
      var tasksLater := BucketTasks(DueLater, upcoming, today);
      ghost var permits := center.Permits();
      ghost var throwsOn := center.throwsOn;
      ghost var s0 := center.shown;
      ghost var d1 := if permits then Shown(MaybeMessage(DueToday, upcoming, today), throwsOn) else [];
      ghost var d2 := if permits then Shown(MaybeMessage(DueTomorrow, upcoming, today), throwsOn) else [];
      ghost var d3 := if permits then Shown(MaybeMessage(DueLater, upcoming, today), throwsOn) else [];
      NotifyBucket(center, DueToday, tasksToday, upcoming, today);
      NotifyBucket(center, DueTomorrow, tasksTomorrow, upcoming, today);
      NotifyBucket(center, DueLater, tasksLater, upcoming, today);
      assert center.shown == s0 + d1 + d2 + d3;
      ShownRequests(upcoming, today, throwsOn);
      assert d1 + d2 + d3 == if permits then Shown(BuildRequests(upcoming, today), throwsOn) else [];
      Associative(s0, d1, d2, d3);
      return upcoming;
    }
    return [];
  }

  /**
   * The sends are independent: with the guard passing, every built request whose own
   * constructor does not throw is shown, whichever other requests fail.
   */
  lemma SendsAreIndependent(upcoming: seq<Task>, today: int, throwsOn: set<string>, r: NotificationRequest)
    requires r in BuildRequests(upcoming, today) && r.tag !in throwsOn
    ensures r in Shown(BuildRequests(upcoming, today), throwsOn)
  {
  }

  lemma Associative<T>(a: seq<T>, b: seq<T>, c: seq<T>, d: seq<T>)
    ensures a + b + c + d == a + (b + c + d)
  {
  }

  /**
   * A scenario: A due today, B due tomorrow, C completed and due today, with the permission
   * denied. Nothing is shown and [A, B] is still returned.
   */
  method DeniedScenario(now: int) returns (notified: seq<Task>, shown: seq<NotificationRequest>)
    ensures |notified| == 2 && notified[0].title == "A" && notified[1].title == "B"
    ensures shown == []
  {
    var today := StartOfDay(now);
    var a := Task("A", Some(today), "pendiente");
    var b := Task("B", Some(today + MsPerDay), "pendiente");
    var c := Task("C", Some(today), Completed);
    var center := new NotificationCenter(true, Denied, {});
    notified := NotifyUpcomingTasks(center, Some([a, b, c]), now);
    ScenarioFilter(a, b, c, today);
    shown := center.shown;
  }

  lemma ScenarioFilter(a: Task, b: Task, c: Task, today: int)
    requires IsUpcoming(a, today) && IsUpcoming(b, today) && !IsUpcoming(c, today)
    ensures FilterUpcoming([a, b, c], today) == [a, b]
  {
    assert [a, b, c][1..] == [b, c] && [b, c][1..] == [c] && [c][1..] == [];
    assert FilterUpcoming([c], today) == [];
    assert FilterUpcoming([b, c], today) == [b];
  }
}
