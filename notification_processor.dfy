/**
 * The notification outbox processor: one pass takes up to ten PENDING
 * notifications with fewer than three retries, oldest first, tries to
 * deliver each one and records the outcome.
 *
 * Delivery succeeds for EMAIL, for SLACK when the webhook post
 * succeeds (an input here), and never for another channel. A delivered
 * notification becomes SENT. A failed one has its retry count raised, becomes
 * FAILED at three, and gets an attempt row. If saving that outcome throws, the
 * exception handler raises the retry count once more and saves again; if that
 * save throws too, the pass ends with the earlier items saved.
 */
module NotificationProcessor {
  import opened Common
  import opened Entities
  import opened Store
  import opened Queries

  const MAX_RETRIES: int := 3
  const BATCH_SIZE: nat := 10
  const CHANNEL_SLACK: string := "SLACK"
  const CHANNEL_EMAIL: string := "EMAIL"
  const FAILURE_MESSAGE: string := "Failed to send notification"

  /** The inputs of one pass: the webhook's verdict per notification, the
      clock reading per item, and whether each item's first and second save succeed. */
  datatype PassEnv = PassEnv(
    slackOk: Notification -> bool,
    nowOf: nat -> Instant,
    firstSaveOk: nat -> bool,
    retrySaveOk: nat -> bool)

  /** The two tables a pass writes. */
  datatype Outbox = Outbox(notifications: seq<Notification>, attempts: seq<NotificationAttempt>)

  /** The filter of the pending query. */
  predicate Qualifies(n: Notification) {
    n.status == NOTIFICATION_PENDING && n.retryCount < MAX_RETRIES
  }

  function Range(n: nat): (r: seq<nat>)
    ensures |r| == n && forall k :: 0 <= k < n ==> r[k] == k
  {
    seq(n, k => k)
  }

  /** Whether position `j` holds a qualifying notification. */
  predicate QualifiesAt(notifs: seq<Notification>, j: nat) {
    j < |notifs| && Qualifies(notifs[j])
  }

  /** The ordering key of position `j`. */
  function CreatedAtOf(notifs: seq<Notification>, j: nat): int {
    if j < |notifs| then notifs[j].createdAt else 0
  }

  /** The positions of the qualifying notifications, in table order. */
  function Candidates(notifs: seq<Notification>): (c: seq<nat>)
    ensures Distinct(c)
    ensures forall j :: j in c <==> QualifiesAt(notifs, j)
  {
    FilterDistinct(Range(|notifs|), j => QualifiesAt(notifs, j));
    var c := Filter(Range(|notifs|), j => QualifiesAt(notifs, j));
    forall j: nat | QualifiesAt(notifs, j)
      ensures j in Range(|notifs|)
    {
      assert Range(|notifs|)[j] == j;
    }
    c
  }

  /** The positions of the pending query's rows: qualifying notifications,
      ordered by creation time, at most ten. */
  function Batch(notifs: seq<Notification>): (b: seq<nat>)
    ensures |b| <= BATCH_SIZE
    ensures forall k :: 0 <= k < |b| ==> b[k] < |notifs| && Qualifies(notifs[b[k]])
    ensures Distinct(b)
    ensures forall i, j :: 0 <= i < j < |b| ==> notifs[b[i]].createdAt <= notifs[b[j]].createdAt
  {
    var candidates := Candidates(notifs);
    TopByDistinct(candidates, j => CreatedAtOf(notifs, j), BATCH_SIZE);
    var b := TopBy(candidates, j => CreatedAtOf(notifs, j), BATCH_SIZE);
    assert forall k :: 0 <= k < |b| ==> b[k] in candidates;
    b
  }

  /** A qualifying notification is left out of the batch only when the batch
      is full of notifications created no later than it. */
  lemma BatchTakesOldest(notifs: seq<Notification>, j: nat)
    requires j < |notifs| && Qualifies(notifs[j]) && j !in Batch(notifs)
    ensures |Batch(notifs)| == BATCH_SIZE
    ensures forall p :: p in Batch(notifs) ==> notifs[p].createdAt <= notifs[j].createdAt
  {
    assert QualifiesAt(notifs, j);
    TopByLeavesOutLargest(Candidates(notifs), i => CreatedAtOf(notifs, i), BATCH_SIZE, j);
  }

  /** `SendNotificationAsync`: the channel decides; an unknown channel fails. */
  function Sent(n: Notification, slackOk: Notification -> bool): (sent: bool)
    ensures n.channel == CHANNEL_EMAIL ==> sent
    ensures n.channel == CHANNEL_SLACK ==> sent == slackOk(n)
    ensures n.channel != CHANNEL_EMAIL && n.channel != CHANNEL_SLACK ==> !sent
  {
    if n.channel == CHANNEL_SLACK then slackOk(n) else n.channel == CHANNEL_EMAIL
  }

  /** One more retry: the count goes up and reaching the limit makes it FAILED. */
  function Bump(n: Notification): (m: Notification)
    ensures m.retryCount == n.retryCount + 1
    ensures m.status == (if m.retryCount >= MAX_RETRIES then NOTIFICATION_FAILED else n.status)
    ensures m == n.(retryCount := m.retryCount, status := m.status)
  {
    var m := n.(retryCount := n.retryCount + 1);
    if m.retryCount >= MAX_RETRIES then m.(status := NOTIFICATION_FAILED) else m
  }

  /** The row after the delivery attempt of item `k`, before any save. */
  function Delivered(n: Notification, sent: bool, now: Instant): Notification {
    if sent then n.(status := NOTIFICATION_SENT, processedAt := Some(now)) else Bump(n)
  }

  /** The attempt rows item `k` adds: one for a failed delivery, numbered by the new retry count. */
  function AttemptRows(n: Notification, sent: bool, now: Instant): seq<NotificationAttempt> {
    if sent then [] else [NotificationAttempt(n.id, Bump(n).retryCount, Some(FAILURE_MESSAGE), now)]
  }

  /** Item `k` of a pass, on the notification at position `p`; `None` when both
      saves throw and the pass ends. */
  function Step(o: Outbox, p: nat, k: nat, env: PassEnv): (r: Option<Outbox>)
    requires p < |o.notifications|
    ensures r.Some? ==> |r.value.notifications| == |o.notifications|
    ensures r.Some? ==> forall j :: 0 <= j < |o.notifications| && j != p ==>
      r.value.notifications[j] == o.notifications[j]
    ensures r.Some? ==> r.value.attempts == o.attempts + AttemptRows(o.notifications[p], Sent(o.notifications[p],
                                                                       env.slackOk), env.nowOf(k))
    ensures r.None? <==> !env.firstSaveOk(k) && !env.retrySaveOk(k)
  {
    var n := o.notifications[p];
    var sent := Sent(n, env.slackOk);
    var n1 := Delivered(n, sent, env.nowOf(k));
    var rows := AttemptRows(n, sent, env.nowOf(k));
    if env.firstSaveOk(k) then Some(Outbox(o.notifications[p := n1], o.attempts + rows))
    else if env.retrySaveOk(k) then Some(Outbox(o.notifications[p := Bump(n1)], o.attempts + rows))
    else None
  }

  /** A delivered notification whose save succeeds is SENT at the item's time,
      with its retry count unchanged and no attempt row. */
  lemma DeliveredIsSent(o: Outbox, p: nat, k: nat, env: PassEnv)
    requires p < |o.notifications| && Sent(o.notifications[p], env.slackOk) && env.firstSaveOk(k)
    ensures var m := Step(o, p, k, env).value.notifications[p];
      && m.status == NOTIFICATION_SENT && m.processedAt == Some(env.nowOf(k))
      && m.retryCount == o.notifications[p].retryCount
    ensures Step(o, p, k, env).value.attempts == o.attempts
  {
  }

  /** A failed delivery whose save succeeds raises the retry count by one,
      makes a pending notification FAILED exactly when the count reaches three,
      and logs that attempt. */
  lemma FailureIsCounted(o: Outbox, p: nat, k: nat, env: PassEnv)
    requires p < |o.notifications| && Qualifies(o.notifications[p])
    requires !Sent(o.notifications[p], env.slackOk) && env.firstSaveOk(k)
    ensures var n := o.notifications[p];
      var m := Step(o, p, k, env).value.notifications[p];
      && m.retryCount == n.retryCount + 1
      && (m.status == NOTIFICATION_FAILED <==> m.retryCount == MAX_RETRIES)
      && (m.status != NOTIFICATION_FAILED ==> m.status == NOTIFICATION_PENDING)
      && Step(o, p, k, env).value.attempts
           == o.attempts + [NotificationAttempt(n.id, m.retryCount, Some(FAILURE_MESSAGE), env.nowOf(k))]
  {
  }

  /** When the first save throws, the handler counts one more retry on top of
      the attempt's own effect, so a delivered notification can end FAILED and
      an undelivered one gains two retries. */
  lemma SaveFailureCountsTwice(o: Outbox, p: nat, k: nat, env: PassEnv)
    requires p < |o.notifications| && !env.firstSaveOk(k) && env.retrySaveOk(k)
    ensures var n := o.notifications[p];
      var m := Step(o, p, k, env).value.notifications[p];
      m.retryCount == n.retryCount + (if Sent(n, env.slackOk) then 1 else 2)
  {
  }

  /** A pending email with two retries whose first save throws ends FAILED
      although it was delivered; an undelivered one ends with four retries. */
  lemma RetryCountCanReachFour(n: Notification, env: PassEnv)
    requires Qualifies(n) && n.retryCount == 2 && !env.firstSaveOk(0) && env.retrySaveOk(0)
    ensures n.channel == CHANNEL_EMAIL ==>
      Step(Outbox([n], []), 0, 0, env).value.notifications[0].status == NOTIFICATION_FAILED
    ensures n.channel != CHANNEL_EMAIL && n.channel != CHANNEL_SLACK ==>
      Step(Outbox([n], []), 0, 0, env).value.notifications[0].retryCount == 4
  {
  }

  /** Items `k..` of a pass over the positions `batch`; the flag says whether
      the pass ran to the end. */
  function Process(o: Outbox, batch: seq<nat>, k: nat, env: PassEnv): (r: (Outbox, bool))
    requires k <= |batch| && forall j :: 0 <= j < |batch| ==> batch[j] < |o.notifications|
    ensures |r.0.notifications| == |o.notifications|
    ensures r.1 <==> forall j :: k <= j < |batch| ==> env.firstSaveOk(j) || env.retrySaveOk(j)
    decreases |batch| - k
  {
    if k == |batch| then (o, true)
    else
      match Step(o, batch[k], k, env)
      case None => (o, false)
      case Some(o') => Process(o', batch, k + 1, env)
  }

  /** A stored notification is consistent: retries between zero and four, FAILED
      only at three or more, SENT only with a processing time. */
  predicate Consistent(n: Notification) {
    && 0 <= n.retryCount <= MAX_RETRIES + 1
    && (n.status == NOTIFICATION_FAILED ==> n.retryCount >= MAX_RETRIES)
    && (n.status == NOTIFICATION_SENT ==> n.processedAt.Some?)
  }

  /** Every notification of the table is consistent. */
  predicate AllConsistent(notifs: seq<Notification>) {
    forall j :: 0 <= j < |notifs| ==> Consistent(notifs[j])
  }

  /** A pass changes no notification outside the batch and only appends
      attempt rows. */
  lemma {:induction false} ProcessFrame(o: Outbox, batch: seq<nat>, k: nat, env: PassEnv)
    requires k <= |batch| && forall j :: 0 <= j < |batch| ==> batch[j] < |o.notifications|
    ensures var r := Process(o, batch, k, env).0;
      && (forall j :: 0 <= j < |o.notifications| && j !in batch[k..] ==> r.notifications[j] == o.notifications[j])
      && |o.attempts| <= |r.attempts| && r.attempts[..|o.attempts|] == o.attempts
    decreases |batch| - k
  {
    if k < |batch| {
      var s := Step(o, batch[k], k, env);
      if s.Some? {
        ProcessFrame(s.value, batch, k + 1, env);
        assert forall j :: j in batch[k + 1..] ==> j in batch[k..];
        var r := Process(o, batch, k, env).0;
        assert r.attempts[..|s.value.attempts|] == s.value.attempts;
        assert s.value.attempts[..|o.attempts|] == o.attempts;
      }
    }
  }

  /** The row a step writes is consistent when the row it started from was a
      consistent pending one. */
  lemma StepKeepsConsistent(o: Outbox, p: nat, k: nat, env: PassEnv)
    requires p < |o.notifications| && Qualifies(o.notifications[p]) && Consistent(o.notifications[p])
    requires Step(o, p, k, env).Some?
    ensures Consistent(Step(o, p, k, env).value.notifications[p])
  {
  }

  /** A pass over distinct qualifying positions keeps every notification consistent. */
  lemma {:induction false} ProcessKeepsConsistent(o: Outbox, batch: seq<nat>, k: nat, env: PassEnv)
    requires k <= |batch| && forall j :: 0 <= j < |batch| ==> batch[j] < |o.notifications|
    requires Distinct(batch)
    requires forall j :: k <= j < |batch| ==> Qualifies(o.notifications[batch[j]])
    requires AllConsistent(o.notifications)
    ensures AllConsistent(Process(o, batch, k, env).0.notifications)
    decreases |batch| - k
  {
    if k < |batch| {
      var s := Step(o, batch[k], k, env);
      if s.Some? {
        var p := batch[k];
        assert forall j :: k < j < |batch| ==> batch[j] != p;
        StepKeepsConsistent(o, p, k, env);
        assert forall j :: k < j < |batch| ==> s.value.notifications[batch[j]] == o.notifications[batch[j]];
        assert AllConsistent(s.value.notifications);
        ProcessKeepsConsistent(s.value, batch, k + 1, env);
        assert Process(o, batch, k, env).0 == Process(s.value, batch, k + 1, env).0;
      } else {
        assert Process(o, batch, k, env) == (o, false);
      }
    }
  }

  /** A whole pass over the pending batch keeps the table consistent. */
  lemma PassKeepsConsistent(notifs: seq<Notification>, attempts: seq<NotificationAttempt>, env: PassEnv)
    requires AllConsistent(notifs)
    ensures AllConsistent(Process(Outbox(notifs, attempts), Batch(notifs), 0, env).0.notifications)
  {
    ProcessKeepsConsistent(Outbox(notifs, attempts), Batch(notifs), 0, env);
  }

  /** Without a failing save no retry count passes three. */
  lemma {:induction false} SavedPassCapsRetries(o: Outbox, batch: seq<nat>, k: nat, env: PassEnv)
    requires k <= |batch| && forall j :: 0 <= j < |batch| ==> batch[j] < |o.notifications|
    requires Distinct(batch)
    requires forall j :: k <= j < |batch| ==> Qualifies(o.notifications[batch[j]]) && env.firstSaveOk(j)
    requires forall j :: 0 <= j < |o.notifications| ==> o.notifications[j].retryCount <= MAX_RETRIES
    ensures Process(o, batch, k, env).1
    ensures var r := Process(o, batch, k, env).0;
      forall j :: 0 <= j < |r.notifications| ==> r.notifications[j].retryCount <= MAX_RETRIES
    decreases |batch| - k
  {
    if k < |batch| {
      var s := Step(o, batch[k], k, env);
      var p := batch[k];
      assert forall j :: k < j < |batch| ==> batch[j] != p;
      SavedPassCapsRetries(s.value, batch, k + 1, env);
    }
  }

  /** The body of the pass's loop for the notification at position `p`: the
      delivery, the retry bookkeeping, the save and the handler's second save.
      False when both saves throw; then nothing of this item is stored. */
  method ProcessItem(db: Database, p: nat, k: nat, env: PassEnv) returns (saved: bool)
    requires p < |db.notifications|
    modifies db
    ensures var spec := Step(Outbox(old(db.notifications), old(db.attempts)), p, k, env);
      && saved == spec.Some?
      && (saved ==> Outbox(db.notifications, db.attempts) == spec.value)
      && (!saved ==> db.notifications == old(db.notifications) && db.attempts == old(db.attempts))
    ensures db.domains == old(db.domains) && db.checks == old(db.checks) && db.probeRuns == old(db.probeRuns)
    ensures db.incidents == old(db.incidents) && db.groups == old(db.groups)
  {
    var tracked := db.notifications;
    var added: seq<NotificationAttempt> := [];
    var n := tracked[p];
    var success := Sent(n, env.slackOk);
    if success {
      n := n.(status := NOTIFICATION_SENT, processedAt := Some(env.nowOf(k)));
    } else {
      n := n.(retryCount := n.retryCount + 1);
      if n.retryCount >= MAX_RETRIES {
        n := n.(status := NOTIFICATION_FAILED);
      }
      added := added + [NotificationAttempt(n.id, n.retryCount, Some(FAILURE_MESSAGE), env.nowOf(k))];
    }
    assert n == Delivered(tracked[p], success, env.nowOf(k));
    assert added == AttemptRows(tracked[p], success, env.nowOf(k));
    ghost var delivered := n;
    if env.firstSaveOk(k) {
      tracked := tracked[p := n];
      db.notifications, db.attempts := tracked, db.attempts + added;
      return true;
    }
    n := n.(retryCount := n.retryCount + 1);
    if n.retryCount >= MAX_RETRIES {
      n := n.(status := NOTIFICATION_FAILED);
    }
    assert n == Bump(delivered);
    tracked := tracked[p := n];
    if !env.retrySaveOk(k) {
      return false;
    }
    db.notifications, db.attempts := tracked, db.attempts + added;
    return true;
  }

  /** `ProcessPendingNotificationsAsync`: one pass over the batch;
      false when the pass ended early. */
  method ProcessPendingNotifications(db: Database, env: PassEnv) returns (completed: bool)
    modifies db
    ensures (Outbox(db.notifications, db.attempts), completed)
         == Process(Outbox(old(db.notifications), old(db.attempts)), Batch(old(db.notifications)), 0, env)
    ensures db.domains == old(db.domains) && db.checks == old(db.checks) && db.probeRuns == old(db.probeRuns)
    ensures db.incidents == old(db.incidents) && db.groups == old(db.groups)
  {
    var batch := Batch(db.notifications);
    ghost var whole := Process(Outbox(db.notifications, db.attempts), batch, 0, env);
    for k := 0 to |batch|
      invariant |db.notifications| == |old(db.notifications)|
      invariant Process(Outbox(db.notifications, db.attempts), batch, k, env) == whole
      invariant db.domains == old(db.domains) && db.checks == old(db.checks) && db.probeRuns == old(db.probeRuns)
      invariant db.incidents == old(db.incidents) && db.groups == old(db.groups)
    {
      var saved := ProcessItem(db, batch[k], k, env);
      if !saved {
        return false;
      }
    }
    return true;
  }
}
