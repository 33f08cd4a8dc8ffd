/** One tick of the notification scheduler (lib/scheduler.js): read the
    queue, deliver every due job to each of its targets, mark the due jobs
    sent, and write the queue back. */
module Scheduler {
  import opened Wrappers
  import opened Documents
  import opened Store
  import opened Push
  import Db

  /** The queue and the other top-level fields of the notifications
      document; another kind of document holds no queue. */
  function QueueOf(doc: Doc): (seq<Job>, Fields) {
    if doc.NotificationsDoc? then (doc.queue, doc.queueExtra) else ([], map[])
  }

  /** A job is due when it is not sent and its time parsed to an instant no
      later than now; a time that does not parse is never due. */
  predicate Due(j: Job, now: Instant) {
    !j.sent && j.when.Some? && j.when.value <= now
  }

  /** A job without a time is never due; a due job stays due at every
      later tick until it is marked sent, and once marked it is due at no
      tick. */
  lemma DueUntilSent(j: Job, now: Instant, later: Instant, sentAt: Instant)
    ensures j.when.None? ==> !Due(j, now)
    ensures Due(j, now) && now <= later ==> Due(j, later)
    ensures Due(j, now) ==> !Due(Marked(j, now, sentAt), later)
  {
  }

  /** What a job sends: no icon when it has none or an empty one, and the
      url "/" when it has none or an empty one. */
  function JobPayload(j: Job): (p: Payload)
    ensures p.title == j.title && p.body == j.body
    ensures p.icon.Some? ==> p.icon == j.icon && p.icon.value != ""
    ensures p.url.Some? && (Present(j.url) ==> p.url == j.url) && (!Present(j.url) ==> p.url == Some("/"))
  {
    Payload(j.title, j.body, if Present(j.icon) then j.icon else None, Some(if Present(j.url) then j.url.value else "/"))
  }

  /** The deliveries of a complete tick: for each due job in queue order,
      one per target in target order. */
  function TickDeliveries(queue: seq<Job>, now: Instant): seq<Delivery>
    decreases |queue|
  {
    if queue == [] then []
    else
      var j := queue[|queue| - 1];
      TickDeliveries(queue[..|queue| - 1], now) + JobDeliveries(j, now)
  }

  /** The deliveries of one job in a tick: one per target when it is due,
      none otherwise. */
  function JobDeliveries(j: Job, now: Instant): seq<Delivery> {
    if Due(j, now) then Fanout(j.targets, JobPayload(j)) else []
  }

  /** A job after the tick: a due job is sent at sentAt, any other unchanged. */
  function Marked(j: Job, now: Instant, sentAt: Instant): Job {
    if Due(j, now) then j.(sent := true, sentAt := Some(sentAt)) else j
  }

  /** The queue a complete tick writes: same length and order, the due jobs
      marked sent and every other job unchanged. */
  function AfterTick(queue: seq<Job>, now: Instant, sentAt: Instant): (r: seq<Job>)
    ensures |r| == |queue|
    ensures forall k :: 0 <= k < |r| && !Due(queue[k], now) ==> r[k] == queue[k]
    ensures forall k :: 0 <= k < |r| && Due(queue[k], now) ==>
              r[k] == queue[k].(sent := true, sentAt := Some(sentAt))
  {
    seq(|queue|, k requires 0 <= k < |queue| => Marked(queue[k], now, sentAt))
  }

  /** Deliveries of a queue split in two are those of the halves. */
  lemma {:induction false} TickDeliveriesSplit(a: seq<Job>, b: seq<Job>, now: Instant)
    ensures TickDeliveries(a + b, now) == TickDeliveries(a, now) + TickDeliveries(b, now)
    decreases |b|
  {
    if b == [] {
      assert a + b == a;
    } else {
      var b', j := b[..|b| - 1], b[|b| - 1];
      assert b == b' + [j];
      assert a + b == (a + b') + [j];
      TickDeliveriesLast(b', j, now);
      TickDeliveriesLast(a + b', j, now);
      TickDeliveriesSplit(a, b', now);
      Regroup(TickDeliveries(a + b, now), TickDeliveries(a + b', now), TickDeliveries(a, now),
              JobDeliveries(j, now), TickDeliveries(b', now));
    }
  }

  /** A job queued last adds its deliveries last. */
  lemma TickDeliveriesLast(init: seq<Job>, j: Job, now: Instant)
    ensures TickDeliveries(init + [j], now) == TickDeliveries(init, now) + JobDeliveries(j, now)
  {
    var q := init + [j];
    assert q[..|q| - 1] == init && q[|q| - 1] == j;
  }

  /** A queue with no due job delivers nothing. */
  lemma {:induction false} NothingDue(queue: seq<Job>, now: Instant)
    requires forall k :: 0 <= k < |queue| ==> !Due(queue[k], now)
    ensures TickDeliveries(queue, now) == []
    decreases |queue|
  {
    if queue != [] {
      NothingDue(queue[..|queue| - 1], now);
    }
  }

  /** After a complete tick, another tick at the same time delivers
      nothing: every job that was due is now sent. */
  lemma RerunDeliversNothing(queue: seq<Job>, now: Instant, sentAt: Instant)
    ensures TickDeliveries(AfterTick(queue, now, sentAt), now) == []
  {
    NothingDue(AfterTick(queue, now, sentAt), now);
  }

  /** Every delivery of a tick goes to a target of a due job, with that
      job's payload; and every target of every due job gets one. */
  lemma {:induction false} TickDeliversToDueTargets(queue: seq<Job>, now: Instant)
    ensures forall d :: d in TickDeliveries(queue, now) ==>
              exists k :: 0 <= k < |queue| && Due(queue[k], now) && d.uid in queue[k].targets && d.payload == JobPayload(queue[k])
    ensures forall k, t :: 0 <= k < |queue| && Due(queue[k], now) && t in queue[k].targets ==>
              Delivery(t, JobPayload(queue[k])) in TickDeliveries(queue, now)
    decreases |queue|
  {
    if queue != [] {
      var init, j := queue[..|queue| - 1], queue[|queue| - 1];
      TickDeliversToDueTargets(init, now);
      var ds := TickDeliveries(queue, now);
      forall d | d in ds
        ensures exists k :: 0 <= k < |queue| && Due(queue[k], now) && d.uid in queue[k].targets && d.payload == JobPayload(queue[k])
      {
        if d in TickDeliveries(init, now) {
          var k :| 0 <= k < |init| && Due(init[k], now) && d.uid in init[k].targets && d.payload == JobPayload(init[k]);
          assert queue[k] == init[k];
        } else {
          var f := Fanout(j.targets, JobPayload(j));
          assert d in f;
          var i :| 0 <= i < |f| && f[i] == d;
          assert queue[|queue| - 1] == j;
        }
      }
      forall k, t | 0 <= k < |queue| && Due(queue[k], now) && t in queue[k].targets
        ensures Delivery(t, JobPayload(queue[k])) in ds
      {
        if k < |init| {
          assert queue[k] == init[k];
        } else {
          var i :| 0 <= i < |j.targets| && j.targets[i] == t;
          assert Fanout(j.targets, JobPayload(j))[i] == Delivery(t, JobPayload(j));
        }
      }
    }
  }

  /** A delivery that throws ends the deliveries there. */
  lemma {:induction false} CutAtFailureStops(a: seq<Delivery>, b: seq<Delivery>, failing: set<Uid>)
    requires !AllDelivered(a, failing)
    ensures CutAtFailure(a + b, failing) == CutAtFailure(a, failing)
    decreases |a|
  {
    assert (a + b)[0] == a[0];
    if a[0].uid !in failing {
      assert (a + b)[1..] == a[1..] + b;
      CutAtFailureStops(a[1..], b, failing);
    }
  }

  /** A delivery that throws anywhere makes the whole sequence incomplete. */
  lemma FailureWithin(a: seq<Delivery>, b: seq<Delivery>, c: seq<Delivery>, failing: set<Uid>)
    requires !AllDelivered(b, failing)
    ensures !AllDelivered(a + (b + c), failing)
  {
    var k :| 0 <= k < |b| && b[k].uid in failing;
    assert (a + (b + c))[|a| + k] == b[k];
  }

  /** The deliveries of one more job of the queue. */
  lemma TickStep(queue: seq<Job>, i: int, now: Instant)
    requires 0 <= i < |queue|
    ensures TickDeliveries(queue[..i + 1], now)
         == TickDeliveries(queue[..i], now) + JobDeliveries(queue[i], now)
  {
    assert queue[..i + 1][..i] == queue[..i];
  }

  /** When a delivery to a target of the i-th job throws, after the jobs
      before it all went out, the tick has made exactly the deliveries up
      to that one, and the tick as a whole is not complete. */
  lemma TickStopsAtFailure(queue: seq<Job>, i: int, now: Instant, failing: set<Uid>)
    requires 0 <= i < |queue|
    requires AllDelivered(TickDeliveries(queue[..i], now), failing)
    requires !AllDelivered(JobDeliveries(queue[i], now), failing)
    ensures TickDeliveries(queue[..i], now) + CutAtFailure(JobDeliveries(queue[i], now), failing)
         == CutAtFailure(TickDeliveries(queue, now), failing)
    ensures !AllDelivered(TickDeliveries(queue, now), failing)
  {
    var before := TickDeliveries(queue[..i], now);
    var f := JobDeliveries(queue[i], now);
    var after := TickDeliveries(queue[i + 1..], now);
    TickThrough(queue, i, now);
    FailureInMiddle(before, f, after, failing);
  }

  /** The deliveries of a tick are those of the jobs before the i-th, then
      the i-th job's, then those of the jobs after it. */
  lemma TickThrough(queue: seq<Job>, i: int, now: Instant)
    requires 0 <= i < |queue|
    ensures TickDeliveries(queue, now)
         == TickDeliveries(queue[..i], now) + (JobDeliveries(queue[i], now) + TickDeliveries(queue[i + 1..], now))
  {
    var a, c := queue[..i + 1], queue[i + 1..];
    assert a + c == queue;
    TickDeliveriesOfParts(a, c, queue, now);
    TickStep(queue, i, now);
    Regroup(TickDeliveries(queue, now), TickDeliveries(a, now), TickDeliveries(queue[..i], now),
            TickDeliveries(c, now), JobDeliveries(queue[i], now));
  }

  /** A log that had `done` appended to base and then f, where t is done
      followed by f. */
  lemma Extended<T>(log: seq<T>, pre: seq<T>, base: seq<T>, done: seq<T>, sent: seq<T>, t: seq<T>, f: seq<T>)
    requires log == pre + sent && sent == f && pre == base + done && t == done + f
    ensures log == base + t
  {
  }

  /** Regrouping a sequence built by two appends. */
  lemma Regroup<T>(p: seq<T>, q: seq<T>, r: seq<T>, x: seq<T>, y: seq<T>)
    requires p == q + x && q == r + y
    ensures p == r + (y + x)
  {
  }

  /** TickDeliveriesSplit for a queue given as two parts. */
  lemma TickDeliveriesOfParts(a: seq<Job>, c: seq<Job>, queue: seq<Job>, now: Instant)
    requires a + c == queue
    ensures TickDeliveries(queue, now) == TickDeliveries(a, now) + TickDeliveries(c, now)
  {
    TickDeliveriesSplit(a, c, now);
  }

  /** Deliveries that all succeed, then some where one throws: the
      deliveries made are the first ones and the second ones' up to the
      throw, and the whole is incomplete. */
  lemma FailureInMiddle(a: seq<Delivery>, b: seq<Delivery>, c: seq<Delivery>, failing: set<Uid>)
    requires AllDelivered(a, failing) && !AllDelivered(b, failing)
    ensures a + CutAtFailure(b, failing) == CutAtFailure(a + (b + c), failing)
    ensures !AllDelivered(a + (b + c), failing)
  {
    CutAtFailureStops(b, c, failing);
    CutAtFailureAfter(a, b + c, failing);
    FailureWithin(a, b, c, failing);
  }

  /** One scheduler tick. A failed read, a delivery that throws, or a failed
      write ends the tick without a write: deliveries already made stay
      made, and the jobs stay unsent in storage. Otherwise exactly `{queue}`
      is written, so other top-level fields are dropped. The clock read
      for `sentAt` is one value for the whole tick. */
  method Tick(b: Bucket, push: PushService, now: Instant, sentAt: Instant)
    modifies b, push
    ensures Fetch(old(b.objects), b.unreadable, Db.NotificationsKey).Err? ==>
              b.objects == old(b.objects) && push.log == old(push.log)
    ensures Fetch(old(b.objects), b.unreadable, Db.NotificationsKey).Ok? ==>
              var (queue, _) := QueueOf(Fetch(old(b.objects), b.unreadable, Db.NotificationsKey).value);
              var ds := TickDeliveries(queue, now);
              && push.log == old(push.log) + CutAtFailure(ds, push.failing)
              && b.objects == if AllDelivered(ds, push.failing)
                              then Apply(old(b.objects), b.unwritable,
                                         [Write(Db.NotificationsKey, NotificationsDoc(AfterTick(queue, now, sentAt), map[]))])
                              else old(b.objects)
  {
    var data := Fetch(b.objects, b.unreadable, Db.NotificationsKey);
    if data.Err? {
      return;
    }
    var (queue, _) := QueueOf(data.value);
    var ok, q := DeliverDue(push, queue, now, sentAt);
    if ok {
      var _ := b.Put(Db.NotificationsKey, NotificationsDoc(q, map[]));
      assert [Write(Db.NotificationsKey, NotificationsDoc(q, map[]))][1..] == [];
    }
  }

  /** The loops of a tick: each due job in queue order is delivered to its
      targets and then marked sent in place; the first delivery that throws
      ends the loops. */
  method DeliverDue(push: PushService, queue: seq<Job>, now: Instant, sentAt: Instant) returns (ok: bool, q: seq<Job>)
    modifies push
    ensures ok == AllDelivered(TickDeliveries(queue, now), push.failing)
    ensures push.log == old(push.log) + CutAtFailure(TickDeliveries(queue, now), push.failing)
    ensures ok ==> q == AfterTick(queue, now, sentAt)
  {
    q := queue;
    var i := 0;
    while i < |queue|
      invariant 0 <= i <= |queue| && |q| == |queue|
      invariant forall k :: 0 <= k < i ==> q[k] == Marked(queue[k], now, sentAt)
      invariant forall k :: i <= k < |queue| ==> q[k] == queue[k]
      invariant AllDelivered(TickDeliveries(queue[..i], now), push.failing)
      invariant push.log == old(push.log) + TickDeliveries(queue[..i], now)
    {
      ok := DeliverJob(push, queue[i], now);
      JobStep(queue, i, now, push.failing, old(push.log), push.log, ok);
      if !ok {
        return;
      }
      q := q[i := Marked(queue[i], now, sentAt)];
      i := i + 1;
    }
    assert queue[..i] == queue;
    CutAtFailureAll(TickDeliveries(queue, now), push.failing);
    ok := true;
  }

  /** The body of the outer loop for one job: a job that is not due sends
      nothing; a due one is sent to each target in turn, and the first send
      that throws ends the loop. */
  method DeliverJob(push: PushService, n: Job, now: Instant) returns (ok: bool)
    modifies push
    ensures ok == AllDelivered(JobDeliveries(n, now), push.failing)
    ensures push.log == old(push.log) + CutAtFailure(JobDeliveries(n, now), push.failing)
  {
    if !Due(n, now) {
      assert CutAtFailure([], push.failing) == [];
      assert push.log + [] == push.log;
      return true;
    }
    ok := SendEach(push, n.targets, JobPayload(n));
  }

  /** The log after the i-th job of the queue, the jobs before it all
      delivered: when the job's sends all succeed, the deliveries of the
      jobs up to and including it; otherwise the tick's deliveries up to the
      first throw, and the tick is incomplete. */
  lemma JobStep(queue: seq<Job>, i: int, now: Instant, failing: set<Uid>, base: seq<Delivery>, log: seq<Delivery>, ok: bool)
    requires 0 <= i < |queue|
    requires AllDelivered(TickDeliveries(queue[..i], now), failing)
    requires ok == AllDelivered(JobDeliveries(queue[i], now), failing)
    requires log == (base + TickDeliveries(queue[..i], now)) + CutAtFailure(JobDeliveries(queue[i], now), failing)
    ensures ok ==> AllDelivered(TickDeliveries(queue[..i + 1], now), failing)
    ensures ok ==> log == base + TickDeliveries(queue[..i + 1], now)
    ensures !ok ==> !AllDelivered(TickDeliveries(queue, now), failing)
    ensures !ok ==> log == base + CutAtFailure(TickDeliveries(queue, now), failing)
  {
    var done := TickDeliveries(queue[..i], now);
    var f := JobDeliveries(queue[i], now);
    var sent := CutAtFailure(f, failing);
    if ok {
      TickStep(queue, i, now);
      CutAtFailureAll(f, failing);
      AllDeliveredConcat(done, f, failing);
      Extended(log, base + done, base, done, sent, TickDeliveries(queue[..i + 1], now), f);
    } else {
      TickStopsAtFailure(queue, i, now, failing);
      Extended(log, base + done, base, done, sent, CutAtFailure(TickDeliveries(queue, now), failing), sent);
    }
  }
}
