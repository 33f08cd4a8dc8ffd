/** The admin routes (routes/admin.js): queue a notification for the
    scheduler, send one at once, and the statistics placeholder. Both guards
    of the router run first; they are modelled in the Guards module. */
module Admin {
  import opened Wrappers
  import opened Documents
  import opened Store
  import opened Push
  import Db
  import Scheduler

  datatype Reply =
    | Done                                    // {ok: true}
    | Rejected                                // a put or a send threw: no answer
    | Counts(users: nat, playlists: nat)      // the /stats body

  /** `safeRead` of the notifications document, then `data.queue || []`: a
      document that cannot be read is `{}`, so its queue is empty and it has
      no other fields. */
  function ReadQueue(objects: map<Key, Doc>, unreadable: set<Key>): (r: (seq<Job>, Fields))
    ensures Fetch(objects, unreadable, Db.NotificationsKey).Err? ==> r == ([], map[])
    ensures forall q, x :: Fetch(objects, unreadable, Db.NotificationsKey) == Ok(NotificationsDoc(q, x)) ==> r == (q, x)
  {
    var data := Fetch(objects, unreadable, Db.NotificationsKey);
    if data.Err? then ([], map[]) else Scheduler.QueueOf(data.value)
  }

  /** The job `/push/schedule` appends: unsent, never sent, with the given
      fields and `targets` defaulting to the empty list. */
  function NewJob(id: string, when: Option<Instant>, targets: Option<seq<Uid>>, title: string, body: string,
                  icon: Option<string>, url: Option<string>): (j: Job)
    ensures !j.sent && j.sentAt.None?
    ensures j.id == id && j.when == when && j.title == title && j.body == body && j.icon == icon && j.url == url
    ensures targets.None? ==> j.targets == []
    ensures targets.Some? ==> j.targets == targets.value
  {
    Job(id, when, targets.GetOr([]), title, body, icon, url, false, None)
  }

  /** A scheduled job fires at the first tick at or after its time, and
      never when it has none; when it fires it sends its title and body once
      to each given target, in order, and to nobody when no targets were
      given. */
  lemma ScheduledJobFires(id: string, when: Option<Instant>, targets: Option<seq<Uid>>, title: string, body: string,
                          icon: Option<string>, url: Option<string>, now: Instant)
    ensures var j := NewJob(id, when, targets, title, body, icon, url);
            var ds := Scheduler.JobDeliveries(j, now);
            && (Scheduler.Due(j, now) <==> when.Some? && when.value <= now)
            && (!Scheduler.Due(j, now) ==> ds == [])
            && (Scheduler.Due(j, now) ==>
                  && |ds| == |targets.GetOr([])|
                  && forall k :: 0 <= k < |ds| ==>
                       ds[k].uid == targets.GetOr([])[k] && ds[k].payload.title == title && ds[k].payload.body == body)
  {
  }

  /** The document `/push/schedule` writes: the queue read, with the job
      pushed on its end, and every other top-level field kept. */
  function Enqueued(objects: map<Key, Doc>, unreadable: set<Key>, job: Job): Doc {
    var (queue, extra) := ReadQueue(objects, unreadable);
    NotificationsDoc(queue + [job], extra)
  }

  /** `POST /push/schedule`; the id (the clock in base 36) is given. */
  method Schedule(b: Bucket, id: string, when: Option<Instant>, targets: Option<seq<Uid>>, title: string, body: string,
                  icon: Option<string>, url: Option<string>) returns (reply: Reply)
    modifies b
    ensures var ws := [Write(Db.NotificationsKey, Enqueued(old(b.objects), b.unreadable, NewJob(id, when, targets, title, body, icon, url)))];
            b.objects == Apply(old(b.objects), b.unwritable, ws)
            && reply == (if AllWritable(b.unwritable, ws) then Done else Rejected)
  {
    var (queue, extra) := ReadQueue(b.objects, b.unreadable);
    queue := queue + [NewJob(id, when, targets, title, body, icon, url)];
    var ok := b.Put(Db.NotificationsKey, NotificationsDoc(queue, extra));
    reply := if ok then Done else Rejected;
    assert [Write(Db.NotificationsKey, NotificationsDoc(queue, extra))][1..] == [];
  }

  /** Scheduling appends exactly one job at the end: the jobs there before
      keep their places and contents, and the other top-level fields are
      kept. */
  lemma ScheduleAppends(objects: map<Key, Doc>, unreadable: set<Key>, unwritable: set<Key>, job: Job)
    requires Db.NotificationsKey !in unwritable
    ensures var (queue, extra) := ReadQueue(objects, unreadable);
            var after := Apply(objects, unwritable, [Write(Db.NotificationsKey, Enqueued(objects, unreadable, job))]);
            && Db.NotificationsKey in after
            && after[Db.NotificationsKey].NotificationsDoc?
            && |after[Db.NotificationsKey].queue| == |queue| + 1
            && after[Db.NotificationsKey].queue[..|queue|] == queue
            && after[Db.NotificationsKey].queue[|queue|] == job
            && after[Db.NotificationsKey].queueExtra == extra
  {
    var w := Write(Db.NotificationsKey, Enqueued(objects, unreadable, job));
    assert [w][1..] == [];
    var (queue, extra) := ReadQueue(objects, unreadable);
    assert (queue + [job])[..|queue|] == queue;
  }

  /** A notifications document that is missing or cannot be read is taken
      as `{}`: the queue written holds the new job alone. */
  lemma UnreadableGivesOneJob(objects: map<Key, Doc>, unreadable: set<Key>, job: Job)
    requires Db.NotificationsKey in unreadable || Db.NotificationsKey !in objects
    ensures Enqueued(objects, unreadable, job) == NotificationsDoc([job], map[])
  {
    assert Fetch(objects, unreadable, Db.NotificationsKey).Err?;
  }

  /** A scheduled job is delivered by the tick that first finds it due, to
      each of its targets after the deliveries of the jobs queued before it. */
  lemma ScheduledJobIsDelivered(queue: seq<Job>, job: Job, now: Instant)
    requires Scheduler.Due(job, now)
    ensures Scheduler.TickDeliveries(queue + [job], now)
         == Scheduler.TickDeliveries(queue, now) + Fanout(job.targets, Scheduler.JobPayload(job))
  {
    assert (queue + [job])[..|queue|] == queue;
  }

  /** `POST /push/send`: one awaited send per target in list order, with
      the payload as given; a send that throws ends the loop and the
      request goes unanswered. */
  method SendNow(push: PushService, targets: Option<seq<Uid>>, title: string, body: string,
                 icon: Option<string>, url: Option<string>) returns (reply: Reply)
    modifies push
    ensures var ds := Fanout(targets.GetOr([]), Payload(title, body, icon, url));
            push.log == old(push.log) + CutAtFailure(ds, push.failing)
            && reply == (if AllDelivered(ds, push.failing) then Done else Rejected)
  {
    var ok := SendEach(push, targets.GetOr([]), Payload(title, body, icon, url));
    reply := if ok then Done else Rejected;
  }

  /** Sending at once to targets none of which throws delivers the payload
      to each of them exactly in list order. */
  lemma SendNowReachesAll(targets: seq<Uid>, p: Payload, failing: set<Uid>)
    requires forall t :: t in targets ==> t !in failing
    ensures CutAtFailure(Fanout(targets, p), failing) == Fanout(targets, p)
    ensures forall k :: 0 <= k < |targets| ==> CutAtFailure(Fanout(targets, p), failing)[k] == Delivery(targets[k], p)
  {
    var ds := Fanout(targets, p);
    assert forall k :: 0 <= k < |ds| ==> ds[k].uid == targets[k];
    CutAtFailureAll(ds, failing);
  }

  /** `safeList(prefix)`: always the empty list. */
  function SafeList(objects: map<Key, Doc>, prefix: Key): seq<Key> { [] }

  /** `GET /stats`: whatever the bucket holds, zero users and zero
      playlists. */
  function Stats(objects: map<Key, Doc>): (r: Reply)
    ensures r == Counts(0, 0)
  {
    Counts(|SafeList(objects, "db/users/")|, |SafeList(objects, "db/users/")|)
  }
}
