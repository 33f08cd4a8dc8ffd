/** Push delivery as the scheduler and the admin routes use it. The
    delivery function itself is not part of this model: it is a service
    that records every notification it delivers and throws for the users it
    cannot reach. */
module Push {
  import opened Wrappers
  import opened Documents

  /** The notification sent to a user. */
  datatype Payload = Payload(title: string, body: string, icon: Option<string>, url: Option<string>)

  /** One delivered notification. */
  datatype Delivery = Delivery(uid: Uid, payload: Payload)

  /** The push service: what it has delivered, and the users a delivery to
      throws for. */
  class PushService {
    var log: seq<Delivery>
    const failing: set<Uid>

    constructor (failing: set<Uid>)
      ensures log == [] && this.failing == failing
    {
      log := [];
      this.failing := failing;
    }

    /** `sendPushTo(uid, payload)`: delivers, or throws for a failing user. */
    method Send(uid: Uid, payload: Payload) returns (ok: bool)
      modifies this
      ensures ok == (uid !in failing)
      ensures log == if ok then old(log) + [Delivery(uid, payload)] else old(log)
    {
      ok := uid !in failing;
      if ok {
        log := log + [Delivery(uid, payload)];
      }
    }
  }

  /** One delivery of payload per target, in target order. */
  function Fanout(targets: seq<Uid>, payload: Payload): (ds: seq<Delivery>)
    ensures |ds| == |targets|
    ensures forall k :: 0 <= k < |ds| ==> ds[k] == Delivery(targets[k], payload)
  {
    seq(|targets|, k requires 0 <= k < |targets| => Delivery(targets[k], payload))
  }

  /** Every delivery of ds reaches its user. */
  predicate AllDelivered(ds: seq<Delivery>, failing: set<Uid>) {
    forall k :: 0 <= k < |ds| ==> ds[k].uid !in failing
  }

  /** The deliveries of ds made before the first one that throws; awaited
      sends stop there. */
  function CutAtFailure(ds: seq<Delivery>, failing: set<Uid>): (r: seq<Delivery>)
    ensures |r| <= |ds| && r == ds[..|r|]
    ensures AllDelivered(r, failing)
    ensures |r| < |ds| ==> ds[|r|].uid in failing
    decreases |ds|
  {
    if ds == [] || ds[0].uid in failing then []
    else [ds[0]] + CutAtFailure(ds[1..], failing)
  }

  /** When nothing throws, every delivery is made. */
  lemma CutAtFailureAll(ds: seq<Delivery>, failing: set<Uid>)
    ensures CutAtFailure(ds, failing) == ds <==> AllDelivered(ds, failing)
  {
    var r := CutAtFailure(ds, failing);
    if |r| < |ds| {
      assert ds[|r|].uid in failing;
    }
  }

  /** Deliveries that all succeed are followed by the deliveries made of the
      rest. */
  lemma {:induction false} CutAtFailureAfter(a: seq<Delivery>, b: seq<Delivery>, failing: set<Uid>)
    requires AllDelivered(a, failing)
    ensures CutAtFailure(a + b, failing) == a + CutAtFailure(b, failing)
    decreases |a|
  {
    if a == [] {
      assert a + b == b;
    } else {
      assert (a + b)[0] == a[0];
      assert (a + b)[1..] == a[1..] + b;
      CutAtFailureAfter(a[1..], b, failing);
    }
  }

  /** The sequential `for (const uid of targets) await sendPushTo(uid, p)`:
      the deliveries up to the first one that throws. */
  method SendEach(push: PushService, targets: seq<Uid>, payload: Payload) returns (ok: bool)
    modifies push
    ensures ok == AllDelivered(Fanout(targets, payload), push.failing)
    ensures push.log == old(push.log) + CutAtFailure(Fanout(targets, payload), push.failing)
  {
    var j := 0;
    while j < |targets|
      invariant 0 <= j <= |targets|
      invariant AllDelivered(Fanout(targets[..j], payload), push.failing)
      invariant push.log == old(push.log) + Fanout(targets[..j], payload)
    {
      ok := push.Send(targets[j], payload);
      assert targets == targets[..j] + [targets[j]] + targets[j + 1..];
      SendStep(targets[..j], targets[j], targets[j + 1..], payload, push.failing, old(push.log), push.log, ok);
      if !ok {
        return;
      }
      assert targets[..j + 1] == targets[..j] + [targets[j]];
      j := j + 1;
    }
    assert targets[..j] == targets;
    CutAtFailureAll(Fanout(targets, payload), push.failing);
    ok := true;
  }

  /** The fan-out of two target lists one after the other. */
  lemma FanoutSplit(a: seq<Uid>, b: seq<Uid>, payload: Payload)
    ensures Fanout(a + b, payload) == Fanout(a, payload) + Fanout(b, payload)
  {
    var l, r := Fanout(a + b, payload), Fanout(a, payload) + Fanout(b, payload);
    forall k | 0 <= k < |l|
      ensures l[k] == r[k]
    {
      if k < |a| {
        assert (a + b)[k] == a[k];
      } else {
        assert (a + b)[k] == b[k - |a|];
      }
    }
  }

  /** Two runs of deliveries that are all made. */
  lemma AllDeliveredConcat(a: seq<Delivery>, b: seq<Delivery>, failing: set<Uid>)
    requires AllDelivered(a, failing) && AllDelivered(b, failing)
    ensures AllDelivered(a + b, failing)
  {
  }

  /** The send to target t, after the targets before it were all
      delivered: either it is delivered too, or it throws and the log holds
      the deliveries up to it, whatever targets follow. */
  lemma SendStep(before: seq<Uid>, t: Uid, after: seq<Uid>, payload: Payload, failing: set<Uid>,
                 base: seq<Delivery>, log: seq<Delivery>, ok: bool)
    requires AllDelivered(Fanout(before, payload), failing)
    requires ok == (t !in failing)
    requires log == if ok then (base + Fanout(before, payload)) + [Delivery(t, payload)]
                    else base + Fanout(before, payload)
    ensures ok ==> AllDelivered(Fanout(before + [t], payload), failing)
    ensures ok ==> log == base + Fanout(before + [t], payload)
    ensures !ok ==> !AllDelivered(Fanout(before + [t] + after, payload), failing)
    ensures !ok ==> log == base + CutAtFailure(Fanout(before + [t] + after, payload), failing)
  {
    var done, d, rest := Fanout(before, payload), Delivery(t, payload), Fanout(after, payload);
    FanoutSplit(before, [t], payload);
    FanoutSplit(before + [t], after, payload);
    assert Fanout([t], payload) == [d];
    var all := Fanout(before + [t] + after, payload);
    assert all == done + ([d] + rest);
    if ok {
      AllDeliveredConcat(done, [d], failing);
    } else {
      CutAtFailureAfter(done, [d] + rest, failing);
      assert ([d] + rest)[0] == d;
      assert all[|done|] == d;
    }
  }
}
