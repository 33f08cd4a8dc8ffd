/** Payment-provider webhooks (routes/webhooks.js). */
module Webhooks {
  import opened Wrappers
  import opened Documents
  import opened Store
  import Text
  import Db
  import Payments

  /** The fields of a Stripe event the handler reads: its type, the
      customer's address and the plan named in the session metadata. */
  datatype StripeEvent = StripeEvent(kind: Option<string>, email: Option<string>, plan: Option<string>)

  /** `{received: true}`, or no answer when the plan write threw. */
  datatype Reply = Received | Rejected

  const CheckoutCompleted := "checkout.session.completed"

  /** The plan a completed checkout grants: the metadata plan lower-cased,
      "premium" when it is missing or empty. */
  function PlanOf(plan: Option<string>): (p: string)
    ensures !Present(plan) ==> p == "premium"
    ensures Present(plan) ==> Text.SameIgnoringCase(p, plan.value) && p == Text.Lower(p)
  {
    Text.LowerIdempotent(plan.GetOr(""));
    Text.Lower(if Present(plan) then plan.value else "premium")
  }

  /** Plans differing only in letter case grant the same plan. */
  lemma PlanOfIgnoresCase(a: string, b: string)
    requires Text.SameIgnoringCase(a, b)
    ensures PlanOf(Some(a)) == PlanOf(Some(b))
  {
    if a == "" || b == "" {
      assert |a| == |b|;
    }
  }

  /** `POST /stripe`: only a completed checkout changes a plan; the reply is
      `{received: true}` whatever the event, unless the plan write threw. */
  method Stripe(b: Bucket, event: StripeEvent, now: Instant) returns (reply: Reply)
    modifies b
    ensures event.kind != Some(CheckoutCompleted) ==> reply == Received && b.objects == old(b.objects)
    ensures event.kind == Some(CheckoutCompleted) ==>
              var user := if event.email.None? then None
                          else Db.FindUserByEmail(old(b.objects), b.unreadable, event.email.value);
              && (user.None? ==> reply == Received && b.objects == old(b.objects))
              && (user.Some? ==>
                    var uid := user.value.uid.value;
                    var key := Db.EntitlementsKey(uid);
                    var ent := Payments.WithPlan(Db.GetEntitlements(old(b.objects), b.unreadable, uid), PlanOf(event.plan));
                    && (reply == Received <==> key !in b.unwritable)
                    && b.objects == if key in b.unwritable then old(b.objects)
                                    else old(b.objects)[key := EntitlementsDoc(ent.(updatedAt := Some(now)))])
  {
    reply := Received;
    if event.kind == Some(CheckoutCompleted) {
      var r := Payments.ApplyPlanByEmail(b, event.email, PlanOf(event.plan), now);
      if r.Err? {
        reply := Rejected;
      }
    }
  }

  /** `POST /mercadopago`, `/hotmart` and `/kiwify`: the body is ignored and
      the call acknowledged. */
  function Placeholder<Body>(body: Body): (reply: Reply)
    ensures reply == Received
  {
    Received
  }
}
