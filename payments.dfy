/** Plan assignment by email (lib/payments.js). */
module Payments {
  import opened Wrappers
  import opened Documents
  import opened Store
  import Db

  /** The only way `applyPlanByEmail` fails: its entitlement put throws. */
  datatype Thrown = PutThrew

  /** The entitlement with the plan replaced: purchases and every other
      field are kept, the plan string is taken as given. */
  function WithPlan(ent: Entitlement, plan: string): (e: Entitlement)
    ensures e.plan == plan && e.purchases == ent.purchases && e.extra == ent.extra
    ensures e.(plan := ent.plan) == ent
  {
    ent.(plan := plan)
  }

  /** `applyPlanByEmail(email, plan)`. A missing address makes `safeEmail`
      throw inside the lookup's try, so it is an unknown address. An unknown
      address gives false and writes nothing; a known one gets exactly one
      entitlement write and true, or the put's exception. */
  method ApplyPlanByEmail(b: Bucket, email: Option<string>, plan: string, now: Instant)
    returns (r: Result<bool, Thrown>)
    modifies b
    ensures email.None? || Db.FindUserByEmail(old(b.objects), b.unreadable, email.value).None? ==>
              r == Ok(false) && b.objects == old(b.objects)
    ensures email.Some? && Db.FindUserByEmail(old(b.objects), b.unreadable, email.value).Some? ==>
              var uid := Db.FindUserByEmail(old(b.objects), b.unreadable, email.value).value.uid.value;
              var ent := WithPlan(Db.GetEntitlements(old(b.objects), b.unreadable, uid), plan);
              var key := Db.EntitlementsKey(uid);
              && (r == Ok(true) <==> key !in b.unwritable)
              && (r != Ok(true) ==> r == Err(PutThrew))
              && b.objects == if key in b.unwritable then old(b.objects)
                              else old(b.objects)[key := EntitlementsDoc(ent.(updatedAt := Some(now)))]
  {
    if email.None? {
      return Ok(false);
    }
    var user := Db.FindUserByEmail(b.objects, b.unreadable, email.value);
    if user.None? {
      return Ok(false);
    }
    var uid := user.value.uid.value;
    var ent := Db.GetEntitlements(b.objects, b.unreadable, uid);
    var ok := Db.SetEntitlements(b, uid, WithPlan(ent, plan), now);
    r := if ok then Ok(true) else Err(PutThrew);
  }

  /** After a plan was applied, the entitlement read back carries the new
      plan and the purchases it had before. */
  lemma AppliedPlanIsRead(objects: map<Key, Doc>, unreadable: set<Key>, uid: Uid, plan: string, now: Instant)
    requires Db.EntitlementsKey(uid) !in unreadable
    ensures var ent := Db.GetEntitlements(objects, unreadable, uid);
            var after := objects[Db.EntitlementsKey(uid) := EntitlementsDoc(WithPlan(ent, plan).(updatedAt := Some(now)))];
            && Db.GetEntitlements(after, unreadable, uid).plan == plan
            && Db.GetEntitlements(after, unreadable, uid).purchases == ent.purchases
  {
  }
}
