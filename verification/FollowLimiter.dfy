/**
 * The stream limiter of `src/recertia/api/event_follow.py`: counts of open follow streams per
 * tenant and overall, with release functions that may be called more than once.
 */
module FollowLimiter {
  import opened Prelude

  datatype Tenant = Tenant(id: string)

  /** One `acquire` that succeeded: whose it is and whether its release function has run. */
  datatype Slot = Slot(tenant: Tenant, released: bool)

  datatype CapExceeded = GlobalCap | TenantCap

  function OpenOf(slots: seq<Slot>, t: Tenant): nat {
    if slots == [] then 0
    else
      var s := slots[|slots| - 1];
      OpenOf(slots[..|slots| - 1], t) + if s.tenant == t && !s.released then 1 else 0
  }

  function Open(slots: seq<Slot>): nat {
    if slots == [] then 0 else Open(slots[..|slots| - 1]) + if slots[|slots| - 1].released then 0 else 1
  }

  function CountOf(m: map<Tenant, nat>, t: Tenant): nat {
    if t in m then m[t] else 0
  }

  lemma OneMore(slots: seq<Slot>, s: Slot, t: Tenant)
    ensures OpenOf(slots + [s], t) == OpenOf(slots, t) + if s.tenant == t && !s.released then 1 else 0
    ensures Open(slots + [s]) == Open(slots) + if s.released then 0 else 1
  {
    assert (slots + [s])[..|slots + [s]| - 1] == slots;
  }

  lemma {:induction false} OneReleased(slots: seq<Slot>, i: nat, t: Tenant)
    requires i < |slots| && !slots[i].released
    ensures OpenOf(slots[i := slots[i].(released := true)], t) + (if slots[i].tenant == t then 1 else 0) == OpenOf(slots, t)
    ensures Open(slots[i := slots[i].(released := true)]) + 1 == Open(slots)
  {
    var n, after := |slots| - 1, slots[i := slots[i].(released := true)];
    if i == n {
      assert after[..n] == slots[..n];
    } else {
      assert after[..n] == slots[..n][i := slots[i].(released := true)];
      OneReleased(slots[..n], i, t);
    }
  }

  class FollowLimiter {
    const tenantMax: int
    const globalMax: int
    var perTenant: map<Tenant, nat>
    var total: nat
    var slots: seq<Slot>

    /** The counters are the numbers of open slots, and no cap is passed. */
    ghost predicate Valid()
      reads this
    {
      && total == Open(slots) && (total == 0 || total <= globalMax)
      && forall t :: TenantValid(t)
    }

    ghost predicate TenantValid(t: Tenant)
      reads this
    {
      && CountOf(perTenant, t) == OpenOf(slots, t)
      && (t in perTenant ==> 0 < perTenant[t] <= tenantMax)
    }

    constructor (tenantMax: int, globalMax: int)
      ensures Valid() && slots == [] && this.tenantMax == tenantMax && this.globalMax == globalMax
    {
      this.tenantMax, this.globalMax := tenantMax, globalMax;
      perTenant, total, slots := map[], 0, [];
    }

    /** Refused exactly when a cap is reached; the global one is looked at first. */
    method Acquire(t: Tenant) returns (slot: Result<nat, CapExceeded>)
      requires Valid()
      modifies this
      ensures Valid()
      ensures slot == if old(Open(slots)) >= globalMax then Err(GlobalCap)
                      else if old(OpenOf(slots, t)) >= tenantMax then Err(TenantCap)
                      else Ok(old(|slots|))
      ensures slots == if slot.Ok? then old(slots) + [Slot(t, false)] else old(slots)
    {
      assert TenantValid(t);
      if total >= globalMax { return Err(GlobalCap); }
      if CountOf(perTenant, t) >= tenantMax { return Err(TenantCap); }
      forall u ensures OpenOf(slots + [Slot(t, false)], u) == OpenOf(slots, u) + if t == u then 1 else 0 {
        OneMore(slots, Slot(t, false), u);
      }
      OneMore(slots, Slot(t, false), t);
      ghost var was := perTenant;
      assert forall u :: (u in was ==> 0 < was[u] <= tenantMax) && CountOf(was, u) == OpenOf(slots, u) by {
        forall u ensures (u in was ==> 0 < was[u] <= tenantMax) && CountOf(was, u) == OpenOf(slots, u) {
          assert TenantValid(u);
        }
      }
      slot := Ok(|slots|);
      perTenant := perTenant[t := CountOf(perTenant, t) + 1];
      total := total + 1;
      slots := slots + [Slot(t, false)];
    }

    /** The release function of a slot: its first call frees the slot, later calls do nothing. */
    method Release(slot: nat)
      requires Valid() && slot < |slots|
      modifies this
      ensures Valid()
      ensures slots == old(slots)[slot := old(slots)[slot].(released := true)]
      ensures old(slots[slot].released) ==> perTenant == old(perTenant) && total == old(total)
    {
      if slots[slot].released {
        assert slots == slots[slot := slots[slot].(released := true)];
        return;
      }
      var t := slots[slot].tenant;
      ghost var was, before := perTenant, slots;
      forall u ensures (u in was ==> 0 < was[u] <= tenantMax) && CountOf(was, u) == OpenOf(before, u)
                    && OpenOf(before[slot := before[slot].(released := true)], u) + (if t == u then 1 else 0) == OpenOf(before, u) {
        assert TenantValid(u);
        OneReleased(before, slot, u);
      }
      OneReleased(slots, slot, t);
      var left := CountOf(perTenant, t) - 1;
      if left > 0 {
        perTenant := perTenant[t := left];
      } else {
        perTenant := perTenant - {t};
      }
      total := total - 1;
      slots := slots[slot := slots[slot].(released := true)];
    }
  }
}
