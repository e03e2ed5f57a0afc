/** Billing as it changes the store (internal/core/manager_billing.go, internal/store/wallet.go): the
    plan write put together field by field, the confirming transaction statement by statement, and
    the sweep over expired users. Each is tied to the transition system of Orders. */
module Till {
  import opened Common
  import opened Plans
  import opened Claims
  import opened Orders

  /** planWriteForDays; an unknown plan is an error. */
  method PlanWriteForDays(plans: map<Id, Plan>, u: Sub, plan: Id, extend: bool, paid: bool, days: int, devices: int,
                          trial: int, now: int)
    returns (w: Option<Write>)
    ensures w == if plan == 0 then Some(ManualWrite(u, now))
                 else if plan !in plans then None
                 else Some(WriteForDays(u, plans[plan], extend, paid, days, devices, trial, now))
  {
    if plan == 0 {
      return Some(Write.Write(0, 0, 0, false, Never, now, 0, 0, 0, u.trialUsed, 0, {}));
    }
    if plan !in plans {
      return None;
    }
    var write := WriteOfPlan(u, plans[plan], extend, paid, days, devices, trial, now);
    w := Some(write);
  }

  method WriteOfPlan(u: Sub, p: Plan, extend: bool, paid: bool, days: int, devices: int, trial: int, now: int)
    returns (w: Write)
    ensures w == WriteForDays(u, p, extend, paid, days, devices, trial, now)
  {
    var freePlan := IsFree(p) && p.id != trial;
    var term := days;
    if term < 0 {
      term := p.period;
    }
    var expire := 0;
    if !freePlan && term > 0 {
      var base := now;
      if extend && u.expireAt > now {
        base := u.expireAt;
      }
      expire := base + term * DAY;
    }
    assert expire == TermEnd(u, p, extend, if days < 0 then p.period else days, trial, now);
    hide TermEnd;
    var limit, reset, pack := p.limit, false, 0;
    var cycle, anchor := PlanCycle(p, freePlan), now;
    var extra := devices;
    if extra == KEEP {
      extra := HeldDevices(u, p);
    }
    if !SellsDevices(p) {
      extra := 0;
    }
    extra := Min(Max(extra, 0), p.deviceMax);
    assert extra == Extra(u, p, devices);
    hide Extra, HeldDevices, PlanCycle, SellsDevices, Min, Max;
    if u.plan != p.id || (paid && !freePlan && p.limit > 0) {
      reset := true;
    }
    if !reset && u.plan == p.id && u.pack > 0 && limit > 0 {
      limit := limit + u.pack;
      pack := u.pack;
    }
    assert reset == StartsOver(u, p, paid, trial);
    if u.plan == p.id && u.cycle == EveryDays(p.period) && !freePlan && p.limit > 0 && p.cycle.None? && p.period > 0 &&
       expire - now > p.period * DAY {
      cycle := EveryDays(p.period);
      if !reset && u.anchor > 0 {
        anchor := u.anchor;
      }
    }
    w := Write.Write(p.id, expire, limit, reset, cycle, anchor, p.devices + extra, extra, pack, u.trialUsed, p.speed,
                     p.groups);
  }

  class Till {
    var cfg: Settings
    var plans: map<Id, Plan>
    var subs: map<Id, Sub>
    var wallet: map<Id, int>
    var orders: map<Id, Order>

    /** The store is the world's. */
    ghost predicate Holds(w: World)
      reads this
    {
      cfg == w.cfg && plans == w.plans && subs == w.subs && wallet == w.wallet && orders == w.orders
    }

    /** credit: reports false, writing nothing, when the user is gone. */
    method Credit(user: Id, kop: int) returns (known: bool)
      modifies this`wallet
      ensures known == (user in old(wallet))
      ensures wallet == if known then old(wallet)[user := old(wallet)[user] + kop] else old(wallet)
    {
      known := user in wallet;
      if known {
        wallet := wallet[user := wallet[user] + kop];
      }
    }

    /** debit: takes the money only when the balance covers it. */
    method Debit(user: Id, kop: int) returns (ok: bool)
      modifies this`wallet
      ensures ok == (user in old(wallet) && old(wallet)[user] >= kop)
      ensures wallet == if ok then old(wallet)[user := old(wallet)[user] - kop] else old(wallet)
    {
      ok := user in wallet && wallet[user] >= kop;
      if ok {
        wallet := wallet[user := wallet[user] - kop];
      }
    }

    /** markPaidIfOpenOn: the claim, won while the order is pending or cancelled. */
    method MarkPaid(id: Id) returns (claimed: bool)
      modifies this`orders
      ensures claimed <==> id in old(orders) && old(orders)[id].status != Paid
      ensures orders == if claimed then old(orders)[id := old(orders)[id].(status := Paid)] else old(orders)
    {
      claimed := id in orders && (orders[id].status == Pending || orders[id].status == Cancelled);
      if claimed {
        orders := orders[id := orders[id].(status := Paid)];
      }
    }

    method MakeTopup(id: Id)
      requires id in orders
      modifies this`orders
      ensures orders == old(orders)[id := old(orders)[id].(kind := Topup)]
    {
      orders := orders[id := orders[id].(kind := Topup)];
    }

    /** The plan for the balance's part of the price, or nothing if the balance does not cover it. The groups
        of a user who is gone cannot be written. */
    method Deliver(user: Id, debit: int, write: Write, bonus: nat) returns (ok: bool, failed: bool)
      requires subs.Keys == wallet.Keys
      modifies this`wallet, this`subs
      ensures ok == (debit <= 0 || (user in old(wallet) && old(wallet)[user] >= debit))
      ensures failed <==> ok && user !in old(wallet) && write.groups - {0} != {}
      ensures wallet == if ok && debit > 0 then old(wallet)[user := old(wallet)[user] - debit] else old(wallet)
      ensures subs == if ok && user in old(subs) then old(subs)[user := Delivered(old(subs)[user], write, bonus)]
                      else old(subs)
    {
      ok, failed := true, false;
      if debit > 0 {
        ok := Debit(user, debit);
      }
      if ok {
        if user in subs {
          subs := subs[user := Apply(subs[user], write).(banked := Max(subs[user].banked - bonus, 0))];
        } else {
          failed := write.groups - {0} != {};
        }
      }
    }

    /** What a claimed order delivers. */
    method Settle(id: Id, spec: Spec) returns (applied: bool, failed: bool)
      requires id in orders && subs.Keys == wallet.Keys
      modifies this`wallet, this`subs, this`orders
      ensures applied == Delivers(old(wallet), old(orders)[id].user, spec)
      ensures failed <==> applied && old(orders)[id].user !in old(wallet) && spec.plan.value.groups - {0} != {}
      ensures wallet == WalletAfter(old(wallet), old(orders)[id].user, spec)
      ensures subs == SubsAfter(old(subs), old(wallet), old(orders)[id].user, spec)
      ensures orders == old(orders)[id := old(orders)[id].(kind :=
        if spec.asTopup || (spec.plan.Some? && !applied) then Topup else old(orders)[id].kind)]
    {
      hide Delivered;
      applied, failed := false, false;
      var user := orders[id].user;
      if spec.credit > 0 {
        var known := Credit(user, spec.credit);
      }
      if spec.asTopup {
        MakeTopup(id);
      }
      if spec.plan.Some? {
        applied, failed := Deliver(user, spec.debit, spec.plan.value, spec.bonus);
        if !applied {
          MakeTopup(id);
        }
      }
    }

    /** rewardReferrer, after the order is settled; it fails if it has to look for a user who is gone. */
    method Reward(id: Id, o: Order, spec: Spec, applied: bool) returns (failed: bool)
      requires subs.Keys == wallet.Keys
      modifies this`wallet, this`subs
      ensures failed <==> Earns(o, spec, applied) && o.user !in old(wallet)
      ensures var g := Earned(old(subs), orders, plans, id, o, spec, applied);
        wallet == RewardedWallet(old(wallet), g) && subs == RewardedSubs(old(subs), plans, g, spec.now)
    {
      failed := false;
      if !Earns(o, spec, applied) {
        return;
      }
      if o.user !in subs {
        return true;
      }
      var referrer := subs[o.user].referrer;
      if referrer == 0 || referrer == o.user {
        return;
      }
      if spec.ref.firstOnly && PaidBefore(orders, id, o.user, spec.ref.mode) {
        return;
      }
      hide PaidBefore, Earns;
      if spec.ref.mode == ByPercent {
        var kop := o.amount * spec.ref.percent;
        if kop > 0 {
          var known := Credit(referrer, kop);
        }
      } else if spec.ref.days > 0 && referrer in subs {
        var u := subs[referrer];
        if OnTerm(plans, u, spec.now) {
          subs := subs[referrer := u.(expireAt := u.expireAt + spec.ref.days * DAY)];
        } else if !Lifetime(plans, u) {
          subs := subs[referrer := u.(banked := u.banked + spec.ref.days)];
        }
      }
    }

    /** ConfirmOrder: all of it, or, if any of it fails, nothing. */
    method ConfirmOrder(id: Id, spec: Spec, ghost w: World, ghost h: Holder)
      returns (failed: bool, claimed: bool, applied: bool)
      requires Holds(w) && h.id == id && h.spec == spec && w.subs.Keys == w.wallet.Keys
      modifies this
      ensures Holds(Claimed(w, h))
      ensures claimed <==> GoesThrough(w, h)
      ensures failed <==> id in w.orders && w.orders[id].status != Paid && !GoesThrough(w, h)
      ensures applied <==> claimed && Delivers(old(wallet), old(orders)[id].user, spec)
    {
      if id in w.orders && w.orders[id].status != Paid { ClaimedIs(w, h); } else { ClaimedIsNothing(w, h); }
      hide Delivers, WalletAfter, SubsAfter, Earned, RewardedWallet, RewardedSubs, Earns, OrderAfter, Claimed;
      hide GoesThrough;
      failed, applied := false, false;
      var subs0, wallet0, orders0 := subs, wallet, orders;
      claimed := MarkPaid(id);
      if claimed {
        applied, failed := SettleAndReward(id, orders0[id], spec);
        SettledOrder(w.orders[id], w.wallet, spec);
        assert orders == w.orders[id := OrderAfter(w.orders[id], w.wallet, spec)];
        if failed {
          subs, wallet, orders := subs0, wallet0, orders0;
          claimed, applied := false, false;
        }
      }
    }

    method SettleAndReward(id: Id, o: Order, spec: Spec) returns (applied: bool, failed: bool)
      requires id in orders && subs.Keys == wallet.Keys && o.user == orders[id].user
      modifies this`wallet, this`subs, this`orders
      ensures applied == Delivers(old(wallet), o.user, spec) && (applied ==> spec.plan.Some?)
      ensures failed <==>
        o.user !in old(wallet) && (Earns(o, spec, applied) || (applied && spec.plan.value.groups - {0} != {}))
      ensures orders == old(orders)[id := old(orders)[id].(kind :=
        if spec.asTopup || (spec.plan.Some? && !applied) then Topup else old(orders)[id].kind)]
      ensures !failed ==> var settled := SubsAfter(old(subs), old(wallet), o.user, spec);
        var g := Earned(settled, orders, plans, id, o, spec, applied);
        subs == RewardedSubs(settled, plans, g, spec.now) &&
        wallet == RewardedWallet(WalletAfter(old(wallet), o.user, spec), g)
    {
      assert Delivers(wallet, o.user, spec) ==> spec.plan.Some?;
      hide Delivers, WalletAfter, SubsAfter, Earned, RewardedWallet, RewardedSubs, Earns;
      SettlingKeepsUsers(subs, wallet, o.user, spec);
      applied, failed := Settle(id, spec);
      if !failed {
        failed := Reward(id, o, spec, applied);
      }
    }

    /** confirmOrderPaid, holding the plan lock throughout: the order's money is decided on and claimed.
        An error decides nothing and claims nothing. */
    method ConfirmOrderPaid(thread: int, id: Id, order: Order, codeUsed: bool, c: Clock, ghost w: World)
      returns (error: bool, claimed: bool, ghost mid: World, ghost w': World)
      requires Holds(w) && w.lock.None? && thread in w.jobs && w.jobs[thread] == (id, order)
      requires c.t0 <= c.t1 && w.now <= c.t1 <= c.t2 <= c.t3 <= c.t4 && w.subs.Keys == w.wallet.Keys
      modifies this
      ensures Holds(w')
      ensures Goes(w, Decide(thread, codeUsed, c), mid)
      ensures mid.lock.None? ==> error && !claimed && w' == mid && w'.orders == w.orders
      ensures mid.lock.Some? ==> Goes(mid, Claim, w') && (error ==> !claimed && w' == mid.(lock := None))
      ensures claimed ==> id in w.orders && w.orders[id].status != Paid && w'.orders[id].status == Paid
    {
      error, claimed := false, false;
      var u := if order.user in subs then Some(subs[order.user]) else None;
      var spec := Decision(cfg, plans, u, order, codeUsed, c);
      mid := Next(w, Decide(thread, codeUsed, c));
      w' := mid;
      if spec.None? {
        error := true;
        return;
      }
      hide Decision, Delivers, WalletAfter, SubsAfter, RewardOf, RollsBack;
      w' := Next(mid, Claim);
      var applied;
      error, claimed, applied := ConfirmOrder(id, spec.value, mid, mid.lock.value);
    }

    /** downgradeExpired */
    method DowngradeExpired(user: Id, tick: int, now: int)
      requires cfg.free in plans
      modifies this`subs
      ensures forall w :: old(Holds(w)) && w.now == now ==> subs == Downgraded(w, user, tick).subs
      ensures subs.Keys == old(subs).Keys && forall u :: u in subs && u != user ==> subs[u] == old(subs)[u]
      ensures user in subs ==> var u := old(subs)[user];
        subs[user] ==
          if u.plan == cfg.free || u.expireAt == 0 || u.expireAt > tick then u
          else MovedTo(u, plans[cfg.free], cfg, now)
    {
      if user in subs {
        var u := subs[user];
        if u.plan == cfg.free || u.expireAt == 0 || u.expireAt > tick {
          return;
        }
        var write := WriteOfPlan(u, plans[cfg.free], false, false, -1, KEEP, cfg.trial, now);
        subs := subs[user := Apply(u, write)];
      }
    }

    /** The downgrading part of EnforceBilling: every user the tick found expired on another plan is
        moved to the free one, and nobody else is touched. */
    method EnforceBilling(tick: int, now: int)
      modifies this`subs
      ensures subs.Keys == old(subs).Keys
      ensures cfg.free !in plans ==> subs == old(subs)
      ensures cfg.free in plans ==> forall u :: u in subs ==>
        subs[u] == AfterSweep(old(subs)[u], plans[cfg.free], cfg, tick, now)
      ensures cfg.free in plans && plans[cfg.free].id == cfg.free ==> forall u :: u in subs ==>
        var was := old(subs)[u];
        if was.plan != 0 && was.plan != cfg.free && 0 < was.expireAt <= tick then
          subs[u].plan == cfg.free && subs[u].used == 0 && subs[u].limit == plans[cfg.free].limit &&
          (plans[cfg.free].price <= 0 && cfg.free != cfg.trial ==> subs[u].expireAt == 0)
        else subs[u] == was
    {
      if cfg.free !in plans {
        return;
      }
      hide MovedTo;
      var todo := set u | u in subs && Ended(subs[u], tick);
      while todo != {}
        invariant todo <= subs.Keys && subs.Keys == old(subs).Keys
        invariant forall u :: u in todo ==> subs[u] == old(subs)[u] && Ended(subs[u], tick)
        invariant forall u :: u in subs && u !in todo ==>
          subs[u] == AfterSweep(old(subs)[u], plans[cfg.free], cfg, tick, now)
        decreases |todo|
      {
        ghost var some := Witness(todo);
        var u :| u in todo;
        todo := todo - {u};
        if subs[u].plan == cfg.free {
          continue;
        }
        DowngradeExpired(u, tick, now);
      }
      if plans[cfg.free].id == cfg.free {
        forall u | u in subs && old(subs)[u].plan != cfg.free {
          MovedToFree(old(subs)[u], plans[cfg.free], cfg, now);
        }
      }
    }
  }

  /** On the free plan the counter starts over, and there is no end. */
  lemma MovedToFree(u: Sub, free: Plan, cfg: Settings, now: int)
    requires u.plan != free.id
    ensures var after := MovedTo(u, free, cfg, now);
      after.plan == free.id && after.used == 0 && after.limit == free.limit &&
      (free.price <= 0 && free.id != cfg.trial ==> after.expireAt == 0)
  {
  }

  lemma ClaimedIsNothing(w: World, h: Holder)
    requires h.id !in w.orders || w.orders[h.id].status == Paid
    ensures Claimed(w, h) == w.(lock := None) && !GoesThrough(w, h)
  {
  }

  /** The claim of the transition system, taken apart as the transaction carries it out. */
  lemma ClaimedIs(w: World, h: Holder)
    requires h.id in w.orders && w.orders[h.id].status != Paid
    ensures var o, spec := w.orders[h.id], h.spec; var v, applied := Claimed(w, h), Delivers(w.wallet, o.user, spec);
      (applied ==> spec.plan.Some?) &&
      (GoesThrough(w, h) <==>
        o.user in w.wallet || !(Earns(o, spec, applied) || (applied && spec.plan.value.groups - {0} != {}))) &&
      v.cfg == w.cfg && v.plans == w.plans &&
      if GoesThrough(w, h) then
        var subs, orders := SubsAfter(w.subs, w.wallet, o.user, spec), w.orders[h.id := OrderAfter(o, w.wallet, spec)];
        var g := Earned(subs, orders, w.plans, h.id, o, spec, applied);
        v.orders == orders && v.subs == RewardedSubs(subs, w.plans, g, spec.now) &&
        v.wallet == RewardedWallet(WalletAfter(w.wallet, o.user, spec), g)
      else v == w.(lock := None)
  {
    hide WalletAfter, SubsAfter, Earned, RewardedWallet, RewardedSubs, Earns, OrderAfter, Booked;
  }

  lemma SettledOrder(o: Order, wallet: map<Id, int>, spec: Spec)
    ensures OrderAfter(o, wallet, spec) == o.(status := Paid,
      kind := if spec.asTopup || (spec.plan.Some? && !Delivers(wallet, o.user, spec)) then Topup else o.kind)
  {
  }

  lemma SettlingKeepsUsers(subs: map<Id, Sub>, wallet: map<Id, int>, user: Id, spec: Spec)
    ensures SubsAfter(subs, wallet, user, spec).Keys == subs.Keys
    ensures WalletAfter(wallet, user, spec).Keys == wallet.Keys
  {
    hide Delivered;
  }

  /** UsersWithExpiredPlan */
  predicate Ended(u: Sub, tick: int) {
    u.plan != 0 && 0 < u.expireAt <= tick
  }

  function MovedTo(u: Sub, free: Plan, cfg: Settings, now: int): Sub {
    Apply(u, WriteForDays(u, free, false, false, -1, KEEP, cfg.trial, now))
  }

  /** What an expiry sweep leaves of a user. */
  function AfterSweep(u: Sub, free: Plan, cfg: Settings, tick: int, now: int): Sub {
    if Ended(u, tick) && u.plan != cfg.free then MovedTo(u, free, cfg, now) else u
  }
}
