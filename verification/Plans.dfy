/** What a plan writes onto a user (internal/core/manager_billing.go, internal/store/billing.go):
    term, quota, refill cycle and devices, and who counts as a paying subscriber. */
module Plans {
  import opened Common

  const DAY := 86400

  /** users.reset_period */
  datatype Cycle = Never | Named(name: string) | EveryDays(n: int)

  /** A tariff plan; cycle None means the derived default. `groups` are the access groups it grants. */
  datatype Plan = Plan(id: int, price: int, period: int, limit: int, cycle: Option<string>, devices: int,
                       devicePrice: int, deviceMax: int, speed: int, groups: set<int>)

  /** The columns of a user a plan decides, the counter its quota is measured by, who invited them, the
      referral days they have in the bank, and the groups they are in by hand. `speed` is the cap sold,
      whichever of its two columns holds it. */
  datatype Sub = Sub(plan: int, expireAt: int, limit: int, used: int, cycle: Cycle, anchor: int, devices: int,
                     extra: int, pack: int, trialUsed: bool, speed: int, groups: set<int>, byHand: set<int>,
                     referrer: int, banked: nat)

  /** UserPlanWrite */
  datatype Write = Write(plan: int, expireAt: int, limit: int, resetUsage: bool, cycle: Cycle, anchor: int,
                         devices: int, extra: int, pack: int, trialUsed: bool, speed: int, groups: set<int>)

  /** KeepDevices */
  const KEEP := -1

  predicate IsFree(p: Plan) {
    p.price <= 0
  }

  predicate SellsDevices(p: Plan) {
    p.devicePrice > 0 && p.deviceMax > 0 && p.devices > 0 && p.period > 0
  }

  function HeldDevices(u: Sub, p: Plan): int {
    if u.plan != p.id || !SellsDevices(p) then 0 else Min(u.extra, p.deviceMax)
  }

  /** planResetPeriod */
  function PlanCycle(p: Plan, freeReset: bool): Cycle {
    if p.limit <= 0 then Never
    else if p.cycle.Some? then Named(p.cycle.value)
    else if freeReset && p.period > 0 then EveryDays(p.period)
    else Never
  }

  /** The trial template costs nothing and still expires, so it is not free here. */
  predicate Unending(p: Plan, trial: int) {
    IsFree(p) && p.id != trial
  }

  function TermEnd(u: Sub, p: Plan, extend: bool, days: int, trial: int, now: int): int {
    if !Unending(p, trial) && days > 0 then (if extend && u.expireAt > now then u.expireAt else now) + days * DAY else 0
  }

  /** A quota bought for several periods goes on refilling every period. */
  predicate KeepsRefill(u: Sub, p: Plan, trial: int, expire: int, now: int) {
    u.plan == p.id && u.cycle == EveryDays(p.period) && !Unending(p, trial) && p.limit > 0 && p.cycle.None? &&
    p.period > 0 && expire - now > p.period * DAY
  }

  predicate StartsOver(u: Sub, p: Plan, paid: bool, trial: int) {
    u.plan != p.id || (paid && !Unending(p, trial) && p.limit > 0)
  }

  function Extra(u: Sub, p: Plan, devices: int): int {
    if !SellsDevices(p) then Min(0, p.deviceMax)
    else Min(Max(if devices == KEEP then HeldDevices(u, p) else devices, 0), p.deviceMax)
  }

  function WriteForDays(u: Sub, p: Plan, extend: bool, paid: bool, days: int, devices: int, trial: int, now: int)
    : Write
  {
    var expire := TermEnd(u, p, extend, if days < 0 then p.period else days, trial, now);
    var reset := StartsOver(u, p, paid, trial);
    var pack := if !reset && u.plan == p.id && u.pack > 0 && p.limit > 0 then u.pack else 0;
    var refills := KeepsRefill(u, p, trial, expire, now);
    var extra := Extra(u, p, devices);
    Write(p.id, expire, p.limit + pack, reset,
          if refills then EveryDays(p.period) else PlanCycle(p, Unending(p, trial)),
          if refills && !reset && u.anchor > 0 then u.anchor else now,
          p.devices + extra, extra, pack, u.trialUsed, p.speed, p.groups)
  }

  /** Manual mode, the plan with no number: no term, no quota. */
  function ManualWrite(u: Sub, now: int): Write {
    Write(0, 0, 0, false, Never, now, 0, 0, 0, u.trialUsed, 0, {})
  }

  function WriteForPeriods(u: Sub, p: Plan, extend: bool, paid: bool, periods: int, devices: int, trial: int, now: int)
    : Write
  {
    if periods <= 1 then WriteForDays(u, p, extend, paid, -1, devices, trial, now)
    else
      var w := WriteForDays(u, p, extend, paid, p.period * periods, devices, trial, now);
      if p.limit > 0 && p.cycle.None? && p.period > 0 then w.(cycle := EveryDays(p.period)) else w
  }

  /** applyUserPlanOn; a membership given by hand stays one. */
  function Apply(u: Sub, w: Write): Sub {
    Sub(w.plan, w.expireAt, w.limit, if w.resetUsage then 0 else u.used, w.cycle, w.anchor,
        w.devices, w.extra, w.pack, w.trialUsed, w.speed, w.groups - {0} - u.byHand, u.byHand, u.referrer, u.banked)
  }

  /** ActivePaidPlan */
  function ActivePaid(plans: map<int, Plan>, u: Sub, now: int): Option<Plan> {
    if u.plan == 0 || u.plan !in plans || IsFree(plans[u.plan]) then None
    else if plans[u.plan].period > 0 && u.expireAt <= now then None
    else Some(plans[u.plan])
  }

  // ---- what a write is worth --------------------------------------------------------------

  /** The user may use the service at an instant, as far as term and quota go. */
  predicate HasAccess(u: Sub, now: int) {
    (u.expireAt == 0 || u.expireAt > now) && (u.limit <= 0 || u.used < u.limit)
  }

  /** A bought plan gives access at once, whatever the counter and the term were before. */
  lemma PurchaseGivesAccess(u: Sub, p: Plan, extend: bool, periods: int, devices: int, trial: int, now: int)
    requires now >= 0 && !Unending(p, trial)
    ensures HasAccess(Apply(u, WriteForPeriods(u, p, extend, true, periods, devices, trial, now)), now)
    ensures p.limit > 0 ==> Apply(u, WriteForPeriods(u, p, extend, true, periods, devices, trial, now)).used == 0
  {
  }

  function DaysBought(p: Plan, periods: int): int {
    if periods <= 1 then p.period else p.period * periods
  }

  /** One renewal moves the end by the days it bought, and by more only when the term has run out in
      between; it never moves by less. */
  lemma RenewalMovesTheEnd(u: Sub, p: Plan, periods: int, devices: int, trial: int, now: int)
    requires p.id == u.plan && !Unending(p, trial) && p.period > 0
    ensures var end := Apply(u, WriteForPeriods(u, p, true, true, periods, devices, trial, now)).expireAt;
      end >= u.expireAt + DaysBought(p, periods) * DAY &&
      (end == u.expireAt + DaysBought(p, periods) * DAY <==> u.expireAt >= now)
  {
    if periods > 1 {
      assert p.period * periods > 0;
    }
  }

  /** An operator's re-assigning of the plan held refills nothing: the counter runs on, and traffic bought
      on top stays; any other plan, and any period paid for on a limited one, starts the counter over and
      drops it. */
  lemma OnlyPurchasesRefill(u: Sub, p: Plan, extend: bool, paid: bool, days: int, devices: int, trial: int, now: int)
    ensures var after := Apply(u, WriteForDays(u, p, extend, paid, days, devices, trial, now));
      if u.plan == p.id && !(paid && !Unending(p, trial) && p.limit > 0)
      then
        after.used == u.used &&
        (u.pack > 0 && p.limit > 0 ==> after.pack == u.pack && after.limit == p.limit + u.pack)
      else after.used == 0 && after.pack == 0 && after.limit == p.limit
  {
  }

  /** What the user has of a plan once it is written: its speed; its groups, beside those given by hand; and
      its devices with the extra ones asked for, or the ones held where they are kept, never more than it
      sells and none where it sells none. */
  lemma PlanGivesWhatItSells(u: Sub, p: Plan, extend: bool, paid: bool, periods: int, devices: int, trial: int,
                             now: int)
    requires p.deviceMax >= 0
    ensures var after := Apply(u, WriteForPeriods(u, p, extend, paid, periods, devices, trial, now));
      var asked := if devices != KEEP then devices else if u.plan == p.id then u.extra else 0;
      && after.plan == p.id && after.speed == p.speed && after.byHand == u.byHand
      && after.groups + after.byHand == (p.groups - {0}) + u.byHand && after.groups !! u.byHand
      && after.devices == p.devices + after.extra && 0 <= after.extra <= p.deviceMax
      && (p.devicePrice <= 0 || p.devices <= 0 || p.period <= 0 ==> after.extra == 0)
      && (p.devicePrice > 0 && p.devices > 0 && p.period > 0 && 0 <= asked <= p.deviceMax ==> after.extra == asked)
      && after.trialUsed == u.trialUsed && after.referrer == u.referrer && after.banked == u.banked
  {
    var w := WriteForPeriods(u, p, extend, paid, periods, devices, trial, now);
    ExtraAsked(u, p, devices);
    WriteIsOfThePlan(u, p, extend, paid, periods, devices, trial, now);
    hide WriteForPeriods, Extra;
    assert (w.groups - {0} - u.byHand) + u.byHand == (w.groups - {0}) + u.byHand;
  }

  lemma WriteIsOfThePlan(u: Sub, p: Plan, extend: bool, paid: bool, periods: int, devices: int, trial: int, now: int)
    ensures var w := WriteForPeriods(u, p, extend, paid, periods, devices, trial, now);
      w.plan == p.id && w.speed == p.speed && w.groups == p.groups && w.extra == Extra(u, p, devices) &&
      w.devices == p.devices + w.extra && w.trialUsed == u.trialUsed
  {
    hide TermEnd, KeepsRefill, PlanCycle, StartsOver, Extra;
  }

  lemma ExtraAsked(u: Sub, p: Plan, devices: int)
    requires p.deviceMax >= 0
    ensures var extra := Extra(u, p, devices);
      var asked := if devices != KEEP then devices else if u.plan == p.id then u.extra else 0;
      && 0 <= extra <= p.deviceMax
      && (p.devicePrice <= 0 || p.devices <= 0 || p.period <= 0 ==> extra == 0)
      && (p.devicePrice > 0 && p.devices > 0 && p.period > 0 && 0 <= asked <= p.deviceMax ==> extra == asked)
  {
  }

  /** When the quota refills: never without one to refill, by the plan's own cycle if it has one, and every
      period of a free plan. A paid plan's runs over all the time bought, unless several periods are bought at
      once or were before. */
  lemma QuotaRefills(u: Sub, p: Plan, extend: bool, paid: bool, periods: int, devices: int, trial: int, now: int)
    ensures var cycle := Apply(u, WriteForPeriods(u, p, extend, paid, periods, devices, trial, now)).cycle;
      && (p.limit <= 0 ==> cycle == Never)
      && (p.limit > 0 && p.cycle.Some? ==> cycle == Named(p.cycle.value))
      && (p.limit > 0 && p.cycle.None? && p.period <= 0 ==> cycle == Never)
      && (p.limit > 0 && p.cycle.None? && p.period > 0 ==>
            (cycle == EveryDays(p.period) || cycle == Never) &&
            (periods > 1 || (p.price <= 0 && p.id != trial) ==> cycle == EveryDays(p.period)) &&
            (periods <= 1 && !(p.price <= 0 && p.id != trial) && cycle != Never ==> u.plan == p.id && u.cycle == cycle))
  {
    hide Extra;
  }

  /** The refill is counted from now, but goes on from where it was when it and the counter are kept. */
  lemma RefillIsCountedFrom(u: Sub, p: Plan, extend: bool, paid: bool, days: int, devices: int, trial: int, now: int)
    ensures var after := Apply(u, WriteForDays(u, p, extend, paid, days, devices, trial, now));
      var goesOn := u.plan == p.id && !paid && p.cycle.None? && !(p.price <= 0 && p.id != trial) &&
                    after.cycle == u.cycle == EveryDays(p.period) && u.anchor > 0;
      (after.anchor == now || (after.anchor == u.anchor && after.cycle == u.cycle && after.used == u.used)) &&
      (goesOn ==> after.anchor == u.anchor)
  {
    hide Extra, TermEnd;
  }

  /** Manual mode takes the plan off a user, with its term, its quota, its devices and its groups; the counter
      runs on. */
  lemma ManualModeKeepsTheCounter(u: Sub, now: int)
    ensures var after := Apply(u, ManualWrite(u, now));
      HasAccess(after, now) && after.used == u.used && after.trialUsed == u.trialUsed && after.cycle == Never &&
      after.plan == 0 && after.devices == 0 && after.extra == 0 && after.speed == 0 && after.groups == {} &&
      after.byHand == u.byHand && after.banked == u.banked
  {
  }

  /** A free plan has no end. Any other ends the days given after the term it extends, if that still runs,
      and after now otherwise; without days it has no end. */
  lemma TermIsCounted(u: Sub, p: Plan, extend: bool, paid: bool, days: nat, devices: int, trial: int, now: int)
    ensures var end := Apply(u, WriteForDays(u, p, extend, paid, days, devices, trial, now)).expireAt;
      if (p.price <= 0 && p.id != trial) || days == 0 then end == 0
      else if extend && u.expireAt > now then end == u.expireAt + 86400 * days
      else end == now + 86400 * days
  {
    hide Extra, KeepsRefill, PlanCycle, StartsOver;
  }

  /** A renewal as it is confirmed: the periods and devices of its order, and the clock. */
  datatype Renewal = Renewal(periods: int, devices: int, now: int)

  function Renewed(u: Sub, p: Plan, trial: int, r: Renewal): Sub {
    Apply(u, WriteForPeriods(u, p, true, true, r.periods, r.devices, trial, r.now))
  }

  /** The refill of a quota bought for several periods survives a later single one, for as long as
      the term still runs past one period. */
  lemma RefillSurvivesRenewal(u: Sub, p: Plan, trial: int, first: Renewal, next: Renewal)
    requires p.id == u.plan && !Unending(p, trial) && p.period > 0 && p.limit > 0 && p.cycle.None?
    requires first.periods > 1 && next.periods <= 1
    requires next.now < Renewed(u, p, trial, first).expireAt
    ensures Renewed(Renewed(u, p, trial, first), p, trial, next).cycle == EveryDays(p.period)
  {
    var mid := Renewed(u, p, trial, first);
    RenewalMovesTheEnd(mid, p, next.periods, next.devices, trial, next.now);
  }
}
