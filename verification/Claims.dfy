/** The transaction that settles a payment order (ConfirmOrder of internal/store/wallet.go): the claim, the
    money on the balance, the plan for the balance's part of the price, and the referrer's reward. An error
    in any of it takes all of it back. */
module Claims {
  import opened Common
  import opened Plans

  type Id = int

  datatype Status = Pending | Cancelled | Paid

  datatype Kind = ForPlan | Topup

  /** usesCode: discounted by a promo code. */
  datatype Order = Order(user: Id, plan: Id, amount: int, balance: int, periods: int, devices: int, usesCode: bool,
                         kind: Kind, status: Status)

  /** What a referrer earns: a share of the money, or days for a plan bought with it. */
  datatype Mode = Off | ByPercent | ByDays

  datatype Referral = Referral(mode: Mode, percent: int, days: int, firstOnly: bool)

  /** ConfirmSpec: what claiming the order is to do; `bonus` are the banked days the plan includes. */
  datatype Spec = Spec(credit: int, debit: int, plan: Option<Write>, bonus: nat, asTopup: bool, ref: Referral, now: int)

  function Kop(o: Order): int { 100 * o.amount }

  // ---- money and plan -----------------------------------------------------------------------

  /** The plan is delivered: the balance, with what is credited, covers its part. */
  predicate Delivers(wallet: map<Id, int>, user: Id, spec: Spec) {
    spec.plan.Some? && (spec.debit <= 0 || (user in wallet && wallet[user] + Max(spec.credit, 0) >= spec.debit))
  }

  function WalletAfter(wallet: map<Id, int>, user: Id, spec: Spec): map<Id, int> {
    if user !in wallet then wallet
    else
      var credited := wallet[user] + Max(spec.credit, 0);
      wallet[user := if Delivers(wallet, user, spec) && spec.debit > 0 then credited - spec.debit else credited]
  }

  /** deliverPlan: the plan's columns, and the banked days it includes are used up. */
  function Delivered(u: Sub, w: Write, bonus: nat): Sub {
    Apply(u, w).(banked := Max(u.banked - bonus, 0))
  }

  function SubsAfter(subs: map<Id, Sub>, wallet: map<Id, int>, user: Id, spec: Spec): map<Id, Sub> {
    if Delivers(wallet, user, spec) && user in subs
    then subs[user := Delivered(subs[user], spec.plan.value, spec.bonus)] else subs
  }

  function OrderAfter(o: Order, wallet: map<Id, int>, spec: Spec): Order {
    o.(status := Paid,
       kind := if spec.asTopup || (spec.plan.Some? && !Delivers(wallet, o.user, spec)) then Topup else o.kind)
  }

  // ---- the referrer's reward ----------------------------------------------------------------

  function Price(o: Order, spec: Spec): int {
    if spec.debit == 0 then Kop(o) else spec.debit
  }

  /** The order pays its referrer: money came in, and days are for a plan paid mostly with it. */
  predicate Earns(o: Order, spec: Spec, applied: bool) {
    o.amount > 0 &&
    match spec.ref.mode
    case Off => false
    case ByPercent => true
    case ByDays => o.kind == ForPlan && applied && o.amount * 200 >= Price(o, spec)
  }

  /** Another order of the user that the mode would have paid for. */
  predicate PaidBefore(orders: map<Id, Order>, id: Id, user: Id, mode: Mode) {
    exists j :: j in orders && j != id && orders[j].user == user && orders[j].status == Paid && orders[j].amount > 0 &&
      (mode == ByDays ==> orders[j].kind == ForPlan)
  }

  datatype Reward = Nothing | Money(user: Id, kop: nat) | Time(user: Id, days: nat)

  predicate OnTerm(plans: map<Id, Plan>, u: Sub, now: int) {
    u.expireAt > now && u.plan in plans && !IsFree(plans[u.plan]) && plans[u.plan].period > 0
  }

  predicate Lifetime(plans: map<Id, Plan>, u: Sub) {
    u.plan in plans && !IsFree(plans[u.plan]) && plans[u.plan].period == 0
  }

  /** rewardReferrer, for a user who is there. A lifetime plan has no use for days. */
  function Earned(subs: map<Id, Sub>, orders: map<Id, Order>, plans: map<Id, Plan>, id: Id, o: Order, spec: Spec,
                  applied: bool): (g: Reward)
    ensures !g.Nothing? ==> g.user in subs && g.user != o.user
  {
    if !Earns(o, spec, applied) || o.user !in subs then Nothing
    else
      var r, ref := subs[o.user].referrer, spec.ref;
      if r == 0 || r == o.user || r !in subs || (ref.firstOnly && PaidBefore(orders, id, o.user, ref.mode)) then Nothing
      else if ref.mode == ByPercent then
        if o.amount * ref.percent <= 0 then Nothing else Money(r, o.amount * ref.percent)
      else if ref.days <= 0 || Lifetime(plans, subs[r]) then Nothing
      else Time(r, ref.days)
  }

  /** Days go onto a running paid term, and otherwise into the bank for the next one. */
  function Lengthened(plans: map<Id, Plan>, u: Sub, days: nat, now: int): Sub {
    if OnTerm(plans, u, now) then u.(expireAt := u.expireAt + days * DAY) else u.(banked := u.banked + days)
  }

  /** A user's row and balance beside what the reward adds. */
  function RowAfter(plans: map<Id, Plan>, u: Sub, x: Id, g: Reward, now: int): Sub {
    if g.Time? && g.user == x then Lengthened(plans, u, g.days, now) else u
  }

  function KopAfter(kop: int, x: Id, g: Reward): int {
    if g.Money? && g.user == x then kop + g.kop else kop
  }

  function RewardedWallet(wallet: map<Id, int>, g: Reward): map<Id, int> {
    if g.Money? && g.user in wallet then wallet[g.user := wallet[g.user] + g.kop] else wallet
  }

  function RewardedSubs(subs: map<Id, Sub>, plans: map<Id, Plan>, g: Reward, now: int): map<Id, Sub> {
    if g.Time? && g.user in subs then subs[g.user := Lengthened(plans, subs[g.user], g.days, now)] else subs
  }

  /** The transaction fails for a user who is gone: the reward cannot find their referrer, or their plan's
      groups have no one to hold. */
  predicate RollsBack(known: bool, o: Order, spec: Spec, applied: bool) {
    !known && (Earns(o, spec, applied) || (applied && spec.plan.Some? && spec.plan.value.groups - {0} != {}))
  }

  /** Who earns what. A referrer who is there earns from somebody else's payment, if it brought in money and,
      where only the first counts, no other payment the mode pays for is on the books: a share of the money,
      or days for a plan paid at least half with money, unless they are on a lifetime plan. */
  lemma RewardIff(subs: map<Id, Sub>, orders: map<Id, Order>, plans: map<Id, Plan>, id: Id, o: Order, spec: Spec,
                  applied: bool)
    ensures var g := Earned(subs, orders, plans, id, o, spec, applied);
      var r := if o.user in subs then subs[o.user].referrer else 0;
      var another := exists j :: j in orders && j != id && orders[j].user == o.user && orders[j].status == Paid &&
                       orders[j].amount > 0 && (spec.ref.mode == ByDays ==> orders[j].kind == ForPlan);
      var due := o.amount > 0 && r != 0 && r != o.user && r in subs && !(spec.ref.firstOnly && another);
      var mostly := o.kind == ForPlan && applied && (spec.debit == 0 || 200 * o.amount >= spec.debit);
      var forever := r in subs && subs[r].plan in plans && plans[subs[r].plan].price > 0 &&
                     plans[subs[r].plan].period == 0;
      && (g.Money? <==> due && spec.ref.mode == ByPercent && spec.ref.percent > 0)
      && (g.Time? <==> due && spec.ref.mode == ByDays && spec.ref.days > 0 && mostly && !forever)
      && (g.Money? ==> g.user == r && g.kop == o.amount * spec.ref.percent)
      && (g.Time? ==> g.user == r && g.days == spec.ref.days)
  {
    if o.amount > 0 { assert o.amount * spec.ref.percent > 0 <==> spec.ref.percent > 0; }
  }

  /** Days earned lengthen a paid term that runs, and otherwise wait in the bank. */
  lemma DaysGoOnTheTerm(plans: map<Id, Plan>, u: Sub, days: nat, now: int)
    ensures var after := Lengthened(plans, u, days, now);
      if u.plan in plans && plans[u.plan].price > 0 && plans[u.plan].period > 0 && u.expireAt > now
      then after == u.(expireAt := u.expireAt + 86400 * days)
      else after == u.(banked := u.banked + days)
  {
  }
}
