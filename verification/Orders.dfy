/** Payment orders of internal/core/manager_billing.go and internal/store/wallet.go as a transition
    system: confirmers race for an order, each decides under a lock what the money buys, and claims
    the order in one transaction; cancellations, balance movements, deletions, plan edits and expiry
    sweeps come in between. */
module Orders {
  import opened Common
  import opened Plans
  import opened Claims

  const NO_REWARD := Referral(Off, 0, 0, false)

  datatype Settings = Settings(wallet: bool, trial: Id, free: Id, ref: Referral)

  /** The clock as one confirmation reads it, each time it looks. */
  datatype Clock = Clock(t0: int, t1: int, t2: int, t3: int, t4: int)

  function ToBalance(o: Order, ref: Referral, now: int): Spec { Spec(Kop(o), 0, None, 0, true, ref, now) }

  predicate Keyed(plans: map<Id, Plan>) {
    forall id :: id in plans ==> plans[id].id == id
  }

  predicate Renews(plans: map<Id, Plan>, u: Sub, plan: Id, now: int) {
    ActivePaid(plans, u, now).Some? && ActivePaid(plans, u, now).value.id == plan
  }

  /** The active plan is another one than the order's, or a lifetime one. */
  predicate Outbid(plans: map<Id, Plan>, u: Sub, plan: Id, now: int) {
    var cur := ActivePaid(plans, u, now);
    cur.Some? && (cur.value.id != plan || cur.value.period <= 0)
  }

  function PlanWrite(plans: map<Id, Plan>, u: Sub, o: Order, extend: bool, trial: Id, now: int): Option<Write> {
    if o.plan == 0 then
      if o.periods <= 1 then Some(ManualWrite(u, now)) else None
    else if o.plan !in plans then None
    else Some(WriteForPeriods(u, plans[o.plan], extend, true, o.periods, o.devices, trial, now))
  }

  /** The banked days a term takes up. */
  function Bonus(w: Write, u: Sub): nat {
    if w.expireAt <= 0 then 0 else u.banked
  }

  function WithBanked(w: Write, u: Sub): Write {
    w.(expireAt := w.expireAt + Bonus(w, u) * DAY)
  }

  function Granting(u: Sub, o: Order, w: Write, ref: Referral, now: int): Spec {
    var credit, debit := if o.balance > 0 then Kop(o) else 0, if o.balance > 0 then Kop(o) + o.balance else 0;
    Spec(credit, debit, Some(WithBanked(w, u)), Bonus(w, u), false, ref, now)
  }

  /** confirmOrderPaid up to the claim: what the order's money buys now. None: an error, nothing is
      claimed. */
  function Decision(cfg: Settings, plans: map<Id, Plan>, u: Option<Sub>, o: Order, codeUsed: bool, c: Clock)
    : Option<Spec>
  {
    if o.kind == Topup then Some(Spec(Kop(o), 0, None, 0, false, cfg.ref, c.t0))
    else if u.None? then None
    else if cfg.wallet && ((o.usesCode && codeUsed) || Outbid(plans, u.value, o.plan, c.t1)) then
      Some(ToBalance(o, cfg.ref, c.t0))
    else if Renews(plans, u.value, o.plan, c.t2) && o.plan in plans &&
            HeldDevices(u.value, plans[o.plan]) != o.devices then
      Some(ToBalance(o, cfg.ref, c.t0))
    else
      var w := PlanWrite(plans, u.value, o, Renews(plans, u.value, o.plan, c.t3), cfg.trial, c.t4);
      if w.None? then None else Some(Granting(u.value, o, w.value, cfg.ref, c.t0))
  }

  // ---- the world --------------------------------------------------------------------------

  /** What a confirmer read before it decided: settings, plans, whether the code was used, the clock. */
  datatype Reading = Reading(cfg: Settings, plans: map<Id, Plan>, codeUsed: bool, c: Clock)

  /** A confirmer holding the plan lock: the order as it read it, what it decided and from what, and the
      plan it is about to grant if that plan is not a free one. */
  datatype Holder = Holder(thread: int, id: Id, order: Order, spec: Spec, read: Reading, bought: Option<Plan>)

  /** A plan delivered by a claim, or the days it earned a referrer. */
  datatype Grant = Bought(id: Id, user: Id, plan: Id, periods: int) | Gift(id: Id, user: Id, days: nat)

  /** Where the money went: received for claimed orders, spent on plans granted, lost on users who are
      gone, earned by referrers, and moved in or out of balances by everything else. The claims and what
      they granted. */
  datatype Books = Books(received: int, granted: int, lost: int, outside: int, rewarded: int, claims: seq<Id>,
                         grants: seq<Grant>)

  datatype World = World(now: int, cfg: Settings, plans: map<Id, Plan>, subs: map<Id, Sub>, wallet: map<Id, int>,
                         orders: map<Id, Order>, jobs: map<int, (Id, Order)>, lock: Option<Holder>, books: Books)

  datatype Step =
    | Tick(now: int)
    | Configure(cfg: Settings, plans: map<Id, Plan>)
    | Place(id: Id, order: Order)
    | Cancel(id: Id)
    | Start(thread: int, id: Id)
    | Decide(thread: int, codeUsed: bool, c: Clock)
    | Claim
    | Move(user: Id, kop: int)
    | Rewrite(user: Id, sub: Sub)
    | Delete(user: Id)
    | Downgrade(user: Id, tick: int)
    | Use(user: Id, bytes: nat)
    | Refer(user: Id, referrer: Id)

  function SubOf(w: World, user: Id): Option<Sub> {
    if user in w.subs then Some(w.subs[user]) else None
  }

  ghost predicate Can(w: World, step: Step) {
    match step
    case Tick(now) => now >= w.now
    case Configure(cfg, plans) => Keyed(plans)
    case Place(id, o) => id !in w.orders && o.status == Pending && o.amount >= 0 && o.balance >= 0
    case Cancel(id) => id in w.orders
    case Start(thread, id) => id in w.orders && w.orders[id].status != Paid
    case Decide(thread, codeUsed, c) =>
      thread in w.jobs && w.lock.None? && c.t0 <= c.t1 && w.now <= c.t1 <= c.t2 <= c.t3 <= c.t4
    case Claim => w.lock.Some?
    case Move(user, kop) => user in w.wallet && w.wallet[user] + kop >= 0
    case Rewrite(user, sub) => user in w.subs && w.lock.None?
    case Delete(user) => true
    case Downgrade(user, tick) => w.lock.None? && tick <= w.now && w.cfg.free in w.plans
    case Use(user, bytes) => user in w.subs
    case Refer(user, referrer) => user in w.subs
  }

  function Decided(w: World, thread: int, codeUsed: bool, c: Clock): World
    requires thread in w.jobs
  {
    var (id, o) := w.jobs[thread];
    var spec := Decision(w.cfg, w.plans, SubOf(w, o.user), o, codeUsed, c);
    var u := w.(now := c.t4, jobs := w.jobs - {thread});
    if spec.None? then u
    else
      var bought := if spec.value.plan.Some? && o.plan in w.plans && !Unending(w.plans[o.plan], w.cfg.trial)
                    then Some(w.plans[o.plan]) else None;
      u.(lock := Some(Holder(thread, id, o, spec.value, Reading(w.cfg, w.plans, codeUsed, c), bought)))
  }

  /** What of the claim the books record. */
  function Booked(b: Books, id: Id, o: Order, known: bool, applied: bool, g: Reward): Books {
    Books(b.received + Kop(o),
          b.granted + if known && applied then Kop(o) + o.balance else 0,
          b.lost + if known then 0 else Kop(o),
          b.outside,
          b.rewarded + if g.Money? then g.kop else 0,
          b.claims + [id],
          b.grants + (if known && applied then [Bought(id, o.user, o.plan, o.periods)] else [])
                   + (if g.Time? then [Gift(id, g.user, g.days)] else []))
  }

  /** store.ConfirmOrder, one transaction: an order still pending or cancelled becomes paid, its money is
      credited, the plan is delivered if the balance covers its part, and the referrer rewarded; or it
      fails and nothing has happened. */
  function Claimed(w: World, h: Holder): World {
    if h.id !in w.orders || w.orders[h.id].status == Paid then w.(lock := None)
    else
      var o, spec := w.orders[h.id], h.spec;
      var known, applied := o.user in w.wallet, Delivers(w.wallet, o.user, spec);
      if RollsBack(known, o, spec, applied) then w.(lock := None)
      else
        var g := RewardOf(w, h);
        w.(lock := None,
           wallet := RewardedWallet(WalletAfter(w.wallet, o.user, spec), g),
           subs := RewardedSubs(SubsAfter(w.subs, w.wallet, o.user, spec), w.plans, g, spec.now),
           orders := w.orders[h.id := OrderAfter(o, w.wallet, spec)],
           books := Booked(w.books, h.id, o, known, applied, g))
  }

  /** What the claim earns the user's referrer. */
  function RewardOf(w: World, h: Holder): Reward {
    if h.id !in w.orders || w.orders[h.id].status == Paid then Nothing
    else
      var o, spec := w.orders[h.id], h.spec;
      Earned(SubsAfter(w.subs, w.wallet, o.user, spec), w.orders[h.id := OrderAfter(o, w.wallet, spec)], w.plans, h.id,
             o, spec, Delivers(w.wallet, o.user, spec))
  }

  /** downgradeExpired, re-checked under the lock against the tick the expired list was made for. */
  function Downgraded(w: World, user: Id, tick: int): World
    requires w.cfg.free in w.plans
  {
    if user !in w.subs then w
    else
      var u := w.subs[user];
      if u.plan == w.cfg.free || u.expireAt == 0 || u.expireAt > tick then w
      else
        var write := WriteForDays(u, w.plans[w.cfg.free], false, false, -1, KEEP, w.cfg.trial, w.now);
        w.(subs := w.subs[user := Apply(u, write)])
  }

  /** Whoever a deleted user had invited has no referrer any more. */
  function Forgets(u: Sub, gone: Id): Sub {
    if u.referrer == gone then u.(referrer := 0) else u
  }

  function Next(w: World, step: Step): World
    requires Can(w, step)
  {
    match step
    case Tick(now) => w.(now := now)
    case Configure(cfg, plans) => w.(cfg := cfg, plans := plans)
    case Place(id, o) => w.(orders := w.orders[id := o])
    case Cancel(id) =>
      if w.orders[id].status == Pending then w.(orders := w.orders[id := w.orders[id].(status := Cancelled)]) else w
    case Start(thread, id) => w.(jobs := w.jobs[thread := (id, w.orders[id])])
    case Decide(thread, codeUsed, c) => Decided(w, thread, codeUsed, c)
    case Claim => Claimed(w, w.lock.value)
    case Move(user, kop) =>
      w.(wallet := w.wallet[user := w.wallet[user] + kop], books := w.books.(outside := w.books.outside + kop))
    case Rewrite(user, sub) => w.(subs := w.subs[user := sub])
    case Delete(user) =>
      w.(subs := map u | u in w.subs && u != user :: Forgets(w.subs[u], user), wallet := w.wallet - {user},
         books := w.books.(outside := w.books.outside - if user in w.wallet then w.wallet[user] else 0))
    case Downgrade(user, tick) => Downgraded(w, user, tick)
    // The traffic counter runs, and invitations are recorded, whoever holds the lock.
    case Use(user, bytes) => w.(subs := w.subs[user := w.subs[user].(used := w.subs[user].used + bytes)])
    case Refer(user, referrer) => w.(subs := w.subs[user := w.subs[user].(referrer := referrer)])
  }

  /** A panel with any users, balances and orders, before anyone confirms anything. */
  predicate Initial(w: World) {
    && w.now >= 0 && w.jobs == map[] && w.lock.None? && w.books == Books(0, 0, 0, 0, 0, [], [])
    && w.subs.Keys == w.wallet.Keys
    && (forall u :: u in w.wallet ==> w.wallet[u] >= 0)
    && (forall id :: id in w.orders ==> w.orders[id].amount >= 0 && w.orders[id].balance >= 0)
    && Keyed(w.plans)
  }

  ghost predicate Goes(v: World, step: Step, w: World) {
    Can(v, step) && w == Next(v, step)
  }

  ghost predicate Runs(w0: World, steps: seq<Step>, w1: World) {
    if steps == [] then w0 == w1
    else
      var earlier, last := steps[..|steps| - 1], steps[|steps| - 1];
      exists v :: Runs(w0, earlier, v) && Goes(v, last, w1)
  }

  // ---- the invariant ----------------------------------------------------------------------

  /** What a confirmer read is still the order, but for its status and, once paid, its kind. */
  predicate Reads(orders: map<Id, Order>, id: Id, o: Order) {
    id in orders && o == orders[id].(status := o.status, kind := o.kind) &&
    (orders[id].status != Paid ==> o.kind == orders[id].kind)
  }

  /** The spec either banks the whole payment, or grants a plan and takes exactly the balance's part. */
  predicate Fair(o: Order, spec: Spec) {
    if spec.plan.None? then spec.credit == Kop(o) && spec.debit == 0 && (spec.asTopup || o.kind == Topup)
    else
      !spec.asTopup && o.kind == ForPlan &&
      if o.balance > 0 then spec.credit == Kop(o) && spec.debit == Kop(o) + o.balance
      else spec.credit == 0 && spec.debit == 0
  }

  /** Whoever gets the write has access to what was bought. */
  ghost predicate Worthwhile(h: Holder) {
    h.bought.Some? && h.spec.plan.Some? ==> forall u :: HasAccess(Apply(u, h.spec.plan.value), h.read.c.t4)
  }

  ghost predicate Shaped(w: World) {
    && w.subs.Keys == w.wallet.Keys
    && (forall u :: u in w.wallet ==> w.wallet[u] >= 0)
    && (forall id :: id in w.orders ==> w.orders[id].amount >= 0 && w.orders[id].balance >= 0)
    && (forall t :: t in w.jobs ==> Reads(w.orders, w.jobs[t].0, w.jobs[t].1))
    && (w.lock.Some? ==>
          Reads(w.orders, w.lock.value.id, w.lock.value.order) && Fair(w.lock.value.order, w.lock.value.spec))
  }

  /** Each order is claimed at most once, and stays paid. */
  predicate ClaimedOnce(w: World) {
    && (forall i, j :: 0 <= i < j < |w.books.claims| ==> w.books.claims[i] != w.books.claims[j])
    && (forall id :: id in w.books.claims ==> id in w.orders && w.orders[id].status == Paid)
  }

  /** Money received and old balances are new balances, plans granted and what was lost. */
  ghost predicate Balanced(w: World, start: int) {
    Total(w.wallet) + w.books.granted + w.books.lost
      == start + w.books.received + w.books.outside + w.books.rewarded
  }

  ghost predicate Inv(w: World, start: int) {
    Shaped(w) && ClaimedOnce(w) && Balanced(w, start)
  }

  lemma DecisionIsFair(cfg: Settings, plans: map<Id, Plan>, u: Option<Sub>, o: Order, codeUsed: bool, c: Clock)
    requires o.balance >= 0
    ensures var d := Decision(cfg, plans, u, o, codeUsed, c); d.Some? ==> Fair(o, d.value)
  {
  }

  // ---- one claim --------------------------------------------------------------------------

  /** The claim goes through: the order is open, and nothing in the transaction fails. */
  predicate GoesThrough(w: World, h: Holder) {
    h.id in w.orders && w.orders[h.id].status != Paid &&
    !RollsBack(w.orders[h.id].user in w.wallet, w.orders[h.id], h.spec, Delivers(w.wallet, w.orders[h.id].user, h.spec))
  }

  lemma RewardGoesElsewhere(w: World, h: Holder)
    ensures var g := RewardOf(w, h);
      !g.Nothing? ==> h.id in w.orders && g.user in w.subs && g.user != w.orders[h.id].user
  {
    hide Earned, OrderAfter, Delivered;
  }

  /** What a claim that goes through leaves of balances and users. */
  lemma ClaimAfter(w: World, h: Holder)
    requires GoesThrough(w, h) && w.subs.Keys == w.wallet.Keys
    ensures var v, o, g := Claimed(w, h), w.orders[h.id], RewardOf(w, h);
      && v.wallet.Keys == w.wallet.Keys == v.subs.Keys && v.now == w.now && v.plans == w.plans && v.cfg == w.cfg
      && (forall u :: u in w.wallet && u != o.user ==>
            v.wallet[u] == KopAfter(w.wallet[u], u, g) && v.subs[u] == RowAfter(w.plans, w.subs[u], u, g, h.spec.now))
      && (o.user in w.wallet ==>
            v.wallet[o.user] == WalletAfter(w.wallet, o.user, h.spec)[o.user] &&
            v.subs[o.user] == SubsAfter(w.subs, w.wallet, o.user, h.spec)[o.user])
  {
    RewardGoesElsewhere(w, h);
    hide Earned, Lengthened, Delivers, Delivered, RollsBack, OrderAfter, Booked, RewardOf;
  }

  /** Main result on one claim. An order that is still open has exactly one of two outcomes: the plan
      is written and the balance pays exactly its part, or the plan is not and the whole payment is on
      the balance. Nobody else's plan, balance or order moves, but for what the referrer earns. */
  lemma ClaimHasOneOutcome(w: World, start: int)
    requires Inv(w, start) && w.lock.Some?
    ensures var h := w.lock.value; var o := w.orders[h.id]; var v, g := Next(w, Claim), RewardOf(w, h);
      o.status != Paid && o.user in w.wallet ==>
        && v.orders == w.orders[h.id := o.(status := Paid, kind := v.orders[h.id].kind)]
        && v.wallet.Keys == w.wallet.Keys && v.subs.Keys == w.subs.Keys
        && (forall u :: u in w.wallet && u != o.user ==>
              v.wallet[u] == KopAfter(w.wallet[u], u, g) && v.subs[u] == RowAfter(w.plans, w.subs[u], u, g, h.spec.now))
        && (v.orders[h.id].kind == ForPlan <==> h.spec.plan.Some? && w.wallet[o.user] >= o.balance)
        && if v.orders[h.id].kind == ForPlan
           then
             v.wallet[o.user] == w.wallet[o.user] - o.balance &&
             v.subs[o.user] == Delivered(w.subs[o.user], h.spec.plan.value, h.spec.bonus)
           else v.wallet[o.user] == w.wallet[o.user] + Kop(o) && v.subs[o.user] == w.subs[o.user]
  {
    hide Balanced, ClaimedOnce;
    var h := w.lock.value;
    if w.orders[h.id].status != Paid && w.orders[h.id].user in w.wallet {
      ClaimAfter(w, h);
      hide Earned, Lengthened, Delivered, RewardOf, Earns, RewardedWallet, RewardedSubs, Booked;
    }
  }

  /** The transaction finds nobody to write for: the user is gone, and the order would pay their referrer, or
      their plan put them in groups. */
  predicate FindsNobody(o: Order, spec: Spec, wallet: map<Id, int>) {
    o.user !in wallet &&
    ((o.amount > 0 && spec.ref.mode == ByPercent) ||
     (spec.plan.Some? && o.balance == 0 &&
       ((o.amount > 0 && spec.ref.mode == ByDays) || spec.plan.value.groups - {0} != {})))
  }

  /** A claim changes nothing but the lock exactly if someone else has claimed the order or it finds nobody;
      otherwise the order is paid. */
  lemma ClaimChangesNothingIff(w: World, start: int)
    requires Inv(w, start) && w.lock.Some?
    ensures var h := w.lock.value; var o := w.orders[h.id]; var v := Next(w, Claim);
      (v == w.(lock := None) <==> o.status == Paid || FindsNobody(o, h.spec, w.wallet)) &&
      (v != w.(lock := None) ==> v.orders[h.id].status == Paid)
  {
    hide Balanced, ClaimedOnce;
    var h := w.lock.value;
    assert w.orders[h.id].status != Paid ==> OrderAfter(w.orders[h.id], w.wallet, h.spec) != w.orders[h.id];
    hide Earned, WalletAfter, SubsAfter, RewardOf, RewardedWallet, RewardedSubs, Booked;
  }

  lemma ClaimBalances(w: World, start: int)
    requires Inv(w, start) && w.lock.Some?
    ensures Balanced(Next(w, Claim), start)
  {
    var h := w.lock.value;
    var o := w.orders[h.id];
    if GoesThrough(w, h) {
      if o.user in w.wallet { ClaimTotal(w, start); } else { LostTotal(w, start); }
    }
    hide Inv, Earned, RewardOf, RewardedWallet, RewardedSubs, Booked, OrderAfter, WalletAfter, SubsAfter, RollsBack;
  }

  lemma ClaimTotal(w: World, start: int)
    requires Inv(w, start) && w.lock.Some? && GoesThrough(w, w.lock.value)
    requires w.orders[w.lock.value.id].user in w.wallet
    ensures Balanced(Next(w, Claim), start)
  {
    var h := w.lock.value;
    var o, g, paid := w.orders[h.id], RewardOf(w, h), WalletAfter(w.wallet, w.orders[h.id].user, h.spec);
    RewardGoesElsewhere(w, h);
    TotalUpdate(w.wallet, o.user, paid[o.user]);
    assert paid == w.wallet[o.user := paid[o.user]];
    if g.Money? { TotalUpdate(paid, g.user, paid[g.user] + g.kop); }
    hide Shaped, ClaimedOnce, Earned, RewardOf, SubsAfter, RewardedSubs, OrderAfter, RollsBack, Total;
    assert Fair(h.order, h.spec) && Reads(w.orders, h.id, h.order) by { LockIsFair(w); }
  }

  lemma LockIsFair(w: World)
    requires Shaped(w) && w.lock.Some?
    ensures Fair(w.lock.value.order, w.lock.value.spec) && Reads(w.orders, w.lock.value.id, w.lock.value.order)
  {
  }

  lemma LostTotal(w: World, start: int)
    requires Inv(w, start) && w.lock.Some? && GoesThrough(w, w.lock.value)
    requires w.orders[w.lock.value.id].user !in w.wallet
    ensures Balanced(Next(w, Claim), start) && RewardOf(w, w.lock.value) == Nothing
  {
    hide ClaimedOnce, Lengthened, Delivered;
  }

  lemma ClaimKeepsShape(w: World)
    requires Shaped(w) && w.lock.Some?
    ensures Shaped(Claimed(w, w.lock.value))
  {
    var h := w.lock.value;
    var v := Claimed(w, h);
    if GoesThrough(w, h) {
      ClaimAfter(w, h);
      PaidIsNoLess(w, h);
      hide RewardOf, Delivered, WalletAfter, SubsAfter, RewardedSubs, RewardedWallet, Booked, RollsBack, Lengthened;
      assert forall t :: t in v.jobs ==> Reads(v.orders, v.jobs[t].0, v.jobs[t].1);
    }
  }

  lemma PaidIsNoLess(w: World, h: Holder)
    requires h.id in w.orders && (w.orders[h.id].user in w.wallet ==> w.wallet[w.orders[h.id].user] >= 0)
    ensures var x := w.orders[h.id].user; x in w.wallet ==> WalletAfter(w.wallet, x, h.spec)[x] >= 0
  {
  }

  lemma ClaimKeepsOnce(w: World)
    requires ClaimedOnce(w) && w.lock.Some?
    ensures ClaimedOnce(Claimed(w, w.lock.value))
  {
    var v := Claimed(w, w.lock.value);
    assert forall i :: 0 <= i < |w.books.claims| ==> w.books.claims[i] in w.books.claims;
  }

  lemma ClaimKeeps(w: World, start: int)
    requires Inv(w, start) && w.lock.Some?
    ensures Inv(Next(w, Claim), start)
  {
    ClaimBalances(w, start);
    ClaimKeepsShape(w);
    ClaimKeepsOnce(w);
    hide Balanced, Shaped, ClaimedOnce, Claimed;
  }

  // ---- every run --------------------------------------------------------------------------

  lemma DecideKeeps(w: World, start: int, thread: int, codeUsed: bool, c: Clock)
    requires Inv(w, start) && Can(w, Decide(thread, codeUsed, c))
    ensures Inv(Next(w, Decide(thread, codeUsed, c)), start)
  {
    var (id, o) := w.jobs[thread];
    DecisionIsFair(w.cfg, w.plans, SubOf(w, o.user), o, codeUsed, c);
    hide Decision, Fair, Balanced;
    var v := Next(w, Decide(thread, codeUsed, c));
    assert v.wallet == w.wallet && v.books == w.books && v.orders == w.orders;
    MoneyUnmoved(w, v, start);
  }

  lemma MoneyUnmoved(w: World, v: World, start: int)
    requires Balanced(w, start) && v.wallet == w.wallet && v.books == w.books
    ensures Balanced(v, start)
  {
  }

  lemma MoneyMoves(w: World, start: int, step: Step)
    requires Inv(w, start) && Can(w, step) && (step.Move? || step.Delete?)
    ensures Inv(Next(w, step), start)
  {
    hide Reads, Fair, Forgets, Decided, Claimed, Downgraded;
    var v := Next(w, step);
    if step.Move? {
      TotalUpdate(w.wallet, step.user, v.wallet[step.user]);
    } else if step.user in w.wallet {
      TotalWithout(w.wallet, step.user);
    } else {
      assert v.wallet == w.wallet;
    }
    assert Balanced(v, start);
    hide Balanced;
    assert Shaped(v);
  }

  lemma OrderStepKeepsShape(w: World, step: Step)
    requires Shaped(w) && Can(w, step) && (step.Place? || step.Cancel? || step.Start?)
    ensures Shaped(Next(w, step))
  {
    hide Fair, Claimed, Decided, Downgraded;
  }

  /** Orders placed, cancelled and picked up leave balances and books alone. */
  lemma OrderStepKeeps(w: World, start: int, step: Step)
    requires Inv(w, start) && Can(w, step) && (step.Place? || step.Cancel? || step.Start?)
    ensures Inv(Next(w, step), start)
  {
    OrderStepKeepsShape(w, step);
    hide Balanced, Shaped, Total, Claimed, Decided, Downgraded;
    MoneyUnmoved(w, Next(w, step), start);
  }

  /** So do the clock, the settings and the plans users are put on. */
  lemma QuietStepKeeps(w: World, start: int, step: Step)
    requires Inv(w, start) && Can(w, step)
    requires step.Tick? || step.Configure? || step.Rewrite? || step.Downgrade? || step.Use? || step.Refer?
    ensures Inv(Next(w, step), start)
  {
    hide Balanced, Fair, Total, Reads, Claimed, Decided, Apply, WriteForDays;
    var v := Next(w, step);
    assert v.subs.Keys == w.subs.Keys && v.wallet == w.wallet && v.orders == w.orders && v.jobs == w.jobs &&
      v.lock == w.lock;
    MoneyUnmoved(w, v, start);
  }

  lemma StepKeepsInv(w: World, start: int, step: Step)
    requires Inv(w, start) && Can(w, step)
    ensures Inv(Next(w, step), start)
  {
    hide Inv, Next;
    match step
    case Claim => ClaimKeeps(w, start);
    case Decide(thread, codeUsed, c) => DecideKeeps(w, start, thread, codeUsed, c);
    case Move(user, kop) => MoneyMoves(w, start, step);
    case Delete(user) => MoneyMoves(w, start, step);
    case Place(id, o) => OrderStepKeeps(w, start, step);
    case Cancel(id) => OrderStepKeeps(w, start, step);
    case Start(thread, id) => OrderStepKeeps(w, start, step);
    case _ => QuietStepKeeps(w, start, step);
  }

  /** Main result. In every run of racing confirmers and everything else, each order is claimed at most
      once, and money received plus old balances is always new balances, the price of the plans
      granted, and what was paid for users no longer there. */
  lemma {:induction false} MoneyIsConserved(w0: World, steps: seq<Step>, w: World)
    requires Initial(w0) && Runs(w0, steps, w)
    ensures Inv(w, Total(w0.wallet))
  {
    hide Inv, Can, Next, Initial;
    if steps == [] {
      InitialInv(w0);
    } else {
      var earlier, last := steps[..|steps| - 1], steps[|steps| - 1];
      var v :| Runs(w0, earlier, v) && Goes(v, last, w);
      MoneyIsConserved(w0, earlier, v);
      StepKeepsInv(v, Total(w0.wallet), last);
    }
  }

  lemma InitialInv(w: World)
    requires Initial(w)
    ensures Inv(w, Total(w.wallet))
  {
  }

  /** Money is lost exactly by claiming a payment of a user who is gone that goes through: no referrer is
      looked for in vain, and no groups are written. */
  lemma LostIff(w: World, start: int)
    requires Inv(w, start) && w.lock.Some?
    ensures var h := w.lock.value; var o := w.orders[h.id];
      Next(w, Claim).books.lost > w.books.lost <==>
        o.status != Paid && o.user !in w.wallet && o.amount > 0 && !FindsNobody(o, h.spec, w.wallet)
  {
    hide Balanced, ClaimedOnce;
    ClaimChangesNothingIff(w, start);
    hide Earned, WalletAfter, SubsAfter, RewardOf, RewardedWallet, RewardedSubs, OrderAfter;
  }

  // ---- the first payment alone ------------------------------------------------------------

  lemma StepLeavesPaid(w: World, step: Step, id: Id)
    requires Can(w, step) && id in w.orders && w.orders[id].status == Paid
    ensures var v := Next(w, step); id in v.orders && v.orders[id] == w.orders[id]
  {
    hide Decision, Booked, RewardOf, WalletAfter, SubsAfter, OrderAfter, RewardedWallet, RewardedSubs, RollsBack;
    hide Forgets, Delivers, WriteForDays, Apply;
  }

  /** A paid order stays as it is. */
  lemma {:induction false} PaidStays(v: World, steps: seq<Step>, w: World, id: Id)
    requires Runs(v, steps, w) && id in v.orders && v.orders[id].status == Paid
    ensures id in w.orders && w.orders[id] == v.orders[id]
  {
    hide Can, Next;
    if steps != [] {
      var earlier, last := steps[..|steps| - 1], steps[|steps| - 1];
      var u :| Runs(v, earlier, u) && Goes(u, last, w);
      PaidStays(v, earlier, u, id);
      StepLeavesPaid(u, last, id);
    }
  }

  /** Where only a first payment counts, a user's later ones earn their referrer nothing, whatever happens in
      between: once one is on the books, every other claim of theirs goes unrewarded. */
  lemma OnlyTheFirstEarns(v: World, steps: seq<Step>, w: World, id: Id)
    requires Runs(v, steps, w) && id in v.orders && v.orders[id].status == Paid && v.orders[id].amount > 0
    requires w.lock.Some? && w.lock.value.id in w.orders && w.lock.value.id != id
    requires w.orders[w.lock.value.id].user == v.orders[id].user && w.lock.value.spec.ref.firstOnly
    requires w.lock.value.spec.ref.mode == ByDays ==> v.orders[id].kind == ForPlan
    ensures RewardOf(w, w.lock.value) == Nothing
  {
    PaidStays(v, steps, w, id);
    var h := w.lock.value;
    var o, spec := w.orders[h.id], h.spec;
    var orders := w.orders[h.id := OrderAfter(o, w.wallet, spec)];
    assert id in orders && orders[id].status == Paid;
    RewardIff(SubsAfter(w.subs, w.wallet, o.user, spec), orders, w.plans, h.id, o, spec,
              Delivers(w.wallet, o.user, spec));
    hide Earned, SubsAfter, Delivers, OrderAfter, Runs;
  }

  // ---- what a purchase and an expiry sweep do to the term ---------------------------------

  lemma DecisionGivesAccess(cfg: Settings, plans: map<Id, Plan>, u: Sub, o: Order, codeUsed: bool, c: Clock)
    requires c.t4 >= 0 && o.plan in plans && !Unending(plans[o.plan], cfg.trial)
    ensures var d := Decision(cfg, plans, Some(u), o, codeUsed, c);
      d.Some? && d.value.plan.Some? ==> forall x :: HasAccess(Apply(x, d.value.plan.value), c.t4)
  {
    hide Unending, Renews, Outbid, HeldDevices;
    PurchaseGivesAccess(u, plans[o.plan], Renews(plans, u, o.plan, c.t3), o.periods, o.devices, cfg.trial, c.t4);
  }

  lemma DecisionIsWorthwhile(w: World, thread: int, codeUsed: bool, c: Clock)
    requires Can(w, Decide(thread, codeUsed, c)) && w.now >= 0
    ensures var v := Next(w, Decide(thread, codeUsed, c)); v.lock.Some? ==> Worthwhile(v.lock.value)
  {
    var (id, o) := w.jobs[thread];
    var d := Decision(w.cfg, w.plans, SubOf(w, o.user), o, codeUsed, c);
    if d.Some? && d.value.plan.Some? && o.plan in w.plans && !Unending(w.plans[o.plan], w.cfg.trial) {
      DecisionGivesAccess(w.cfg, w.plans, w.subs[o.user], o, codeUsed, c);
    }
    hide Decision, HasAccess, Apply, Unending;
  }

  lemma StepKeepsWorth(w: World, step: Step)
    requires Can(w, step) && w.now >= 0 && (w.lock.Some? ==> Worthwhile(w.lock.value))
    ensures var v := Next(w, step); v.now >= 0 && (v.lock.Some? ==> Worthwhile(v.lock.value))
  {
    if step.Decide? {
      DecisionIsWorthwhile(w, step.thread, step.codeUsed, step.c);
      hide Worthwhile, Decision;
    } else {
      hide Worthwhile, Decided;
    }
  }

  lemma {:induction false} HolderIsWorthwhile(w0: World, steps: seq<Step>, w: World)
    requires Initial(w0) && w0.now >= 0 && Runs(w0, steps, w)
    ensures w.now >= 0 && (w.lock.Some? ==> Worthwhile(w.lock.value))
  {
    hide Worthwhile, Can, Next;
    if steps != [] {
      var earlier, last := steps[..|steps| - 1], steps[|steps| - 1];
      var v :| Runs(w0, earlier, v) && Goes(v, last, w);
      HolderIsWorthwhile(w0, earlier, v);
      StepKeepsWorth(v, last);
    }
  }

  /** Main result. A plan bought for money gives its user access the moment it is granted: a term with
      no end or one after the clock it was decided by, and a quota that is unlimited or unspent. */
  lemma GrantedPlanGivesAccess(w0: World, steps: seq<Step>, w: World)
    requires Initial(w0) && w0.now >= 0 && Runs(w0, steps, w) && w.lock.Some? && w.lock.value.bought.Some?
    ensures w.lock.value.id in w.orders
    ensures var h := w.lock.value; var o := w.orders[h.id]; var v := Next(w, Claim);
      o.status != Paid && o.user in w.wallet && v.orders[h.id].kind == ForPlan ==>
        o.user in v.subs && HasAccess(v.subs[o.user], h.read.c.t4)
  {
    HolderIsWorthwhile(w0, steps, w);
    MoneyIsConserved(w0, steps, w);
    ClaimHasOneOutcome(w, Total(w0.wallet));
    hide HasAccess, Apply, Next, Balanced;
  }

  /** An expiry sweep, however stale its list, touches no term that is endless or ends in the future. It puts
      on the free plan, with the counter at zero, exactly a user whose term on another one had ended by its
      tick. */
  lemma DowngradeSparesTheFuture(w: World, user: Id, tick: int, u: Id)
    requires Can(w, Downgrade(user, tick)) && u in w.subs
    ensures var v := Next(w, Downgrade(user, tick));
      u in v.subs &&
      (w.subs[u].expireAt == 0 || w.subs[u].expireAt > w.now ==> v.subs[u] == w.subs[u]) &&
      (if u == user && w.subs[u].plan != w.cfg.free && w.subs[u].expireAt != 0 && w.subs[u].expireAt <= tick
       then v.subs[u].plan == w.plans[w.cfg.free].id && (w.plans[w.cfg.free].id == w.cfg.free ==> v.subs[u].used == 0)
       else v.subs[u] == w.subs[u])
  {
  }

  // ---- renewals ---------------------------------------------------------------------------

  /** An order to renew the active plan, for the devices held, is granted as a renewal with the banked days
      on top, and leaves the next one in the same position. */
  lemma RenewalIsGranted(cfg: Settings, plans: map<Id, Plan>, u: Sub, o: Order, c: Clock)
    requires Keyed(plans)
    requires o.kind == ForPlan && !o.usesCode && o.plan in plans && o.plan != 0 && o.balance >= 0
    requires ActivePaid(plans, u, c.t4) == Some(plans[o.plan]) && plans[o.plan].period > 0
    requires 0 <= c.t1 <= c.t2 <= c.t3 <= c.t4 && o.devices == HeldDevices(u, plans[o.plan]) && o.devices >= 0
    ensures var p := plans[o.plan]; var next := Renewed(u, p, cfg.trial, Renewal(o.periods, o.devices, c.t4));
      var d := Decision(cfg, plans, Some(u), o, false, c);
      var after := next.(expireAt := next.expireAt + u.banked * DAY, banked := 0);
      d.Some? && d.value.plan.Some? && Delivered(u, d.value.plan.value, d.value.bonus) == after &&
      ActivePaid(plans, after, c.t4) == Some(p) && HeldDevices(after, p) == o.devices
  {
    RenewalMovesTheEnd(u, plans[o.plan], o.periods, o.devices, cfg.trial, c.t4);
    if o.periods > 1 { assert plans[o.plan].period * o.periods > 0; }
    assert Renews(plans, u, o.plan, c.t3) && !Outbid(plans, u, o.plan, c.t1);
    hide StartsOver, KeepsRefill, PlanCycle, TermEnd;
  }

  /** The user is on a plan for money that has not run out at the instant; a lifetime one never does. */
  predicate Running(plans: map<Id, Plan>, u: Sub, at: int) {
    u.plan != 0 && u.plan in plans && plans[u.plan].price > 0 && (plans[u.plan].period > 0 ==> u.expireAt > at)
  }

  /** The extra devices the user has on their plan, as far as it still sells any. */
  function DevicesOn(u: Sub, p: Plan): int {
    if p.devicePrice > 0 && p.deviceMax > 0 && p.devices > 0 && p.period > 0
    then if u.extra <= p.deviceMax then u.extra else p.deviceMax
    else 0
  }

  /** A payment for a plan goes onto the balance exactly if, with the wallet on, its code is used up or a
      running plan is another one or has no period; or if it renews the running plan for other devices than
      the user has. It fails exactly if it does not, and there is no such plan to grant. */
  lemma BankedIff(cfg: Settings, plans: map<Id, Plan>, u: Sub, o: Order, codeUsed: bool, c: Clock)
    requires Keyed(plans) && o.kind == ForPlan
    ensures var d := Decision(cfg, plans, Some(u), o, codeUsed, c);
      var banked :=
        (cfg.wallet &&
          ((o.usesCode && codeUsed) ||
           (Running(plans, u, c.t1) && (o.plan != u.plan || plans[u.plan].period <= 0)))) ||
        (Running(plans, u, c.t2) && o.plan == u.plan && o.devices != DevicesOn(u, plans[u.plan]));
      (d.Some? && d.value.plan.None? <==> banked) &&
      (banked ==> d.value.asTopup && d.value.credit == 100 * o.amount && d.value.debit == 0) &&
      (d.None? <==> !banked && if o.plan == 0 then o.periods > 1 else o.plan !in plans)
  {
    hide WriteForPeriods, ManualWrite;
  }

  /** An order for the plan held, decided while it runs, is granted only for the devices the user has, and
      leaves them so: those the plan still sells stay, and are counted with the plan's own. */
  lemma RenewalKeepsDevices(cfg: Settings, plans: map<Id, Plan>, u: Sub, o: Order, codeUsed: bool, c: Clock)
    requires Keyed(plans) && o.kind == ForPlan && o.plan == u.plan && Running(plans, u, c.t2)
    requires u.extra >= 0 && plans[u.plan].deviceMax >= 0
    ensures var d := Decision(cfg, plans, Some(u), o, codeUsed, c); var p := plans[u.plan];
      d.Some? && d.value.plan.Some? ==>
        var after := Delivered(u, d.value.plan.value, d.value.bonus);
        after.extra == DevicesOn(u, p) && after.devices == p.devices + DevicesOn(u, p)
  {
    BankedIff(cfg, plans, u, o, codeUsed, c);
    hide StartsOver, KeepsRefill, PlanCycle, TermEnd;
  }

  /** A user with no active paid plan gets the plan they paid for, from now on. */
  lemma FirstPurchaseIsGranted(cfg: Settings, plans: map<Id, Plan>, u: Sub, o: Order, c: Clock)
    requires Keyed(plans)
    requires o.kind == ForPlan && !o.usesCode && o.plan in plans && o.plan != 0
    requires c.t1 <= c.t2 <= c.t3 <= c.t4 && ActivePaid(plans, u, c.t1).None?
    ensures var d := Decision(cfg, plans, Some(u), o, false, c);
      d.Some? &&
      var bought := WriteForPeriods(u, plans[o.plan], false, true, o.periods, o.devices, cfg.trial, c.t4);
      d.value.plan == Some(WithBanked(bought, u)) && d.value.bonus == (if bought.expireAt > 0 then u.banked else 0)
  {
  }

  /** With the wallet on, or for a renewal of the plan held, no decision shortens or replaces a paid term
      that is running: whatever it grants is the same plan, ending at least as many days later as were
      bought and banked, and exactly as many unless the term runs out before the end is computed. */
  lemma PaidTermOnlyGrows(cfg: Settings, plans: map<Id, Plan>, u: Sub, o: Order, codeUsed: bool, c: Clock)
    requires Keyed(plans)
    requires o.kind == ForPlan && 0 <= c.t1 <= c.t2 <= c.t3 <= c.t4
    requires ActivePaid(plans, u, c.t1).Some?
    requires cfg.wallet || (o.plan == u.plan && plans[u.plan].period > 0)
    ensures var d := Decision(cfg, plans, Some(u), o, codeUsed, c); var p := plans[u.plan];
      d.Some? && d.value.plan.Some? ==>
        var after := Delivered(u, d.value.plan.value, d.value.bonus);
        var end := u.expireAt + (DaysBought(p, o.periods) + u.banked) * DAY;
        o.plan == u.plan && after.plan == u.plan && p.period > 0 && after.banked == 0 &&
        after.expireAt >= end && (after.expireAt == end <==> u.expireAt >= c.t4)
  {
    var p := plans[u.plan];
    if p.period > 0 && o.plan == u.plan {
      ExtendsOrNot(u, p, o.periods, o.devices, cfg.trial, c.t3, c.t4);
      hide WriteForPeriods, DaysBought, HeldDevices;
    }
  }

  /** A term that ran out before the last look is a new one from then on, which is no less. */
  lemma ExtendsOrNot(u: Sub, p: Plan, periods: int, devices: int, trial: int, seen: int, now: int)
    requires p.id == u.plan && !Unending(p, trial) && p.period > 0 && 0 <= seen <= now
    ensures var w := WriteForPeriods(u, p, u.expireAt > seen, true, periods, devices, trial, now);
      var end := u.expireAt + DaysBought(p, periods) * DAY;
      w.plan == p.id && w.expireAt > 0 && w.expireAt >= end && (w.expireAt == end <==> u.expireAt >= now)
  {
    if periods > 1 { assert p.period * periods > 0; }
    hide StartsOver, KeepsRefill, PlanCycle, Extra;
  }

  /** A running paid plan is replaced by another one exactly by an order for that other one, confirmed
      while the wallet is off. */
  lemma ReplacedIff(cfg: Settings, plans: map<Id, Plan>, u: Sub, o: Order, codeUsed: bool, c: Clock)
    requires Keyed(plans) && o.kind == ForPlan && ActivePaid(plans, u, c.t1).Some?
    ensures var d := Decision(cfg, plans, Some(u), o, codeUsed, c);
      d.Some? && d.value.plan.Some? ==>
        (Apply(u, d.value.plan.value).plan != u.plan <==> !cfg.wallet && o.plan != u.plan)
  {
    if o.plan in plans && o.plan != 0 {
      hide HeldDevices, StartsOver, KeepsRefill, Extra, PlanCycle, TermEnd;
      assert plans[o.plan].id == o.plan;
    }
  }

  /** Without the wallet a payment for another plan still replaces the term that is running. */
  lemma WithoutAWalletATermIsReplaced()
    ensures exists cfg: Settings, plans: map<Id, Plan>, u: Sub, o: Order, c: Clock ::
      !cfg.wallet && ActivePaid(plans, u, c.t4).Some? && Replaces(cfg, plans, u, o, c)
  {
    var gold := Plan(1, 100, 30, 0, None, 1, 0, 0, 0, {});
    var silver := Plan(2, 50, 30, 0, None, 1, 0, 0, 0, {});
    var u := Sub(1, 100 * DAY, 0, 0, Never, 0, 1, 0, 0, false, 0, {}, {}, 0, 0);
    var o := Order(1, 2, 50, 0, 1, 0, false, ForPlan, Pending);
    var cfg, plans, c := Settings(false, 0, 0, NO_REWARD), map[1 := gold, 2 := silver], Clock(0, 0, 0, 0, 0);
    assert Replaces(cfg, plans, u, o, c);
  }

  predicate Replaces(cfg: Settings, plans: map<Id, Plan>, u: Sub, o: Order, c: Clock) {
    var d := Decision(cfg, plans, Some(u), o, false, c);
    d.Some? && d.value.plan.Some? && d.value.plan.value.plan != u.plan && d.value.plan.value.expireAt < u.expireAt
  }

  // ---- a payment that is lost -------------------------------------------------------------

  const NOBODY := Order(1, 0, 5, 0, 1, 0, false, Topup, Pending)

  const BEFORE := World(0, Settings(true, 0, 0, NO_REWARD), map[], map[], map[], map[7 := NOBODY], map[], None,
                        Books(0, 0, 0, 0, 0, [], []))

  lemma RunOn(w0: World, steps: seq<Step>, v: World, step: Step, w: World)
    requires Runs(w0, steps, v) && Goes(v, step, w)
    ensures Runs(w0, steps + [step], w)
  {
    assert (steps + [step])[..|steps|] == steps;
  }

  lemma StandingStill(w: World)
    ensures Runs(w, [], w)
  {
  }

  const READ := Reading(Settings(true, 0, 0, NO_REWARD), map[], false, Clock(0, 0, 0, 0, 0))

  const STARTED := BEFORE.(jobs := map[0 := (7, NOBODY)])

  const DECIDED := BEFORE.(lock := Some(Holder(0, 7, NOBODY, Spec(500, 0, None, 0, false, NO_REWARD, 0), READ, None)))

  lemma LostSteps()
    ensures Initial(BEFORE) && Goes(BEFORE, Start(0, 7), STARTED)
    ensures Goes(STARTED, Decide(0, false, Clock(0, 0, 0, 0, 0)), DECIDED)
  {
    assert STARTED.jobs - {0} == map[];
    assert Decision(STARTED.cfg, STARTED.plans, None, NOBODY, false, Clock(0, 0, 0, 0, 0)) ==
      Some(Spec(500, 0, None, 0, false, NO_REWARD, 0));
  }

  lemma LostClaim() returns (w: World)
    ensures Goes(DECIDED, Claim, w) && 7 in w.orders && w.orders[7].status == Paid && w.books.lost == 500
  {
    w := Next(DECIDED, Claim);
  }

  /** The top-up of a deleted user: the order becomes paid and no balance grows. */
  lemma TopupOfADeletedUserIsLost()
    ensures Initial(BEFORE)
    ensures exists steps, w ::
      Runs(BEFORE, steps, w) && 7 in w.orders && w.orders[7].status == Paid && w.books.lost == 500
  {
    hide Runs, Goes, Initial;
    LostSteps();
    StandingStill(BEFORE);
    var start, decide := Start(0, 7), Decide(0, false, Clock(0, 0, 0, 0, 0));
    RunOn(BEFORE, [], BEFORE, start, STARTED);
    RunOn(BEFORE, [] + [start], STARTED, decide, DECIDED);
    var w := LostClaim();
    RunOn(BEFORE, [] + [start] + [decide], DECIDED, Claim, w);
  }
}
