/** Paid terms over whole runs of Orders. What the plan lock is held for: the end a confirmer is about to
    write extends the row as it stands, so no interleaving of confirmers and sweeps loses a day. */
module Terms {
  import opened Common
  import opened Plans
  import opened Claims
  import opened Orders

  // ---- the row a confirmer read is the row it writes over ----------------------------------

  /** What the lock holder is about to commit is what it would decide on the user's row as it is now. */
  ghost predicate Current(w: World, h: Holder) {
    var r := h.read;
    && 0 <= r.c.t1 <= r.c.t2 <= r.c.t3 <= r.c.t4 <= w.now && Keyed(r.plans)
    && r.c.t0 <= r.c.t1 && h.spec.now == r.c.t0
    && (h.order.user in w.subs ==>
        Decision(r.cfg, r.plans, Some(w.subs[h.order.user]), h.order, r.codeUsed, r.c) == Some(h.spec))
  }

  /** A grant belongs to a claim, and no order is granted or rewarded twice. */
  predicate GrantedOnce(b: Books) {
    && (forall g :: g in b.grants ==> g.id in b.claims)
    && (forall i, j :: 0 <= i < j < |b.grants| && b.grants[i].id == b.grants[j].id ==>
          b.grants[i].Bought? && b.grants[j].Gift?)
  }

  ghost predicate Ready(w: World) {
    && Shaped(w) && ClaimedOnce(w) && GrantedOnce(w.books) && Keyed(w.plans) && w.now >= 0
    && (w.lock.Some? ==> Current(w, w.lock.value))
  }

  lemma DecideIsCurrent(w: World, thread: int, codeUsed: bool, c: Clock)
    requires Keyed(w.plans) && w.now >= 0 && Can(w, Decide(thread, codeUsed, c))
    ensures var v := Next(w, Decide(thread, codeUsed, c));
      Keyed(v.plans) && v.books == w.books && v.now >= 0 && (v.lock.Some? ==> Current(v, v.lock.value))
  {
    var o := w.jobs[thread].1;
    DecisionIsDated(w.cfg, w.plans, SubOf(w, o.user), o, codeUsed, c);
    hide Decision, Keyed, Unending;
  }

  lemma DecisionIsDated(cfg: Settings, plans: map<Id, Plan>, u: Option<Sub>, o: Order, codeUsed: bool, c: Clock)
    ensures var d := Decision(cfg, plans, u, o, codeUsed, c); d.Some? ==> d.value.now == c.t0 && d.value.ref == cfg.ref
  {
  }

  lemma ClaimGrantsOnce(w: World)
    requires ClaimedOnce(w) && GrantedOnce(w.books) && w.lock.Some?
    ensures GrantedOnce(Claimed(w, w.lock.value).books)
  {
    var h := w.lock.value;
    if GoesThrough(w, h) {
      var o := w.orders[h.id];
      assert h.id !in w.books.claims;
      BookedGrantsOnce(w.books, h.id, o, o.user in w.wallet, Delivers(w.wallet, o.user, h.spec), RewardOf(w, h));
    }
    hide ClaimedOnce, GrantedOnce, Delivers, WalletAfter, SubsAfter, OrderAfter, Earned, RewardOf, Booked;
  }

  lemma BookedGrantsOnce(b: Books, id: Id, o: Order, known: bool, applied: bool, g: Reward)
    requires GrantedOnce(b) && id !in b.claims
    ensures GrantedOnce(Booked(b, id, o, known, applied, g))
  {
    var c := Booked(b, id, o, known, applied, g);
    forall i | 0 <= i < |b.grants| ensures c.grants[i] == b.grants[i] && b.grants[i].id != id {
      assert b.grants[i] in b.grants;
    }
    forall k | k in c.grants ensures k.id in c.claims {
      if k in b.grants { assert k.id in b.claims; }
    }
  }

  /** A row with the traffic counted and the referrer set meanwhile. */
  function Touched(u: Sub, used: int, referrer: Id): Sub {
    u.(used := used, referrer := referrer)
  }

  /** No decision reads the traffic counter or the referrer. */
  lemma TouchIsNotRead(w: World, v: World)
    requires w.lock.Some? && Current(w, w.lock.value) && v.now >= w.now
    requires var x := w.lock.value.order.user; x in v.subs ==>
      x in w.subs && v.subs[x] == Touched(w.subs[x], v.subs[x].used, v.subs[x].referrer)
    ensures Current(v, w.lock.value)
  {
    var r, o := w.lock.value.read, w.lock.value.order;
    if o.user in v.subs {
      DecisionIgnores(r.cfg, r.plans, w.subs[o.user], v.subs[o.user].used, v.subs[o.user].referrer, o, r.codeUsed, r.c);
    }
    hide Decision, Keyed;
  }

  lemma DecisionIgnores(cfg: Settings, plans: map<Id, Plan>, u: Sub, used: int, referrer: Id, o: Order, codeUsed: bool,
                        c: Clock)
    ensures Decision(cfg, plans, Some(Touched(u, used, referrer)), o, codeUsed, c)
         == Decision(cfg, plans, Some(u), o, codeUsed, c)
  {
    var v := Touched(u, used, referrer);
    assert ActivePaid(plans, v, c.t1) == ActivePaid(plans, u, c.t1);
    assert ActivePaid(plans, v, c.t2) == ActivePaid(plans, u, c.t2);
    assert ActivePaid(plans, v, c.t3) == ActivePaid(plans, u, c.t3);
    if o.plan in plans {
      var extend := Renews(plans, u, o.plan, c.t3);
      WriteIgnores(u, used, referrer, plans[o.plan], extend, o.periods, o.devices, cfg.trial, c.t4);
    }
    hide ActivePaid, HeldDevices, WriteForPeriods;
  }

  lemma WriteIgnores(u: Sub, used: int, referrer: Id, p: Plan, extend: bool, periods: int, devices: int, trial: int,
                     now: int)
    ensures HeldDevices(Touched(u, used, referrer), p) == HeldDevices(u, p)
    ensures WriteForPeriods(Touched(u, used, referrer), p, extend, true, periods, devices, trial, now)
         == WriteForPeriods(u, p, extend, true, periods, devices, trial, now)
  {
    DaysIgnore(u, used, referrer, p, extend, -1, devices, trial, now);
    DaysIgnore(u, used, referrer, p, extend, p.period * periods, devices, trial, now);
    hide WriteForDays;
  }

  lemma DaysIgnore(u: Sub, used: int, referrer: Id, p: Plan, extend: bool, days: int, devices: int, trial: int,
                   now: int)
    ensures WriteForDays(Touched(u, used, referrer), p, extend, true, days, devices, trial, now)
         == WriteForDays(u, p, extend, true, days, devices, trial, now)
  {
    var v := Touched(u, used, referrer);
    var term := if days < 0 then p.period else days;
    assert TermEnd(v, p, extend, term, trial, now) == TermEnd(u, p, extend, term, trial, now);
    var end := TermEnd(u, p, extend, term, trial, now);
    assert StartsOver(v, p, true, trial) == StartsOver(u, p, true, trial);
    assert KeepsRefill(v, p, trial, end, now) == KeepsRefill(u, p, trial, end, now);
    assert Extra(v, p, devices) == Extra(u, p, devices);
    hide TermEnd, StartsOver, KeepsRefill, Extra, PlanCycle, Unending;
  }

  lemma StepStaysCurrent(w: World, step: Step)
    requires Ready(w) && Can(w, step)
    ensures var v := Next(w, step);
      GrantedOnce(v.books) && Keyed(v.plans) && v.now >= 0 && (v.lock.Some? ==> Current(v, v.lock.value))
  {
    hide Shaped, Decision;
    if step.Decide? {
      DecideIsCurrent(w, step.thread, step.codeUsed, step.c);
      hide Current, Keyed, Decided;
    } else if step.Claim? {
      ClaimGrantsOnce(w);
      hide Current, Keyed, ClaimedOnce, GrantedOnce, RollsBack, Earned, RewardOf;
    } else if step.Use? || step.Refer? || step.Delete? {
      if w.lock.Some? { TouchIsNotRead(w, Next(w, step)); }
      hide Current, Keyed, ClaimedOnce, GrantedOnce;
    } else {
      hide Keyed, Decided, Claimed, ClaimedOnce, GrantedOnce, Downgraded;
    }
  }

  lemma StepStaysReady(w: World, start: int, step: Step)
    requires Inv(w, start) && Ready(w) && Can(w, step)
    ensures Ready(Next(w, step))
  {
    StepKeepsInv(w, start, step);
    StepStaysCurrent(w, step);
    hide Shaped, ClaimedOnce, Balanced, GrantedOnce, Keyed, Current, Next, Can;
  }

  /** In every run the lock holder's decision is one on the row as it stands, and no order is granted
      twice. */
  lemma {:induction false} RunStaysReady(w0: World, steps: seq<Step>, w: World)
    requires Initial(w0) && Runs(w0, steps, w)
    ensures Ready(w)
  {
    hide Ready, Inv, Can, Next, Initial;
    if steps == [] {
      StartIsReady(w0);
    } else {
      var earlier, last := steps[..|steps| - 1], steps[|steps| - 1];
      var v :| Runs(w0, earlier, v) && Goes(v, last, w);
      RunStaysReady(w0, earlier, v);
      MoneyIsConserved(w0, earlier, v);
      StepStaysReady(v, Total(w0.wallet), last);
    }
  }

  lemma StartIsReady(w: World)
    requires Initial(w)
    ensures Ready(w)
  {
  }

  // ---- one claim ---------------------------------------------------------------------------

  /** Main result on one claim. In every run: a claim for a user whose paid term ran when it was read, decided
      with the wallet on or for the plan held, leaves the user's row as it is or moves its end, on the same
      plan, by at least the days bought and banked, counted from the end the row has at the claim; by exactly
      those days unless the term had run out when the new end was computed. */
  lemma ClaimMovesTheEnd(w0: World, steps: seq<Step>, w: World)
    requires Initial(w0) && Runs(w0, steps, w) && w.lock.Some?
    ensures var h := w.lock.value; var x := h.order.user; var v := Next(w, Claim);
      x in w.subs && ActivePaid(h.read.plans, w.subs[x], h.read.c.t1).Some? && KeepsPlan(h, w.subs[x]) ==>
        x in v.subs && (v.subs[x] == w.subs[x] || Extended(w.subs[x], v.subs[x], h))
  {
    RunStaysReady(w0, steps, w);
    var h := w.lock.value;
    var x := h.order.user;
    if x in w.subs && ActivePaid(h.read.plans, w.subs[x], h.read.c.t1).Some? && KeepsPlan(h, w.subs[x]) {
      if h.order.kind == ForPlan {
        PaidTermOnlyGrows(h.read.cfg, h.read.plans, w.subs[x], h.order, h.read.codeUsed, h.read.c);
      }
      ClaimOnItsUser(w);
      DecisionIsFair(h.read.cfg, h.read.plans, Some(w.subs[x]), h.order, h.read.codeUsed, h.read.c);
    }
    hide Delivered, Runs, Initial, Claimed, Decision, Shaped, GrantedOnce;
  }

  /** The claim grants the plan. */
  predicate Grants(w: World, h: Holder) {
    GoesThrough(w, h) && h.order.user in w.wallet && Delivers(w.wallet, h.order.user, h.spec)
  }

  function GiftOf(id: Id, g: Reward): seq<Grant> {
    if g.Time? then [Gift(id, g.user, g.days)] else []
  }

  /** What a claim writes on its user's row, and in the books. */
  lemma ClaimOnItsUser(w: World)
    requires Ready(w) && w.lock.Some?
    ensures var h := w.lock.value; var x, v := h.order.user, Next(w, Claim);
      (x in w.subs ==>
        x in v.subs &&
        v.subs[x] == if Grants(w, h) then Delivered(w.subs[x], h.spec.plan.value, h.spec.bonus) else w.subs[x]) &&
      v.books.grants == w.books.grants
        + (if Grants(w, h) then [Bought(h.id, x, h.order.plan, h.order.periods)] else [])
        + (if GoesThrough(w, h) then GiftOf(h.id, RewardOf(w, h)) else [])
  {
    var h := w.lock.value;
    if GoesThrough(w, h) {
      ClaimAfter(w, h);
      assert Claimed(w, h).books.grants == w.books.grants
        + (if Grants(w, h) then [Bought(h.id, h.order.user, h.order.plan, h.order.periods)] else [])
        + GiftOf(h.id, RewardOf(w, h));
    }
    hide Delivered, Earned, RewardOf, Current, GrantedOnce, RewardedSubs, RewardedWallet, OrderAfter, RollsBack;
  }

  /** The order is for the plan held, or the wallet is on. */
  predicate KeepsPlan(h: Holder, u: Sub)
    requires u.plan in h.read.plans
  {
    h.read.cfg.wallet || (h.order.plan == u.plan && h.read.plans[u.plan].period > 0)
  }

  /** And a claim, whatever the settings, puts a user off a paid plan that was running exactly by granting
      an order for another one that was decided with the wallet off. */
  lemma ClaimReplacesIff(w0: World, steps: seq<Step>, w: World)
    requires Initial(w0) && Runs(w0, steps, w) && w.lock.Some?
    ensures var h := w.lock.value; var x := h.order.user; var v := Next(w, Claim);
      x in w.subs && ActivePaid(h.read.plans, w.subs[x], h.read.c.t1).Some? ==>
        x in v.subs &&
        (v.subs[x].plan != w.subs[x].plan <==>
          Grants(w, h) && !h.read.cfg.wallet && h.order.plan != w.subs[x].plan)
  {
    RunStaysReady(w0, steps, w);
    ClaimOnItsUser(w);
    var h := w.lock.value;
    if h.order.user in w.subs && h.order.kind == ForPlan &&
       ActivePaid(h.read.plans, w.subs[h.order.user], h.read.c.t1).Some? {
      ReplacedIff(h.read.cfg, h.read.plans, w.subs[h.order.user], h.order, h.read.codeUsed, h.read.c);
    }
    hide Apply, Runs, Initial, Claimed, GoesThrough;
  }

  /** Main result on devices. In every run: a claim that leaves a user on the plan that was running when their
      devices were looked at either leaves the row as it is, or leaves them exactly the extra devices they
      had, as far as the plan still sells them, counted with the plan's own. */
  lemma ClaimKeepsDevices(w0: World, steps: seq<Step>, w: World)
    requires Initial(w0) && Runs(w0, steps, w) && w.lock.Some?
    ensures var h := w.lock.value; var x := h.order.user; var v := Next(w, Claim);
      x in w.subs && Running(h.read.plans, w.subs[x], h.read.c.t2) &&
      w.subs[x].extra >= 0 && h.read.plans[w.subs[x].plan].deviceMax >= 0 ==>
        x in v.subs &&
        (v.subs[x].plan == w.subs[x].plan && v.subs[x] != w.subs[x] ==>
           var p := h.read.plans[w.subs[x].plan];
           v.subs[x].extra == DevicesOn(w.subs[x], p) && v.subs[x].devices == p.devices + DevicesOn(w.subs[x], p))
  {
    RunStaysReady(w0, steps, w);
    ClaimOnItsUser(w);
    var h := w.lock.value;
    var x := h.order.user;
    if x in w.subs && h.order.kind == ForPlan && Running(h.read.plans, w.subs[x], h.read.c.t2) &&
       w.subs[x].extra >= 0 && h.read.plans[w.subs[x].plan].deviceMax >= 0 {
      GrantIsOfItsPlan(h.read.cfg, h.read.plans, w.subs[x], h.order, h.read.codeUsed, h.read.c);
      if h.order.plan == w.subs[x].plan {
        RenewalKeepsDevices(h.read.cfg, h.read.plans, w.subs[x], h.order, h.read.codeUsed, h.read.c);
      }
    }
    hide Delivered, Runs, Initial, Claimed, Shaped, GrantedOnce, DevicesOn;
  }

  /** A grant puts the user on the plan ordered. */
  lemma GrantIsOfItsPlan(cfg: Settings, plans: map<Id, Plan>, u: Sub, o: Order, codeUsed: bool, c: Clock)
    requires Keyed(plans) && o.kind == ForPlan
    ensures var d := Decision(cfg, plans, Some(u), o, codeUsed, c);
      d.Some? && d.value.plan.Some? ==> Delivered(u, d.value.plan.value, d.value.bonus).plan == o.plan
  {
    hide Renews, Outbid, HeldDevices, TermEnd, StartsOver, KeepsRefill, Extra, PlanCycle;
  }

  /** The end moved by the days bought and banked, or by more if the term had run out by then. */
  predicate Extended(u: Sub, after: Sub, h: Holder) {
    after.plan == u.plan && after.banked == 0 && u.plan in h.read.plans &&
    var end := u.expireAt + (DaysBought(h.read.plans[u.plan], h.order.periods) + u.banked) * DAY;
    after.expireAt >= end && (after.expireAt == end <==> u.expireAt >= h.read.c.t4)
  }

  // ---- every run ---------------------------------------------------------------------------

  predicate Sells(plans: map<Id, Plan>, p: Plan) {
    p.id in plans && plans[p.id] == p
  }

  /** The user is on the plan, the term is running, and so it is for whoever decides on it. */
  predicate Holding(w: World, x: Id, p: Plan) {
    && p.id != 0 && !IsFree(p) && p.period > 0 && Sells(w.plans, p)
    && x in w.subs && w.subs[x].plan == p.id && w.now < w.subs[x].expireAt
    && (w.lock.Some? && w.lock.value.order.user == x ==> Sells(w.lock.value.read.plans, p))
  }

  /** Neither the user's row nor the plan is changed by hand. */
  predicate Leaves(step: Step, x: Id, p: Plan) {
    match step
    case Rewrite(user, sub) => user != x
    case Delete(user) => user != x
    case Configure(cfg, plans) => Sells(plans, p)
    case _ => true
  }

  /** What ClaimReplacesIff speaks of: the user is granted another plan, decided with the wallet off. */
  predicate Switches(w: World, step: Step, x: Id, p: Plan) {
    step.Claim? && w.lock.Some? &&
    var h := w.lock.value;
    h.order.user == x && Grants(w, h) && !h.read.cfg.wallet && h.order.plan != p.id
  }

  /** A run that does none of that, and in which the user's term does not run out. */
  ghost predicate RunsCovered(w0: World, steps: seq<Step>, w1: World, x: Id, p: Plan) {
    if steps == [] then w0 == w1
    else
      var earlier, last := steps[..|steps| - 1], steps[|steps| - 1];
      exists v :: RunsCovered(w0, earlier, v, x, p) && GoesCovered(v, last, w1, x, p)
  }

  ghost predicate GoesCovered(v: World, step: Step, w: World, x: Id, p: Plan) {
    Goes(v, step, w) && Leaves(step, x, p) && !Switches(v, step, x, p) && x in w.subs && w.now < w.subs[x].expireAt
  }

  /** The days a grant gives a user: those of the plan bought, or those earned. */
  function DaysOf(p: Plan, g: Grant, x: Id): int {
    match g
    case Bought(_, user, plan, periods) => if user == x && plan == p.id then DaysBought(p, periods) else 0
    case Gift(_, user, days) => if user == x then days else 0
  }

  function DaysGranted(p: Plan, gs: seq<Grant>, x: Id): int {
    if gs == [] then 0 else DaysGranted(p, gs[..|gs| - 1], x) + DaysOf(p, gs[|gs| - 1], x)
  }

  lemma DaysOfOne(p: Plan, g: Grant, x: Id)
    ensures DaysGranted(p, [g], x) == DaysOf(p, g, x)
  {
    assert [g][..0] == [];
  }

  /** What was granted since. */
  function Since(v: World, w: World): seq<Grant>
    requires v.books.grants <= w.books.grants
  {
    w.books.grants[|v.books.grants|..]
  }

  /** The time a user has: up to the end of the term, and in the bank. */
  function Worth(u: Sub): int {
    u.expireAt + u.banked * DAY
  }

  /** What a step does to a user's time: exactly the days of the grants it makes them. None are banked. */
  ghost predicate Adds(v: World, w: World, x: Id, p: Plan)
    requires x in v.subs && x in w.subs
  {
    && v.books.grants <= w.books.grants
    && Worth(w.subs[x]) == Worth(v.subs[x]) + DaysGranted(p, Since(v, w), x) * DAY
    && w.subs[x].banked <= v.subs[x].banked
  }

  lemma HolderExtends(w: World, x: Id, p: Plan)
    requires Ready(w) && Holding(w, x, p) && w.lock.Some? && w.lock.value.order.user == x && Grants(w, w.lock.value)
    requires w.lock.value.read.cfg.wallet || w.lock.value.order.plan == p.id
    ensures var h := w.lock.value; var after := Delivered(w.subs[x], h.spec.plan.value, h.spec.bonus);
      h.order.plan == p.id && after.plan == p.id && after.banked == 0 &&
      after.expireAt == w.subs[x].expireAt + (DaysBought(p, h.order.periods) + w.subs[x].banked) * DAY
    ensures DaysBought(p, w.lock.value.order.periods) > 0
  {
    var h := w.lock.value;
    hide GoesThrough, Decision, Delivered, Delivers;
    assert h.order.kind == ForPlan && h.spec.plan.Some? by { GrantIsForPlan(w); }
    PaidTermOnlyGrows(h.read.cfg, h.read.plans, w.subs[x], h.order, h.read.codeUsed, h.read.c);
    if h.order.periods > 1 { assert p.period * h.order.periods > 0; }
  }

  lemma GrantIsForPlan(w: World)
    requires Ready(w) && w.lock.Some? && Grants(w, w.lock.value)
    ensures w.lock.value.order.kind == ForPlan && w.lock.value.spec.plan.Some?
  {
    hide GoesThrough;
  }

  /** Days earned while the term runs go onto it. */
  lemma GiftExtends(w: World, x: Id, p: Plan, days: nat, now: int)
    requires Holding(w, x, p) && now <= w.now
    ensures Lengthened(w.plans, w.subs[x], days, now)
      == w.subs[x].(expireAt := w.subs[x].expireAt + days * DAY)
  {
  }

  lemma ClaimAdds(w: World, x: Id, p: Plan)
    requires Ready(w) && Holding(w, x, p) && w.lock.Some? && !Switches(w, Claim, x, p)
    ensures var v := Next(w, Claim); Holding(v, x, p) && Adds(w, v, x, p)
  {
    var h := w.lock.value;
    if h.order.user == x {
      ClaimOnOwnTerm(w, x, p);
    } else {
      ClaimOnOthersTerm(w, x, p);
    }
  }

  lemma ClaimOnOwnTerm(w: World, x: Id, p: Plan)
    requires Ready(w) && Holding(w, x, p) && w.lock.Some? && !Switches(w, Claim, x, p) && w.lock.value.order.user == x
    ensures var v := Next(w, Claim); Holding(v, x, p) && Adds(w, v, x, p)
  {
    var h := w.lock.value;
    ClaimOnItsUser(w);
    RewardGoesElsewhere(w, h);
    if Grants(w, h) { HolderExtends(w, x, p); }
    ClaimKeepsClock(w);
    ClaimDays(w, x, p);
    hide Claimed, GoesThrough, RewardOf, Delivered, DaysBought, Current, Delivers, DaysGranted, Since;
  }

  lemma ClaimKeepsClock(w: World)
    requires w.lock.Some?
    ensures var v := Next(w, Claim); v.now == w.now && v.plans == w.plans && v.lock.None?
  {
    hide RollsBack, RewardOf;
  }

  lemma ClaimOnOthersTerm(w: World, x: Id, p: Plan)
    requires Ready(w) && Holding(w, x, p) && w.lock.Some? && w.lock.value.order.user != x
    ensures var v := Next(w, Claim); Holding(v, x, p) && Adds(w, v, x, p)
  {
    ClaimKeepsClock(w);
    ClaimOnAnother(w, x, p);
    ClaimDays(w, x, p);
    hide Claimed, RewardOf, Delivered, DaysBought, Delivers, Lengthened, GoesThrough, Ready, Next, DaysGranted, Since;
  }

  /** The days a claim grants a user. */
  lemma ClaimDays(w: World, x: Id, p: Plan)
    requires Ready(w) && w.lock.Some?
    ensures var h, v := w.lock.value, Next(w, Claim); var g := RewardOf(w, h);
      w.books.grants <= v.books.grants &&
      DaysGranted(p, Since(w, v), x)
        == (if Grants(w, h) && h.order.user == x && h.order.plan == p.id then DaysBought(p, h.order.periods) else 0)
         + (if GoesThrough(w, h) && g.Time? && g.user == x then g.days else 0)
  {
    var h := w.lock.value;
    var v, g := Next(w, Claim), RewardOf(w, h);
    ClaimOnItsUser(w);
    hide Claimed, RewardOf, DaysBought, GoesThrough, Ready, Next, Grants, DaysGranted;
    var bought := if Grants(w, h) then [Bought(h.id, h.order.user, h.order.plan, h.order.periods)] else [];
    var gift := if GoesThrough(w, h) then GiftOf(h.id, g) else [];
    assert Since(w, v) == bought + gift;
    DaysGrantedSum(p, bought, gift, x);
    DaysOfAtMostOne(p, bought, x);
    DaysOfAtMostOne(p, gift, x);
    hide Since;
  }

  lemma DaysOfAtMostOne(p: Plan, gs: seq<Grant>, x: Id)
    requires |gs| <= 1
    ensures DaysGranted(p, gs, x) == if gs == [] then 0 else DaysOf(p, gs[0], x)
  {
    if gs != [] {
      DaysOfOne(p, gs[0], x);
      assert gs == [gs[0]];
    }
  }

  lemma ClaimOnAnother(w: World, x: Id, p: Plan)
    requires Ready(w) && Holding(w, x, p) && w.lock.Some? && w.lock.value.order.user != x
    ensures var h, v := w.lock.value, Next(w, Claim); var g := RewardOf(w, h);
      x in v.subs && v.subs[x] ==
        if GoesThrough(w, h) && g.Time? && g.user == x
        then w.subs[x].(expireAt := w.subs[x].expireAt + g.days * DAY) else w.subs[x]
  {
    var h := w.lock.value;
    var g := RewardOf(w, h);
    if GoesThrough(w, h) {
      ClaimAfter(w, h);
      if g.Time? && g.user == x { GiftExtends(w, x, p, g.days, h.spec.now); }
    }
    hide RewardOf, Delivered, Delivers, Lengthened, WalletAfter, SubsAfter, RewardedSubs, RewardedWallet, Booked;
  }

  lemma NoDays(p: Plan, x: Id)
    ensures DaysGranted(p, [], x) == 0
  {
  }

  lemma StepAdds(v: World, step: Step, w: World, x: Id, p: Plan)
    requires Ready(v) && Holding(v, x, p) && GoesCovered(v, step, w, x, p)
    ensures Holding(w, x, p) && Adds(v, w, x, p)
  {
    if step.Claim? {
      ClaimAdds(v, x, p);
    } else {
      QuietStepLeaves(v, step, w, x, p);
      hide Ready, DaysGranted, Sells, IsFree, Switches, Leaves, Goes, Can, Next;
      assert DaysGranted(p, [], x) == 0 by { NoDays(p, x); }
    }
  }

  /** Every other step leaves the term alone, however stale a sweep's list. */
  lemma QuietStepLeaves(v: World, step: Step, w: World, x: Id, p: Plan)
    requires Holding(v, x, p) && Goes(v, step, w) && Leaves(step, x, p) && !step.Claim?
    ensures x in w.subs && w.subs[x] == Touched(v.subs[x], w.subs[x].used, w.subs[x].referrer)
    ensures w.books.grants == v.books.grants && Sells(w.plans, p)
    ensures w.lock.Some? && w.lock.value.order.user == x ==> Sells(w.lock.value.read.plans, p)
  {
    hide Decision, Apply, WriteForDays, IsFree, Claimed, Keyed;
  }

  lemma {:induction false} DaysGrantedSum(p: Plan, gs: seq<Grant>, more: seq<Grant>, x: Id)
    ensures DaysGranted(p, gs + more, x) == DaysGranted(p, gs, x) + DaysGranted(p, more, x)
  {
    if more == [] {
      assert gs + more == gs;
    } else {
      DaysGrantedSum(p, gs, more[..|more| - 1], x);
      assert (gs + more)[..|gs + more| - 1] == gs + more[..|more| - 1];
    }
  }

  lemma AddsUp(u: World, v: World, w: World, x: Id, p: Plan)
    requires x in u.subs && x in v.subs && x in w.subs && Adds(u, v, x, p) && Adds(v, w, x, p)
    ensures Adds(u, w, x, p)
  {
    DaysGrantedSum(p, Since(u, v), Since(v, w), x);
    assert Since(u, v) + Since(v, w) == Since(u, w);
    hide DaysGranted;
  }

  lemma {:induction false} CoveredRuns(w0: World, before: seq<Step>, v: World, steps: seq<Step>, w: World, x: Id,
                                       p: Plan)
    requires Runs(w0, before, v) && RunsCovered(v, steps, w, x, p)
    ensures Runs(w0, before + steps, w)
  {
    hide Goes, Leaves, Switches;
    if steps == [] {
      assert before + steps == before;
    } else {
      var earlier, last := steps[..|steps| - 1], steps[|steps| - 1];
      var u :| RunsCovered(v, earlier, u, x, p) && GoesCovered(u, last, w, x, p);
      CoveredRuns(w0, before, v, earlier, u, x, p);
      RunOn(w0, before + earlier, u, last, w);
      assert before + earlier + [last] == before + steps;
    }
  }

  /** Main result. From any reachable state, while a user's paid term runs, nobody edits their row or the plan
      by hand, and no order for another plan is granted to them with the wallet off: whatever racing
      confirmers, cancellations, expiry sweeps, deletions and settings come in between, the user stays on the
      plan, and the end of the term with the days in the bank moves by exactly the days bought for them and
      earned by whom they invited, each order counted once. */
  lemma {:induction false} RenewalsAddUp(w0: World, before: seq<Step>, v: World, steps: seq<Step>, w: World, x: Id,
                                         p: Plan)
    requires Initial(w0) && Runs(w0, before, v) && Holding(v, x, p) && RunsCovered(v, steps, w, x, p)
    ensures Ready(w) && Holding(w, x, p)
    ensures v.books.grants <= w.books.grants
    ensures Worth(w.subs[x]) == Worth(v.subs[x]) + DaysGranted(p, Since(v, w), x) * DAY
    ensures w.subs[x].banked <= v.subs[x].banked
  {
    hide Initial, Ready, Runs, GoesCovered;
    CoveredRuns(w0, before, v, steps, w, x, p);
    RunStaysReady(w0, before + steps, w);
    if steps == [] {
      assert Since(v, w) == [];
    } else {
      var earlier, last := steps[..|steps| - 1], steps[|steps| - 1];
      var u :| RunsCovered(v, earlier, u, x, p) && GoesCovered(u, last, w, x, p);
      RenewalsAddUp(w0, before, v, earlier, u, x, p);
      StepAdds(u, last, w, x, p);
      AddsUp(v, u, w, x, p);
    }
  }

  /** The plan sells devices, and the user has no more of them than it sells. */
  predicate HasDevices(u: Sub, p: Plan) {
    p.devicePrice > 0 && p.devices > 0 && p.period > 0 && 0 <= u.extra <= p.deviceMax && p.deviceMax > 0
  }

  lemma StepKeepsDevices(v: World, step: Step, w: World, x: Id, p: Plan)
    requires Ready(v) && Holding(v, x, p) && GoesCovered(v, step, w, x, p) && HasDevices(v.subs[x], p)
    ensures x in w.subs && w.subs[x].extra == v.subs[x].extra
  {
    if !step.Claim? {
      QuietStepLeaves(v, step, w, x, p);
      hide Ready, Next, Can, Sells, Leaves, Switches;
    } else if v.lock.value.order.user == x {
      ClaimKeepsOwnDevices(v, x, p);
      hide Ready, Next, Sells, Leaves;
    } else {
      ClaimOnAnother(v, x, p);
      hide Ready, Next, Sells, RewardOf, GoesThrough;
    }
  }

  lemma ClaimKeepsOwnDevices(v: World, x: Id, p: Plan)
    requires Ready(v) && Holding(v, x, p) && v.lock.Some? && v.lock.value.order.user == x && !Switches(v, Claim, x, p)
    requires HasDevices(v.subs[x], p)
    ensures var w := Next(v, Claim); x in w.subs && w.subs[x].extra == v.subs[x].extra
  {
    var h := v.lock.value;
    ClaimOnItsUser(v);
    if Grants(v, h) {
      GrantIsForPlan(v);
      HolderExtends(v, x, p);
      RenewalKeepsDevices(h.read.cfg, h.read.plans, v.subs[x], h.order, h.read.codeUsed, h.read.c);
    }
    hide Claimed, GoesThrough, Delivered, Decision, Grants, RewardOf, Shaped, ClaimedOnce, GrantedOnce, DaysBought;
  }

  /** Over all of such a run a user's extra devices on a plan that sells them stay: no renewal takes one away
      or adds one unpaid. */
  lemma {:induction false} DevicesStay(w0: World, before: seq<Step>, v: World, steps: seq<Step>, w: World, x: Id,
                                       p: Plan)
    requires Initial(w0) && Runs(w0, before, v) && Holding(v, x, p) && RunsCovered(v, steps, w, x, p)
    requires HasDevices(v.subs[x], p)
    ensures x in w.subs && w.subs[x].extra == v.subs[x].extra
  {
    hide Initial, Ready, Runs, GoesCovered;
    if steps != [] {
      var earlier, last := steps[..|steps| - 1], steps[|steps| - 1];
      var u :| RunsCovered(v, earlier, u, x, p) && GoesCovered(u, last, w, x, p);
      RenewalsAddUp(w0, before, v, earlier, u, x, p);
      DevicesStay(w0, before, v, earlier, u, x, p);
      StepKeepsDevices(u, last, w, x, p);
    }
  }

  lemma {:induction false} DaysGrantedWithout(p: Plan, gs: seq<Grant>, i: nat, x: Id)
    requires i < |gs|
    ensures DaysGranted(p, gs, x) == DaysGranted(p, gs[..i] + gs[i + 1..], x) + DaysGranted(p, [gs[i]], x)
  {
    DaysGrantedSum(p, gs[..i], gs[i + 1..], x);
    DaysGrantedSum(p, gs[..i], [gs[i]], x);
    DaysGrantedSum(p, gs[..i] + [gs[i]], gs[i + 1..], x);
    assert gs[..i] + [gs[i]] + gs[i + 1..] == gs;
  }

  lemma {:induction false} DaysAreUnordered(p: Plan, gs: seq<Grant>, hs: seq<Grant>, x: Id)
    requires multiset(gs) == multiset(hs)
    ensures DaysGranted(p, gs, x) == DaysGranted(p, hs, x)
    decreases |gs|
  {
    if gs == [] {
      assert |multiset(hs)| == 0;
    } else {
      var i := LastElsewhere(gs, hs);
      DaysAreUnordered(p, gs[..|gs| - 1], hs[..i] + hs[i + 1..], x);
      DaysGrantedWithout(p, hs, i, x);
      DaysGrantedWithout(p, gs, |gs| - 1, x);
      assert gs[..|gs| - 1] + gs[|gs|..] == gs[..|gs| - 1];
    }
  }

  lemma EndByGrants(w0: World, before: seq<Step>, v: World, steps: seq<Step>, w: World, x: Id, p: Plan)
    requires Initial(w0) && Runs(w0, before, v) && Holding(v, x, p) && RunsCovered(v, steps, w, x, p)
    ensures x in v.subs && x in w.subs
    ensures Worth(w.subs[x]) - Worth(v.subs[x])
         == (DaysGranted(p, w.books.grants, x) - DaysGranted(p, v.books.grants, x)) * DAY
  {
    hide Runs, RunsCovered, Initial, Ready, DaysGranted, Sells;
    RenewalsAddUp(w0, before, v, steps, w, x, p);
    DaysGrantedSum(p, v.books.grants, Since(v, w), x);
    assert v.books.grants + Since(v, w) == w.books.grants;
  }

  /** So two interleavings that grant the same leave the user with the same time. */
  lemma AnyInterleavingAddsUp(w0: World, before: seq<Step>, v: World, steps1: seq<Step>, w1: World, steps2: seq<Step>,
                              w2: World, x: Id, p: Plan)
    requires Initial(w0) && Runs(w0, before, v) && Holding(v, x, p)
    requires RunsCovered(v, steps1, w1, x, p) && RunsCovered(v, steps2, w2, x, p)
    requires multiset(w1.books.grants) == multiset(w2.books.grants)
    ensures x in w1.subs && x in w2.subs && Worth(w1.subs[x]) == Worth(w2.subs[x])
  {
    hide DaysGranted, Runs, RunsCovered, Initial, Holding;
    EndByGrants(w0, before, v, steps1, w1, x, p);
    EndByGrants(w0, before, v, steps2, w2, x, p);
    DaysAreUnordered(p, w1.books.grants, w2.books.grants, x);
  }
}
