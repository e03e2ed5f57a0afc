/** Measures against blocklist traffic (internal/core/manager_abuse_measures.go): a ladder of warning,
    throttle and switch-off that the panel climbs on its own and lifts when the time is up, beside an
    operator who may set the same fields by hand. */
module AbuseMeasures {
  import opened Common

  datatype Measure = Nothing | Throttle | Disable

  /** The columns of a user a measure touches. */
  datatype User = User(enabled: bool, speed: int, action: Measure, until: int, prevSpeed: int, warnedDay: string)

  /** model.AbuseMeasures: thresholds in matches a day, 0 for a rung that is off. */
  datatype Ladder = Ladder(warnMin: int, throttleMin: int, throttleKbps: int, disableMin: int, hours: int)

  const HOUR := 3600

  /** One flush's figure for a user: matches so far today, the group cap if any, the clock. */
  datatype Report = Report(ladder: Ladder, day: string, total: int, groupCap: Option<int>, now: int)

  predicate Reaches(total: int, min: int) {
    min > 0 && total >= min
  }

  function Cap(u: User, r: Report): int {
    if r.groupCap.Some? && r.groupCap.value > 0 then r.groupCap.value else u.speed
  }

  function Until(r: Report): int { r.now + r.ladder.hours * HOUR }

  // ---- transitions ------------------------------------------------------------------------

  function SwitchedOff(u: User, r: Report): User {
    if u.action == Disable || !u.enabled then u
    else User(false, if u.action == Throttle then u.prevSpeed else u.speed, Disable, Until(r), 0, u.warnedDay)
  }

  function Throttled(u: User, r: Report): User {
    if u.action != Nothing || 0 < Cap(u, r) <= r.ladder.throttleKbps then u
    else User(u.enabled, r.ladder.throttleKbps, Throttle, Until(r), u.speed, u.warnedDay)
  }

  function Warned(u: User, r: Report): User {
    if u.warnedDay == r.day || u.action != Nothing then u else u.(warnedDay := r.day)
  }

  /** applyAbuseMeasure: the highest rung the total has reached. */
  function Escalated(u: User, r: Report): User {
    if Reaches(r.total, r.ladder.disableMin) then SwitchedOff(u, r)
    else if Reaches(r.total, r.ladder.throttleMin) then Throttled(u, r)
    else if Reaches(r.total, r.ladder.warnMin) then Warned(u, r)
    else u
  }

  function Forgotten(u: User): User {
    u.(action := Nothing, until := 0, prevSpeed := 0)
  }

  /** liftAbuseMeasure, with the row as the list of due measures read it. */
  function Lifted(u: User, listed: User): User {
    match listed.action
    case Disable => Forgotten(if !listed.enabled then u.(enabled := true) else u)
    case Throttle => Forgotten(u.(speed := listed.prevSpeed))
    case Nothing => u
  }

  predicate Due(u: User, now: int) {
    u.action != Nothing && 0 < u.until <= now
  }

  /** SetUserEnabled by hand: nothing when already so; a switch-on overrules a switch-off. */
  function Switched(u: User, on: bool): User {
    if u.enabled == on then u
    else if on && u.action == Disable then Forgotten(u.(enabled := on))
    else u.(enabled := on)
  }

  /** SetUserSpeedLimit by hand: overrules a throttle. */
  function HandSpeed(u: User, kbps: int): User {
    if u.action == Throttle then Forgotten(u.(speed := kbps)) else u.(speed := kbps)
  }

  /** A tariff's cap: to the saved column while a throttle holds the other. */
  function PlanSpeed(u: User, kbps: int): User {
    if u.action == Throttle then u.(prevSpeed := kbps) else u.(speed := kbps)
  }

  // ---- one user's run ---------------------------------------------------------------------

  /** What was last chosen for the user, by the operator or the tariff. */
  datatype Choice = Choice(enabled: bool, speed: int)

  /** took: the report that put the measure in force, if the run saw it taken. */
  datatype World = World(u: User, choice: Choice, due: Option<User>, took: Option<Report>)

  datatype Step =
    | Escalate(r: Report)
    | List(now: int)
    | Lift
    | Switch(on: bool)
    | SetSpeed(kbps: int)
    | Tariff(kbps: int)

  predicate Can(w: World, step: Step) {
    match step
    case List(now) => Due(w.u, now)
    case Lift => w.due.Some?
    case _ => true
  }

  function Next(w: World, step: Step): World
    requires Can(w, step)
  {
    match step
    case Escalate(r) =>
      var u := Escalated(w.u, r);
      w.(u := u, took := if u.action != w.u.action then Some(r) else w.took)
    case List(now) => w.(due := Some(w.u))
    case Lift => w.(u := Lifted(w.u, w.due.value), due := None)
    case Switch(on) => w.(u := Switched(w.u, on), choice := w.choice.(enabled := on))
    case SetSpeed(kbps) => w.(u := HandSpeed(w.u, kbps), choice := w.choice.(speed := kbps))
    case Tariff(kbps) => w.(u := PlanSpeed(w.u, kbps), choice := w.choice.(speed := kbps))
  }

  /** With no measure in force the user is as chosen; under one, the choice is what a lift restores. */
  predicate Inv(w: World) {
    match w.u.action
    case Nothing => w.u.enabled == w.choice.enabled && w.u.speed == w.choice.speed
    case Throttle => w.u.enabled == w.choice.enabled && w.u.prevSpeed == w.choice.speed
    case Disable => !w.u.enabled && w.choice.enabled && w.u.speed == w.choice.speed
  }

  /** The cap the user is to have once no throttle holds. */
  function Owed(u: User): int {
    if u.action == Throttle then u.prevSpeed else u.speed
  }

  /** A listed measure may be lifted: what the lift writes is what the row owes by now. */
  predicate Current(u: User, listed: User) {
    match listed.action
    case Throttle => u.action != Disable && Owed(u) == listed.prevSpeed
    case Disable => (u.enabled || u.action == Disable) && (u.action == Throttle ==> u.speed == u.prevSpeed)
    case Nothing => true
  }

  predicate Clean(w: World, step: Step)
    requires Can(w, step)
  {
    match step
    case Lift => Current(w.u, w.due.value)
    case Switch(on) => !on ==> w.u.action != Disable
    case _ => true
  }

  ghost predicate Listed(w: World) {
    w.due.Some? && w.due.value.action == Disable ==> !w.due.value.enabled
  }

  ghost predicate Reach(w0: World, steps: seq<Step>, w: World) {
    if steps == [] then w0 == w
    else
      var earlier, last := steps[..|steps| - 1], steps[|steps| - 1];
      exists v :: Reach(w0, earlier, v) && Goes(v, last, w)
  }

  ghost predicate Goes(v: World, step: Step, w: World) {
    Can(v, step) && Clean(v, step) && w == Next(v, step)
  }

  lemma StepKeepsInv(w: World, step: Step)
    requires Inv(w) && Listed(w) && Can(w, step) && Clean(w, step)
    ensures Inv(Next(w, step)) && Listed(Next(w, step))
  {
  }

  /** Main result. Over any mix of escalations, deadline lifts, tariff changes and settings by hand that
      never switches off a user already off for a measure, nor lifts a measure overtaken since it was
      listed: whenever no measure is in force, the user is exactly as last chosen. */
  lemma {:induction false} MeasuresLeaveNoTrace(w0: World, steps: seq<Step>, w: World)
    requires Inv(w0) && w0.due.None? && Reach(w0, steps, w)
    ensures Inv(w) && Listed(w)
    ensures w.u.action == Nothing ==> w.u.enabled == w.choice.enabled && w.u.speed == w.choice.speed
  {
    hide Next, Can, Clean;
    if steps != [] {
      var earlier, last := steps[..|steps| - 1], steps[|steps| - 1];
      var v :| Reach(w0, earlier, v) && Goes(v, last, w);
      MeasuresLeaveNoTrace(w0, earlier, v);
      StepKeepsInv(v, last);
    }
  }

  // ---- a measure while it lasts -----------------------------------------------------------

  /** w follows from w0 by the steps, whatever they are. */
  ghost predicate Runs(w0: World, steps: seq<Step>, w: World) {
    if steps == [] then w0 == w
    else
      var earlier, last := steps[..|steps| - 1], steps[|steps| - 1];
      exists v :: Runs(w0, earlier, v) && Can(v, last) && w == Next(v, last)
  }

  /** A throttled user has the cap of the ladder that throttled them, one switched off is off, and either
      until its hours are over; with no measure in force the row holds no deadline and no saved speed. */
  predicate InForce(w: World) {
    if w.u.action == Nothing then w.u.until == 0 && w.u.prevSpeed == 0
    else
      w.took.Some? &&
      w.u.until == w.took.value.now + 3600 * w.took.value.ladder.hours &&
      (w.u.action == Throttle ==> w.u.speed == w.took.value.ladder.throttleKbps) &&
      (w.u.action == Disable ==> !w.u.enabled && w.u.prevSpeed == 0)
  }

  lemma StepKeepsInForce(w: World, step: Step)
    requires InForce(w) && Can(w, step)
    ensures InForce(Next(w, step))
  {
  }

  /** Main result. Over every run, clean or not: while a throttle is in force the user's speed is the cap
      of the ladder that took it, whatever a tariff sets, and while a switch-off is, the user is off; and
      it is listed as due exactly once its hours are over. */
  lemma {:induction false} MeasuresHoldTheirHours(w0: World, steps: seq<Step>, w: World)
    requires w0.u.action == Nothing && w0.u.until == 0 && w0.u.prevSpeed == 0 && Runs(w0, steps, w)
    ensures InForce(w)
    ensures w.u.action != Nothing ==>
      forall now :: Can(w, List(now)) <==>
        now >= w.took.value.now + 3600 * w.took.value.ladder.hours > 0
  {
    hide Next;
    if steps != [] {
      var earlier, last := steps[..|steps| - 1], steps[|steps| - 1];
      var v :| Runs(w0, earlier, v) && Can(v, last) && w == Next(v, last);
      MeasuresHoldTheirHours(w0, earlier, v);
      StepKeepsInForce(v, last);
    }
  }

  // ---- the conditions are needed ----------------------------------------------------------

  /** Switching off by hand keeps the operator's choice exactly when no switch-off is in force: else it
      does nothing, and the lift switches the user back on. */
  lemma SwitchOffKeptIff(w: World)
    requires Inv(w)
    ensures Inv(Next(w, Switch(false))) <==> w.u.action != Disable
    ensures w.u.action == Disable ==>
      var off := Next(w, Switch(false)); off.u == w.u && Lifted(off.u, off.u).enabled && !off.choice.enabled
  {
  }

  /** A lift of a listed measure keeps the choice exactly when the row still owes what it restores. */
  lemma LiftKeptIff(w: World)
    requires Inv(w) && Listed(w) && Can(w, Lift) && w.due.value.action != Nothing
    ensures Inv(Next(w, Lift)) <==> Current(w.u, w.due.value)
  {
  }

  /** A speed set by hand between the listing and the lift is overwritten by the lift. */
  lemma SpeedSetBeforeALiftIsLost()
    ensures exists w: World, now: int ::
      Inv(w) && Can(w, List(now)) && LosesSpeed(Next(Next(w, List(now)), SetSpeed(5000)))
  {
    var w := World(User(true, 1000, Throttle, 10, 0, ""), Choice(true, 0), None, None);
    assert Inv(w) && Can(w, List(10)) && LosesSpeed(Next(Next(w, List(10)), SetSpeed(5000)));
  }

  predicate LosesSpeed(w: World) {
    Can(w, Lift) && w.choice.speed == 5000 && Next(w, Lift).u.speed == 0
  }

  // ---- the ladder -------------------------------------------------------------------------

  function Rung(a: Measure): int {
    match a
    case Nothing => 0
    case Throttle => 1
    case Disable => 2
  }

  /** A rung in force is never lowered, and never taken again by another flush of any total. */
  lemma RungsOnlyRise(u: User, r: Report)
    ensures Rung(Escalated(u, r).action) >= Rung(u.action)
    ensures u.action != Nothing && Escalated(u, r).action == u.action ==> Escalated(u, r) == u
  {
  }

  /** A threshold reached is acted on, and only one that is: a user who is on is switched off, and one
      with nothing in force and no slower cap, the groups' cap before their own, is at least throttled. */
  lemma ReachedRungIsTaken(u: User, r: Report)
    ensures var after, a := Escalated(u, r), r.ladder;
      var off, slow, warn := 0 < a.disableMin <= r.total, 0 < a.throttleMin <= r.total, 0 < a.warnMin <= r.total;
      var cap := if r.groupCap.Some? && r.groupCap.value > 0 then r.groupCap.value else u.speed;
      && (after.action == Disable <==> u.action == Disable || (off && u.enabled))
      && (after.action == Throttle <==>
            if u.action == Nothing then slow && !off && !(0 < cap <= a.throttleKbps)
            else u.action == Throttle && !(off && u.enabled))
      && (after.warnedDay != u.warnedDay ==> warn && !slow && !off && u.action == Nothing && after.warnedDay == r.day)
      && (warn && !slow && !off && u.action == Nothing ==> after.warnedDay == r.day)
  {
  }

  /** However a day's traffic is spread over flushes, a user who is on ends up where its total alone
      would have put them; one who was switched off may be throttled on the way, and stays so. */
  lemma FlushesAddUp(u: User, r: Report, more: Report)
    requires more.ladder == r.ladder && more.groupCap == r.groupCap && more.now == r.now && more.day == r.day
    requires more.total >= r.total
    ensures var stepwise, direct := Escalated(Escalated(u, r), more), Escalated(u, more);
      u.enabled ==> stepwise == direct.(warnedDay := stepwise.warnedDay)
    ensures Escalated(Escalated(u, r), r) == Escalated(u, r)
  {
  }

  /** One lift of whatever is in force puts everything back, a throttle escalated to a switch-off
      included. */
  lemma OneLiftUndoes(w: World, r: Report)
    requires Inv(w)
    ensures var u := Escalated(w.u, r); var after := Lifted(u, u);
      after.action == Nothing && after.enabled == w.choice.enabled && after.speed == w.choice.speed
  {
  }

  // ---- the row ----------------------------------------------------------------------------

  class Row {
    var enabled: bool
    var speed: int
    var action: Measure
    var until: int
    var prevSpeed: int
    var warnedDay: string

    function Now(): User
      reads this
    {
      User(enabled, speed, action, until, prevSpeed, warnedDay)
    }

    method SetMeasure(a: Measure, deadline: int, prev: int)
      modifies this`action, this`until, this`prevSpeed
      ensures action == a && until == deadline && prevSpeed == prev
    {
      action, until, prevSpeed := a, deadline, prev;
    }

    /** applyAbuseMeasure; what is told to the user comes out. */
    method Apply(r: Report) returns (told: Option<Measure>)
      modifies this
      ensures Now() == Escalated(old(Now()), r)
      ensures told.Some? <==> Now() != old(Now())
      ensures told.Some? ==> told.value == action
      ensures told == Some(Throttle) ==>
        speed == r.ladder.throttleKbps && prevSpeed == old(speed) && until == r.now + 3600 * r.ladder.hours &&
        enabled == old(enabled) && warnedDay == old(warnedDay)
      ensures told == Some(Disable) ==>
        old(enabled) && !enabled && until == r.now + 3600 * r.ladder.hours && warnedDay == old(warnedDay) &&
        speed == if old(action) == Throttle then old(prevSpeed) else old(speed)
      ensures told == Some(Nothing) ==>
        warnedDay == r.day && enabled == old(enabled) && speed == old(speed) && until == old(until)
    {
      var a := r.ladder;
      told := None;
      if a.warnMin <= 0 && a.throttleMin <= 0 && a.disableMin <= 0 {
        return;
      }
      if a.disableMin > 0 && r.total >= a.disableMin {
        if action == Disable || !enabled {
          return;
        }
        if action == Throttle {
          speed := prevSpeed;
        }
        enabled := false;
        SetMeasure(Disable, Until(r), 0);
        told := Some(Disable);
      } else if a.throttleMin > 0 && r.total >= a.throttleMin {
        if action != Nothing {
          return;
        }
        var inForce := speed;
        if r.groupCap.Some? && r.groupCap.value > 0 {
          inForce := r.groupCap.value;
        }
        if inForce > 0 && inForce <= a.throttleKbps {
          return;
        }
        var was := speed;
        speed := a.throttleKbps;
        SetMeasure(Throttle, Until(r), was);
        told := Some(Throttle);
      } else if a.warnMin > 0 && r.total >= a.warnMin {
        if warnedDay == r.day || action != Nothing {
          return;
        }
        warnedDay := r.day;
        told := Some(Nothing);
      }
    }

    /** liftAbuseMeasure */
    method LiftMeasure(listed: User)
      modifies this
      ensures Now() == Lifted(old(Now()), listed)
    {
      match listed.action {
        case Disable =>
          if !listed.enabled {
            enabled := true;
          }
        case Throttle => speed := listed.prevSpeed;
        case Nothing => return;
      }
      SetMeasure(Nothing, 0, 0);
    }

    /** overruleAbuseMeasure */
    method Overrule(read: User, measure: Measure)
      modifies this`action, this`until, this`prevSpeed
      ensures Now() == if read.action == measure then Forgotten(old(Now())) else old(Now())
    {
      if read.action != measure {
        return;
      }
      SetMeasure(Nothing, 0, 0);
    }

    method SetEnabled(on: bool)
      modifies this
      ensures Now() == Switched(old(Now()), on)
    {
      var prev := Now();
      if prev.enabled == on {
        return;
      }
      enabled := on;
      if on {
        Overrule(prev, Disable);
      }
    }

    method SetSpeedLimit(kbps: int) returns (ok: bool)
      modifies this
      ensures ok <==> kbps >= 0
      ensures Now() == if ok then HandSpeed(old(Now()), kbps) else old(Now())
    {
      if kbps < 0 {
        return false;
      }
      var u := Now();
      speed := kbps;
      Overrule(u, Throttle);
      ok := true;
    }
  }
}
