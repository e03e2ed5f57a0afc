/** The alert rule engine of internal/core/manager_alerts.go as a transition system: sweeps that
    visit one (rule, server) pair at a time, rule edits that close firings and then forget them,
    process restarts and retention. The store is a map of rows whose ids are never reused. */
module AlertRules {
  import opened Common

  datatype Key = Key(rule: int, node: int)

  datatype Rule = Rule(id: int, enabled: bool, metric: string, above: bool, threshold: real, forSecs: nat, node: int)

  /** One row of alert_events; resolvedAt is 0 while the firing is open. */
  datatype Row = Row(key: Key, firedAt: int, value: real, peak: real, resolvedAt: int)

  /** The engine's memory of one pair; eventID is 0 while nothing is firing. */
  datatype St = St(since: Option<int>, eventID: int, firedAt: int, value: real, peak: real, lastResolved: Option<int>)

  const FRESH := St(None, 0, 0, 0.0, 0.0, None)

  /** alertRefireCooldown, in seconds */
  const COOLDOWN := 600

  datatype Notice =
    | Fired(key: Key, id: int, at: int, value: real)
    | Cleared(key: Key, id: int, at: int, firedAt: int, value: real, peak: real)

  datatype Panel = Panel(rows: map<int, Row>, nextId: int, states: map<Key, St>, restored: bool)

  /** Which store calls of a step fail. */
  datatype Faults = Faults(add: bool, close: bool, peak: bool)

  predicate Holds(r: Rule, v: real) {
    if r.above then v > r.threshold else v < r.threshold
  }

  predicate Worse(above: bool, v: real, peak: real) {
    if above then v > peak else v < peak
  }

  predicate Open(rows: map<int, Row>, id: int) {
    id in rows && rows[id].resolvedAt == 0
  }

  // ---- the store --------------------------------------------------------------------------

  function Closed(row: Row, at: int): Row {
    if row.resolvedAt == 0 then row.(resolvedAt := at) else row
  }

  /** ResolveAlertEvent */
  function CloseRow(rows: map<int, Row>, id: int, at: int): map<int, Row> {
    if id in rows then rows[id := Closed(rows[id], at)] else rows
  }

  /** ResolveAlertEventsOfRule */
  function CloseRows(rows: map<int, Row>, rule: int, at: int): map<int, Row> {
    map id | id in rows :: if rows[id].key.rule == rule then Closed(rows[id], at) else rows[id]
  }

  /** SetAlertEventPeak */
  function SetPeak(rows: map<int, Row>, id: int, v: real): map<int, Row> {
    if Open(rows, id) then rows[id := rows[id].(peak := v)] else rows
  }

  /** PurgeAlertEvents */
  function Purge(rows: map<int, Row>, cutoff: int): map<int, Row> {
    map id | id in rows && !(0 < rows[id].resolvedAt < cutoff) :: rows[id]
  }

  // ---- one pair ---------------------------------------------------------------------------

  predicate Cooling(st: St, at: int) {
    st.lastResolved.Some? && at - st.lastResolved.value < COOLDOWN
  }

  /** alertStep: fires the pair, extends or clears an open firing, or counts time toward one. */
  function AlertStep(p: Panel, r: Rule, k: Key, st: St, v: real, at: int, f: Faults): (Panel, Option<Notice>) {
    if !Holds(r, v) then
      var idle := st.(since := None);
      if st.eventID == 0 || f.close then (p.(states := p.states[k := idle]), None)
      else
        (p.(rows := CloseRow(p.rows, st.eventID, at),
            states := p.states[k := idle.(eventID := 0, lastResolved := Some(at))]),
         Some(Cleared(k, st.eventID, at, st.firedAt, st.value, st.peak)))
    else if st.eventID != 0 then
      if Worse(r.above, v, st.peak) then
        (p.(rows := if f.peak then p.rows else SetPeak(p.rows, st.eventID, v),
            states := p.states[k := st.(peak := v)]), None)
      else (p.(states := p.states[k := st]), None)
    else
      var counting := if st.since.None? then st.(since := Some(at)) else st;
      if at - counting.since.value < r.forSecs || Cooling(st, at) || f.add then
        (p.(states := p.states[k := counting]), None)
      else
        (p.(rows := p.rows[p.nextId := Row(k, at, v, v, 0)], nextId := p.nextId + 1,
            states := p.states[k := counting.(eventID := p.nextId, firedAt := at, value := v, peak := v)]),
         Some(Fired(k, p.nextId, at, v)))
  }

  // ---- the world --------------------------------------------------------------------------

  /** A figure that held while a firing was open, and the direction of the rule that read it. */
  datatype Fig = Fig(above: bool, v: real)

  datatype Event = Told(n: Notice, sweep: nat, forSecs: nat, figs: seq<Fig>) | Dropped(key: Key)
                 | Forgot(rule: int) | Restarted

  /** A figure read of a pair, and the rule it was read under. */
  datatype Seen = Seen(r: Rule, v: real)

  /** What a run leaves behind: when each sweep ran, what it read of each pair, the figures that held
      since each firing, and the notices. */
  datatype History = History(times: seq<int>, seen: map<(Key, int), Seen>, figs: map<Key, seq<Fig>>, log: seq<Event>)

  /** sweep: the pairs visited by the sweep underway. closing: the rules whose firings an edit has
      closed and whose pairs it has yet to forget. */
  datatype World = World(p: Panel, sweep: Option<set<Key>>, closing: set<int>, h: History)

  const INIT := World(Panel(map[], 1, map[], false), None, {}, History([], map[], map[], []))

  datatype Visit = Figure(r: Rule, v: real, f: Faults) | NoFigure | Silent

  datatype Step =
    | Begin(at: int, restore: map<Key, St>)
    | Visiting(k: Key, visit: Visit)
    | Orphan(k: Key, fails: bool)
    | End
    | CloseRule(rule: int, at: int, fails: bool)
    | Forget(rule: int)
    | Restart
    | Retain(cutoff: int)

  /** The engine reads the open rows back: a pair with several ends up with any one of them. */
  ghost predicate IsRestored(rows: map<int, Row>, states: map<Key, St>) {
    && (forall id :: Open(rows, id) ==> rows[id].key in states)
    && (forall k :: k in states ==> RestoredFrom(rows, k, states[k]))
  }

  ghost predicate RestoredFrom(rows: map<int, Row>, k: Key, st: St) {
    Open(rows, st.eventID) && rows[st.eventID].key == k &&
    st == St(None, st.eventID, rows[st.eventID].firedAt, rows[st.eventID].value, rows[st.eventID].peak, None)
  }

  ghost predicate Can(w: World, step: Step) {
    match step
    case Begin(at, restore) =>
      w.sweep.None? && at > 0 && (if w.p.restored then restore == w.p.states else IsRestored(w.p.rows, restore))
    case Visiting(k, visit) =>
      w.sweep.Some? && k !in w.sweep.value && |w.h.times| > 0 &&
      (visit.Figure? ==> visit.r.id == k.rule) && (visit.Silent? ==> k in w.p.states)
    case Orphan(k, fails) => w.sweep.Some? && k in w.p.states && k !in w.sweep.value && |w.h.times| > 0
    case End => w.sweep.Some? && w.p.states.Keys <= w.sweep.value
    case CloseRule(rule, at, fails) => at > 0
    case Forget(rule) => w.sweep.None?
    case Restart => true
    case Retain(cutoff) => true
  }

  function StateOf(p: Panel, k: Key): St {
    if k in p.states then p.states[k] else FRESH
  }

  function RestoredFigs(restore: map<Key, St>): map<Key, seq<Fig>> {
    map k | k in restore :: [Fig(true, restore[k].peak)]
  }

  function FigsAfter(figs: map<Key, seq<Fig>>, r: Rule, k: Key, st: St, v: real, told: Option<Notice>)
    : map<Key, seq<Fig>>
  {
    if !Holds(r, v) then figs
    else if told.Some? then figs[k := [Fig(r.above, v)]]
    else if st.eventID != 0 && k in figs then figs[k := figs[k] + [Fig(r.above, v)]]
    else figs
  }

  function Observe(w: World, k: Key, r: Rule, v: real, f: Faults): World
    requires w.sweep.Some? && |w.h.times| > 0
  {
    var n := |w.h.times| - 1;
    var st := StateOf(w.p, k);
    var (p, told) := AlertStep(w.p, r, k, st, v, w.h.times[n], f);
    var figs := if k in w.h.figs then w.h.figs[k] else [];
    World(p, Some(w.sweep.value + {k}), w.closing, w.h.(
      seen := w.h.seen[(k, n) := Seen(r, v)],
      figs := FigsAfter(w.h.figs, r, k, st, v, told),
      log := w.h.log + if told.None? then [] else [Told(told.value, n, r.forSecs, figs)]))
  }

  function Visited(w: World, k: Key, visit: Visit): World
    requires w.sweep.Some? && |w.h.times| > 0
  {
    if visit.Figure? then Observe(w, k, visit.r, visit.v, visit.f)
    else
      World(w.p.(states := w.p.states[k := StateOf(w.p, k).(since := None)]), Some(w.sweep.value + {k}), w.closing, w.h)
  }

  function Orphaned(w: World, k: Key, fails: bool): World
    requires w.sweep.Some? && k in w.p.states && |w.h.times| > 0
  {
    var id := w.p.states[k].eventID;
    var rows := if id == 0 || fails then w.p.rows else CloseRow(w.p.rows, id, w.h.times[|w.h.times| - 1]);
    World(w.p.(rows := rows, states := w.p.states - {k}), w.sweep, w.closing, w.h.(log := w.h.log + [Dropped(k)]))
  }

  function Next(w: World, step: Step): World
    requires Can(w, step)
  {
    match step
    case Begin(at, restore) =>
      World(w.p.(states := restore, restored := true), Some({}), w.closing, w.h.(
        times := w.h.times + [at], figs := if w.p.restored then w.h.figs else RestoredFigs(restore)))
    case Visiting(k, visit) => Visited(w, k, visit)
    case Orphan(k, fails) => Orphaned(w, k, fails)
    case End => w.(sweep := None)
    case CloseRule(rule, at, fails) =>
      w.(p := if fails then w.p else w.p.(rows := CloseRows(w.p.rows, rule, at)), closing := w.closing + {rule})
    case Forget(rule) =>
      World(w.p.(states := map k | k in w.p.states && k.rule != rule :: w.p.states[k]), None, w.closing - {rule},
            w.h.(log := w.h.log + [Forgot(rule)]))
    case Restart => World(w.p.(states := map[], restored := false), None, {}, w.h.(log := w.h.log + [Restarted]))
    case Retain(cutoff) => w.(p := w.p.(rows := Purge(w.p.rows, cutoff)))
  }

  /** w1 follows from w0 by the steps, in order. */
  ghost predicate Runs(w0: World, steps: seq<Step>, w1: World) {
    if steps == [] then w0 == w1
    else
      var earlier, last := steps[..|steps| - 1], steps[|steps| - 1];
      exists v :: Runs(w0, earlier, v) && Goes(v, last, w1)
  }

  ghost predicate Goes(v: World, step: Step, w: World) {
    Can(v, step) && w == Next(v, step)
  }

  // ---- what one step of a pair does -------------------------------------------------------

  /** The step's effect on the pair itself. */
  lemma StepOnPair(p: Panel, r: Rule, k: Key, st: St, v: real, at: int, f: Faults)
    ensures var (q, told) := AlertStep(p, r, k, st, v, at, f);
      && k in q.states && q.states == p.states[k := q.states[k]] && q.restored == p.restored
      && (told.None? ==> q.states[k].eventID == st.eventID && q.states[k].lastResolved == st.lastResolved)
      && (q.states[k].since.Some? ==>
            Holds(r, v) && (q.states[k].since == st.since || (st.since.None? && q.states[k].since == Some(at))))
  {
  }

  /** A firing. */
  lemma StepFires(p: Panel, r: Rule, k: Key, st: St, v: real, at: int, f: Faults)
    requires AlertStep(p, r, k, st, v, at, f).1.Some? && AlertStep(p, r, k, st, v, at, f).1.value.Fired?
    ensures var (q, told) := AlertStep(p, r, k, st, v, at, f);
      && told == Some(Fired(k, p.nextId, at, v)) && st.eventID == 0 && Holds(r, v)
      && q.rows == p.rows[p.nextId := Row(k, at, v, v, 0)] && q.nextId == p.nextId + 1
      && q.states[k].eventID == p.nextId && q.states[k].peak == v && q.states[k].lastResolved == st.lastResolved
      && q.states[k].since.Some? && at - q.states[k].since.value >= r.forSecs && !Cooling(st, at)
  {
  }

  /** An all-clear. */
  lemma StepClears(p: Panel, r: Rule, k: Key, st: St, v: real, at: int, f: Faults)
    requires AlertStep(p, r, k, st, v, at, f).1.Some? && AlertStep(p, r, k, st, v, at, f).1.value.Cleared?
    ensures var (q, told) := AlertStep(p, r, k, st, v, at, f);
      && told == Some(Cleared(k, st.eventID, at, st.firedAt, st.value, st.peak)) && st.eventID != 0 && !Holds(r, v)
      && q.rows == CloseRow(p.rows, st.eventID, at) && q.nextId == p.nextId
      && q.states[k].eventID == 0 && q.states[k].lastResolved == Some(at)
  {
  }

  /** Neither: no row opens or closes. */
  lemma StepIsQuiet(p: Panel, r: Rule, k: Key, st: St, v: real, at: int, f: Faults)
    requires AlertStep(p, r, k, st, v, at, f).1.None?
    ensures var (q, told) := AlertStep(p, r, k, st, v, at, f);
      && q.nextId == p.nextId && q.rows.Keys == p.rows.Keys
      && (forall id :: id in p.rows ==>
            q.rows[id].key == p.rows[id].key && q.rows[id].resolvedAt == p.rows[id].resolvedAt)
  {
  }

  /** A store call that fails is made up for: a firing whose row cannot be closed stays held and open and is
      not told as cleared, one that cannot be stored is not told and its time goes on counting, and a peak
      that cannot be stored is still the engine's. */
  lemma FailuresAreRetried(p: Panel, r: Rule, k: Key, st: St, v: real, at: int, f: Faults)
    ensures var (q, told) := AlertStep(p, r, k, st, v, at, f); var after := q.states[k];
      var beyond := if r.above then v > r.threshold else v < r.threshold;
      && k in q.states
      && (f.close && !beyond ==> told.None? && q.rows == p.rows && after == st.(since := None))
      && (f.add && beyond && st.eventID == 0 ==>
            told.None? && q.rows == p.rows && after == st.(since := if st.since.None? then Some(at) else st.since))
      && (f.peak && beyond && st.eventID != 0 ==>
            told.None? && q.rows == p.rows &&
            after == st.(peak := if (if r.above then v > st.peak else v < st.peak) then v else st.peak))
  {
  }

  // ---- and it does fire, and clear ---------------------------------------------------------

  /** A figure as a sweep brings it. */
  datatype Reading = Reading(v: real, at: int, f: Faults)

  /** One rule fed a pair's figures, sweep after sweep. */
  function Feed(p: Panel, r: Rule, k: Key, readings: seq<Reading>): Panel {
    if readings == [] then p
    else
      var q, last := Feed(p, r, k, readings[..|readings| - 1]), readings[|readings| - 1];
      AlertStep(q, r, k, StateOf(q, k), last.v, last.at, last.f).0
  }

  /** Every figure is strictly beyond the rule's threshold, in the rule's direction. */
  predicate AllBeyond(r: Rule, readings: seq<Reading>) {
    && (r.above ==> forall i :: 0 <= i < |readings| ==> readings[i].v > r.threshold)
    && (!r.above ==> forall i :: 0 <= i < |readings| ==> readings[i].v < r.threshold)
  }

  lemma TrueFigureCounts(p: Panel, r: Rule, k: Key, st: St, v: real, at: int, f: Faults, from: int)
    requires st.eventID >= 0 && p.nextId > 0 && from <= at && (if r.above then v > r.threshold else v < r.threshold)
    requires st.eventID == 0 && st.since.Some? ==> st.since.value <= from
    requires st.since.None? && st.eventID == 0 ==> from == at
    ensures var q := AlertStep(p, r, k, st, v, at, f).0;
      k in q.states && q.nextId > 0 && q.states[k].eventID >= 0 && q.states[k].lastResolved == st.lastResolved &&
      (q.states[k].eventID == 0 ==> q.states[k].since.Some? && q.states[k].since.value <= from)
  {
  }

  lemma {:induction false} TrueFiguresCount(p: Panel, r: Rule, k: Key, readings: seq<Reading>)
    requires readings != [] && AllBeyond(r, readings) && StateOf(p, k).eventID >= 0 && p.nextId > 0
    requires forall i, j :: 0 <= i < j < |readings| ==> readings[i].at <= readings[j].at
    requires StateOf(p, k).since.Some? ==> StateOf(p, k).since.value <= readings[0].at
    ensures var q := Feed(p, r, k, readings); var st := StateOf(q, k);
      q.nextId > 0 && st.eventID >= 0 && st.lastResolved == StateOf(p, k).lastResolved &&
      (st.eventID == 0 ==> st.since.Some? && st.since.value <= readings[0].at)
  {
    var rest, last := readings[..|readings| - 1], readings[|readings| - 1];
    var q := Feed(p, r, k, rest);
    if rest != [] {
      TrueFiguresCount(p, r, k, rest);
      assert rest[0] == readings[0];
    }
    hide AlertStep;
    TrueFigureCounts(q, r, k, StateOf(q, k), last.v, last.at, last.f, readings[0].at);
  }

  /** Whatever failed on the way: a figure strictly beyond the threshold at every sweep of a stretch as
      long as the rule asks for is firing at its end, unless the pair cleared less than the cooldown ago
      or that very firing cannot be stored. */
  lemma HeldLongEnoughFires(p: Panel, r: Rule, k: Key, readings: seq<Reading>)
    requires readings != [] && AllBeyond(r, readings) && StateOf(p, k).eventID >= 0 && p.nextId > 0
    requires forall i, j :: 0 <= i < j < |readings| ==> readings[i].at <= readings[j].at
    requires StateOf(p, k).since.Some? ==> StateOf(p, k).since.value <= readings[0].at
    ensures var q := Feed(p, r, k, readings); var last := readings[|readings| - 1];
      var cleared := StateOf(p, k).lastResolved;
      StateOf(q, k).eventID != 0 || last.f.add || last.at - readings[0].at < r.forSecs ||
        (cleared.Some? && last.at - cleared.value < COOLDOWN)
  {
    TrueFiguresCount(p, r, k, readings);
    var rest := readings[..|readings| - 1];
    if rest != [] {
      TrueFiguresCount(p, r, k, rest);
      assert rest[0] == readings[0];
    }
  }

  /** The first figure not beyond the threshold clears an open firing, unless its row cannot be closed. */
  lemma FalseFigureClears(p: Panel, r: Rule, k: Key, v: real, at: int, f: Faults)
    requires if r.above then v <= r.threshold else v >= r.threshold
    requires StateOf(p, k).eventID != 0 && !f.close && at > 0
    ensures var (q, told) := AlertStep(p, r, k, StateOf(p, k), v, at, f);
      var id := StateOf(p, k).eventID;
      StateOf(q, k).eventID == 0 && told.Some? && told.value.Cleared? && told.value.id == id &&
      told.value.at == at && !Open(q.rows, id) &&
      (Open(p.rows, id) ==> q.rows == p.rows[id := p.rows[id].(resolvedAt := at)])
  {
  }

  /** So a firing comes and goes with the figure: due after a stretch strictly beyond the threshold, and
      cleared by the first figure that is not, both told of the same row. */
  lemma FiresThenClears(p: Panel, r: Rule, k: Key, readings: seq<Reading>, v: real, at: int, f: Faults)
    requires readings != [] && AllBeyond(r, readings) && StateOf(p, k).eventID >= 0 && p.nextId > 0
    requires forall i, j :: 0 <= i < j < |readings| ==> readings[i].at <= readings[j].at
    requires StateOf(p, k).since.Some? ==> StateOf(p, k).since.value <= readings[0].at
    requires var last := readings[|readings| - 1];
      var cleared := StateOf(p, k).lastResolved;
      !last.f.add && last.at - readings[0].at >= r.forSecs &&
      (cleared.Some? ==> last.at - cleared.value >= COOLDOWN)
    requires if r.above then v <= r.threshold else v >= r.threshold
    requires !f.close && at > 0
    ensures var q := Feed(p, r, k, readings); var (after, told) := AlertStep(q, r, k, StateOf(q, k), v, at, f);
      StateOf(q, k).eventID != 0 && StateOf(after, k).eventID == 0 &&
      told.Some? && told.value.Cleared? && told.value.id == StateOf(q, k).eventID &&
      !Open(after.rows, StateOf(q, k).eventID)
  {
    HeldLongEnoughFires(p, r, k, readings);
    FalseFigureClears(Feed(p, r, k, readings), r, k, v, at, f);
    hide Feed;
  }

  // ---- time held and cooldown -------------------------------------------------------------

  /** The number of sweeps that have dealt with the pair, given when it was last visited. */
  function Upto(w: World, k: Key): int {
    if w.sweep.Some? && k !in w.sweep.value then |w.h.times| - 1 else |w.h.times|
  }

  predicate Met(h: History, k: Key, i: int) {
    (k, i) in h.seen && Holds(h.seen[(k, i)].r, h.seen[(k, i)].v)
  }

  /** The condition was found true in every sweep from a up to n, and a ran at t0. */
  predicate Stretch(h: History, k: Key, a: int, n: int, t0: int) {
    0 <= a < n <= |h.times| && h.times[a] == t0 && forall i :: a <= i < n ==> Met(h, k, i)
  }

  /** No pair is read twice in one sweep. */
  ghost predicate ReadOnce(w: World) {
    forall k, i :: (k, i) in w.h.seen ==>
      0 <= i < |w.h.times| && (w.sweep.Some? && i == |w.h.times| - 1 ==> k in w.sweep.value)
  }

  ghost predicate Counting(w: World) {
    && (!w.p.restored ==> w.p.states == map[] && w.sweep.None?)
    && ReadOnce(w)
    && (forall k :: k in w.p.states && w.p.states[k].since.Some? ==>
          exists a :: Stretch(w.h, k, a, Upto(w, k), w.p.states[k].since.value))
  }

  /** The notice was told in a sweep whose time is its own, of the rule read there: a firing at the end of
      a stretch of sweeps as long as that rule asks for, each of which found the condition true, and an
      all-clear where it was found false. */
  predicate HeldBefore(h: History, e: Event) {
    e.Told? ==>
      e.sweep < |h.times| && h.times[e.sweep] == e.n.at && (e.n.key, e.sweep) in h.seen &&
      h.seen[(e.n.key, e.sweep)].r.forSecs == e.forSecs &&
      (e.n.Cleared? ==> !Met(h, e.n.key, e.sweep)) &&
      (e.n.Fired? ==> h.seen[(e.n.key, e.sweep)].v == e.n.value && exists a :: 0 <= a <= e.sweep && Long(h, e, a))
  }

  predicate Long(h: History, e: Event, a: int) {
    e.Told? && Stretch(h, e.n.key, a, e.sweep + 1, if 0 <= a < |h.times| then h.times[a] else 0) &&
    0 <= a < |h.times| && e.n.at - h.times[a] >= e.forSecs
  }

  ghost predicate AllHeldBefore(h: History) {
    forall e :: e in h.log ==> HeldBefore(h, e)
  }

  predicate Drops(e: Event, k: Key) {
    e == Dropped(k) || e == Forgot(k.rule) || e == Restarted
  }

  /** When the pair last cleared, as long as its state was kept since. */
  function LastClear(log: seq<Event>, k: Key): Option<int> {
    if log == [] then None
    else
      var e := log[|log| - 1];
      if e.Told? && e.n.Cleared? && e.n.key == k then Some(e.n.at)
      else if Drops(e, k) then None
      else LastClear(log[..|log| - 1], k)
  }

  ghost predicate Remembers(w: World) {
    forall k :: LastClear(w.h.log, k) == StateOf(w.p, k).lastResolved
  }

  /** A firing within the cooldown of the pair's previous clear. */
  predicate TooSoon(log: seq<Event>, e: Event) {
    e.Told? && e.n.Fired? && LastClear(log, e.n.key).Some? && e.n.at - LastClear(log, e.n.key).value < COOLDOWN
  }

  ghost predicate Spaced(log: seq<Event>) {
    forall j :: 0 <= j < |log| ==> !TooSoon(log[..j], log[j])
  }

  ghost predicate Timed(w: World) {
    Counting(w) && AllHeldBefore(w.h) && Remembers(w) && Spaced(w.h.log)
  }

  ghost predicate Grows(h: History, g: History) {
    h.times <= g.times && forall q :: q in h.seen ==> q in g.seen && g.seen[q] == h.seen[q]
  }

  /** History only grows, and what was true of it stays true. */
  lemma GrowthKeepsStretch(h: History, g: History, k: Key, a: int, n: int, t0: int)
    requires Stretch(h, k, a, n, t0) && Grows(h, g)
    ensures Stretch(g, k, a, n, t0)
  {
    forall i | a <= i < n ensures Met(g, k, i) {
      assert Met(h, k, i);
    }
  }

  lemma GrowthKeepsHeld(h: History, g: History)
    requires AllHeldBefore(h) && Grows(h, g)
    requires forall e :: e in g.log && e !in h.log ==> HeldBefore(g, e)
    ensures AllHeldBefore(g)
  {
    forall e | e in g.log ensures HeldBefore(g, e) {
      if e in h.log {
        assert HeldBefore(h, e);
      }
      if e in h.log && e.Told? && e.n.Fired? {
        var a :| 0 <= a <= e.sweep && Long(h, e, a);
        GrowthKeepsStretch(h, g, e.n.key, a, e.sweep + 1, h.times[a]);
        assert Long(g, e, a);
      }
    }
  }

  /** The visited pair's own stretch grows by this sweep, or starts with it. */
  lemma VisitCountsItself(w: World, k: Key, r: Rule, v: real, f: Faults)
    requires Counting(w) && Can(w, Visiting(k, Figure(r, v, f)))
    ensures var u := Observe(w, k, r, v, f);
      k in u.p.states &&
      (u.p.states[k].since.Some? ==> exists a :: Stretch(u.h, k, a, |u.h.times|, u.p.states[k].since.value))
  {
    var u := Observe(w, k, r, v, f);
    var n := |w.h.times| - 1;
    var st := StateOf(w.p, k);
    StepOnPair(w.p, r, k, st, v, w.h.times[n], f);
    hide AlertStep;
    assert (k, n) !in w.h.seen && Grows(w.h, u.h);
    if u.p.states[k].since.Some? {
      assert Met(u.h, k, n);
      if st.since.Some? && u.p.states[k].since == st.since {
        assert k in w.p.states && Upto(w, k) == n;
        var a :| Stretch(w.h, k, a, n, st.since.value);
        GrowthKeepsStretch(w.h, u.h, k, a, n, st.since.value);
        assert Stretch(u.h, k, a, n + 1, st.since.value);
      } else {
        assert Stretch(u.h, k, n, n + 1, w.h.times[n]);
      }
    }
  }

  lemma VisitCountsOthers(w: World, k: Key, r: Rule, v: real, f: Faults, j: Key)
    requires Counting(w) && Can(w, Visiting(k, Figure(r, v, f))) && j != k
    ensures var u := Observe(w, k, r, v, f);
      j in u.p.states && u.p.states[j].since.Some? ==>
        exists a :: Stretch(u.h, j, a, Upto(u, j), u.p.states[j].since.value)
  {
    var u := Observe(w, k, r, v, f);
    StepOnPair(w.p, r, k, StateOf(w.p, k), v, w.h.times[|w.h.times| - 1], f);
    hide AlertStep;
    if j in u.p.states && u.p.states[j].since.Some? {
      assert j in w.p.states && u.p.states[j] == w.p.states[j] && Upto(u, j) == Upto(w, j);
      var a :| Stretch(w.h, j, a, Upto(w, j), w.p.states[j].since.value);
      GrowthKeepsStretch(w.h, u.h, j, a, Upto(w, j), w.p.states[j].since.value);
    }
  }

  lemma VisitCounts(w: World, k: Key, r: Rule, v: real, f: Faults)
    requires Counting(w) && Can(w, Visiting(k, Figure(r, v, f)))
    ensures Counting(Observe(w, k, r, v, f))
  {
    var u := Observe(w, k, r, v, f);
    StepOnPair(w.p, r, k, StateOf(w.p, k), v, w.h.times[|w.h.times| - 1], f);
    hide AlertStep, Stretch;
    forall j | j in u.p.states && u.p.states[j].since.Some?
      ensures exists a :: Stretch(u.h, j, a, Upto(u, j), u.p.states[j].since.value)
    {
      if j == k {
        VisitCountsItself(w, k, r, v, f);
        var a :| Stretch(u.h, k, a, |u.h.times|, u.p.states[k].since.value);
        assert u.sweep == Some(w.sweep.value + {k}) && Upto(u, k) == |u.h.times|;
        assert Stretch(u.h, j, a, Upto(u, j), u.p.states[j].since.value);
      } else {
        VisitCountsOthers(w, k, r, v, f, j);
      }
    }
  }

  lemma VisitHeld(w: World, k: Key, r: Rule, v: real, f: Faults)
    requires Counting(w) && AllHeldBefore(w.h) && Can(w, Visiting(k, Figure(r, v, f)))
    ensures AllHeldBefore(Observe(w, k, r, v, f).h)
  {
    var u := Observe(w, k, r, v, f);
    var n := |w.h.times| - 1;
    var st := StateOf(w.p, k);
    VisitCountsItself(w, k, r, v, f);
    var told := AlertStep(w.p, r, k, st, v, w.h.times[n], f).1;
    if told.Some? && told.value.Fired? {
      StepFires(w.p, r, k, st, v, w.h.times[n], f);
      hide AlertStep;
      var e := u.h.log[|u.h.log| - 1];
      var a :| Stretch(u.h, k, a, |u.h.times|, u.p.states[k].since.value);
      assert Long(u.h, e, a);
    }
    hide AlertStep;
    GrowthKeepsHeld(w.h, u.h);
  }

  // Each kind of step keeps Timed.

  lemma VisitKeepsTimed(w: World, k: Key, visit: Visit)
    requires Timed(w) && Can(w, Visiting(k, visit))
    ensures Timed(Visited(w, k, visit))
  {
    var u := Visited(w, k, visit);
    if visit.Figure? {
      VisitCounts(w, k, visit.r, visit.v, visit.f);
      VisitHeld(w, k, visit.r, visit.v, visit.f);
      VisitCools(w, k, visit.r, visit.v, visit.f);
    } else {
      forall j | j in u.p.states && u.p.states[j].since.Some?
        ensures exists a :: Stretch(u.h, j, a, Upto(u, j), u.p.states[j].since.value)
      {
        assert j != k && Upto(u, j) == Upto(w, j);
      }
    }
  }

  lemma VisitCools(w: World, k: Key, r: Rule, v: real, f: Faults)
    requires Remembers(w) && Spaced(w.h.log) && Can(w, Visiting(k, Figure(r, v, f)))
    ensures Remembers(Observe(w, k, r, v, f)) && Spaced(Observe(w, k, r, v, f).h.log)
  {
    var u := Observe(w, k, r, v, f);
    var st := StateOf(w.p, k);
    var at := w.h.times[|w.h.times| - 1];
    StepOnPair(w.p, r, k, st, v, at, f);
    var told := AlertStep(w.p, r, k, st, v, at, f).1;
    hide Remembers, Spaced;
    if told.None? {
      CoolsAfter(w, u, k, None);
    } else {
      if told.value.Fired? { StepFires(w.p, r, k, st, v, at, f); } else { StepClears(w.p, r, k, st, v, at, f); }
      hide AlertStep;
      CoolsAfter(w, u, k, Some(u.h.log[|w.h.log|]));
    }
  }

  lemma CoolsAfter(w: World, u: World, k: Key, told: Option<Event>)
    requires Remembers(w) && Spaced(w.h.log)
    requires k in u.p.states && u.p.states == w.p.states[k := u.p.states[k]]
    requires told.None? ==> u.h.log == w.h.log
    requires told.Some? ==> u.h.log == w.h.log + [told.value] && told.value.Told? && told.value.n.key == k
    requires if told.Some? && told.value.n.Cleared? then u.p.states[k].lastResolved == Some(told.value.n.at)
             else u.p.states[k].lastResolved == StateOf(w.p, k).lastResolved
    requires told.Some? && told.value.n.Fired? ==> !Cooling(StateOf(w.p, k), told.value.n.at)
    ensures Remembers(u) && Spaced(u.h.log)
  {
    if told.Some? {
      assert LastClear(w.h.log, k) == StateOf(w.p, k).lastResolved;
      Appended(w.h.log, u.h.log, told.value);
    }
    forall j ensures LastClear(u.h.log, j) == StateOf(u.p, j).lastResolved {
      assert LastClear(w.h.log, j) == StateOf(w.p, j).lastResolved;
    }
  }

  /** One more event: what was spaced stays so, and only a clear or a drop of the pair moves LastClear. */
  lemma Appended(log: seq<Event>, longer: seq<Event>, e: Event)
    requires longer == log + [e]
    ensures longer[..|longer| - 1] == log
    ensures Spaced(log) && !TooSoon(log, e) ==> Spaced(longer)
  {
    assert longer[..|longer| - 1] == log;
    forall j | 0 <= j < |log| ensures longer[..j] == log[..j] && longer[j] == log[j] {
    }
  }

  lemma DropKeepsTimed(w: World, u: World, gone: set<Key>, e: Event)
    requires Timed(w) && !e.Told?
    requires u.p.states == w.p.states - gone && u.h == w.h.(log := w.h.log + [e])
    requires u.sweep == w.sweep || (u.sweep.None? && gone == w.p.states.Keys)
    requires u.p.restored == w.p.restored || (u.sweep.None? && gone == w.p.states.Keys)
    requires forall k :: k in w.p.states ==> (k in gone <==> Drops(e, k))
    ensures Timed(u)
  {
    Appended(w.h.log, u.h.log, e);
    GrowthKeepsHeld(w.h, u.h);
    forall k | k in u.p.states && u.p.states[k].since.Some?
      ensures exists a :: Stretch(u.h, k, a, Upto(u, k), u.p.states[k].since.value)
    {
      var a :| Stretch(w.h, k, a, Upto(w, k), w.p.states[k].since.value);
      assert Upto(u, k) == Upto(w, k);
      GrowthKeepsStretch(w.h, u.h, k, a, Upto(w, k), w.p.states[k].since.value);
    }
    forall k ensures LastClear(u.h.log, k) == StateOf(u.p, k).lastResolved {
      assert LastClear(w.h.log, k) == StateOf(w.p, k).lastResolved;
    }
  }

  lemma BeginKeepsTimed(w: World, at: int, restore: map<Key, St>)
    requires Timed(w) && Can(w, Begin(at, restore))
    ensures Timed(Next(w, Begin(at, restore)))
  {
    var u := Next(w, Begin(at, restore));
    assert u.h.log == w.h.log;
    GrowthKeepsHeld(w.h, u.h);
    if !w.p.restored {
      forall k | k in restore ensures restore[k].since.None? {
        assert RestoredFrom(w.p.rows, k, restore[k]);
      }
    }
    forall k | k in u.p.states && u.p.states[k].since.Some?
      ensures exists a :: Stretch(u.h, k, a, Upto(u, k), u.p.states[k].since.value)
    {
      var a :| Stretch(w.h, k, a, Upto(w, k), w.p.states[k].since.value);
      GrowthKeepsStretch(w.h, u.h, k, a, Upto(w, k), w.p.states[k].since.value);
      assert Upto(u, k) == Upto(w, k);
    }
    forall k ensures LastClear(u.h.log, k) == StateOf(u.p, k).lastResolved {
      assert LastClear(w.h.log, k) == StateOf(w.p, k).lastResolved;
      if !w.p.restored && k in restore { assert RestoredFrom(w.p.rows, k, restore[k]); }
    }
  }

  lemma EndKeepsTimed(w: World)
    requires Timed(w) && Can(w, End)
    ensures Timed(Next(w, End))
  {
    var u := Next(w, End);
    forall k | k in u.p.states && u.p.states[k].since.Some?
      ensures exists a :: Stretch(u.h, k, a, Upto(u, k), u.p.states[k].since.value)
    {
      assert k in w.sweep.value && Upto(u, k) == Upto(w, k);
    }
  }

  lemma StoreStepKeepsTimed(w: World, u: World)
    requires Timed(w) && u.p.states == w.p.states && u.p.restored == w.p.restored && u.sweep == w.sweep && u.h == w.h
    ensures Timed(u)
  {
    forall k | k in u.p.states && u.p.states[k].since.Some?
      ensures exists a :: Stretch(u.h, k, a, Upto(u, k), u.p.states[k].since.value)
    {
      assert Upto(u, k) == Upto(w, k);
    }
  }

  lemma StepKeepsTimed(w: World, step: Step)
    requires Timed(w) && Can(w, step)
    ensures Timed(Next(w, step))
  {
    hide Counting, AllHeldBefore, Remembers, Spaced, Observe;
    var u := Next(w, step);
    match step
    case Begin(at, restore) => BeginKeepsTimed(w, at, restore);
    case Visiting(k, visit) => VisitKeepsTimed(w, k, visit);
    case Orphan(k, fails) => DropKeepsTimed(w, u, {k}, Dropped(k));
    case End => EndKeepsTimed(w);
    case CloseRule(rule, at, fails) => StoreStepKeepsTimed(w, u);
    case Forget(rule) =>
      var gone := set k | k in w.p.states && k.rule == rule;
      assert u.p.states == w.p.states - gone;
      DropKeepsTimed(w, u, gone, Forgot(rule));
    case Restart =>
      assert u.p.states == w.p.states - w.p.states.Keys;
      DropKeepsTimed(w, u, w.p.states.Keys, Restarted);
    case Retain(cutoff) => StoreStepKeepsTimed(w, u);
  }

  /** In every sweep from a to b the pair's figure was read and was strictly beyond the threshold of the
      rule it was read under: over it for an above rule, under it for a below rule. */
  predicate BeyondThrough(h: History, k: Key, a: int, b: int) {
    forall i :: a <= i <= b ==>
      (k, i) in h.seen &&
      if h.seen[(k, i)].r.above then h.seen[(k, i)].v > h.seen[(k, i)].r.threshold
      else h.seen[(k, i)].v < h.seen[(k, i)].r.threshold
  }

  /** The notice's figure is the one read in its sweep. A firing ends a stretch of figures beyond their
      thresholds as long as the rule read last asks for; an all-clear comes at a figure that is not. */
  predicate Earned(h: History, e: Event)
    requires e.Told?
  {
    e.sweep < |h.times| && h.times[e.sweep] == e.n.at && (e.n.key, e.sweep) in h.seen &&
    var last := h.seen[(e.n.key, e.sweep)];
    if e.n.Fired? then
      e.n.value == last.v &&
      exists a :: 0 <= a <= e.sweep && e.n.at - h.times[a] >= last.r.forSecs && BeyondThrough(h, e.n.key, a, e.sweep)
    else if last.r.above then last.v <= last.r.threshold
    else last.v >= last.r.threshold
  }

  lemma HeldIsEarned(h: History, e: Event)
    requires e.Told? && HeldBefore(h, e)
    ensures Earned(h, e)
  {
    if e.n.Fired? {
      var a :| 0 <= a <= e.sweep && Long(h, e, a);
      forall i | a <= i <= e.sweep
        ensures (e.n.key, i) in h.seen && Holds(h.seen[(e.n.key, i)].r, h.seen[(e.n.key, i)].v)
      {
        assert Met(h, e.n.key, i);
      }
      assert BeyondThrough(h, e.n.key, a, e.sweep);
    }
  }

  /** Main result. In every run, whatever fails and however edits, sweeps and restarts interleave: a
      firing is told only at the end of an unbroken stretch of sweeps that read a figure strictly beyond
      the threshold in the rule's direction, at least as long as the rule asks for, and not within the
      cooldown of the pair's last clear; an all-clear only at a figure that is not beyond it. */
  lemma FiringsAreEarned(steps: seq<Step>, w: World)
    requires Runs(INIT, steps, w)
    ensures forall e :: e in w.h.log && e.Told? ==> Earned(w.h, e)
    ensures Spaced(w.h.log)
  {
    hide Counting, Remembers, Spaced, Can, Next, HeldBefore, Earned;
    RunIsTimed(steps, w);
    forall e | e in w.h.log && e.Told? ensures Earned(w.h, e) {
      HeldIsEarned(w.h, e);
    }
  }

  lemma {:induction false} RunIsTimed(steps: seq<Step>, w: World)
    requires Runs(INIT, steps, w)
    ensures Timed(w)
  {
    hide Counting, AllHeldBefore, Remembers, Spaced, Can, Next;
    if steps == [] {
      InitIsTimed();
    } else {
      var earlier, last := steps[..|steps| - 1], steps[|steps| - 1];
      var v :| Runs(INIT, earlier, v) && Goes(v, last, w);
      RunIsTimed(earlier, v);
      StepKeepsTimed(v, last);
    }
  }

  lemma InitIsTimed()
    ensures Timed(INIT)
  {
  }

  // ---- peaks ------------------------------------------------------------------------------

  /** The peak the figures leave behind, each read in the direction its rule had at the time. */
  function Worst(figs: seq<Fig>): real
    requires figs != []
  {
    if |figs| == 1 then figs[0].v
    else
      var peak, f := Worst(figs[..|figs| - 1]), figs[|figs| - 1];
      if Worse(f.above, f.v, peak) then f.v else peak
  }

  /** Under one direction it is the extreme: the greatest of the figures, or the least. */
  lemma {:induction false} WorstIsExtreme(figs: seq<Fig>, above: bool)
    requires figs != [] && forall i :: 0 < i < |figs| ==> figs[i].above == above
    ensures exists i :: 0 <= i < |figs| && figs[i].v == Worst(figs)
    ensures above ==> forall i :: 0 <= i < |figs| ==> figs[i].v <= Worst(figs)
    ensures !above ==> forall i :: 0 <= i < |figs| ==> figs[i].v >= Worst(figs)
  {
    if |figs| > 1 {
      var rest := figs[..|figs| - 1];
      WorstIsExtreme(rest, above);
      var i :| 0 <= i < |rest| && rest[i].v == Worst(rest);
      assert figs[i] == rest[i];
      assert forall i :: 0 <= i < |rest| ==> figs[i] == rest[i];
      assert figs[i].v == Worst(figs) || figs[|figs| - 1].v == Worst(figs);
    } else {
      assert figs[0].v == Worst(figs);
    }
  }

  predicate PeakOf(figs: seq<Fig>, peak: real) {
    figs != [] && Worst(figs) == peak
  }

  ghost predicate Peaks(w: World) {
    && (forall k :: k in w.p.states && w.p.states[k].eventID != 0 ==>
          k in w.h.figs && PeakOf(w.h.figs[k], w.p.states[k].peak))
    && (forall e :: e in w.h.log && e.Told? && e.n.Cleared? ==> PeakOf(e.figs, e.n.peak))
  }

  lemma VisitKeepsThePeak(w: World, k: Key, r: Rule, v: real, f: Faults)
    requires Peaks(w) && Can(w, Visiting(k, Figure(r, v, f)))
    requires var u := Observe(w, k, r, v, f); k in u.p.states && u.p.states[k].eventID != 0
    ensures var u := Observe(w, k, r, v, f); k in u.h.figs && PeakOf(u.h.figs[k], u.p.states[k].peak)
  {
    var st, at := StateOf(w.p, k), w.h.times[|w.h.times| - 1];
    StepOnPair(w.p, r, k, st, v, at, f);
    var told := AlertStep(w.p, r, k, st, v, at, f).1;
    if told.None? && Holds(r, v) {
      var figs := w.h.figs[k];
      assert (figs + [Fig(r.above, v)])[..|figs|] == figs;
    }
  }

  lemma VisitKeepsPeaks(w: World, k: Key, r: Rule, v: real, f: Faults)
    requires Peaks(w) && Can(w, Visiting(k, Figure(r, v, f)))
    ensures Peaks(Observe(w, k, r, v, f))
  {
    var u := Observe(w, k, r, v, f);
    var st := StateOf(w.p, k);
    var at := w.h.times[|w.h.times| - 1];
    StepOnPair(w.p, r, k, st, v, at, f);
    var told := AlertStep(w.p, r, k, st, v, at, f).1;
    if u.p.states[k].eventID != 0 {
      VisitKeepsThePeak(w, k, r, v, f);
    }
    if told.Some? && told.value.Cleared? { StepClears(w.p, r, k, st, v, at, f); }
    hide AlertStep;
    forall e | e in u.h.log && e.Told? && e.n.Cleared? ensures PeakOf(e.figs, e.n.peak) {
      if e !in w.h.log {
        assert e.n == told.value && e.figs == w.h.figs[k];
      }
    }
  }

  lemma StepKeepsPeaks(w: World, step: Step)
    requires Peaks(w) && Can(w, step)
    ensures Peaks(Next(w, step))
  {
    var u := Next(w, step);
    match step
    case Visiting(k, visit) =>
      if visit.Figure? {
        hide Peaks;
        VisitKeepsPeaks(w, k, visit.r, visit.v, visit.f);
      }
    case Begin(at, restore) =>
      if !w.p.restored {
        forall k | k in restore ensures PeakOf(u.h.figs[k], restore[k].peak) {
        }
      }
    case _ =>
  }

  /** Main result. In every run the peak told in an all-clear is the worst of the figures that held
      since the firing, or since the restored peak after a restart. */
  lemma {:induction false} PeaksAreExtreme(steps: seq<Step>, w: World, e: Event, above: bool)
    requires Runs(INIT, steps, w) && e in w.h.log && e.Told? && e.n.Cleared?
    ensures e.figs != []
    ensures (forall i :: 0 < i < |e.figs| ==> e.figs[i].above == above) ==>
      (exists i :: 0 <= i < |e.figs| && e.figs[i].v == e.n.peak) &&
      (forall i :: 0 <= i < |e.figs| ==> if above then e.figs[i].v <= e.n.peak else e.figs[i].v >= e.n.peak)
  {
    hide Next;
    RunKeepsPeaks(steps, w);
    if forall i :: 0 < i < |e.figs| ==> e.figs[i].above == above {
      WorstIsExtreme(e.figs, above);
    }
  }

  lemma {:induction false} RunKeepsPeaks(steps: seq<Step>, w: World)
    requires Runs(INIT, steps, w)
    ensures Peaks(w)
  {
    hide Can, Next;
    if steps != [] {
      var earlier, last := steps[..|steps| - 1], steps[|steps| - 1];
      var v :| Runs(INIT, earlier, v) && Goes(v, last, w);
      RunKeepsPeaks(earlier, v);
      StepKeepsPeaks(v, last);
    }
  }
}
