/** The store's open rows and the firings the engine holds are the same, over every run whose edits
    forget nothing that is still open; and exactly that condition is needed. */
module AlertAgreement {
  import opened Common
  import opened AlertRules

  /** The pair's last announced firing. */
  function LastFired(log: seq<Event>, k: Key): Option<int> {
    if log == [] then None
    else
      var e := log[|log| - 1];
      if IsFiring(e, k) then Some(e.n.id) else LastFired(log[..|log| - 1], k)
  }

  predicate IsFiring(e: Event, k: Key) {
    e.Told? && e.n.Fired? && e.n.key == k
  }

  predicate BothFire(e: Event, later: Event) {
    later.Told? && IsFiring(e, later.n.key) && IsFiring(later, later.n.key)
  }

  // ---- the properties ---------------------------------------------------------------------

  predicate Holding(w: World, k: Key, id: int) {
    k in w.p.states && w.p.states[k].eventID == id && id != 0
  }

  /** Once restored, the store has an open row for a pair exactly when the engine holds its id. While
      an edit is between closing a rule's firings and forgetting its pairs, the engine may still hold
      what the edit has closed. */
  ghost predicate Agrees(w: World) {
    && (forall id :: Open(w.p.rows, id) && w.p.restored ==> Holding(w, w.p.rows[id].key, id))
    && (forall k, id :: Holding(w, k, id) && k.rule !in w.closing ==> Open(w.p.rows, id) && w.p.rows[id].key == k)
  }

  /** A pair told as fired twice had its first row closed in between. */
  ghost predicate NeverTwiceOpen(w: World) {
    forall i, j :: 0 <= i < j < |w.h.log| && BothFire(w.h.log[i], w.h.log[j]) ==> !Open(w.p.rows, w.h.log[i].n.id)
  }

  /** An all-clear names the pair's last firing, and its row is closed. */
  ghost predicate ClearsTheLast(w: World) {
    forall j :: 0 <= j < |w.h.log| && w.h.log[j].Told? && w.h.log[j].n.Cleared? ==>
      LastFired(w.h.log[..j], w.h.log[j].n.key) == Some(w.h.log[j].n.id) && !Open(w.p.rows, w.h.log[j].n.id)
  }

  // ---- the invariant ----------------------------------------------------------------------

  ghost predicate Ids(w: World) {
    && w.p.nextId > 0
    && (forall id :: id in w.p.rows ==> 0 < id < w.p.nextId && w.p.rows[id].resolvedAt >= 0)
    && (forall k :: k in w.p.states ==> 0 <= w.p.states[k].eventID < w.p.nextId)
    && (forall k, id :: Holding(w, k, id) && id in w.p.rows ==> w.p.rows[id].key == k)
    && (forall i :: 0 <= i < |w.h.times| ==> w.h.times[i] > 0)
    && (!w.p.restored ==> w.p.states == map[] && w.sweep.None?)
    && (w.sweep.Some? ==> |w.h.times| > 0)
  }

  ghost predicate OneOpen(w: World) {
    forall id, other :: Open(w.p.rows, id) && Open(w.p.rows, other) && w.p.rows[id].key == w.p.rows[other].key ==>
      id == other
  }

  ghost predicate ToldIds(w: World) {
    forall e :: e in w.h.log && e.Told? ==>
      0 < e.n.id < w.p.nextId && (e.n.id in w.p.rows ==> w.p.rows[e.n.id].key == e.n.key)
  }

  ghost predicate Latest(w: World) {
    && (forall id :: Open(w.p.rows, id) ==> LastFired(w.h.log, w.p.rows[id].key) == Some(id))
    && (forall k, id :: Holding(w, k, id) ==> LastFired(w.h.log, k) == Some(id))
  }

  ghost predicate Inv(w: World) {
    Ids(w) && Agrees(w) && OneOpen(w) && ToldIds(w) && Latest(w) && NeverTwiceOpen(w) && ClearsTheLast(w)
  }

  /** Nothing open is forgotten: an edit finds its rule's firings all closed when it drops the pairs,
      and the close of an orphaned firing succeeds. */
  ghost predicate Clean(w: World, step: Step)
    requires Can(w, step)
  {
    match step
    case Forget(rule) => !HasOpen(w.p.rows, rule)
    case Orphan(k, fails) => fails ==> !Open(w.p.rows, w.p.states[k].eventID)
    case _ => true
  }

  predicate HasOpen(rows: map<int, Row>, rule: int) {
    exists id :: id in rows && rows[id].resolvedAt == 0 && rows[id].key.rule == rule
  }

  ghost predicate CleanRuns(steps: seq<Step>, w: World) {
    if steps == [] then w == INIT
    else
      var earlier, last := steps[..|steps| - 1], steps[|steps| - 1];
      exists v :: CleanRuns(earlier, v) && Goes(v, last, w) && Clean(v, last)
  }

  // ---- steps that only close rows and drop pairs ------------------------------------------

  predicate OnlyCloses(row: Row, after: Row) {
    after.key == row.key && after.resolvedAt >= 0 && (after.resolvedAt == 0 ==> row.resolvedAt == 0)
  }

  /** No row opens, no pair takes anything up, nothing is told. */
  ghost predicate Shrinks(w: World, u: World) {
    && u.p.nextId == w.p.nextId
    && (forall id :: id in u.p.rows ==> id in w.p.rows && OnlyCloses(w.p.rows[id], u.p.rows[id]))
    && (forall k :: k in u.p.states ==> 0 <= u.p.states[k].eventID < u.p.nextId)
    && (forall k, id :: Holding(u, k, id) ==> Holding(w, k, id))
    && (u.h.log == w.h.log ||
        (|u.h.log| == |w.h.log| + 1 && u.h.log[..|w.h.log|] == w.h.log && !u.h.log[|w.h.log|].Told?))
    && w.h.times <= u.h.times
    && (forall i :: 0 <= i < |u.h.times| ==> u.h.times[i] > 0)
    && (!u.p.restored ==> u.p.states == map[] && u.sweep.None?)
    && (u.sweep.Some? ==> |u.h.times| > 0)
  }

  lemma ShrinkingKeeps(w: World, u: World)
    requires Inv(w) && Shrinks(w, u)
    ensures Ids(u) && OneOpen(u) && ToldIds(u) && Latest(u) && NeverTwiceOpen(u) && ClearsTheLast(u)
  {
    ShrinkingKeepsRows(w, u);
    ShrinkingKeepsTrace(w, u);
  }

  lemma ShrinkingKeepsRows(w: World, u: World)
    requires Inv(w) && Shrinks(w, u)
    ensures Ids(u) && OneOpen(u) && ToldIds(u)
  {
    hide LastFired, NeverTwiceOpen, ClearsTheLast, Agrees;
    forall e | e in u.h.log && e.Told? ensures e in w.h.log {
      var i :| 0 <= i < |u.h.log| && u.h.log[i] == e;
      assert i < |w.h.log| && w.h.log[i] == e;
    }
  }

  lemma ShrinkingKeepsTrace(w: World, u: World)
    requires Inv(w) && Shrinks(w, u)
    ensures Latest(u) && NeverTwiceOpen(u) && ClearsTheLast(u)
  {
    hide Ids, OneOpen, ToldIds, Agrees;
    forall k ensures LastFired(u.h.log, k) == LastFired(w.h.log, k) {
      if |u.h.log| > |w.h.log| { assert u.h.log[..|u.h.log| - 1] == w.h.log; }
    }
    forall j | 0 <= j < |u.h.log| && u.h.log[j].Told?
      ensures j < |w.h.log| && u.h.log[j] == w.h.log[j] && u.h.log[..j] == w.h.log[..j] {
    }
    forall id | Open(u.p.rows, id) ensures Open(w.p.rows, id) {
    }
    forall i, j | 0 <= i < j < |u.h.log| && BothFire(u.h.log[i], u.h.log[j]) ensures !Open(u.p.rows, u.h.log[i].n.id) {
      assert BothFire(w.h.log[i], w.h.log[j]);
    }
  }

  lemma DropsShrink(w: World, step: Step)
    requires Ids(w) && Can(w, step)
    requires step.Orphan? || step.End? || step.CloseRule? || step.Forget? || step.Restart? || step.Retain?
    ensures Shrinks(w, Next(w, step))
  {
    var u := Next(w, step);
    match step
    case Orphan(k, fails) => OrphanShrinks(w, k, fails);
    case CloseRule(rule, at, fails) => assert Shrinks(w, u);
    case Forget(rule) => assert Shrinks(w, u);
    case Restart => assert Shrinks(w, u);
    case Retain(cutoff) => assert Shrinks(w, u);
    case End => assert Shrinks(w, u);
  }

  lemma OrphanShrinks(w: World, k: Key, fails: bool)
    requires Ids(w) && Can(w, Orphan(k, fails))
    ensures Shrinks(w, Next(w, Orphan(k, fails)))
  {
  }

  lemma DropsAgree(w: World, step: Step)
    requires Ids(w) && Agrees(w) && Can(w, step) && Clean(w, step)
    requires step.Orphan? || step.End? || step.CloseRule? || step.Forget? || step.Restart? || step.Retain?
    ensures Agrees(Next(w, step))
  {
    var u := Next(w, step);
    match step
    case Orphan(k, fails) => OrphanAgrees(w, k, fails);
    case CloseRule(rule, at, fails) => CloseAgrees(w, rule, at, fails);
    case Forget(rule) => assert Agrees(u);
    case Restart => assert Agrees(u);
    case Retain(cutoff) => RetainAgrees(w, cutoff);
    case End => assert Agrees(u);
  }

  lemma RetainAgrees(w: World, cutoff: int)
    requires Ids(w) && Agrees(w) && Can(w, Retain(cutoff))
    ensures Agrees(Next(w, Retain(cutoff)))
  {
    var u := Next(w, Retain(cutoff));
    forall id | Open(u.p.rows, id) && u.p.restored ensures Holding(u, u.p.rows[id].key, id) {
      assert Open(w.p.rows, id);
    }
    forall j, id | Holding(u, j, id) && j.rule !in u.closing ensures Open(u.p.rows, id) && u.p.rows[id].key == j {
      assert Holding(w, j, id) && Open(w.p.rows, id) && w.p.rows[id].key == j;
    }
  }

  lemma OrphanAgrees(w: World, k: Key, fails: bool)
    requires Ids(w) && Agrees(w) && Can(w, Orphan(k, fails)) && Clean(w, Orphan(k, fails))
    ensures Agrees(Next(w, Orphan(k, fails)))
  {
    var u := Next(w, Orphan(k, fails));
    var mine := w.p.states[k].eventID;
    forall j, id | Holding(u, j, id) && j.rule !in u.closing ensures Open(u.p.rows, id) && u.p.rows[id].key == j {
      assert Holding(w, j, id) && Open(w.p.rows, id) && w.p.rows[id].key == j;
      assert mine != 0 ==> Holding(w, k, mine);
    }
    forall id | Open(u.p.rows, id) && u.p.restored ensures Holding(u, u.p.rows[id].key, id) {
      assert Open(w.p.rows, id);
    }
  }

  lemma CloseAgrees(w: World, rule: int, at: int, fails: bool)
    requires Ids(w) && Agrees(w) && Can(w, CloseRule(rule, at, fails))
    ensures Agrees(Next(w, CloseRule(rule, at, fails)))
  {
    var u := Next(w, CloseRule(rule, at, fails));
    forall id | Open(u.p.rows, id) && u.p.restored ensures Holding(u, u.p.rows[id].key, id) {
      assert Open(w.p.rows, id);
    }
    forall j, id | Holding(u, j, id) && j.rule !in u.closing ensures Open(u.p.rows, id) && u.p.rows[id].key == j {
      assert Holding(w, j, id) && Open(w.p.rows, id) && w.p.rows[id].key == j;
    }
  }

  lemma DropsKeep(w: World, step: Step)
    requires Inv(w) && Can(w, step) && Clean(w, step)
    requires step.Orphan? || step.End? || step.CloseRule? || step.Forget? || step.Restart? || step.Retain?
    ensures Inv(Next(w, step))
  {
    DropsShrink(w, step);
    DropsAgree(w, step);
    hide Next, Shrinks, Ids, Agrees, OneOpen, LastFired, NeverTwiceOpen, ClearsTheLast, Latest, ToldIds;
    ShrinkingKeeps(w, Next(w, step));
  }

  // ---- the start of a sweep ---------------------------------------------------------------

  lemma BeginKeeps(w: World, at: int, restore: map<Key, St>)
    requires Inv(w) && Can(w, Begin(at, restore))
    ensures Inv(Next(w, Begin(at, restore)))
  {
    var u := Next(w, Begin(at, restore));
    if w.p.restored {
      hide LastFired, NeverTwiceOpen, ClearsTheLast, Latest, ToldIds;
      ShrinkingKeeps(w, u);
    } else {
      hide LastFired;
      forall k | k in restore ensures RestoredFrom(w.p.rows, k, restore[k]) {
      }
    }
  }

  // ---- a visit ----------------------------------------------------------------------------

  lemma QuietVisitKeeps(w: World, k: Key, r: Rule, v: real, f: Faults)
    requires Inv(w) && Can(w, Visiting(k, Figure(r, v, f)))
    requires AlertStep(w.p, r, k, StateOf(w.p, k), v, w.h.times[|w.h.times| - 1], f).1.None?
    ensures Inv(Observe(w, k, r, v, f))
  {
    var u := Observe(w, k, r, v, f);
    StepOnPair(w.p, r, k, StateOf(w.p, k), v, w.h.times[|w.h.times| - 1], f);
    StepIsQuiet(w.p, r, k, StateOf(w.p, k), v, w.h.times[|w.h.times| - 1], f);
    hide AlertStep, LastFired, NeverTwiceOpen, ClearsTheLast, Latest, ToldIds, OneOpen;
    QuietVisitShrinks(w, k, r, v, f);
    ShrinkingKeeps(w, u);
    hide Shrinks;
  }

  lemma QuietVisitShrinks(w: World, k: Key, r: Rule, v: real, f: Faults)
    requires Ids(w) && Can(w, Visiting(k, Figure(r, v, f)))
    requires AlertStep(w.p, r, k, StateOf(w.p, k), v, w.h.times[|w.h.times| - 1], f).1.None?
    ensures Shrinks(w, Observe(w, k, r, v, f))
  {
    StepOnPair(w.p, r, k, StateOf(w.p, k), v, w.h.times[|w.h.times| - 1], f);
    StepIsQuiet(w.p, r, k, StateOf(w.p, k), v, w.h.times[|w.h.times| - 1], f);
    hide AlertStep;
  }

  lemma FiringKeeps(w: World, k: Key, r: Rule, v: real, f: Faults)
    requires Inv(w) && Can(w, Visiting(k, Figure(r, v, f)))
    requires var told := AlertStep(w.p, r, k, StateOf(w.p, k), v, w.h.times[|w.h.times| - 1], f).1;
      told.Some? && told.value.Fired?
    ensures Inv(Observe(w, k, r, v, f))
  {
    var u := Observe(w, k, r, v, f);
    StepOnPair(w.p, r, k, StateOf(w.p, k), v, w.h.times[|w.h.times| - 1], f);
    StepFires(w.p, r, k, StateOf(w.p, k), v, w.h.times[|w.h.times| - 1], f);
    hide AlertStep;
    OpensKeeps(w, u, k, w.h.times[|w.h.times| - 1], v, u.h.log[|w.h.log|]);
  }

  /** A pair that holds nothing takes up a new row. */
  ghost predicate Opens(w: World, u: World, k: Key, at: int, v: real, e: Event) {
    && w.p.restored && StateOf(w.p, k).eventID == 0
    && (forall id :: Open(w.p.rows, id) ==> w.p.rows[id].key != k)
    && u.p.rows == w.p.rows[w.p.nextId := Row(k, at, v, v, 0)] && u.p.nextId == w.p.nextId + 1
    && k in u.p.states && u.p.states == w.p.states[k := u.p.states[k]] && u.p.states[k].eventID == w.p.nextId
    && u.p.restored && u.closing == w.closing && u.h.times == w.h.times && |w.h.times| > 0
    && u.h.log == w.h.log + [e] && IsFiring(e, k) && e.n.id == w.p.nextId
  }

  lemma OpensKeeps(w: World, u: World, k: Key, at: int, v: real, e: Event)
    requires Inv(w) && Opens(w, u, k, at, v, e)
    ensures Inv(u)
  {
    hide Opens, Ids, OneOpen, LastFired, NeverTwiceOpen, ClearsTheLast, Latest, ToldIds, Agrees;
    OpensKeepsIds(w, u, k, at, v, e);
    OpensKeepsAgreement(w, u, k, at, v, e);
    OpensKeepsLatest(w, u, k, at, v, e);
    OpensKeepsTrace(w, u, k, at, v, e);
  }

  lemma OpensKeepsIds(w: World, u: World, k: Key, at: int, v: real, e: Event)
    requires Ids(w) && ToldIds(w) && Opens(w, u, k, at, v, e)
    ensures Ids(u) && ToldIds(u)
  {
    forall j, id | Holding(u, j, id) && id in u.p.rows ensures u.p.rows[id].key == j {
      if j != k { assert Holding(w, j, id) && w.p.states[j].eventID < w.p.nextId; }
    }
    forall x | x in u.h.log && x.Told?
      ensures 0 < x.n.id < u.p.nextId && (x.n.id in u.p.rows ==> u.p.rows[x.n.id].key == x.n.key)
    {
      assert x in w.h.log || x == e;
    }
  }

  lemma OpensKeepsAgreement(w: World, u: World, k: Key, at: int, v: real, e: Event)
    requires Ids(w) && Agrees(w) && OneOpen(w) && Opens(w, u, k, at, v, e)
    ensures Agrees(u) && OneOpen(u)
  {
    forall id | Open(u.p.rows, id) ensures Holding(u, u.p.rows[id].key, id) {
      assert id == w.p.nextId || Open(w.p.rows, id);
    }
    forall j, id | Holding(u, j, id) && j.rule !in u.closing ensures Open(u.p.rows, id) && u.p.rows[id].key == j {
      assert j == k || Holding(w, j, id);
    }
  }

  lemma OpensKeepsLatest(w: World, u: World, k: Key, at: int, v: real, e: Event)
    requires Ids(w) && Latest(w) && Opens(w, u, k, at, v, e)
    ensures Latest(u)
  {
    assert u.h.log[..|u.h.log| - 1] == w.h.log;
    forall j ensures LastFired(u.h.log, j) == if j == k then Some(w.p.nextId) else LastFired(w.h.log, j) {
    }
    hide LastFired;
    forall j, id | Holding(u, j, id) ensures LastFired(u.h.log, j) == Some(id) {
      assert j == k || Holding(w, j, id);
    }
    forall id | Open(u.p.rows, id) ensures LastFired(u.h.log, u.p.rows[id].key) == Some(id) {
      assert id == w.p.nextId || Open(w.p.rows, id);
    }
  }

  lemma OpensKeepsTrace(w: World, u: World, k: Key, at: int, v: real, e: Event)
    requires ToldIds(w) && NeverTwiceOpen(w) && ClearsTheLast(w) && Opens(w, u, k, at, v, e)
    ensures NeverTwiceOpen(u) && ClearsTheLast(u)
  {
    hide LastFired;
    forall j | 0 <= j < |w.h.log|
      ensures u.h.log[j] == w.h.log[j] && u.h.log[..j] == w.h.log[..j] && w.h.log[j] in w.h.log
    {
    }
    forall i, j | 0 <= i < j < |u.h.log| && BothFire(u.h.log[i], u.h.log[j]) ensures !Open(u.p.rows, u.h.log[i].n.id) {
      assert w.h.log[i] in w.h.log;
      if j < |w.h.log| { assert BothFire(w.h.log[i], w.h.log[j]); }
    }
    forall j | 0 <= j < |u.h.log| && u.h.log[j].Told? && u.h.log[j].n.Cleared?
      ensures LastFired(u.h.log[..j], u.h.log[j].n.key) == Some(u.h.log[j].n.id) && !Open(u.p.rows, u.h.log[j].n.id)
    {
      assert j < |w.h.log| && w.h.log[j] in w.h.log;
    }
  }

  lemma ClearingKeeps(w: World, k: Key, r: Rule, v: real, f: Faults)
    requires Inv(w) && Can(w, Visiting(k, Figure(r, v, f)))
    requires var told := AlertStep(w.p, r, k, StateOf(w.p, k), v, w.h.times[|w.h.times| - 1], f).1;
      told.Some? && told.value.Cleared?
    ensures Inv(Observe(w, k, r, v, f))
  {
    var u := Observe(w, k, r, v, f);
    StepOnPair(w.p, r, k, StateOf(w.p, k), v, w.h.times[|w.h.times| - 1], f);
    StepClears(w.p, r, k, StateOf(w.p, k), v, w.h.times[|w.h.times| - 1], f);
    hide AlertStep;
    var e := u.h.log[|w.h.log|];
    assert u.h.log == w.h.log + [e];
    ghost var mid := u.(h := u.h.(log := w.h.log));
    ClearsInStore(w, mid, k, w.h.times[|w.h.times| - 1], w.p.states[k].eventID);
    TellsTheClear(mid, u, e);
  }

  /** The row a pair held closes. */
  lemma ClearsInStore(w: World, u: World, k: Key, at: int, id: int)
    requires Inv(w) && w.p.restored && Holding(w, k, id) && at > 0
    requires u.p.rows == CloseRow(w.p.rows, id, at) && u.p.nextId == w.p.nextId
    requires k in u.p.states && u.p.states == w.p.states[k := u.p.states[k]] && u.p.states[k].eventID == 0
    requires u.p.restored && u.closing == w.closing && |w.h.times| > 0
    requires u.h.times == w.h.times && u.h.log == w.h.log
    ensures Inv(u) && !Open(u.p.rows, id) && LastFired(u.h.log, k) == Some(id)
  {
    hide LastFired, NeverTwiceOpen, ClearsTheLast, ToldIds;
    assert Shrinks(w, u) && Agrees(u);
    ShrinkingKeeps(w, u);
  }

  lemma TellsTheClear(w: World, u: World, e: Event)
    requires Inv(w) && u.p == w.p && u.sweep == w.sweep && u.closing == w.closing
    requires u.h.times == w.h.times && u.h.log == w.h.log + [e]
    requires e.Told? && e.n.Cleared? && LastFired(w.h.log, e.n.key) == Some(e.n.id) && !Open(w.p.rows, e.n.id)
    requires 0 < e.n.id < w.p.nextId && (e.n.id in w.p.rows ==> w.p.rows[e.n.id].key == e.n.key)
    ensures Inv(u)
  {
    TellsInTrace(w, u, e);
    TellsInStore(w, u);
  }

  lemma TellsInStore(w: World, u: World)
    requires Ids(w) && Agrees(w) && OneOpen(w)
    requires u.p == w.p && u.sweep == w.sweep && u.closing == w.closing && u.h.times == w.h.times
    ensures Ids(u) && Agrees(u) && OneOpen(u)
  {
    forall k, id | Holding(u, k, id) ensures Holding(w, k, id) {
    }
  }

  lemma TellsInTrace(w: World, u: World, e: Event)
    requires ToldIds(w) && Latest(w) && NeverTwiceOpen(w) && ClearsTheLast(w)
    requires u.p == w.p && u.h.log == w.h.log + [e]
    requires e.Told? && e.n.Cleared? && LastFired(w.h.log, e.n.key) == Some(e.n.id) && !Open(w.p.rows, e.n.id)
    requires 0 < e.n.id < w.p.nextId && (e.n.id in w.p.rows ==> w.p.rows[e.n.id].key == e.n.key)
    ensures ToldIds(u) && Latest(u) && NeverTwiceOpen(u) && ClearsTheLast(u)
  {
    assert u.h.log[..|u.h.log| - 1] == w.h.log;
    forall k ensures LastFired(u.h.log, k) == LastFired(w.h.log, k) {
    }
    forall j | 0 <= j < |w.h.log| ensures u.h.log[j] == w.h.log[j] && u.h.log[..j] == w.h.log[..j] {
    }
    hide LastFired;
    forall k, id | Holding(u, k, id) ensures Holding(w, k, id) {
    }
    forall i, j | 0 <= i < j < |u.h.log| && BothFire(u.h.log[i], u.h.log[j]) ensures !Open(u.p.rows, u.h.log[i].n.id) {
      assert j < |w.h.log| && BothFire(w.h.log[i], w.h.log[j]);
    }
  }

  lemma VisitKeeps(w: World, k: Key, visit: Visit)
    requires Inv(w) && Can(w, Visiting(k, visit))
    ensures Inv(Next(w, Visiting(k, visit)))
  {
    var u := Next(w, Visiting(k, visit));
    if visit.Figure? {
      var told := AlertStep(w.p, visit.r, k, StateOf(w.p, k), visit.v, w.h.times[|w.h.times| - 1], visit.f).1;
      hide AlertStep, Inv;
      if told.None? {
        QuietVisitKeeps(w, k, visit.r, visit.v, visit.f);
      } else if told.value.Fired? {
        FiringKeeps(w, k, visit.r, visit.v, visit.f);
      } else {
        ClearingKeeps(w, k, visit.r, visit.v, visit.f);
      }
    } else {
      hide LastFired, NeverTwiceOpen, ClearsTheLast, Latest, ToldIds;
      assert Shrinks(w, u);
      ShrinkingKeeps(w, u);
    }
  }

  lemma StepKeepsInv(w: World, step: Step)
    requires Inv(w) && Can(w, step) && Clean(w, step)
    ensures Inv(Next(w, step))
  {
    hide Inv, Next, Clean;
    match step
    case Begin(at, restore) => BeginKeeps(w, at, restore);
    case Visiting(k, visit) => VisitKeeps(w, k, visit);
    case _ => DropsKeep(w, step);
  }

  // ---- over runs --------------------------------------------------------------------------

  lemma InitInv()
    ensures Inv(INIT)
  {
  }

  lemma {:induction false} RunKeepsInv(steps: seq<Step>, w: World)
    requires CleanRuns(steps, w)
    ensures Inv(w)
  {
    hide Inv, Next, Can, Clean;
    if steps == [] {
      InitInv();
    } else {
      var earlier, last := steps[..|steps| - 1], steps[|steps| - 1];
      var v :| CleanRuns(earlier, v) && Goes(v, last, w) && Clean(v, last);
      RunKeepsInv(earlier, v);
      StepKeepsInv(v, last);
    }
  }

  /** Main result. Over any run that forgets nothing open, whatever else fails: the store and the
      engine agree on what is firing, no pair is told as fired twice without its row being closed in
      between, and every all-clear is about the pair's last firing, whose row is closed. */
  lemma AgreementHolds(steps: seq<Step>, w: World)
    requires CleanRuns(steps, w)
    ensures Agrees(w) && NeverTwiceOpen(w) && ClearsTheLast(w)
  {
    RunKeepsInv(steps, w);
  }

  /** Once no edit is underway the agreement is exact. */
  lemma AgreementIsExact(steps: seq<Step>, w: World, k: Key, id: int)
    requires CleanRuns(steps, w) && w.p.restored && w.closing == {}
    ensures Open(w.p.rows, id) && w.p.rows[id].key == k <==> Holding(w, k, id)
  {
    RunKeepsInv(steps, w);
    hide LastFired;
  }

  // ---- and the condition is needed --------------------------------------------------------

  /** An edit's forgetting keeps the agreement exactly when its rule has no open row by then. */
  lemma ForgetAgreesIff(w: World, rule: int)
    requires Inv(w) && Can(w, Forget(rule)) && w.p.restored
    ensures Agrees(Next(w, Forget(rule))) <==> !HasOpen(w.p.rows, rule)
  {
    var u := Next(w, Forget(rule));
    if HasOpen(w.p.rows, rule) {
      var id :| id in w.p.rows && w.p.rows[id].resolvedAt == 0 && w.p.rows[id].key.rule == rule;
      assert Open(u.p.rows, id) && !Holding(u, u.p.rows[id].key, id);
    } else {
      DropsKeep(w, Forget(rule));
    }
  }

  /** And the dropping of an orphaned firing, exactly when its row was closed first. */
  lemma OrphanAgreesIff(w: World, k: Key, fails: bool)
    requires Inv(w) && Can(w, Orphan(k, fails))
    ensures Agrees(Next(w, Orphan(k, fails))) <==> !(fails && Open(w.p.rows, w.p.states[k].eventID))
  {
    var u := Next(w, Orphan(k, fails));
    var id := w.p.states[k].eventID;
    if fails && Open(w.p.rows, id) {
      assert Holding(w, k, id) && w.p.rows[id].key == k;
      assert Open(u.p.rows, id) && !Holding(u, k, id);
    } else {
      DropsKeep(w, Orphan(k, fails));
    }
  }

  /** An edit that no sweep comes into forgets nothing open, if its close succeeds. */
  lemma UndisturbedEditIsClean(w: World, rule: int, at: int)
    requires Can(w, CloseRule(rule, at, false)) && w.sweep.None?
    ensures var closed := Next(w, CloseRule(rule, at, false));
      Can(closed, Forget(rule)) && Clean(closed, Forget(rule))
  {
  }

  const RULE := Rule(1, true, "cpu", true, 0.0, 0, 0)
  const PAIR := Key(1, 0)
  const NONE_FAIL := Faults(false, false, false)

  lemma RunOn(steps: seq<Step>, v: World, step: Step, w: World)
    requires Runs(INIT, steps, v) && Goes(v, step, w)
    ensures Runs(INIT, steps + [step], w)
  {
    assert (steps + [step])[..|steps|] == steps;
  }

  /** A sweep that finds the condition true fires a pair that has nothing open and no cooldown. */
  lemma SweepFires(steps: seq<Step>, w: World, at: int) returns (steps': seq<Step>, u: World)
    requires Runs(INIT, steps, w) && w.sweep.None? && w.p.restored && w.p.states == map[] && at > 0
    ensures Runs(INIT, steps', u) && u.sweep.None? && u.p.restored && u.closing == w.closing
    ensures u.p.states.Keys == {PAIR} && u.p.states[PAIR].eventID == w.p.nextId && u.p.nextId == w.p.nextId + 1
    ensures u.p.rows == w.p.rows[w.p.nextId := Row(PAIR, at, 1.0, 1.0, 0)]
    ensures |u.h.log| == |w.h.log| + 1 && u.h.log[..|w.h.log|] == w.h.log
    ensures IsFiring(u.h.log[|w.h.log|], PAIR) && u.h.log[|w.h.log|].n.id == w.p.nextId
  {
    hide Runs;
    var begun := Next(w, Begin(at, w.p.states));
    RunOn(steps, w, Begin(at, w.p.states), begun);
    var visit := Visiting(PAIR, Figure(RULE, 1.0, NONE_FAIL));
    var fired := Next(begun, visit);
    RunOn(steps + [Begin(at, w.p.states)], begun, visit, fired);
    u := Next(fired, End);
    RunOn(steps + [Begin(at, w.p.states)] + [visit], fired, End, u);
    steps' := steps + [Begin(at, w.p.states)] + [visit] + [End];
  }

  /** The first sweep of a new panel, with nothing to look at, then an edit closes the rule's firings. */
  lemma EditBegins() returns (steps: seq<Step>, w: World)
    ensures Runs(INIT, steps, w) && w.sweep.None? && w.p == Panel(map[], 1, map[], true)
    ensures w.closing == {1} && w.h.log == []
  {
    assert Runs(INIT, [], INIT);
    hide Runs;
    var begun := Next(INIT, Begin(1000, map[]));
    RunOn([], INIT, Begin(1000, map[]), begun);
    var ended := Next(begun, End);
    RunOn([] + [Begin(1000, map[])], begun, End, ended);
    w := Next(ended, CloseRule(1, 1050, false));
    RunOn([] + [Begin(1000, map[])] + [End], ended, CloseRule(1, 1050, false), w);
    steps := [] + [Begin(1000, map[])] + [End] + [CloseRule(1, 1050, false)];
  }

  /** A sweep that fires between an edit's close and its forgetting leaves a row nobody holds, and the
      next sweep announces the same firing again beside it. */
  lemma EditCanOrphanARow()
    ensures exists steps, w :: Runs(INIT, steps, w) && !Agrees(w) && !NeverTwiceOpen(w) && w.closing == {}
  {
    hide Runs;
    var steps0, w0 := EditBegins();
    var steps1, w1 := SweepFires(steps0, w0, 1060);
    var w2 := Next(w1, Forget(1));
    RunOn(steps1, w1, Forget(1), w2);
    var steps3, w3 := SweepFires(steps1 + [Forget(1)], w2, 1120);
    assert Open(w3.p.rows, 1) && !Holding(w3, PAIR, 1);
    assert w3.h.log[0] == w2.h.log[0] == w1.h.log[0];
    assert BothFire(w3.h.log[0], w3.h.log[2]);
  }
}
