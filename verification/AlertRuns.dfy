/** What holds of every run of AlertRules besides the hold time and the cooldown: rows and all-clears tell what
    a firing told, rows are history, and a stretch of figures that is due fires. */
module AlertRuns {
  import opened Common
  import opened AlertRules

  // ---- what rows and all-clears tell ------------------------------------------------------

  predicate ToldOf(log: seq<Event>, k: Key, id: int, firedAt: int, value: real) {
    exists e :: e in log && e.Told? && e.n == Fired(k, id, firedAt, value)
  }

  /** Whatever the store or the engine holds of a firing, and whatever an all-clear says of it, is what its
      firing told: pair, id, time and figure. */
  ghost predicate Recorded(w: World) {
    && w.p.nextId > 0
    && (forall id :: id in w.p.rows ==>
          0 < id < w.p.nextId && ToldOf(w.h.log, w.p.rows[id].key, id, w.p.rows[id].firedAt, w.p.rows[id].value))
    && (forall k :: k in w.p.states && w.p.states[k].eventID != 0 ==> HeldAsTold(w, k, w.p.states[k]))
    && (forall e :: e in w.h.log && e.Told? && e.n.Cleared? ==>
          ToldOf(w.h.log, e.n.key, e.n.id, e.n.firedAt, e.n.value))
  }

  predicate HeldAsTold(w: World, k: Key, st: St) {
    0 < st.eventID < w.p.nextId && ToldOf(w.h.log, k, st.eventID, st.firedAt, st.value) &&
    (st.eventID in w.p.rows ==>
       var row := w.p.rows[st.eventID];
       row.key == k && row.firedAt == st.firedAt && row.value == st.value)
  }

  /** The open row of a firing held shows the peak the engine has seen. */
  ghost predicate ShowsPeaks(w: World) {
    forall k :: k in w.p.states && Open(w.p.rows, w.p.states[k].eventID) ==>
      w.p.rows[w.p.states[k].eventID].peak == w.p.states[k].peak
  }

  predicate PeakIsStored(step: Step) {
    step.Visiting? && step.visit.Figure? ==> !step.visit.f.peak
  }

  lemma MoreIsTold(log: seq<Event>, longer: seq<Event>)
    requires log <= longer
    ensures forall k, id, firedAt, value :: ToldOf(log, k, id, firedAt, value) ==> ToldOf(longer, k, id, firedAt, value)
  {
    forall k, id, firedAt, value | ToldOf(log, k, id, firedAt, value) ensures ToldOf(longer, k, id, firedAt, value) {
      var e :| e in log && e.Told? && e.n == Fired(k, id, firedAt, value);
      assert e in longer;
    }
  }

  lemma FiringIsRecorded(w: World, u: World, k: Key, id: int, at: int, v: real)
    requires Recorded(w) && id == w.p.nextId && u.p.nextId == id + 1
    requires u.p.rows == w.p.rows[id := Row(k, at, v, v, 0)]
    requires |u.h.log| == |w.h.log| + 1 && w.h.log <= u.h.log
    requires u.h.log[|w.h.log|].Told? && u.h.log[|w.h.log|].n == Fired(k, id, at, v)
    requires k in u.p.states && u.p.states == w.p.states[k := u.p.states[k]]
    requires u.p.states[k].eventID == id && u.p.states[k].firedAt == at && u.p.states[k].value == v
    ensures Recorded(u)
  {
    assert ToldOf(u.h.log, k, id, at, v);
    hide ToldOf;
    MoreIsTold(w.h.log, u.h.log);
  }

  /** Rows are closed, shown another peak or purged, pairs dropped or rested, firings told as cleared. */
  ghost predicate FiresNothing(w: World, u: World) {
    && u.p.nextId == w.p.nextId && w.h.log <= u.h.log
    && (forall id :: id in u.p.rows ==> id in w.p.rows && SameFiring(w.p.rows[id], u.p.rows[id]))
    && (forall k :: k in u.p.states && u.p.states[k].eventID != 0 ==>
          k in w.p.states && SameHeld(w.p.states[k], u.p.states[k]))
    && (forall e :: e in u.h.log && e !in w.h.log && e.Told? ==>
          (e.n.Cleared? && ToldOf(w.h.log, e.n.key, e.n.id, e.n.firedAt, e.n.value)))
  }

  lemma FiringNothingKeepsRecorded(w: World, u: World)
    requires Recorded(w) && FiresNothing(w, u)
    ensures Recorded(u)
  {
    hide ToldOf;
    MoreIsTold(w.h.log, u.h.log);
  }

  predicate SameFiring(row: Row, after: Row) {
    after.key == row.key && after.firedAt == row.firedAt && after.value == row.value
  }

  predicate SameHeld(st: St, after: St) {
    after.eventID == st.eventID && after.firedAt == st.firedAt && after.value == st.value
  }

  /** A step that fires nothing leaves what rows and the pair's state tell of a firing, and clears the one
      held if any; one that fires holds what it tells. */
  lemma KeepsTheFiring(p: Panel, r: Rule, k: Key, st: St, v: real, at: int, f: Faults)
    ensures var (q, told) := AlertStep(p, r, k, st, v, at, f); var after := q.states[k];
      && k in q.states
      && (told.Some? && told.value.Fired? ==> after.firedAt == at && after.value == v)
      && (!(told.Some? && told.value.Fired?) ==>
            q.nextId == p.nextId && q.rows.Keys == p.rows.Keys &&
            (forall id :: id in p.rows ==> SameFiring(p.rows[id], q.rows[id])) &&
            (after.eventID == 0 || SameHeld(st, after)))
      && (told.Some? && told.value.Cleared? ==>
            st.eventID != 0 && told.value == Cleared(k, st.eventID, at, st.firedAt, st.value, st.peak))
  {
  }

  lemma VisitKeepsRecorded(w: World, k: Key, r: Rule, v: real, f: Faults)
    requires Recorded(w) && Can(w, Visiting(k, Figure(r, v, f)))
    ensures Recorded(Observe(w, k, r, v, f))
  {
    var u := Observe(w, k, r, v, f);
    var st, at := StateOf(w.p, k), w.h.times[|w.h.times| - 1];
    StepOnPair(w.p, r, k, st, v, at, f);
    KeepsTheFiring(w.p, r, k, st, v, at, f);
    var told := AlertStep(w.p, r, k, st, v, at, f).1;
    if told.Some? && told.value.Fired? {
      StepFires(w.p, r, k, st, v, at, f);
      hide Recorded, ToldOf, AlertStep;
      FiringIsRecorded(w, u, k, w.p.nextId, at, v);
    } else {
      hide ToldOf, AlertStep;
      if told.Some? { assert HeldAsTold(w, k, st); }
      hide Recorded;
      FiringNothingKeepsRecorded(w, u);
    }
  }

  lemma BeginKeepsRecorded(w: World, at: int, restore: map<Key, St>)
    requires Recorded(w) && Can(w, Begin(at, restore))
    ensures Recorded(Next(w, Begin(at, restore)))
  {
    hide ToldOf;
    if !w.p.restored {
      forall k | k in restore ensures HeldAsTold(Next(w, Begin(at, restore)), k, restore[k]) {
        assert RestoredFrom(w.p.rows, k, restore[k]);
      }
    }
  }

  lemma StepKeepsRecorded(w: World, step: Step)
    requires Recorded(w) && Can(w, step)
    ensures Recorded(Next(w, step))
  {
    var u := Next(w, step);
    hide ToldOf, Observe;
    if step.Visiting? && step.visit.Figure? {
      hide Recorded;
      VisitKeepsRecorded(w, step.k, step.visit.r, step.visit.v, step.visit.f);
    } else if step.Begin? {
      hide Recorded;
      BeginKeepsRecorded(w, step.at, step.restore);
    } else {
      hide Recorded;
      FiringNothingKeepsRecorded(w, u);
    }
  }

  lemma StepKeepsPeaksShown(w: World, step: Step)
    requires Recorded(w) && ShowsPeaks(w) && Can(w, step) && PeakIsStored(step)
    ensures ShowsPeaks(Next(w, step))
  {
    hide ToldOf;
    var u := Next(w, step);
    if step.Begin? && !w.p.restored {
      forall k | k in u.p.states && Open(u.p.rows, u.p.states[k].eventID)
        ensures u.p.rows[u.p.states[k].eventID].peak == u.p.states[k].peak
      {
        assert RestoredFrom(w.p.rows, k, step.restore[k]);
      }
    }
  }

  predicate Kept(row: Row, after: Row) {
    after.key == row.key && after.firedAt == row.firedAt && after.value == row.value &&
    (row.resolvedAt > 0 ==> after == row)
  }

  lemma StepKeepsRows(w: World, step: Step, id: int)
    requires Recorded(w) && Can(w, step) && id in w.p.rows && w.p.rows[id].resolvedAt >= 0
    ensures var row, u := w.p.rows[id], Next(w, step);
      && (id !in u.p.rows <==> step.Retain? && 0 < row.resolvedAt < step.cutoff)
      && (id in u.p.rows ==> Kept(row, u.p.rows[id]))
  {
    hide ToldOf, HeldAsTold;
  }

  /** In every run a row stays until retention takes it, which it does exactly if it was closed before the
      cutoff; its pair, time and figure stay, and once closed all of it. */
  lemma RowsAreHistory(steps: seq<Step>, w: World, step: Step, id: int)
    requires Runs(INIT, steps, w) && Can(w, step) && id in w.p.rows && w.p.rows[id].resolvedAt >= 0
    ensures var row, u := w.p.rows[id], Next(w, step);
      && (id !in u.p.rows <==> step.Retain? && 0 < row.resolvedAt < step.cutoff)
      && (id in u.p.rows ==>
            u.p.rows[id].key == row.key && u.p.rows[id].firedAt == row.firedAt && u.p.rows[id].value == row.value &&
            (row.resolvedAt > 0 ==> u.p.rows[id] == row))
  {
    hide Runs, Can, Next, Recorded;
    AllClearsNameTheirFiring(steps, w);
    StepKeepsRows(w, step, id);
  }

  /** Main result. In every run an all-clear tells of a firing told before: the same pair and id, when it
      fired and at which figure. While no peak fails to be stored, every open row of a firing the engine
      holds shows that firing's time, figure and peak. */
  lemma {:induction false} AllClearsNameTheirFiring(steps: seq<Step>, w: World)
    requires Runs(INIT, steps, w)
    ensures Recorded(w)
    ensures (forall step :: step in steps ==> PeakIsStored(step)) ==> ShowsPeaks(w)
  {
    hide Can, Next, Recorded, ShowsPeaks;
    if steps == [] {
      InitIsRecorded();
    } else {
      var earlier, last := steps[..|steps| - 1], steps[|steps| - 1];
      var v :| Runs(INIT, earlier, v) && Goes(v, last, w);
      AllClearsNameTheirFiring(earlier, v);
      StepKeepsRecorded(v, last);
      if forall step :: step in steps ==> PeakIsStored(step) {
        StepKeepsPeaksShown(v, last);
      }
    }
  }

  lemma InitIsRecorded()
    ensures Recorded(INIT) && ShowsPeaks(INIT)
  {
  }

  // ---- in every run a stretch that is due fires -------------------------------------------

  /** The step does not make the engine forget the pair. */
  predicate KeepsPair(step: Step, k: Key) {
    step != Restart && !(step.Forget? && step.rule == k.rule) && !(step.Orphan? && step.k == k)
  }

  /** While every sweep since a found the figure beyond its threshold, the pair is firing, or its time counts
      from sweep a or before. */
  ghost predicate CountsFrom(w: World, k: Key, a: int) {
    var n := Upto(w, k);
    a <= n &&
    (n > a && BeyondThrough(w.h, k, a, n - 1) ==>
      k in w.p.states && (w.p.states[k].eventID != 0 || SinceBy(w.h, w.p.states[k], a)))
  }

  ghost predicate SinceBy(h: History, st: St, a: int) {
    st.since.Some? && exists b :: 0 <= b <= a && b < |h.times| && h.times[b] == st.since.value
  }

  /** What a pair's state was counting from before its next visit, if anything. */
  lemma SinceWasBefore(w: World, k: Key)
    requires Timed(w) && k in w.p.states && w.p.states[k].since.Some? && Upto(w, k) >= 0
    ensures SinceBy(w.h, w.p.states[k], Upto(w, k))
  {
    var b :| Stretch(w.h, k, b, Upto(w, k), w.p.states[k].since.value);
    hide AllHeldBefore, Remembers, Spaced;
  }

  lemma VisitCountsFrom(w: World, k: Key, r: Rule, v: real, f: Faults, a: int)
    requires Timed(w) && Recorded(w) && CountsFrom(w, k, a) && Can(w, Visiting(k, Figure(r, v, f))) && a >= 0
    ensures CountsFrom(Observe(w, k, r, v, f), k, a)
  {
    var u := Observe(w, k, r, v, f);
    var n, st := |w.h.times| - 1, StateOf(w.p, k);
    StepOnPair(w.p, r, k, st, v, w.h.times[n], f);
    if BeyondThrough(u.h, k, a, n) {
      assert u.h.seen[(k, n)] == Seen(r, v);
      forall i | a <= i < n ensures (k, i) in w.h.seen && w.h.seen[(k, i)] == u.h.seen[(k, i)] {
        assert (k, i) != (k, n);
      }
      if st.since.Some? && n == a { SinceWasBefore(w, k); }
      hide Timed, Recorded;
      KeepsCounting(w.p, r, k, st, v, w.h.times[n], f);
      hide AlertStep;
      if u.p.states[k].eventID == 0 {
        if st.since.Some? {
          var b :| 0 <= b <= a && b < |w.h.times| && w.h.times[b] == st.since.value;
          assert u.h.times[b] == u.p.states[k].since.value;
        } else {
          assert a <= n && u.h.times[n] == u.p.states[k].since.value;
        }
      }
    }
  }

  lemma KeepsCounting(p: Panel, r: Rule, k: Key, st: St, v: real, at: int, f: Faults)
    requires if r.above then v > r.threshold else v < r.threshold
    ensures var after := AlertStep(p, r, k, st, v, at, f).0.states[k];
      k in AlertStep(p, r, k, st, v, at, f).0.states &&
      (st.eventID != 0 ==> after.eventID == st.eventID) &&
      (st.eventID == 0 ==> after.since == if st.since.Some? then st.since else Some(at))
  {
  }

  /** A visit without a figure, or the end of a sweep that had none, breaks the stretch. */
  lemma UnreadBreaksIt(w: World, u: World, k: Key, a: int)
    requires ReadOnce(w) && |w.h.times| > 0 && w.sweep.Some? && k !in w.sweep.value && u.h == w.h
    requires Upto(u, k) == |w.h.times| && 0 <= a <= Upto(w, k)
    ensures CountsFrom(u, k, a)
  {
    assert (k, |w.h.times| - 1) !in w.h.seen;
  }

  /** A step that leaves the pair's state and its last visit where they were. */
  lemma SameCountsFrom(w: World, u: World, k: Key, a: int)
    requires CountsFrom(w, k, a) && a >= 0 && Upto(u, k) == Upto(w, k) && Upto(w, k) <= |w.h.times|
    requires w.h.times <= u.h.times
    requires forall i :: i < Upto(w, k) && (k, i) in u.h.seen ==>
      ((k, i) in w.h.seen && w.h.seen[(k, i)] == u.h.seen[(k, i)])
    requires k in w.p.states ==> k in u.p.states && u.p.states[k] == w.p.states[k]
    ensures CountsFrom(u, k, a)
  {
    var n := Upto(w, k);
    if n > a && BeyondThrough(u.h, k, a, n - 1) {
      assert BeyondThrough(w.h, k, a, n - 1);
      if w.p.states[k].eventID == 0 {
        var b :| 0 <= b <= a && b < |w.h.times| && w.h.times[b] == w.p.states[k].since.value;
        assert u.h.times[b] == w.h.times[b];
      }
    }
  }

  lemma VisitElsewhere(w: World, j: Key, visit: Visit, k: Key, a: int)
    requires Timed(w) && CountsFrom(w, k, a) && a >= 0 && Can(w, Visiting(j, visit)) && j != k
    ensures CountsFrom(Visited(w, j, visit), k, a)
  {
    var u := Visited(w, j, visit);
    if visit.Figure? {
      StepOnPair(w.p, visit.r, j, StateOf(w.p, j), visit.v, w.h.times[|w.h.times| - 1], visit.f);
    }
    hide AlertStep, CountsFrom;
    SameCountsFrom(w, u, k, a);
  }

  lemma StepCountsFrom(w: World, step: Step, k: Key, a: int)
    requires Timed(w) && Recorded(w) && CountsFrom(w, k, a) && a >= 0 && Can(w, step) && KeepsPair(step, k)
    ensures CountsFrom(Next(w, step), k, a)
  {
    var u := Next(w, step);
    match step
    case Visiting(j, visit) =>
      if j != k {
        VisitElsewhere(w, j, visit, k, a);
      } else if visit.Figure? {
        VisitCountsFrom(w, k, visit.r, visit.v, visit.f, a);
      } else {
        UnreadBreaksIt(w, u, k, a);
      }
    case End =>
      if k in w.sweep.value { SameCountsFrom(w, u, k, a); } else { UnreadBreaksIt(w, u, k, a); }
    case Begin(at, restore) =>
      if w.p.restored {
        SameCountsFrom(w, u, k, a);
      } else {
        assert w.p.states == map[] && Upto(u, k) == Upto(w, k);
        hide Recorded;
      }
    case _ => SameCountsFrom(w, u, k, a);
  }

  /** Over a run that keeps the pair, from its next visit on. */
  lemma {:induction false} RunCountsFrom(before: seq<Step>, v: World, steps: seq<Step>, w: World, k: Key)
    requires Runs(INIT, before, v) && Runs(v, steps, w) && forall step :: step in steps ==> KeepsPair(step, k)
    ensures Runs(INIT, before + steps, w) && Upto(v, k) >= 0 && CountsFrom(w, k, Upto(v, k))
  {
    hide Can, Next, CountsFrom, Upto, Recorded, Timed;
    RunIsTimed(before, v);
    if steps == [] {
      assert before + steps == before;
      StartsCounting(before, v, k);
    } else {
      var earlier, last := steps[..|steps| - 1], steps[|steps| - 1];
      var u :| Runs(v, earlier, u) && Goes(u, last, w);
      RunCountsFrom(before, v, earlier, u, k);
      RunIsTimed(before + earlier, u);
      AllClearsNameTheirFiring(before + earlier, u);
      StepCountsFrom(u, last, k, Upto(v, k));
      assert (before + steps)[..|before + steps| - 1] == before + earlier;
    }
  }

  lemma {:induction false} StartsCounting(before: seq<Step>, v: World, k: Key)
    requires Runs(INIT, before, v)
    ensures Upto(v, k) >= 0 && CountsFrom(v, k, Upto(v, k)) && (v.sweep.Some? ==> |v.h.times| > 0)
  {
    if before != [] {
      var earlier, last := before[..|before| - 1], before[|before| - 1];
      var u :| Runs(INIT, earlier, u) && Goes(u, last, v);
      StartsCounting(earlier, u, k);
    }
  }

  /** Main result. In every run, while the engine keeps the pair: if every sweep from its next visit on has
      read a figure strictly beyond the threshold of the rule it was read under, in that rule's direction,
      for as long as the rule now asks, the pair is firing after the visit, unless it cleared less than the
      cooldown ago or that row cannot be stored; whatever else was visited, edited, closed, dropped or failed
      meanwhile. */
  lemma DueStretchFires(before: seq<Step>, v: World, steps: seq<Step>, w: World, k: Key, r: Rule, figure: real,
                        f: Faults)
    requires Runs(INIT, before, v) && Runs(v, steps, w) && forall step :: step in steps ==> KeepsPair(step, k)
    requires Can(w, Visiting(k, Figure(r, figure, f))) && !f.add
    requires forall i, j :: 0 <= i < j < |w.h.times| ==> w.h.times[i] <= w.h.times[j]
    requires var a, n := Upto(v, k), |w.h.times| - 1;
      0 <= a <= n && w.h.times[n] - w.h.times[a] >= r.forSecs &&
      BeyondThrough(Observe(w, k, r, figure, f).h, k, a, n)
    requires var cleared := StateOf(w.p, k).lastResolved;
      cleared.Some? ==> w.h.times[|w.h.times| - 1] - cleared.value >= COOLDOWN
    ensures var u := Next(w, Visiting(k, Figure(r, figure, f)));
      k in u.p.states && u.p.states[k].eventID != 0
  {
    RunCountsFrom(before, v, steps, w, k);
    RunIsTimed(before + steps, w);
    AllClearsNameTheirFiring(before + steps, w);
    DueVisitFires(w, k, r, figure, f, Upto(v, k));
    hide Timed, Recorded, CountsFrom, Observe, BeyondThrough;
  }

  lemma DueVisitFires(w: World, k: Key, r: Rule, v: real, f: Faults, a: int)
    requires Timed(w) && Recorded(w) && CountsFrom(w, k, a) && Can(w, Visiting(k, Figure(r, v, f))) && a >= 0
    requires forall i, j :: 0 <= i < j < |w.h.times| ==> w.h.times[i] <= w.h.times[j]
    requires var u, n := Observe(w, k, r, v, f), |w.h.times| - 1;
      a <= n && BeyondThrough(u.h, k, a, n) && w.h.times[n] - w.h.times[a] >= r.forSecs && !f.add
    requires var cleared := StateOf(w.p, k).lastResolved;
      cleared.Some? ==> w.h.times[|w.h.times| - 1] - cleared.value >= COOLDOWN
    ensures var u := Observe(w, k, r, v, f); k in u.p.states && u.p.states[k].eventID != 0
  {
    var u, n, st := Observe(w, k, r, v, f), |w.h.times| - 1, StateOf(w.p, k);
    StepOnPair(w.p, r, k, st, v, w.h.times[n], f);
    assert u.h.seen[(k, n)] == Seen(r, v);
    forall i | a <= i < n ensures (k, i) in w.h.seen && w.h.seen[(k, i)] == u.h.seen[(k, i)] {
      assert (k, i) != (k, n);
    }
    if st.since.Some? && n == a { SinceWasBefore(w, k); }
    hide Timed;
    if st.eventID == 0 && st.since.Some? {
      var b :| 0 <= b <= a && b < |w.h.times| && w.h.times[b] == st.since.value;
    }
    OverdueFires(w.p, r, k, st, v, w.h.times[n], f, w.h.times[a]);
  }

  lemma OverdueFires(p: Panel, r: Rule, k: Key, st: St, v: real, at: int, f: Faults, from: int)
    requires (if r.above then v > r.threshold else v < r.threshold) && !f.add && p.nextId > 0
    requires st.since.Some? && st.eventID == 0 ==> st.since.value <= from
    requires st.since.None? && st.eventID == 0 ==> from == at
    requires at - from >= r.forSecs && (st.lastResolved.Some? ==> at - st.lastResolved.value >= COOLDOWN)
    ensures var q := AlertStep(p, r, k, st, v, at, f).0; k in q.states && q.states[k].eventID != 0
  {
  }
}
