/** The engine of internal/core/manager_alerts.go as it runs: the sweep's loops over rules, servers
    and left-over pairs. Each call is shown to be a run of the transition system of AlertRules, so
    what holds of every run holds of the engine. */
module AlertEngine {
  import opened Common
  import opened AlertRules
  import AlertAgreement

  /** AlertEveryServer */
  const EVERY := -1

  /** One server's figures by metric; a metric it does not report is absent. */
  type Sample = map<string, real>

  predicate Watches(r: Rule, node: int) {
    r.node == EVERY || r.node == node
  }

  /** The notices among what a run leaves behind. */
  function Tells(log: seq<Event>): seq<Notice> {
    if log == [] then []
    else
      var e := log[|log| - 1];
      Tells(log[..|log| - 1]) + if e.Told? then [e.n] else []
  }

  /** How a sweep must visit a pair, if at all. */
  predicate Due(r: Rule, node: int, visit: Visit, samples: map<int, Sample>, known: set<int>) {
    r.enabled && (r.node == EVERY || r.node == node) &&
    if node in samples then
      if r.metric in samples[node] then visit.Figure? && visit.r == r && visit.v == samples[node][r.metric]
      else visit.NoFigure?
    else node in known && visit.Silent?
  }

  ghost predicate VisitsOnly(steps: seq<Step>, rules: seq<Rule>, samples: map<int, Sample>, known: set<int>) {
    forall i :: 0 <= i < |steps| && steps[i].Visiting? ==> IsDue(steps[i].k, steps[i].visit, rules, samples, known)
  }

  predicate IsDue(k: Key, visit: Visit, rules: seq<Rule>, samples: map<int, Sample>, known: set<int>) {
    exists r :: r in rules && r.id == k.rule && Due(r, k.node, visit, samples, known)
  }

  /** From one trail to a longer one there are only visits. */
  ghost predicate VisitsMoreOf(trail0: seq<Step>, trail: seq<Step>) {
    trail0 <= trail && forall i :: |trail0| <= i < |trail| ==> trail[i].Visiting?
  }

  /** Or only orphans dropped, whose closing fails exactly for some of the pairs. */
  ghost predicate DropsOrphans(trail0: seq<Step>, trail: seq<Step>, failing: set<Key>) {
    trail0 <= trail &&
    forall i :: |trail0| <= i < |trail| ==> trail[i].Orphan? && trail[i].fails == (trail[i].k in failing)
  }

  /** The steps of one sweep, in which the closing of an orphan fails exactly for some of the pairs. */
  ghost predicate OfASweep(steps: seq<Step>, failing: set<Key>) {
    forall i :: 0 <= i < |steps| ==> SweepStep(steps[i], failing)
  }

  predicate SweepStep(step: Step, failing: set<Key>) {
    step.Begin? || step.Visiting? || step.End? || (step.Orphan? && step.fails == (step.k in failing))
  }

  /** A sweep in which no closing fails keeps store and engine in agreement. */
  lemma {:induction false} SweepKeepsAgreement(w0: World, steps: seq<Step>, w: World)
    requires Runs(w0, steps, w) && OfASweep(steps, {}) && AlertAgreement.Inv(w0)
    ensures AlertAgreement.Inv(w)
  {
    hide AlertAgreement.Inv, Next, Can;
    if steps != [] {
      var earlier, last := steps[..|steps| - 1], steps[|steps| - 1];
      var v :| Runs(w0, earlier, v) && Goes(v, last, w);
      assert SweepStep(last, {});
      SweepKeepsAgreement(w0, earlier, v);
      AlertAgreement.StepKeepsInv(v, last);
    }
  }

  /** And so does an edit no sweep comes into, whose closing succeeds. */
  lemma EditKeepsAgreement(w: World, rule: int, at: int)
    requires AlertAgreement.Inv(w) && w.sweep.None? && Can(w, CloseRule(rule, at, false))
    ensures Can(Next(w, CloseRule(rule, at, false)), Forget(rule))
    ensures AlertAgreement.Inv(Next(Next(w, CloseRule(rule, at, false)), Forget(rule)))
  {
    AlertAgreement.StepKeepsInv(w, CloseRule(rule, at, false));
    AlertAgreement.UndisturbedEditIsClean(w, rule, at);
    AlertAgreement.StepKeepsInv(Next(w, CloseRule(rule, at, false)), Forget(rule));
    hide AlertAgreement.Inv;
  }

  /** Every pair of an enabled rule and a reporting server it watches is visited. */
  ghost predicate VisitsAll(visited: set<Key>, rules: seq<Rule>, samples: map<int, Sample>) {
    forall r, node :: r in rules && r.enabled && node in samples && Watches(r, node) ==> Key(r.id, node) in visited
  }

  lemma VisitsOnlyMore(trail: seq<Step>, rules: seq<Rule>, samples: map<int, Sample>, known: set<int>, r: Rule,
                       node: int, visit: Visit)
    requires VisitsOnly(trail, rules, samples, known) && r in rules && Due(r, node, visit, samples, known)
    ensures VisitsOnly(trail + [Visiting(Key(r.id, node), visit)], rules, samples, known)
  {
    hide Due;
    assert IsDue(Key(r.id, node), visit, rules, samples, known);
    hide IsDue;
  }

  lemma DueOnItsOwn(r: Rule, node: int, visit: Visit, samples: map<int, Sample>, known: set<int>)
    requires node in samples && Due(r, node, visit, map[node := samples[node]], {})
    ensures Due(r, node, visit, samples, known)
  {
  }

  predicate DistinctIds(rules: seq<Rule>) {
    forall i, j :: 0 <= i < j < |rules| ==> rules[i].id != rules[j].id
  }

  lemma RunOn(w: World, steps: seq<Step>, v: World, step: Step, u: World)
    requires Runs(w, steps, v) && Goes(v, step, u)
    ensures Runs(w, steps + [step], u)
  {
    assert (steps + [step])[..|steps|] == steps;
  }

  lemma TellsOne(log: seq<Event>, e: Event)
    ensures Tells(log + [e]) == Tells(log) + if e.Told? then [e.n] else []
  {
    assert (log + [e])[..|log|] == log;
  }

  /** A sweep underway: a run from w0, the pairs it has found live, and the notices it owes so far. */
  ghost predicate Sweeping(w0: World, trail: seq<Step>, w: World, live: set<Key>, ns: seq<Notice>) {
    && Runs(w0, trail, w) && w.sweep == Some(live) && w.p.restored && |w.h.times| > 0
    && w.closing == w0.closing && Tells(w.h.log) == Tells(w0.h.log) + ns
    && (forall k :: k in live <==> Visits(trail, k))
  }

  predicate Visits(trail: seq<Step>, k: Key) {
    exists i :: 0 <= i < |trail| && trail[i].Visiting? && trail[i].k == k
  }

  lemma VisitsMore(trail: seq<Step>, step: Step, k: Key)
    ensures Visits(trail + [step], k) <==> Visits(trail, k) || (step.Visiting? && step.k == k)
  {
    var longer := trail + [step];
    assert forall i :: 0 <= i < |trail| ==> longer[i] == trail[i];
    assert longer[|trail|] == step;
  }

  function Listed(n: Option<Notice>): seq<Notice> {
    if n.None? then [] else [n.value]
  }

  lemma SweepOn(w0: World, trail: seq<Step>, v: World, live: set<Key>, ns: seq<Notice>, k: Key,
                visit: Visit, w: World, n: Option<Notice>)
    requires Sweeping(w0, trail, v, live, ns) && Goes(v, Visiting(k, visit), w)
    requires Tells(w.h.log) == Tells(v.h.log) + Listed(n)
    ensures Sweeping(w0, trail + [Visiting(k, visit)], w, live + {k}, ns + Listed(n)) && w.h.times == v.h.times
  {
    hide Runs, Tells, Goes, Visits;
    VisitMoves(v, k, visit, w);
    RunOn(w0, trail, v, Visiting(k, visit), w);
    assert Tells(w0.h.log) + ns + Listed(n) == Tells(w0.h.log) + (ns + Listed(n));
    forall j ensures j in live + {k} <==> Visits(trail + [Visiting(k, visit)], j) {
      VisitsMore(trail, Visiting(k, visit), j);
    }
  }

  lemma VisitMoves(v: World, k: Key, visit: Visit, w: World)
    requires Goes(v, Visiting(k, visit), w)
    ensures v.sweep.Some? && w.sweep == Some(v.sweep.value + {k}) && w.closing == v.closing
    ensures w.h.times == v.h.times && w.p.restored == v.p.restored
  {
    if visit.Figure? {
      StepOnPair(v.p, visit.r, k, StateOf(v.p, k), visit.v, v.h.times[|v.h.times| - 1], visit.f);
    }
    hide AlertStep;
  }

  class AlertEngine {
    var rows: map<int, Row>
    var nextId: int
    var states: map<Key, St>
    var restored: bool
    ghost var w: World

    ghost predicate Valid()
      reads this
    {
      w.p == Panel(rows, nextId, states, restored)
    }

    /** A panel started for the first time, its store still empty. */
    constructor ()
      ensures Valid() && w == INIT && AlertAgreement.Inv(w)
    {
      rows, nextId, states, restored := map[], 1, map[], false;
      w := INIT;
      AlertAgreement.InitInv();
    }

    /** alertStep, on a pair whose state the sweep has just looked up or made. */
    method StepPair(r: Rule, k: Key, v: real, at: int, f: Faults) returns (n: Option<Notice>)
      requires k in states
      modifies this`rows, this`nextId, this`states
      ensures (Panel(rows, nextId, states, restored), n) ==
        AlertStep(old(Panel(rows, nextId, states, restored)), r, k, old(states[k]), v, at, f)
    {
      n := None;
      ghost var was := states;
      var st := states[k];
      if !Holds(r, v) {
        st := st.(since := None);
        states := states[k := st];
        if st.eventID != 0 && !f.close {
          n := Some(Cleared(k, st.eventID, at, st.firedAt, st.value, st.peak));
          rows := CloseRow(rows, st.eventID, at);
          states := states[k := st.(eventID := 0, lastResolved := Some(at))];
        }
      } else if st.eventID != 0 {
        if Worse(r.above, v, st.peak) {
          states := states[k := st.(peak := v)];
          if !f.peak {
            rows := SetPeak(rows, st.eventID, v);
          }
        }
      } else {
        if st.since.None? {
          st := st.(since := Some(at));
          states := states[k := st];
        }
        if at - st.since.value >= r.forSecs && !Cooling(st, at) && !f.add {
          var id := nextId;
          rows, nextId := rows[id := Row(k, at, v, v, 0)], nextId + 1;
          states := states[k := st.(eventID := id, firedAt := at, value := v, peak := v)];
          n := Some(Fired(k, id, at, v));
        }
      }
      assert states == was[k := states[k]];
    }

    /** With no edit underway, what the engine holds is what is open in the store. */
    lemma HoldsWhatIsOpen(k: Key, id: int)
      requires Valid() && AlertAgreement.Inv(w) && restored && w.closing == {}
      ensures Open(rows, id) && rows[id].key == k <==> k in states && states[k].eventID == id && id != 0
    {
      hide AlertAgreement.NeverTwiceOpen, AlertAgreement.ClearsTheLast, AlertAgreement.Latest, AlertAgreement.ToldIds;
      assert AlertAgreement.Holding(w, k, id) <==> k in states && states[k].eventID == id && id != 0;
    }

    /** One server under one rule: its state is made if need be, and stepped if the figure is known. */
    method VisitSample(r: Rule, node: int, sample: Sample, at: int, faults: map<Key, Faults>)
      returns (n: Option<Notice>, ghost visit: Visit)
      requires Valid() && r.enabled && Watches(r, node) && w.sweep.Some? && Key(r.id, node) !in w.sweep.value
      requires |w.h.times| > 0 && at == w.h.times[|w.h.times| - 1]
      modifies this
      ensures Valid() && Goes(old(w), Visiting(Key(r.id, node), visit), w)
      ensures Due(r, node, visit, map[node := sample], {})
      ensures Tells(w.h.log) == Tells(old(w).h.log) + Listed(n)
    {
      hide AlertStep, Tells;
      var k := Key(r.id, node);
      n := None;
      ghost var before := w;
      if k !in states {
        states := states[k := FRESH];
      }
      if r.metric !in sample {
        visit := NoFigure;
        states := states[k := states[k].(since := None)];
        w := Visited(w, k, visit);
      } else {
        var f := if k in faults then faults[k] else Faults(false, false, false);
        visit := Figure(r, sample[r.metric], f);
        StepSeesTheSame(w.p, Panel(rows, nextId, states, restored), r, k, sample[r.metric], at, f);
        n := StepPair(r, k, sample[r.metric], at, f);
        w := Observe(w, k, r, sample[r.metric], f);
        ObserveTells(before, k, r, sample[r.metric], f);
      }
    }

    /** One enabled rule over the servers that report. */
    method VisitReporting(r: Rule, samples: map<int, Sample>, ghost known: set<int>, at: int, faults: map<Key, Faults>,
                          ghost rules: seq<Rule>, live0: set<Key>, ghost w0: World, ghost trail0: seq<Step>,
                          ns0: seq<Notice>)
      returns (live: set<Key>, ghost trail: seq<Step>, ns: seq<Notice>)
      requires Valid() && r.enabled && Sweeping(w0, trail0, w, live0, ns0) && at == w.h.times[|w.h.times| - 1]
      requires forall k :: k in live0 ==> k.rule != r.id
      requires r in rules && VisitsOnly(trail0, rules, samples, known)
      modifies this
      ensures Valid() && Sweeping(w0, trail, w, live, ns) && w.h.times == old(w).h.times
      ensures live0 <= live && forall k :: k in live ==> k in live0 || (k.rule == r.id && k.node in samples)
      ensures VisitsOnly(trail, rules, samples, known) && VisitsAll(live, [r], samples)
      ensures VisitsMoreOf(trail0, trail)
    {
      hide Runs, Tells, Visits, VisitsOnly, Due;
      live, trail, ns := live0, trail0, ns0;
      var todo := samples.Keys;
      while todo != {}
        invariant todo <= samples.Keys
        invariant Valid() && Sweeping(w0, trail, w, live, ns) && w.h.times == old(w).h.times
        invariant live0 <= live && VisitsMoreOf(trail0, trail) && VisitsOnly(trail, rules, samples, known)
        invariant forall k :: k in live ==> k in live0 || (k.rule == r.id && k.node in samples && k.node !in todo)
        invariant forall node :: node in samples.Keys - todo && Watches(r, node) ==> Key(r.id, node) in live
        decreases |todo|
      {
        ghost var some := Witness(todo);
        var node :| node in todo;
        todo := todo - {node};
        if !Watches(r, node) {
          continue;
        }
        ghost var before := w;
        var n, visit := VisitSample(r, node, samples[node], at, faults);
        SweepOn(w0, trail, before, live, ns, Key(r.id, node), visit, w, n);
        DueOnItsOwn(r, node, visit, samples, known);
        VisitsOnlyMore(trail, rules, samples, known, r, node, visit);
        trail := trail + [Visiting(Key(r.id, node), visit)];
        live := live + {Key(r.id, node)};
        if n.Some? {
          ns := ns + [n.value];
        }
      }
    }

    /** One enabled rule over the servers that are silent: a pair that is known forgets since when. */
    method VisitSilent(r: Rule, ghost samples: map<int, Sample>, known: set<int>, reporting: set<int>,
                       ghost rules: seq<Rule>, live0: set<Key>, ghost w0: World, ghost trail0: seq<Step>,
                       ghost ns: seq<Notice>)
      returns (live: set<Key>, ghost trail: seq<Step>)
      requires Valid() && r.enabled && Sweeping(w0, trail0, w, live0, ns) && reporting == samples.Keys
      requires forall k :: k in live0 && k.rule == r.id ==> k.node in samples
      requires r in rules && VisitsOnly(trail0, rules, samples, known)
      modifies this
      ensures Valid() && Sweeping(w0, trail, w, live, ns) && w.h.times == old(w).h.times
      ensures live0 <= live && forall k :: k in live ==> k in live0 || k.rule == r.id
      ensures VisitsOnly(trail, rules, samples, known)
      ensures VisitsMoreOf(trail0, trail)
    {
      hide Runs, Tells, Visits, VisitsOnly;
      live, trail := live0, trail0;
      var todo := known;
      while todo != {}
        invariant todo <= known
        invariant Valid() && Sweeping(w0, trail, w, live, ns) && w.h.times == old(w).h.times
        invariant live0 <= live && VisitsMoreOf(trail0, trail) && VisitsOnly(trail, rules, samples, known)
        invariant forall k :: k in live ==> k in live0 || (k.rule == r.id && k.node !in samples && k.node !in todo)
        decreases |todo|
      {
        ghost var some := Witness(todo);
        var node :| node in todo;
        todo := todo - {node};
        if !Watches(r, node) || node in reporting {
          continue;
        }
        var k := Key(r.id, node);
        if k in states {
          ghost var before := w;
          states := states[k := states[k].(since := None)];
          w := Visited(w, k, Silent);
          SweepOn(w0, trail, before, live, ns, k, Silent, w, None);
          VisitsOnlyMore(trail, rules, samples, known, r, node, Silent);
          trail := trail + [Visiting(k, Silent)];
          live := live + {k};
        }
      }
    }

    /** One enabled rule over the servers that report, then over those that are silent. */
    method VisitRule(r: Rule, samples: map<int, Sample>, known: set<int>, at: int, faults: map<Key, Faults>,
                     ghost rules: seq<Rule>, live0: set<Key>, ghost w0: World, ghost trail0: seq<Step>,
                     ns0: seq<Notice>)
      returns (live: set<Key>, ghost trail: seq<Step>, ns: seq<Notice>)
      requires Valid() && r.enabled && Sweeping(w0, trail0, w, live0, ns0) && at == w.h.times[|w.h.times| - 1]
      requires forall k :: k in live0 ==> k.rule != r.id
      requires r in rules && VisitsOnly(trail0, rules, samples, known)
      requires trail0 != []
      modifies this
      ensures Valid() && Sweeping(w0, trail, w, live, ns) && w.h.times == old(w).h.times
      ensures live0 <= live && forall k :: k in live ==> k in live0 || k.rule == r.id
      ensures VisitsOnly(trail, rules, samples, known) && VisitsAll(live, [r], samples)
      ensures VisitsMoreOf(trail0, trail)
    {
      hide Runs, Tells, Visits, VisitsOnly;
      live, trail, ns := VisitReporting(r, samples, known, at, faults, rules, live0, w0, trail0, ns0);
      live, trail := VisitSilent(r, samples, known, samples.Keys, rules, live, w0, trail, ns);
    }

    /** Whatever the sweep did not find live was a rule switched off or removed, or a server taken
        away: its firing is closed without a word. */
    method CloseOrphans(live: set<Key>, at: int, failing: set<Key>, ghost w0: World, ghost trail0: seq<Step>,
                        ns: seq<Notice>)
      returns (ghost trail: seq<Step>)
      requires Valid() && Sweeping(w0, trail0, w, live, ns) && at == w.h.times[|w.h.times| - 1]
      modifies this
      ensures Valid() && Sweeping(w0, trail, w, live, ns) && w.h.times == old(w).h.times
      ensures states.Keys == old(states).Keys * live
      ensures DropsOrphans(trail0, trail, failing)
    {
      hide Runs, Tells, Visits;
      trail := trail0;
      var todo := states.Keys;
      while todo != {}
        invariant Valid() && Sweeping(w0, trail, w, live, ns) && w.h.times == old(w).h.times
        invariant todo <= states.Keys <= old(states).Keys
        invariant forall k :: k in old(states) && k !in todo ==> (k in states <==> k in live)
        invariant forall k :: k in todo ==> k in states
        invariant DropsOrphans(trail0, trail, failing)
        decreases |todo|
      {
        ghost var some := Witness(todo);
        var k :| k in todo;
        todo := todo - {k};
        if k in live {
          continue;
        }
        ghost var before := w;
        var id := states[k].eventID;
        if id != 0 && k !in failing {
          rows := CloseRow(rows, id, at);
        }
        states := states - {k};
        w := Orphaned(w, k, k in failing);
        RunOn(w0, trail, before, Orphan(k, k in failing), w);
        TellsOne(before.h.log, Dropped(k));
        forall j ensures Visits(trail + [Orphan(k, k in failing)], j) <==> Visits(trail, j) {
          VisitsMore(trail, Orphan(k, k in failing), j);
        }
        trail := trail + [Orphan(k, k in failing)];
      }
    }

    /** The open rows read back into an engine that has no states yet. */
    method ReadOpen() returns (back: map<Key, St>)
      ensures IsRestored(rows, back)
    {
      back := map[];
      var todo := rows.Keys;
      while todo != {}
        invariant todo <= rows.Keys
        invariant forall id :: Open(rows, id) && id !in todo ==> rows[id].key in back
        invariant forall k :: k in back ==> RestoredFrom(rows, k, back[k])
        decreases |todo|
      {
        ghost var some := Witness(todo);
        var id :| id in todo;
        todo := todo - {id};
        var row := rows[id];
        if row.resolvedAt == 0 {
          back := back[row.key := St(None, id, row.firedAt, row.value, row.peak, None)];
        }
      }
    }

    /** evalAlertRules: one sweep. It is a run that visits exactly the pairs of the enabled rules and
        the servers they watch, each with the figure the server reported, drops every other pair, and
        owes exactly the notices the run tells. A sweep that cannot read the store back does nothing. */
    method Eval(rules: seq<Rule>, samples: map<int, Sample>, known: set<int>, at: int, readFails: bool,
                faults: map<Key, Faults>, failing: set<Key>)
      returns (ns: seq<Notice>, ghost steps: seq<Step>)
      requires Valid() && w.sweep.None? && at > 0 && DistinctIds(rules)
      modifies this
      ensures Valid() && w.sweep.None? && Runs(old(w), steps, w)
      ensures Tells(w.h.log) == Tells(old(w).h.log) + ns
      ensures !old(restored) && readFails ==> steps == [] && w == old(w)
      ensures old(restored) || !readFails ==>
        VisitsOnly(steps, rules, samples, known) && VisitsEvery(steps, rules, samples) &&
        steps != [] && steps[0].Begin? && steps[0].at == at &&
        forall k :: k in states ==> Visits(steps, k)
      ensures OfASweep(steps, failing)
      ensures failing == {} && AlertAgreement.Inv(old(w)) ==> AlertAgreement.Inv(w)
    {
      ns, steps := [], [];
      if !restored && readFails {
        return;
      }
      hide Runs, Tells, Visits, AlertAgreement.Inv;
      if !restored {
        states := ReadOpen();
        restored := true;
      }
      ghost var w0 := w;
      ghost var begin := Begin(at, states);
      w := Next(w, begin);
      FirstStep(w0, begin, w);
      ghost var visits;
      var live;
      live, visits, ns := VisitRules(rules, samples, known, at, faults, w0, [begin]);
      steps := CloseOrphans(live, at, failing, w0, visits, ns);
      SweepEnds(w0, visits, steps, w, live, ns, rules, samples, known, failing);
      w := Next(w, End);
      steps := steps + [End];
      if failing == {} && AlertAgreement.Inv(w0) {
        SweepKeepsAgreement(w0, steps, w);
      }
    }

    /** The sweep's visits, rule by rule. */
    method VisitRules(rules: seq<Rule>, samples: map<int, Sample>, known: set<int>, at: int, faults: map<Key, Faults>,
                      ghost w0: World, ghost trail0: seq<Step>)
      returns (live: set<Key>, ghost trail: seq<Step>, ns: seq<Notice>)
      requires Valid() && Sweeping(w0, trail0, w, {}, []) && w.h.times[|w.h.times| - 1] == at && DistinctIds(rules)
      requires trail0 != [] && VisitsOnly(trail0, rules, samples, known)
      modifies this
      ensures Valid() && Sweeping(w0, trail, w, live, ns) && w.h.times[|w.h.times| - 1] == at
      ensures VisitsMoreOf(trail0, trail) && VisitsOnly(trail, rules, samples, known)
      ensures VisitsAll(live, rules, samples)
    {
      hide Runs, Tells, Visits, VisitsOnly;
      live, trail, ns := {}, trail0, [];
      for i := 0 to |rules|
        invariant Valid() && Sweeping(w0, trail, w, live, ns) && w.h.times[|w.h.times| - 1] == at
        invariant VisitsMoreOf(trail0, trail) && VisitsOnly(trail, rules, samples, known)
        invariant VisitsAll(live, rules[..i], samples)
        invariant forall k :: k in live ==> exists j :: 0 <= j < i && rules[j].id == k.rule
      {
        var r := rules[i];
        if r.enabled {
          live, trail, ns := VisitRule(r, samples, known, at, faults, rules, live, w0, trail, ns);
        }
        assert rules[..i + 1] == rules[..i] + [r];
      }
      assert rules[..|rules|] == rules;
    }

    method ForgetRule(rule: int)
      requires Valid() && w.sweep.None?
      modifies this
      ensures Valid() && Goes(old(w), Forget(rule), w)
    {
      var todo := states.Keys;
      while todo != {}
        invariant todo <= states.Keys && w == old(w)
        invariant rows == old(rows) && nextId == old(nextId) && restored == old(restored)
        invariant forall k :: k in states <==> k in old(states) && (k in todo || k.rule != rule)
        invariant forall k :: k in states ==> states[k] == old(states)[k]
        decreases |todo|
      {
        ghost var some := Witness(todo);
        var k :| k in todo;
        todo := todo - {k};
        if k.rule == rule {
          states := states - {k};
        }
      }
      assert states == map k | k in old(states) && k.rule != rule :: old(states)[k];
      w := Next(w, Forget(rule));
    }

    /** What SaveAlertRule does to the firings of a rule it replaces; a rename leaves them alone. */
    method SaveRule(was: Rule, edited: Rule, at: int, fails: bool) returns (ghost steps: seq<Step>)
      requires Valid() && w.sweep.None? && at > 0 && edited.id == was.id
      modifies this
      ensures Valid() && Runs(old(w), steps, w)
      ensures steps == [] || steps == [CloseRule(was.id, at, fails), Forget(was.id)]
      ensures steps == [] <==>
        edited.enabled && edited.metric == was.metric && edited.above == was.above &&
        edited.threshold == was.threshold && edited.node == was.node && edited.forSecs == was.forSecs
      ensures !fails && AlertAgreement.Inv(old(w)) ==> AlertAgreement.Inv(w)
    {
      hide AlertAgreement.Inv;
      steps := [];
      if !edited.enabled || !SameCondition(was, edited) {
        steps := EndFirings(was.id, at, fails);
      }
    }

    /** What DeleteAlertRule does to them: the store closes them and removes the rule at once. */
    method DeleteRule(rule: int, at: int) returns (ghost steps: seq<Step>)
      requires Valid() && w.sweep.None? && at > 0
      modifies this
      ensures Valid() && Runs(old(w), steps, w) && steps == [CloseRule(rule, at, false), Forget(rule)]
      ensures AlertAgreement.Inv(old(w)) ==> AlertAgreement.Inv(w)
    {
      hide AlertAgreement.Inv;
      steps := EndFirings(rule, at, false);
    }

    method EndFirings(rule: int, at: int, fails: bool) returns (ghost steps: seq<Step>)
      requires Valid() && w.sweep.None? && at > 0
      modifies this
      ensures Valid() && Runs(old(w), steps, w) && steps == [CloseRule(rule, at, fails), Forget(rule)]
      ensures !fails && AlertAgreement.Inv(old(w)) ==> AlertAgreement.Inv(w)
    {
      hide Runs, AlertAgreement.Inv;
      if !fails && AlertAgreement.Inv(w) {
        EditKeepsAgreement(w, rule, at);
      }
      ghost var w0 := w;
      if !fails {
        rows := CloseRows(rows, rule, at);
      }
      w := Next(w, CloseRule(rule, at, fails));
      RunNone(w0);
      RunOn(w0, [], w0, CloseRule(rule, at, fails), w);
      ghost var closed := w;
      ForgetRule(rule);
      RunOn(w0, [] + [CloseRule(rule, at, fails)], closed, Forget(rule), w);
      steps := [] + [CloseRule(rule, at, fails)] + [Forget(rule)];
    }
  }

  predicate SameCondition(r: Rule, s: Rule) {
    r.metric == s.metric && r.above == s.above && r.threshold == s.threshold && r.node == s.node &&
      r.forSecs == s.forSecs
  }

  lemma RunNone(w: World)
    ensures Runs(w, [], w)
  {
  }

  /** Every pair of an enabled rule and a reporting server it watches is visited. */
  ghost predicate VisitsEvery(steps: seq<Step>, rules: seq<Rule>, samples: map<int, Sample>) {
    forall r, node :: r in rules && r.enabled && node in samples && (r.node == EVERY || r.node == node) ==>
      Visits(steps, Key(r.id, node))
  }

  /** The end of a sweep adds no visit, and closes the run. */
  lemma SweepEnds(w0: World, visits: seq<Step>, trail: seq<Step>, w: World, live: set<Key>, ns: seq<Notice>,
                  rules: seq<Rule>, samples: map<int, Sample>, known: set<int>, failing: set<Key>)
    requires Sweeping(w0, trail, w, live, ns) && DropsOrphans(visits, trail, failing) && w.p.restored
    requires OfASweep(visits, failing)
    requires VisitsOnly(visits, rules, samples, known) && VisitsAll(live, rules, samples)
    requires forall k :: k in w.p.states ==> k in live
    ensures Can(w, End) && Runs(w0, trail + [End], Next(w, End)) && Next(w, End).p == w.p
    ensures Tells(Next(w, End).h.log) == Tells(w0.h.log) + ns
    ensures VisitsOnly(trail + [End], rules, samples, known) && VisitsEvery(trail + [End], rules, samples)
    ensures forall k :: k in w.p.states ==> Visits(trail + [End], k)
    ensures OfASweep(trail + [End], failing)
  {
    hide Runs, Tells, Visits, IsDue;
    RunOn(w0, trail, w, End, Next(w, End));
    forall k ensures Visits(trail + [End], k) <==> k in live {
      VisitsMore(trail, End, k);
    }
    forall i | 0 <= i < |trail + [End]| && (trail + [End])[i].Visiting? ensures (trail + [End])[i] == visits[i] {
      assert i < |visits|;
    }
  }

  lemma FirstStep(w0: World, begin: Step, w: World)
    requires begin.Begin? && Goes(w0, begin, w)
    ensures Sweeping(w0, [begin], w, {}, []) && w.h.times == w0.h.times + [begin.at]
  {
    assert Runs(w0, [], w0);
    RunOn(w0, [], w0, begin, w);
    assert [] + [begin] == [begin];
  }

  /** Making the pair's state first changes nothing. */
  lemma StepSeesTheSame(p: Panel, q: Panel, r: Rule, k: Key, v: real, at: int, f: Faults)
    requires q == p.(states := p.states[k := StateOf(p, k)])
    ensures AlertStep(q, r, k, q.states[k], v, at, f) == AlertStep(p, r, k, StateOf(p, k), v, at, f)
  {
    StepOnPair(p, r, k, StateOf(p, k), v, at, f);
    StepOnPair(q, r, k, q.states[k], v, at, f);
    var a, b := AlertStep(p, r, k, StateOf(p, k), v, at, f).0, AlertStep(q, r, k, q.states[k], v, at, f).0;
    assert a.states[k] == b.states[k];
    assert p.states[k := a.states[k]] == q.states[k := a.states[k]];
  }

  lemma ObserveTells(w: World, k: Key, r: Rule, v: real, f: Faults)
    requires w.sweep.Some? && |w.h.times| > 0
    ensures var told := AlertStep(w.p, r, k, StateOf(w.p, k), v, w.h.times[|w.h.times| - 1], f).1;
      Tells(Observe(w, k, r, v, f).h.log) == Tells(w.h.log) + if told.None? then [] else [told.value]
  {
    hide AlertStep, Tells;
    var u := Observe(w, k, r, v, f);
    if |u.h.log| > |w.h.log| {
      TellsOne(w.h.log, u.h.log[|w.h.log|]);
      assert u.h.log == w.h.log + [u.h.log[|w.h.log|]];
    } else {
      assert u.h.log == w.h.log;
    }
  }
}
