/** The reload loop of internal/core/manager.go: requests to reload arrive through a one-slot
    channel and a "structural" flag, and one goroutine debounces, drains the channel, swaps the
    flag and runs a full reconcile or a live user sync.

    Every atomic action of the loop and of the triggers is one step, so a run of steps is one
    interleaving. The log records when a request was made and when a pass began. */
module ReloadLoop {

  datatype Event = UserSyncAsked | ReconcileAsked | PassBegan(full: bool)

  /** Where the loop is: blocked on its select, waiting out the debounce, draining the channel,
      about to swap the flag, inside a pass, or gone after Close. */
  datatype Pc = Blocked | Debouncing | Draining | Swapping | Working(full: bool) | Stopped

  /** `halfSyncs` and `halfReconciles` count the triggers that have recorded their request but not
      yet tried to send on the channel. */
  datatype State = State(
    token: bool,
    structural: bool,
    pc: Pc,
    halfSyncs: nat,
    halfReconciles: nat,
    log: seq<Event>)

  datatype Step =
    | AskSync | SignalSync
    | AskReconcile | SignalReconcile
    | Receive | DebounceOver | DrainOne | DrainEmpty | Swap | FallBack | PassDone | Stop

  const START := State(false, false, Blocked, 0, 0, [])

  predicate Enabled(s: State, step: Step) {
    match step
    case AskSync => true
    case AskReconcile => true
    case SignalSync => s.halfSyncs > 0
    case SignalReconcile => s.halfReconciles > 0
    case Receive => s.pc == Blocked && s.token
    case DebounceOver => s.pc == Debouncing
    case DrainOne => s.pc == Draining && s.token
    case DrainEmpty => s.pc == Draining && !s.token
    case Swap => s.pc == Swapping
    case FallBack => s.pc == Working(false)
    case PassDone => s.pc.Working?
    case Stop => s.pc == Blocked || s.pc == Debouncing
  }

  function Take(s: State, step: Step): State
    requires Enabled(s, step)
  {
    match step
    case AskSync => s.(halfSyncs := s.halfSyncs + 1, log := s.log + [UserSyncAsked])
    case AskReconcile =>
      s.(structural := true, halfReconciles := s.halfReconciles + 1, log := s.log + [ReconcileAsked])
    // A send on a full one-slot channel takes the default branch: either way the slot is full.
    case SignalSync => s.(token := true, halfSyncs := s.halfSyncs - 1)
    case SignalReconcile => s.(token := true, halfReconciles := s.halfReconciles - 1)
    case Receive => s.(token := false, pc := Debouncing)
    case DebounceOver => s.(pc := Draining)
    case DrainOne => s.(token := false)
    case DrainEmpty => s.(pc := Swapping)
    case Swap => s.(structural := false, pc := Working(s.structural), log := s.log + [PassBegan(s.structural)])
    case FallBack => s.(pc := Working(true), log := s.log + [PassBegan(true)])
    case PassDone => s.(pc := Blocked)
    case Stop => s.(pc := Stopped)
  }

  ghost predicate Moves(s: State, t: State) {
    exists step :: Enabled(s, step) && t == Take(s, step)
  }

  /** A run: any interleaving of any number of triggers with the loop. */
  ghost predicate IsRun(states: seq<State>) {
    && |states| > 0
    && states[0] == START
    && forall i :: 0 <= i < |states| - 1 ==> Moves(states[i], states[i + 1])
  }

  /** Request i of the log was followed by a pass that began after it and is full if it must be. */
  ghost predicate Answered(log: seq<Event>, i: nat)
    requires i < |log|
  {
    match log[i]
    case UserSyncAsked => exists j :: i < j < |log| && log[j].PassBegan?
    case ReconcileAsked => exists j :: i < j < |log| && log[j] == PassBegan(true)
    case PassBegan(_) => true
  }

  ghost predicate AllAnswered(log: seq<Event>) {
    forall i :: 0 <= i < |log| ==> Answered(log, i)
  }

  /** What the log still owes: read backwards, the first event that settles the question. */
  predicate SyncOwed(log: seq<Event>) {
    log != [] && (var last := log[|log| - 1];
    last.UserSyncAsked? || (!last.PassBegan? && SyncOwed(log[..|log| - 1])))
  }

  predicate ReconcileOwed(log: seq<Event>) {
    log != [] && (var last := log[|log| - 1];
    last.ReconcileAsked? || (last != PassBegan(true) && ReconcileOwed(log[..|log| - 1])))
  }

  lemma {:induction false} AnsweredGrows(log: seq<Event>, e: Event, i: nat)
    requires i < |log|
    ensures Answered(log, i) ==> Answered(log + [e], i)
    ensures log[i].UserSyncAsked? && e.PassBegan? ==> Answered(log + [e], i)
    ensures e == PassBegan(true) ==> Answered(log + [e], i)
    ensures Answered(log + [e], i) && !e.PassBegan? ==> Answered(log, i)
    ensures Answered(log + [e], i) && log[i].ReconcileAsked? && e != PassBegan(true) ==> Answered(log, i)
  {
    var more := log + [e];
    assert more[|log|] == e;
    if Answered(log, i) && !log[i].PassBegan? {
      var j :| i < j < |log| && log[j].PassBegan? && (log[i].ReconcileAsked? ==> log[j] == PassBegan(true));
      assert more[j] == log[j];
    }
    if Answered(more, i) && !log[i].PassBegan? {
      var j :| i < j < |more| && more[j].PassBegan? && (log[i].ReconcileAsked? ==> more[j] == PassBegan(true));
      if j < |log| { assert log[j] == more[j]; }
    }
  }

  /** The backward reading is exact: nothing is owed iff every request has its pass. */
  lemma {:induction false} OwedIsUnanswered(log: seq<Event>)
    ensures !SyncOwed(log) && !ReconcileOwed(log) <==> AllAnswered(log)
    ensures !SyncOwed(log) <==> forall i :: 0 <= i < |log| && log[i].UserSyncAsked? ==> Answered(log, i)
    ensures !ReconcileOwed(log) <==> forall i :: 0 <= i < |log| && log[i].ReconcileAsked? ==> Answered(log, i)
  {
    if log != [] {
      var n := |log| - 1;
      var front, last := log[..n], log[n];
      OwedIsUnanswered(front);
      assert log == front + [last];
      forall i | 0 <= i < n
        ensures log[i] == front[i]
        ensures Answered(front, i) ==> Answered(log, i)
        ensures log[i].UserSyncAsked? && last.PassBegan? ==> Answered(log, i)
        ensures last == PassBegan(true) ==> Answered(log, i)
        ensures Answered(log, i) && !last.PassBegan? ==> Answered(front, i)
        ensures Answered(log, i) && log[i].ReconcileAsked? && last != PassBegan(true) ==> Answered(front, i)
      {
        AnsweredGrows(front, last, i);
      }
      if !last.PassBegan? { assert !Answered(log, n); }
    }
  }

  /** The loop has work on its way to it: a token, a window it has yet to swap in, or a trigger
      about to signal. A stopped loop answers nobody. */
  predicate Coming(s: State, half: nat) {
    s.token || s.pc.Debouncing? || s.pc.Draining? || s.pc.Swapping? || s.pc.Stopped? || half > 0
  }

  predicate Inv(s: State) {
    && (SyncOwed(s.log) ==> Coming(s, s.halfSyncs))
    && (ReconcileOwed(s.log) ==> s.structural)
    && (s.structural ==> Coming(s, s.halfReconciles))
  }

  lemma StepKeepsInv(s: State, step: Step)
    requires Inv(s) && Enabled(s, step)
    ensures Inv(Take(s, step))
    ensures s.log <= Take(s, step).log
  {
  }

  lemma {:induction false} RunKeepsInv(states: seq<State>, i: nat)
    requires IsRun(states) && i < |states|
    ensures Inv(states[i])
  {
    if i > 0 {
      RunKeepsInv(states, i - 1);
      assert Moves(states[i - 1], states[i]);
      var step :| Enabled(states[i - 1], step) && states[i] == Take(states[i - 1], step);
      StepKeepsInv(states[i - 1], step);
    }
  }

  /** Main result. In every interleaving, whenever the loop is blocked on an empty channel and no
      trigger is halfway, every user sync asked for so far was followed by a pass that began after
      it and every reconcile asked for by a full one. */
  lemma NoRequestIsLost(states: seq<State>, i: nat)
    requires IsRun(states) && i < |states|
    requires states[i].pc == Blocked && !states[i].token
    requires states[i].halfSyncs == 0 && states[i].halfReconciles == 0
    ensures AllAnswered(states[i].log)
  {
    RunKeepsInv(states, i);
    OwedIsUnanswered(states[i].log);
  }

  /** A halfway reconcile never holds up a finished user sync, nor the other way round. */
  lemma HalfwayTriggersOweOnlyThemselves(states: seq<State>, i: nat, k: nat)
    requires IsRun(states) && i < |states| && k < |states[i].log|
    requires states[i].pc == Blocked && !states[i].token
    ensures states[i].log[k].UserSyncAsked? && states[i].halfSyncs == 0 ==> Answered(states[i].log, k)
    ensures states[i].log[k].ReconcileAsked? && states[i].halfReconciles == 0 ==> Answered(states[i].log, k)
  {
    RunKeepsInv(states, i);
    OwedIsUnanswered(states[i].log);
  }

  /** What the loop does next when it runs alone; blocked on an empty channel it does nothing. */
  function LoopStep(s: State): Step
    requires !s.pc.Stopped? && !(s.pc == Blocked && !s.token)
  {
    match s.pc
    case Blocked => Receive
    case Debouncing => DebounceOver
    case Draining => if s.token then DrainOne else DrainEmpty
    case Swapping => Swap
    case Working(_) => PassDone
  }

  function Rank(s: State): nat {
    (if s.token then 10 else 0) +
    match s.pc
    case Blocked => 0
    case Working(_) => 1
    case Swapping => 2
    case Draining => 3
    case Debouncing => 4
    case Stopped => 0
  }

  /** The loop run alone until it blocks on an empty channel. */
  function Settle(s: State): (t: State)
    requires !s.pc.Stopped?
    ensures t.pc == Blocked && !t.token && s.log <= t.log
    ensures t.halfSyncs == s.halfSyncs && t.halfReconciles == s.halfReconciles
    decreases Rank(s)
  {
    if s.pc == Blocked && !s.token then s else Settle(Take(s, LoopStep(s)))
  }

  lemma {:induction false} SettleKeepsInv(s: State)
    requires !s.pc.Stopped? && Inv(s)
    ensures Inv(Settle(s))
    decreases Rank(s)
  {
    if !(s.pc == Blocked && !s.token) {
      StepKeepsInv(s, LoopStep(s));
      SettleKeepsInv(Take(s, LoopStep(s)));
    }
  }

  /** Progress: from any state of a run in which no trigger is halfway and Close was not called, the
      loop left alone comes to rest with every request made so far answered. */
  lemma LoopAloneAnswersEverything(states: seq<State>, i: nat)
    requires IsRun(states) && i < |states|
    requires !states[i].pc.Stopped? && states[i].halfSyncs == 0 && states[i].halfReconciles == 0
    ensures states[i].log <= Settle(states[i]).log
    ensures AllAnswered(Settle(states[i]).log)
  {
    RunKeepsInv(states, i);
    SettleKeepsInv(states[i]);
    OwedIsUnanswered(Settle(states[i]).log);
  }
}
