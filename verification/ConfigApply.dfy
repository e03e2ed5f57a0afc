/** Applying the user set to Xray: the live user sync, the full reconcile and the rekey protocol of
    internal/core/manager.go, with the branch of the Xray supervisor's Apply that leaves a running
    process alone (internal/xray/supervisor.go).

    A user's credentials are a version number. The two passes hold one lock, so at most one is
    under way; its place is `pc`. Writers of credentials, restarts of Xray and edits of who is in
    the working set happen between any two steps of it. */
module ConfigApply {

  type Id = int
  type Keys = map<Id, nat>

  /** A generated config: everything that is not a user, and the users with their keys. */
  datatype Config = Config(layout: nat, users: Keys)

  datatype Process = Down | Up(users: Keys)

  /** What the running process was started with, as the supervisor remembers it. */
  datatype Started = Unknown | With(cfg: Config)

  datatype Pc =
    | Idle
    | Comparing(ids: set<Id>)
    | SyncCounting
    | SyncReading(upTo: nat)
    | Diffing(upTo: nat, users: Keys)
    | Removing(upTo: nat, users: Keys, removed: set<Id>, added: set<Id>)
    | Adding(upTo: nat, users: Keys, added: set<Id>)
    | Writing(upTo: nat, users: Keys, added: set<Id>)
    | FullCounting
    | FullReading(upTo: nat)
    | Applying(upTo: nat, cfg: Config)
    | Recording(upTo: nat, users: Keys)
    | Clearing(upTo: nat)

  /** `unmarked` holds one entry for each writer that has stored a new key and not yet called
      markRekeyed. */
  datatype State = State(
    keys: Keys,
    working: set<Id>,
    layout: nat,
    xray: Process,
    file: Keys,
    started: Started,
    applied: set<Id>,
    rekeyed: map<Id, nat>,
    rekeySeq: nat,
    unmarked: multiset<Id>,
    pc: Pc)

  /** What happens beside the passes: users and keys in the store, and Xray dying or restarting. */
  datatype StoreStep = AddUser(id: Id) | WriteKey(id: Id) | MarkKey(id: Id) | SetWorking(ids: set<Id>) | EditLayout
  datatype XrayStep = Restart | Die

  datatype SyncStep =
    | BeginSync(ids: set<Id>) | Compare | SyncCount | SyncRead | Diff | Remove | Add | WriteFile | Rebuild
  datatype FullStep = BeginFull | FullCount | FullRead | Apply | FailRestart
  datatype RecordStep = SetApplied | Clear

  datatype Step =
    | Store(store: StoreStep) | Xray(xray: XrayStep)
    | Sync(sync: SyncStep) | Full(full: FullStep) | Record(record: RecordStep)
    | Fail(part: set<Id>)

  // ---- what the code computes between its locks -------------------------------------------

  predicate IdsChanged(ids: set<Id>, applied: set<Id>, rekeyed: map<Id, nat>) {
    ids != applied || rekeyed != map[]
  }

  /** The rekeys an apply that read the credentials after `upTo` carries. */
  predicate Carried(rekeyed: map<Id, nat>, upTo: nat, id: Id) {
    id in rekeyed && rekeyed[id] <= upTo
  }

  function ToRemove(applied: set<Id>, rekeyed: map<Id, nat>, users: set<Id>, upTo: nat): set<Id> {
    set id | id in applied && (id !in users || Carried(rekeyed, upTo, id))
  }

  function ToAdd(applied: set<Id>, rekeyed: map<Id, nat>, users: set<Id>, upTo: nat): set<Id> {
    set id | id in users && (id !in applied || Carried(rekeyed, upTo, id))
  }

  function Uncarried(rekeyed: map<Id, nat>, upTo: nat): map<Id, nat> {
    map id | id in rekeyed && rekeyed[id] > upTo :: rekeyed[id]
  }

  function Restrict(m: Keys, ids: set<Id>): Keys {
    map id | id in m && id in ids :: m[id]
  }

  function Without(m: Keys, ids: set<Id>): Keys {
    map id | id in m && id !in ids :: m[id]
  }

  function XrayUsers(s: State): Keys {
    if s.xray.Up? then s.xray.users else map[]
  }

  /** The supervisor finds the config to be the one the live process was started with. */
  predicate Skips(s: State, cfg: Config) {
    s.xray.Up? && s.started == With(cfg)
  }

  // ---- steps ------------------------------------------------------------------------------

  predicate StoreEnabled(s: State, step: StoreStep) {
    match step
    case AddUser(id) => id !in s.keys
    case WriteKey(id) => id in s.keys
    case MarkKey(id) => id in s.unmarked
    case SetWorking(ids) => ids <= s.keys.Keys
    case EditLayout => true
  }

  function TakeStore(s: State, step: StoreStep): State
    requires StoreEnabled(s, step)
  {
    match step
    case AddUser(id) => s.(keys := s.keys[id := 0])
    case WriteKey(id) => s.(keys := s.keys[id := s.keys[id] + 1], unmarked := s.unmarked + multiset{id})
    case MarkKey(id) =>
      s.(rekeySeq := s.rekeySeq + 1, rekeyed := s.rekeyed[id := s.rekeySeq + 1],
         unmarked := s.unmarked - multiset{id})
    case SetWorking(ids) => s.(working := ids)
    case EditLayout => s.(layout := s.layout + 1)
  }

  function TakeXray(s: State, step: XrayStep): State {
    match step
    // A crash-restart, or the operator's: the process reads config.json; Apply is not involved.
    case Restart => s.(xray := Up(s.file))
    case Die => s.(xray := Down)
  }

  predicate SyncEnabled(s: State, step: SyncStep) {
    match step
    case BeginSync(ids) => s.pc == Idle && s.xray.Up?
    case Compare => s.pc.Comparing?
    case SyncCount => s.pc.SyncCounting?
    case SyncRead => s.pc.SyncReading?
    case Diff => s.pc.Diffing?
    case Remove => s.pc.Removing? && s.xray.Up?
    case Add => s.pc.Adding? && s.xray.Up?
    case WriteFile => s.pc.Writing?
    case Rebuild => s.pc.Removing?
  }

  function DiffPc(s: State): Pc
    requires s.pc.Diffing?
  {
    var users := s.pc.users;
    var removed := ToRemove(s.applied, s.rekeyed, users.Keys, s.pc.upTo);
    var added := ToAdd(s.applied, s.rekeyed, users.Keys, s.pc.upTo);
    if removed == {} && added == {} then Clearing(s.pc.upTo)
    else Removing(s.pc.upTo, users, removed, added)
  }

  function TakeSync(s: State, step: SyncStep): State
    requires SyncEnabled(s, step)
  {
    match step
    // `ids` may have been read well before the lock was taken.
    case BeginSync(ids) => s.(pc := Comparing(ids))
    case Compare => s.(pc := if IdsChanged(s.pc.ids, s.applied, s.rekeyed) then SyncCounting else Idle)
    case SyncCount => s.(pc := SyncReading(s.rekeySeq))
    case SyncRead => s.(pc := Diffing(s.pc.upTo, Restrict(s.keys, s.working)))
    case Diff => s.(pc := DiffPc(s))
    case Remove =>
      s.(xray := Up(Without(s.xray.users, s.pc.removed)), pc := Adding(s.pc.upTo, s.pc.users, s.pc.added))
    case Add =>
      s.(xray := Up(s.xray.users + Restrict(s.pc.users, s.pc.added)),
         pc := Writing(s.pc.upTo, s.pc.users, s.pc.added))
    case WriteFile => s.(file := s.pc.users, pc := Recording(s.pc.upTo, s.pc.users))
    // A cascade entry's bridges moved: the live sync turns into a full reconcile.
    case Rebuild => s.(pc := FullCounting)
  }

  predicate FullEnabled(s: State, step: FullStep) {
    match step
    case BeginFull => s.pc == Idle
    case FullCount => s.pc.FullCounting?
    case FullRead => s.pc.FullReading?
    case Apply => s.pc.Applying?
    case FailRestart => s.pc.Applying?
  }

  function TakeFull(s: State, step: FullStep): State
    requires FullEnabled(s, step)
  {
    match step
    case BeginFull => s.(pc := FullCounting)
    case FullCount => s.(pc := FullReading(s.rekeySeq))
    case FullRead => s.(pc := Applying(s.pc.upTo, Config(s.layout, Restrict(s.keys, s.working))))
    case Apply =>
      var cfg := s.pc.cfg;
      var next := s.(pc := Recording(s.pc.upTo, cfg.users));
      if Skips(s, cfg) then next
      else next.(xray := Up(cfg.users), file := cfg.users, started := With(cfg))
    // Apply renamed the new file into place and could not start the process from it.
    case FailRestart => s.(file := s.pc.cfg.users, xray := Down, pc := Idle)
  }

  predicate RecordEnabled(s: State, step: RecordStep) {
    match step
    case SetApplied => s.pc.Recording?
    case Clear => s.pc.Clearing?
  }

  function TakeRecord(s: State, step: RecordStep): State
    requires RecordEnabled(s, step)
  {
    match step
    case SetApplied => s.(applied := s.pc.users.Keys, pc := Clearing(s.pc.upTo))
    case Clear => s.(rekeyed := Uncarried(s.rekeyed, s.pc.upTo), pc := Idle)
  }

  predicate FailEnabled(s: State, part: set<Id>) {
    match s.pc
    case Removing(_, _, removed, _) => part <= removed
    case Adding(_, _, added) => part <= added
    case Idle => false
    case Recording(_, _) => false
    case Clearing(_) => false
    case _ => part == {}
  }

  /** An error return: an API call may have done part of its work before it failed. */
  function TakeFail(s: State, part: set<Id>): State
    requires FailEnabled(s, part)
  {
    var next := s.(pc := Idle);
    if s.xray.Up? && s.pc.Removing? then next.(xray := Up(Without(s.xray.users, part)))
    else if s.xray.Up? && s.pc.Adding? then next.(xray := Up(s.xray.users + Restrict(s.pc.users, part)))
    else next
  }

  predicate Enabled(s: State, step: Step) {
    match step
    case Store(e) => StoreEnabled(s, e)
    case Xray(x) => true
    case Sync(y) => SyncEnabled(s, y)
    case Full(f) => FullEnabled(s, f)
    case Record(r) => RecordEnabled(s, r)
    case Fail(part) => FailEnabled(s, part)
  }

  function Take(s: State, step: Step): State
    requires Enabled(s, step)
  {
    match step
    case Store(e) => TakeStore(s, e)
    case Xray(x) => TakeXray(s, x)
    case Sync(y) => TakeSync(s, y)
    case Full(f) => TakeFull(s, f)
    case Record(r) => TakeRecord(s, r)
    case Fail(part) => TakeFail(s, part)
  }

  // ---- the invariant ----------------------------------------------------------------------

  predicate Older(m: Keys, keys: Keys, id: Id) {
    id in m && id in keys && m[id] < keys[id]
  }

  /** Its newest rekey is not among those an apply at `upTo` carries, or is still to be marked. */
  predicate Owed(s: State, upTo: nat, id: Id) {
    (id in s.rekeyed && s.rekeyed[id] > upTo) || id in s.unmarked
  }

  predicate Flagged(s: State, id: Id) {
    id in s.rekeyed || id in s.unmarked
  }

  /** Every key in m was the stored one at some time. */
  predicate Issued(m: Keys, keys: Keys) {
    forall id :: id in m ==> id in keys && m[id] <= keys[id]
  }

  predicate NoOlderThan(m: Keys, base: Keys) {
    forall id :: id in m && id in base ==> base[id] <= m[id]
  }

  function StartedUsers(s: State): Keys {
    if s.started.With? then s.started.cfg.users else map[]
  }

  predicate StaleAreFlagged(s: State, m: Keys) {
    forall id :: id in s.applied && Older(m, s.keys, id) ==> Flagged(s, id)
  }

  predicate StaleAreOwed(s: State, upTo: nat, m: Keys, ids: set<Id>) {
    forall id :: id in ids && Older(m, s.keys, id) ==> Owed(s, upTo, id)
  }

  /** A restart after the API took the new keys and before config.json holds them, while config.json has an
      older key of a user the sync carries whose rekey that sync will clear. */
  predicate RestartLosesAKey(s: State, step: Step) {
    step == Xray(Restart) && s.pc.Writing? && !StaleAreOwed(s, s.pc.upTo, s.file, s.pc.users.Keys)
  }

  /** Credentials read after the counter stood at upTo. */
  predicate ReadAfter(s: State, upTo: nat, users: Keys) {
    && upTo <= s.rekeySeq
    && Issued(users, s.keys)
    && NoOlderThan(users, StartedUsers(s))
    && StaleAreOwed(s, upTo, users, users.Keys)
  }

  predicate PcInv(s: State) {
    match s.pc
    case SyncReading(upTo) => upTo <= s.rekeySeq
    case FullReading(upTo) => upTo <= s.rekeySeq
    case Diffing(upTo, users) => ReadAfter(s, upTo, users)
    case Applying(upTo, cfg) => ReadAfter(s, upTo, cfg.users)
    case Removing(upTo, users, _, added) =>
      && ReadAfter(s, upTo, users) && added <= users.Keys
      && StaleAreOwed(s, upTo, XrayUsers(s), users.Keys - added)
      && StaleAreOwed(s, upTo, s.file, users.Keys - added)
    case Adding(upTo, users, added) =>
      && ReadAfter(s, upTo, users) && added <= users.Keys
      && StaleAreOwed(s, upTo, XrayUsers(s), users.Keys - added)
      && StaleAreOwed(s, upTo, s.file, users.Keys - added)
    case Writing(upTo, users, _) =>
      ReadAfter(s, upTo, users) && StaleAreOwed(s, upTo, XrayUsers(s), users.Keys)
    case Recording(upTo, users) =>
      && upTo <= s.rekeySeq
      && StaleAreOwed(s, upTo, XrayUsers(s), users.Keys)
      && StaleAreOwed(s, upTo, s.file, users.Keys)
    case Clearing(upTo) =>
      && upTo <= s.rekeySeq
      && StaleAreOwed(s, upTo, XrayUsers(s), s.applied)
      && StaleAreOwed(s, upTo, s.file, s.applied)
    case _ => true
  }

  predicate Inv(s: State) {
    && s.working <= s.keys.Keys
    && (forall id :: id in s.rekeyed ==> s.rekeyed[id] <= s.rekeySeq)
    && Issued(XrayUsers(s), s.keys) && Issued(s.file, s.keys) && Issued(StartedUsers(s), s.keys)
    && NoOlderThan(XrayUsers(s), StartedUsers(s)) && NoOlderThan(s.file, StartedUsers(s))
    && StaleAreFlagged(s, XrayUsers(s)) && StaleAreFlagged(s, s.file)
    && PcInv(s)
  }

  const START := State(map[], {}, 0, Down, map[], Unknown, {}, map[], 0, multiset{}, Idle)

  /** From s to t only the store moved: keys grew, and every key that grew is still to be marked. */
  ghost predicate StoreMoved(s: State, t: State) {
    && t == s.(keys := t.keys, working := t.working, layout := t.layout,
                rekeyed := t.rekeyed, rekeySeq := t.rekeySeq, unmarked := t.unmarked)
    && s.rekeySeq <= t.rekeySeq
    && Issued(s.keys, t.keys)
    && (forall id :: id in s.keys && s.keys[id] < t.keys[id] ==> id in t.unmarked)
    && (forall id :: Flagged(s, id) ==> Flagged(t, id))
    && (forall upTo: nat, id :: upTo <= s.rekeySeq && Owed(s, upTo, id) ==> Owed(t, upTo, id))
  }

  lemma OwedSurvives(s: State, t: State, upTo: nat, m: Keys, ids: set<Id>)
    requires StoreMoved(s, t) && Issued(m, s.keys) && upTo <= s.rekeySeq
    requires StaleAreOwed(s, upTo, m, ids)
    ensures StaleAreOwed(t, upTo, m, ids)
  {
    forall id | id in ids && Older(m, t.keys, id) ensures Owed(t, upTo, id) {
      if Older(m, s.keys, id) { assert Owed(s, upTo, id); }
    }
  }

  lemma FlaggedSurvives(s: State, t: State, m: Keys)
    requires StoreMoved(s, t) && Issued(m, s.keys) && StaleAreFlagged(s, m)
    ensures Issued(m, t.keys) && StaleAreFlagged(t, m)
  {
    forall id | id in t.applied && Older(m, t.keys, id) ensures Flagged(t, id) {
      if Older(m, s.keys, id) { assert Flagged(s, id); }
    }
  }

  lemma ReadAfterSurvives(s: State, t: State, upTo: nat, users: Keys)
    requires StoreMoved(s, t) && ReadAfter(s, upTo, users)
    ensures ReadAfter(t, upTo, users)
  {
    OwedSurvives(s, t, upTo, users, users.Keys);
  }

  lemma ReadPcSurvives(s: State, t: State)
    requires StoreMoved(s, t) && Inv(s) && (s.pc.Diffing? || s.pc.Applying?)
    ensures PcInv(t)
  {
    ReadAfterSurvives(s, t, s.pc.upTo, if s.pc.Diffing? then s.pc.users else s.pc.cfg.users);
  }

  lemma ApiPcSurvives(s: State, t: State)
    requires StoreMoved(s, t) && Inv(s) && (s.pc.Removing? || s.pc.Adding? || s.pc.Writing?)
    ensures PcInv(t)
  {
    var upTo, users, added := s.pc.upTo, s.pc.users, s.pc.added;
    ReadAfterSurvives(s, t, upTo, users);
    if s.pc.Writing? {
      OwedSurvives(s, t, upTo, XrayUsers(s), users.Keys);
    } else {
      OwedSurvives(s, t, upTo, XrayUsers(s), users.Keys - added);
      OwedSurvives(s, t, upTo, s.file, users.Keys - added);
    }
  }

  lemma RecordPcSurvives(s: State, t: State)
    requires StoreMoved(s, t) && Inv(s) && (s.pc.Recording? || s.pc.Clearing?)
    ensures PcInv(t)
  {
    var ids := if s.pc.Recording? then s.pc.users.Keys else s.applied;
    OwedSurvives(s, t, s.pc.upTo, XrayUsers(s), ids);
    OwedSurvives(s, t, s.pc.upTo, s.file, ids);
  }

  lemma PcInvSurvives(s: State, t: State)
    requires StoreMoved(s, t) && Inv(s)
    ensures PcInv(t)
  {
    if s.pc.Diffing? || s.pc.Applying? {
      ReadPcSurvives(s, t);
    } else if s.pc.Removing? || s.pc.Adding? || s.pc.Writing? {
      ApiPcSurvives(s, t);
    } else if s.pc.Recording? || s.pc.Clearing? {
      RecordPcSurvives(s, t);
    }
  }

  lemma StoreStepMoves(s: State, step: StoreStep)
    requires Inv(s) && StoreEnabled(s, step)
    ensures StoreMoved(s, TakeStore(s, step))
  {
    match step
    case WriteKey(id) => WriteKeyMoves(s, id);
    case MarkKey(id) => MarkKeyMoves(s, id);
    case _ =>
  }

  lemma WriteKeyMoves(s: State, id: Id)
    requires StoreEnabled(s, WriteKey(id))
    ensures StoreMoved(s, TakeStore(s, WriteKey(id)))
  {
    var t := TakeStore(s, WriteKey(id));
    assert id in t.unmarked;
    assert forall j :: j in s.unmarked ==> j in t.unmarked;
  }

  lemma MarkKeyMoves(s: State, id: Id)
    requires StoreEnabled(s, MarkKey(id))
    ensures StoreMoved(s, TakeStore(s, MarkKey(id)))
  {
    var t := TakeStore(s, MarkKey(id));
    assert t.rekeyed[id] > s.rekeySeq && id in t.rekeyed;
    assert forall j :: j in s.unmarked && j != id ==> j in t.unmarked;
    forall upTo: nat, j | upTo <= s.rekeySeq && Owed(s, upTo, j) ensures Owed(t, upTo, j) {
    }
  }

  lemma StoreMoveKeepsInv(s: State, t: State)
    requires Inv(s) && StoreMoved(s, t) && t.working <= t.keys.Keys
    requires forall id :: id in t.rekeyed ==> t.rekeyed[id] <= t.rekeySeq
    ensures Inv(t)
  {
    PcInvSurvives(s, t);
    FlaggedSurvives(s, t, XrayUsers(s));
    FlaggedSurvives(s, t, s.file);
    assert XrayUsers(t) == XrayUsers(s) && StartedUsers(t) == StartedUsers(s);
  }

  lemma StoreStepKeepsInv(s: State, step: StoreStep)
    requires Inv(s) && StoreEnabled(s, step)
    ensures Inv(TakeStore(s, step))
  {
    StoreStepMoves(s, step);
    StoreMoveKeepsInv(s, TakeStore(s, step));
  }

  lemma XrayStepKeepsInv(s: State, step: XrayStep)
    requires Inv(s) && !RestartLosesAKey(s, Xray(step))
    ensures Inv(TakeXray(s, step))
  {
    assert XrayUsers(TakeXray(s, step)) == if step == Restart then s.file else map[];
    XrayStepKeepsPcInv(s, step);
    hide PcInv, Owed, RestartLosesAKey;
  }

  lemma XrayStepKeepsPcInv(s: State, step: XrayStep)
    requires PcInv(s) && !RestartLosesAKey(s, Xray(step))
    ensures PcInv(TakeXray(s, step))
  {
    var t := TakeXray(s, step);
    assert XrayUsers(t) == if step == Restart then s.file else map[];
    assert StartedUsers(t) == StartedUsers(s);
    assert forall upTo: nat, id :: Owed(t, upTo, id) == Owed(s, upTo, id);
    hide Issued, NoOlderThan, Owed, XrayUsers, StartedUsers;
  }

  /** In the write window a restart breaks the invariant exactly by losing a key. */
  lemma RestartKeepsInvIff(s: State)
    requires Inv(s) && s.pc.Writing?
    ensures Inv(TakeXray(s, Restart)) <==> !RestartLosesAKey(s, Xray(Restart))
  {
    assert XrayUsers(TakeXray(s, Restart)) == s.file;
  }

  /** Whoever the diff leaves alone is as current as what they are flagged by allows. */
  lemma UntouchedAreOwed(s: State, m: Keys)
    requires s.pc.Diffing? && StaleAreFlagged(s, m)
    ensures StaleAreOwed(s, s.pc.upTo, m, s.pc.users.Keys - ToAdd(s.applied, s.rekeyed, s.pc.users.Keys, s.pc.upTo))
  {
  }

  lemma DiffKeepsInv(s: State)
    requires Inv(s) && s.pc.Diffing?
    ensures Inv(TakeSync(s, Diff))
  {
    var t := TakeSync(s, Diff);
    var upTo, users := s.pc.upTo, s.pc.users;
    var removed := ToRemove(s.applied, s.rekeyed, users.Keys, upTo);
    var added := ToAdd(s.applied, s.rekeyed, users.Keys, upTo);
    UntouchedAreOwed(s, XrayUsers(s));
    UntouchedAreOwed(s, s.file);
    assert forall id :: Owed(t, upTo, id) == Owed(s, upTo, id);
    if removed == {} && added == {} {
      forall id | id in s.applied ensures id in users.Keys - added {
        assert id !in removed && id !in added;
      }
    }
    hide StaleAreFlagged, Older, Owed, Issued, NoOlderThan;
    OnlyThePcMoves(s, t);
  }

  lemma AddKeepsInv(s: State)
    requires Inv(s) && SyncEnabled(s, Add)
    ensures Inv(TakeSync(s, Add))
  {
    var t := TakeSync(s, Add);
    var upTo, users, added := s.pc.upTo, s.pc.users, s.pc.added;
    forall id | id in users && Older(XrayUsers(t), t.keys, id) ensures Owed(t, upTo, id) {
      if id in added {
        assert Older(users, s.keys, id) && Owed(s, upTo, id);
      } else {
        assert id in users.Keys - added && Older(XrayUsers(s), s.keys, id);
      }
    }
    forall id | id in t.applied && Older(XrayUsers(t), t.keys, id) ensures Flagged(t, id) {
      if id in added {
        assert Older(users, s.keys, id) && Owed(s, upTo, id);
      } else {
        assert Older(XrayUsers(s), s.keys, id);
      }
    }
  }

  lemma WriteFileKeepsInv(s: State)
    requires Inv(s) && s.pc.Writing?
    ensures Inv(TakeSync(s, WriteFile))
  {
    var t := TakeSync(s, WriteFile);
    forall id | id in t.applied && Older(t.file, t.keys, id) ensures Flagged(t, id) {
      assert Owed(s, s.pc.upTo, id);
    }
  }

  lemma SyncStepKeepsInv(s: State, step: SyncStep)
    requires Inv(s) && SyncEnabled(s, step)
    ensures Inv(TakeSync(s, step))
  {
    match step
    case Diff => DiffKeepsInv(s);
    case Add => AddKeepsInv(s);
    case WriteFile => WriteFileKeepsInv(s);
    case SyncRead => ReadKeepsInv(s);
    case Remove => RemoveKeepsInv(s);
    case _ => OnlyThePcMoves(s, TakeSync(s, step)); hide Inv;
  }

  lemma OnlyThePcMoves(s: State, t: State)
    requires Inv(s) && t == s.(pc := t.pc) && PcInv(t)
    ensures Inv(t)
  {
    assert forall id :: Flagged(t, id) == Flagged(s, id);
    hide PcInv, Flagged;
  }

  lemma RemoveKeepsInv(s: State)
    requires Inv(s) && SyncEnabled(s, Remove)
    ensures Inv(TakeSync(s, Remove))
  {
    var t := TakeSync(s, Remove);
    assert forall id :: Owed(t, s.pc.upTo, id) == Owed(s, s.pc.upTo, id);
    hide Owed;
  }

  lemma ReadKeepsInv(s: State)
    requires Inv(s) && s.pc.SyncReading?
    ensures Inv(TakeSync(s, SyncRead))
  {
    OnlyThePcMoves(s, TakeSync(s, SyncRead));
  }

  lemma StaleReadsAreFlagged(s: State, upTo: nat, users: Keys)
    requires ReadAfter(s, upTo, users)
    ensures StaleAreFlagged(s, users)
  {
    forall id | id in s.applied && Older(users, s.keys, id) ensures Flagged(s, id) {
      assert Owed(s, upTo, id);
    }
  }

  lemma ApplyKeepsInv(s: State)
    requires Inv(s) && s.pc.Applying?
    ensures Inv(TakeFull(s, Apply))
  {
    var t := TakeFull(s, Apply);
    var upTo, users := s.pc.upTo, s.pc.cfg.users;
    StaleReadsAreFlagged(s, upTo, users);
    if Skips(s, s.pc.cfg) {
      // Nothing on Xray or in the file is older than what the process was started with.
      forall m: Keys, id | NoOlderThan(m, users) && id in users && Older(m, s.keys, id)
        ensures Owed(s, upTo, id)
      {
        assert Older(users, s.keys, id);
      }
    } else {
      assert XrayUsers(t) == users;
    }
  }

  lemma FullStepKeepsInv(s: State, step: FullStep)
    requires Inv(s) && FullEnabled(s, step)
    ensures Inv(TakeFull(s, step))
  {
    match step
    case Apply => ApplyKeepsInv(s);
    case FailRestart =>
      StaleReadsAreFlagged(s, s.pc.upTo, s.pc.cfg.users);
      assert XrayUsers(TakeFull(s, step)) == map[];
    case _ =>
  }

  lemma RecordStepKeepsInv(s: State, step: RecordStep)
    requires Inv(s) && RecordEnabled(s, step)
    ensures Inv(TakeRecord(s, step))
  {
  }

  lemma FailedAddKeepsInv(s: State, part: set<Id>)
    requires Inv(s) && FailEnabled(s, part) && s.pc.Adding? && s.xray.Up?
    ensures Inv(TakeFail(s, part))
  {
    hide PcInv;
    var t := TakeFail(s, part);
    assert ReadAfter(s, s.pc.upTo, s.pc.users) by { AddingRead(s); }
    StaleReadsAreFlagged(s, s.pc.upTo, s.pc.users);
    IdleIsFine(t);
    forall id | id in t.applied && Older(XrayUsers(t), t.keys, id) ensures Flagged(t, id) {
      assert Older(XrayUsers(s), s.keys, id) || Older(s.pc.users, s.keys, id);
    }
  }

  lemma AddingRead(s: State)
    requires PcInv(s) && s.pc.Adding?
    ensures ReadAfter(s, s.pc.upTo, s.pc.users)
  {
  }

  lemma IdleIsFine(s: State)
    requires s.pc == Idle
    ensures PcInv(s)
  {
  }

  /** With fewer users on Xray and no pass under way there is only less to keep. */
  lemma FailKeepsInv(s: State, part: set<Id>)
    requires Inv(s) && FailEnabled(s, part)
    ensures Inv(TakeFail(s, part))
  {
    if s.pc.Adding? && s.xray.Up? {
      FailedAddKeepsInv(s, part);
    } else if s.pc.Removing? && s.xray.Up? {
      IdleIsFine(TakeFail(s, part));
      hide PcInv;
    } else {
      OnlyThePcMoves(s, TakeFail(s, part));
      hide Inv;
    }
  }

  lemma StepKeepsInv(s: State, step: Step)
    requires Inv(s) && Enabled(s, step) && !RestartLosesAKey(s, step)
    ensures Inv(Take(s, step))
  {
    match step
    case Store(e) => StoreStepKeepsInv(s, e);
    case Xray(x) => XrayStepKeepsInv(s, x);
    case Sync(y) => SyncStepKeepsInv(s, y);
    case Full(f) => FullStepKeepsInv(s, f);
    case Record(r) => RecordStepKeepsInv(s, r);
    case Fail(part) => FailKeepsInv(s, part);
  }

  // ---- runs -------------------------------------------------------------------------------

  datatype Outcome = Impossible | Reached(state: State, lost: bool)

  /** The state a run of steps from the start leads to, and whether a restart lost a key on the way. */
  function After(steps: seq<Step>): Outcome {
    if steps == [] then Reached(START, false)
    else
      var step := steps[|steps| - 1];
      match After(steps[..|steps| - 1])
      case Impossible => Impossible
      case Reached(s, lost) =>
        if Enabled(s, step) then Reached(Take(s, step), lost || RestartLosesAKey(s, step))
        else Impossible
  }

  lemma {:induction false} RunKeepsInv(steps: seq<Step>)
    requires After(steps).Reached? && !After(steps).lost
    ensures Inv(After(steps).state)
  {
    if steps != [] {
      RunKeepsInv(steps[..|steps| - 1]);
      StepKeepsInv(After(steps[..|steps| - 1]).state, steps[|steps| - 1]);
    }
  }

  /** s is reachable from the start; `lost` says by a run in which a restart lost a key. */
  ghost predicate Reachable(s: State, lost: bool) {
    exists steps :: After(steps) == Reached(s, lost)
  }

  /** Main result. In every interleaving of key writes, marks, live syncs and full reconciles, with
      any of them failing and Xray dying or restarting, a user recorded as applied whose key on Xray
      is older than the stored one is still in `rekeyed` or has a writer that has yet to mark it, unless
      a restart lost a key. The same holds of config.json, which a restart would load. */
  lemma NoStaleKeyIsForgotten(s: State, id: Id)
    requires Reachable(s, false) && id in s.applied
    ensures Older(XrayUsers(s), s.keys, id) || Older(s.file, s.keys, id) ==> Flagged(s, id)
  {
    var steps :| After(steps) == Reached(s, false);
    RunKeepsInv(steps);
  }

  lemma ReachableHasInv(s: State)
    requires Reachable(s, false)
    ensures Inv(s)
  {
    var steps :| After(steps) == Reached(s, false);
    RunKeepsInv(steps);
  }

  /** One more step of a run. */
  lemma Go(s: State, w: bool, step: Step)
    requires Reachable(s, w) && Enabled(s, step)
    ensures Reachable(Take(s, step), w || RestartLosesAKey(s, step))
  {
    var steps :| After(steps) == Reached(s, w);
    assert (steps + [step])[..|steps|] == steps;
    assert After(steps + [step]) == Reached(Take(s, step), w || RestartLosesAKey(s, step));
  }

  /** One more step that is not a restart. */
  lemma GoOn(s: State, w: bool, step: Step, t: State)
    requires Reachable(s, w) && Enabled(s, step) && step != Xray(Restart) && t == Take(s, step)
    ensures Reachable(t, w)
  {
    hide Reachable, Enabled, Take;
    Go(s, w, step);
  }

  // ---- quiet passes -----------------------------------------------------------------------

  /** Every user who should be on Xray is there with the stored key. */
  predicate AllCurrent(s: State) {
    s.xray.Up? && forall id :: id in s.working ==> id in s.keys && id in s.xray.users && s.xray.users[id] == s.keys[id]
  }

  /** A pass from setApplied to its end. */
  function Recorded(s: State): State
    requires s.pc.Recording?
  {
    TakeRecord(TakeRecord(s, SetApplied), Clear)
  }

  /** A live sync from its diff to its end, with nothing happening beside it. */
  function QuietDiff(s: State): State
    requires s.pc.Diffing? && s.xray.Up?
  {
    var diffed := TakeSync(s, Diff);
    if diffed.pc.Clearing? then TakeRecord(diffed, Clear)
    else Recorded(TakeSync(TakeSync(TakeSync(diffed, Remove), Add), WriteFile))
  }

  /** A live sync that runs to its end with nothing happening beside it. */
  function QuietSync(s: State): State
    requires s.pc == Idle && s.xray.Up?
  {
    var compared := TakeSync(TakeSync(s, BeginSync(s.working)), Compare);
    if compared.pc == Idle then compared
    else QuietDiff(TakeSync(TakeSync(compared, SyncCount), SyncRead))
  }

  /** A full reconcile that runs to its end with nothing happening beside it. */
  function QuietFull(s: State): State
    requires s.pc == Idle
  {
    Recorded(TakeFull(TakeFull(TakeFull(TakeFull(s, BeginFull), FullCount), FullRead), Apply))
  }

  lemma RecordedIsARun(s: State, w: bool)
    requires Reachable(s, w) && s.pc.Recording?
    ensures Reachable(Recorded(s), w)
  {
    hide Reachable;
    Go(s, w, Record(SetApplied));
    Go(TakeRecord(s, SetApplied), w, Record(Clear));
  }

  lemma QuietDiffIsARun(s: State, w: bool)
    requires Reachable(s, w) && s.pc.Diffing? && s.xray.Up?
    ensures Reachable(QuietDiff(s), w)
  {
    hide Reachable;
    Go(s, w, Sync(Diff));
    var diffed := TakeSync(s, Diff);
    if diffed.pc.Clearing? {
      Go(diffed, w, Record(Clear));
    } else {
      Go(diffed, w, Sync(Remove));
      var removed := TakeSync(diffed, Remove);
      Go(removed, w, Sync(Add));
      Go(TakeSync(removed, Add), w, Sync(WriteFile));
      RecordedIsARun(TakeSync(TakeSync(removed, Add), WriteFile), w);
    }
  }

  lemma QuietSyncIsARun(s: State, w: bool)
    requires Reachable(s, w) && s.pc == Idle && s.xray.Up?
    ensures Reachable(QuietSync(s), w)
  {
    hide Reachable;
    Go(s, w, Sync(BeginSync(s.working)));
    var begun := TakeSync(s, BeginSync(s.working));
    Go(begun, w, Sync(Compare));
    var compared := TakeSync(begun, Compare);
    if compared.pc != Idle {
      Go(compared, w, Sync(SyncCount));
      Go(TakeSync(compared, SyncCount), w, Sync(SyncRead));
      QuietDiffIsARun(TakeSync(TakeSync(compared, SyncCount), SyncRead), w);
    }
  }

  lemma QuietFullIsARun(s: State, w: bool)
    requires Reachable(s, w) && s.pc == Idle
    ensures Reachable(QuietFull(s), w)
  {
    hide Reachable;
    Go(s, w, Full(BeginFull));
    var begun := TakeFull(s, BeginFull);
    Go(begun, w, Full(FullCount));
    var counted := TakeFull(begun, FullCount);
    Go(counted, w, Full(FullRead));
    Go(TakeFull(counted, FullRead), w, Full(Apply));
    RecordedIsARun(TakeFull(TakeFull(counted, FullRead), Apply), w);
  }

  predicate RekeysCounted(s: State) {
    forall id :: id in s.rekeyed ==> s.rekeyed[id] <= s.rekeySeq
  }

  lemma NothingToDo(applied: set<Id>, rekeyed: map<Id, nat>, users: Keys, upTo: nat, xray: Keys)
    requires ToRemove(applied, rekeyed, users.Keys, upTo) == {} == ToAdd(applied, rekeyed, users.Keys, upTo)
    ensures applied == users.Keys && Without(xray, {}) + Restrict(users, {}) == xray
  {
    assert forall id :: id in applied ==> id !in ToRemove(applied, rekeyed, users.Keys, upTo);
    assert forall id :: id in users.Keys ==> id !in ToAdd(applied, rekeyed, users.Keys, upTo);
  }

  lemma NothingUncarried(rekeyed: map<Id, nat>, upTo: nat)
    requires forall id :: id in rekeyed ==> rekeyed[id] <= upTo
    ensures Uncarried(rekeyed, upTo) == map[]
  {
    assert forall id :: id !in Uncarried(rekeyed, upTo);
  }

  /** The whole effect of a quiet live sync that found something to do. */
  lemma QuietDiffResult(s: State)
    requires s.pc.Diffing? && s.xray.Up? && s.pc.upTo == s.rekeySeq && RekeysCounted(s)
    ensures var users := s.pc.users;
      var removed := ToRemove(s.applied, s.rekeyed, users.Keys, s.rekeySeq);
      var added := ToAdd(s.applied, s.rekeyed, users.Keys, s.rekeySeq);
      QuietDiff(s) == s.(pc := Idle, applied := users.Keys, rekeyed := map[],
                         file := if removed == {} == added then s.file else users,
                         xray := Up(Without(s.xray.users, removed) + Restrict(users, added)))
  {
    var users := s.pc.users;
    var removed := ToRemove(s.applied, s.rekeyed, users.Keys, s.rekeySeq);
    var added := ToAdd(s.applied, s.rekeyed, users.Keys, s.rekeySeq);
    NothingUncarried(s.rekeyed, s.rekeySeq);
    if removed == {} && added == {} {
      NothingToDo(s.applied, s.rekeyed, users, s.rekeySeq, s.xray.users);
    }
  }

  lemma QuietFullResult(s: State)
    requires s.pc == Idle && s.working <= s.keys.Keys && RekeysCounted(s)
    ensures var users := Restrict(s.keys, s.working);
      var cfg := Config(s.layout, users);
      && users.Keys == s.working
      && QuietFull(s) ==
           (if Skips(s, cfg) then s else s.(xray := Up(users), file := users, started := With(cfg)))
             .(applied := s.working, rekeyed := map[])
  {
    assert Restrict(s.keys, s.working).Keys == s.working;
    NothingUncarried(s.rekeyed, s.rekeySeq);
  }

  /** Users the panel believes to be on Xray and has no reason to touch are there. */
  predicate NobodyMissing(s: State) {
    forall id :: id in s.applied && id in s.working && id !in s.rekeyed ==> id in XrayUsers(s)
  }

  /** A live sync with no write during it and every earlier write marked ends with the applied set
      equal to the working set, and with every key current exactly when nobody it had no reason to
      touch was missing from Xray; nobody else is left on Xray if nobody else was recorded. */
  lemma SyncEndsCurrent(s: State)
    requires Inv(s) && s.pc == Idle && s.xray.Up? && s.unmarked == multiset{}
    ensures var t := QuietSync(s);
      && t.pc == Idle && t.applied == s.working && t.rekeyed == map[]
      && t.keys == s.keys && t.working == s.working
      && (AllCurrent(t) <==> NobodyMissing(s))
      && (s.xray.users.Keys <= s.applied ==> XrayUsers(t).Keys <= t.working)
  {
    QuietSyncResult(s);
    forall id | id in s.working
      ensures CurrentOnXray(QuietSync(s), id) <==> !(id in s.applied && id !in s.rekeyed && id !in s.xray.users)
    {
      SyncMakesCurrentIff(s, id);
    }
    hide QuietSync;
  }

  predicate CurrentOnXray(s: State, id: Id) {
    id in s.keys && id in XrayUsers(s) && XrayUsers(s)[id] == s.keys[id]
  }

  /** The whole effect of a quiet live sync. */
  lemma QuietSyncResult(s: State)
    requires s.pc == Idle && s.xray.Up? && s.working <= s.keys.Keys && RekeysCounted(s)
    ensures var t := QuietSync(s); var users := Restrict(s.keys, s.working);
      var removed := ToRemove(s.applied, s.rekeyed, s.working, s.rekeySeq);
      var added := ToAdd(s.applied, s.rekeyed, s.working, s.rekeySeq);
      t == s.(applied := s.working, rekeyed := map[], file := t.file,
              xray := Up(Without(s.xray.users, removed) + Restrict(users, added)))
  {
    var users := Restrict(s.keys, s.working);
    assert users.Keys == s.working;
    var removed := ToRemove(s.applied, s.rekeyed, s.working, s.rekeySeq);
    var added := ToAdd(s.applied, s.rekeyed, s.working, s.rekeySeq);
    if IdsChanged(s.working, s.applied, s.rekeyed) {
      QuietDiffResult(s.(pc := Diffing(s.rekeySeq, users)));
      hide QuietDiff, ToRemove, ToAdd;
    } else {
      assert forall id :: id !in removed && id !in added;
      assert Without(s.xray.users, removed) + Restrict(users, added) == s.xray.users;
    }
  }

  lemma SyncMakesCurrentIff(s: State, id: Id)
    requires Inv(s) && s.pc == Idle && s.xray.Up? && s.unmarked == multiset{} && id in s.working
    ensures CurrentOnXray(QuietSync(s), id) <==> !(id in s.applied && id !in s.rekeyed && id !in s.xray.users)
  {
    QuietSyncResult(s);
    var removed := ToRemove(s.applied, s.rekeyed, s.working, s.rekeySeq);
    var added := ToAdd(s.applied, s.rekeyed, s.working, s.rekeySeq);
    if id in s.applied && id !in s.rekeyed {
      assert id !in added && id !in removed;
      assert Older(XrayUsers(s), s.keys, id) ==> Flagged(s, id);
    } else {
      assert id in added;
    }
    hide QuietSync, PcInv;
  }

  /** A full reconcile with no write during it and every earlier write marked ends with the applied
      set equal to the working set, and with every key current exactly when it restarted Xray or the
      process it left alone still held every user of the config it was started with. */
  lemma FullEndsCurrent(s: State)
    requires Inv(s) && s.pc == Idle && s.unmarked == multiset{}
    ensures var t := QuietFull(s);
      && t.pc == Idle && t.applied == s.working && t.rekeyed == map[]
      && t.keys == s.keys && t.working == s.working
      && (AllCurrent(t) <==>
          (Skips(s, Config(s.layout, Restrict(s.keys, s.working))) ==> s.working <= XrayUsers(s).Keys))
  {
    QuietFullResult(s);
    var users := Restrict(s.keys, s.working);
    var t := QuietFull(s);
    if Skips(s, Config(s.layout, users)) {
      assert t.xray == s.xray && StartedUsers(s) == users;
      forall id | id in s.working && id in XrayUsers(s) ensures XrayUsers(s)[id] == s.keys[id] {
        assert users[id] <= XrayUsers(s)[id];
      }
      if AllCurrent(t) {
        assert forall id :: id in s.working ==> id in t.xray.users;
      }
    } else {
      assert t.xray == Up(users);
    }
  }

  // ---- the conditions are real ------------------------------------------------------------

  const NOBODY: Keys := map[]
  const OLD_KEY: Keys := map[1 := 0]
  const NEW_KEY: Keys := map[1 := 1]

  /** User 1 created, let in and applied by a full reconcile. */
  const BOOTED := State(OLD_KEY, {1}, 0, Up(OLD_KEY), OLD_KEY, With(Config(0, OLD_KEY)),
                        {1}, map[], 0, multiset{}, Idle)

  lemma BootedIsReachable()
    ensures Reachable(BOOTED, false)
  {
    assert Reachable(START, false) by { assert After([]) == Reached(START, false); }
    hide Reachable;
    Go(START, false, Store(AddUser(1)));
    var made := START.(keys := OLD_KEY);
    Go(made, false, Store(SetWorking({1})));
    var letIn := made.(working := {1});
    QuietFullIsARun(letIn, false);
    QuietFullResult(letIn);
    assert Restrict(OLD_KEY, {1}) == OLD_KEY;
  }

  /** Their key replaced, and the writer done. */
  const REKEYED := BOOTED.(keys := NEW_KEY, rekeyed := map[1 := 1], rekeySeq := 1)

  lemma RekeyIsReachable()
    ensures Reachable(REKEYED, false)
  {
    hide Reachable;
    BootedIsReachable();
    var written := BOOTED.(keys := NEW_KEY, unmarked := multiset{1});
    GoOn(BOOTED, false, Store(WriteKey(1)), written);
    GoOn(written, false, Store(MarkKey(1)), REKEYED);
  }

  lemma DiffIsReachable()
    ensures Reachable(REKEYED.(pc := Removing(1, NEW_KEY, {1}, {1})), false)
  {
    hide Reachable;
    RekeyIsReachable();
    GoOn(REKEYED, false, Sync(BeginSync({1})), REKEYED.(pc := Comparing({1})));
    assert 1 in REKEYED.rekeyed;
    GoOn(REKEYED.(pc := Comparing({1})), false, Sync(Compare), REKEYED.(pc := SyncCounting));
    GoOn(REKEYED.(pc := SyncCounting), false, Sync(SyncCount), REKEYED.(pc := SyncReading(1)));
    assert Restrict(NEW_KEY, {1}) == NEW_KEY;
    GoOn(REKEYED.(pc := SyncReading(1)), false, Sync(SyncRead), REKEYED.(pc := Diffing(1, NEW_KEY)));
    DiffOfARekey();
    GoOn(REKEYED.(pc := Diffing(1, NEW_KEY)), false, Sync(Diff), REKEYED.(pc := Removing(1, NEW_KEY, {1}, {1})));
  }

  lemma DiffOfARekey()
    ensures TakeSync(REKEYED.(pc := Diffing(1, NEW_KEY)), Diff) == REKEYED.(pc := Removing(1, NEW_KEY, {1}, {1}))
  {
    assert NEW_KEY.Keys == {1};
    assert 1 in ToAdd({1}, map[1 := 1], {1}, 1);
    assert ToRemove({1}, map[1 := 1], {1}, 1) == {1} == ToAdd({1}, map[1 := 1], {1}, 1);
  }

  /** Up to the point where the API has replaced the key and the file has not. */
  lemma WindowIsReachable() returns (s: State)
    ensures Reachable(s, false) && s.pc == Writing(1, NEW_KEY, {1})
    ensures s.keys == NEW_KEY && s.file == OLD_KEY && s.rekeyed == map[1 := 1] && s.unmarked == multiset{}
  {
    hide Reachable;
    DiffIsReachable();
    s := REKEYED.(pc := Removing(1, NEW_KEY, {1}, {1}));
    GoOn(s, false, Sync(Remove), TakeSync(s, Remove));
    s := TakeSync(s, Remove);
    GoOn(s, false, Sync(Add), TakeSync(s, Add));
    s := TakeSync(s, Add);
  }

  /** And no restart is excluded for nothing. Left to itself afterwards the sync ends with a stale key that
      nobody will mend exactly if the restart lost one. */
  lemma RestartForgetsIff(s: State)
    requires Inv(s) && s.pc.Writing?
    ensures var t := Recorded(TakeSync(TakeXray(s, Restart), WriteFile));
      (exists id :: id in t.applied && Older(XrayUsers(t), t.keys, id) && !Flagged(t, id))
      <==> RestartLosesAKey(s, Xray(Restart))
  {
    var t := Recorded(TakeSync(TakeXray(s, Restart), WriteFile));
    assert XrayUsers(t) == s.file && t.applied == s.pc.users.Keys && t.keys == s.keys;
    assert forall id :: Flagged(t, id) <==> Owed(s, s.pc.upTo, id);
  }

  /** Such restarts happen: one between the API's add and the write of config.json puts the old key back,
      and the sync then forgets the rekey. */
  lemma RestartInWindowForgetsARekey() returns (s: State)
    ensures Reachable(s, true) && s.pc == Idle
    ensures 1 in s.applied && Older(XrayUsers(s), s.keys, 1) && !Flagged(s, 1)
  {
    hide Reachable;
    s := WindowIsReachable();
    assert 1 in OLD_KEY && OLD_KEY[1] == 0 && 1 in NEW_KEY && NEW_KEY[1] == 1;
    assert 1 in s.rekeyed && s.rekeyed[1] == 1 && 1 !in s.unmarked;
    assert Older(s.file, s.keys, 1) && !Owed(s, 1, 1) && 1 in s.pc.users.Keys;
    Go(s, false, Xray(Restart));
    s := TakeXray(s, Restart);
    Go(s, true, Sync(WriteFile));
    s := TakeSync(s, WriteFile);
    RecordedIsARun(s, true);
    s := Recorded(s);
  }

  /** User 1 taken out of the working set. */
  const TAKEN_OUT := BOOTED.(working := {})

  lemma TakenOutIsReachable()
    ensures Reachable(TAKEN_OUT, false)
  {
    BootedIsReachable();
    GoOn(BOOTED, false, Store(SetWorking({})), TAKEN_OUT);
  }

  lemma NobodyLeft()
    ensures Restrict(OLD_KEY, {}) == NOBODY && NOBODY.Keys == {} && Without(OLD_KEY, {1}) == NOBODY
    ensures ToRemove({1}, map[], {}, 0) == {1} && ToAdd({1}, map[], {}, 0) == {}
  {
    assert 1 in ToRemove({1}, map[], {}, 0);
  }

  lemma RemovalIsReachable()
    ensures Reachable(TAKEN_OUT.(pc := Removing(0, NOBODY, {1}, {})), false)
  {
    hide Reachable;
    TakenOutIsReachable();
    GoOn(TAKEN_OUT, false, Sync(BeginSync({})), TAKEN_OUT.(pc := Comparing({})));
    assert 1 in TAKEN_OUT.applied;
    GoOn(TAKEN_OUT.(pc := Comparing({})), false, Sync(Compare), TAKEN_OUT.(pc := SyncCounting));
    GoOn(TAKEN_OUT.(pc := SyncCounting), false, Sync(SyncCount), TAKEN_OUT.(pc := SyncReading(0)));
    NobodyLeft();
    GoOn(TAKEN_OUT.(pc := SyncReading(0)), false, Sync(SyncRead), TAKEN_OUT.(pc := Diffing(0, NOBODY)));
    assert DiffPc(TAKEN_OUT.(pc := Diffing(0, NOBODY))) == Removing(0, NOBODY, {1}, {});
    GoOn(TAKEN_OUT.(pc := Diffing(0, NOBODY)), false, Sync(Diff), TAKEN_OUT.(pc := Removing(0, NOBODY, {1}, {})));
  }

  /** User 1 off Xray and still recorded as applied by a sync that failed, and let back in. */
  const DROPPED := BOOTED.(xray := Up(NOBODY))

  lemma DroppedIsReachable()
    ensures Reachable(DROPPED, false)
  {
    hide Reachable;
    RemovalIsReachable();
    NobodyLeft();
    var s := TAKEN_OUT.(pc := Removing(0, NOBODY, {1}, {}));
    var off := TAKEN_OUT.(xray := Up(NOBODY));
    GoOn(s, false, Sync(Remove), off.(pc := Adding(0, NOBODY, {})));
    assert NOBODY + Restrict(NOBODY, {}) == NOBODY;
    GoOn(off.(pc := Adding(0, NOBODY, {})), false, Fail({}), off);
    GoOn(off, false, Store(SetWorking({1})), DROPPED);
  }

  /** A live sync that removed a user and then could not write config.json leaves them recorded as
      applied and off Xray. The full reconcile that follows at once does not mend it if the user is let back
      in before it reads: the config is then the one Xray was started with, the apply is skipped, and no
      live sync after it puts the user back. */
  lemma FailedSyncLosesAUser() returns (failed: State, s: State)
    ensures Reachable(failed, false) && failed.pc == Idle && s == QuietFull(failed) && Reachable(s, false)
    ensures s.pc == Idle && s.xray.Up? && s.unmarked == multiset{} && s.working == s.applied == {1}
    ensures !AllCurrent(s) && !AllCurrent(QuietSync(s))
  {
    failed := DROPPED;
    DroppedIsReachable();
    QuietFullIsARun(failed, false);
    s := QuietFull(failed);
    DroppedStaysDropped();
    ReachableHasInv(s);
    assert 1 !in XrayUsers(s) && 1 in s.applied && 1 in s.working && 1 !in s.rekeyed;
    hide Reachable, Inv, QuietSync, QuietFull;
    SyncEndsCurrent(s);
  }

  lemma DroppedStaysDropped()
    ensures QuietFull(DROPPED) == DROPPED && !AllCurrent(DROPPED)
  {
    assert Restrict(OLD_KEY, {1}) == OLD_KEY;
    QuietFullResult(DROPPED);
    hide QuietFull;
  }

  /** A user removed live and let back in before the next full reconcile makes the config equal to
      the one Xray was started with: Apply leaves the process alone, without them. */
  lemma SkippedApplyLosesAUser() returns (s: State)
    ensures Reachable(s, false) && s.pc == Idle && s.xray.Up? && s.unmarked == multiset{}
    ensures s.working == {1} == QuietFull(s).applied && !AllCurrent(QuietFull(s))
  {
    hide Reachable, QuietSync, QuietFull, Inv;
    TakenOutIsReachable();
    QuietSyncIsARun(TAKEN_OUT, false);
    QuietSyncResult(TAKEN_OUT);
    NobodyLeft();
    var off := QuietSync(TAKEN_OUT);
    s := off.(working := {1});
    GoOn(off, false, Store(SetWorking({1})), s);
    assert Restrict(OLD_KEY, {1}) == OLD_KEY;
    assert 1 !in XrayUsers(s) by { assert Restrict(NOBODY, {}) == NOBODY; }
    ReachableHasInv(s);
    FullEndsCurrent(s);
  }

  /** A full reconcile whose new process will not start has still put its config in place: the restart that
      follows brings up exactly the users it read, and what is recorded as applied and as rekeyed has not
      moved, so the next pass still sees them to do. */
  lemma FailedStartIsTakenUp(s: State)
    requires FullEnabled(s, FailRestart)
    ensures var t := TakeXray(TakeFull(s, FailRestart), Restart);
      t.xray == Up(s.pc.cfg.users) && t.pc == Idle && t.applied == s.applied && t.rekeyed == s.rekeyed &&
      t.started == s.started
  {
  }
}
