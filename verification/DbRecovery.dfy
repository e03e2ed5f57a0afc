/** Recovery from a corrupt database (cmd/rospanel/dbrecover.go): the damaged file is set aside, the
    archives are tried from the newest, and the original comes back if none can be used. The process may
    die before any of its operations on the files; the budget says before which. */
module DbRecovery {
  import opened Common

  /** A database file: which one it is, whether SQLite can read it, and its schema, if that is readable. */
  datatype Db = Db(id: int, sound: bool, schema: Option<int>)

  /** A local backup; a broken one cannot be unpacked. */
  datatype Archive = Archive(broken: bool, db: Option<Db>, key: Option<int>)

  /** What goes wrong with an archive that vetted: unpacking over the data directory fails halfway and
      leaves this much, or the copy that landed does not check. */
  datatype Fault = Fine | Halfway(db: Option<Db>, key: Option<int>) | LandsBad(copy: Db)

  /** The newest schema this build knows. */
  const SCHEMA := 140

  datatype Health = Healthy | Corrupt | Unreadable

  /** The database with its two sidecars. */
  datatype Files = Files(db: Option<Db>, wal: Option<int>, shm: Option<int>)

  const NOTHING := Files(None, None, None)

  /** The data directory, the files set aside, and the encryption key. */
  datatype Disk = Disk(live: Files, quarantine: Files, key: int)

  /** store.Check: a missing file reads as a fresh install. */
  function Check(db: Option<Db>): Health {
    if db.None? || db.value.sound then Healthy else Corrupt
  }

  /** vetArchive */
  predicate Vets(a: Archive) {
    !a.broken && a.db.Some? && a.db.value.sound && a.db.value.schema.Some? && a.db.value.schema.value <= SCHEMA
  }

  /** Whole, holding a sound database whose schema can be read and is not later than this build's, and
      nothing goes wrong with it. */
  predicate Usable(a: Archive, f: Fault) {
    f == Fine && !a.broken && a.db.Some? &&
    a.db.value.sound && a.db.value.schema.Some? && a.db.value.schema.value <= SCHEMA
  }

  /** Which operation fails besides, if any. */
  datatype Trouble = Smooth | FirstCheck | Listing | MovingDb | MovingSidecar(shm: bool)

  datatype Outcome = Running | Refused | Stopped

  /** What the boot finds. */
  function Found(db: Option<Db>, trouble: Trouble): Health {
    if trouble == FirstCheck then Unreadable else Check(db)
  }

  predicate Present(f: Files, shm: bool) {
    if shm then f.shm.Some? else f.wal.Some?
  }

  /** The files can be set aside together. */
  predicate Movable(f: Files, trouble: Trouble) {
    !trouble.MovingDb? && !(trouble.MovingSidecar? && Present(f, trouble.shm))
  }

  function Landed(was: Option<Db>, written: Option<Db>): Option<Db> {
    if written.Some? then written else was
  }

  function Over(was: int, written: Option<int>): int {
    if written.Some? then written.value else was
  }

  /** The archive's own database, in working order, and its own key. */
  predicate Holds(a: Archive, db: Option<Db>, key: int) {
    db == a.db && db.Some? && Check(db) == Healthy && (a.key.Some? ==> key == a.key.value)
  }

  /** The newest archive that can be used. */
  predicate Newest(archives: seq<Archive>, faults: seq<Fault>, k: int) {
    |faults| == |archives| && 0 <= k < |archives| && Usable(archives[k], faults[k]) &&
    forall j :: 0 <= j < k ==> !Usable(archives[j], faults[j])
  }

  /** An archive that vets writes its key over the one there, as far as its unpacking gets. */
  predicate WritesKey(archives: seq<Archive>, faults: seq<Fault>, j: int) {
    0 <= j < |archives| == |faults| && Vets(archives[j]) && KeyWritten(archives[j], faults[j]).Some?
  }

  /** The key that is left when every archive has been tried: the one written last. */
  function LastKey(archives: seq<Archive>, faults: seq<Fault>, key: int): int
    requires |archives| == |faults|
  {
    if archives == [] then key
    else
      var n := |archives| - 1;
      if WritesKey(archives, faults, n) then KeyWritten(archives[n], faults[n]).value
      else LastKey(archives[..n], faults[..n], key)
  }

  lemma LastKeyOn(archives: seq<Archive>, faults: seq<Fault>, i: nat, key: int)
    requires |archives| == |faults| && i < |archives|
    ensures LastKey(archives[..i + 1], faults[..i + 1], key)
      == if Vets(archives[i]) then Over(LastKey(archives[..i], faults[..i], key), KeyWritten(archives[i], faults[i]))
         else LastKey(archives[..i], faults[..i], key)
  {
    assert archives[..i + 1][..i] == archives[..i] && faults[..i + 1][..i] == faults[..i];
    hide Vets, KeyWritten;
  }

  /** It is the old one exactly if none was written, or the last one written is the same. */
  lemma {:induction false} OldKeyIff(archives: seq<Archive>, faults: seq<Fault>, key: int)
    requires |archives| == |faults|
    ensures LastKey(archives, faults, key) == key <==>
      forall j :: WritesKey(archives, faults, j) && (forall i :: WritesKey(archives, faults, i) ==> i <= j) ==>
        KeyWritten(archives[j], faults[j]).value == key
  {
    if archives != [] {
      var n := |archives| - 1;
      OldKeyIff(archives[..n], faults[..n], key);
      forall j | 0 <= j < n ensures WritesKey(archives, faults, j) <==> WritesKey(archives[..n], faults[..n], j) {
      }
      if WritesKey(archives, faults, n) {
        assert forall i :: WritesKey(archives, faults, i) ==> i <= n;
      }
    }
  }

  // ---- operations on the files --------------------------------------------------------------

  datatype Part = Main | Wal | Shm

  /** A rename into the quarantine or back, a removal, and the writing of an archived file. */
  datatype Op = Aside(part: Part) | Back(part: Part) | Drop(part: Part) | WriteDb(db: Db) | WriteKey(key: int)

  function Without(f: Files, p: Part): Files {
    match p
    case Main => f.(db := None)
    case Wal => f.(wal := None)
    case Shm => f.(shm := None)
  }

  function With(f: Files, p: Part, from: Files): Files {
    match p
    case Main => f.(db := from.db)
    case Wal => f.(wal := from.wal)
    case Shm => f.(shm := from.shm)
  }

  function Do(d: Disk, op: Op): Disk {
    match op
    case Aside(p) => d.(live := Without(d.live, p), quarantine := With(d.quarantine, p, d.live))
    case Back(p) => d.(live := With(d.live, p, d.quarantine), quarantine := Without(d.quarantine, p))
    case Drop(p) => d.(live := Without(d.live, p))
    case WriteDb(db) => d.(live := d.live.(db := Some(db)))
    case WriteKey(key) => d.(key := key)
  }

  /** Where a process stands that dies before an operation: a database it had begun to write is torn. */
  function Torn(d: Disk, op: Op, torn: Option<Db>): Disk {
    if op.WriteDb? && torn.Some? then d.(live := d.live.(db := torn)) else d
  }

  /** The operations carried out in order by a process that gets to n of them. */
  function After(d: Disk, ops: seq<Op>, n: nat, torn: Option<Db>): Disk
    decreases n
  {
    if ops == [] then d
    else if n == 0 then Torn(d, ops[0], torn)
    else After(Do(d, ops[0]), ops[1..], n - 1, torn)
  }

  lemma AfterCons(d: Disk, op: Op, ops: seq<Op>, n: nat, torn: Option<Db>)
    ensures After(d, [op] + ops, n, torn) == if n == 0 then Torn(d, op, torn) else After(Do(d, op), ops, n - 1, torn)
  {
    assert ([op] + ops)[1..] == ops;
  }

  lemma {:induction false} AfterThen(d: Disk, ops: seq<Op>, more: seq<Op>, n: nat, torn: Option<Db>)
    ensures After(d, ops + more, n, torn)
         == if n < |ops| then After(d, ops, n, torn) else After(After(d, ops, n, torn), more, n - |ops|, torn)
    decreases n
  {
    if ops == [] {
      assert ops + more == more;
    } else {
      assert ops + more == [ops[0]] + (ops[1..] + more);
      AfterCons(d, ops[0], ops[1..] + more, n, torn);
      if n > 0 {
        AfterThen(Do(d, ops[0]), ops[1..], more, n - 1, torn);
      }
    }
  }

  // ---- what each part of the recovery does, in order ----------------------------------------

  function AsideShm(f: Files, trouble: Trouble): seq<Op> {
    if f.shm.None? then [] else if trouble == MovingSidecar(true) then [Back(Main)] else [Aside(Shm)]
  }

  function AsideWal(f: Files, trouble: Trouble): seq<Op> {
    if f.wal.None? then AsideShm(f, trouble)
    else if trouble == MovingSidecar(false) then [Back(Main)]
    else [Aside(Wal)] + AsideShm(f, trouble)
  }

  function AsideOps(f: Files, trouble: Trouble): seq<Op> {
    if trouble.MovingDb? then [] else [Aside(Main)] + AsideWal(f, trouble)
  }

  function WriteOps(db: Option<Db>, key: Option<int>): seq<Op> {
    var rest := if key.Some? then [WriteKey(key.value)] else [];
    if db.Some? then [WriteDb(db.value)] + rest else rest
  }

  function DbWritten(a: Archive, f: Fault): Option<Db> {
    match f
    case Fine => a.db
    case Halfway(db, key) => db
    case LandsBad(copy) => if a.db.Some? then Some(copy.(sound := false)) else None
  }

  function KeyWritten(a: Archive, f: Fault): Option<int> {
    if f.Halfway? then f.key else a.key
  }

  function UnpackOps(a: Archive, f: Fault): seq<Op> {
    WriteOps(DbWritten(a, f), KeyWritten(a, f))
  }

  function BackShm(q: Files): seq<Op> {
    [Drop(Shm)] + if q.shm.Some? then [Back(Shm)] else []
  }

  function BackWal(q: Files): seq<Op> {
    [Drop(Wal)] + if q.wal.Some? then [Back(Wal)] + BackShm(q) else BackShm(q)
  }

  function BackOps(q: Files): seq<Op> {
    [Drop(Main)] + if q.db.Some? then [Back(Main)] + BackWal(q) else BackWal(q)
  }

  /** The archives from the i-th, and the way back if none of them will do. */
  function WalkOps(archives: seq<Archive>, faults: seq<Fault>, i: nat, q: Files): seq<Op>
    requires i <= |archives| == |faults|
    decreases |archives| - i
  {
    if i == |archives| then BackOps(q)
    else if !Vets(archives[i]) then WalkOps(archives, faults, i + 1, q)
    else if faults[i] == Fine then UnpackOps(archives[i], faults[i])
    else UnpackOps(archives[i], faults[i]) + WalkOps(archives, faults, i + 1, q)
  }

  function RecoveryOps(f: Files, archives: seq<Archive>, faults: seq<Fault>, trouble: Trouble): seq<Op>
    requires |archives| == |faults|
  {
    if Found(f.db, trouble) != Corrupt || trouble == Listing || archives == [] then []
    else if Movable(f, trouble) then AsideOps(f, trouble) + WalkOps(archives, faults, 0, f)
    else AsideOps(f, trouble)
  }

  // ---- dying on the way ---------------------------------------------------------------------

  predicate Takes(op: Op) {
    op == Aside(Main) || op == Drop(Main)
  }

  predicate Lands(op: Op) {
    op == Back(Main) || op.WriteDb?
  }

  /** Of the operations carried out, one took the database away and none since has landed one; nor was one
      being written. */
  ghost predicate Gone(ops: seq<Op>, n: nat, torn: Option<Db>) {
    (exists i :: TakenAt(ops, n, i)) && !(n < |ops| && ops[n].WriteDb? && torn.Some?)
  }

  ghost predicate TakenAt(ops: seq<Op>, n: nat, i: int) {
    0 <= i < n && i < |ops| && Takes(ops[i]) && forall j :: i < j < n && j < |ops| ==> !Lands(ops[j])
  }

  /** Whenever the database is moved back it is there to be moved. */
  predicate Returns(d: Disk, ops: seq<Op>)
    decreases ops
  {
    ops == [] || ((ops[0] == Back(Main) ==> d.quarantine.db.Some?) && Returns(Do(d, ops[0]), ops[1..]))
  }

  lemma {:induction false} ReturnsThen(d: Disk, ops: seq<Op>, more: seq<Op>)
    requires Returns(d, ops) && Returns(After(d, ops, |ops|, None), more)
    ensures Returns(d, ops + more)
    decreases |ops|
  {
    if ops == [] {
      assert ops + more == more;
    } else {
      ReturnsThen(Do(d, ops[0]), ops[1..], more);
      assert (ops + more)[1..] == ops[1..] + more;
    }
  }

  /** Before and after the first operation the rest of the story is the same. */
  lemma GoneCons(ops: seq<Op>, n: nat, torn: Option<Db>)
    requires ops != [] && n > 0
    ensures Gone(ops, n, torn) <==>
      Gone(ops[1..], n - 1, torn) || (Takes(ops[0]) && Unlanded(ops[1..], n - 1, torn))
  {
    var rest, m := ops[1..], n - 1;
    if i :| TakenAt(rest, m, i) {
      TakenCons(ops, n, i);
    }
    if i :| TakenAt(ops, n, i) {
      if i > 0 { TakenCons(ops, n, i - 1); }
    }
    assert TakenAt(ops, n, 0) <==> Takes(ops[0]) && forall j :: 0 <= j < n - 1 && j < |rest| ==> !Lands(rest[j]) by {
      assert forall j :: 0 < j < |ops| ==> ops[j] == rest[j - 1];
      assert forall j :: 0 <= j < |rest| ==> rest[j] == ops[j + 1];
    }
  }

  lemma TakenCons(ops: seq<Op>, n: nat, i: nat)
    requires ops != [] && n > 0
    ensures TakenAt(ops[1..], n - 1, i) <==> TakenAt(ops, n, i + 1)
  {
    assert forall j :: i < j < n - 1 && j < |ops| - 1 ==> ops[1..][j] == ops[j + 1];
    assert forall j :: i + 1 < j < n && j < |ops| ==> ops[j] == ops[1..][j - 1];
  }

  ghost predicate Unlanded(ops: seq<Op>, n: nat, torn: Option<Db>) {
    (forall j :: 0 <= j < n && j < |ops| ==> !Lands(ops[j])) && !(n < |ops| && ops[n].WriteDb? && torn.Some?)
  }

  lemma UnlandedCons(ops: seq<Op>, n: nat, torn: Option<Db>)
    requires ops != [] && n > 0
    ensures Unlanded(ops, n, torn) <==> !Lands(ops[0]) && Unlanded(ops[1..], n - 1, torn)
  {
    var rest := ops[1..];
    assert forall j :: 0 < j < |ops| ==> ops[j] == rest[j - 1];
    assert forall j :: 0 <= j < |rest| ==> rest[j] == ops[j + 1];
  }

  /** A database is missing exactly if it was gone all along, or has been taken away, and none has landed. */
  lemma {:induction false} MissingIff(d: Disk, ops: seq<Op>, n: nat, torn: Option<Db>)
    requires Returns(d, ops)
    ensures After(d, ops, n, torn).live.db.None? <==>
      Gone(ops, n, torn) || (d.live.db.None? && Unlanded(ops, n, torn))
    decreases n
  {
    if ops == [] || n == 0 {
      assert forall i :: !TakenAt(ops, n, i);
    } else {
      MissingIff(Do(d, ops[0]), ops[1..], n - 1, torn);
      GoneCons(ops, n, torn);
      UnlandedCons(ops, n, torn);
    }
  }

  lemma ShmAsideReturns(d: Disk, f: Files, trouble: Trouble)
    requires d.quarantine.db.Some?
    ensures Returns(d, AsideShm(f, trouble))
  {
    var shm := AsideShm(f, trouble);
    assert shm != [] ==> shm[1..] == [];
  }

  lemma SidecarsAsideReturn(d: Disk, f: Files, trouble: Trouble)
    requires d.quarantine.db.Some?
    ensures Returns(d, AsideWal(f, trouble))
  {
    ShmAsideReturns(d, f, trouble);
    ShmAsideReturns(Do(d, Aside(Wal)), f, trouble);
    assert ([Aside(Wal)] + AsideShm(f, trouble))[1..] == AsideShm(f, trouble);
  }

  lemma AsideReturns(d: Disk, trouble: Trouble)
    requires d.live.db.Some? && d.quarantine == NOTHING
    ensures Returns(d, AsideOps(d.live, trouble))
    ensures Movable(d.live, trouble) ==>
      After(d, AsideOps(d.live, trouble), |AsideOps(d.live, trouble)|, None) == Disk(NOTHING, d.live, d.key)
  {
    if !trouble.MovingDb? {
      var rest := AsideWal(d.live, trouble);
      assert ([Aside(Main)] + rest)[1..] == rest;
      AfterCons(d, Aside(Main), rest, |rest| + 1, None);
      SidecarsAsideReturn(Do(d, Aside(Main)), d.live, trouble);
    }
  }

  lemma WrittenIs(a: Archive, f: Fault)
    ensures KeyWritten(a, f) == if f.Halfway? then f.key else a.key
    ensures f == Fine ==> DbWritten(a, f) == a.db
    ensures f.Halfway? ==> DbWritten(a, f) == f.db
    ensures f.LandsBad? && a.db.Some? ==> DbWritten(a, f).Some? && !DbWritten(a, f).value.sound
  {
  }

  lemma UnpackReturns(d: Disk, a: Archive, f: Fault)
    ensures Returns(d, UnpackOps(a, f)) && After(d, UnpackOps(a, f), |UnpackOps(a, f)|, None).quarantine == d.quarantine
  {
    var ops := UnpackOps(a, f);
    assert ops != [] ==> ops[1..] == [] || ops[1..] == [ops[1]];
  }

  lemma {:induction false} WalkReturns(d: Disk, archives: seq<Archive>, faults: seq<Fault>, i: nat, q: Files)
    requires i <= |archives| == |faults| && d.quarantine == q && q.db.Some?
    ensures Returns(d, WalkOps(archives, faults, i, q))
    decreases |archives| - i
  {
    if i == |archives| {
      BackReturns(d);
    } else {
      var e := After(d, UnpackOps(archives[i], faults[i]), |UnpackOps(archives[i], faults[i])|, None);
      UnpackReturns(d, archives[i], faults[i]);
      hide UnpackOps, BackOps, Vets, Returns;
      WalkReturns(d, archives, faults, i + 1, q);
      WalkReturns(e, archives, faults, i + 1, q);
      ReturnsThen(d, UnpackOps(archives[i], faults[i]), WalkOps(archives, faults, i + 1, q));
    }
  }

  lemma BackReturns(d: Disk)
    requires d.quarantine.db.Some?
    ensures Returns(d, BackOps(d.quarantine))
  {
    var ops := BackOps(d.quarantine);
    assert ops[1..][1..] == BackWal(d.quarantine);
    SidecarsReturn(Do(Do(d, ops[0]), ops[1]), ops[2..]);
    assert ops[1..][1..] == ops[2..];
  }

  lemma {:induction false} SidecarsReturn(d: Disk, ops: seq<Op>)
    requires Back(Main) !in ops
    ensures Returns(d, ops)
    decreases |ops|
  {
    if ops != [] {
      SidecarsReturn(Do(d, ops[0]), ops[1..]);
    }
  }

  /** Main result on dying. A recovery that dies anywhere leaves no database, which the next boot takes for a
      fresh install, exactly if by then the database has been renamed or removed and neither an unpacking,
      not even one cut short, nor the way back has landed one. */
  lemma DiesWithoutDatabaseIff(d: Disk, archives: seq<Archive>, faults: seq<Fault>, trouble: Trouble, n: nat,
                               torn: Option<Db>)
    requires |archives| == |faults| && d.quarantine == NOTHING && Found(d.live.db, trouble) == Corrupt
    ensures var ops := RecoveryOps(d.live, archives, faults, trouble);
      After(d, ops, n, torn).live.db.None? <==> Gone(ops, n, torn)
  {
    var ops := RecoveryOps(d.live, archives, faults, trouble);
    AsideReturns(d, trouble);
    if Movable(d.live, trouble) {
      WalkReturns(Disk(NOTHING, d.live, d.key), archives, faults, 0, d.live);
      ReturnsThen(d, AsideOps(d.live, trouble), WalkOps(archives, faults, 0, d.live));
    }
    assert Returns(d, ops);
    MissingIff(d, ops, n, torn);
  }

  // ---- nothing of the old is lost -----------------------------------------------------------

  /** Each of the old files is still in place or set aside. */
  predicate Kept(d: Disk, f: Files) {
    && (d.live.db == f.db || d.quarantine.db == f.db)
    && (d.live.wal == f.wal || d.quarantine.wal == f.wal)
    && (d.live.shm == f.shm || d.quarantine.shm == f.shm)
  }

  /** Before each operation and after the last the old files are kept, and an archive is written only over
      a directory they have left. */
  predicate Keeps(d: Disk, ops: seq<Op>, f: Files)
    decreases ops
  {
    Kept(d, f) && (ops == [] || ((ops[0].WriteDb? ==> d.quarantine == f) && Keeps(Do(d, ops[0]), ops[1..], f)))
  }

  lemma {:induction false} KeptAlong(d: Disk, ops: seq<Op>, f: Files, n: nat, torn: Option<Db>)
    requires Keeps(d, ops, f)
    ensures Kept(After(d, ops, n, torn), f)
    decreases n
  {
    if ops != [] && n > 0 {
      KeptAlong(Do(d, ops[0]), ops[1..], f, n - 1, torn);
    }
  }

  lemma {:induction false} KeepsThen(d: Disk, ops: seq<Op>, more: seq<Op>, f: Files)
    requires Keeps(d, ops, f) && Keeps(After(d, ops, |ops|, None), more, f)
    ensures Keeps(d, ops + more, f)
    decreases |ops|
  {
    if ops == [] {
      assert ops + more == more;
    } else {
      KeepsThen(Do(d, ops[0]), ops[1..], more, f);
      assert (ops + more)[1..] == ops[1..] + more;
    }
  }

  lemma KeepsCons(d: Disk, op: Op, ops: seq<Op>, f: Files)
    requires Kept(d, f) && !op.WriteDb? && Keeps(Do(d, op), ops, f)
    ensures Keeps(d, [op] + ops, f)
  {
    assert ([op] + ops)[1..] == ops;
  }

  lemma SetAsideKeeps(d: Disk, trouble: Trouble)
    requires d.quarantine == NOTHING
    ensures Keeps(d, AsideOps(d.live, trouble), d.live)
  {
    var f := d.live;
    if !trouble.MovingDb? {
      var d1 := Do(d, Aside(Main));
      var d2 := if f.wal.Some? then Do(d1, Aside(Wal)) else d1;
      var shm := AsideShm(f, trouble);
      assert shm != [] ==> shm[1..] == [] && Kept(Do(d1, shm[0]), f) && Kept(Do(d2, shm[0]), f);
      if f.wal.Some? {
        if trouble == MovingSidecar(false) {
          KeepsCons(d1, Back(Main), [], f);
        } else {
          KeepsCons(d1, Aside(Wal), shm, f);
        }
      }
      KeepsCons(d, Aside(Main), AsideWal(f, trouble), f);
    }
  }

  lemma PutBackKeeps(d: Disk)
    ensures Keeps(d, BackOps(d.quarantine), d.quarantine)
  {
    var q := d.quarantine;
    var d1 := Do(d, Drop(Main));
    var d2 := if q.db.Some? then Do(d1, Back(Main)) else d1;
    SidecarsBackKeep(d2, q);
    if q.db.Some? {
      KeepsCons(d1, Back(Main), BackWal(q), q);
    }
    KeepsCons(d, Drop(Main), if q.db.Some? then [Back(Main)] + BackWal(q) else BackWal(q), q);
  }

  lemma SidecarsBackKeep(d: Disk, q: Files)
    requires d.quarantine.wal == q.wal && d.quarantine.shm == q.shm
    requires d.live.db == q.db || d.quarantine.db == q.db
    ensures Keeps(d, BackWal(q), q)
  {
    var d1 := Do(d, Drop(Wal));
    var d2 := if q.wal.Some? then Do(d1, Back(Wal)) else d1;
    var d3 := Do(d2, Drop(Shm));
    if q.shm.Some? {
      KeepsCons(d3, Back(Shm), [], q);
      assert [Back(Shm)] + [] == [Back(Shm)];
    }
    KeepsCons(d2, Drop(Shm), if q.shm.Some? then [Back(Shm)] else [], q);
    if q.wal.Some? {
      KeepsCons(d1, Back(Wal), BackShm(q), q);
    }
    KeepsCons(d, Drop(Wal), if q.wal.Some? then [Back(Wal)] + BackShm(q) else BackShm(q), q);
  }

  lemma UnpackKeeps(d: Disk, a: Archive, f: Fault)
    ensures Keeps(d, UnpackOps(a, f), d.quarantine)
  {
    var ops := UnpackOps(a, f);
    assert ops != [] ==> ops[1..] == [] || ops[1..] == [ops[1]];
  }

  lemma {:induction false} WalkKeeps(d: Disk, archives: seq<Archive>, faults: seq<Fault>, i: nat)
    requires i <= |archives| == |faults|
    ensures Keeps(d, WalkOps(archives, faults, i, d.quarantine), d.quarantine)
    decreases |archives| - i
  {
    if i == |archives| {
      PutBackKeeps(d);
    } else {
      var e := After(d, UnpackOps(archives[i], faults[i]), |UnpackOps(archives[i], faults[i])|, None);
      UnpackReturns(d, archives[i], faults[i]);
      UnpackKeeps(d, archives[i], faults[i]);
      hide UnpackOps, BackOps, Vets, Keeps;
      WalkKeeps(d, archives, faults, i + 1);
      WalkKeeps(e, archives, faults, i + 1);
      KeepsThen(d, UnpackOps(archives[i], faults[i]), WalkOps(archives, faults, i + 1, d.quarantine), d.quarantine);
    }
  }

  /** Main result. Wherever the process dies, and whatever the archives do, the damaged database and its
      sidecars are each still in place or in the quarantine. */
  lemma NothingOldIsLost(d: Disk, archives: seq<Archive>, faults: seq<Fault>, trouble: Trouble, n: nat,
                         torn: Option<Db>)
    requires |archives| == |faults| && d.quarantine == NOTHING
    ensures var e := After(d, RecoveryOps(d.live, archives, faults, trouble), n, torn);
      && (e.live.db == d.live.db || e.quarantine.db == d.live.db)
      && (e.live.wal == d.live.wal || e.quarantine.wal == d.live.wal)
      && (e.live.shm == d.live.shm || e.quarantine.shm == d.live.shm)
  {
    var ops := RecoveryOps(d.live, archives, faults, trouble);
    SetAsideKeeps(d, trouble);
    if Found(d.live.db, trouble) == Corrupt && Movable(d.live, trouble) {
      AsideReturns(d, trouble);
      WalkKeeps(Disk(NOTHING, d.live, d.key), archives, faults, 0);
      KeepsThen(d, AsideOps(d.live, trouble), WalkOps(archives, faults, 0, d.live), d.live);
    }
    KeptAlong(d, ops, d.live, n, torn);
  }

  class Recovery {
    var live: Files
    var quarantine: Files
    var key: int

    function Now(): Disk
      reads this
    {
      Disk(live, quarantine, key)
    }

    /** quarantineDB; if a sidecar will not move, the database is put back. Stopped anywhere after the
        first rename, it leaves no database. */
    method Quarantine(trouble: Trouble, budget: nat, ghost torn: Option<Db>) returns (ok: bool, left: nat, done: bool)
      requires live.db.Some? && quarantine == NOTHING
      modifies this`live, this`quarantine
      ensures Now() == After(old(Now()), AsideOps(old(live), trouble), budget, torn)
      ensures done <==> budget >= |AsideOps(old(live), trouble)|
      ensures done ==> left == budget - |AsideOps(old(live), trouble)| && (ok <==> Movable(old(live), trouble))
      ensures done && ok ==> quarantine == old(live) && live == NOTHING
      ensures done && !ok ==> live.db == old(live).db && quarantine.db.None?
      ensures trouble.MovingDb? ==> live == old(live) && quarantine == old(quarantine)
      ensures !done ==> (live.db.None? <==> budget > 0)
    {
      ok, left, done := false, budget, true;
      if trouble.MovingDb? {
        return;
      }
      AfterCons(Now(), Aside(Main), AsideWal(live, trouble), left, torn);
      if left == 0 {
        done := false;
        return;
      }
      ghost var f := live;
      left := left - 1;
      live, quarantine := live.(db := None), quarantine.(db := live.db);
      if live.wal.Some? {
        if left == 0 {
          done := false;
          return;
        }
        left := left - 1;
        if trouble == MovingSidecar(false) {
          live, quarantine := live.(db := quarantine.db), quarantine.(db := None);
          return;
        }
        AfterCons(Now(), Aside(Wal), AsideShm(f, trouble), left + 1, torn);
        live, quarantine := live.(wal := None), quarantine.(wal := live.wal);
      }
      if live.shm.Some? {
        if left == 0 {
          done := false;
          return;
        }
        left := left - 1;
        if trouble == MovingSidecar(true) {
          live, quarantine := live.(db := quarantine.db), quarantine.(db := None);
          return;
        }
        live, quarantine := live.(shm := None), quarantine.(shm := live.shm);
      }
      ok := true;
    }

    /** backup.Restore over the data directory; the archive holds the database before the key. */
    method Unpack(a: Archive, f: Fault, budget: nat, torn: Option<Db>) returns (ok: bool, left: nat, done: bool)
      modifies this`live, this`key
      ensures Now() == After(old(Now()), UnpackOps(a, f), budget, torn)
      ensures done <==> budget >= |UnpackOps(a, f)|
      ensures done ==> left == budget - |UnpackOps(a, f)| && ok == !f.Halfway?
      ensures done ==> live == old(live).(db := Landed(old(live).db, DbWritten(a, f)))
      ensures done ==> key == Over(old(key), KeyWritten(a, f))
      ensures live == old(live).(db := live.db)
      ensures done && f == Fine ==>
        (a.db.Some? ==> live.db == a.db) && key == if a.key.Some? then a.key.value else old(key)
      ensures done && f.LandsBad? && a.db.Some? ==> live.db.Some? && !live.db.value.sound
      ensures done && f.LandsBad? ==> key == if a.key.Some? then a.key.value else old(key)
      ensures done && f.Halfway? ==> key == if f.key.Some? then f.key.value else old(key)
    {
      ok, left, done := !f.Halfway?, budget, false;
      var db, k := DbWritten(a, f), KeyWritten(a, f);
      WrittenIs(a, f);
      hide DbWritten, KeyWritten;
      if db.Some? {
        AfterCons(Now(), WriteDb(db.value), if k.Some? then [WriteKey(k.value)] else [], left, torn);
        if left == 0 {
          live := if torn.Some? then live.(db := torn) else live;
          return;
        }
        left := left - 1;
        live := live.(db := db);
      }
      if k.Some? {
        if left == 0 {
          return;
        }
        left := left - 1;
        key := k.value;
      }
      done := true;
    }

    /** restoreQuarantine */
    method PutBack(budget: nat, ghost torn: Option<Db>) returns (left: nat, done: bool)
      modifies this`live, this`quarantine
      ensures Now() == After(old(Now()), BackOps(old(quarantine)), budget, torn)
      ensures done <==> budget >= |BackOps(old(quarantine))|
      ensures done ==> live == old(quarantine) && quarantine == NOTHING
      ensures !done && old(quarantine).db.Some? ==>
        (live.db.None? <==> budget == 1 || (budget == 0 && old(live).db.None?))
    {
      left, done := budget, false;
      ghost var q := quarantine;
      AfterCons(Now(), Drop(Main), if q.db.Some? then [Back(Main)] + BackWal(q) else BackWal(q), left, torn);
      if left == 0 {
        return;
      }
      left, live := left - 1, live.(db := None);
      if quarantine.db.Some? {
        AfterCons(Now(), Back(Main), BackWal(q), left, torn);
        if left == 0 {
          return;
        }
        left, live, quarantine := left - 1, live.(db := quarantine.db), quarantine.(db := None);
      }
      left, done := PutBackSidecars(left, torn);
    }

    method PutBackSidecars(budget: nat, ghost torn: Option<Db>) returns (left: nat, done: bool)
      modifies this`live, this`quarantine
      ensures Now() == After(old(Now()), BackWal(old(quarantine)), budget, torn)
      ensures done <==> budget >= |BackWal(old(quarantine))|
      ensures done ==> live == old(quarantine).(db := old(live).db) && quarantine == NOTHING.(db := old(quarantine).db)
      ensures live.db == old(live).db
    {
      left, done := budget, false;
      ghost var q := quarantine;
      AfterCons(Now(), Drop(Wal), if q.wal.Some? then [Back(Wal)] + BackShm(q) else BackShm(q), left, torn);
      if left == 0 {
        return;
      }
      left, live := left - 1, live.(wal := None);
      if quarantine.wal.Some? {
        AfterCons(Now(), Back(Wal), BackShm(q), left, torn);
        if left == 0 {
          return;
        }
        left, live, quarantine := left - 1, live.(wal := quarantine.wal), quarantine.(wal := None);
      }
      AfterCons(Now(), Drop(Shm), if q.shm.Some? then [Back(Shm)] else [], left, torn);
      if left == 0 {
        return;
      }
      left, live := left - 1, live.(shm := None);
      if quarantine.shm.Some? {
        if left == 0 {
          return;
        }
        left, live, quarantine := left - 1, live.(shm := quarantine.shm), quarantine.(shm := None);
      }
      done := true;
    }

    /** ensureHealthyDB. A healthy database, or one that cannot be read for another reason, is left
        alone. A corrupt one is replaced by the newest archive that vets, unpacks and checks, with that
        archive's key, and kept in quarantine; if there is none it is back in place with its sidecars.
        A process that dies on the way has carried out exactly the operations it got to. */
    method EnsureHealthy(archives: seq<Archive>, faults: seq<Fault>, trouble: Trouble, budget: nat, torn: Option<Db>)
      returns (outcome: Outcome)
      requires |faults| == |archives| && quarantine == NOTHING
      modifies this
      ensures Now() == After(old(Now()), RecoveryOps(old(live), archives, faults, trouble), budget, torn)
      ensures outcome == Stopped <==> budget < |RecoveryOps(old(live), archives, faults, trouble)|
      ensures Found(old(live).db, trouble) == Corrupt ==>
        (live.db.None? <==> Gone(RecoveryOps(old(live), archives, faults, trouble), budget, torn))
      ensures trouble == FirstCheck || old(live).db.None? || old(live).db.value.sound ==>
        Now() == old(Now()) && (outcome == Running <==> trouble != FirstCheck)
      ensures Found(old(live).db, trouble) == Corrupt && outcome == Running ==>
        quarantine == old(live) && (exists k :: Newest(archives, faults, k)) &&
        forall k :: Newest(archives, faults, k) ==>
          Holds(archives[k], live.db, key) && key == LastKey(archives[..k + 1], faults[..k + 1], old(key))
      ensures trouble != FirstCheck && old(live).db.Some? && !old(live).db.value.sound && outcome == Running ==>
        live.db.Some? && live.db.value.sound && live.db.value.schema.Some? && live.db.value.schema.value <= SCHEMA
      ensures trouble == Smooth && old(live).db.Some? && !old(live).db.value.sound && outcome != Stopped ==>
        (outcome == Refused <==> forall k :: 0 <= k < |archives| ==>
           archives[k].broken || archives[k].db.None? || !archives[k].db.value.sound ||
           archives[k].db.value.schema.None? || archives[k].db.value.schema.value > SCHEMA || faults[k] != Fine)
      ensures Found(old(live).db, trouble) == Corrupt && outcome == Refused ==> live.db == old(live).db && live.db.Some?
      ensures Found(old(live).db, trouble) == Corrupt && trouble == Smooth && outcome != Stopped ==>
        (outcome == Running <==> exists k :: Newest(archives, faults, k)) && (outcome == Refused ==> live == old(live))
      ensures outcome == Refused ==>
        key == if Found(old(live).db, trouble) == Corrupt && trouble != Listing && Movable(old(live), trouble)
               then LastKey(archives, faults, old(key)) else old(key)
    {
      hide Gone, Holds, Usable;
      outcome := Refused;
      if trouble == FirstCheck {
        return;
      }
      if Check(live.db) == Healthy {
        return Running;
      }
      DiesWithoutDatabaseIff(Now(), archives, faults, trouble, budget, torn);
      if trouble == Listing || archives == [] {
        return;
      }
      AfterThen(Now(), AsideOps(live, trouble), WalkOps(archives, faults, 0, live), budget, torn);
      hide After, AsideOps, UnpackOps, BackOps, Vets, DbWritten, KeyWritten, LastKey;
      var aside, left, done := Quarantine(trouble, budget, torn);
      if !done {
        return Stopped;
      }
      if !aside {
        return;
      }
      outcome := Walk(archives, faults, left, torn);
    }

    /** The archives from the newest, and back if none will do. */
    method Walk(archives: seq<Archive>, faults: seq<Fault>, budget: nat, torn: Option<Db>) returns (outcome: Outcome)
      requires |faults| == |archives| && live == NOTHING && quarantine.db.Some?
      modifies this
      ensures Now() == After(old(Now()), WalkOps(archives, faults, 0, old(quarantine)), budget, torn)
      ensures outcome == Stopped <==> budget < |WalkOps(archives, faults, 0, old(quarantine))|
      ensures outcome == Running ==>
        quarantine == old(quarantine) && (exists k :: Newest(archives, faults, k)) &&
        forall k :: Newest(archives, faults, k) ==>
          Holds(archives[k], live.db, key) && key == LastKey(archives[..k + 1], faults[..k + 1], old(key))
      ensures outcome == Running ==>
        live.db.Some? && live.db.value.sound && live.db.value.schema.Some? && live.db.value.schema.value <= SCHEMA
      ensures outcome == Refused ==>
        live == old(quarantine) && forall k :: 0 <= k < |archives| ==> !Usable(archives[k], faults[k])
      ensures outcome != Stopped ==>
        (outcome == Refused <==> forall k :: 0 <= k < |archives| ==>
           archives[k].broken || archives[k].db.None? || !archives[k].db.value.sound ||
           archives[k].db.value.schema.None? || archives[k].db.value.schema.value > SCHEMA || faults[k] != Fine)
      ensures outcome == Refused ==> key == LastKey(archives, faults, old(key))
    {
      var left: nat := budget;
      ghost var q := quarantine;
      hide After, UnpackOps, BackOps, Vets, Usable;
      for i := 0 to |archives|
        invariant live.wal.None? && live.shm.None? && quarantine == q && left <= budget
        invariant After(old(Now()), WalkOps(archives, faults, 0, q), budget, torn)
               == After(Now(), WalkOps(archives, faults, i, q), left, torn)
        invariant |WalkOps(archives, faults, 0, q)| - budget == |WalkOps(archives, faults, i, q)| - left
        invariant forall k :: 0 <= k < i ==> !Usable(archives[k], faults[k])
        invariant key == LastKey(archives[..i], faults[..i], old(key))
      {
        LastKeyOn(archives, faults, i, old(key));
        VetsIff(archives[i], faults[i]);
        if !Vets(archives[i]) {
          continue;
        }
        AfterThen(Now(), UnpackOps(archives[i], faults[i]), WalkOps(archives, faults, i + 1, q), left, torn);
        var unpacked, rest, done := Unpack(archives[i], faults[i], left, torn);
        if !done {
          return Stopped;
        }
        left := rest;
        if !unpacked {
          continue;
        }
        UnpackedChecks(archives[i], faults[i]);
        if Check(live.db) != Healthy {
          continue;
        }
        assert Usable(archives[i], faults[i]);
        UsableLands(archives[i], faults[i]);
        NewestHolds(archives, faults, i, live.db, key, old(key));
        return Running;
      }
      assert archives[..|archives|] == archives && faults[..|archives|] == faults;
      forall k | 0 <= k < |archives|
        ensures archives[k].broken || archives[k].db.None? || !archives[k].db.value.sound ||
          archives[k].db.value.schema.None? || archives[k].db.value.schema.value > SCHEMA || faults[k] != Fine
      {
        UnusableIff(archives[k], faults[k]);
      }
      var rest, done := PutBack(left, torn);
      outcome := if done then Refused else Stopped;
    }
  }

  lemma UsableLands(a: Archive, f: Fault)
    requires Usable(a, f)
    ensures DbWritten(a, f) == a.db && !a.broken && f == Fine && a.db.Some? && a.db.value.sound
    ensures a.db.value.schema.Some? && a.db.value.schema.value <= SCHEMA
  {
  }

  lemma UnusableIff(a: Archive, f: Fault)
    ensures !Usable(a, f) <==>
      (a.broken || a.db.None? || !a.db.value.sound || a.db.value.schema.None? ||
       a.db.value.schema.value > SCHEMA || f != Fine)
  {
  }

  lemma VetsIff(a: Archive, f: Fault)
    ensures Usable(a, f) <==> Vets(a) && f == Fine
  {
  }

  /** The copy of an archive that vetted checks unless it landed badly. */
  lemma UnpackedChecks(a: Archive, f: Fault)
    requires Vets(a) && !f.Halfway?
    ensures DbWritten(a, f).Some? && (Check(DbWritten(a, f)) == Healthy <==> f == Fine)
  {
  }

  lemma NewestIsOne(archives: seq<Archive>, faults: seq<Fault>, j: int, k: int)
    requires Newest(archives, faults, j) && Newest(archives, faults, k)
    ensures j == k
  {
  }

  lemma NewestHolds(archives: seq<Archive>, faults: seq<Fault>, i: int, db: Option<Db>, key: int, was: int)
    requires Newest(archives, faults, i) && Holds(archives[i], db, key)
    requires key == LastKey(archives[..i + 1], faults[..i + 1], was)
    ensures forall k :: Newest(archives, faults, k) ==>
      Holds(archives[k], db, key) && key == LastKey(archives[..k + 1], faults[..k + 1], was)
  {
    forall k | Newest(archives, faults, k) ensures k == i {
      NewestIsOne(archives, faults, i, k);
    }
  }

  /** An archive that holds both leaves the new database under the old key exactly if the process dies
      between the two writes; the next boot takes that database for good. */
  lemma DatabaseUnderTheOldKeyIff(d: Disk, a: Archive, n: nat, torn: Option<Db>)
    requires Vets(a) && a.key.Some? && a.key.value != d.key && d.live.db != a.db && torn != a.db
    ensures var e := After(d, UnpackOps(a, Fine), n, torn);
      (e.live.db == a.db && e.key == d.key <==> n == 1) && (n >= 1 ==> Check(e.live.db) == Healthy)
  {
    AfterCons(d, WriteDb(a.db.value), [WriteKey(a.key.value)], n, torn);
  }

  /** Between the first rename and the first unpacking there is no database, and the next boot takes that
      for a fresh install. */
  method CrashAfterQuarantineReadsAsFresh(db: Db) returns (next: Health)
    requires !db.sound
    ensures Check(Some(db)) == Corrupt && next == Healthy
  {
    var r := new Recovery;
    r.live, r.quarantine, r.key := Files(Some(db), None, None), NOTHING, 0;
    var ok, left, done := r.Quarantine(Smooth, 1, None);
    next := Check(r.live.db);
  }
}
