/** Crash-safe restore of internal/backup/backup.go: an archive is unpacked into a staging area and
    marked ready, and a later boot moves it over the data directory entry by entry. A call may stop,
    by a crash or a failed operation, before any of its operations; the budget says before which. */
module Restore {
  import opened Common

  type Name = string

  /** A top-level entry of a directory: a file or a whole tree. */
  datatype Tree = File(bytes: seq<int>) | Dir(children: map<string, Tree>)

  type Entries = map<Name, Tree>

  /** The data directory without its staging area, the staging area without its marker, the marker. */
  datatype Disk = Disk(live: Entries, staged: Entries, ready: bool)

  const SIDECARS: set<Name> := {"rospanel.db-wal", "rospanel.db-shm"}

  // ---- what must hold ---------------------------------------------------------------------

  /** Outside the archive nothing changes but the sidecars, which may be dropped. */
  ghost predicate Untouched(archive: Entries, old': Entries, live: Entries) {
    && (forall n :: n in live && n !in archive ==> n in old' && live[n] == old'[n])
    && (forall n :: n in old' && n !in archive && n !in SIDECARS ==> n in live)
  }

  /** Each archived entry is still staged or already in place. */
  ghost predicate EachSomewhere(archive: Entries, d: Disk) {
    && d.staged.Keys <= archive.Keys
    && (forall n :: n in archive ==>
          if n in d.staged then d.staged[n] == archive[n] else n in d.live && d.live[n] == archive[n])
  }

  ghost predicate Halfway(archive: Entries, old': Entries, d: Disk) {
    d.ready && EachSomewhere(archive, d) && Untouched(archive, old', d.live)
  }

  /** The data directory is the old one overlaid by the archive, but for the sidecars. */
  ghost predicate Complete(archive: Entries, old': Entries, d: Disk) {
    !d.ready && d.staged == map[] && EachSomewhere(archive, d) && Untouched(archive, old', d.live)
  }

  /** With the sidecars gone that is one directory, whatever happened on the way. */
  lemma CompleteIsOverlay(archive: Entries, old': Entries, d: Disk)
    requires Complete(archive, old', d)
    requires forall n :: n in SIDECARS && n in d.live ==> n in archive
    ensures d.live == (old' - SIDECARS) + archive
  {
    var want := (old' - SIDECARS) + archive;
    assert forall n :: n in d.live <==> n in want;
    assert forall n :: n in want ==> d.live[n] == want[n];
    assert d.live.Keys == want.Keys;
  }

  // ---- single operations ------------------------------------------------------------------

  function Without(d: Disk, gone: set<Name>): Disk {
    d.(live := d.live - gone)
  }

  /** A removal cut short leaves something else in the entry's place, or nothing. */
  function Torn(d: Disk, n: Name, left: Option<Tree>): Disk {
    d.(live := if left.None? then d.live - {n} else d.live[n := left.value])
  }

  function Moved(d: Disk, n: Name): Disk
    requires n in d.staged
  {
    d.(live := d.live[n := d.staged[n]], staged := d.staged - {n})
  }

  /** Dropping the sidecars is safe exactly while no archived one is in place yet. */
  lemma DroppingIsSafeIff(archive: Entries, old': Entries, d: Disk, gone: set<Name>)
    requires Halfway(archive, old', d) && gone <= SIDECARS
    ensures Halfway(archive, old', Without(d, gone)) <==> forall n :: n in gone && n in archive ==> n in d.staged
  {
    var e := Without(d, gone);
    if n :| n in gone && n in archive && n !in d.staged {
      assert n !in e.live;
    }
  }

  /** An entry still staged may be removed from the data directory, wholly or not. */
  lemma RemovingIsSafe(archive: Entries, old': Entries, d: Disk, n: Name, left: Option<Tree>)
    requires Halfway(archive, old', d) && n in d.staged
    ensures Halfway(archive, old', Torn(d, n, left))
  {
  }

  lemma MovingIsSafe(archive: Entries, old': Entries, d: Disk, n: Name)
    requires Halfway(archive, old', d) && n in d.staged
    ensures Halfway(archive, old', Moved(d, n))
  {
  }

  ghost predicate LosesIt(archive: Entries, old': Entries, d: Disk) {
    "rospanel.db-wal" in d.staged && Halfway(archive, old', Moved(d, "rospanel.db-wal")) &&
    !Halfway(archive, old', Without(Moved(d, "rospanel.db-wal"), SIDECARS))
  }

  lemma StagedIsHalfway(archive: Entries, live: Entries)
    ensures Halfway(archive, live, Disk(live, archive, true))
  {
  }

  lemma StagingEmptied(archive: Entries, old': Entries, d: Disk)
    requires Halfway(archive, old', d) && d.staged == map[]
    ensures Complete(archive, old', d.(ready := false))
  {
  }

  /** A boot resumed after the archive's own sidecar has been moved into place drops it for good. */
  lemma ResumingLosesAnArchivedSidecar()
    ensures exists archive, old', d ::
      Halfway(archive, old', d) && d.live == old' && d.staged == archive && LosesIt(archive, old', d)
  {
    var archive: Entries := map["rospanel.db-wal" := File([1]), "rospanel.db" := File([2])];
    var d := Disk(map[], archive, true);
    assert Halfway(archive, map[], d);
    var moved := Moved(d, "rospanel.db-wal");
    MovingIsSafe(archive, map[], d, "rospanel.db-wal");
    DroppingIsSafeIff(archive, map[], moved, SIDECARS);
    assert "rospanel.db-wal" in SIDECARS && "rospanel.db-wal" !in moved.staged;
    assert LosesIt(archive, map[], d);
  }

  /** Removing an older staging area that is still marked ready, and stopping halfway, leaves a restore
      the next boot will apply as if whole. It is whole exactly if what is gone was already in place. */
  lemma TornStagingIsWholeIff(archive: Entries, old': Entries, d: Disk, gone: set<Name>)
    requires Halfway(archive, old', d)
    ensures Halfway(archive, old', d.(staged := d.staged - gone)) <==>
      forall n :: n in gone && n in d.staged ==> n in d.live && d.live[n] == archive[n]
  {
    var e := d.(staged := d.staged - gone);
    if n :| n in gone && n in d.staged && !(n in d.live && d.live[n] == archive[n]) {
      assert n in archive && n !in e.staged;
    }
  }

  // ---- the data directory -----------------------------------------------------------------

  datatype Outcome = NotPending | Applied | Stopped

  /** One boot: how many operations it gets to, which sidecars it cannot remove, and what a removal
      that is cut short leaves behind. */
  datatype Boot = Boot(budget: nat, stuck: set<Name>, left: Option<Tree>)

  class DataDir {
    var live: Entries
    var staged: Entries
    var ready: bool

    function Now(): Disk
      reads this
    {
      Disk(live, staged, ready)
    }

    /** Drops the sidecars it can; a removal that fails is passed over. */
    method DropSidecars(boot: Boot, ghost archive: Entries, ghost old': Entries) returns (left: nat, done: bool)
      requires SIDECARS !! archive.Keys && Halfway(archive, old', Now())
      modifies this`live
      ensures Halfway(archive, old', Now())
      ensures done ==> left == boot.budget - 2 && forall n :: n in SIDECARS && n in live ==> n in boot.stuck
      ensures !done ==> boot.budget < 2
    {
      hide Halfway;
      left, done := boot.budget, false;
      var files := ["rospanel.db-wal", "rospanel.db-shm"];
      for i := 0 to 2
        invariant Halfway(archive, old', Now()) && left == boot.budget - i
        invariant forall k :: 0 <= k < i && files[k] in live ==> files[k] in boot.stuck
      {
        if left == 0 {
          return;
        }
        left := left - 1;
        if files[i] !in boot.stuck {
          DroppingIsSafeIff(archive, old', Now(), {files[i]});
          assert files[i] in SIDECARS;
          live := live - {files[i]};
        }
      }
      done := true;
      assert files[0] == "rospanel.db-wal" && files[1] == "rospanel.db-shm";
    }

    /** Moves the staged entries into place one by one. */
    method MoveEntries(boot: Boot, left0: nat, ghost archive: Entries, ghost old': Entries)
      returns (left: nat, done: bool)
      requires SIDECARS !! archive.Keys && Halfway(archive, old', Now())
      modifies this`live, this`staged
      ensures Halfway(archive, old', Now()) && staged.Keys <= old(staged.Keys)
      ensures done ==> staged == map[] && left == left0 - 2 * |old(staged)|
      ensures !done ==> left0 < 2 * |old(staged)|
      ensures forall n :: n in SIDECARS && n in live ==> n in old(live)
    {
      left, done := left0, false;
      var entries := staged.Keys;
      assert staged.Keys <= archive.Keys;
      hide Halfway, EachSomewhere, Untouched;
      while entries != {}
        invariant entries == staged.Keys <= old(staged.Keys) && staged.Keys <= archive.Keys &&
          Halfway(archive, old', Now())
        invariant forall n :: n in SIDECARS && n in live ==> n in old(live)
        invariant left == left0 - 2 * (|old(staged.Keys)| - |entries|)
        decreases |entries|
      {
        ghost var some := Witness(entries);
        var n :| n in entries;
        if left == 0 {
          RemovingIsSafe(archive, old', Now(), n, boot.left);
          live := if boot.left.None? then live - {n} else live[n := boot.left.value];
          return;
        }
        left := left - 1;
        RemovingIsSafe(archive, old', Now(), n, None);
        live := live - {n};
        if left == 0 {
          return;
        }
        left := left - 1;
        MovingIsSafe(archive, old', Now(), n);
        live, staged := live[n := staged[n]], staged - {n};
        entries := entries - {n};
      }
      done := true;
      assert staged == map[];
      assert |staged.Keys| == |staged|;
    }

    /** ApplyPending. Wherever it stops, each archived entry is staged or in place; when it reports the
        restore applied, or finds none, the data directory is complete, and the sidecars that could
        be removed are gone. */
    method ApplyPending(boot: Boot, ghost archive: Entries, ghost old': Entries) returns (outcome: Outcome)
      requires SIDECARS !! archive.Keys
      requires Halfway(archive, old', Now()) || Complete(archive, old', Now())
      modifies this
      ensures Halfway(archive, old', Now()) || Complete(archive, old', Now())
      ensures outcome != Stopped ==> Complete(archive, old', Now())
      ensures outcome == NotPending <==> !old(ready)
      ensures outcome == NotPending ==> Now() == old(Now())
      ensures outcome == Applied ==> forall n :: n in SIDECARS && n in live ==> n in boot.stuck
      ensures boot.budget >= 2 * |archive| + 4 ==> outcome != Stopped
    {
      if !ready {
        return NotPending;
      }
      SubsetIsNoLarger(staged.Keys, archive.Keys);
      hide EachSomewhere, Untouched;
      outcome := Stopped;
      var left, done := DropSidecars(boot, archive, old');
      if !done {
        return;
      }
      left, done := MoveEntries(boot, left, archive, old');
      if !done || left == 0 {
        return;
      }
      StagingEmptied(archive, old', Now());
      ready := false;
      if left == 1 {
        return;
      }
      outcome := Applied;
    }

    /** systemd restarting the panel until it comes up: it never boots on half-restored data, it does
        come up if some boot is long enough, and then the restore is complete. */
    method BootUntilUp(boots: seq<Boot>, ghost archive: Entries, ghost old': Entries) returns (up: bool)
      requires SIDECARS !! archive.Keys
      requires Halfway(archive, old', Now())
      modifies this
      ensures up ==> Complete(archive, old', Now())
      ensures Halfway(archive, old', Now()) || Complete(archive, old', Now())
      ensures (exists b :: b in boots && b.budget >= 2 * |archive| + 4) ==> up
    {
      for i := 0 to |boots|
        invariant Halfway(archive, old', Now()) || Complete(archive, old', Now())
        invariant forall k :: 0 <= k < i ==> boots[k].budget < 2 * |archive| + 4
      {
        var outcome := ApplyPending(boots[i], archive, old');
        if outcome != Stopped {
          return true;
        }
      }
      up := false;
    }

    /** The archive's entries written into an empty staging area one by one. */
    method Unpack(archive: Entries, budget: nat, left: Tree) returns (rest: nat, done: bool)
      requires staged == map[]
      modifies this`staged
      ensures done ==> staged == archive && rest == budget - |archive|
      ensures !done ==> budget < |archive|
    {
      rest, done := budget, false;
      var todo := archive.Keys;
      while todo != {}
        invariant todo <= archive.Keys && staged == archive - todo
        invariant rest == budget - (|archive.Keys| - |todo|)
        decreases |todo|
      {
        ghost var some := Witness(todo);
        var n :| n in todo;
        if rest == 0 {
          staged := staged[n := left];
          return;
        }
        todo := todo - {n};
        staged := staged[n := archive[n]];
        assert staged == archive - todo;
        rest := rest - 1;
      }
      done := true;
      assert staged == archive;
      assert |archive.Keys| == |archive|;
    }

    /** StageRestore: whatever happens to it, nothing live changes, and the marker is written only over
        a staging area that holds the whole archive. Removing an older one counts as one operation. */
    method StageRestore(archive: Entries, broken: bool, budget: nat, left: Tree) returns (staged': bool)
      modifies this`staged, this`ready
      ensures ready ==> staged == archive || (staged == old(staged) && old(ready))
      ensures staged' ==> ready && !broken && Halfway(archive, live, Now())
      ensures !broken && budget >= |archive| + 3 ==> staged'
      ensures broken && budget >= |archive| + 3 ==> !ready && staged == map[]
    {
      StagedIsHalfway(archive, live);
      hide Halfway;
      staged' := false;
      if budget == 0 {
        return;
      }
      staged, ready := map[], false;
      if budget == 1 {
        return;
      }
      var rest, done := Unpack(archive, budget - 2, left);
      if !done || rest == 0 {
        return;
      }
      if broken {
        staged := map[];
        return;
      }
      ready := true;
      staged' := true;
    }
  }
}
