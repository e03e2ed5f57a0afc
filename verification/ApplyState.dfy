/** The fields the two passes share, as the object internal/core/manager.go keeps them in: `applied`,
    `rekeyed` and `rekeySeq` under their mutex. Each method is one critical section, proved to be
    the step ConfigApply takes there. */
module ApplyState {
  import opened Common
  import opened ConfigApply

  datatype User = User(id: Id, key: nat)

  function IdsOf(users: seq<User>): set<Id> {
    set u | u in users :: u.id
  }

  ghost predicate DistinctUsers(users: seq<User>) {
    forall i, j :: 0 <= i < j < |users| ==> users[i].id != users[j].id
  }

  ghost predicate Distinct(ids: seq<Id>) {
    forall i, j :: 0 <= i < j < |ids| ==> ids[i] != ids[j]
  }

  lemma {:induction false} DistinctCount(ids: seq<Id>)
    requires Distinct(ids)
    ensures |set id | id in ids| == |ids|
  {
    if ids != [] {
      var front, last := ids[..|ids| - 1], ids[|ids| - 1];
      DistinctCount(front);
      assert ids == front + [last];
      assert (set id | id in ids) == (set id | id in front) + {last};
    }
  }

  class Registry {
    var applied: set<Id>
    var rekeyed: map<Id, nat>
    var rekeySeq: nat

    constructor ()
      ensures applied == {} && rekeyed == map[] && rekeySeq == 0
    {
      applied, rekeyed, rekeySeq := {}, map[], 0;
    }

    /** The part of a state this object holds. */
    ghost predicate Holds(s: State)
      reads this
    {
      applied == s.applied && rekeyed == s.rekeyed && rekeySeq == s.rekeySeq
    }

    method MarkRekeyed(id: Id)
      modifies this
      ensures applied == old(applied) && rekeySeq == old(rekeySeq) + 1
      ensures rekeyed == old(rekeyed)[id := rekeySeq]
      ensures forall s: State :: old(Holds(s)) && StoreEnabled(s, MarkKey(id)) ==> Holds(TakeStore(s, MarkKey(id)))
    {
      rekeySeq := rekeySeq + 1;
      rekeyed := rekeyed[id := rekeySeq];
    }

    /** The number both passes read the credentials under: no rekey marked so far is past it. */
    method RekeyedUpTo() returns (upTo: nat)
      ensures upTo == rekeySeq
      ensures forall s: State :: Holds(s) && SyncEnabled(s, SyncCount) ==>
        TakeSync(s, SyncCount).pc == SyncReading(upTo)
      ensures forall s: State :: Holds(s) && FullEnabled(s, FullCount) ==>
        TakeFull(s, FullCount).pc == FullReading(upTo)
      ensures forall s: State, id :: Holds(s) && Inv(s) && id in rekeyed ==> Carried(rekeyed, upTo, id)
    {
      upTo := rekeySeq;
      hide PcInv, Issued, NoOlderThan, StaleAreFlagged;
    }

    method ClearRekeyed(upTo: nat)
      modifies this
      ensures applied == old(applied) && rekeySeq == old(rekeySeq)
      ensures rekeyed == Uncarried(old(rekeyed), upTo)
    {
      var left := rekeyed.Keys;
      while left != {}
        invariant left <= old(rekeyed).Keys
        invariant forall id :: id in rekeyed <==> id in old(rekeyed) && (id in left || old(rekeyed)[id] > upTo)
        invariant forall id :: id in rekeyed ==> rekeyed[id] == old(rekeyed)[id]
        invariant applied == old(applied) && rekeySeq == old(rekeySeq)
        decreases |left|
      {
        ghost var next := Witness(left);
        var id :| id in left;
        if rekeyed[id] <= upTo {
          rekeyed := rekeyed - {id};
        }
        left := left - {id};
      }
      ghost var want := Uncarried(old(rekeyed), upTo);
      assert forall id :: id in rekeyed <==> id in want;
      assert rekeyed.Keys == want.Keys;
      assert forall id :: id in rekeyed ==> rekeyed[id] == want[id];
    }

    method SetApplied(users: seq<User>, upTo: nat)
      modifies this
      ensures applied == IdsOf(users) && rekeySeq == old(rekeySeq)
      ensures rekeyed == Uncarried(old(rekeyed), upTo)
    {
      var ids: set<Id> := {};
      for i := 0 to |users|
        invariant ids == IdsOf(users[..i])
        invariant applied == old(applied) && rekeyed == old(rekeyed) && rekeySeq == old(rekeySeq)
      {
        ids := ids + {users[i].id};
        assert users[..i + 1] == users[..i] + [users[i]];
      }
      assert users[..|users|] == users;
      applied := ids;
      ClearRekeyed(upTo);
    }

    /** Comparing the lengths and looking each id up compares the sets, as the ids are a column of
        distinct keys. */
    method WorkingIDsChanged(ids: seq<Id>) returns (changed: bool)
      requires Distinct(ids)
      ensures changed == IdsChanged((set id | id in ids), applied, rekeyed)
    {
      DistinctCount(ids);
      if |ids| != |applied| || |rekeyed| > 0 {
        return true;
      }
      for i := 0 to |ids|
        invariant forall j :: 0 <= j < i ==> ids[j] in applied
      {
        if ids[i] !in applied {
          return true;
        }
      }
      SubsetIsNoLarger((set id | id in ids), applied);
      changed := false;
    }

    /** Who the live sync takes off Xray, each named once, and who it puts on, in the order read. */
    method DiffUsers(users: seq<User>, upTo: nat) returns (removed: seq<Id>, added: seq<User>)
      requires DistinctUsers(users)
      ensures Distinct(removed)
      ensures (set id | id in removed) == ToRemove(applied, rekeyed, IdsOf(users), upTo)
      ensures DistinctUsers(added) && (forall u :: u in added ==> u in users)
      ensures IdsOf(added) == ToAdd(applied, rekeyed, IdsOf(users), upTo)
    {
      removed, added := [], [];
      var working: set<Id> := IdsOf(users);
      var left := applied;
      while left != {}
        invariant left <= applied
        invariant Distinct(removed)
        invariant forall id :: id in removed <==> id in applied && id !in left && id !in working
        decreases |left|
      {
        ghost var next := Witness(left);
        var id :| id in left;
        if id !in working {
          removed := removed + [id];
        }
        left := left - {id};
      }
      for i := 0 to |users|
        invariant Distinct(removed)
        invariant forall id :: id in removed <==>
          id in applied && (id !in working || (id in IdsOf(users[..i]) && Carried(rekeyed, upTo, id)))
        invariant DistinctUsers(added)
        invariant forall u :: u in added <==>
          u in users[..i] && (u.id !in applied || Carried(rekeyed, upTo, u.id))
      {
        var u := users[i];
        var had := u.id in applied;
        assert users[..i + 1] == users[..i] + [u];
        assert u.id !in IdsOf(users[..i]);
        assert u in users && u.id in working;
        if had && u.id in rekeyed && rekeyed[u.id] <= upTo {
          removed := removed + [u.id];
          had := false;
        }
        if !had {
          added := added + [u];
        }
      }
      assert users[..|users|] == users;
      assert forall id :: id in removed <==> id in ToRemove(applied, rekeyed, working, upTo);
    }
  }
}
