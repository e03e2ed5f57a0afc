/** The AnyTLS lane's registry (internal/anytls/anytls.go, stream.go): who is let in, which sessions are
    tracked, and how many tunnels to Xray each user has. Every method is one critical section of the
    server's mutex, so what each keeps holds in every interleaving of them. */
module AnyTlsServer {
  import opened Common

  /** maxConnsPerUser */
  const MAX_CONNS := 1024

  /** An account as it is handed over; a UUID that does not parse lets nobody in. */
  datatype User = User(email: string, uuid: string, parses: bool)

  predicate LetIn(u: User) {
    u.parses && u.email != ""
  }

  /** By e-mail, the last of an e-mail's accounts. */
  function Accounts(users: seq<User>): map<string, string> {
    if users == [] then map[]
    else
      var m, u := Accounts(users[..|users| - 1]), users[|users| - 1];
      if LetIn(u) then m[u.email := u.uuid] else m
  }

  /** The user's last account that lets anybody in. */
  predicate LastOf(users: seq<User>, i: int, email: string) {
    0 <= i < |users| && users[i].email == email != "" && users[i].parses &&
    forall k :: i < k < |users| && users[k].email == email ==> !users[k].parses
  }

  /** A user has an account exactly if one of theirs parses, and it is the last that does. */
  lemma {:induction false} AccountsAreTheLast(users: seq<User>, email: string)
    ensures email in Accounts(users) <==> exists i :: LastOf(users, i, email)
    ensures forall i :: LastOf(users, i, email) ==> email in Accounts(users) && Accounts(users)[email] == users[i].uuid
  {
    if users != [] {
      var n := |users| - 1;
      var rest := users[..n];
      AccountsAreTheLast(rest, email);
      if users[n].email == email && LetIn(users[n]) {
        assert LastOf(users, n, email);
      } else {
        assert forall i :: LastOf(users, i, email) <==> LastOf(rest, i, email);
      }
    }
  }

  /** How many places of a table a user holds. */
  ghost function Held<K>(table: map<K, string>, email: string): nat {
    |set k | k in table && table[k] == email|
  }

  lemma HeldMore<K>(table: map<K, string>, k: K, owner: string, email: string)
    requires k !in table
    ensures Held(table[k := owner], email) == Held(table, email) + if email == owner then 1 else 0
  {
    var more := table[k := owner];
    var before, after := set x | x in table && table[x] == email, set x | x in more && more[x] == email;
    assert forall x :: x in before ==> x in after;
    assert k !in before && (k in after <==> email == owner);
    if email == owner {
      assert after == before + {k};
    } else {
      assert after == before;
    }
  }

  lemma HeldLess<K>(table: map<K, string>, k: K, email: string)
    requires k in table
    ensures Held(table, email) == Held(table - {k}, email) + if email == table[k] then 1 else 0
  {
    var less := table - {k};
    HeldMore(less, k, table[k], email);
    assert less[k := table[k]] == table;
  }

  class Session {
    var email: string
    var uuid: string
    var closed: bool
    /** The client's connection is open. */
    var open: bool

    ghost predicate Sound()
      reads this
    {
      closed ==> !open
    }

    constructor ()
      ensures !closed && open
    {
      email, uuid, closed, open := "", "", false, true;
    }

    /** Closes the connection, once. */
    method Close() returns (first: bool)
      requires Sound()
      modifies this`closed, this`open
      ensures closed && !open && first == !old(closed)
    {
      first := !closed;
      if closed {
        return;
      }
      closed := true;
      open := false;
    }
  }

  /** An open connection to Xray; it gives its place back on the first close. */
  class Tunnel {
    const email: string
    var released: bool

    constructor (email: string)
      ensures this.email == email && !released
    {
      this.email := email;
      released := false;
    }
  }

  class Server {
    var users: map<string, string>
    var sessions: set<Session>
    var perUser: map<string, nat>
    /** The closes SetUsers has started that have yet to run. */
    var closers: set<Session>
    /** The places taken by dials underway, and by tunnels not yet closed. */
    ghost var dials: map<int, string>
    ghost var tunnels: map<Tunnel, string>

    predicate Matches(ss: Session)
      reads this`users, ss`email, ss`uuid
    {
      ss.email in users && users[ss.email] == ss.uuid
    }

    /** Each tracked session is on a current account's UUID, or closed, or about to be. */
    ghost predicate KnownOrClosing()
      reads this`users, this`sessions, this`closers, sessions, closers
    {
      && (forall ss :: ss in sessions ==> Matches(ss) || ss.closed || ss in closers)
      && (forall ss :: ss in sessions + closers ==> ss.Sound())
    }

    function Count(email: string): nat
      reads this`perUser
    {
      if email in perUser then perUser[email] else 0
    }

    /** A user's count is their reservations plus their open tunnels, within the limit. */
    ghost predicate Counted(email: string)
      reads this`perUser, this`dials, this`tunnels
    {
      Count(email) == Held(dials, email) + Held(tunnels, email) && Count(email) <= MAX_CONNS
    }

    ghost predicate Valid()
      reads this, sessions, closers, tunnels.Keys
    {
      KnownOrClosing() && AllCounted() && (forall t :: t in tunnels ==> !t.released && tunnels[t] == t.email)
    }

    ghost predicate AllCounted()
      reads this`perUser, this`dials, this`tunnels
    {
      forall email :: Counted(email)
    }

    constructor ()
      ensures Valid() && users == map[] && sessions == {} && perUser == map[]
    {
      users, sessions, closers, perUser := map[], {}, {}, map[];
      dials, tunnels := map[], map[];
    }

    // ---- accounts and sessions ------------------------------------------------------------

    static method AccountsOf(list: seq<User>) returns (m: map<string, string>)
      ensures m == Accounts(list)
    {
      m := map[];
      for i := 0 to |list|
        invariant m == Accounts(list[..i])
      {
        assert list[..i + 1][..i] == list[..i];
        var u := list[i];
        if !u.parses || u.email == "" {
          continue;
        }
        m := m[u.email := u.uuid];
      }
      assert list[..|list|] == list;
    }

    /** The tracked sessions the accounts no longer cover. */
    method Uncovered() returns (gone: set<Session>)
      ensures forall ss :: ss in gone <==> ss in sessions && !Matches(ss)
    {
      gone := {};
      var todo := sessions;
      while todo != {}
        invariant todo <= sessions
        invariant forall ss :: ss in gone <==> ss in sessions - todo && !Matches(ss)
        decreases |todo|
      {
        ghost var some := Witness(todo);
        var ss :| ss in todo;
        todo := todo - {ss};
        if ss.email !in users || users[ss.email] != ss.uuid {
          gone := gone + {ss};
        }
      }
    }

    /** SetUsers: the accounts are replaced, and exactly the sessions they no longer cover start to close. */
    method SetUsers(list: seq<User>) returns (gone: set<Session>)
      requires Valid()
      modifies this`users, this`closers
      ensures Valid() && users == Accounts(list)
      ensures forall email, i :: LastOf(list, i, email) ==> email in users && users[email] == list[i].uuid
      ensures forall ss :: ss in gone <==>
        ss in sessions && !exists i :: LastOf(list, i, ss.email) && list[i].uuid == ss.uuid
      ensures closers == old(closers) + gone
    {
      hide Accounts, AllCounted;
      users := AccountsOf(list);
      gone := StartClosing();
      hide KnownOrClosing, LastOf;
      forall email {
        AccountsAreTheLast(list, email);
      }
    }

    method StartClosing() returns (gone: set<Session>)
      requires forall ss :: ss in sessions + closers ==> ss.Sound()
      modifies this`closers
      ensures KnownOrClosing() && closers == old(closers) + gone
      ensures forall ss :: ss in gone <==> ss in sessions && !Matches(ss)
    {
      gone := Uncovered();
      closers := closers + gone;
    }

    /** One of the closes SetUsers started, whenever it gets to run. */
    method RunCloser(ss: Session)
      requires Valid() && ss in closers
      modifies this`closers, ss`closed, ss`open
      ensures Valid() && closers == old(closers) - {ss}
      ensures ss.closed && !ss.open
    {
      hide AllCounted;
      var first := ss.Close();
      closers := closers - {ss};
    }

    /** Main result. Once the closes it started have run, in whatever order, and whatever else was tracked,
        untracked or replaced in between, the only open connections tracked are on current accounts. */
    lemma StaleAreClosed()
      requires Valid() && closers == {}
      ensures forall ss :: ss in sessions && ss.open ==> ss.email in users && users[ss.email] == ss.uuid
    {
      assert forall ss :: ss in sessions ==> ss.Sound();
    }

    /** All that have been started, one after another. */
    method RunClosers()
      requires Valid()
      modifies this`closers, closers`closed, closers`open
      ensures Valid() && closers == {}
      ensures forall ss :: ss in old(closers) ==> !ss.open
      ensures forall ss :: ss in sessions && ss.open ==> Matches(ss)
    {
      ghost var all := closers;
      while closers != {}
        invariant Valid() && closers <= all
        invariant forall ss :: ss in all && ss !in closers ==> !ss.open
        decreases |closers|
      {
        ghost var some := Witness(closers);
        var ss :| ss in closers;
        RunCloser(ss);
      }
      StaleAreClosed();
    }

    /** track: a stream is let in exactly when its account is current on that UUID; its session is then
        tracked under the first such account. */
    method Track(ss: Session, email: string, uuid: string) returns (ok: bool)
      requires Valid() && ss.Sound()
      modifies this`sessions, ss`email, ss`uuid
      ensures Valid()
      ensures ok <==> email in users && users[email] == uuid
      ensures sessions == if ok then old(sessions) + {ss} else old(sessions)
      ensures if ok && ss !in old(sessions) then ss.email == email && ss.uuid == uuid
              else ss.email == old(ss.email) && ss.uuid == old(ss.uuid)
    {
      ok := email in users && users[email] == uuid;
      if ok && ss !in sessions {
        ss.email, ss.uuid := email, uuid;
        sessions := sessions + {ss};
      }
    }

    method Untrack(ss: Session)
      requires Valid()
      modifies this`sessions
      ensures Valid() && sessions == old(sessions) - {ss}
    {
      sessions := sessions - {ss};
    }

    // ---- tunnels --------------------------------------------------------------------------

    /** reserve: a place for a dial, unless the user has them all. */
    method Reserve(email: string, ghost dial: int) returns (ok: bool)
      requires Valid() && dial !in dials
      modifies this`perUser, this`dials
      ensures Valid()
      ensures ok <==> old(Count(email)) < MAX_CONNS
      ensures dials == if ok then old(dials)[dial := email] else old(dials)
      ensures forall e :: Count(e) == old(Count(e)) + if ok && e == email then 1 else 0
    {
      hide Held;
      ok := Count(email) < MAX_CONNS;
      if ok {
        perUser := perUser[email := Count(email) + 1];
        dials := dials[dial := email];
        forall e ensures Counted(e) {
          assert old(Counted(e));
          HeldMore(old(dials), dial, email, e);
        }
      }
    }

    /** release: one place less. */
    method Release(email: string)
      modifies this`perUser
      ensures forall e :: Count(e) == if e == email && old(Count(e)) > 0 then old(Count(e)) - 1 else old(Count(e))
    {
      if Count(email) <= 1 {
        perUser := perUser - {email};
      } else {
        perUser := perUser[email := Count(email) - 1];
      }
    }

    /** A dial that failed gives its place back. */
    method DialFailed(ghost dial: int, email: string)
      requires Valid() && dial in dials && dials[dial] == email
      modifies this`perUser, this`dials
      ensures Valid() && dials == old(dials) - {dial}
      ensures forall e :: Count(e) == old(Count(e)) - if e == email then 1 else 0
    {
      assert Counted(email);
      HeldLess(dials, dial, email);
      assert Count(email) > 0;
      hide Held;
      Release(email);
      dials := dials - {dial};
      forall e ensures Counted(e) {
        assert old(Counted(e));
        HeldLess(old(dials), dial, e);
      }
    }

    /** A dial that went through hands its place to the tunnel. */
    method Dialed(ghost dial: int, email: string) returns (t: Tunnel)
      requires Valid() && dial in dials && dials[dial] == email
      modifies this`dials, this`tunnels
      ensures Valid() && fresh(t) && t.email == email && !t.released
      ensures dials == old(dials) - {dial} && tunnels == old(tunnels)[t := email]
    {
      hide Held;
      t := new Tunnel(email);
      dials, tunnels := dials - {dial}, tunnels[t := email];
      forall e ensures Counted(e) {
        assert old(Counted(e));
        HeldLess(old(dials), dial, e);
        HeldMore(old(tunnels), t, email, e);
      }
    }

    /** xrayConn.Close: the place goes back the first time, and only then. */
    method CloseTunnel(t: Tunnel)
      requires Valid() && (t in tunnels <==> !t.released)
      modifies this`perUser, this`tunnels, t`released
      ensures Valid() && t.released && tunnels == old(tunnels) - {t}
      ensures forall e :: Count(e) == old(Count(e)) - if e == t.email && !old(t.released) then 1 else 0
    {
      hide Held;
      ghost var was := tunnels;
      if t.released {
        assert tunnels - {t} == tunnels;
        return;
      }
      assert Counted(t.email);
      HeldLess(was, t, t.email);
      assert Count(t.email) > 0;
      t.released := true;
      Release(t.email);
      tunnels := tunnels - {t};
      forall e ensures Counted(e) {
        assert old(Counted(e));
        HeldLess(was, t, e);
      }
    }

    /** dialXray: a place is taken exactly by a dial that ends in an open tunnel; one refused, not
        connected or not written to leaves every count as it was. */
    method DialXray(email: string, connects: bool, writes: bool, ghost dial: int) returns (t: Option<Tunnel>)
      requires Valid() && dial !in dials
      modifies this`perUser, this`dials, this`tunnels
      ensures Valid() && dials == old(dials)
      ensures t.Some? <==> old(Count(email)) < MAX_CONNS && connects && writes
      ensures t.None? ==> tunnels == old(tunnels) && forall e :: Count(e) == old(Count(e))
      ensures t.Some? ==> fresh(t.value) && tunnels == old(tunnels)[t.value := email] && !t.value.released
      ensures t.Some? ==> forall e :: Count(e) == old(Count(e)) + if e == email then 1 else 0
    {
      t := None;
      var ok := Reserve(email, dial);
      if !ok {
        return;
      }
      assert dials - {dial} == old(dials);
      if !connects {
        DialFailed(dial, email);
        return;
      }
      var conn := Dialed(dial, email);
      if !writes {
        CloseTunnel(conn);
        assert tunnels == old(tunnels);
        return;
      }
      t := Some(conn);
    }
  }
}
