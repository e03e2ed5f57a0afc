/** serveUoT of internal/anytls/stream.go as it runs: a map of tunnels with a stamp on each, and the
    search for the smallest stamp. It does what the recency list of UdpStream does. */
module UdpServe {
  import opened Common
  import opened UdpStream

  /** A destination's tunnel and the stamp of its last packet. */
  datatype Dest = Dest(conn: Conn, used: nat)

  type Table = map<string, Dest>

  /** The map and the list hold the same tunnels, and stamps rise along the list. */
  ghost predicate Refines(dests: Table, stamp: nat, recent: seq<Tunnel>) {
    && (forall d :: d in dests <==> Has(recent, d))
    && (forall i :: 0 <= i < |recent| ==> Stamped(dests, stamp, recent[i]))
    && (forall i, j :: 0 <= i < j < |recent| && recent[i].dest in dests && recent[j].dest in dests ==>
          dests[recent[i].dest].used < dests[recent[j].dest].used)
    && Distinct(recent)
  }

  predicate Stamped(dests: Table, stamp: nat, t: Tunnel) {
    t.dest in dests && dests[t.dest].conn == t.conn && dests[t.dest].used <= stamp
  }

  lemma WithoutAt(recent: seq<Tunnel>, i: nat, k: nat)
    requires i < |recent| && k < |Without(recent, i)|
    ensures |Without(recent, i)| == |recent| - 1 && Without(recent, i)[k] == recent[if k < i then k else k + 1]
  {
  }

  lemma StampedWithout(dests: Table, stamp: nat, recent: seq<Tunnel>, i: nat, k: nat)
    requires Refines(dests, stamp, recent) && i < |recent| && k < |Without(recent, i)|
    ensures Stamped(dests - {recent[i].dest}, stamp, Without(recent, i)[k])
  {
    WithoutAt(recent, i, k);
    var a := if k < i then k else k + 1;
    hide Has, IsOpen, Without;
    assert Stamped(dests, stamp, recent[a]) && recent[a].dest != recent[i].dest;
  }

  lemma RefinesWithout(dests: Table, stamp: nat, recent: seq<Tunnel>, i: nat)
    requires Refines(dests, stamp, recent) && i < |recent|
    ensures Refines(dests - {recent[i].dest}, stamp, Without(recent, i))
  {
    WithoutKeeps(recent, i);
    var less, table := Without(recent, i), dests - {recent[i].dest};
    hide Has, IsOpen, Without;
    forall k | 0 <= k < |less| ensures Stamped(table, stamp, less[k]) {
      StampedWithout(dests, stamp, recent, i, k);
    }
    hide Stamped, Distinct;
    forall j, k | 0 <= j < k < |less| && less[j].dest in table && less[k].dest in table
      ensures table[less[j].dest].used < table[less[k].dest].used
    {
      WithoutAt(recent, i, j);
      WithoutAt(recent, i, k);
    }
  }

  lemma RefinesStamped(dests: Table, stamp: nat, recent: seq<Tunnel>, t: Tunnel)
    requires Refines(dests, stamp, recent) && t.dest !in dests && !IsOpen(recent, t.conn)
    ensures Refines(dests[t.dest := Dest(t.conn, stamp + 1)], stamp + 1, recent + [t])
  {
    AppendKeeps(recent, t);
    var more, table := recent + [t], dests[t.dest := Dest(t.conn, stamp + 1)];
    forall d ensures d in table <==> Has(more, d) {
      assert more[|recent|] == t;
      if Has(recent, d) {
        var i :| 0 <= i < |recent| && recent[i].dest == d;
        assert more[i].dest == d;
      }
    }
    forall i | 0 <= i < |recent|
      ensures Stamped(table, stamp + 1, more[i]) && table[more[i].dest] == dests[recent[i].dest]
    {
      assert Stamped(dests, stamp, recent[i]) && Has(recent, recent[i].dest);
    }
  }

  /** The smallest stamp is the head of the list. */
  lemma SmallestIsHead(dests: Table, stamp: nat, recent: seq<Tunnel>, key: string)
    requires Refines(dests, stamp, recent) && key in dests
    requires forall d :: d in dests ==> dests[key].used <= dests[d].used
    ensures recent != [] && recent[0].dest == key
  {
    var i :| 0 <= i < |recent| && recent[i].dest == key;
    assert Stamped(dests, stamp, recent[0]);
  }

  lemma SizesAgree(dests: Table, stamp: nat, recent: seq<Tunnel>)
    requires Refines(dests, stamp, recent)
    ensures |dests| == |recent|
    decreases |recent|
  {
    if recent == [] {
      forall d ensures d !in dests {
        assert !Has(recent, d);
      }
      assert dests == map[];
    } else {
      RefinesWithout(dests, stamp, recent, 0);
      var t := recent[0];
      SizesAgree(dests - {t.dest}, stamp, Without(recent, 0));
      assert Stamped(dests, stamp, t);
      assert dests.Keys == (dests - {t.dest}).Keys + {t.dest};
      assert |dests.Keys| == |dests| && |(dests - {t.dest}).Keys| == |dests - {t.dest}|;
    }
  }

  class Stream {
    var dests: Table
    var stamp: nat
    var next: Conn
    var closed: seq<Conn>
    ghost var s: UdpStream.Stream

    ghost predicate Valid()
      reads this
    {
      Refines(dests, stamp, s.recent) && Sound(s) && next == s.next && closed == s.closed
    }

    constructor ()
      ensures Valid() && s == START
    {
      dests, stamp, next, closed := map[], 0, 0, [];
      s := START;
    }

    method Close(key: string)
      requires Valid() && key in dests
      modifies this
      ensures Valid() && Has(old(s).recent, key) && s == Dropped(old(s), Find(old(s).recent, key))
      ensures stamp == old(stamp) && key !in dests
    {
      ghost var i := Find(s.recent, key);
      RefinesWithout(dests, stamp, s.recent, i);
      DroppedIsSound(s, i);
      assert Stamped(dests, stamp, s.recent[i]);
      hide Refines, Sound, Without, Find;
      closed := closed + [dests[key].conn];
      dests := dests - {key};
      s := Dropped(s, i);
    }

    /** evictIdlest: the smallest stamp goes, which is the destination sent to longest ago. */
    method EvictIdlest()
      requires Valid() && dests != map[]
      modifies this
      ensures Valid() && old(s).recent != [] && s == Dropped(old(s), 0) && stamp == old(stamp)
    {
      hide Refines, Sound, Dropped;
      var todo := dests.Keys;
      ghost var w := Witness(todo);
      var key :| key in todo;
      todo := todo - {key};
      while todo != {}
        invariant todo <= dests.Keys && key in dests && dests == old(dests) && s == old(s) && Valid() &&
          stamp == old(stamp)
        invariant forall d :: d in dests && d !in todo ==> dests[key].used <= dests[d].used
        decreases |todo|
      {
        ghost var some := Witness(todo);
        var k :| k in todo;
        todo := todo - {k};
        if dests[k].used < dests[key].used {
          key := k;
        }
      }
      SmallestIsHead(dests, stamp, s.recent, key);
      Close(key);
    }

    /** One write over the tunnel to a destination: it is stamped, or closed if the write fails. */
    method Send(key: string, writes: bool)
      requires Valid() && key in dests
      modifies this
      ensures Valid() && Has(old(s).recent, key) && s == Sent(old(s), key, writes)
    {
      Holds(key);
      if writes {
        Stamp(key);
        return;
      }
      RefinesLater(dests, stamp, s.recent);
      hide Refines, Sound, Without, Dropped, Find;
      stamp := stamp + 1;
      Close(key);
    }

    method Stamp(key: string)
      requires Valid() && key in dests && Has(s.recent, key)
      modifies this
      ensures Valid() && s == Sent(old(s), key, true)
    {
      hide Refines, Sound, Without, Find, Dropped, Has;
      ghost var i := Find(s.recent, key);
      RefinesMoved(dests, stamp, s.recent, i);
      MovedIsSound(s, i);
      stamp := stamp + 1;
      dests := dests[key := dests[key].(used := stamp)];
      s := Sent(s, key, true);
    }

    /** A new tunnel and its first write. */
    method Dial(key: string, writes: bool)
      requires Valid() && key !in dests && |dests| < MAX_DESTS
      modifies this
      ensures Valid() && Has(Opened(old(s), key).recent, key) && s == Sent(Opened(old(s), key), key, writes)
    {
      hide Refines, Sound, Without, Find, Opened, Has, Sent, Dropped, Distinct, Accounted;
      RefinesOpened(dests, stamp, s, key);
      FirstSend(s, key);
      stamp := stamp + 1;
      dests := dests[key := Dest(next, stamp)];
      s := Opened(s, key);
      next := next + 1;
      if !writes {
        Close(key);
      }
    }

    /** One packet of serveUoT's loop. */
    method Handle(p: Packet)
      requires Valid()
      modifies this
      ensures Valid() && s == Step(old(s), p)
    {
      if p.dest.None? {
        return;
      }
      var key := p.dest.value;
      Holds(key);
      hide Refines, Sound, Sent, Opened, Find;
      if key in dests && dests[key].conn in p.dead {
        Close(key);
      }
      Holds(key);
      if key in dests {
        Send(key, p.writes);
        return;
      }
      Size();
      if |dests| >= MAX_DESTS {
        ghost var r := s;
        EvictIdlest();
        HasAfterDrop(r, 0, key);
        DroppedIsSound(r, 0);
      }
      Holds(key);
      Size();
      if !p.dials {
        return;
      }
      Dial(key, p.writes);
    }

    lemma Holds(key: string)
      requires Valid()
      ensures key in dests <==> Has(s.recent, key)
      ensures key in dests ==> dests[key].conn == s.recent[Find(s.recent, key)].conn
    {
      if key in dests { assert Stamped(dests, stamp, s.recent[Find(s.recent, key)]); }
    }

    lemma Size()
      requires Valid()
      ensures |dests| == |s.recent| <= MAX_DESTS
    {
      SizesAgree(dests, stamp, s.recent);
    }

    /** serveUoT: packet by packet as the list does, never more than 64 tunnels; on return every tunnel
        it opened is closed, once. */
    method Serve(packets: seq<Packet>)
      requires Valid() && s == START
      modifies this
      ensures s == Run(packets) && Sound(s)
      ensures NoTwice(closed) && forall c: Conn :: c in closed <==> c < next
    {
      hide Refines, Sound, Step;
      for i := 0 to |packets|
        invariant Valid() && s == Run(packets[..i])
      {
        assert packets[..i + 1][..i] == packets[..i];
        Handle(packets[i]);
      }
      assert packets[..|packets|] == packets;
      CloseAll();
    }

    /** The deferred close of whatever is left, in any order. */
    method CloseAll()
      requires Valid()
      modifies this`closed, this`dests
      ensures NoTwice(closed) && forall c: Conn :: c in closed <==> c < next
    {
      hide Refines, Sound, Accounted;
      TableConns(dests, stamp, s);
      hide Closing, ClosedOf, NoTwice;
      ClosingStarts(dests, s.closed);
      var todo := dests.Keys;
      while todo != {}
        invariant todo <= dests.Keys && dests == old(dests) && s == old(s) && Closing(dests, s.closed, todo, closed)
        decreases |todo|
      {
        ghost var some := Witness(todo);
        var d :| d in todo;
        ClosingGoesOn(dests, s.closed, todo, closed, d);
        closed := closed + [dests[d].conn];
        todo := todo - {d};
      }
      ClosingEnds(dests, s.closed, closed);
    }
  }

  /** A tunnel of the table that is not left to close. */
  predicate ClosedOf(dests: Table, todo: set<string>, c: Conn) {
    exists d :: d in dests && d !in todo && dests[d].conn == c
  }

  /** Of the table's tunnels all but some are closed, each once. */
  ghost predicate Closing(dests: Table, before: seq<Conn>, todo: set<string>, closed: seq<Conn>) {
    NoTwice(closed) && forall c: Conn :: c in closed <==> c in before || ClosedOf(dests, todo, c)
  }

  lemma ClosingStarts(dests: Table, before: seq<Conn>)
    requires NoTwice(before)
    ensures Closing(dests, before, dests.Keys, before)
  {
  }

  lemma ClosingGoesOn(dests: Table, before: seq<Conn>, todo: set<string>, closed: seq<Conn>, d: string)
    requires Closing(dests, before, todo, closed) && todo <= dests.Keys && d in todo
    requires dests[d].conn !in before && forall e :: e in dests && e != d ==> dests[e].conn != dests[d].conn
    ensures Closing(dests, before, todo - {d}, closed + [dests[d].conn])
  {
    var conn := dests[d].conn;
    assert !ClosedOf(dests, todo, conn);
    forall c: Conn ensures ClosedOf(dests, todo - {d}, c) <==> ClosedOf(dests, todo, c) || c == conn {
      if e :| e in dests && e !in todo && dests[e].conn == c {
        assert e !in todo - {d};
      }
    }
    hide ClosedOf;
    forall i | 0 <= i < |closed| ensures closed[i] != conn {
      assert closed[i] in closed;
    }
  }

  lemma ClosingEnds(dests: Table, before: seq<Conn>, closed: seq<Conn>)
    requires Closing(dests, before, {}, closed)
    ensures NoTwice(closed) && forall c: Conn :: c in closed <==> c in before || ClosedOf(dests, {}, c)
  {
  }

  lemma TableConns(dests: Table, stamp: nat, s: UdpStream.Stream)
    requires Refines(dests, stamp, s.recent) && Sound(s)
    ensures NoTwice(s.closed)
    ensures forall d :: d in dests ==> dests[d].conn !in s.closed
    ensures forall d, e :: d in dests && e in dests && d != e ==> dests[d].conn != dests[e].conn
    ensures forall c: Conn :: c < s.next <==> c in s.closed || ClosedOf(dests, {}, c)
  {
    forall d | d in dests ensures dests[d].conn == s.recent[Find(s.recent, d)].conn && IsOpen(s.recent, dests[d].conn) {
      assert Stamped(dests, stamp, s.recent[Find(s.recent, d)]);
    }
    forall c: Conn | IsOpen(s.recent, c) ensures ClosedOf(dests, {}, c) {
      var i :| 0 <= i < |s.recent| && s.recent[i].conn == c;
      assert Stamped(dests, stamp, s.recent[i]);
    }
  }

  /** The tunnel just sent over moves to the end, with the newest stamp. */
  lemma RefinesMoved(dests: Table, stamp: nat, recent: seq<Tunnel>, i: nat)
    requires Refines(dests, stamp, recent) && i < |recent|
    ensures recent[i].dest in dests
    ensures Refines(dests[recent[i].dest := dests[recent[i].dest].(used := stamp + 1)], stamp + 1,
                    Without(recent, i) + [recent[i]])
  {
    var t := recent[i];
    assert Stamped(dests, stamp, t);
    RefinesWithout(dests, stamp, recent, i);
    WithoutKeeps(recent, i);
    hide Refines, Without;
    RefinesStamped(dests - {t.dest}, stamp, Without(recent, i), t);
    assert dests[t.dest := Dest(t.conn, stamp + 1)] == (dests - {t.dest})[t.dest := Dest(t.conn, stamp + 1)];
  }

  lemma RefinesOpened(dests: Table, stamp: nat, s: UdpStream.Stream, key: string)
    requires Refines(dests, stamp, s.recent) && Sound(s) && key !in dests && |dests| < MAX_DESTS
    ensures var o := Opened(s, key);
      Refines(dests[key := Dest(s.next, stamp + 1)], stamp + 1, o.recent) && Sound(o) &&
      o.next == s.next + 1 && o.closed == s.closed
    ensures !Has(s.recent, key)
  {
    SizesAgree(dests, stamp, s.recent);
    OpenedIsSound(s, key);
    RefinesStamped(dests, stamp, s.recent, Tunnel(key, s.next));
  }

  /** The first packet over a new tunnel leaves it where it was added. */
  lemma FirstSend(s: UdpStream.Stream, key: string)
    requires !Has(s.recent, key)
    ensures var o := Opened(s, key);
      Has(o.recent, key) && Sent(o, key, true) == o && Sent(o, key, false) == Dropped(o, Find(o.recent, key))
  {
    var t := Tunnel(key, s.next);
    LastFound(s.recent, t);
    assert Without(s.recent + [t], |s.recent|) == s.recent;
  }

  lemma RefinesLater(dests: Table, stamp: nat, recent: seq<Tunnel>)
    requires Refines(dests, stamp, recent)
    ensures Refines(dests, stamp + 1, recent)
  {
    forall i | 0 <= i < |recent| ensures Stamped(dests, stamp + 1, recent[i]) {
      assert Stamped(dests, stamp, recent[i]);
    }
  }
}
