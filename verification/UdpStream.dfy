/** One UDP-over-TCP stream of internal/anytls/stream.go: a table of tunnels by destination, stamped on
    every packet, refines a list kept in the order of the last packet sent. */
module UdpStream {
  import opened Common

  type Conn = nat

  /** maxUDPDests */
  const MAX_DESTS := 64

  /** A packet as the stream meets it: its destination if it names one, the tunnels whose Xray end has
      died by then, and whether a dial and the write would go through. */
  datatype Packet = Packet(dest: Option<string>, dead: set<Conn>, dials: bool, writes: bool)

  datatype Tunnel = Tunnel(dest: string, conn: Conn)

  /** The reference: tunnels by last packet sent, the quietest first; how many were ever opened; and the
      ones closed, in order. */
  datatype Stream = Stream(recent: seq<Tunnel>, next: Conn, closed: seq<Conn>)

  const START := Stream([], 0, [])

  predicate Has(recent: seq<Tunnel>, dest: string) {
    exists i :: 0 <= i < |recent| && recent[i].dest == dest
  }

  function Find(recent: seq<Tunnel>, dest: string): (i: nat)
    requires Has(recent, dest)
    ensures i < |recent| && recent[i].dest == dest
  {
    if recent[0].dest == dest then 0
    else
      assert Has(recent[1..], dest) by {
        var i :| 0 <= i < |recent| && recent[i].dest == dest;
        assert recent[1..][i - 1].dest == dest;
      }
      1 + Find(recent[1..], dest)
  }

  function Without(recent: seq<Tunnel>, i: nat): seq<Tunnel>
    requires i < |recent|
  {
    recent[..i] + recent[i + 1..]
  }

  /** Close tunnel i and forget it. */
  function Dropped(s: Stream, i: nat): Stream
    requires i < |s.recent|
  {
    Stream(Without(s.recent, i), s.next, s.closed + [s.recent[i].conn])
  }

  /** A tunnel found dead is closed before the packet is sent. */
  function Reaped(s: Stream, dest: string, dead: set<Conn>): Stream {
    if Has(s.recent, dest) && s.recent[Find(s.recent, dest)].conn in dead then Dropped(s, Find(s.recent, dest)) else s
  }

  /** Past the limit the one quiet longest makes room. */
  function Roomy(s: Stream): Stream {
    if |s.recent| >= MAX_DESTS then Dropped(s, 0) else s
  }

  function Opened(s: Stream, dest: string): Stream {
    Stream(s.recent + [Tunnel(dest, s.next)], s.next + 1, s.closed)
  }

  /** Over an open tunnel: it becomes the last one sent to, or is closed if the write fails. */
  function Sent(s: Stream, dest: string, writes: bool): Stream
    requires Has(s.recent, dest)
  {
    var i := Find(s.recent, dest);
    if writes then s.(recent := Without(s.recent, i) + [s.recent[i]]) else Dropped(s, i)
  }

  function Step(s: Stream, p: Packet): Stream {
    if p.dest.None? then s
    else
      var dest := p.dest.value;
      var r := Reaped(s, dest, p.dead);
      if Has(r.recent, dest) then Sent(r, dest, p.writes)
      else
        var roomy := Roomy(r);
        if !p.dials then roomy
        else
          var o := Opened(roomy, dest);
          assert o.recent[|o.recent| - 1].dest == dest;
          Sent(o, dest, p.writes)
  }

  function Run(packets: seq<Packet>): Stream {
    if packets == [] then START else Step(Run(packets[..|packets| - 1]), packets[|packets| - 1])
  }

  predicate IsOpen(recent: seq<Tunnel>, c: Conn) {
    exists i :: 0 <= i < |recent| && recent[i].conn == c
  }

  // ---- what the reference keeps -----------------------------------------------------------

  predicate Distinct(recent: seq<Tunnel>) {
    forall i, j :: 0 <= i < j < |recent| ==> recent[i].dest != recent[j].dest && recent[i].conn != recent[j].conn
  }

  predicate NoTwice(s: seq<Conn>) {
    forall i, j :: 0 <= i < j < |s| ==> s[i] != s[j]
  }

  /** Every tunnel ever opened is either open or closed, and closed once. */
  ghost predicate Accounted(s: Stream) {
    && NoTwice(s.closed)
    && (forall c: Conn :: c in s.closed ==> c < s.next && !IsOpen(s.recent, c))
    && (forall c: Conn :: IsOpen(s.recent, c) ==> c < s.next)
    && (forall c: Conn :: c < s.next ==> c in s.closed || IsOpen(s.recent, c))
  }

  /** Besides, at most one tunnel a destination and 64 in all. */
  ghost predicate Sound(s: Stream) {
    Distinct(s.recent) && |s.recent| <= MAX_DESTS && Accounted(s)
  }

  lemma WithoutKeeps(recent: seq<Tunnel>, i: nat)
    requires Distinct(recent) && i < |recent|
    ensures Distinct(Without(recent, i)) && |Without(recent, i)| == |recent| - 1
    ensures forall c: Conn :: IsOpen(Without(recent, i), c) <==> IsOpen(recent, c) && c != recent[i].conn
    ensures forall d: string :: Has(Without(recent, i), d) <==> Has(recent, d) && d != recent[i].dest
  {
    var less := Without(recent, i);
    assert forall k :: 0 <= k < |less| ==> less[k] == recent[if k < i then k else k + 1];
    forall c: Conn ensures IsOpen(less, c) <==> IsOpen(recent, c) && c != recent[i].conn {
      if IsOpen(recent, c) && c != recent[i].conn {
        var k :| 0 <= k < |recent| && recent[k].conn == c;
        assert less[if k < i then k else k - 1].conn == c;
      }
    }
    forall d: string ensures Has(less, d) <==> Has(recent, d) && d != recent[i].dest {
      if Has(recent, d) && d != recent[i].dest {
        var k :| 0 <= k < |recent| && recent[k].dest == d;
        assert less[if k < i then k else k - 1].dest == d;
      }
    }
  }

  lemma AppendKeeps(recent: seq<Tunnel>, t: Tunnel)
    requires Distinct(recent) && !IsOpen(recent, t.conn) && !Has(recent, t.dest)
    ensures Distinct(recent + [t])
    ensures forall c: Conn :: IsOpen(recent + [t], c) <==> IsOpen(recent, c) || c == t.conn
  {
    var more := recent + [t];
    forall c: Conn ensures IsOpen(more, c) <==> IsOpen(recent, c) || c == t.conn {
      assert more[|recent|] == t;
      if IsOpen(recent, c) {
        var k :| 0 <= k < |recent| && recent[k].conn == c;
        assert more[k].conn == c;
      }
    }
  }

  lemma DroppedIsSound(s: Stream, i: nat)
    requires Sound(s) && i < |s.recent|
    ensures Sound(Dropped(s, i)) && |Dropped(s, i).recent| == |s.recent| - 1
  {
    WithoutKeeps(s.recent, i);
    assert IsOpen(s.recent, s.recent[i].conn);
    hide Without, IsOpen, Distinct, Has;
    var t := Dropped(s, i);
    forall c: Conn ensures c in t.closed <==> c in s.closed || c == s.recent[i].conn {
    }
    assert NoTwice(t.closed) by {
      forall k | 0 <= k < |s.closed| ensures s.closed[k] != s.recent[i].conn {
        assert s.closed[k] in s.closed;
      }
    }
  }

  lemma MovedIsSound(s: Stream, i: nat)
    requires Sound(s) && i < |s.recent|
    ensures Sound(s.(recent := Without(s.recent, i) + [s.recent[i]]))
  {
    WithoutKeeps(s.recent, i);
    assert IsOpen(s.recent, s.recent[i].conn);
    AppendKeeps(Without(s.recent, i), s.recent[i]);
    hide Without, IsOpen, Distinct, Has;
  }

  lemma OpenedIsSound(s: Stream, dest: string)
    requires Sound(s) && !Has(s.recent, dest) && |s.recent| < MAX_DESTS
    ensures Sound(Opened(s, dest))
  {
    AppendKeeps(s.recent, Tunnel(dest, s.next));
    hide IsOpen, Distinct, Has;
  }

  lemma HasAfterDrop(s: Stream, i: nat, dest: string)
    requires i < |s.recent| && !Has(s.recent, dest)
    ensures !Has(Dropped(s, i).recent, dest)
  {
    var t := Dropped(s, i);
    assert forall k :: 0 <= k < |t.recent| ==> t.recent[k] == s.recent[if k < i then k else k + 1];
  }

  lemma StepIsSound(s: Stream, p: Packet)
    requires Sound(s)
    ensures Sound(Step(s, p))
  {
    hide Sound, Find, Without;
    if p.dest.Some? {
      var dest := p.dest.value;
      var r := Reaped(s, dest, p.dead);
      if r != s { DroppedIsSound(s, Find(s.recent, dest)); }
      if Has(r.recent, dest) {
        SentIsSound(r, dest, p.writes);
      } else {
        var roomy := Roomy(r);
        if |r.recent| >= MAX_DESTS {
          DroppedIsSound(r, 0);
          HasAfterDrop(r, 0, dest);
          SizeBound(r);
        }
        if p.dials {
          OpenedIsSound(roomy, dest);
          var o := Opened(roomy, dest);
          assert o.recent[|o.recent| - 1].dest == dest;
          SentIsSound(o, dest, p.writes);
        }
      }
    }
  }

  lemma SizeBound(s: Stream)
    requires Sound(s)
    ensures |s.recent| <= MAX_DESTS
  {
  }

  lemma SentIsSound(s: Stream, dest: string, writes: bool)
    requires Sound(s) && Has(s.recent, dest)
    ensures Sound(Sent(s, dest, writes))
  {
    DroppedIsSound(s, Find(s.recent, dest));
    MovedIsSound(s, Find(s.recent, dest));
    hide Sound;
  }

  /** Main result on the reference: over any packets the table stays within its limit, and once the rest
      is closed at the end, every tunnel ever opened has been closed exactly once. */
  lemma {:induction false} RunIsSound(packets: seq<Packet>)
    ensures Sound(Run(packets))
  {
    if packets != [] {
      RunIsSound(packets[..|packets| - 1]);
      StepIsSound(Run(packets[..|packets| - 1]), packets[|packets| - 1]);
    }
  }

  /** When the stream ends and closes what is still open, every tunnel ever opened has been closed, and
      none twice. */
  lemma AllGivenBack(s: Stream)
    requires Sound(s)
    ensures var all := s.closed + Conns(s.recent); NoTwice(all) && forall c: Conn :: c in all <==> c < s.next
  {
    var open := Conns(s.recent);
    forall c: Conn ensures c in open <==> IsOpen(s.recent, c) {
      if IsOpen(s.recent, c) {
        var i :| 0 <= i < |s.recent| && s.recent[i].conn == c;
        assert open[i] == c;
      }
    }
    assert forall i :: 0 <= i < |open| ==> open[i] in open;
    assert forall i :: 0 <= i < |s.closed| ==> s.closed[i] in s.closed;
  }

  function Conns(recent: seq<Tunnel>): seq<Conn> {
    seq(|recent|, i requires 0 <= i < |recent| => recent[i].conn)
  }

  // ---- what a packet closes ---------------------------------------------------------------

  lemma DropCloses(s: Stream, i: nat, c: Conn)
    requires Sound(s) && i < |s.recent|
    ensures IsOpen(Dropped(s, i).recent, c) <==> IsOpen(s.recent, c) && c != s.recent[i].conn
  {
    WithoutKeeps(s.recent, i);
  }

  lemma SentCloses(s: Stream, dest: string, writes: bool, c: Conn)
    requires Sound(s) && Has(s.recent, dest)
    ensures IsOpen(Sent(s, dest, writes).recent, c) <==>
      IsOpen(s.recent, c) && (writes || c != s.recent[Find(s.recent, dest)].conn)
  {
    var i := Find(s.recent, dest);
    WithoutKeeps(s.recent, i);
    AppendKeeps(Without(s.recent, i), s.recent[i]);
    assert IsOpen(s.recent, s.recent[i].conn);
    hide Without, IsOpen, Distinct, Sound;
  }

  /** The tunnel to a destination is the one found for it. */
  lemma OneEach(s: Stream, i: nat)
    requires Sound(s) && i < |s.recent|
    ensures Has(s.recent, s.recent[i].dest) && Find(s.recent, s.recent[i].dest) == i
  {
  }

  /** Why a packet closes the tunnel it is for: its Xray end is dead, or the write fails. Any other is closed
      only to make room for a new destination: with all 64 open, and the one sent to longest ago. */
  lemma WhyTunnelsClose(s: Stream, p: Packet, i: nat)
    requires Sound(s) && i < |s.recent| && p.dest.Some?
    ensures var t := s.recent[i];
      !IsOpen(Step(s, p).recent, t.conn) <==>
        if t.dest == p.dest.value then t.conn in p.dead || !p.writes
        else i == 0 && |s.recent| == 64 && !Has(s.recent, p.dest.value)
  {
    var dest, t := p.dest.value, s.recent[i];
    var r := Reaped(s, dest, p.dead);
    OneEach(s, i);
    SizeBound(s);
    assert IsOpen(s.recent, t.conn);
    if Has(s.recent, dest) {
      OnOldDestination(s, p, i);
    } else {
      if |s.recent| >= MAX_DESTS {
        DropCloses(s, 0, t.conn);
        DroppedIsSound(s, 0);
        HasAfterDrop(s, 0, dest);
      }
      var roomy := Roomy(s);
      if p.dials { NewKeeps(roomy, dest, p.writes, t.conn); }
      HeadIsFirst(s, i);
      hide Sound, Find, Without, IsOpen, Sent, Opened, Dropped;
    }
  }

  lemma HeadIsFirst(s: Stream, i: nat)
    requires Sound(s) && i < |s.recent|
    ensures s.recent[i].conn == s.recent[0].conn <==> i == 0
  {
  }

  lemma OnOldDestination(s: Stream, p: Packet, i: nat)
    requires Sound(s) && i < |s.recent| && p.dest.Some? && Has(s.recent, p.dest.value)
    ensures var t := s.recent[i];
      !IsOpen(Step(s, p).recent, t.conn) <==> t.dest == p.dest.value && (t.conn in p.dead || !p.writes)
  {
    var dest, t := p.dest.value, s.recent[i];
    var k := Find(s.recent, dest);
    OneEach(s, i);
    SizeBound(s);
    assert IsOpen(s.recent, t.conn);
    assert t.conn == s.recent[k].conn <==> t.dest == dest;
    if s.recent[k].conn in p.dead {
      DropCloses(s, k, t.conn);
      DroppedIsSound(s, k);
      WithoutKeeps(s.recent, k);
      if p.dials { NewKeeps(Dropped(s, k), dest, p.writes, t.conn); }
    } else {
      SentCloses(s, dest, p.writes, t.conn);
    }
    hide Sound, Find, Without, IsOpen, Sent, Opened, Has;
  }

  lemma NewKeeps(s: Stream, dest: string, writes: bool, c: Conn)
    requires Sound(s) && !Has(s.recent, dest) && |s.recent| < MAX_DESTS && c < s.next
    ensures Has(Opened(s, dest).recent, dest)
    ensures IsOpen(Sent(Opened(s, dest), dest, writes).recent, c) <==> IsOpen(s.recent, c)
  {
    var t := Tunnel(dest, s.next);
    AppendKeeps(s.recent, t);
    OpenedIsSound(s, dest);
    LastFound(s.recent, t);
    SentCloses(Opened(s, dest), dest, writes, c);
  }

  lemma SentHas(s: Stream, dest: string, writes: bool)
    requires Sound(s) && Has(s.recent, dest)
    ensures Has(Sent(s, dest, writes).recent, dest) <==> writes
  {
    var i := Find(s.recent, dest);
    WithoutKeeps(s.recent, i);
    var moved := Without(s.recent, i) + [s.recent[i]];
    assert moved[|moved| - 1].dest == dest;
    hide Without, Sound, Distinct;
  }

  /** And when one is open for it after: the write went through, over the tunnel it had or one dialed. */
  lemma WhenADestinationIsServed(s: Stream, p: Packet)
    requires Sound(s) && p.dest.Some?
    ensures var dest := p.dest.value;
      Has(Step(s, p).recent, dest) <==>
        p.writes && (p.dials || (Has(s.recent, dest) && s.recent[Find(s.recent, dest)].conn !in p.dead))
  {
    var dest := p.dest.value;
    var r := Reaped(s, dest, p.dead);
    SizeBound(s);
    if Has(s.recent, dest) {
      DroppedIsSound(s, Find(s.recent, dest));
      WithoutKeeps(s.recent, Find(s.recent, dest));
    }
    if Has(r.recent, dest) {
      SentHas(r, dest, p.writes);
    } else {
      if |r.recent| >= MAX_DESTS {
        DroppedIsSound(r, 0);
        HasAfterDrop(r, 0, dest);
      }
      var roomy := Roomy(r);
      if p.dials {
        OpenedIsSound(roomy, dest);
        LastFound(roomy.recent, Tunnel(dest, roomy.next));
        SentHas(Opened(roomy, dest), dest, p.writes);
      }
    }
    hide Sound, Find, Without, Sent, Opened, Has;
  }

  // ---- the order is recency ---------------------------------------------------------------

  /** The last packet that named a destination, -1 if none did. */
  function LastNamed(packets: seq<Packet>, dest: string): int {
    if packets == [] then -1
    else if packets[|packets| - 1].dest == Some(dest) then |packets| - 1
    else LastNamed(packets[..|packets| - 1], dest)
  }

  lemma {:induction false} LastNamedIsPast(packets: seq<Packet>, dest: string)
    ensures LastNamed(packets, dest) < |packets|
  {
    if packets != [] {
      LastNamedIsPast(packets[..|packets| - 1], dest);
    }
  }

  predicate ByRecency(recent: seq<Tunnel>, packets: seq<Packet>) {
    forall i, j :: 0 <= i < j < |recent| ==> LastNamed(packets, recent[i].dest) < LastNamed(packets, recent[j].dest)
  }

  lemma RecencyWithout(recent: seq<Tunnel>, i: nat, packets: seq<Packet>)
    requires ByRecency(recent, packets) && i < |recent|
    ensures ByRecency(Without(recent, i), packets)
  {
    var less := Without(recent, i);
    assert forall k :: 0 <= k < |less| ==> less[k] == recent[if k < i then k else k + 1];
  }

  /** A packet that names a destination outside a list leaves its order, and is later than all of it. */
  lemma RecencyOn(recent: seq<Tunnel>, packets: seq<Packet>, p: Packet)
    requires ByRecency(recent, packets) && (p.dest.Some? ==> !Has(recent, p.dest.value))
    ensures ByRecency(recent, packets + [p])
    ensures forall t: Tunnel :: p.dest == Some(t.dest) ==> ByRecency(recent + [t], packets + [p])
  {
    var more := packets + [p];
    assert more[..|packets|] == packets;
    forall i | 0 <= i < |recent|
      ensures LastNamed(more, recent[i].dest) == LastNamed(packets, recent[i].dest) < |packets|
    {
      assert p.dest != Some(recent[i].dest);
      LastNamedIsPast(packets, recent[i].dest);
    }
  }

  /** A packet on a destination the table holds. */
  lemma OldDestRecency(s: Stream, dest: string, writes: bool, packets: seq<Packet>, p: Packet)
    requires Sound(s) && ByRecency(s.recent, packets) && Has(s.recent, dest) && p.dest == Some(dest)
    ensures ByRecency(Sent(s, dest, writes).recent, packets + [p])
    ensures ByRecency(Dropped(s, Find(s.recent, dest)).recent, packets) &&
      !Has(Dropped(s, Find(s.recent, dest)).recent, dest)
  {
    var i := Find(s.recent, dest);
    WithoutKeeps(s.recent, i);
    RecencyWithout(s.recent, i, packets);
    hide ByRecency, Without;
    RecencyOn(Without(s.recent, i), packets, p);
    assert s.recent[i].dest == dest;
  }

  /** A packet that opens a tunnel. */
  lemma NewDestRecency(s: Stream, dest: string, writes: bool, packets: seq<Packet>, p: Packet)
    requires ByRecency(s.recent, packets) && !Has(s.recent, dest) && p.dest == Some(dest)
    ensures Has(Opened(s, dest).recent, dest) && ByRecency(Sent(Opened(s, dest), dest, writes).recent, packets + [p])
  {
    var t := Tunnel(dest, s.next);
    LastFound(s.recent, t);
    assert Without(s.recent + [t], |s.recent|) == s.recent;
    RecencyOn(s.recent, packets, p);
    hide ByRecency, Has, Find, Without;
  }

  lemma StepKeepsRecency(s: Stream, p: Packet, packets: seq<Packet>)
    requires Sound(s) && ByRecency(s.recent, packets)
    ensures ByRecency(Step(s, p).recent, packets + [p])
  {
    hide ByRecency, Find, Without, Sound, Sent, Opened;
    if p.dest.None? {
      RecencyOn(s.recent, packets, p);
    } else {
      var dest := p.dest.value;
      if Has(s.recent, dest) {
        OldDestRecency(s, dest, p.writes, packets, p);
      }
      var r := Reaped(s, dest, p.dead);
      if !Has(r.recent, dest) {
        if |r.recent| >= MAX_DESTS {
          RecencyWithout(r.recent, 0, packets);
          HasAfterDrop(r, 0, dest);
        }
        var roomy := Roomy(r);
        RecencyOn(roomy.recent, packets, p);
        NewDestRecency(roomy, dest, p.writes, packets, p);
      }
    }
  }

  /** A destination just added is found at the end. */
  lemma {:induction false} LastFound(recent: seq<Tunnel>, t: Tunnel)
    requires !Has(recent, t.dest)
    ensures Has(recent + [t], t.dest) && Find(recent + [t], t.dest) == |recent|
    decreases |recent|
  {
    assert (recent + [t])[|recent|].dest == t.dest;
    if recent != [] {
      assert recent[0].dest != t.dest;
      assert (recent + [t])[1..] == recent[1..] + [t];
      forall i | 0 <= i < |recent[1..]| ensures recent[1..][i].dest != t.dest {
        assert recent[1..][i] == recent[i + 1];
      }
      LastFound(recent[1..], t);
    }
  }

  /** Main result. The table is in the order of the last packet to each destination, so the one a new
      destination pushes out is the one sent to longest ago. */
  lemma {:induction false} OrderIsRecency(packets: seq<Packet>)
    ensures ByRecency(Run(packets).recent, packets)
  {
    if packets != [] {
      var earlier, p := packets[..|packets| - 1], packets[|packets| - 1];
      OrderIsRecency(earlier);
      RunIsSound(earlier);
      StepKeepsRecency(Run(earlier), p, earlier);
      assert earlier + [p] == packets;
    }
  }
}
