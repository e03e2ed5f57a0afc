/** Cascades of internal/core/manager_cascade.go: servers whose lanes leave through other servers. A
    graph search gates every edit so that no cascade returns to where it came from, and the two ends
    of each bridge are generated independently. */
module Cascade {
  import opened Common

  type Id = int

  /** An exit of a lane; an empty bridge is the REALITY one. */
  datatype Exit = Exit(server: Id, bridge: string)

  datatype Lane = Lane(id: string, enabled: bool, via: seq<Exit>)

  /** A server in service: its routing, if it has any, the built-in lanes that are on, and whether
      REALITY has a public key. */
  datatype Server = Server(routing: Option<seq<Lane>>, reality: bool, keyed: bool, vision: bool, hysteria: bool)

  type Servers = map<Id, Server>

  const BRIDGE_REALITY := "reality"
  const BRIDGE_VISION := "vision"
  const BRIDGE_HYSTERIA := "hysteria2"

  function BridgeOr(e: Exit): string {
    if e.bridge == "" then BRIDGE_REALITY else e.bridge
  }

  /** Whether a link over the bridge can be built: any name that is not one of the other two is
      taken for REALITY. */
  predicate BridgeOn(bridge: string, exit: Server) {
    if bridge == BRIDGE_VISION then exit.vision
    else if bridge == BRIDGE_HYSTERIA then exit.hysteria
    else exit.reality && exit.keyed
  }

  // ---- the graph --------------------------------------------------------------------------

  predicate LeadsTo(lanes: seq<Lane>, to: Id) {
    exists l, e :: l in lanes && l.enabled && e in l.via && e.server == to
  }

  /** An enabled lane of an in-service server has this exit. */
  predicate Edge(servers: Servers, from: Id, to: Id) {
    from in servers && servers[from].routing.Some? && LeadsTo(servers[from].routing.value, to)
  }

  ghost predicate Path(servers: Servers, p: seq<Id>) {
    p != [] && forall i :: 0 <= i < |p| - 1 ==> Edge(servers, p[i], p[i + 1])
  }

  ghost predicate Connects(servers: Servers, p: seq<Id>, from: Id, to: Id) {
    Path(servers, p) && p[0] == from && p[|p| - 1] == to
  }

  ghost predicate Reaches(servers: Servers, from: Id, to: Id) {
    exists p :: Connects(servers, p, from, to)
  }

  ghost predicate Acyclic(servers: Servers) {
    forall p :: Path(servers, p) && |p| >= 2 ==> p[0] != p[|p| - 1]
  }

  lemma StepThenPath(servers: Servers, from: Id, next: Id, to: Id)
    requires Edge(servers, from, next) && Reaches(servers, next, to)
    ensures Reaches(servers, from, to)
    ensures from == to ==> !Acyclic(servers)
  {
    var p :| Connects(servers, p, next, to);
    var q := [from] + p;
    assert forall i :: 0 < i < |q| ==> q[i] == p[i - 1];
    assert Connects(servers, q, from, to);
  }

  /** What is closed under edges and lacks the target shields it. */
  lemma {:induction false} ClosedSetShields(servers: Servers, closed: set<Id>, p: seq<Id>)
    requires forall x, y :: x in closed && Edge(servers, x, y) ==> y in closed
    requires Path(servers, p) && p[0] in closed
    ensures p[|p| - 1] in closed
  {
    if |p| > 1 {
      assert Edge(servers, p[0], p[1]);
      forall i | 0 <= i < |p| - 2 ensures Edge(servers, p[1..][i], p[1..][i + 1]) {
        assert Edge(servers, p[i + 1], p[(i + 1) + 1]);
      }
      ClosedSetShields(servers, closed, p[1..]);
    }
  }

  // ---- loopsBack --------------------------------------------------------------------------

  /** loopsBack: the recursive search over a set of servers already looked at. */
  method Search(from: Id, target: Id, servers: Servers, seen: set<Id>) returns (found: bool, seen': set<Id>)
    requires target !in seen
    ensures seen <= seen'
    ensures found ==> Reaches(servers, from, target)
    ensures !found ==> from in seen' && target !in seen'
    ensures !found ==> forall x, y :: x in seen' - seen && Edge(servers, x, y) ==> y in seen'
    decreases servers.Keys - seen
  {
    if from == target {
      assert Connects(servers, [from], from, target);
      return true, seen;
    }
    if from in seen {
      return false, seen;
    }
    seen' := seen + {from};
    if from !in servers || servers[from].routing.None? {
      return false, seen';
    }
    var lanes := servers[from].routing.value;
    for i := 0 to |lanes|
      invariant seen + {from} <= seen' && target !in seen'
      invariant forall x, y :: x in seen' - seen && x != from && Edge(servers, x, y) ==> y in seen'
      invariant forall k, e :: 0 <= k < i && lanes[k].enabled && e in lanes[k].via ==> e.server in seen'
    {
      if !lanes[i].enabled {
        continue;
      }
      var via := lanes[i].via;
      for j := 0 to |via|
        invariant seen + {from} <= seen' && target !in seen'
        invariant forall x, y :: x in seen' - seen && x != from && Edge(servers, x, y) ==> y in seen'
        invariant forall k, e :: 0 <= k < i && lanes[k].enabled && e in lanes[k].via ==> e.server in seen'
        invariant forall k :: 0 <= k < j ==> via[k].server in seen'
      {
        assert servers.Keys - seen' < servers.Keys - seen;
        ghost var before := seen';
        found, seen' := Search(via[j].server, target, servers, seen');
        if found {
          assert LeadsTo(lanes, via[j].server);
          StepThenPath(servers, from, via[j].server, target);
          return true, seen';
        }
        assert forall x :: x in seen' - seen ==> x in seen' - before || x in before - seen;
      }
    }
    found := false;
  }

  /** The search answers true exactly when the target is reachable. */
  method LoopsBack(from: Id, target: Id, servers: Servers) returns (found: bool)
    ensures found <==> Reaches(servers, from, target)
  {
    ghost var closed;
    found, closed := Search(from, target, servers, {});
    if !found && Reaches(servers, from, target) {
      ghost var p :| Connects(servers, p, from, target);
      ClosedSetShields(servers, closed, p);
    }
  }

  // ---- validateCascade --------------------------------------------------------------------

  datatype Refusal = SelfExit | NoServer | LaneOff | Loops

  /** A lane the check skips: prev holds it with the same id, switch and exits. */
  predicate Unchanged(lane: Lane, prev: Option<seq<Lane>>) {
    prev.Some? && lane in prev.value
  }

  predicate Checked(lane: Lane, prev: Option<seq<Lane>>) {
    lane.enabled && lane.via != [] && !Unchanged(lane, prev)
  }

  /** What the check has against one exit; the first objection in the code's order. */
  ghost function Objection(server: Id, e: Exit, servers: Servers): Option<Refusal> {
    if e.server == server then Some(SelfExit)
    else if e.server !in servers then Some(NoServer)
    else if !BridgeOn(BridgeOr(e), servers[e.server]) then Some(LaneOff)
    else if Reaches(servers, e.server, server) then Some(Loops)
    else None
  }

  ghost predicate Accepts(server: Id, lanes: seq<Lane>, prev: Option<seq<Lane>>, servers: Servers) {
    forall l, e :: l in lanes && Checked(l, prev) && e in l.via ==> Objection(server, e, servers).None?
  }

  /** The objection to exit j of lane i when nothing before it in the routing is objected to. */
  ghost function FirstObjection(server: Id, lanes: seq<Lane>, prev: Option<seq<Lane>>, servers: Servers,
                                i: int, j: int): Option<Refusal>
  {
    if 0 <= i < |lanes| && Checked(lanes[i], prev) && 0 <= j < |lanes[i].via| &&
       Accepts(server, lanes[..i], prev, servers) &&
       (forall k :: 0 <= k < j ==> Objection(server, lanes[i].via[k], servers).None?)
    then Objection(server, lanes[i].via[j], servers)
    else None
  }

  method LaneUnchanged(lane: Lane, prev: Option<seq<Lane>>) returns (same: bool)
    ensures same == Unchanged(lane, prev)
  {
    if prev.None? {
      return false;
    }
    for i := 0 to |prev.value|
      invariant lane !in prev.value[..i]
    {
      var p := prev.value[i];
      if p.id == lane.id && p.enabled == lane.enabled && p.via == lane.via {
        return true;
      }
    }
    same := false;
  }

  method ValidateCascade(server: Id, lanes: seq<Lane>, prev: Option<seq<Lane>>, servers: Servers)
    returns (refusal: Option<Refusal>)
    ensures refusal.None? <==> Accepts(server, lanes, prev, servers)
    ensures refusal.Some? ==> exists i, j :: FirstObjection(server, lanes, prev, servers, i, j) == refusal
  {
    for i := 0 to |lanes|
      invariant Accepts(server, lanes[..i], prev, servers)
    {
      var lane := lanes[i];
      assert lanes[..i + 1] == lanes[..i] + [lane];
      var same := LaneUnchanged(lane, prev);
      if !lane.enabled || lane.via == [] || same {
        continue;
      }
      for j := 0 to |lane.via|
        invariant forall k :: 0 <= k < j ==> Objection(server, lane.via[k], servers).None?
      {
        var e := lane.via[j];
        assert e in lane.via && lane in lanes && Checked(lane, prev);
        assert FirstObjection(server, lanes, prev, servers, i, j) == Objection(server, e, servers);
        if e.server == server {
          return Some(SelfExit);
        }
        if e.server !in servers {
          return Some(NoServer);
        }
        if !BridgeOn(BridgeOr(e), servers[e.server]) {
          return Some(LaneOff);
        }
        var loops := LoopsBack(e.server, server, servers);
        if loops {
          return Some(Loops);
        }
      }
    }
    assert lanes[..|lanes|] == lanes;
    refusal := None;
  }

  // ---- no cascade loops -------------------------------------------------------------------

  /** The servers after the routing is saved: a server out of service stays out. */
  function Save(servers: Servers, server: Id, lanes: seq<Lane>): Servers {
    if server in servers then servers[server := servers[server].(routing := Some(lanes))] else servers
  }

  /** The servers without the edges that leave one of them. */
  function Mute(servers: Servers, s: Id): Servers {
    map id | id in servers && id != s :: servers[id]
  }

  lemma PathWithout(servers: Servers, s: Id, p: seq<Id>)
    requires p != []
    ensures Path(Mute(servers, s), p) <==> Path(servers, p) && forall i :: 0 <= i < |p| - 1 ==> p[i] != s
  {
    forall i | 0 <= i < |p| - 1
      ensures Edge(Mute(servers, s), p[i], p[i + 1]) <==> Edge(servers, p[i], p[i + 1]) && p[i] != s
    {
    }
    if Path(Mute(servers, s), p) {
      forall i | 0 <= i < |p| - 1 ensures p[i] != s {
        assert Edge(Mute(servers, s), p[i], p[i + 1]);
      }
    }
  }

  /** A way to s needs no edge that leaves s. */
  lemma {:induction false} ReachesWithout(servers: Servers, s: Id, from: Id)
    ensures Reaches(Mute(servers, s), from, s) <==> Reaches(servers, from, s)
  {
    if Reaches(servers, from, s) {
      var p :| Connects(servers, p, from, s);
      FirstVisit(servers, s, p);
    }
    if Reaches(Mute(servers, s), from, s) {
      var p :| Connects(Mute(servers, s), p, from, s);
      PathWithout(servers, s, p);
      assert Connects(servers, p, from, s);
    }
  }

  lemma {:induction false} FirstVisit(servers: Servers, s: Id, p: seq<Id>)
    requires Path(servers, p) && p[|p| - 1] == s
    ensures Reaches(Mute(servers, s), p[0], s)
    decreases |p|
  {
    if exists i :: 0 <= i < |p| - 1 && p[i] == s {
      var i :| 0 <= i < |p| - 1 && p[i] == s;
      FirstVisit(servers, s, p[..i + 1]);
    } else {
      PathWithout(servers, s, p);
      assert Connects(Mute(servers, s), p, p[0], s);
    }
  }

  /** A loop through s, followed once more from just after s. */
  lemma LoopFrom(servers: Servers, p: seq<Id>, i: nat)
    requires Path(servers, p) && i < |p| - 1 && p[0] == p[|p| - 1]
    ensures Edge(servers, p[i], p[i + 1]) && Reaches(servers, p[i + 1], p[i])
  {
    var q := p[i + 1..] + p[1..i + 1];
    var n := |p| - 1 - i;
    forall k | 0 <= k < |q| - 1 ensures Edge(servers, q[k], q[k + 1]) {
      if k < n - 1 {
        assert Edge(servers, p[i + 1 + k], p[(i + 1 + k) + 1]);
      } else {
        assert Edge(servers, p[k - n + 1], p[(k - n + 1) + 1]);
      }
    }
    assert Connects(servers, q, p[i + 1], p[i]);
  }

  /** The edges that leave s close a loop exactly when one of their ends leads back to s. */
  lemma LoopsRunThroughNewEdges(servers: Servers, s: Id)
    ensures Acyclic(servers) <==>
      Acyclic(Mute(servers, s)) && forall y :: Edge(servers, s, y) ==> !Reaches(servers, y, s)
  {
    if Acyclic(servers) {
      forall p | Path(Mute(servers, s), p) && |p| >= 2 ensures p[0] != p[|p| - 1] {
        PathWithout(servers, s, p);
      }
      forall y | Edge(servers, s, y) ensures !Reaches(servers, y, s) {
        if Reaches(servers, y, s) { StepThenPath(servers, s, y, s); }
      }
    } else if Acyclic(Mute(servers, s)) {
      var p :| Path(servers, p) && |p| >= 2 && p[0] == p[|p| - 1];
      PathWithout(servers, s, p);
      var i :| 0 <= i < |p| - 1 && p[i] == s;
      LoopFrom(servers, p, i);
    }
  }

  /** Replacing a server's own edges changes neither the rest of the graph nor what leads to it. */
  lemma SaveKeepsTheRest(servers: Servers, server: Id, lanes: seq<Lane>, from: Id)
    ensures Mute(Save(servers, server, lanes), server) == Mute(servers, server)
    ensures Reaches(Save(servers, server, lanes), from, server) <==> Reaches(servers, from, server)
  {
    assert Mute(Save(servers, server, lanes), server) == Mute(servers, server);
    ReachesWithout(servers, server, from);
    ReachesWithout(Save(servers, server, lanes), server, from);
  }

  /** Main result. If no cascade in service loops, none does after any routing the check accepts is
      saved for one server, although lanes that did not change are not looked at. */
  lemma AcceptedRoutingKeepsAcyclic(server: Id, lanes: seq<Lane>, prev: Option<seq<Lane>>, servers: Servers)
    requires Acyclic(servers)
    requires server in servers ==> servers[server].routing == prev
    requires Accepts(server, lanes, prev, servers)
    ensures Acyclic(Save(servers, server, lanes))
  {
    var saved := Save(servers, server, lanes);
    LoopsRunThroughNewEdges(servers, server);
    LoopsRunThroughNewEdges(saved, server);
    SaveKeepsTheRest(servers, server, lanes, server);
    forall y | Edge(saved, server, y) ensures !Reaches(saved, y, server) {
      SaveKeepsTheRest(servers, server, lanes, y);
      var l, e :| l in lanes && l.enabled && e in l.via && e.server == y;
      if Unchanged(l, prev) {
        assert LeadsTo(prev.value, y);
        assert Edge(servers, server, y);
      } else {
        assert Checked(l, prev) && Objection(server, e, servers).None?;
      }
    }
  }

  /** And it refuses no more than it must: a routing refused for a loop, or for naming the server
      itself, would have closed one. */
  lemma RefusedRoutingWouldLoop(server: Id, lanes: seq<Lane>, prev: Option<seq<Lane>>, servers: Servers, l: Lane,
                                e: Exit)
    requires server in servers
    requires l in lanes && Checked(l, prev) && e in l.via
    requires Objection(server, e, servers) == Some(Loops) || Objection(server, e, servers) == Some(SelfExit)
    ensures !Acyclic(Save(servers, server, lanes))
  {
    var saved := Save(servers, server, lanes);
    assert LeadsTo(lanes, e.server);
    assert Edge(saved, server, e.server);
    if e.server == server {
      assert Connects(servers, [server], server, server);
    }
    SaveKeepsTheRest(servers, server, lanes, e.server);
    StepThenPath(saved, server, e.server, server);
  }

  /** Switching a server back on is not checked at all; it keeps the graph free of loops exactly
      when none of its own exits leads back to it. */
  lemma EnablingKeepsAcyclic(servers: Servers, server: Id, row: Server)
    requires Acyclic(servers) && server !in servers
    ensures Acyclic(servers[server := row]) <==>
      forall y :: row.routing.Some? && LeadsTo(row.routing.value, y) ==> !Reaches(servers, y, server)
  {
    var on := servers[server := row];
    assert Mute(on, server) == servers == Mute(servers, server);
    LoopsRunThroughNewEdges(on, server);
    forall y ensures Reaches(on, y, server) <==> Reaches(servers, y, server) {
      ReachesWithout(on, server, y);
      ReachesWithout(servers, server, y);
    }
    forall y ensures Edge(on, server, y) <==> row.routing.Some? && LeadsTo(row.routing.value, y) {
    }
  }

  function OneLane(to: Id): Option<seq<Lane>> {
    Some([Lane("l", true, [Exit(to, "")])])
  }

  function Plain(routing: Option<seq<Lane>>): Server {
    Server(routing, true, true, true, true)
  }

  lemma OneLaneLeads(to: Id, y: Id)
    ensures LeadsTo(OneLane(to).value, y) <==> y == to
  {
    var l := OneLane(to).value[0];
    assert l in OneLane(to).value && l.via[0] in l.via;
  }

  /** 1 leads to 2, which is switched off; 3 leads nowhere yet. */
  const BEFORE: Servers := map[1 := Plain(OneLane(2)), 3 := Plain(None)]

  lemma EdgesBefore(x: Id, y: Id)
    ensures Edge(BEFORE, x, y) <==> x == 1 && y == 2
  {
    OneLaneLeads(2, y);
  }

  lemma BeforeIsAcyclic(p: seq<Id>)
    requires Path(BEFORE, p) && |p| >= 2
    ensures p == [1, 2]
  {
    assert Edge(BEFORE, p[0], p[0 + 1]);
    EdgesBefore(p[0], p[1]);
    if |p| > 2 {
      assert Edge(BEFORE, p[1], p[1 + 1]);
      EdgesBefore(p[1], p[2]);
    }
  }

  lemma BeforeAccepts()
    ensures Acyclic(BEFORE) && Accepts(3, OneLane(1).value, BEFORE[3].routing, BEFORE)
  {
    forall p | Path(BEFORE, p) && |p| >= 2 ensures p[0] != p[|p| - 1] {
      BeforeIsAcyclic(p);
    }
    forall p ensures !Connects(BEFORE, p, 1, 3) {
      if Path(BEFORE, p) && |p| >= 2 { BeforeIsAcyclic(p); }
    }
  }

  lemma RingLoops(servers: Servers)
    requires Edge(servers, 1, 2) && Edge(servers, 2, 3) && Edge(servers, 3, 1)
    ensures !Acyclic(servers)
  {
    var p := [1, 2, 3, 1];
    assert Edge(servers, p[0], p[1]) && Edge(servers, p[1], p[2]) && Edge(servers, p[2], p[3]);
    assert Path(servers, p);
  }

  /** Three servers saved one at a time, each edit accepted, while 2 was switched off for the last:
      switching 2 back on closes the loop 1 - 2 - 3 - 1. */
  lemma EnablingCanCloseALoop()
    ensures Acyclic(BEFORE) && Accepts(3, OneLane(1).value, BEFORE[3].routing, BEFORE)
    ensures var saved := Save(BEFORE, 3, OneLane(1).value);
      2 !in saved && Acyclic(saved) && !Acyclic(saved[2 := Plain(OneLane(3))])
  {
    BeforeAccepts();
    AcceptedRoutingKeepsAcyclic(3, OneLane(1).value, BEFORE[3].routing, BEFORE);
    var on := Save(BEFORE, 3, OneLane(1).value)[2 := Plain(OneLane(3))];
    OneLaneLeads(2, 2);
    OneLaneLeads(3, 3);
    OneLaneLeads(1, 1);
    hide Acyclic;
    RingLoops(on);
  }
}
