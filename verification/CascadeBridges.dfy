/** The two ends of a cascade's bridges (internal/core/manager_cascade.go, internal/xray/cascade.go):
    the entry builds links to its exits, each exit lists its entries and takes their credentials on
    its built-in lanes, and neither end looks at what the other built. */
module CascadeBridges {
  import opened Common
  import opened Cascade

  /** The service credential of an entry on an exit, derived from the master's secret. */
  datatype Cred = Cred(secret: string, entry: Id, exit: Id)

  /** A link to an exit over a bridge. */
  datatype Upstream = Upstream(bridge: string, exit: Id, cred: Cred)

  /** An entry as its exit sees it. */
  datatype Bridge = Bridge(entry: Id, cred: Cred, lane: string)

  /** The built-in lane behind a bridge name. */
  datatype Inbound = Vision | Hysteria | Reality

  function InboundOf(bridge: string): Inbound {
    if bridge == BRIDGE_VISION then Vision else if bridge == BRIDGE_HYSTERIA then Hysteria else Reality
  }

  predicate InboundOn(i: Inbound, s: Server) {
    match i
    case Vision => s.vision
    case Hysteria => s.hysteria
    case Reality => s.reality
  }

  function LanesOf(servers: Servers, server: Id): seq<Lane> {
    if server in servers && servers[server].routing.Some? then servers[server].routing.value else []
  }

  predicate DistinctIds(lanes: seq<Lane>) {
    forall i, j :: 0 <= i < j < |lanes| ==> lanes[i].id != lanes[j].id
  }

  // ---- the entry's end --------------------------------------------------------------------

  /** The exits of a lane a link can be built to. */
  predicate Linkable(server: Id, e: Exit, servers: Servers) {
    e.server in servers && e.server != server && BridgeOn(BridgeOr(e), servers[e.server])
  }

  function LinkTo(secret: string, server: Id, e: Exit): Upstream {
    Upstream(BridgeOr(e), e.server, Cred(secret, server, e.server))
  }

  function Links(secret: string, server: Id, via: seq<Exit>, servers: Servers): seq<Upstream> {
    if via == [] then []
    else
      var e := via[|via| - 1];
      Links(secret, server, via[..|via| - 1], servers) +
      if Linkable(server, e, servers) then [LinkTo(secret, server, e)] else []
  }

  lemma {:induction false} LinksAre(secret: string, server: Id, via: seq<Exit>, servers: Servers, u: Upstream)
    ensures u in Links(secret, server, via, servers) <==>
      exists e :: e in via && Linkable(server, e, servers) && LinkTo(secret, server, e) == u
  {
    if via != [] {
      var rest, e := via[..|via| - 1], via[|via| - 1];
      assert via == rest + [e];
      LinksAre(secret, server, rest, servers, u);
    }
  }

  predicate Dials(secret: string, server: Id, lane: Lane, servers: Servers) {
    lane.enabled && Links(secret, server, lane.via, servers) != []
  }

  predicate DialsUnder(secret: string, server: Id, lanes: seq<Lane>, servers: Servers, i: int, id: string) {
    0 <= i < |lanes| && lanes[i].id == id && Dials(secret, server, lanes[i], servers)
  }

  predicate LastUnder(secret: string, server: Id, lanes: seq<Lane>, servers: Servers, i: int, id: string) {
    DialsUnder(secret, server, lanes, servers, i, id) &&
    forall k :: i < k < |lanes| ==> !DialsUnder(secret, server, lanes, servers, k, id)
  }

  /** What cascadeFor builds: under each lane id the links of the last lane that has any. */
  ghost predicate Upstreams(out: map<string, seq<Upstream>>, secret: string, server: Id, lanes: seq<Lane>,
                            servers: Servers)
  {
    && (forall id :: id in out <==> exists i :: DialsUnder(secret, server, lanes, servers, i, id))
    && (forall id :: id in out ==> DialedBy(out[id], secret, server, lanes, servers, id))
  }

  ghost predicate DialedBy(us: seq<Upstream>, secret: string, server: Id, lanes: seq<Lane>, servers: Servers,
                           id: string)
  {
    exists i :: LastUnder(secret, server, lanes, servers, i, id) && us == Links(secret, server, lanes[i].via, servers)
  }

  method CascadeFor(secret: string, server: Id, servers: Servers) returns (out: map<string, seq<Upstream>>)
    ensures Upstreams(out, secret, server, LanesOf(servers, server), servers)
  {
    out := map[];
    if server !in servers || servers[server].routing.None? {
      return;
    }
    var lanes := servers[server].routing.value;
    for i := 0 to |lanes|
      invariant Upstreams(out, secret, server, lanes[..i], servers)
    {
      var lane := lanes[i];
      var eps: seq<Upstream> := [];
      if lane.enabled && lane.via != [] {
        for j := 0 to |lane.via|
          invariant eps == Links(secret, server, lane.via[..j], servers)
        {
          var e := lane.via[j];
          assert lane.via[..j + 1][..j] == lane.via[..j];
          if e.server !in servers || e.server == server {
            continue;
          }
          if BridgeOn(BridgeOr(e), servers[e.server]) {
            eps := eps + [LinkTo(secret, server, e)];
          }
        }
        assert lane.via[..|lane.via|] == lane.via;
      }
      ghost var was := out;
      if eps != [] {
        out := out[lane.id := eps];
      }
      NextLane(was, out, secret, server, lanes, i, servers);
    }
    assert lanes[..|lanes|] == lanes;
  }

  /** One more lane: it takes its id over if it has links, and changes nothing otherwise. */
  lemma NextLane(was: map<string, seq<Upstream>>, out: map<string, seq<Upstream>>, secret: string, server: Id,
                 lanes: seq<Lane>, i: nat, servers: Servers)
    requires i < |lanes| && Upstreams(was, secret, server, lanes[..i], servers)
    requires out == if Dials(secret, server, lanes[i], servers)
                    then was[lanes[i].id := Links(secret, server, lanes[i].via, servers)] else was
    ensures Upstreams(out, secret, server, lanes[..i + 1], servers)
  {
    hide Links, Linkable, Dials;
    var old', new' := lanes[..i], lanes[..i + 1];
    forall id ensures id in out <==> exists k :: DialsUnder(secret, server, new', servers, k, id) {
      TakesOver(was, out, secret, server, lanes, i, new', servers, id);
    }
    hide DialsUnder;
    forall id | id in out ensures DialedBy(out[id], secret, server, new', servers, id) {
      LastTakesOver(was, out, secret, server, lanes, i, servers, id);
    }
  }

  lemma DialsOneMore(secret: string, server: Id, lanes: seq<Lane>, i: nat, longer: seq<Lane>, servers: Servers,
                     id: string)
    requires i < |lanes| && longer == lanes[..i + 1]
    ensures forall k :: DialsUnder(secret, server, longer, servers, k, id) <==>
      DialsUnder(secret, server, lanes[..i], servers, k, id) ||
      (k == i && DialsUnder(secret, server, lanes, servers, i, id))
  {
    hide Dials;
  }

  lemma TakesOver(was: map<string, seq<Upstream>>, out: map<string, seq<Upstream>>, secret: string, server: Id,
                  lanes: seq<Lane>, i: nat, longer: seq<Lane>, servers: Servers, id: string)
    requires i < |lanes| && longer == lanes[..i + 1] && Upstreams(was, secret, server, lanes[..i], servers)
    requires out == if Dials(secret, server, lanes[i], servers)
                    then was[lanes[i].id := Links(secret, server, lanes[i].via, servers)] else was
    ensures id in out <==> exists k :: DialsUnder(secret, server, longer, servers, k, id)
  {
    var shorter := lanes[..i];
    DialsOneMore(secret, server, lanes, i, longer, servers, id);
    assert DialsUnder(secret, server, lanes, servers, i, id) <==>
      lanes[i].id == id && Dials(secret, server, lanes[i], servers);
    hide Links, Linkable, Dials, DialsUnder, LastUnder;
    if DialsUnder(secret, server, lanes, servers, i, id) {
      assert DialsUnder(secret, server, longer, servers, i, id);
    }
    if k :| DialsUnder(secret, server, shorter, servers, k, id) {
      assert DialsUnder(secret, server, longer, servers, k, id);
    }
  }

  lemma LastTakesOver(was: map<string, seq<Upstream>>, out: map<string, seq<Upstream>>, secret: string, server: Id,
                      lanes: seq<Lane>, i: nat, servers: Servers, id: string)
    requires i < |lanes| && Upstreams(was, secret, server, lanes[..i], servers) && id in out
    requires out == if Dials(secret, server, lanes[i], servers)
                    then was[lanes[i].id := Links(secret, server, lanes[i].via, servers)] else was
    ensures DialedBy(out[id], secret, server, lanes[..i + 1], servers, id)
  {
    var old', new' := lanes[..i], lanes[..i + 1];
    DialsOneMore(secret, server, lanes, i, new', servers, id);
    hide Links, Linkable, Dials;
    if DialsUnder(secret, server, lanes, servers, i, id) {
      assert LastUnder(secret, server, new', servers, i, id);
    } else {
      var k :| LastUnder(secret, server, old', servers, k, id) &&
        was[id] == Links(secret, server, old'[k].via, servers);
      assert LastUnder(secret, server, new', servers, k, id);
    }
  }

  // ---- the exit's end ---------------------------------------------------------------------

  /** An enabled lane of an in-service entry leaves through the exit over this bridge. */
  predicate Uses(lanes: seq<Lane>, exit: Id, bridge: string) {
    exists l, e :: l in lanes && l.enabled && e in l.via && e.server == exit && BridgeOr(e) == bridge
  }

  predicate Increasing(s: seq<Id>) {
    forall i, j :: 0 <= i < j < |s| ==> s[i] < s[j]
  }

  method InsertId(sorted: seq<Id>, x: Id) returns (more: seq<Id>)
    requires Increasing(sorted) && x !in sorted
    ensures Increasing(more) && forall y :: y in more <==> y in sorted || y == x
  {
    var i := 0;
    while i < |sorted| && sorted[i] < x
      invariant 0 <= i <= |sorted|
      invariant forall k :: 0 <= k < i ==> sorted[k] < x
    {
      i := i + 1;
    }
    AfterIsLarger(sorted, i, x);
    InsertedIsIncreasing(sorted, i, x);
    InsertedHolds(sorted, i, x);
    hide Increasing;
    more := sorted[..i] + [x] + sorted[i..];
  }

  lemma AfterIsLarger(sorted: seq<Id>, i: nat, x: Id)
    requires Increasing(sorted) && i <= |sorted| && x !in sorted && (i < |sorted| ==> sorted[i] >= x)
    ensures forall k :: i <= k < |sorted| ==> x < sorted[k]
  {
    forall k | i <= k < |sorted| ensures x < sorted[k] {
      assert sorted[k] in sorted;
    }
  }

  lemma InsertedIsIncreasing(sorted: seq<Id>, i: nat, x: Id)
    requires Increasing(sorted) && i <= |sorted|
    requires (forall k :: 0 <= k < i ==> sorted[k] < x) && forall k :: i <= k < |sorted| ==> x < sorted[k]
    ensures Increasing(sorted[..i] + [x] + sorted[i..])
  {
    var more := sorted[..i] + [x] + sorted[i..];
    assert forall k :: 0 <= k < |more| ==> more[k] == if k < i then sorted[k] else if k == i then x else sorted[k - 1];
  }

  lemma InsertedHolds(sorted: seq<Id>, i: nat, x: Id)
    requires i <= |sorted|
    ensures forall y :: y in sorted[..i] + [x] + sorted[i..] <==> y in sorted || y == x
  {
    assert sorted == sorted[..i] + sorted[i..];
    assert forall y :: y in sorted <==> y in sorted[..i] || y in sorted[i..];
  }

  method SortedIds(ids: set<Id>) returns (sorted: seq<Id>)
    ensures Increasing(sorted) && forall x :: x in sorted <==> x in ids
  {
    hide Increasing;
    sorted := [];
    EmptyIsIncreasing();
    var rest := ids;
    while rest != {}
      invariant rest <= ids && Increasing(sorted)
      invariant forall x :: x in sorted <==> x in ids && x !in rest
      decreases |rest|
    {
      ghost var w := Witness(rest);
      var x :| x in rest;
      rest := rest - {x};
      sorted := InsertId(sorted, x);
    }
  }

  lemma EmptyIsIncreasing()
    ensures Increasing([])
  {
  }

  /** Exactly the bridges in use from some of the entries, each once, by entry. */
  ghost predicate Lists(out: seq<Bridge>, secret: string, exit: Id, entries: set<Id>, servers: Servers) {
    && (forall b :: b in out <==>
          b.entry in entries && b.entry != exit && b.cred == Cred(secret, b.entry, exit) &&
          Uses(LanesOf(servers, b.entry), exit, b.lane))
    && (forall i, j :: 0 <= i < j < |out| ==> out[i].entry <= out[j].entry && out[i] != out[j])
  }

  /** The bridges one entry adds for the exits its lanes name. */
  method EntryBridges(secret: string, entry: Id, exit: Id, lanes: seq<Lane>) returns (out: seq<Bridge>)
    ensures forall b :: b in out <==>
      b.entry == entry && b.cred == Cred(secret, entry, exit) && Uses(lanes, exit, b.lane)
    ensures forall i, j :: 0 <= i < j < |out| ==> out[i] != out[j]
  {
    out := [];
    var seen: set<string> := {};
    for i := 0 to |lanes|
      invariant forall b :: b in out <==> b.entry == entry && b.cred == Cred(secret, entry, exit) && b.lane in seen
      invariant forall i, j :: 0 <= i < j < |out| ==> out[i] != out[j]
      invariant forall lane :: lane in seen <==> Uses(lanes[..i], exit, lane)
    {
      var lane := lanes[i];
      ghost var before := seen;
      if lane.enabled {
        for j := 0 to |lane.via|
          invariant forall b :: b in out <==> b.entry == entry && b.cred == Cred(secret, entry, exit) && b.lane in seen
          invariant forall i, j :: 0 <= i < j < |out| ==> out[i] != out[j]
          invariant forall x :: x in seen <==>
            x in before || exists k :: 0 <= k < j && lane.via[k].server == exit && BridgeOr(lane.via[k]) == x
        {
          var e := lane.via[j];
          if e.server != exit || BridgeOr(e) in seen {
            continue;
          }
          seen := seen + {BridgeOr(e)};
          out := out + [Bridge(entry, Cred(secret, entry, exit), BridgeOr(e))];
        }
      }
      assert lanes[..i + 1] == lanes[..i] + [lane];
      forall x ensures x in seen <==> Uses(lanes[..i + 1], exit, x) {
        if lane.enabled && exists k :: 0 <= k < |lane.via| && lane.via[k].server == exit && BridgeOr(lane.via[k]) == x {
          var k :| 0 <= k < |lane.via| && lane.via[k].server == exit && BridgeOr(lane.via[k]) == x;
          assert lane in lanes[..i + 1] && lane.via[k] in lane.via;
        }
        if Uses(lanes[..i], exit, x) {
          var l, e :| l in lanes[..i] && l.enabled && e in l.via && e.server == exit && BridgeOr(e) == x;
          assert l in lanes[..i + 1];
        }
      }
    }
    assert lanes[..|lanes|] == lanes;
  }

  method BridgesFor(secret: string, exit: Id, servers: Servers) returns (out: seq<Bridge>)
    ensures Lists(out, secret, exit, servers.Keys, servers)
  {
    hide Uses;
    out := [];
    var ids := SortedIds(servers.Keys);
    ghost var done: set<Id> := {};
    for i := 0 to |ids|
      invariant forall x :: x in done <==> x in ids[..i]
      invariant Lists(out, secret, exit, done, servers)
    {
      var entry := ids[i];
      done := done + {entry};
      if entry == exit {
        continue;
      }
      var lanes := if servers[entry].routing.None? then [] else servers[entry].routing.value;
      var more := EntryBridges(secret, entry, exit, lanes);
      assert lanes == LanesOf(servers, entry);
      assert forall b :: b in out ==> b.entry in ids[..i];
      out := out + more;
    }
    forall x ensures x in done <==> x in servers.Keys {
      assert ids[..|ids|] == ids;
      assert x in ids <==> x in servers.Keys;
    }
    assert done == servers.Keys;
  }

  /** exitInUse: whether a server may not be switched off or deleted. */
  method ExitInUse(secret: string, server: Id, servers: Servers) returns (inUse: bool)
    ensures inUse <==> exists entry :: entry != server && Edge(servers, entry, server)
  {
    var bridges := BridgesFor(secret, server, servers);
    inUse := |bridges| > 0;
    if inUse {
      var b := bridges[0];
      assert b in bridges;
      assert Edge(servers, b.entry, server);
    }
    if entry :| entry != server && Edge(servers, entry, server) {
      var l, e :| l in servers[entry].routing.value && l.enabled && e in l.via && e.server == server;
      assert Uses(LanesOf(servers, entry), server, BridgeOr(e));
      assert Bridge(entry, Cred(secret, entry, server), BridgeOr(e)) in bridges;
    }
  }

  // ---- the exit's clients -----------------------------------------------------------------

  function Of(bridges: seq<Bridge>, inbound: Inbound): seq<Cred> {
    if bridges == [] then []
    else
      var b := bridges[|bridges| - 1];
      Of(bridges[..|bridges| - 1], inbound) + if InboundOf(b.lane) == inbound then [b.cred] else []
  }

  function Clients(s: Server, bridges: seq<Bridge>, inbound: Inbound): seq<Cred> {
    if InboundOn(inbound, s) then Of(bridges, inbound) else []
  }

  lemma {:induction false} OfHolds(bridges: seq<Bridge>, inbound: Inbound, c: Cred)
    ensures c in Of(bridges, inbound) <==> exists b :: b in bridges && InboundOf(b.lane) == inbound && b.cred == c
  {
    if bridges != [] {
      var rest, b := bridges[..|bridges| - 1], bridges[|bridges| - 1];
      assert bridges == rest + [b];
      OfHolds(rest, inbound, c);
    }
  }

  /** addBridgeClients: each bridge on its built-in lane, if that lane is on. */
  method AddBridgeClients(s: Server, bridges: seq<Bridge>, vision0: seq<Cred>, hysteria0: seq<Cred>,
                          reality0: seq<Cred>)
    returns (vision: seq<Cred>, hysteria: seq<Cred>, reality: seq<Cred>)
    ensures vision == vision0 + Clients(s, bridges, Vision)
    ensures hysteria == hysteria0 + Clients(s, bridges, Hysteria)
    ensures reality == reality0 + Clients(s, bridges, Reality)
  {
    vision, hysteria, reality := vision0, hysteria0, reality0;
    for i := 0 to |bridges|
      invariant vision == vision0 + Clients(s, bridges[..i], Vision)
      invariant hysteria == hysteria0 + Clients(s, bridges[..i], Hysteria)
      invariant reality == reality0 + Clients(s, bridges[..i], Reality)
    {
      var b := bridges[i];
      assert bridges[..i + 1][..i] == bridges[..i];
      if b.lane == BRIDGE_VISION {
        if s.vision { vision := vision + [b.cred]; }
      } else if b.lane == BRIDGE_HYSTERIA {
        if s.hysteria { hysteria := hysteria + [b.cred]; }
      } else {
        if s.reality { reality := reality + [b.cred]; }
      }
    }
    assert bridges[..|bridges|] == bridges;
  }

  // ---- both ends agree --------------------------------------------------------------------

  /** Bridge i carries the link's credential, and is the only one of that entry on that lane. */
  predicate OnlyBridge(bridges: seq<Bridge>, i: int, entry: Id, u: Upstream) {
    0 <= i < |bridges| && bridges[i] == Bridge(entry, u.cred, u.bridge) &&
    forall k :: 0 <= k < |bridges| && bridges[k].entry == entry && bridges[k].lane == u.bridge ==> k == i
  }

  /** Whatever an entry dials is a bridge its lanes use, on a lane that is on at the exit. */
  lemma DialedIsUsed(secret: string, entry: Id, servers: Servers, ups: map<string, seq<Upstream>>, id: string,
                     u: Upstream)
    requires Upstreams(ups, secret, entry, LanesOf(servers, entry), servers) && id in ups && u in ups[id]
    ensures u.exit in servers && u.exit != entry && entry in servers
    ensures Uses(LanesOf(servers, entry), u.exit, u.bridge)
    ensures u.cred == Cred(secret, entry, u.exit) && InboundOn(InboundOf(u.bridge), servers[u.exit])
  {
    var lanes := LanesOf(servers, entry);
    var i :| LastUnder(secret, entry, lanes, servers, i, id) && ups[id] == Links(secret, entry, lanes[i].via, servers);
    LinksAre(secret, entry, lanes[i].via, servers, u);
    var e :| e in lanes[i].via && Linkable(entry, e, servers) && LinkTo(secret, entry, e) == u;
    assert Uses(lanes, u.exit, u.bridge);
  }

  /** Main result. Whatever an entry dials, its exit has listed exactly once and takes as a client of
      the built-in lane the link runs over. */
  lemma DialedIsListed(secret: string, entry: Id, servers: Servers, ups: map<string, seq<Upstream>>, id: string,
                       u: Upstream, bridges: seq<Bridge>)
    requires Upstreams(ups, secret, entry, LanesOf(servers, entry), servers)
    requires id in ups && u in ups[id]
    requires Lists(bridges, secret, u.exit, servers.Keys, servers)
    ensures u.exit in servers && u.exit != entry
    ensures exists i :: OnlyBridge(bridges, i, entry, u)
    ensures u.cred in Clients(servers[u.exit], bridges, InboundOf(u.bridge))
  {
    DialedIsUsed(secret, entry, servers, ups, id, u);
    hide Upstreams, LanesOf, Uses, Clients, InboundOf, InboundOn;
    var b := Bridge(entry, u.cred, u.bridge);
    assert b in bridges;
    var n :| 0 <= n < |bridges| && bridges[n] == b;
    OnlyOneListed(secret, u.exit, servers, bridges, b, n);
    assert OnlyBridge(bridges, n, entry, u);
    ClientsHold(servers[u.exit], bridges, b);
  }

  lemma OnlyOneListed(secret: string, exit: Id, servers: Servers, bridges: seq<Bridge>, b: Bridge, n: nat)
    requires Lists(bridges, secret, exit, servers.Keys, servers) && n < |bridges| && bridges[n] == b
    ensures forall k :: 0 <= k < |bridges| && bridges[k].entry == b.entry && bridges[k].lane == b.lane ==> k == n
  {
    hide Uses, LanesOf;
    forall k | 0 <= k < |bridges| && bridges[k].entry == b.entry && bridges[k].lane == b.lane ensures k == n {
      assert bridges[k] in bridges && b in bridges;
      assert bridges[k] == b;
    }
  }

  lemma ClientsHold(s: Server, bridges: seq<Bridge>, b: Bridge)
    requires b in bridges && InboundOn(InboundOf(b.lane), s)
    ensures b.cred in Clients(s, bridges, InboundOf(b.lane))
  {
    OfHolds(bridges, InboundOf(b.lane), b.cred);
  }

  /** And nothing is listed that is not dialed, as long as its lane is on at the exit. */
  lemma ListedIsDialed(secret: string, exit: Id, servers: Servers, bridges: seq<Bridge>, b: Bridge,
                       ups: map<string, seq<Upstream>>)
    requires Lists(bridges, secret, exit, servers.Keys, servers) && b in bridges
    requires exit in servers && BridgeOn(b.lane, servers[exit])
    requires DistinctIds(LanesOf(servers, b.entry))
    requires Upstreams(ups, secret, b.entry, LanesOf(servers, b.entry), servers)
    ensures exists id :: id in ups && Upstream(b.lane, exit, b.cred) in ups[id]
  {
    var lanes := LanesOf(servers, b.entry);
    var l, e :| l in lanes && l.enabled && e in l.via && e.server == exit && BridgeOr(e) == b.lane;
    assert Linkable(b.entry, e, servers) && LinkTo(secret, b.entry, e) == Upstream(b.lane, exit, b.cred);
    LinksAre(secret, b.entry, l.via, servers, LinkTo(secret, b.entry, e));
    var i :| 0 <= i < |lanes| && lanes[i] == l;
    assert DialsUnder(secret, b.entry, lanes, servers, i, l.id);
    assert l.id in ups && DialedBy(ups[l.id], secret, b.entry, lanes, servers, l.id);
    assert Upstream(b.lane, exit, b.cred) in ups[l.id];
  }

  /** An exit takes as clients of a built-in lane, while that lane is on, exactly the entries with an enabled
      lane that leaves through it over a bridge of that lane. */
  lemma ClientsAreEntries(secret: string, exit: Id, servers: Servers, bridges: seq<Bridge>, inbound: Inbound, c: Cred)
    requires exit in servers && Lists(bridges, secret, exit, servers.Keys, servers)
    ensures c in Clients(servers[exit], bridges, inbound) <==>
      (match inbound case Vision => servers[exit].vision case Hysteria => servers[exit].hysteria
                     case Reality => servers[exit].reality) &&
      exists entry, bridge ::
        entry in servers && entry != exit && c == Cred(secret, entry, exit) &&
        Uses(LanesOf(servers, entry), exit, bridge) && InboundOf(bridge) == inbound
  {
    OfHolds(bridges, inbound, c);
    hide Uses, LanesOf, InboundOf;
    if b :| b in bridges && InboundOf(b.lane) == inbound && b.cred == c {
      assert Uses(LanesOf(servers, b.entry), exit, b.lane);
    }
    if entry, bridge :| entry in servers && entry != exit && c == Cred(secret, entry, exit) &&
                        Uses(LanesOf(servers, entry), exit, bridge) && InboundOf(bridge) == inbound {
      assert Bridge(entry, c, bridge) in bridges;
    }
  }

  // ---- what the check of a routing is for -------------------------------------------------

  /** The lane has one upstream per exit, in order, each over that exit's bridge. */
  predicate Dialed(ups: map<string, seq<Upstream>>, secret: string, server: Id, lane: Lane) {
    lane.id in ups && |ups[lane.id]| == |lane.via| &&
    forall j :: 0 <= j < |lane.via| ==>
      ups[lane.id][j].exit == lane.via[j].server && ups[lane.id][j].cred == Cred(secret, server, lane.via[j].server) &&
      ups[lane.id][j].bridge == if lane.via[j].bridge == "" then "reality" else lane.via[j].bridge
  }

  lemma {:induction false} LinksAreWholeIff(secret: string, server: Id, via: seq<Exit>, servers: Servers)
    ensures var links := Links(secret, server, via, servers);
      |links| <= |via| && (|links| == |via| <==> forall e :: e in via ==> Linkable(server, e, servers)) &&
      (|links| == |via| ==> forall j :: 0 <= j < |via| ==> links[j] == LinkTo(secret, server, via[j]))
  {
    hide Linkable;
    if via != [] {
      var rest, e := via[..|via| - 1], via[|via| - 1];
      assert via == rest + [e];
      LinksAreWholeIff(secret, server, rest, servers);
    }
  }

  /** Under distinct lane ids an enabled lane that leaves through other servers is dialed exactly if a link
      to each of its exits can be built. */
  lemma DialedIff(ups: map<string, seq<Upstream>>, secret: string, server: Id, lanes: seq<Lane>, servers: Servers,
                  i: nat)
    requires Upstreams(ups, secret, server, lanes, servers) && DistinctIds(lanes)
    requires i < |lanes| && lanes[i].enabled && lanes[i].via != []
    ensures Dialed(ups, secret, server, lanes[i]) <==>
      forall e :: e in lanes[i].via ==> Linkable(server, e, servers)
    ensures lanes[i].id in ups ==> ups[lanes[i].id] == Links(secret, server, lanes[i].via, servers)
  {
    var lane := lanes[i];
    LinksAreWholeIff(secret, server, lane.via, servers);
    hide Linkable, Links;
    assert forall k :: DialsUnder(secret, server, lanes, servers, k, lane.id) ==> k == i;
    if lane.id in ups {
      assert DialedBy(ups[lane.id], secret, server, lanes, servers, lane.id);
    }
    if Links(secret, server, lane.via, servers) != [] {
      assert DialsUnder(secret, server, lanes, servers, i, lane.id);
    }
  }

  /** The lane is dialed in full, and none of its exits leads back. */
  ghost predicate Stands(ups: map<string, seq<Upstream>>, secret: string, server: Id, lane: Lane, servers: Servers) {
    Dialed(ups, secret, server, lane) &&
    forall j :: 0 <= j < |lane.via| ==> !Reaches(servers, lane.via[j].server, server)
  }

  lemma StandsIff(server: Id, lanes: seq<Lane>, servers: Servers, ups: map<string, seq<Upstream>>, secret: string,
                  i: nat)
    requires server in servers && DistinctIds(lanes)
    requires Upstreams(ups, secret, server, lanes, Save(servers, server, lanes))
    requires i < |lanes| && lanes[i].enabled && lanes[i].via != []
    ensures Stands(ups, secret, server, lanes[i], servers) <==>
      forall e :: e in lanes[i].via ==> Objection(server, e, servers).None?
  {
    var via, after := lanes[i].via, Save(servers, server, lanes);
    DialedIff(ups, secret, server, lanes, after, i);
    assert forall e :: e in via ==> (Linkable(server, e, after) <==> Linkable(server, e, servers));
    hide Upstreams, Dialed, BridgeOn, Reaches;
    forall e | e in via
      ensures Objection(server, e, servers).None? <==>
        Linkable(server, e, servers) && !Reaches(servers, e.server, server)
    {
    }
    hide Objection, Linkable;
  }

  /** Main result. Once saved, and with its lane ids distinct, a routing dials every exit of each of its new
      or changed lanes, and none of these leads back, exactly if the check accepts it. */
  lemma AcceptedIffDialed(server: Id, lanes: seq<Lane>, prev: Option<seq<Lane>>, servers: Servers,
                          ups: map<string, seq<Upstream>>, secret: string)
    requires server in servers && DistinctIds(lanes)
    requires Upstreams(ups, secret, server, lanes, Save(servers, server, lanes))
    ensures Accepts(server, lanes, prev, servers) <==>
      forall i :: 0 <= i < |lanes| && lanes[i].enabled && lanes[i].via != [] ==>
        (prev.Some? && lanes[i] in prev.value) || Stands(ups, secret, server, lanes[i], servers)
  {
    forall i | 0 <= i < |lanes| && Checked(lanes[i], prev)
      ensures Stands(ups, secret, server, lanes[i], servers) <==>
        forall e :: e in lanes[i].via ==> Objection(server, e, servers).None?
    {
      StandsIff(server, lanes, servers, ups, secret, i);
    }
    hide Stands, Objection, Upstreams;
  }

  /** The exit's connection for this bridge is off, or its REALITY has no key. */
  predicate ConnectionOff(exit: Server, bridge: string) {
    if bridge == "vision" then !exit.vision
    else if bridge == "hysteria2" then !exit.hysteria
    else !exit.reality || !exit.keyed
  }

  /** A refusal says what is wrong with the exit it stopped at, and one for a connection that is off names an
      exit that the saved routing would leave undialed. */
  lemma RefusalSaysWhy(server: Id, lanes: seq<Lane>, prev: Option<seq<Lane>>, servers: Servers, i: int, j: int,
                       ups: map<string, seq<Upstream>>, secret: string)
    requires server in servers && DistinctIds(lanes)
    requires Upstreams(ups, secret, server, lanes, Save(servers, server, lanes))
    requires FirstObjection(server, lanes, prev, servers, i, j).Some?
    ensures 0 <= i < |lanes| && 0 <= j < |lanes[i].via|
    ensures var e := lanes[i].via[j];
      match FirstObjection(server, lanes, prev, servers, i, j).value
      case SelfExit => e.server == server
      case NoServer => e.server != server && e.server !in servers
      case LaneOff =>
        e.server != server && e.server in servers && ConnectionOff(servers[e.server], e.bridge) &&
        forall u :: lanes[i].id in ups && u in ups[lanes[i].id] ==> u.exit != e.server || u.bridge != BridgeOr(e)
      case Loops =>
        e.server != server && e.server in servers && !ConnectionOff(servers[e.server], e.bridge) &&
        Reaches(servers, e.server, server)
  {
    var e, after := lanes[i].via[j], Save(servers, server, lanes);
    DialedIff(ups, secret, server, lanes, after, i);
    forall u | lanes[i].id in ups && u in ups[lanes[i].id]
      ensures Linkable(server, e, after) || u.exit != e.server || u.bridge != BridgeOr(e)
    {
      LinksAre(secret, server, lanes[i].via, after, u);
    }
    hide Upstreams, Dialed, Reaches;
  }
}
