/** The proxy brute-force guard of internal/core/brute_guard.go: failed attempts are counted per source
    in a sliding window and repeat offenders banned, with lists pruned in place and a sweep a minute. */
module BruteGuard {
  import opened Common

  type Ip = string

  /** bruteWindow, bruteBanTime and bruteMaxTries */
  const WINDOW := 60
  const BAN := 3600
  const TRIES := 5

  datatype Event = Attempt(ip: Ip, now: int) | Lift(ip: Ip) | Forget(nets: set<Ip>) | Sweep(now: int)

  /** A guard that prunes nothing: the attempts it counted and the ones it ignored, both since the last
      ban, lift or forget, and the last ban since the last lift or forget. */
  datatype Memory = Memory(counted: seq<int>, ignored: seq<int>, ban: Option<int>)

  const BLANK := Memory([], [], None)

  predicate Banned(m: Memory, now: int) {
    m.ban.Some? && now < m.ban.value + BAN
  }

  /** The attempts within the window that ends now. */
  function Recent(times: seq<int>, now: int): seq<int> {
    if times == [] then []
    else
      var last := times[|times| - 1];
      Recent(times[..|times| - 1], now) + if last > now - WINDOW then [last] else []
  }

  /** Whether an attempt now is the one that bans. */
  predicate Answer(m: Memory, now: int) {
    !Banned(m, now) && |Recent(m.counted, now)| + 1 >= TRIES
  }

  function Noted(m: Memory, now: int): Memory {
    if Banned(m, now) then m.(ignored := m.ignored + [now])
    else if Answer(m, now) then Memory([], [], Some(now))
    else m.(counted := m.counted + [now])
  }

  predicate Wipes(e: Event, ip: Ip) {
    (e.Lift? && e.ip == ip) || (e.Forget? && ip in e.nets)
  }

  function MemoryOf(trace: seq<Event>, ip: Ip): Memory {
    if trace == [] then BLANK
    else
      var m, e := MemoryOf(trace[..|trace| - 1], ip), trace[|trace| - 1];
      if Wipes(e, ip) then BLANK
      else if e.Attempt? && e.ip == ip then Noted(m, e.now)
      else m
  }

  lemma MemoryStep(trace: seq<Event>, e: Event, ip: Ip)
    ensures MemoryOf(trace + [e], ip) ==
      if Wipes(e, ip) then BLANK
      else if e.Attempt? && e.ip == ip then Noted(MemoryOf(trace, ip), e.now)
      else MemoryOf(trace, ip)
  {
    assert (trace + [e])[..|trace|] == trace;
  }

  // ---- pruning ----------------------------------------------------------------------------

  lemma {:induction false} RecentOfRecent(times: seq<int>, now: int, later: int)
    requires now <= later
    ensures Recent(Recent(times, now), later) == Recent(times, later)
  {
    if times != [] {
      var rest, last := times[..|times| - 1], times[|times| - 1];
      RecentOfRecent(rest, now, later);
      RecentAppend(Recent(rest, now), last, later);
      assert Recent(rest, now) + [] == Recent(rest, now) && Recent(rest, later) + [] == Recent(rest, later);
    }
  }

  lemma RecentAppend(times: seq<int>, t: int, now: int)
    ensures Recent(times + [t], now) == Recent(times, now) + if t > now - WINDOW then [t] else []
  {
    assert (times + [t])[..|times|] == times;
  }

  predicate UpTo(times: seq<int>, clock: int) {
    forall i :: 0 <= i < |times| ==> times[i] <= clock
  }

  predicate Ordered(times: seq<int>) {
    forall i, j :: 0 <= i < j < |times| ==> times[i] <= times[j]
  }

  lemma {:induction false} NoneRecent(times: seq<int>, now: int)
    requires UpTo(times, now - WINDOW)
    ensures Recent(times, now) == []
  {
    if times != [] {
      NoneRecent(times[..|times| - 1], now);
    }
  }

  lemma {:induction false} RecentIsOrdered(times: seq<int>, now: int)
    requires Ordered(times)
    ensures Ordered(Recent(times, now)) && forall t :: t in Recent(times, now) ==> t in times
  {
    if times != [] {
      var rest := times[..|times| - 1];
      RecentIsOrdered(rest, now);
      var r := Recent(rest, now);
      forall i | 0 <= i < |r| ensures r[i] in times && r[i] <= times[|times| - 1] {
        assert r[i] in r;
        assert r[i] in rest;
      }
    }
  }

  // ---- what the answers mean --------------------------------------------------------------

  predicate TimesRise(trace: seq<Event>) {
    forall i, j :: 0 <= i < j < |trace| && trace[i].Attempt? && trace[j].Attempt? ==> trace[i].now <= trace[j].now
  }

  predicate Timed(trace: seq<Event>, clock: int) {
    TimesRise(trace) && forall i :: 0 <= i < |trace| && trace[i].Attempt? ==> trace[i].now <= clock
  }

  lemma TimedOn(trace: seq<Event>, clock: int, e: Event, now: int)
    requires Timed(trace, clock) && clock <= now && (e.Attempt? ==> e.now == now)
    ensures Timed(trace + [e], now)
  {
  }

  predicate Bans(trace: seq<Event>, i: int) {
    0 <= i < |trace| && trace[i].Attempt? && Answer(MemoryOf(trace[..i], trace[i].ip), trace[i].now)
  }

  /** A ban is remembered until the source is wiped, or a later ban takes its place. */
  lemma {:induction false} BanStays(trace: seq<Event>, i: int, n: int)
    requires TimesRise(trace) && Bans(trace, i) && i < n <= |trace|
    requires forall k :: i < k < n ==> !Wipes(trace[k], trace[i].ip)
    ensures MemoryOf(trace[..n], trace[i].ip).ban.Some? && MemoryOf(trace[..n], trace[i].ip).ban.value >= trace[i].now
    decreases n
  {
    assert trace[..n] == trace[..n - 1] + [trace[n - 1]];
    MemoryStep(trace[..n - 1], trace[n - 1], trace[i].ip);
    if n - 1 > i {
      BanStays(trace, i, n - 1);
    }
  }

  /** Main result. Without a lift or a forget, two bans of one source are at least an hour apart. */
  lemma BansAreSpaced(trace: seq<Event>, i: int, j: int)
    requires TimesRise(trace) && i < j && Bans(trace, i) && Bans(trace, j) && trace[i].ip == trace[j].ip
    requires forall k :: i < k < j ==> !Wipes(trace[k], trace[i].ip)
    ensures trace[j].now - trace[i].now >= BAN
  {
    BanStays(trace, i, j);
  }

  /** Read literally, a fifth attempt in the window would ban even if earlier ones came during a ban. */
  predicate LiteralAnswer(m: Memory, now: int) {
    !Banned(m, now) && |Recent(m.counted, now)| + |Recent(m.ignored, now)| + 1 >= TRIES
  }

  predicate IgnoredInBan(m: Memory) {
    m.ignored != [] ==> m.ban.Some? && forall i :: 0 <= i < |m.ignored| ==> m.ignored[i] < m.ban.value + BAN
  }

  /** The attempts a guard ignored lie before the end of its last ban. */
  lemma {:induction false} IgnoredFallInTheBan(trace: seq<Event>, ip: Ip)
    ensures IgnoredInBan(MemoryOf(trace, ip))
  {
    if trace != [] {
      var m, e := MemoryOf(trace[..|trace| - 1], ip), trace[|trace| - 1];
      IgnoredFallInTheBan(trace[..|trace| - 1], ip);
      if e.Attempt? && e.ip == ip { NotedIgnoresInBan(m, e.now); }
      hide Noted, IgnoredInBan;
    }
  }

  lemma NotedIgnoresInBan(m: Memory, now: int)
    requires IgnoredInBan(m)
    ensures IgnoredInBan(Noted(m, now))
  {
  }

  /** The ban is over, and the window that ends now still reaches into it. */
  predicate WindowReachesBan(ban: int, now: int) {
    ban + BAN <= now && now - WINDOW < ban + BAN - 1
  }

  lemma LiteralAgrees(trace: seq<Event>, ip: Ip, now: int)
    requires var m := MemoryOf(trace, ip); m.ban.None? || !WindowReachesBan(m.ban.value, now)
    ensures Answer(MemoryOf(trace, ip), now) == LiteralAnswer(MemoryOf(trace, ip), now)
  {
    var m := MemoryOf(trace, ip);
    IgnoredFallInTheBan(trace, ip);
    if !Banned(m, now) {
      NoneRecent(m.ignored, now);
    }
  }

  /** A source that earns a ban, and goes on trying in the last second of it. */
  function Five(ip: Ip, ban: int): seq<Event> {
    var e := Attempt(ip, ban);
    [] + [e] + [e] + [e] + [e] + [e]
  }

  function Late(ip: Ip, ban: int): seq<Event> {
    var e := Attempt(ip, ban + BAN - 1);
    Five(ip, ban) + [e] + [e] + [e] + [e]
  }

  lemma FirstTries(trace: seq<Event>, times: seq<int>, ip: Ip, now: int)
    requires MemoryOf(trace, ip) == Memory(times, [], None) && |times| < TRIES - 1 && Recent(times, now) == times
    ensures MemoryOf(trace + [Attempt(ip, now)], ip) == Memory(times + [now], [], None)
    ensures Recent(times + [now], now) == times + [now]
  {
    MemoryStep(trace, Attempt(ip, now), ip);
    RecentAppend(times, now, now);
    hide MemoryOf, Recent;
  }

  lemma FiveBan(ip: Ip, ban: int)
    ensures MemoryOf(Five(ip, ban), ip) == Memory([], [], Some(ban))
  {
    var e := Attempt(ip, ban);
    assert MemoryOf([], ip) == BLANK && Recent([], ban) == [];
    hide MemoryOf, Recent;
    FirstTries([], [], ip, ban);
    FirstTries([] + [e], [] + [ban], ip, ban);
    FirstTries([] + [e] + [e], [] + [ban] + [ban], ip, ban);
    FirstTries([] + [e] + [e] + [e], [] + [ban] + [ban] + [ban], ip, ban);
    MemoryStep([] + [e] + [e] + [e] + [e], e, ip);
  }

  lemma LateAreIgnored(ip: Ip, ban: int)
    ensures var late := ban + BAN - 1; MemoryOf(Late(ip, ban), ip) == Memory([], [late, late, late, late], Some(ban))
  {
    var late := ban + BAN - 1;
    var e, five := Attempt(ip, late), Five(ip, ban);
    hide MemoryOf, Five, Recent;
    FiveBan(ip, ban);
    MemoryStep(five, e, ip);
    MemoryStep(five + [e], e, ip);
    MemoryStep(five + [e] + [e], e, ip);
    MemoryStep(five + [e] + [e] + [e], e, ip);
    assert [] + [late] + [late] + [late] + [late] == [late, late, late, late];
  }

  /** Four attempts in the last second of a ban do not count when another follows it within the minute. */
  lemma AttemptsDuringABanDoNotCount(m: Memory, b: int, now: int)
    requires var late := b + BAN - 1; m == Memory([], [late, late, late, late], Some(b))
    requires WindowReachesBan(b, now)
    ensures LiteralAnswer(m, now) && !Answer(m, now)
  {
    var late := b + BAN - 1;
    assert [late, late, late, late] == [] + [late] + [late] + [late] + [late] && Recent([], now) == [];
    hide Recent;
    RecentAppend([], late, now);
    RecentAppend([] + [late], late, now);
    RecentAppend([] + [late] + [late], late, now);
    RecentAppend([] + [late] + [late] + [late], late, now);
  }

  lemma LateAreTimed(ip: Ip, ban: int, now: int)
    requires WindowReachesBan(ban, now)
    ensures Timed(Late(ip, ban), now)
  {
    assert forall i :: 0 <= i < 5 ==> Late(ip, ban)[i] == Attempt(ip, ban);
    assert forall i :: 5 <= i < 9 ==> Late(ip, ban)[i] == Attempt(ip, ban + BAN - 1);
  }

  /** Main result. Whatever came before, the guard's answers are the literal ones when no ban is remembered,
      and with one remembered exactly when it is still on or the window no longer reaches into it. */
  lemma LiteralIff(ip: Ip, ban: Option<int>, now: int)
    ensures (forall trace :: Timed(trace, now) && MemoryOf(trace, ip).ban == ban ==>
               Answer(MemoryOf(trace, ip), now) == LiteralAnswer(MemoryOf(trace, ip), now))
       <==> ban.None? || !WindowReachesBan(ban.value, now)
  {
    hide Answer, LiteralAnswer, MemoryOf, Late, Timed;
    if ban.Some? && WindowReachesBan(ban.value, now) {
      LateAreIgnored(ip, ban.value);
      LateAreTimed(ip, ban.value, now);
      AttemptsDuringABanDoNotCount(MemoryOf(Late(ip, ban.value), ip), ban.value, now);
    } else {
      forall trace | Timed(trace, now) && MemoryOf(trace, ip).ban == ban
        ensures Answer(MemoryOf(trace, ip), now) == LiteralAnswer(MemoryOf(trace, ip), now)
      {
        LiteralAgrees(trace, ip, now);
      }
    }
  }

  // ---- the guard --------------------------------------------------------------------------

  function Kept(attempts: map<Ip, seq<int>>, ip: Ip): seq<int> {
    if ip in attempts then attempts[ip] else []
  }

  /** The last attempt of a list is not before the window. */
  predicate Fresh(tries: seq<int>, now: int) {
    |tries| != 0 && tries[|tries| - 1] >= now - WINDOW
  }

  /** What the guard kept of a source's attempts tells the same as everything it ever counted. */
  predicate KnowsTries(m: Memory, kept: seq<int>, clock: int) {
    UpTo(kept, clock) && Ordered(kept) && Recent(kept, clock) == Recent(m.counted, clock)
  }

  predicate KnowsBan(m: Memory, banned: map<Ip, int>, ip: Ip, clock: int) {
    if ip in banned then m.ban.Some? && banned[ip] == m.ban.value + BAN
    else m.ban.None? || m.ban.value + BAN < clock
  }

  predicate Knows(m: Memory, attempts: map<Ip, seq<int>>, banned: map<Ip, int>, ip: Ip, clock: int) {
    KnowsTries(m, Kept(attempts, ip), clock) && KnowsBan(m, banned, ip, clock)
  }

  lemma KnowsLater(m: Memory, attempts: map<Ip, seq<int>>, banned: map<Ip, int>, ip: Ip, clock: int, now: int)
    requires Knows(m, attempts, banned, ip, clock) && clock <= now
    ensures Knows(m, attempts, banned, ip, now)
  {
    RecentOfRecent(Kept(attempts, ip), clock, now);
    RecentOfRecent(m.counted, clock, now);
  }

  lemma PrunedKnows(m: Memory, kept: seq<int>, now: int)
    requires KnowsTries(m, kept, now)
    ensures KnowsTries(m.(counted := m.counted + [now]), Recent(kept, now) + [now], now)
    ensures |Recent(kept, now) + [now]| == |Recent(m.counted, now)| + 1
  {
    hide Recent;
    var r := Recent(kept, now);
    RecentIsOrdered(kept, now);
    RecentOfRecent(kept, now, now);
    RecentAppend(r, now, now);
    RecentAppend(m.counted, now, now);
    forall i | 0 <= i < |r| ensures r[i] <= now {
      assert r[i] in kept;
    }
  }

  /** One attempt: what the guard does with it is what its memory does. */
  lemma AttemptKnows(m: Memory, attempts: map<Ip, seq<int>>, banned: map<Ip, int>, ip: Ip, now: int)
    requires Knows(m, attempts, banned, ip, now)
    ensures var kept := Recent(Kept(attempts, ip), now) + [now];
      if ip in banned && now < banned[ip] then !Answer(m, now) && Knows(Noted(m, now), attempts, banned, ip, now)
      else if |kept| >= TRIES then
        Answer(m, now) && Knows(Noted(m, now), attempts - {ip}, banned[ip := now + BAN], ip, now)
      else !Answer(m, now) && Knows(Noted(m, now), attempts[ip := kept], banned, ip, now)
  {
    hide Recent, Knows, KnowsTries, KnowsBan, Noted;
    KnowsAnswers(m, attempts, banned, ip, now);
    if ip in banned && now < banned[ip] {
      IgnoredKnows(m, attempts, banned, ip, now);
    } else if |Recent(Kept(attempts, ip), now) + [now]| >= TRIES {
      BanKnows(m, attempts, banned, ip, now);
    } else {
      CountedKnows(m, attempts, banned, ip, now);
    }
  }

  lemma KnowsAnswers(m: Memory, attempts: map<Ip, seq<int>>, banned: map<Ip, int>, ip: Ip, now: int)
    requires Knows(m, attempts, banned, ip, now)
    ensures Banned(m, now) <==> ip in banned && now < banned[ip]
    ensures |Recent(Kept(attempts, ip), now) + [now]| == |Recent(m.counted, now)| + 1
  {
    hide Recent;
  }

  lemma IgnoredKnows(m: Memory, attempts: map<Ip, seq<int>>, banned: map<Ip, int>, ip: Ip, now: int)
    requires Knows(m, attempts, banned, ip, now) && Banned(m, now)
    ensures Knows(Noted(m, now), attempts, banned, ip, now)
  {
    hide Recent, Answer;
  }

  lemma BanKnows(m: Memory, attempts: map<Ip, seq<int>>, banned: map<Ip, int>, ip: Ip, now: int)
    requires Answer(m, now)
    ensures Knows(Noted(m, now), attempts - {ip}, banned[ip := now + BAN], ip, now)
  {
    NoneRecent([], now);
    hide Recent, Answer;
  }

  lemma CountedKnows(m: Memory, attempts: map<Ip, seq<int>>, banned: map<Ip, int>, ip: Ip, now: int)
    requires Knows(m, attempts, banned, ip, now) && !Banned(m, now) && !Answer(m, now)
    ensures Knows(Noted(m, now), attempts[ip := Recent(Kept(attempts, ip), now) + [now]], banned, ip, now)
  {
    PrunedKnows(m, Kept(attempts, ip), now);
    hide Recent, Answer, Banned, KnowsTries;
  }

  /** A source nothing was done to. */
  lemma KnowsElsewhere(m: Memory, attempts: map<Ip, seq<int>>, banned: map<Ip, int>,
                       attempts': map<Ip, seq<int>>, banned': map<Ip, int>, ip: Ip, now: int)
    requires Knows(m, attempts, banned, ip, now) && Kept(attempts', ip) == Kept(attempts, ip)
    requires (ip in banned' <==> ip in banned) && (ip in banned ==> banned'[ip] == banned[ip])
    ensures Knows(m, attempts', banned', ip, now)
  {
  }

  class Guard {
    var attempts: map<Ip, seq<int>>
    var banned: map<Ip, int>
    ghost var trace: seq<Event>
    ghost var clock: int

    ghost predicate Valid()
      reads this
    {
      Timed(trace, clock) && forall ip :: Knows(MemoryOf(trace, ip), attempts, banned, ip, clock)
    }

    constructor ()
      ensures Valid() && trace == []
    {
      attempts, banned := map[], map[];
      trace, clock := [], 0;
    }

    /** The filter of record, in place: only attempts within the window stay. */
    method Prune(prev: seq<int>, now: int) returns (kept: seq<int>)
      ensures kept == Recent(prev, now)
    {
      kept := [];
      for i := 0 to |prev|
        invariant kept == Recent(prev[..i], now)
      {
        assert prev[..i + 1] == prev[..i] + [prev[i]];
        RecentAppend(prev[..i], prev[i], now);
        if prev[i] > now - WINDOW {
          kept := kept + [prev[i]];
        }
      }
      assert prev[..|prev|] == prev;
    }

    /** record: true exactly when the source is not banned and this is at least its fifth counted attempt
        of the window. */
    method Record(ip: Ip, now: int) returns (ban: bool)
      requires Valid() && now >= clock
      modifies this
      ensures Valid() && clock == now && trace == old(trace) + [Attempt(ip, now)]
      ensures ban == Answer(MemoryOf(old(trace), ip), now)
    {
      ghost var m, e := MemoryOf(trace, ip), Attempt(ip, now);
      hide Knows, MemoryOf, Recent, Noted, Answer, Timed;
      TimedOn(trace, clock, e, now);
      forall j ensures Knows(MemoryOf(trace, j), attempts, banned, j, now) {
        KnowsLater(MemoryOf(trace, j), attempts, banned, j, clock, now);
      }
      forall j ensures MemoryOf(trace + [e], j) == if j == ip then Noted(m, now) else MemoryOf(trace, j) {
        MemoryStep(trace, e, j);
      }
      AttemptKnows(m, attempts, banned, ip, now);
      trace, clock := trace + [e], now;
      ban := false;
      if ip in banned && now < banned[ip] {
        return;
      }
      var kept := Prune(Kept(attempts, ip), now);
      kept := kept + [now];
      attempts := attempts[ip := kept];
      ban := |kept| >= TRIES;
      if ban {
        banned := banned[ip := now + BAN];
        attempts := attempts - {ip};
        assert attempts == old(attempts) - {ip};
      }
      forall j | j != ip ensures Knows(MemoryOf(trace, j), attempts, banned, j, now) {
        KnowsElsewhere(MemoryOf(trace, j), old(attempts), old(banned), attempts, banned, j, now);
      }
    }

    /** lift: an operator's unban. */
    method LiftBan(ip: Ip) returns (remembered: bool)
      requires Valid()
      modifies this
      ensures Valid() && clock == old(clock) && trace == old(trace) + [Lift(ip)]
      ensures Banned(MemoryOf(old(trace), ip), clock) ==> remembered
      ensures remembered ==> MemoryOf(old(trace), ip).ban.Some?
    {
      assert Knows(MemoryOf(trace, ip), attempts, banned, ip, clock);
      TimedOn(trace, clock, Lift(ip), clock);
      Wipe({ip}, Lift(ip));
      remembered := ip in banned;
      banned, attempts := banned - {ip}, attempts - {ip};
      trace := trace + [Lift(ip)];
    }

    /** What becomes of everyone when an event wipes some sources. */
    lemma Wipe(nets: set<Ip>, e: Event)
      requires Valid() && !e.Attempt? && forall j :: j in nets <==> Wipes(e, j)
      ensures forall j :: Knows(MemoryOf(trace + [e], j), attempts - nets, banned - nets, j, clock)
    {
      forall j ensures Knows(MemoryOf(trace + [e], j), attempts - nets, banned - nets, j, clock) {
        MemoryStep(trace, e, j);
        assert Knows(MemoryOf(trace, j), attempts, banned, j, clock);
      }
    }

    /** forget: a network the operator has just trusted. */
    method ForgetNets(nets: set<Ip>)
      requires Valid()
      modifies this
      ensures Valid() && clock == old(clock) && trace == old(trace) + [Forget(nets)]
    {
      hide Knows, MemoryOf, Timed;
      TimedOn(trace, clock, Forget(nets), clock);
      Wipe(nets, Forget(nets));
      banned := Outside(banned, nets);
      attempts := Outside(attempts, nets);
      trace := trace + [Forget(nets)];
    }

    /** Each loop of forget: the entries inside the nets go. */
    static method Outside<V>(entries: map<Ip, V>, nets: set<Ip>) returns (left: map<Ip, V>)
      ensures left == entries - nets
    {
      left := entries;
      var todo := entries.Keys;
      while todo != {}
        invariant todo <= entries.Keys && todo <= left.Keys && left.Keys <= entries.Keys
        invariant forall ip :: ip in entries ==> (ip in left <==> ip in todo || ip !in nets)
        invariant forall ip :: ip in left ==> left[ip] == entries[ip]
        decreases |todo|
      {
        ghost var some := Witness(todo);
        var ip :| ip in todo;
        todo := todo - {ip};
        if ip in nets {
          left := left - {ip};
        }
      }
      assert left.Keys == (entries - nets).Keys;
    }

    /** One round of cleanupLoop: expired bans and lists with nothing recent go; no answer changes. */
    method Clean(now: int)
      requires Valid() && now >= clock
      modifies this
      ensures Valid() && clock == now && trace == old(trace) + [Event.Sweep(now)]
      ensures forall ip :: ip in banned ==> now <= banned[ip]
      ensures forall ip :: ip in attempts ==> Fresh(attempts[ip], now)
    {
      hide Knows, MemoryOf, Recent, Timed;
      TimedOn(trace, clock, Event.Sweep(now), now);
      forall j ensures Knows(MemoryOf(trace, j), attempts, banned, j, now) {
        KnowsLater(MemoryOf(trace, j), attempts, banned, j, clock, now);
      }
      forall j ensures MemoryOf(trace + [Event.Sweep(now)], j) == MemoryOf(trace, j) {
        MemoryStep(trace, Event.Sweep(now), j);
      }
      trace, clock := trace + [Event.Sweep(now)], now;
      CleanBans(now);
      CleanTries(now);
    }

    method CleanBans(now: int)
      requires Valid() && clock == now
      modifies this`banned
      ensures Valid() && forall ip :: ip in banned ==> now <= banned[ip]
    {
      hide Knows, MemoryOf, Timed;
      var todo := banned.Keys;
      while todo != {}
        invariant todo <= banned.Keys && Valid()
        invariant forall ip :: ip in banned && ip !in todo ==> now <= banned[ip]
        decreases |todo|
      {
        ghost var some := Witness(todo);
        var ip :| ip in todo;
        todo := todo - {ip};
        if now > banned[ip] {
          forall j ensures Knows(MemoryOf(trace, j), attempts, banned - {ip}, j, clock) {
            ExpiredGoes(MemoryOf(trace, j), attempts, banned, ip, j, clock);
          }
          banned := banned - {ip};
        }
      }
    }

    /** A list with nothing within the window goes. */
    method DropIfStale(ip: Ip, now: int)
      requires Valid() && clock == now && ip in attempts
      modifies this`attempts
      ensures Valid()
      ensures attempts == if Fresh(old(attempts)[ip], now) then old(attempts) else old(attempts) - {ip}
    {
      hide Knows, MemoryOf, Timed;
      if !Fresh(attempts[ip], now) {
        forall j ensures Knows(MemoryOf(trace, j), attempts - {ip}, banned, j, clock) {
          StaleGoes(MemoryOf(trace, j), attempts, banned, ip, j, clock);
        }
        attempts := attempts - {ip};
      }
    }

    method CleanTries(now: int)
      requires Valid() && clock == now
      modifies this`attempts
      ensures Valid() && forall ip :: ip in attempts ==> Fresh(attempts[ip], now)
    {
      hide Knows, MemoryOf, Timed, Fresh;
      var todo := attempts.Keys;
      while todo != {}
        invariant todo <= attempts.Keys && Valid()
        invariant forall ip :: ip in attempts && ip !in todo ==> Fresh(attempts[ip], now)
        decreases |todo|
      {
        ghost var some := Witness(todo);
        var ip :| ip in todo;
        todo := todo - {ip};
        DropIfStale(ip, now);
      }
    }
  }

  lemma ExpiredGoes(m: Memory, attempts: map<Ip, seq<int>>, banned: map<Ip, int>, ip: Ip, j: Ip, now: int)
    requires Knows(m, attempts, banned, j, now) && ip in banned && now > banned[ip]
    ensures Knows(m, attempts, banned - {ip}, j, now)
  {
  }

  lemma StaleGoes(m: Memory, attempts: map<Ip, seq<int>>, banned: map<Ip, int>, ip: Ip, j: Ip, now: int)
    requires Knows(m, attempts, banned, j, now) && ip in attempts
    requires !Fresh(attempts[ip], now)
    ensures Knows(m, attempts - {ip}, banned, j, now)
  {
    if j == ip {
      NoneRecent(attempts[ip], now);
      NoneRecent([], now);
    }
  }
}
