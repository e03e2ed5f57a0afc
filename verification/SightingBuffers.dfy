/** The buffers as they run: the maps the access-log reader fills and a flush drains, the requeue after
    a failed write, and the throttle that folds a user's repeated sightings. */
module SightingBuffers {
  import opened Common
  import opened IpAddress
  import opened IpMatcher
  import opened Sightings

  /** accPendingMax, abusePendingMax, accFlushAt */
  const SIGHTINGS_MAX := 131072
  const MATCHES_MAX := 4096
  const FLUSH_AT := 8192

  /** accThrottle, which is also accLastTTL, and accLastMax */
  const THROTTLE := 45
  const LAST_MAX := 4096

  /** maxAbuseCount */
  const COUNT_MAX := 1048576

  /** A sighting that comes in while a flush is writing. */
  datatype Arrival<!K> = Arrival(k: K, n: int, now: int)

  predicate Arrives<K>(a: Arrival<K>) {
    a.n > 0 && a.now > 0
  }

  /** A flush as steps of the buffer's world: drained, added to meanwhile, written or put back. */
  function FlushSteps<K>(arrivals: seq<Arrival<K>>, end: Step<K>): seq<Step<K>> {
    [Step.Drain] + AddSteps(arrivals) + [end]
  }

  function AddSteps<K>(arrivals: seq<Arrival<K>>): seq<Step<K>> {
    if arrivals == [] then []
    else
      var a := arrivals[|arrivals| - 1];
      AddSteps(arrivals[..|arrivals| - 1]) + [Step.Add(a.k, a.n, a.now)]
  }

  lemma RunOn<K(!new)>(w0: World<K>, steps: seq<Step<K>>, v: World<K>, step: Step<K>, w: World<K>)
    requires Runs(w0, steps, v) && Goes(v, step, w)
    ensures Runs(w0, steps + [step], w)
  {
    assert (steps + [step])[..|steps|] == steps;
  }

  /** A flight put back into a buffer nothing came into is shed nowhere. */
  lemma QuietRequeueShedsNothing<K(!new)>(flight: map<K, Hit>, lost: set<K>, cap: nat)
    requires |flight| <= cap && MayShed(map[], flight, lost, cap) && forall k :: k in flight ==> flight[k].seenAt >= 0
    ensures Merge(map[], flight - lost) == flight
  {
    assert lost == {} by { NothingToShed(flight, lost, cap); }
    assert flight - lost == flight;
    var back := Merge(map[], flight);
    assert back.Keys == flight.Keys;
    forall k | k in flight ensures back[k] == flight[k] {
      assert flight[k] == Hit(flight[k].n, flight[k].seenAt);
    }
  }

  lemma NothingToShed<K(!new)>(flight: map<K, Hit>, lost: set<K>, cap: nat)
    requires |flight| <= cap && MayShed(map[], flight, lost, cap)
    ensures lost == {}
  {
    var back := Merge(map[], flight - lost);
    assert back.Keys == flight.Keys - lost;
    assert |back.Keys| == |back| && |flight.Keys| == |flight|;
    hide Merge;
    assert |flight.Keys - lost| + |lost| == |flight.Keys|;
    assert lost != {} ==> |lost| > 0;
  }

  class HitBuffer<K(==,!new)> {
    const cap: nat
    var pending: map<K, Hit>
    ghost var w: World<K>

    ghost predicate Valid()
      reads this
    {
      w.pending == pending && w.cap == cap && Inv(w)
    }

    constructor (cap: nat)
      ensures Valid() && w == Empty(cap) && this.cap == cap
    {
      this.cap := cap;
      pending := map[];
      w := Empty(cap);
      new;
      EmptyInv<K>(cap);
    }

    /** A sighting of a key: folded in, or turned away when the buffer is full and the key is new. */
    method Add(k: K, n: int, now: int) returns (kept: bool)
      requires Valid() && n > 0 && now > 0
      modifies this
      ensures Valid() && Goes(old(w), Step.Add(k, n, now), w)
      ensures kept <==> !Full(old(pending), k, cap)
    {
      AddKeeps(w, k, n, now);
      w := Next(w, Step.Add(k, n, now));
      kept := k in pending || |pending| < cap;
      if kept {
        var h := if k in pending then pending[k] else Hit(0, 0);
        h := h.(n := h.n + n);
        if now > h.seenAt {
          h := h.(seenAt := now);
        }
        pending := pending[k := h];
      }
    }

    /** The start of a flush: the buffer is emptied for the write. */
    method Drain() returns (hits: map<K, Hit>)
      requires Valid() && w.flight == map[]
      modifies this
      ensures Valid() && Goes(old(w), Step.Drain, w) && hits == w.flight == old(pending) && pending == map[]
    {
      FlushKeeps(w, Step.Drain);
      w := Next(w, Step.Drain);
      hits := pending;
      pending := map[];
    }

    /** The write went through, but for the users who are gone. */
    ghost method Written(ghosts: set<K>)
      requires Valid()
      modifies this`w
      ensures Valid() && Goes(old(w), Commit(ghosts), w)
    {
      FlushKeeps(w, Commit(ghosts));
      w := Next(w, Commit(ghosts));
    }

    method FoldIn(k: K, h: Hit)
      modifies this`pending
      requires h.seenAt >= 0
      ensures pending == Folded(old(pending), k, h)
    {
      var cur := if k in pending then pending[k] else Hit(0, 0);
      cur := cur.(n := cur.n + h.n);
      if h.seenAt > cur.seenAt {
        cur := cur.(seenAt := h.seenAt);
      }
      pending := pending[k := cur];
    }

    /** Hits taken back one by one; a key is shed if nothing is buffered under it and the buffer is full. */
    method MergeBack(hits: map<K, Hit>) returns (ghost lost: set<K>)
      requires |pending| <= cap
      requires forall k :: k in pending ==> pending[k].seenAt >= 0
      requires forall k :: k in hits ==> hits[k].seenAt >= 0
      modifies this`pending
      ensures pending == Merge(old(pending), hits - lost) && MayShed(old(pending), hits, lost, cap)
    {
      hide *;
      MergingStarts(pending, hits, cap);
      lost := {};
      var todo := hits.Keys;
      while todo != {}
        invariant Merging(old(pending), hits, todo, lost, pending, cap)
        invariant todo <= hits.Keys
        decreases |todo|
      {
        ghost var some := Witness(todo);
        var k :| k in todo;
        var rest := todo - {k};
        assert todo == rest + {k};
        if Full(pending, k, cap) {
          MergingSheds(old(pending), hits, rest, lost, pending, cap, k);
          lost := lost + {k};
        } else {
          MergingFolds(old(pending), hits, rest, lost, pending, cap, k);
          FoldIn(k, hits[k]);
        }
        todo := rest;
      }
      MergingEnds(old(pending), hits, lost, pending, cap);
    }

    /** The write failed: its hits are merged with whatever came in meanwhile. */
    method PutBack(hits: map<K, Hit>) returns (ghost lost: set<K>)
      requires Valid() && hits == w.flight
      modifies this
      ensures Valid() && Goes(old(w), Requeue(lost), w)
    {
      InvBounds(w);
      hide Inv, Merge, MayShed;
      lost := MergeBack(hits);
      FlushKeeps(w, Requeue(lost));
      w := Next(w, Requeue(lost));
    }

    /** FlushAccess or FlushAbuse, whatever comes in while it writes: nothing to write and nothing happens;
        else the flush is a run of the buffer's world, and one that fails with nothing coming in leaves
        the buffer as it was. */
    method Flush(arrivals: seq<Arrival<K>>, written: bool, ghost ghosts: set<K>) returns (ghost lost: set<K>)
      requires Valid() && w.flight == map[] && forall i :: 0 <= i < |arrivals| ==> Arrives(arrivals[i])
      modifies this
      ensures Valid() && w.flight == map[]
      ensures old(pending) == map[] ==> w == old(w)
      ensures old(pending) != map[] ==>
        Runs(old(w), FlushSteps(arrivals, if written then Commit(ghosts) else Requeue(lost)), w)
      ensures !written && arrivals == [] ==> pending == old(pending)
    {
      lost := {};
      if |pending| == 0 {
        return;
      }
      ghost var w0 := w;
      InvBounds(w);
      assert Runs(w, [], w);
      hide Runs, Inv, Next, Can;
      var hits := Drain();
      RunOn(w0, [], w0, Step.Drain, w);
      AddAll(arrivals, w0, [] + [Step.Drain]);
      ghost var before := w;
      if written {
        Written(ghosts);
        RunOn(w0, [] + [Step.Drain] + AddSteps(arrivals), before, Commit(ghosts), w);
        Landed(before, Commit(ghosts), w);
      } else {
        lost := PutBack(hits);
        RunOn(w0, [] + [Step.Drain] + AddSteps(arrivals), before, Requeue(lost), w);
        Landed(before, Requeue(lost), w);
        if arrivals == [] {
          QuietRequeueShedsNothing(hits, lost, cap);
        }
      }
    }

    /** Sightings coming in one by one. */
    method AddAll(arrivals: seq<Arrival<K>>, ghost w0: World<K>, ghost before: seq<Step<K>>)
      requires Valid() && Runs(w0, before, w) && forall i :: 0 <= i < |arrivals| ==> Arrives(arrivals[i])
      modifies this
      ensures Valid() && Runs(w0, before + AddSteps(arrivals), w)
      ensures w.flight == old(w.flight) && (arrivals == [] ==> w == old(w) && pending == old(pending))
    {
      hide Runs, Inv, Next, Can;
      assert before + [] == before;
      for i := 0 to |arrivals|
        invariant Valid() && Runs(w0, before + AddSteps(arrivals[..i]), w)
        invariant w.flight == old(w.flight) && (i == 0 ==> w == old(w) && pending == old(pending))
      {
        ghost var v := w;
        var a := arrivals[i];
        assert arrivals[..i + 1][..i] == arrivals[..i];
        var kept := Add(a.k, a.n, a.now);
        RunOn(w0, before + AddSteps(arrivals[..i]), v, Step.Add(a.k, a.n, a.now), w);
        assert before + AddSteps(arrivals[..i]) + [Step.Add(a.k, a.n, a.now)] == before + AddSteps(arrivals[..i + 1]);
        AddLeavesFlight(v, a.k, a.n, a.now, w);
      }
      assert arrivals[..|arrivals|] == arrivals;
    }
  }

  lemma AddLeavesFlight<K(!new)>(v: World<K>, k: K, n: int, now: int, w: World<K>)
    requires Goes(v, Step.Add(k, n, now), w)
    ensures w.flight == v.flight
  {
  }

  /** What a write or a requeue leaves in the buffer. */
  lemma Landed<K(!new)>(v: World<K>, step: Step<K>, w: World<K>)
    requires Goes(v, step, w) && (step.Commit? || step.Requeue?)
    ensures w.flight == map[]
    ensures step.Requeue? ==>
      w.pending == Merge(v.pending, v.flight - step.lost) && MayShed(v.pending, v.flight, step.lost, v.cap)
  {
  }

  /** Once something was shed the buffer is full, and only keys it holds are folded in. */
  lemma FullStays<K(!new)>(m: map<K, Hit>, k: K, h: Hit, cap: nat, lost: set<K>)
    requires |m| <= cap && !Full(m, k, cap) && (lost != {} ==> |m| == cap)
    ensures lost != {} ==> |Folded(m, k, h)| == cap
  {
    if k in m {
      assert Folded(m, k, h).Keys == m.Keys;
      assert |Folded(m, k, h).Keys| == |Folded(m, k, h)| && |m.Keys| == |m|;
    }
  }

  /** Between two hits of a merge: the rest is still to do, and some were shed. */
  ghost predicate Merging<K(!new)>(was: map<K, Hit>, hits: map<K, Hit>, todo: set<K>, lost: set<K>, now: map<K, Hit>,
                                   cap: nat) {
    && Apart(was, hits, todo, lost)
    && now == Merge(was, hits - (todo + lost)) && |now| <= cap && (lost != {} ==> |now| == cap)
  }

  ghost predicate Apart<K(!new)>(was: map<K, Hit>, hits: map<K, Hit>, todo: set<K>, lost: set<K>) {
    && todo <= hits.Keys && lost <= hits.Keys && lost !! todo && lost !! was.Keys
    && forall k :: k in hits ==> hits[k].seenAt >= 0
  }

  lemma MergingStarts<K(!new)>(m: map<K, Hit>, hits: map<K, Hit>, cap: nat)
    requires |m| <= cap && forall k :: k in m ==> m[k].seenAt >= 0
    requires forall k :: k in hits ==> hits[k].seenAt >= 0
    ensures Merging(m, hits, hits.Keys, {}, m, cap)
  {
    MergeNone(m);
    assert hits - (hits.Keys + {}) == map[];
  }

  lemma MergingSheds<K(!new)>(was: map<K, Hit>, hits: map<K, Hit>, todo: set<K>, lost: set<K>, now: map<K, Hit>,
                              cap: nat, k: K)
    requires k !in todo && Merging(was, hits, todo + {k}, lost, now, cap) && Full(now, k, cap)
    ensures Merging(was, hits, todo, lost + {k}, now, cap)
  {
    assert todo + {k} + lost == todo + (lost + {k});
    MergeAt(was, hits - (todo + {k} + lost), k);
  }

  lemma MergingFolds<K(!new)>(was: map<K, Hit>, hits: map<K, Hit>, todo: set<K>, lost: set<K>, now: map<K, Hit>,
                              cap: nat, k: K)
    requires k !in todo && Merging(was, hits, todo + {k}, lost, now, cap) && !Full(now, k, cap)
    ensures Merging(was, hits, todo, lost, Folded(now, k, hits[k]), cap)
  {
    hide Merge, Folded, Full, Apart;
    ApartFolds(was, hits, todo, lost, k);
    MergeOne(was, hits, todo + lost, k);
    FoldedIsNoLarger(now, k, hits[k], cap);
    FullStays(now, k, hits[k], cap, lost);
  }

  lemma ApartFolds<K(!new)>(was: map<K, Hit>, hits: map<K, Hit>, todo: set<K>, lost: set<K>, k: K)
    requires k !in todo && Apart(was, hits, todo + {k}, lost)
    ensures Apart(was, hits, todo, lost) && todo + {k} + lost == todo + lost + {k}
    ensures k in hits && k !in todo + lost && hits[k].seenAt >= 0
  {
    assert k in todo + {k};
  }

  lemma MergingEnds<K(!new)>(was: map<K, Hit>, hits: map<K, Hit>, lost: set<K>, now: map<K, Hit>, cap: nat)
    requires Merging(was, hits, {}, lost, now, cap)
    ensures now == Merge(was, hits - lost) && MayShed(was, hits, lost, cap)
  {
    assert {} + lost == lost;
  }

  /** A connection as an access-log line names it, and the pair it is counted under. */
  datatype Line = Line(email: string, ip: string)

  datatype Pair = Pair(user: int, ip: string)

  /** The throttle's decision, given when each line was last recorded. */
  predicate Throttled(last: map<Line, int>, line: Line, now: int) {
    now - (if line in last then last[line] else 0) < THROTTLE
  }

  class AccessLog {
    var last: map<Line, int>
    var lastSwept: int
    const buffer: HitBuffer<Pair>
    var flushDue: bool
    /** When every line was ever last recorded, never swept, and the latest clock seen. */
    ghost var all: map<Line, int>
    ghost var clock: int

    ghost predicate Valid()
      reads this, buffer
    {
      && buffer.Valid() && clock >= 0
      && (forall line :: line in last ==> line in all && last[line] == all[line])
      && (forall line :: line in all ==> 0 <= all[line] <= clock)
      && (forall line :: line in all && line !in last ==> clock - all[line] > THROTTLE)
    }

    constructor ()
      ensures Valid() && fresh(buffer) && all == map[] && clock == 0
      ensures buffer.w == Empty(SIGHTINGS_MAX)
    {
      last, lastSwept, flushDue := map[], 0, false;
      buffer := new HitBuffer(SIGHTINGS_MAX);
      all, clock := map[], 0;
    }

    /** Lines older than the throttle leave the map. */
    method Sweep(now: int)
      requires Valid() && now == clock
      modifies this`last
      ensures Valid()
      ensures forall line :: line in last <==> line in old(last) && now - old(last)[line] <= THROTTLE
      ensures forall line :: line in last ==> last[line] == old(last)[line]
    {
      hide Inv;
      var todo := last.Keys;
      while todo != {}
        invariant todo <= last.Keys <= old(last).Keys && Valid()
        invariant forall line :: line in last ==> last[line] == old(last)[line]
        invariant forall line :: line in old(last) && line !in todo ==>
          (line in last <==> now - old(last)[line] <= THROTTLE)
        decreases |todo|
      {
        ghost var some := Witness(todo);
        var line :| line in todo;
        todo := todo - {line};
        if now - last[line] > THROTTLE {
          last := last - {line};
        }
      }
    }

    /** RecordAccess, the user's id as the e-mail gives it. Swept or not, the throttle decides as one
        that remembers every line; what it lets through is buffered unless there is no room, and a
        line turned away for room is not throttled next time. */
    method RecordAccess(line: Line, user: Option<int>, now: int) returns (recorded: bool)
      requires Valid() && now > 0 && now >= clock
      modifies this, buffer
      ensures Valid() && clock == if user.Some? then now else old(clock)
      ensures user.None? ==> !recorded && buffer.w == old(buffer.w) && all == old(all)
      ensures user.Some? ==> var pair := Pair(user.value, line.ip);
        var held := now - (if line in old(all) then old(all)[line] else 0) < THROTTLE;
        (recorded <==> !held && (pair in old(buffer.pending) || |old(buffer.pending)| < buffer.cap)) &&
        all == (if recorded then old(all)[line := now] else old(all)) &&
        if held then buffer.w == old(buffer.w) else Goes(old(buffer.w), Step.Add(pair, 1, now), buffer.w)
      ensures flushDue <==> old(flushDue) || (recorded && |buffer.pending| >= FLUSH_AT)
    {
      hide Inv, Next, Can;
      recorded := false;
      if user.None? {
        return;
      }
      clock := now;
      assert Throttled(last, line, now) == Throttled(all, line, now);
      hide Throttled;
      if Throttled(last, line, now) {
        return;
      }
      var pair := Pair(user.value, line.ip);
      recorded := buffer.Add(pair, 1, now);
      if !recorded {
        return;
      }
      Remember(line, now);
      if |buffer.pending| >= FLUSH_AT {
        flushDue := true;
      }
    }

    /** The line was recorded now; a map grown too large is swept, at most once per throttle. */
    method Remember(line: Line, now: int)
      requires Valid() && now == clock
      modifies this`last, this`all, this`lastSwept
      ensures Valid() && all == old(all)[line := now]
    {
      hide Inv;
      last, all := last[line := now], all[line := now];
      if |last| > LAST_MAX && now - lastSwept >= THROTTLE {
        lastSwept := now;
        Sweep(now);
      }
    }
  }

  /** One match's key: user, server, address and day. */
  datatype Match = Match(user: int, node: int, address: string, day: string)

  /** addAbuseMatch, `dest` being the address the text names, if any: what the matcher lists is buffered,
      a remote count clamped. */
  method AddMatch(matcher: Matcher, buffer: HitBuffer<Match>, m: Match, dest: Option<Addr>, count: int, now: int)
    returns (matched: bool)
    requires matcher.Valid() && buffer.Valid() && buffer.cap == MATCHES_MAX && now > 0
    modifies buffer
    ensures buffer.Valid()
    ensures matched <==>
      m.address != "" && count > 0 && dest.Some? &&
      exists c :: (c == Custom || c == BadIP) && c in matcher.loaded &&
                  ListsAny(matcher.loaded[c], Unmap(dest.value))
    ensures matched ==> Goes(old(buffer.w), Step.Add(m, if count > COUNT_MAX then COUNT_MAX else count, now), buffer.w)
    ensures !matched ==> buffer.w == old(buffer.w)
  {
    hide Inv, FirstListing, Unmap, ListsAny;
    if m.address == "" || count <= 0 {
      return false;
    }
    var cat := matcher.Match(dest);
    if cat.None? {
      return false;
    }
    var n := count;
    if n > COUNT_MAX {
      n := COUNT_MAX;
    }
    var kept := buffer.Add(m, n, now);
    matched := true;
  }
}
