/** The buffers of internal/core/manager.go and manager_abuse.go that fold sightings and blocklist
    matches until a flush writes them: bounded, drained while new ones arrive, and requeued when the
    write fails; and the throttle in front of the first. */
module Sightings {
  import opened Common

  /** What is folded under one key: how many, and the latest time. */
  datatype Hit = Hit(n: int, seenAt: int)

  function Count<K>(m: map<K, Hit>, k: K): int {
    if k in m then m[k].n else 0
  }

  function Latest<K>(m: map<K, Hit>, k: K): int {
    if k in m then m[k].seenAt else 0
  }

  function Folded<K>(m: map<K, Hit>, k: K, h: Hit): map<K, Hit> {
    m[k := Hit(Count(m, k) + h.n, Max(Latest(m, k), h.seenAt))]
  }

  /** Both, key by key. */
  function Merge<K>(m: map<K, Hit>, more: map<K, Hit>): map<K, Hit> {
    map k | k in m.Keys + more.Keys :: Hit(Count(m, k) + Count(more, k), Max(Latest(m, k), Latest(more, k)))
  }

  // ---- conservation -----------------------------------------------------------------------

  /** What has become of a key's hits besides the ones held somewhere: shed at the cap, or not stored
      because their user is gone; and when the newest one came. */
  datatype Tally = Tally(accepted: int, shed: int, gone: int, newest: int)

  datatype World<!K> = World(cap: nat, pending: map<K, Hit>, flight: map<K, Hit>, stored: map<K, Hit>,
                             tallies: map<K, Tally>)

  datatype Step<!K> =
    | Add(k: K, n: int, now: int)
    | Drain
    | Commit(ghosts: set<K>)
    | Requeue(lost: set<K>)

  function TallyOf<K>(w: World<K>, k: K): Tally {
    if k in w.tallies then w.tallies[k] else Tally(0, 0, 0, 0)
  }

  predicate Full<K>(pending: map<K, Hit>, k: K, cap: nat) {
    k !in pending && |pending| >= cap
  }

  /** A requeue sheds only keys that arrived with nothing buffered under them, and only at the cap. */
  predicate MayShed<K>(pending: map<K, Hit>, flight: map<K, Hit>, lost: set<K>, cap: nat) {
    lost <= flight.Keys - pending.Keys && |Merge(pending, flight - lost)| <= cap &&
    (lost != {} ==> |Merge(pending, flight - lost)| == cap)
  }

  predicate Can<K>(w: World<K>, step: Step<K>) {
    match step
    case Add(k, n, now) => n > 0 && now > 0
    case Drain => w.flight == map[]
    case Commit(ghosts) => true
    case Requeue(lost) => MayShed(w.pending, w.flight, lost, w.cap)
  }

  function Next<K>(w: World<K>, step: Step<K>): World<K>
    requires Can(w, step)
  {
    match step
    case Add(k, n, now) =>
      var t := TallyOf(w, k);
      if Full(w.pending, k, w.cap) then
        w.(tallies := w.tallies[k := t.(accepted := t.accepted + n, shed := t.shed + n, newest := Max(t.newest, now))])
      else
        w.(pending := Folded(w.pending, k, Hit(n, now)),
           tallies := w.tallies[k := t.(accepted := t.accepted + n, newest := Max(t.newest, now))])
    case Drain => w.(flight := w.pending, pending := map[])
    case Commit(ghosts) =>
      w.(stored := Merge(w.stored, w.flight - ghosts), flight := map[],
         tallies := map k | k in w.tallies.Keys + w.flight.Keys :: var t := TallyOf(w, k);
           if k in ghosts then t.(gone := t.gone + Count(w.flight, k)) else t)
    case Requeue(lost) => Requeued(w, lost)
  }

  function Requeued<K>(w: World<K>, lost: set<K>): World<K> {
    w.(pending := Merge(w.pending, w.flight - lost), flight := map[],
       tallies := map k | k in w.tallies.Keys + w.flight.Keys :: var t := TallyOf(w, k);
         if k in lost then t.(shed := t.shed + Count(w.flight, k)) else t)
  }

  ghost predicate Balanced<K>(w: World<K>, k: K) {
    var t := TallyOf(w, k);
    && t.accepted == Count(w.pending, k) + Count(w.flight, k) + Count(w.stored, k) + t.shed + t.gone
    && Count(w.pending, k) >= 0 && Count(w.flight, k) >= 0 && Count(w.stored, k) >= 0 && t.shed >= 0 && t.gone >= 0
  }

  /** Unless something of the key was dropped, the newest sighting is still known. */
  ghost predicate Fresh<K>(w: World<K>, k: K) {
    var t := TallyOf(w, k);
    && (k in w.pending ==> w.pending[k].n > 0) && (k in w.flight ==> w.flight[k].n > 0)
    && Latest(w.pending, k) >= 0 && Latest(w.flight, k) >= 0 && Latest(w.stored, k) >= 0
    && (t.shed == 0 && t.gone == 0 ==>
          Max(Latest(w.pending, k), Max(Latest(w.flight, k), Latest(w.stored, k))) == t.newest)
  }

  ghost predicate Inv<K(!new)>(w: World<K>) {
    |w.pending| <= w.cap && forall k :: Balanced(w, k) && Fresh(w, k)
  }

  lemma FoldedIsNoLarger<K(!new)>(m: map<K, Hit>, k: K, h: Hit, cap: nat)
    requires |m| <= cap && !Full(m, k, cap)
    ensures |Folded(m, k, h)| <= cap
  {
    assert Folded(m, k, h).Keys == m.Keys + {k};
    assert |Folded(m, k, h).Keys| == |Folded(m, k, h)| && |m.Keys| == |m|;
    if k in m { assert Folded(m, k, h).Keys == m.Keys; }
  }

  lemma AddKeepsOthers<K(!new)>(w: World<K>, k: K, n: int, now: int, j: K)
    requires Balanced(w, j) && Fresh(w, j) && Can(w, Add(k, n, now)) && j != k
    ensures Balanced(Next(w, Add(k, n, now)), j) && Fresh(Next(w, Add(k, n, now)), j)
  {
  }

  lemma AddKeepsItsOwn<K(!new)>(w: World<K>, k: K, n: int, now: int)
    requires Balanced(w, k) && Fresh(w, k) && Can(w, Add(k, n, now))
    ensures Balanced(Next(w, Add(k, n, now)), k) && Fresh(Next(w, Add(k, n, now)), k)
  {
  }

  lemma AddKeeps<K(!new)>(w: World<K>, k: K, n: int, now: int)
    requires Inv(w) && Can(w, Add(k, n, now))
    ensures Inv(Next(w, Add(k, n, now)))
  {
    if !Full(w.pending, k, w.cap) {
      FoldedIsNoLarger(w.pending, k, Hit(n, now), w.cap);
    }
    hide Balanced, Fresh;
    forall j ensures Balanced(Next(w, Add(k, n, now)), j) && Fresh(Next(w, Add(k, n, now)), j) {
      assert Balanced(w, j) && Fresh(w, j);
      if j == k { AddKeepsItsOwn(w, k, n, now); } else { AddKeepsOthers(w, k, n, now, j); }
    }
  }

  lemma MergeAt<K>(m: map<K, Hit>, more: map<K, Hit>, k: K)
    ensures Count(Merge(m, more), k) == Count(m, k) + Count(more, k)
    ensures Latest(Merge(m, more), k) == Max(Latest(m, k), Latest(more, k))
    ensures k in Merge(m, more) <==> k in m || k in more
  {
  }

  lemma MergeNone<K>(m: map<K, Hit>)
    requires forall k :: k in m ==> m[k].seenAt >= 0
    ensures Merge(m, map[]) == m
  {
    assert Merge(m, map[]).Keys == m.Keys;
    forall k | k in m ensures Merge(m, map[])[k] == m[k] {
      assert m[k] == Hit(m[k].n, m[k].seenAt);
    }
  }

  /** Merging one key more is folding it in. */
  lemma MergeOne<K>(m: map<K, Hit>, more: map<K, Hit>, out: set<K>, k: K)
    requires k in more && k !in out && more[k].seenAt >= 0
    ensures Merge(m, more - out) == Folded(Merge(m, more - (out + {k})), k, more[k])
  {
    var a, b := Merge(m, more - out), Folded(Merge(m, more - (out + {k})), k, more[k]);
    MergeAt(m, more - (out + {k}), k);
    assert a.Keys == b.Keys;
    forall j | j in a ensures a[j] == b[j] {
      MergeAt(m, more - out, j);
      MergeAt(m, more - (out + {k}), j);
      assert a[j] == Hit(Count(a, j), Latest(a, j)) && b[j] == Hit(Count(b, j), Latest(b, j));
    }
  }

  lemma InvBounds<K(!new)>(w: World<K>)
    requires Inv(w)
    ensures |w.pending| <= w.cap
    ensures forall k :: k in w.pending ==> w.pending[k].seenAt >= 0
    ensures forall k :: k in w.flight ==> w.flight[k].seenAt >= 0
  {
    forall k ensures Fresh(w, k) && Latest(w.pending, k) >= 0 && Latest(w.flight, k) >= 0 {
    }
    forall k | k in w.pending ensures w.pending[k].seenAt >= 0 {
      assert Latest(w.pending, k) >= 0;
    }
    forall k | k in w.flight ensures w.flight[k].seenAt >= 0 {
      assert Latest(w.flight, k) >= 0;
    }
  }

  lemma CommitKeepsKey<K(!new)>(w: World<K>, ghosts: set<K>, k: K)
    requires Balanced(w, k) && Fresh(w, k)
    ensures Balanced(Next(w, Commit(ghosts)), k) && Fresh(Next(w, Commit(ghosts)), k)
  {
    MergeAt(w.stored, w.flight - ghosts, k);
    hide Merge;
  }

  lemma RequeueKeepsKey<K(!new)>(w: World<K>, lost: set<K>, k: K)
    requires Balanced(w, k) && Fresh(w, k) && lost <= w.flight.Keys
    ensures Balanced(Requeued(w, lost), k) && Fresh(Requeued(w, lost), k)
  {
    MergeAt(w.pending, w.flight - lost, k);
    hide Merge;
  }

  lemma FlushKeeps<K(!new)>(w: World<K>, step: Step<K>)
    requires Inv(w) && Can(w, step) && !step.Add?
    ensures Inv(Next(w, step))
  {
    hide Balanced, Fresh, Merge;
    forall k ensures Balanced(Next(w, step), k) && Fresh(Next(w, step), k) {
      assert Balanced(w, k) && Fresh(w, k);
      match step
      case Commit(ghosts) => CommitKeepsKey(w, ghosts, k);
      case Requeue(lost) => RequeueKeepsKey(w, lost, k);
      case Drain => DrainKeepsKey(w, k);
    }
  }

  lemma DrainKeepsKey<K(!new)>(w: World<K>, k: K)
    requires Balanced(w, k) && Fresh(w, k) && Can(w, Step.Drain)
    ensures Balanced(Next(w, Step.Drain), k) && Fresh(Next(w, Step.Drain), k)
  {
  }

  ghost predicate Runs<K(!new)>(w0: World<K>, steps: seq<Step<K>>, w: World<K>) {
    if steps == [] then w0 == w
    else
      var earlier, last := steps[..|steps| - 1], steps[|steps| - 1];
      exists v :: Runs(w0, earlier, v) && Goes(v, last, w)
  }

  ghost predicate Goes<K(!new)>(v: World<K>, step: Step<K>, w: World<K>) {
    Can(v, step) && w == Next(v, step)
  }

  function Empty<K>(cap: nat): World<K> {
    World(cap, map[], map[], map[], map[])
  }

  /** Main result. However arrivals, drains, writes and requeues interleave: under every key, what was
      accepted is what is buffered, in flight, stored, shed at the cap or of a user gone; the buffer
      never exceeds its cap; and where nothing was dropped the newest sighting is still there. */
  lemma {:induction false} NothingIsLost<K(!new)>(cap: nat, steps: seq<Step<K>>, w: World<K>)
    requires Runs(Empty(cap), steps, w)
    ensures Inv(w) && w.cap == cap
  {
    hide Inv, Can, Next;
    if steps == [] {
      EmptyInv<K>(cap);
    } else {
      var earlier, last := steps[..|steps| - 1], steps[|steps| - 1];
      var v :| Runs(Empty(cap), earlier, v) && Goes(v, last, w);
      NothingIsLost(cap, earlier, v);
      if last.Add? { AddKeeps(v, last.k, last.n, last.now); } else { FlushKeeps(v, last); }
      CapStays(v, last);
    }
  }

  lemma EmptyInv<K(!new)>(cap: nat)
    ensures Inv(Empty<K>(cap))
  {
  }

  lemma CapStays<K(!new)>(w: World<K>, step: Step<K>)
    requires Can(w, step)
    ensures Next(w, step).cap == w.cap
  {
  }
}
