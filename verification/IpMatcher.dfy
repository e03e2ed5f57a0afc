/** The IP blocklist matcher of internal/abuse: entries become ranges, the ranges are sorted, merged
    in place and searched by bisection. The result is proved equal to a linear scan of the entries
    that compares prefix bits. */
module IpMatcher {
  import opened Common
  import opened IpAddress

  /** One line of a list as the address parser reads it: rubbish, an address or a CIDR block. */
  datatype Entry = Unreadable | Host(addr: Addr) | Block(cidr: Cidr)

  datatype IpRange = IpRange(lo: Addr, hi: Addr)

  predicate Covers(r: IpRange, a: Addr) {
    AtMost(r.lo, a) && AtMost(a, r.hi)
  }

  ghost predicate CoveredBy(rs: seq<IpRange>, a: Addr) {
    exists i :: 0 <= i < |rs| && Covers(rs[i], a)
  }

  // ---- what a list means ------------------------------------------------------------------

  /** A block whose last address is the last IPv4-mapped one while its first is not mapped. */
  predicate Straddles(p: Cidr) {
    p.addr.V6? && 80 <= p.len < 96 && p.addr.bits[..p.len] == MAPPED[..p.len]
  }

  /** The block in the form addresses are compared in: a mapped block is an IPv4 one. */
  function Canonical(p: Cidr): Cidr {
    if p.len >= 96 && Is4In6(p.addr) then Prefix(V4(p.addr.bits[96..]), p.len - 96) else p
  }

  /** Same family and the same leading bits: section 3.1 of RFC 4632. */
  predicate SharesPrefix(p: Cidr, a: Addr) {
    p.addr.V4? == a.V4? && a.bits[..p.len] == p.addr.bits[..p.len]
  }

  /** What an entry lists, address by address. */
  predicate Lists(e: Entry, a: Addr) {
    match e
    case Unreadable => false
    case Host(h) => a == Unmap(h)
    case Block(p) =>
      && !Straddles(p)
      && SharesPrefix(Canonical(p), a)
      && (a.V6? && a.zone != [] ==> a.bits != Last(p).bits)
  }

  ghost predicate ListsAny(entries: seq<Entry>, a: Addr) {
    exists i :: 0 <= i < |entries| && Lists(entries[i], a)
  }

  // ---- parsing an entry -------------------------------------------------------------------

  function RangeOf(e: Entry): Option<IpRange> {
    match e
    case Unreadable => None
    case Host(h) => Some(IpRange(Unmap(h), Unmap(h)))
    case Block(p) => Some(IpRange(Unmap(Masked(p)), Unmap(Last(p))))
  }

  method ParseIPEntry(e: Entry) returns (r: Option<IpRange>)
    ensures r == RangeOf(e)
  {
    match e
    case Unreadable => r := None;
    case Host(h) => r := Some(IpRange(Unmap(h), Unmap(h)));
    case Block(p) =>
      var masked := Prefix(Masked(p), p.len);
      var hi := LastAddr(masked);
      assert hi == Last(p) by {
        assert masked.addr.bits[..p.len] == p.addr.bits[..p.len];
      }
      r := Some(IpRange(Unmap(masked.addr), Unmap(hi)));
  }

  /** Keys of the same family are ordered by their bits first, then by zone. */
  lemma KeyOrder(a: Addr, b: Addr)
    ensures a.V4? && b.V4? ==> (AtMost(a, b) <==> Leq(a.bits, b.bits))
    ensures a.V6? && b.V6? ==>
      (AtMost(a, b) <==> if a.bits == b.bits then Leq(a.zone, b.zone) else Leq(a.bits, b.bits))
    ensures a.V4? && b.V6? ==> AtMost(a, b) && !AtMost(b, a)
  {
    if a.V4? && b.V4? {
      LeqSplit([32], [32], a.bits, b.bits);
    } else if a.V6? && b.V6? {
      assert Key(a) == [128] + (a.bits + a.zone) && Key(b) == [128] + (b.bits + b.zone);
      LeqSplit([128], [128], a.bits + a.zone, b.bits + b.zone);
      LeqSplit(a.bits, b.bits, a.zone, b.zone);
    }
  }

  /** The range between a block's ends, neither of them unmapped. */
  lemma RawBlockRange(p: Cidr, a: Addr)
    ensures Covers(IpRange(Masked(p), Last(p)), a) <==>
      SharesPrefix(p, a) && (a.V6? && a.zone != [] ==> a.bits != Last(p).bits)
  {
    KeyOrder(Masked(p), a);
    KeyOrder(a, Last(p));
    KeyOrder(a, Masked(p));
    KeyOrder(Last(p), a);
    if p.addr.V4? == a.V4? {
      BetweenIsSharing(p.addr.bits, p.len, a.bits);
      LeqTotal(Masked(p).bits, a.bits);
      LeqTotal(a.bits, Last(p).bits);
    }
  }

  lemma MappedEnds(p: Cidr)
    requires p.addr.V6?
    ensures Is4In6(Masked(p)) <==> p.len >= 96 && Is4In6(p.addr)
    ensures Is4In6(Last(p)) <==> Straddles(p) || (p.len >= 96 && Is4In6(p.addr))
  {
    var bits, low, high := p.addr.bits, Masked(p).bits, Last(p).bits;
    if p.len >= 96 {
      assert low[..96] == bits[..96] == high[..96];
    } else {
      assert low[95] == 0 && MAPPED[95] == 1;
      assert low[..96][95] == 0;
      if p.len < 80 {
        assert high[..96][79] == 1 && MAPPED[79] == 0;
      } else {
        assert high[..96] == bits[..p.len] + Ones(96 - p.len);
        assert MAPPED == MAPPED[..p.len] + Ones(96 - p.len);
        if high[..96] == MAPPED {
          assert high[..96][..p.len] == bits[..p.len];
        }
      }
    }
  }

  /** A block with one end in the mapped range: the first end sorts with the IPv6 addresses, the last
      with the IPv4 ones, and nothing lies between. */
  lemma StraddlingCoversNothing(p: Cidr, a: Addr)
    requires p.addr.V6? && Straddles(p)
    ensures !Covers(IpRange(Unmap(Masked(p)), Unmap(Last(p))), a)
  {
    MappedEnds(p);
    KeyOrder(Unmap(Last(p)), Masked(p));
    hide Key, Leq;
    if Covers(IpRange(Masked(p), Unmap(Last(p))), a) {
      AtMostTrans(Masked(p), a, Unmap(Last(p)));
    }
  }

  /** A block inside the mapped range covers what the IPv4 block it stands for does. */
  lemma MappedCovers(p: Cidr, a: Addr)
    requires p.addr.V6? && p.len >= 96 && Is4In6(p.addr)
    ensures Covers(IpRange(Unmap(Masked(p)), Unmap(Last(p))), a) <==> SharesPrefix(Canonical(p), a)
  {
    MappedEnds(p);
    var q := Canonical(p);
    RawBlockRange(q, a);
    hide AtMost;
    assert Unmap(Masked(p)).bits == Masked(q).bits && Unmap(Last(p)).bits == Last(q).bits;
  }

  /** The range an entry is turned into covers exactly what the entry lists. */
  lemma RangeIsEntry(e: Entry, a: Addr)
    ensures Lists(e, a) <==> RangeOf(e).Some? && Covers(RangeOf(e).value, a)
  {
    match e
    case Unreadable =>
    case Host(h) => AtMostTotal(Unmap(h), a);
    case Block(p) =>
      hide AtMost;
      if p.addr.V6? {
        MappedEnds(p);
        if Straddles(p) {
          StraddlingCoversNothing(p, a);
        } else if p.len >= 96 && Is4In6(p.addr) {
          MappedCovers(p, a);
        } else {
          RawBlockRange(p, a);
        }
      } else {
        RawBlockRange(p, a);
      }
  }

  /** A block wider than the IPv4-mapped one that holds all of it. */
  predicate HoldsMapped(p: Cidr) {
    p.addr.V6? && p.len < 96 && p.addr.bits[..p.len] == MAPPED[..p.len]
  }

  /** The block has the destination, and the matcher does not: it asks for a mapped destination as the IPv4
      address it stands for; a straddling block is empty; a zone sorts behind the block's last address. */
  predicate Misses(p: Cidr, dest: Addr) {
    SharesPrefix(p, dest) &&
    if Is4In6(dest) then HoldsMapped(p)
    else Straddles(p) || (dest.V6? && dest.zone != [] && dest.bits == Last(p).bits)
  }

  /** The block has the destination in its other form: an IPv4 block a mapped address, or a mapped block an
      IPv4 address. */
  predicate HasOtherForm(p: Cidr, dest: Addr) {
    if dest.V4? then p.len >= 96 && SharesPrefix(p, V6(MAPPED + dest.bits, []))
    else Is4In6(dest) && p.addr.V4? && SharesPrefix(p, Unmap(dest))
  }

  /** Main result. Against the RFC, for every block and every destination as the access log has it: the
      matcher answers for the block exactly if the block has the destination, in this form or the other,
      and is not one of those the matcher misses it in. So the two agree exactly outside both. */
  lemma AgreesWithRfc(p: Cidr, dest: Addr)
    ensures Lists(Block(p), Unmap(dest)) <==> (SharesPrefix(p, dest) || HasOtherForm(p, dest)) && !Misses(p, dest)
    ensures (Lists(Block(p), Unmap(dest)) <==> SharesPrefix(p, dest)) <==> !Misses(p, dest) && !HasOtherForm(p, dest)
  {
    if dest.V4? {
      if p.addr.V6? && p.len >= 96 { MappedShares(p, V6(MAPPED + dest.bits, [])); }
    } else if Is4In6(dest) {
      assert dest.bits == MAPPED + dest.bits[96..];
      if p.addr.V6? && p.len >= 96 { MappedShares(p, dest); }
      if p.addr.V6? && p.len < 96 {
        assert dest.bits[..p.len] == MAPPED[..p.len];
      }
    } else if p.addr.V6? && p.len >= 96 && Is4In6(p.addr) {
      NotMappedIsOutside(p, dest);
    }
  }

  /** Within the mapped range a block of at least 96 bits is its IPv4 block. */
  lemma MappedShares(p: Cidr, a: Addr)
    requires p.addr.V6? && p.len >= 96 && Is4In6(a)
    ensures SharesPrefix(p, a) <==> Is4In6(p.addr) && SharesPrefix(Canonical(p), Unmap(a))
  {
    var x, y := p.addr.bits, a.bits;
    assert x[..p.len] == x[..96] + x[96..][..p.len - 96];
    assert y[..p.len] == y[..96] + y[96..][..p.len - 96];
    assert x[..p.len][..96] == x[..96] && y[..p.len][..96] == y[..96];
    assert x[..p.len][96..] == x[96..][..p.len - 96] && y[..p.len][96..] == y[96..][..p.len - 96];
  }

  lemma NotMappedIsOutside(p: Cidr, a: Addr)
    requires p.addr.V6? && p.len >= 96 && Is4In6(p.addr) && a.V6? && !Is4In6(a)
    ensures !SharesPrefix(p, a)
  {
    assert p.addr.bits[..p.len][..96] == MAPPED && a.bits[..p.len][..96] == a.bits[..96];
  }

  /** Everything an address has, `::/0` among it: no mapped destination is found in it. */
  lemma MappedIsMissed(p: Cidr, dest: Addr)
    requires p.addr.V6? && p.len == 0 && Is4In6(dest)
    ensures SharesPrefix(p, dest) && !Lists(Block(p), Unmap(dest))
  {
    AgreesWithRfc(p, dest);
  }

  // ---- sorted, merged ranges --------------------------------------------------------------

  ghost predicate SortedByLo(rs: seq<IpRange>) {
    forall i, j :: 0 <= i < j < |rs| ==> AtMost(rs[i].lo, rs[j].lo)
  }

  /** In order, and every range ends before the next begins. */
  ghost predicate Separated(rs: seq<IpRange>) {
    && SortedByLo(rs)
    && forall i :: 0 <= i < |rs| - 1 ==> !AtMost(rs[i + 1].lo, rs[i].hi)
  }

  /** Stands in for the library's sort, which promises no more than this. */
  method SortByLo(rs: seq<IpRange>) returns (sorted: seq<IpRange>)
    ensures SortedByLo(sorted)
    ensures multiset(sorted) == multiset(rs)
  {
    sorted := [];
    for i := 0 to |rs|
      invariant SortedByLo(sorted)
      invariant multiset(sorted) == multiset(rs[..i])
    {
      sorted := Insert(sorted, rs[i]);
      assert rs[..i + 1] == rs[..i] + [rs[i]];
    }
    assert rs[..|rs|] == rs;
  }

  method Insert(sorted: seq<IpRange>, r: IpRange) returns (more: seq<IpRange>)
    requires SortedByLo(sorted)
    ensures SortedByLo(more)
    ensures multiset(more) == multiset(sorted) + multiset{r}
  {
    hide AtMost;
    var k := |sorted|;
    while k > 0 && !AtMost(sorted[k - 1].lo, r.lo)
      invariant 0 <= k <= |sorted|
      invariant forall j :: k <= j < |sorted| ==> AtMost(r.lo, sorted[j].lo)
    {
      AtMostTotal(sorted[k - 1].lo, r.lo);
      k := k - 1;
    }
    forall i | 0 <= i < k ensures AtMost(sorted[i].lo, r.lo) {
      AtMostTotal(sorted[i].lo, sorted[i].lo);
      AtMostTrans(sorted[i].lo, sorted[k - 1].lo, r.lo);
    }
    InsertedIsSorted(sorted, k, r);
    more := sorted[..k] + [r] + sorted[k..];
  }

  lemma InsertedIsSorted(sorted: seq<IpRange>, k: nat, r: IpRange)
    requires SortedByLo(sorted) && k <= |sorted|
    requires forall i :: 0 <= i < k ==> AtMost(sorted[i].lo, r.lo)
    requires forall i :: k <= i < |sorted| ==> AtMost(r.lo, sorted[i].lo)
    ensures var more := sorted[..k] + [r] + sorted[k..];
      SortedByLo(more) && multiset(more) == multiset(sorted) + multiset{r}
  {
    hide AtMost;
    var more := sorted[..k] + [r] + sorted[k..];
    assert sorted == sorted[..k] + sorted[k..];
    assert forall i :: 0 <= i < |more| ==> more[i] == if i < k then sorted[i] else if i == k then r else sorted[i - 1];
  }

  /** mergeRanges: `rs[..k]` is the output as it grows inside the input's own storage. */
  method MergeRanges(rs: array<IpRange>) returns (k: nat)
    requires SortedByLo(rs[..])
    modifies rs
    ensures k <= rs.Length
    ensures Separated(rs[..k])
    ensures forall a :: CoveredBy(rs[..k], a) <==> CoveredBy(old(rs[..]), a)
  {
    hide AtMost;
    if rs.Length < 2 {
      assert rs[..rs.Length] == rs[..];
      return rs.Length;
    }
    k := 1;
    ghost var was := rs[..];
    for i := 1 to rs.Length
      invariant 1 <= k <= i
      invariant rs[i..] == was[i..]
      invariant Separated(rs[..k])
      invariant forall j :: i <= j < rs.Length ==> AtMost(rs[k - 1].lo, was[j].lo)
      invariant forall a :: CoveredBy(rs[..k], a) <==> CoveredBy(was[..i], a)
    {
      var r := rs[i];
      assert r == was[i] by { assert rs[i..][0] == was[i..][0]; }
      ghost var out := rs[..k];
      assert was[..i + 1] == was[..i] + [r];
      if AtMost(r.lo, rs[k - 1].hi) {
        var last := rs[k - 1];
        if !AtMost(r.hi, last.hi) {
          rs[k - 1] := IpRange(last.lo, r.hi);
        }
        MergeOverlap(out, r, rs[..k], was[..i]);
      } else {
        rs[k] := r;
        k := k + 1;
        assert rs[..k] == out + [r];
        AppendSeparate(out, r, was[..i]);
      }
      assert rs[i + 1..] == was[i + 1..] by { assert rs[i..][1..] == was[i..][1..]; }
    }
    assert was[..rs.Length] == was;
  }

  /** Joining r into the last range covers what the two covered and nothing more. */
  lemma MergeOverlap(out: seq<IpRange>, r: IpRange, next: seq<IpRange>, seen: seq<IpRange>)
    requires out != [] && Separated(out)
    requires AtMost(out[|out| - 1].lo, r.lo) && AtMost(r.lo, out[|out| - 1].hi)
    requires var last := out[|out| - 1];
      next == out[|out| - 1 := if AtMost(r.hi, last.hi) then last else IpRange(last.lo, r.hi)]
    requires forall a :: CoveredBy(out, a) <==> CoveredBy(seen, a)
    ensures Separated(next)
    ensures forall a :: CoveredBy(next, a) <==> CoveredBy(seen + [r], a)
  {
    hide AtMost;
    var n := |out| - 1;
    var last := out[n];
    forall a ensures Covers(next[n], a) <==> Covers(last, a) || Covers(r, a) {
      if AtMost(r.hi, last.hi) {
        if Covers(r, a) {
          AtMostTrans(last.lo, r.lo, a);
          AtMostTrans(a, r.hi, last.hi);
        }
      } else {
        AtMostTotal(r.hi, last.hi);
        if Covers(last, a) { AtMostTrans(a, last.hi, r.hi); }
        if Covers(r, a) { AtMostTrans(last.lo, r.lo, a); }
        if Covers(next[n], a) && !Covers(last, a) {
          AtMostTotal(a, last.hi);
          AtMostTrans(r.lo, last.hi, a);
        }
      }
    }
    forall a ensures CoveredBy(next, a) <==> CoveredBy(seen + [r], a) {
      CoveredByAppend(seen, r, a);
      if CoveredBy(next, a) {
        var i :| 0 <= i < |next| && Covers(next[i], a);
        if i < n { assert Covers(out[i], a); }
      }
      if CoveredBy(out, a) {
        var i :| 0 <= i < |out| && Covers(out[i], a);
        assert Covers(next[i], a);
      }
      if Covers(r, a) { assert Covers(next[n], a); }
    }
  }

  lemma CoveredByAppend(rs: seq<IpRange>, r: IpRange, a: Addr)
    ensures CoveredBy(rs + [r], a) <==> CoveredBy(rs, a) || Covers(r, a)
  {
    var more := rs + [r];
    if CoveredBy(rs, a) {
      var i :| 0 <= i < |rs| && Covers(rs[i], a);
      assert Covers(more[i], a);
    }
    if Covers(r, a) { assert Covers(more[|rs|], a); }
    if CoveredBy(more, a) {
      var i :| 0 <= i < |more| && Covers(more[i], a);
      if i < |rs| { assert Covers(rs[i], a); }
    }
  }

  lemma AppendSeparate(out: seq<IpRange>, r: IpRange, seen: seq<IpRange>)
    requires out != [] && Separated(out)
    requires AtMost(out[|out| - 1].lo, r.lo) && !AtMost(r.lo, out[|out| - 1].hi)
    requires forall a :: CoveredBy(out, a) <==> CoveredBy(seen, a)
    ensures Separated(out + [r])
    ensures forall a :: CoveredBy(out + [r], a) <==> CoveredBy(seen + [r], a)
  {
    hide AtMost;
    forall i | 0 <= i < |out| ensures AtMost(out[i].lo, r.lo) {
      AtMostTotal(out[i].lo, out[i].lo);
      AtMostTrans(out[i].lo, out[|out| - 1].lo, r.lo);
    }
    forall a ensures CoveredBy(out + [r], a) <==> CoveredBy(seen + [r], a) {
      CoveredByAppend(out, r, a);
      CoveredByAppend(seen, r, a);
    }
  }

  // ---- membership -------------------------------------------------------------------------

  /** In separated ranges only the last one beginning at or before an address can cover it. */
  lemma OnlyCandidate(rs: seq<IpRange>, i: nat, j: nat, a: Addr)
    requires Separated(rs) && j < i < |rs|
    requires AtMost(rs[i].lo, a)
    ensures !Covers(rs[j], a)
  {
    hide AtMost;
    AtMostTotal(rs[i].lo, rs[i].lo);
    assert AtMost(rs[j + 1].lo, rs[i].lo);
    AtMostTrans(rs[j + 1].lo, rs[i].lo, a);
    if AtMost(a, rs[j].hi) {
      AtMostTrans(rs[j + 1].lo, a, rs[j].hi);
    }
  }

  /** ipList.has: the library's bisection for the first range beginning after a, then one look. */
  method Has(rs: seq<IpRange>, a: Addr) returns (found: bool)
    requires Separated(rs)
    ensures found <==> CoveredBy(rs, a)
  {
    hide AtMost;
    var i, j := 0, |rs|;
    while i < j
      invariant 0 <= i <= j <= |rs|
      invariant forall k :: 0 <= k < i ==> AtMost(rs[k].lo, a)
      invariant forall k :: j <= k < |rs| ==> !AtMost(rs[k].lo, a)
    {
      var h := i + (j - i) / 2;
      if AtMost(rs[h].lo, a) {
        forall k | 0 <= k < h ensures AtMost(rs[k].lo, a) {
          AtMostTrans(rs[k].lo, rs[h].lo, a);
        }
        i := h + 1;
      } else {
        forall k | h < k < |rs| ensures !AtMost(rs[k].lo, a) {
          if AtMost(rs[k].lo, a) { AtMostTrans(rs[h].lo, rs[k].lo, a); }
        }
        j := h;
      }
    }
    if i == 0 {
      return false;
    }
    found := AtMost(a, rs[i - 1].hi);
    if CoveredBy(rs, a) {
      var k :| 0 <= k < |rs| && Covers(rs[k], a);
      if k < i - 1 { OnlyCandidate(rs, i - 1, k, a); }
    }
    if found { assert Covers(rs[i - 1], a); }
  }

  // ---- the matcher ------------------------------------------------------------------------

  datatype Category = Custom | BadIP | Malware | Piracy | Gambling

  const MATCH_ORDER: seq<Category> := [Custom, BadIP]

  datatype IpList = IpList(ranges: seq<IpRange>, entries: nat)

  /** The linear scan: the first category in the order one of whose entries lists the address. */
  ghost function FirstListing(order: seq<Category>, lists: map<Category, seq<Entry>>, a: Addr): Option<Category> {
    if order == [] then None
    else if order[0] in lists && ListsAny(lists[order[0]], a) then Some(order[0])
    else FirstListing(order[1..], lists, a)
  }

  class Matcher {
    var ipLists: map<Category, IpList>
    ghost var loaded: map<Category, seq<Entry>>

    ghost predicate Valid()
      reads this
    {
      && ipLists.Keys == loaded.Keys
      && (forall c :: c in ipLists ==> Separated(ipLists[c].ranges) && ipLists[c].entries == |loaded[c]|)
      && (forall c, a :: c in ipLists ==> (CoveredBy(ipLists[c].ranges, a) <==> ListsAny(loaded[c], a)))
    }

    constructor ()
      ensures Valid() && loaded == map[]
    {
      ipLists, loaded := map[], map[];
    }

    method SetIP(cat: Category, entries: seq<Entry>)
      requires Valid()
      modifies this
      ensures Valid() && loaded == old(loaded)[cat := entries]
    {
      var ranges: seq<IpRange> := [];
      for i := 0 to |entries|
        invariant forall a :: CoveredBy(ranges, a) <==> ListsAny(entries[..i], a)
        invariant Valid() && loaded == old(loaded)
      {
        var r := ParseIPEntry(entries[i]);
        ExtendRanges(ranges, entries[..i], entries[i]);
        assert entries[..i + 1] == entries[..i] + [entries[i]];
        if r.Some? {
          ranges := ranges + [r.value];
        }
      }
      assert entries[..|entries|] == entries;
      var sorted := SortByLo(ranges);
      SameCover(ranges, sorted);
      var storage := new IpRange[|sorted|](i requires 0 <= i < |sorted| => sorted[i]);
      assert storage[..] == sorted;
      var k := MergeRanges(storage);
      ipLists := ipLists[cat := IpList(storage[..k], |entries|)];
      loaded := loaded[cat := entries];
    }

    method Clear(cat: Category)
      requires Valid()
      modifies this
      ensures Valid() && loaded == old(loaded) - {cat}
    {
      ipLists := ipLists - {cat};
      loaded := loaded - {cat};
    }

    /** `dest` is None for a destination that does not parse as an address. */
    method Match(dest: Option<Addr>) returns (cat: Option<Category>)
      requires Valid()
      ensures cat == if dest.None? then None else FirstListing(MATCH_ORDER, loaded, Unmap(dest.value))
      ensures cat.Some? ==> cat.value == Custom || cat.value == BadIP
      ensures cat == Some(Custom) <==> dest.Some? && Custom in loaded && ListsAny(loaded[Custom], Unmap(dest.value))
      ensures cat == Some(BadIP) <==>
        dest.Some? && BadIP in loaded && ListsAny(loaded[BadIP], Unmap(dest.value)) &&
        !(Custom in loaded && ListsAny(loaded[Custom], Unmap(dest.value)))
    {
      if dest.None? {
        return None;
      }
      var a := Unmap(dest.value);
      for i := 0 to |MATCH_ORDER|
        invariant FirstListing(MATCH_ORDER, loaded, a) == FirstListing(MATCH_ORDER[i..], loaded, a)
      {
        var c := MATCH_ORDER[i];
        if c in ipLists {
          var has := Has(ipLists[c].ranges, a);
          if has {
            return Some(c);
          }
        }
      }
      cat := None;
    }
  }

  lemma ExtendRanges(ranges: seq<IpRange>, entries: seq<Entry>, e: Entry)
    requires forall a :: CoveredBy(ranges, a) <==> ListsAny(entries, a)
    ensures forall a :: ListsAny(entries + [e], a) <==>
      CoveredBy(if RangeOf(e).Some? then ranges + [RangeOf(e).value] else ranges, a)
  {
    forall a ensures ListsAny(entries + [e], a) <==>
      CoveredBy(if RangeOf(e).Some? then ranges + [RangeOf(e).value] else ranges, a)
    {
      var more := entries + [e];
      RangeIsEntry(e, a);
      if RangeOf(e).Some? { CoveredByAppend(ranges, RangeOf(e).value, a); }
      if ListsAny(entries, a) {
        var i :| 0 <= i < |entries| && Lists(entries[i], a);
        assert Lists(more[i], a);
      }
      if Lists(e, a) { assert Lists(more[|entries|], a); }
      if ListsAny(more, a) {
        var i :| 0 <= i < |more| && Lists(more[i], a);
        if i < |entries| { assert Lists(entries[i], a); }
      }
    }
  }

  lemma SameCover(rs: seq<IpRange>, ss: seq<IpRange>)
    requires multiset(rs) == multiset(ss)
    ensures forall a :: CoveredBy(rs, a) <==> CoveredBy(ss, a)
  {
    forall a ensures CoveredBy(rs, a) <==> CoveredBy(ss, a) {
      if CoveredBy(rs, a) {
        var i :| 0 <= i < |rs| && Covers(rs[i], a);
        assert rs[i] in multiset(ss);
      }
      if CoveredBy(ss, a) {
        var i :| 0 <= i < |ss| && Covers(ss[i], a);
        assert ss[i] in multiset(rs);
      }
    }
  }
}
