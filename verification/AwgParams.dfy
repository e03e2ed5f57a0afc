/** AmneziaWG parameter blocks (internal/awg/awg.go, model.go): drawn at random, validated, and carried
    between the engine's form, the store's form and the one old agents read. */
module AwgParams {
  import opened Common
  import opened AwgRange
  import opened AwgChain

  /** A key as base64 text that decodes to these bytes, or does not decode. */
  datatype Key = NoKey | Encoded(raw: seq<bv8>) | Garbage

  datatype Params = Params(jc: int, jmin: int, jmax: int, s1: int, s2: int, s3: int, s4: int,
                           h1: Range, h2: Range, h3: Range, h4: Range, headerKey: Key, padding: Range, trailers: bool,
                           i1: string, i2: string, imitation: string,
                           rekeyAfter: Range, rekeyTimeout: Range, rejectAfter: Range, keepalive: Range,
                           handshakes: Range)

  /** The store's form: ranges as text. */
  datatype Stored = Stored(jc: int, jmin: int, jmax: int, s1: int, s2: int, s3: int, s4: int,
                           h1: string, h2: string, h3: string, h4: string, headerKey: Key, padding: string,
                           trailers: bool,
                           i1: string, i2: string, imitation: string,
                           rekeyAfter: string, rekeyTimeout: string, rejectAfter: string, keepalive: string,
                           handshakes: string)

  // ---- the store's form -------------------------------------------------------------------

  function ToModel(p: Params): Stored {
    Stored(p.jc, p.jmin, p.jmax, p.s1, p.s2, p.s3, p.s4,
           Render(p.h1), Render(p.h2), Render(p.h3), Render(p.h4), p.headerKey, Render(p.padding), p.trailers,
           p.i1, p.i2, p.imitation,
           Render(p.rekeyAfter), Render(p.rekeyTimeout), Render(p.rejectAfter), Render(p.keepalive),
           Render(p.handshakes))
  }

  /** The ranges of a block and the texts of a row, in the order they are read. */
  function Ranges(p: Params): seq<Range> {
    [p.h1, p.h2, p.h3, p.h4, p.padding, p.rekeyAfter, p.rekeyTimeout, p.rejectAfter, p.keepalive, p.handshakes]
  }

  function Texts(m: Stored): seq<string> {
    [m.h1, m.h2, m.h3, m.h4, m.padding, m.rekeyAfter, m.rekeyTimeout, m.rejectAfter, m.keepalive, m.handshakes]
  }

  predicate SamePlain(m: Stored, p: Params) {
    m.jc == p.jc && m.jmin == p.jmin && m.jmax == p.jmax && m.s1 == p.s1 && m.s2 == p.s2 && m.s3 == p.s3 &&
    m.s4 == p.s4 &&
    m.headerKey == p.headerKey && m.trailers == p.trailers && m.i1 == p.i1 && m.i2 == p.i2 && m.imitation == p.imitation
  }

  /** The block is what the row says. */
  predicate Reads(m: Stored, p: Params) {
    SamePlain(m, p) && forall i :: 0 <= i < 10 ==> Parse(Texts(m)[i]) == Some(Ranges(p)[i])
  }

  predicate FirstBad(m: Stored, i: nat) {
    i < 10 && Parse(Texts(m)[i]).None? && forall k :: 0 <= k < i ==> Parse(Texts(m)[k]).Some?
  }

  /** FromModel, which writes each range through the destination named beside its text: the block the row
      says, or the first range that does not parse. */
  method FromModel(m: Stored) returns (r: Result<Params, nat>)
    ensures r.Ok? ==> Reads(m, r.value) && ReadsByName(m, r.value)
    ensures r.Err? ==> FirstBad(m, r.error)
  {
    hide Parse;
    var dst := new Range[10](_ => UNSET);
    var src := Texts(m);
    for i := 0 to 10
      invariant forall k :: 0 <= k < i ==> Parse(src[k]) == Some(dst[k])
    {
      var parsed := Parse(src[i]);
      if parsed.None? {
        return Err(i);
      }
      dst[i] := parsed.value;
    }
    var p := Params(m.jc, m.jmin, m.jmax, m.s1, m.s2, m.s3, m.s4, dst[0], dst[1], dst[2], dst[3], m.headerKey, dst[4],
                    m.trailers, m.i1, m.i2, m.imitation, dst[5], dst[6], dst[7], dst[8], dst[9]);
    Assembled(m, dst[..], p);
    hide ReadsByName, Reads;
    r := Ok(p);
  }

  lemma Assembled(m: Stored, d: seq<Range>, p: Params)
    requires |d| == 10 && forall k :: 0 <= k < 10 ==> Parse(Texts(m)[k]) == Some(d[k])
    requires p == Params(m.jc, m.jmin, m.jmax, m.s1, m.s2, m.s3, m.s4, d[0], d[1], d[2], d[3], m.headerKey, d[4],
                         m.trailers, m.i1, m.i2, m.imitation, d[5], d[6], d[7], d[8], d[9])
    ensures Reads(m, p) && ReadsByName(m, p)
  {
    hide Parse, ReadsByName;
    assert forall i :: 0 <= i < 10 ==> Ranges(p)[i] == d[i];
    EachReadsItsOwn(m, p);
  }

  /** Each range is what the text of its own name says. */
  predicate ReadsByName(m: Stored, p: Params) {
    Parse(m.h1) == Some(p.h1) && Parse(m.h2) == Some(p.h2) && Parse(m.h3) == Some(p.h3) && Parse(m.h4) == Some(p.h4) &&
    Parse(m.padding) == Some(p.padding) && Parse(m.rekeyAfter) == Some(p.rekeyAfter) &&
    Parse(m.rekeyTimeout) == Some(p.rekeyTimeout) && Parse(m.rejectAfter) == Some(p.rejectAfter) &&
    Parse(m.keepalive) == Some(p.keepalive) && Parse(m.handshakes) == Some(p.handshakes)
  }

  lemma EachReadsItsOwn(m: Stored, p: Params)
    requires Reads(m, p)
    ensures ReadsByName(m, p)
  {
    hide Parse;
    var texts, ranges := Texts(m), Ranges(p);
    assert Parse(texts[0]) == Some(ranges[0]) && Parse(texts[1]) == Some(ranges[1]);
    assert Parse(texts[2]) == Some(ranges[2]) && Parse(texts[3]) == Some(ranges[3]);
    assert Parse(texts[4]) == Some(ranges[4]) && Parse(texts[5]) == Some(ranges[5]);
    assert Parse(texts[6]) == Some(ranges[6]) && Parse(texts[7]) == Some(ranges[7]);
    assert Parse(texts[8]) == Some(ranges[8]) && Parse(texts[9]) == Some(ranges[9]);
  }

  predicate Ordered(p: Params) {
    forall i :: 0 <= i < 10 ==> Ranges(p)[i].min <= Ranges(p)[i].max
  }

  lemma SameRanges(p: Params, q: Params)
    requires Ranges(p) == Ranges(q)
    ensures p == q.(jc := p.jc, jmin := p.jmin, jmax := p.jmax, s1 := p.s1, s2 := p.s2, s3 := p.s3, s4 := p.s4,
                    headerKey := p.headerKey, trailers := p.trailers, i1 := p.i1, i2 := p.i2, imitation := p.imitation)
  {
    assert forall i :: 0 <= i < 10 ==> Ranges(p)[i] == Ranges(q)[i];
    assert Ranges(p)[0] == p.h1 && Ranges(p)[1] == p.h2 && Ranges(p)[2] == p.h3 && Ranges(p)[3] == p.h4;
    assert Ranges(p)[4] == p.padding && Ranges(p)[5] == p.rekeyAfter && Ranges(p)[6] == p.rekeyTimeout;
    assert Ranges(p)[7] == p.rejectAfter && Ranges(p)[8] == p.keepalive && Ranges(p)[9] == p.handshakes;
  }

  /** Main result. A block survives the store exactly when none of its ranges runs backwards: what its row
      reads back to is that block and no other. */
  lemma ModelRoundTrip(p: Params, q: Params)
    ensures Reads(ToModel(p), q) <==> Ordered(p) && q == p
  {
    hide Parse, Render;
    forall i | 0 <= i < 10
      ensures Parse(Texts(ToModel(p))[i]) == if Ranges(p)[i].min <= Ranges(p)[i].max then Some(Ranges(p)[i]) else None
    {
      assert Texts(ToModel(p))[i] == Render(Ranges(p)[i]);
      TextRoundTrip(Ranges(p)[i]);
    }
    if Reads(ToModel(p), q) {
      assert forall i :: 0 <= i < 10 ==> Ranges(q)[i] == Ranges(p)[i];
      assert Ranges(q) == Ranges(p);
      SameRanges(q, p);
    }
  }

  // ---- old agents -------------------------------------------------------------------------

  /** NeedsAgent31 */
  predicate NeedsAgent31(p: Params) {
    p.s3 != 0 || p.s4 != 0 || p.headerKey != NoKey || p.trailers || p.i1 != "" || p.i2 != "" ||
    p.padding != UNSET || p.rekeyAfter != UNSET || p.rekeyTimeout != UNSET || p.rejectAfter != UNSET ||
    p.keepalive != UNSET || p.handshakes != UNSET ||
    exists i :: 0 <= i < 4 && Ranges(p)[i].min != Ranges(p)[i].max
  }

  /** An old agent reads h1 to h4 as numbers. A block that needs no new one writes all four so, and each
      reads back; any header that is a band makes the block need one. */
  lemma OldAgentsReadTheHeaders(p: Params, i: nat)
    requires i < 4
    ensures !NeedsAgent31(p) ==> Marshal(Ranges(p)[i]) == Number(Ranges(p)[i].min)
    ensures !Marshal(Ranges(p)[i]).Number? ==> NeedsAgent31(p)
    ensures !NeedsAgent31(p) ==> Unmarshal(Marshal(Ranges(p)[i])) == Some(Ranges(p)[i])
  {
    assert Ranges(p)[i].min == Ranges(p)[i].max || NeedsAgent31(p);
  }

  /** All an agent of AmneziaWG 1.5 knows of a block: nine numbers. */
  datatype Old = Old(jc: int, jmin: int, jmax: int, s1: int, s2: int, h1: U32, h2: U32, h3: U32, h4: U32)

  function ForOld(p: Params): Old {
    Old(p.jc, p.jmin, p.jmax, p.s1, p.s2, p.h1.min, p.h2.min, p.h3.min, p.h4.min)
  }

  /** The block such an agent runs; the profile's name is the panel's own note, and goes to no agent. */
  function OfOld(o: Old, imitation: string): Params {
    Params(o.jc, o.jmin, o.jmax, o.s1, o.s2, 0, 0, Range(o.h1, o.h1), Range(o.h2, o.h2), Range(o.h3, o.h3),
           Range(o.h4, o.h4), NoKey, UNSET, false, "", "", imitation, UNSET, UNSET, UNSET, UNSET, UNSET)
  }

  /** A block needs a new agent exactly if the numbers an old one knows do not carry all of it. */
  lemma OldAgentsCarryAllIff(p: Params)
    ensures !NeedsAgent31(p) <==> OfOld(ForOld(p), p.imitation) == p
    ensures !NeedsAgent31(p) <==> exists o :: p == OfOld(o, p.imitation)
  {
    var h := Ranges(p);
    assert h[0] == p.h1 && h[1] == p.h2 && h[2] == p.h3 && h[3] == p.h4;
    if OfOld(ForOld(p), p.imitation) == p {
      assert p == OfOld(ForOld(p), p.imitation);
    }
  }

  // ---- what a block must keep -------------------------------------------------------------

  /** The sizes of WireGuard's handshake messages before padding. */
  const SIZE_INIT := 148
  const SIZE_RESPONSE := 92
  const SIZE_COOKIE := 64

  predicate Overlaps(r: Range, o: Range) {
    r.min <= o.max && o.min <= r.max
  }

  lemma OverlapIsASharedValue(r: Range, o: Range)
    requires r.min <= r.max && o.min <= o.max
    ensures Overlaps(r, o) <==> exists v: U32 :: Within(v, r) && Within(v, o)
  {
    if Overlaps(r, o) {
      var v: U32 := if r.min < o.min then o.min else r.min;
      assert Within(v, r) && Within(v, o);
    }
  }

  predicate Within(v: U32, r: Range) {
    r.min <= v <= r.max
  }

  function Headers(p: Params): seq<Range> {
    [p.h1, p.h2, p.h3, p.h4]
  }

  predicate GoodKey(k: Key) {
    k.NoKey? || (k.Encoded? && |k.raw| == 32)
  }

  /** The numbers stay in bounds and no two padded handshake messages have one length. */
  predicate GoodSizes(p: Params) {
    0 <= p.jc <= 128 && 0 <= p.jmin <= p.jmax <= 1280 &&
    0 <= p.s1 <= 1132 && 0 <= p.s2 <= 1188 && 0 <= p.s3 <= 1216 && 0 <= p.s4 <= 65535 &&
    SIZE_INIT + p.s1 != SIZE_RESPONSE + p.s2 && SIZE_INIT + p.s1 != SIZE_COOKIE + p.s3 &&
    SIZE_RESPONSE + p.s2 != SIZE_COOKIE + p.s3
  }

  predicate GoodHeaders(h: seq<Range>) {
    (forall i :: 0 <= i < |h| ==> h[i].min >= 5) &&
    forall i, j :: 0 <= i < j < |h| ==> !Overlaps(h[i], h[j])
  }

  ghost predicate Valid(p: Params) {
    GoodSizes(p) && GoodHeaders(Headers(p)) && GoodKey(p.headerKey) && WellFormed(p.i1) && WellFormed(p.i2)
  }

  /** Validate. It skips the cookie's length while that is not padded, which then cannot collide. */
  method Validate(p: Params) returns (ok: bool)
    ensures ok <==> Valid(p)
  {
    ok := false;
    if p.jc < 0 || p.jc > 128 {
      return;
    }
    if p.jmin < 0 || p.jmax < 0 || p.jmin > p.jmax || p.jmax > 1280 {
      return;
    }
    if p.s1 < 0 || p.s1 > 1132 || p.s2 < 0 || p.s2 > 1188 {
      return;
    }
    if p.s3 < 0 || p.s3 > 1216 || p.s4 < 0 || p.s4 > 65535 {
      return;
    }
    if SIZE_INIT + p.s1 == SIZE_RESPONSE + p.s2 {
      return;
    }
    if p.s3 > 0 && SIZE_INIT + p.s1 == SIZE_COOKIE + p.s3 {
      return;
    }
    if p.s3 > 0 && SIZE_RESPONSE + p.s2 == SIZE_COOKIE + p.s3 {
      return;
    }
    assert GoodSizes(p);
    var good := CheckHeaders(Headers(p));
    if !good {
      return;
    }
    if !p.headerKey.NoKey? && (p.headerKey.Garbage? || |p.headerKey.raw| != 32) {
      return;
    }
    var first := ValidateChain(p.i1);
    if !first {
      return;
    }
    ok := ValidateChain(p.i2);
  }

  method CheckHeaders(h: seq<Range>) returns (ok: bool)
    ensures ok <==> GoodHeaders(h)
  {
    for i := 0 to |h|
      invariant forall k :: 0 <= k < i ==> h[k].min >= 5
      invariant forall j, k :: 0 <= j < i && j < k < |h| ==> !Overlaps(h[j], h[k])
    {
      if h[i].min < 5 {
        return false;
      }
      for j := i + 1 to |h|
        invariant forall k :: i < k < j ==> !Overlaps(h[i], h[k])
      {
        if Overlaps(h[i], h[j]) {
          return false;
        }
      }
    }
    ok := true;
  }

  /** What Validate is for. Of a block whose ranges are in order: its numbers are in bounds, no two padded
      handshake messages have one length, the type of a packet tells which of the four messages it is and
      is none of WireGuard's own, and its key is whole. */
  lemma ValidIff(p: Params)
    requires Ordered(p)
    ensures Valid(p) <==>
      && 0 <= p.jc <= 128 && 0 <= p.jmin <= p.jmax <= 1280
      && 0 <= p.s1 <= 1132 && 0 <= p.s2 <= 1188 && 0 <= p.s3 <= 1216 && 0 <= p.s4 < 65536
      && {148 + p.s1} !! {92 + p.s2} !! {64 + p.s3}
      && (forall i, v: U32 :: 0 <= i < 4 && Within(v, Headers(p)[i]) ==> v !in {0, 1, 2, 3, 4})
      && (forall i, j, v: U32 :: 0 <= i < j < 4 && Within(v, Headers(p)[i]) ==> !Within(v, Headers(p)[j]))
      && (p.headerKey != NoKey ==> p.headerKey.Encoded? && |p.headerKey.raw| == 32)
      && WellFormed(p.i1) && WellFormed(p.i2)
  {
    hide WellFormed;
    var h := Headers(p);
    assert forall i :: 0 <= i < 4 ==> h[i] == Ranges(p)[i];
    forall i | 0 <= i < 4
      ensures h[i].min >= 5 <==> forall v: U32 :: Within(v, h[i]) ==> v !in {0, 1, 2, 3, 4}
    {
      assert Within(h[i].min, h[i]);
    }
    forall i, j | 0 <= i < j < 4
      ensures !Overlaps(h[i], h[j]) <==> forall v: U32 :: Within(v, h[i]) ==> !Within(v, h[j])
    {
      OverlapIsASharedValue(h[i], h[j]);
    }
    assert GoodHeaders(h) <==>
      (forall i :: 0 <= i < 4 ==> h[i].min >= 5) && forall i, j :: 0 <= i < j < 4 ==> !Overlaps(h[i], h[j]);
  }

  // ---- random blocks ----------------------------------------------------------------------

  /** One draw of the random source; it may fail, which counts as the lowest value. */
  function RandInt(d: Option<nat>, lo: int, hi: int): (n: int)
    requires lo <= hi
    ensures lo <= n <= hi
  {
    if d.None? then lo else lo + d.value % (hi - lo + 1)
  }

  /** Draws are handed out in order; without one left the generator would still be redrawing. */
  class Source {
    var left: seq<Option<nat>>

    constructor (draws: seq<Option<nat>>) {
      left := draws;
    }

    method Draw(lo: int, hi: int) returns (n: int, dry: bool)
      requires lo <= hi
      modifies this
      ensures lo <= n <= hi
      ensures dry <==> old(left) == []
      ensures !dry ==> n == RandInt(old(left)[0], lo, hi) && left == old(left)[1..]
      ensures dry ==> left == []
    {
      if left == [] {
        return lo, true;
      }
      n, dry := RandInt(left[0], lo, hi), false;
      left := left[1..];
    }

    method Band(lo: int, hi: int, spread: int) returns (r: Range, dry: bool)
      requires 0 <= lo <= hi && 0 < spread && hi + spread < LIMIT
      modifies this
      ensures lo <= r.min <= hi && r.max == r.min + spread
      ensures dry <==> old(left) == []
      ensures dry ==> left == []
    {
      var start;
      start, dry := Draw(lo, hi);
      r := Range(start, start + spread);
    }
  }

  /** The block assembled from what was drawn; the rest is fixed. */
  function Block(jc: int, s1: int, s2: int, s3: int, s4: int, h: seq<Range>, key: Key, im: Imitation): Params
    requires |h| == 4
  {
    Params(jc, 50, 1000, s1, s2, s3, s4, h[0], h[1], h[2], h[3], key, Range(0, 32), true,
           Joined(im.i1), Joined(im.i2), im.name,
           Range(110, 130), Range(4, 6), Range(175, 195), Range(12, 18), Range(10, 15))
  }

  lemma BlockIsGood(jc: int, s1: int, s2: int, s3: int, s4: int, h: seq<Range>, key: Key, k: nat)
    requires 3 <= jc <= 8 && 30 <= s1 <= 120 && 30 <= s2 <= 120 && 30 <= s3 <= 120 && 12 <= s4 <= 30
    requires SIZE_INIT + s1 != SIZE_RESPONSE + s2 && SIZE_INIT + s1 != SIZE_COOKIE + s3 &&
      SIZE_RESPONSE + s2 != SIZE_COOKIE + s3
    requires |h| == 4 && InQuarters(h) && GoodKey(key) && k < |IMITATIONS|
    ensures var p := Block(jc, s1, s2, s3, s4, h, key, IMITATIONS[k]);
      Valid(p) && Ordered(p) && NeedsAgent31(p) && Wears(p, IMITATIONS[k]) && p.headerKey == key
  {
    hide Joined, WellFormed;
    ImitationsAreWellFormed(k);
    var p := Block(jc, s1, s2, s3, s4, h, key, IMITATIONS[k]);
    assert Headers(p) == h;
    assert GoodHeaders(h);
  }

  /** Four bands, each below the next and clear of WireGuard's own types. */
  predicate InQuarters(h: seq<Range>) {
    |h| == 4 && (forall i :: 0 <= i < 4 ==> 5 <= h[i].min <= h[i].max) &&
    forall i, j :: 0 <= i < j < 4 ==> h[i].max < h[j].min
  }

  /** RandomParams. Whatever is drawn, a block it returns passes Validate, runs no range backwards, and
      has every part only a new agent can carry; it returns none only when the draws have run out. */
  method RandomParams(source: Source, key: Option<seq<bv8>>) returns (r: Option<Params>)
    requires key.Some? ==> |key.value| == 32
    modifies source
    ensures r.Some? ==> Valid(r.value) && Ordered(r.value) && NeedsAgent31(r.value)
    ensures r.Some? ==> r.value.headerKey == if key.None? then NoKey else Encoded(key.value)
    ensures r.Some? ==> exists k :: 0 <= k < |IMITATIONS| && Wears(r.value, IMITATIONS[k])
    ensures r.None? ==> source.left == []
  {
    ThreeProfiles();
    hide *;
    r := None;
    var jc, dry := source.Draw(3, 8);
    var s1, s2, s3, s4;
    s1, dry := source.Draw(30, 120);
    s2, dry := source.Draw(30, 120);
    s3, dry := source.Draw(30, 120);
    s4, dry := source.Draw(12, 30);
    s2, s3, dry := Redraw(source, s1, s2, s3);
    if dry {
      return;
    }
    var spread;
    spread, dry := source.Draw(50_000, 200_000);
    var h := DrawBands(source, spread);
    var k;
    k, dry := source.Draw(0, |IMITATIONS| - 1);
    if dry {
      return;
    }
    var headerKey := if key.None? then NoKey else Encoded(key.value);
    IsGoodKey(key);
    BlockIsGood(jc, s1, s2, s3, s4, h, headerKey, k);
    r := Some(Block(jc, s1, s2, s3, s4, h, headerKey, IMITATIONS[k]));
  }

  lemma ThreeProfiles()
    ensures |IMITATIONS| == 3
  {
  }

  lemma IsGoodKey(key: Option<seq<bv8>>)
    requires key.Some? ==> |key.value| == 32
    ensures GoodKey(if key.None? then NoKey else Encoded(key.value))
  {
  }

  /** The redraws that keep the padded lengths apart. */
  method Redraw(source: Source, s1: int, s2': int, s3': int) returns (s2: int, s3: int, dry: bool)
    requires 30 <= s2' <= 120 && 30 <= s3' <= 120
    modifies source
    ensures 30 <= s2 <= 120 && 30 <= s3 <= 120
    ensures !dry ==> SIZE_INIT + s1 != SIZE_RESPONSE + s2
    ensures !dry ==> SIZE_INIT + s1 != SIZE_COOKIE + s3 && SIZE_RESPONSE + s2 != SIZE_COOKIE + s3
    ensures dry ==> source.left == []
  {
    s2, s3, dry := s2', s3', false;
    while SIZE_INIT + s1 == SIZE_RESPONSE + s2
      invariant 30 <= s2 <= 120 && !dry
      decreases |source.left|
    {
      s2, dry := source.Draw(30, 120);
      if dry {
        return;
      }
    }
    while SIZE_INIT + s1 == SIZE_COOKIE + s3 || SIZE_RESPONSE + s2 == SIZE_COOKIE + s3
      invariant 30 <= s3 <= 120 && !dry
      decreases |source.left|
    {
      s3, dry := source.Draw(30, 120);
      if dry {
        return;
      }
    }
  }

  /** Four bands, one a message type, each in its own quarter of the 32-bit space. */
  method DrawBands(source: Source, spread: int) returns (h: seq<Range>)
    requires 50_000 <= spread <= 200_000
    modifies source
    ensures |h| == 4 && InQuarters(h)
    ensures old(source.left) == [] ==> source.left == []
  {
    var h1, h2, h3, h4, dry;
    h1, dry := source.Band(100_000_000, 900_000_000, spread);
    h2, dry := source.Band(1_000_000_000, 1_900_000_000, spread);
    h3, dry := source.Band(2_000_000_000, 2_900_000_000, spread);
    h4, dry := source.Band(3_000_000_000, 3_900_000_000, spread);
    h := [h1, h2, h3, h4];
  }

  predicate Wears(p: Params, im: Imitation) {
    p.i1 == Joined(im.i1) && p.i2 == Joined(im.i2) && p.imitation == im.name
  }
}
