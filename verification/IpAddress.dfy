/** Addresses as Go's net/netip orders and masks them, down to the bytes lastAddr of
    internal/abuse/ipmatch.go sets bits in. */
module IpAddress {

  type Bit = b: int | b == 0 || b == 1

  datatype RawAddr = V4(bits: seq<Bit>) | V6(bits: seq<Bit>, zone: seq<int>)

  const ANY := V4(Zeros(32))

  /** 32 or 128 bits, the most significant first; a zone is the text after a `%`. */
  type Addr = a: RawAddr | |a.bits| == BitLen(a) witness ANY

  function BitLen(a: RawAddr): nat {
    if a.V4? then 32 else 128
  }

  // ---- order ------------------------------------------------------------------------------

  /** Lexicographic order, a proper prefix first. */
  predicate Leq(a: seq<int>, b: seq<int>) {
    a == [] || (b != [] && (a[0] < b[0] || (a[0] == b[0] && Leq(a[1..], b[1..]))))
  }

  lemma {:induction false} LeqTotal(a: seq<int>, b: seq<int>)
    ensures Leq(a, b) || Leq(b, a)
    ensures Leq(a, b) && Leq(b, a) <==> a == b
  {
    if a != [] && b != [] {
      LeqTotal(a[1..], b[1..]);
      assert a == [a[0]] + a[1..] && b == [b[0]] + b[1..];
    }
  }

  lemma {:induction false} LeqTrans(a: seq<int>, b: seq<int>, c: seq<int>)
    requires Leq(a, b) && Leq(b, c)
    ensures Leq(a, c)
  {
    if a != [] && a[0] == b[0] == c[0] {
      LeqTrans(a[1..], b[1..], c[1..]);
    }
  }

  /** Equal-length heads decide unless they are equal. */
  lemma {:induction false} LeqSplit(a: seq<int>, b: seq<int>, u: seq<int>, v: seq<int>)
    requires |a| == |b|
    ensures Leq(a + u, b + v) <==> if a == b then Leq(u, v) else Leq(a, b)
  {
    if a == [] {
      assert a + u == u && b + v == v;
    } else {
      assert (a + u)[1..] == a[1..] + u && (b + v)[1..] == b[1..] + v;
      LeqSplit(a[1..], b[1..], u, v);
      assert a == [a[0]] + a[1..] && b == [b[0]] + b[1..];
    }
  }

  /** Addr.Compare: by length, then by value, then by zone. */
  function Key(a: Addr): seq<int> {
    match a
    case V4(bits) => [32] + bits
    case V6(bits, zone) => [128] + bits + zone
  }

  predicate AtMost(a: Addr, b: Addr) {
    Leq(Key(a), Key(b))
  }

  lemma KeyIsInjective(a: Addr, b: Addr)
    ensures Key(a) == Key(b) ==> a == b
  {
    assert Key(a)[0] == BitLen(a) && Key(b)[0] == BitLen(b);
    if Key(a) == Key(b) {
      assert a.bits == Key(a)[1..1 + |a.bits|] && b.bits == Key(b)[1..1 + |b.bits|];
      if a.V6? {
        assert a.zone == Key(a)[129..] && b.zone == Key(b)[129..];
      }
    }
  }

  lemma AtMostTotal(a: Addr, b: Addr)
    ensures AtMost(a, b) || AtMost(b, a)
    ensures AtMost(a, b) && AtMost(b, a) <==> a == b
  {
    LeqTotal(Key(a), Key(b));
    KeyIsInjective(a, b);
  }

  lemma AtMostTrans(a: Addr, b: Addr, c: Addr)
    requires AtMost(a, b) && AtMost(b, c)
    ensures AtMost(a, c)
  {
    LeqTrans(Key(a), Key(b), Key(c));
  }

  // ---- IPv4-mapped addresses --------------------------------------------------------------

  const MAPPED: seq<Bit> := Zeros(80) + Ones(16)

  predicate Is4In6(a: Addr) {
    a.V6? && a.bits[..96] == MAPPED
  }

  function Unmap(a: Addr): Addr {
    if Is4In6(a) then V4(a.bits[96..]) else a
  }

  // ---- prefixes ---------------------------------------------------------------------------

  function Zeros(n: nat): seq<Bit> { seq(n, _ => 0) }

  function Ones(n: nat): seq<Bit> { seq(n, _ => 1) }

  /** The bits with everything after the first n replaced. */
  function Low(bits: seq<Bit>, n: nat): seq<Bit>
    requires n <= |bits|
  {
    bits[..n] + Zeros(|bits| - n)
  }

  function High(bits: seq<Bit>, n: nat): seq<Bit>
    requires n <= |bits|
  {
    bits[..n] + Ones(|bits| - n)
  }

  lemma {:induction false} ExtremesBound(bits: seq<Bit>)
    ensures Leq(Zeros(|bits|), bits) && Leq(bits, Ones(|bits|))
  {
    if bits != [] {
      ExtremesBound(bits[1..]);
      assert Zeros(|bits|)[1..] == Zeros(|bits| - 1) && Ones(|bits|)[1..] == Ones(|bits| - 1);
    }
  }

  /** Between a prefix's first and last address lie exactly the addresses that share its bits. */
  lemma {:induction false} BetweenIsSharing(p: seq<Bit>, n: nat, bits: seq<Bit>)
    requires n <= |p| == |bits|
    ensures Leq(Low(p, n), bits) && Leq(bits, High(p, n)) <==> bits[..n] == p[..n]
  {
    var low, high := Low(p, n), High(p, n);
    if n == 0 {
      assert low == Zeros(|p|) && high == Ones(|p|);
      ExtremesBound(bits);
    } else {
      BetweenIsSharing(p[1..], n - 1, bits[1..]);
      assert low[0] == p[0] == high[0];
      assert low[1..] == Low(p[1..], n - 1) && high[1..] == High(p[1..], n - 1);
      assert bits[..n] == [bits[0]] + bits[1..][..n - 1] && p[..n] == [p[0]] + p[1..][..n - 1];
    }
  }

  datatype RawPrefix = Prefix(addr: Addr, len: nat)

  /** What netip.ParsePrefix accepts: no zone, no more bits than the address has. */
  type Cidr = p: RawPrefix | p.len <= |p.addr.bits| && (p.addr.V6? ==> p.addr.zone == [])
    witness Prefix(ANY, 0)

  function WithBits(a: Addr, bits: seq<Bit>): Addr
    requires |bits| == |a.bits|
  {
    if a.V4? then V4(bits) else V6(bits, [])
  }

  function Masked(p: Cidr): Addr {
    WithBits(p.addr, Low(p.addr.bits, p.len))
  }

  function Last(p: Cidr): Addr {
    WithBits(p.addr, High(p.addr.bits, p.len))
  }

  // ---- bytes ------------------------------------------------------------------------------

  /** 1 << (7 - k) */
  function Mask(k: nat): bv8
    requires k < 8
  {
    if k == 0 then 0x80 else if k == 1 then 0x40 else if k == 2 then 0x20 else if k == 3 then 0x10
    else if k == 4 then 0x08 else if k == 5 then 0x04 else if k == 6 then 0x02 else 0x01
  }

  function BitAt(b: seq<bv8>, j: nat): Bit
    requires j < 8 * |b|
  {
    if b[j / 8] & Mask(j % 8) != 0 then 1 else 0
  }

  lemma OrSetsOneBit(x: bv8, k: nat, j: nat)
    requires k < 8 && j < 8
    ensures (x | Mask(k)) & Mask(j) != 0 <==> j == k || x & Mask(j) != 0
  {
  }

  function Piece(on: Bit, k: nat): bv8
    requires k < 8
  {
    if on == 1 then Mask(k) else 0
  }

  function ByteOf(b: seq<Bit>): bv8
    requires |b| == 8
  {
    Piece(b[0], 0) | Piece(b[1], 1) | Piece(b[2], 2) | Piece(b[3], 3) |
    Piece(b[4], 4) | Piece(b[5], 5) | Piece(b[6], 6) | Piece(b[7], 7)
  }

  lemma ByteHoldsItsBits(b: seq<Bit>, j: nat)
    requires |b| == 8 && j < 8
    ensures ByteOf(b) & Mask(j) != 0 <==> b[j] == 1
  {
  }

  /** The 16-byte form; an IPv4 address is written as its mapped IPv6 one. */
  function Bits16(a: Addr): (bits: seq<Bit>)
    ensures |bits| == 128
  {
    if a.V4? then MAPPED + a.bits else a.bits
  }

  function As16(a: Addr): (b: seq<bv8>)
    ensures |b| == 16
  {
    seq(16, i requires 0 <= i < 16 => ByteOf(Bits16(a)[8 * i..8 * i + 8]))
  }

  lemma As16HoldsTheBits(a: Addr, j: nat)
    requires j < 128
    ensures BitAt(As16(a), j) == Bits16(a)[j]
  {
    hide ByteOf, Mask, Bits16;
    var i, k := j / 8, j % 8;
    var byte := As16(a)[i];
    assert byte == ByteOf(Bits16(a)[8 * i..8 * i + 8]) && 8 * i + k == j;
    As16HoldsAByte(Bits16(a), i, k, byte);
  }

  lemma As16HoldsAByte(bits: seq<Bit>, i: nat, k: nat, byte: bv8)
    requires |bits| == 128 && i < 16 && k < 8 && byte == ByteOf(bits[8 * i..8 * i + 8])
    ensures byte & Mask(k) != 0 <==> bits[8 * i + k] == 1
  {
    hide ByteOf, Mask;
    ByteHoldsItsBits(bits[8 * i..8 * i + 8], k);
  }

  function AddrFrom16(b: seq<bv8>): Addr
    requires |b| == 16
  {
    V6(seq(128, j requires 0 <= j < 128 => BitAt(b, j)), [])
  }

  /** Setting bit i of the byte that holds it leaves every other bit alone. */
  lemma SettingABit(b: seq<bv8>, next: seq<bv8>, i: nat)
    requires |b| == 16 && i < 128
    requires next == b[i / 8 := b[i / 8] | Mask(i % 8)]
    ensures forall j :: 0 <= j < 128 ==> BitAt(next, j) == if j == i then 1 else BitAt(b, j)
  {
    forall j | 0 <= j < 128
      ensures BitAt(next, j) == if j == i then 1 else BitAt(b, j)
    {
      OrSetsOneBit(b[i / 8], i % 8, j % 8);
    }
  }

  lemma LastFromBytes(p: Cidr, b: seq<bv8>)
    requires |b| == 16
    requires forall j :: 0 <= j < 128 ==>
      BitAt(b, j) == if j >= p.len + (if p.addr.V4? then 96 else 0) then 1 else Bits16(p.addr)[j]
    ensures Last(p) == if p.addr.V4? then Unmap(AddrFrom16(b)) else AddrFrom16(b)
  {
    var hi := AddrFrom16(b);
    if p.addr.V4? {
      assert hi.bits[..96] == MAPPED;
      assert hi.bits[96..] == High(p.addr.bits, p.len);
    } else {
      assert hi.bits == High(p.addr.bits, p.len);
    }
  }

  /** lastAddr: every host bit of the 16-byte form is set in place, one at a time. */
  method LastAddr(p: Cidr) returns (hi: Addr)
    ensures hi == Last(p)
  {
    hide BitAt, As16, AddrFrom16, Last, Mask, Unmap;
    var a := p.addr;
    var start := As16(a);
    var b := new bv8[16](i requires 0 <= i < 16 => start[i]);
    var bits := p.len;
    if a.V4? {
      bits := bits + 96;
    }
    assert b[..] == start;
    forall j | 0 <= j < 128 ensures BitAt(start, j) == Bits16(a)[j] {
      As16HoldsTheBits(a, j);
    }
    for i := bits to 128
      invariant forall j :: 0 <= j < 128 ==> BitAt(b[..], j) == if bits <= j < i then 1 else Bits16(a)[j]
    {
      ghost var before := b[..];
      b[i / 8] := b[i / 8] | Mask(i % 8);
      SettingABit(before, b[..], i);
    }
    LastFromBytes(p, b[..]);
    hi := AddrFrom16(b[..]);
    if a.V4? {
      hi := Unmap(hi);
    }
  }
}
