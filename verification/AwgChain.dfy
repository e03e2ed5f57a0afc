/** Decoy chains of internal/awg/imitate.go: the tag language, the check an ill-formed chain must not
    pass, and the profiles a server can be given. */
module AwgChain {
  import opened Common
  import opened AwgRange

  /** maxChainRun */
  const MAX_RUN := 1400

  /** strings.Fields */
  function Fields(s: string): seq<string>
    decreases |s|
  {
    if s == "" then []
    else if IsSpace(s[0]) then Fields(s[1..])
    else
      var n := WordEnd(s);
      [s[..n]] + Fields(s[n..])
  }

  function WordEnd(s: string): (n: nat)
    ensures n <= |s| && (s != "" && !IsSpace(s[0]) ==> n > 0)
    ensures forall i :: 0 <= i < n ==> !IsSpace(s[i])
    ensures n < |s| ==> IsSpace(s[n])
  {
    if s == "" || IsSpace(s[0]) then 0 else 1 + WordEnd(s[1..])
  }

  predicate IsHex(c: char) {
    IsDigit(c) || 'a' <= c <= 'f' || 'A' <= c <= 'F'
  }

  predicate AllHex(s: string) {
    forall i :: 0 <= i < |s| ==> IsHex(s[i])
  }

  /** strconv.Atoi, on numbers that fit 64 bits. */
  function Atoi(s: string): Option<int> {
    var digits := if s != "" && (s[0] == '+' || s[0] == '-') then s[1..] else s;
    if digits == "" || !AllDigits(digits) || Value(digits) >= 0x8000_0000_0000_0000 then None
    else
      var n: int := Value(digits);
      Some(if s[0] == '-' then -n else n)
  }

  function ArgOf(parts: seq<string>): string {
    if |parts| > 1 then parts[1] else ""
  }

  function Unprefixed(s: string): string {
    if "0x" <= s then s[2..] else s
  }

  const PLAIN_TAGS: set<string> := {"t", "d", "ds", "dz"}
  const RUN_TAGS: set<string> := {"r", "rc", "rd"}

  /** The engine takes a tag with this text between its brackets. */
  predicate TagOk(body: string) {
    var parts := Fields(body);
    parts != [] &&
    if parts[0] == "b" then
      var hex := Unprefixed(ArgOf(parts));
      hex != "" && |hex| % 2 == 0 && AllHex(hex)
    else if parts[0] in RUN_TAGS then
      var n := Atoi(ArgOf(parts));
      n.Some? && 0 < n.value <= MAX_RUN
    else parts[0] in PLAIN_TAGS
  }

  function Bracketed(body: string): string {
    "<" + body + ">"
  }

  function Joined(bodies: seq<string>): string {
    if bodies == [] then "" else Bracketed(bodies[0]) + Joined(bodies[1..])
  }

  predicate TagsOk(bodies: seq<string>) {
    forall b :: b in bodies ==> TagOk(b) && '>' !in b
  }

  /** A chain is well-formed when it is such tags one after another, and nothing else. */
  ghost predicate WellFormed(chain: string) {
    exists bodies :: TagsOk(bodies) && chain == Joined(bodies)
  }

  lemma OneMoreTag(body: string, rest: string)
    requires TagOk(body) && '>' !in body
    ensures WellFormed(Bracketed(body) + rest) <== WellFormed(rest)
  {
    if WellFormed(rest) {
      var bodies :| TagsOk(bodies) && rest == Joined(bodies);
      assert ([body] + bodies)[1..] == bodies;
      assert TagsOk([body] + bodies);
    }
  }

  /** A well-formed chain that is not over starts with a whole tag, and goes on as one. */
  lemma FirstTag(chain: string)
    requires WellFormed(chain) && chain != ""
    ensures chain[0] == '<' && IndexOf(chain, '>') < |chain|
    ensures TagOk(chain[1..IndexOf(chain, '>')]) && WellFormed(chain[IndexOf(chain, '>') + 1..])
  {
    hide TagOk;
    var bodies :| TagsOk(bodies) && chain == Joined(bodies);
    assert bodies != [];
    var b, rest := bodies[0], bodies[1..];
    assert b in bodies && TagsOk(rest);
    assert Joined(bodies) == Bracketed(b) + Joined(rest);
    hide Joined, IndexOf;
    FirstClosing(b, Joined(rest));
  }

  lemma FirstClosing(body: string, rest: string)
    requires '>' !in body
    ensures var s := "<" + body + ">" + rest;
      IndexOf(s, '>') == |body| + 1 && s[1..|body| + 1] == body && s[|body| + 2..] == rest
  {
    var s := "<" + body + ">" + rest;
    assert s[|body| + 1] == '>';
    forall k | 0 <= k < |body| + 1 ensures s[k] != '>' {
      if k > 0 { assert s[k] == body[k - 1] && body[k - 1] in body; }
    }
  }

  /** validateChain, tag by tag: it accepts exactly the well-formed chains. */
  method ValidateChain(spec: string) returns (ok: bool)
    ensures ok <==> WellFormed(spec)
  {
    var rest := spec;
    EmptyIsWellFormed();
    while rest != ""
      invariant WellFormed(rest) <==> WellFormed(spec)
      decreases |rest|
    {
      if WellFormed(rest) { FirstTag(rest); }
      if rest[0] != '<' {
        return false;
      }
      var end := IndexOf(rest, '>');
      if end == |rest| {
        return false;
      }
      var parts := Fields(rest[1..end]);
      if |parts| == 0 {
        return false;
      }
      if parts[0] == "b" {
        var hex := Unprefixed(ArgOf(parts));
        if hex == "" || |hex| % 2 != 0 || !AllHex(hex) {
          return false;
        }
      } else if parts[0] in RUN_TAGS {
        var n := Atoi(ArgOf(parts));
        if n.None? || n.value <= 0 || n.value > MAX_RUN {
          return false;
        }
      } else if parts[0] !in PLAIN_TAGS {
        return false;
      }
      ghost var body := rest[1..end];
      assert '>' !in body;
      assert rest == Bracketed(body) + rest[end + 1..];
      OneMoreTag(body, rest[end + 1..]);
      rest := rest[end + 1..];
    }
    ok := true;
  }

  lemma EmptyIsWellFormed()
    ensures WellFormed("")
  {
    var none: seq<string> := [];
    assert TagsOk(none) && Joined(none) == "";
  }

  // ---- the profiles -----------------------------------------------------------------------

  function Run(kind: string, n: nat): string {
    kind + " " + Decimal(n)
  }

  function Bytes(hex: string): string {
    "b " + "0x" + hex
  }

  datatype Imitation = Imitation(name: string, i1: seq<string>, i2: seq<string>)

  const QUIC := Imitation("quic",
    [Bytes("c30000000108"), Run("r", 8), Bytes("08"), Run("r", 8), Bytes("004496"), Run("r", 1174)],
    [Bytes("e30000000108"), Run("r", 8), Bytes("08"), Run("r", 8), Bytes("40c8"), Run("r", 200)])

  const DNS := Imitation("dns",
    [Run("r", 2), Bytes("010000010000000000000c"), Run("rc", 12), Bytes("03636f6d0000010001")],
    [Run("r", 2), Bytes("010000010000000000000c"), Run("rc", 12), Bytes("03636f6d00001c0001")])

  const STUN := Imitation("stun",
    [Bytes("000100002112a442"), Run("r", 12)],
    [Bytes("000100082112a442"), Run("r", 12), Bytes("00240004"), "t"])

  const IMITATIONS: seq<Imitation> := [QUIC, DNS, STUN]

  predicate NoSpace(s: string) {
    forall i :: 0 <= i < |s| ==> !IsSpace(s[i])
  }

  lemma OneField(a: string)
    requires a != "" && NoSpace(a)
    ensures Fields(a) == [a]
  {
    assert a[..|a|] == a && a[|a|..] == "";
    assert Fields(a[|a|..]) == [];
  }

  lemma TwoFields(a: string, b: string)
    requires a != "" && NoSpace(a) && b != "" && NoSpace(b)
    ensures Fields(a + " " + b) == [a, b]
  {
    var s := a + " " + b;
    assert IsSpace(s[|a|]) && forall i :: 0 <= i < |a| ==> s[i] == a[i];
    assert WordEnd(s) == |a|;
    assert s[..|a|] == a && s[|a|..] == " " + b && (" " + b)[1..] == b;
    OneField(b);
  }

  lemma AtoiReadsBack(n: nat)
    ensures Atoi(Decimal(n)) == if n < 0x8000_0000_0000_0000 then Some(n) else None
    ensures Decimal(n) != "" && NoSpace(Decimal(n)) && '>' !in Decimal(n)
  {
    var d := Decimal(n);
    DecimalReadsBack(n);
    hide Decimal;
    assert IsDigit(d[0]);
    forall i | 0 <= i < |d| ensures IsDigit(d[i]) && d[i] != '>' && !IsSpace(d[i]) {
    }
  }

  /** A run of random bytes is taken exactly from one byte to 1400. */
  lemma RunIsOkIff(kind: string, n: nat)
    requires kind == "r" || kind == "rc" || kind == "rd"
    ensures TagOk(Run(kind, n)) <==> 1 <= n <= 1400
    ensures '>' !in Run(kind, n)
  {
    AtoiReadsBack(n);
    hide Atoi, Decimal, Fields;
    TwoFields(kind, Decimal(n));
    assert '>' !in kind;
  }

  /** Fixed bytes are taken exactly as whole bytes in hex digits, at least one. */
  lemma BytesIsOkIff(hex: string)
    requires NoSpace(hex)
    ensures TagOk(Bytes(hex)) <==>
      hex != "" && |hex| % 2 == 0 &&
      forall i :: 0 <= i < |hex| ==> '0' <= hex[i] <= '9' || 'a' <= hex[i] <= 'f' || 'A' <= hex[i] <= 'F'
  {
    var arg := "0x" + hex;
    BytesFields(hex);
    assert Unprefixed(arg) == hex by { assert arg[2..] == hex && "0x" <= arg; }
    HexIs(hex);
    hide Fields, Atoi, Unprefixed, AllHex, Bytes;
  }

  lemma BytesFields(hex: string)
    requires NoSpace(hex)
    ensures Fields(Bytes(hex)) == ["b", "0x" + hex]
  {
    var arg := "0x" + hex;
    assert NoSpace(arg) by {
      assert forall i :: 0 <= i < |hex| ==> arg[i + 2] == hex[i];
    }
    hide Fields;
    TwoFields("b", arg);
    assert Bytes(hex) == "b" + " " + arg;
  }

  lemma HexIs(hex: string)
    ensures AllHex(hex) <==>
      forall i :: 0 <= i < |hex| ==> '0' <= hex[i] <= '9' || 'a' <= hex[i] <= 'f' || 'A' <= hex[i] <= 'F'
  {
  }

  /** No other kind of tag is taken but the plain ones, which need no argument. */
  lemma OtherTagsAreOkIff(kind: string)
    requires kind != "" && NoSpace(kind) && kind !in {"b", "r", "rc", "rd"}
    ensures TagOk(kind) <==> kind == "t" || kind == "d" || kind == "ds" || kind == "dz"
  {
    OneField(kind);
  }

  lemma RunIsOk(kind: string, n: nat)
    requires kind in RUN_TAGS && 0 < n <= MAX_RUN
    ensures TagOk(Run(kind, n)) && '>' !in Run(kind, n)
  {
    RunIsOkIff(kind, n);
  }

  lemma BytesIsOk(hex: string)
    requires hex != "" && |hex| % 2 == 0 && AllHex(hex)
    ensures TagOk(Bytes(hex)) && '>' !in Bytes(hex)
  {
    assert forall i :: 0 <= i < |hex| ==> IsHex(hex[i]) && !IsSpace(hex[i]) && hex[i] != '>';
    BytesIsOkIff(hex);
    hide TagOk;
  }

  lemma StampIsOk()
    ensures TagOk("t") && '>' !in "t"
  {
    OneField("t");
  }

  lemma QuicIsOk()
    ensures TagsOk(QUIC.i1) && TagsOk(QUIC.i2)
  {
    hide TagOk, Bytes, Run;
    BytesIsOk("c30000000108");
    BytesIsOk("e30000000108");
    BytesIsOk("08");
    BytesIsOk("004496");
    BytesIsOk("40c8");
    RunIsOk("r", 8);
    RunIsOk("r", 1174);
    RunIsOk("r", 200);
  }

  lemma DnsIsOk()
    ensures TagsOk(DNS.i1) && TagsOk(DNS.i2)
  {
    hide TagOk, Bytes, Run;
    BytesIsOk("010000010000000000000c");
    BytesIsOk("03636f6d0000010001");
    BytesIsOk("03636f6d00001c0001");
    RunIsOk("r", 2);
    RunIsOk("rc", 12);
  }

  lemma StunIsOk()
    ensures TagsOk(STUN.i1) && TagsOk(STUN.i2)
  {
    hide TagOk, Bytes, Run;
    BytesIsOk("000100002112a442");
    BytesIsOk("000100082112a442");
    BytesIsOk("00240004");
    RunIsOk("r", 12);
    StampIsOk();
  }

  /** Every profile's chains are ones the engine takes. */
  lemma ImitationsAreWellFormed(i: nat)
    requires i < |IMITATIONS|
    ensures WellFormed(Joined(IMITATIONS[i].i1)) && WellFormed(Joined(IMITATIONS[i].i2))
  {
    QuicIsOk();
    DnsIsOk();
    StunIsOk();
    hide TagsOk, Joined;
    assert IMITATIONS[i] == QUIC || IMITATIONS[i] == DNS || IMITATIONS[i] == STUN;
    assert TagsOk(IMITATIONS[i].i1) && TagsOk(IMITATIONS[i].i2);
  }
}
