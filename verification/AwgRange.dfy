/** A parameter range of internal/awg/awg.go in its three forms: the pair, the text of configs and
    stored rows, and the JSON value nodes are sent. */
module AwgRange {
  import opened Common

  const LIMIT := 0x1_0000_0000

  type U32 = n: nat | n < LIMIT

  /** A closed interval; the zero one means "not set". */
  datatype Range = Range(min: U32, max: U32)

  const UNSET := Range(0, 0)

  // ---- decimal numbers --------------------------------------------------------------------

  function DigitChar(d: nat): char
    requires d < 10
  {
    "0123456789"[d]
  }

  predicate IsDigit(c: char) {
    '0' <= c <= '9'
  }

  function DigitOf(c: char): nat
    requires IsDigit(c)
  {
    c as int - '0' as int
  }

  lemma DigitsMeet(d: nat)
    requires d < 10
    ensures IsDigit(DigitChar(d)) && DigitOf(DigitChar(d)) == d
  {
    assert "0123456789"[0] == '0' && "0123456789"[1] == '1' && "0123456789"[2] == '2' && "0123456789"[3] == '3' &&
      "0123456789"[4] == '4' && "0123456789"[5] == '5' && "0123456789"[6] == '6' && "0123456789"[7] == '7' &&
      "0123456789"[8] == '8' && "0123456789"[9] == '9';
  }

  function Decimal(n: nat): string {
    if n < 10 then [DigitChar(n)] else Decimal(n / 10) + [DigitChar(n % 10)]
  }

  predicate AllDigits(s: string) {
    forall i :: 0 <= i < |s| ==> IsDigit(s[i])
  }

  function Value(s: string): nat
    requires AllDigits(s)
  {
    if s == "" then 0 else 10 * Value(s[..|s| - 1]) + DigitOf(s[|s| - 1])
  }

  /** strconv.ParseUint(s, 10, 32) */
  function ParseUint(s: string): Option<U32> {
    if s != "" && AllDigits(s) && Value(s) < LIMIT then Some(Value(s)) else None
  }

  lemma {:induction false} DecimalReadsBack(n: nat)
    ensures Decimal(n) != "" && AllDigits(Decimal(n)) && Value(Decimal(n)) == n
  {
    DigitsMeet(n % 10);
    if n >= 10 {
      DecimalReadsBack(n / 10);
      var s := Decimal(n);
      assert s[..|s| - 1] == Decimal(n / 10);
      assert n == 10 * (n / 10) + n % 10;
    } else {
      assert Decimal(n)[..0] == "";
    }
  }

  // ---- white space and cutting ------------------------------------------------------------

  /** unicode.IsSpace */
  predicate IsSpace(c: char) {
    var n := c as int;
    9 <= n <= 13 || n == 32 || n == 0x85 || n == 0xA0 || n == 0x1680 || 0x2000 <= n <= 0x200A ||
    n == 0x2028 || n == 0x2029 || n == 0x202F || n == 0x205F || n == 0x3000
  }

  function TrimLeft(s: string): string {
    if s != "" && IsSpace(s[0]) then TrimLeft(s[1..]) else s
  }

  function TrimRight(s: string): string {
    if s != "" && IsSpace(s[|s| - 1]) then TrimRight(s[..|s| - 1]) else s
  }

  /** strings.TrimSpace */
  function Trim(s: string): string {
    TrimRight(TrimLeft(s))
  }

  lemma TrimNothing(s: string)
    requires s == "" || (!IsSpace(s[0]) && !IsSpace(s[|s| - 1]))
    ensures Trim(s) == s
  {
  }

  /** The first index of a character, or the length. */
  function IndexOf(s: string, c: char): (i: nat)
    ensures i <= |s| && (i < |s| ==> s[i] == c) && forall k :: 0 <= k < i ==> s[k] != c
  {
    if s == "" || s[0] == c then 0 else 1 + IndexOf(s[1..], c)
  }

  // ---- text -------------------------------------------------------------------------------

  function Render(r: Range): string {
    if r == UNSET then ""
    else if r.min == r.max then Decimal(r.min)
    else Decimal(r.min) + "-" + Decimal(r.max)
  }

  function Parse(text: string): Option<Range> {
    var s := Trim(text);
    if s == "" then Some(UNSET)
    else
      var cut := IndexOf(s, '-');
      var min := ParseUint(Trim(s[..cut]));
      var max := if cut < |s| then ParseUint(Trim(s[cut + 1..])) else min;
      if min.None? || max.None? || max.value < min.value then None else Some(Range(min.value, max.value))
  }

  lemma DigitsAreBare(s: string)
    requires AllDigits(s)
    ensures Trim(s) == s && IndexOf(s, '-') == |s|
  {
    TrimNothing(s);
  }

  /** What a range parses back to from its own text: itself, exactly when it does not run backwards. */
  lemma TextRoundTrip(r: Range)
    ensures Parse(Render(r)) == if r.min <= r.max then Some(r) else None
  {
    DecimalReadsBack(r.min);
    DecimalReadsBack(r.max);
    DigitsAreBare(Decimal(r.min));
    DigitsAreBare(Decimal(r.max));
    hide Decimal;
    var s := Render(r);
    if r == UNSET {
      TrimNothing("");
    } else if r.min == r.max {
      assert s[..|s|] == s;
    } else {
      PairParses(Decimal(r.min), Decimal(r.max));
    }
  }

  /** Two bare numbers with a dash between them. */
  lemma PairParses(lo: string, hi: string)
    requires lo != "" && hi != "" && AllDigits(lo) && AllDigits(hi) && Trim(lo) == lo && Trim(hi) == hi
    ensures var s := lo + "-" + hi; var min, max := ParseUint(lo), ParseUint(hi);
      Parse(s) == if min.None? || max.None? || max.value < min.value then None else Some(Range(min.value, max.value))
  {
    hide ParseUint, Trim;
    var s := lo + "-" + hi;
    assert s[0] == lo[0] && s[|s| - 1] == hi[|hi| - 1];
    TrimNothing(s);
    CutAt(lo, hi);
  }

  lemma CutAt(lo: string, hi: string)
    requires AllDigits(lo)
    ensures var s := lo + "-" + hi; IndexOf(s, '-') == |lo| && s[..|lo|] == lo && s[|lo| + 1..] == hi
  {
    var s := lo + "-" + hi;
    assert s[|lo|] == '-';
    assert forall k :: 0 <= k < |lo| ==> s[k] == lo[k] && IsDigit(s[k]);
  }

  /** Whatever the text, a range that parses does not run backwards, and its own text says the same. */
  lemma ParsedIsOrdered(text: string)
    ensures var r := Parse(text); r.Some? ==> r.value.min <= r.value.max && Parse(Render(r.value)) == r
  {
    if Parse(text).Some? {
      TextRoundTrip(Parse(text).value);
    }
  }

  // ---- which texts are ranges ---------------------------------------------------------------

  predicate Blank(s: string) {
    forall i :: 0 <= i < |s| ==> IsSpace(s[i])
  }

  /** Decimal digits that say the number, leading zeros or not. */
  predicate Numeral(s: string, n: nat) {
    s != "" && AllDigits(s) && Value(s) == n
  }

  /** s between white space. */
  ghost predicate Padded(text: string, s: string) {
    exists before, after :: Blank(before) && Blank(after) && text == before + s + after
  }

  /** The text is blank and unsets the range, or is its number, or its two numbers with a dash between them,
      each with any white space around it. */
  ghost predicate Says(text: string, r: Range) {
    || (Blank(text) && r == UNSET)
    || (r.min == r.max && exists n :: Numeral(n, r.min) && Padded(text, n))
    || (r.min <= r.max && exists i :: DashAt(text, i, r))
  }

  ghost predicate DashAt(text: string, i: int, r: Range) {
    0 <= i < |text| && text[i] == '-' &&
    (exists lo :: Numeral(lo, r.min) && Padded(text[..i], lo)) &&
    exists hi :: Numeral(hi, r.max) && Padded(text[i + 1..], hi)
  }

  /** Trimming takes off white space alone, and leaves none at either end. */
  lemma {:induction false} TrimLeftSplits(s: string) returns (before: string)
    ensures Blank(before) && s == before + TrimLeft(s) && (TrimLeft(s) == "" || !IsSpace(TrimLeft(s)[0]))
  {
    before := "";
    if s != "" && IsSpace(s[0]) {
      var rest := TrimLeftSplits(s[1..]);
      before := [s[0]] + rest;
    }
  }

  lemma {:induction false} TrimRightSplits(s: string) returns (after: string)
    ensures Blank(after) && s == TrimRight(s) + after
    ensures TrimRight(s) == "" || (!IsSpace(TrimRight(s)[|TrimRight(s)| - 1]) && TrimRight(s)[0] == s[0])
    decreases |s|
  {
    after := "";
    if s != "" && IsSpace(s[|s| - 1]) {
      var rest := TrimRightSplits(s[..|s| - 1]);
      after := rest + [s[|s| - 1]];
      assert s == s[..|s| - 1] + [s[|s| - 1]];
    }
  }

  lemma TrimSplits(s: string)
    ensures Padded(s, Trim(s))
    ensures Trim(s) == "" || (!IsSpace(Trim(s)[0]) && !IsSpace(Trim(s)[|Trim(s)| - 1]))
  {
    var before := TrimLeftSplits(s);
    var after := TrimRightSplits(TrimLeft(s));
    assert s == before + Trim(s) + after;
  }

  lemma {:induction false} TrimLeftBlank(before: string, s: string)
    requires Blank(before)
    ensures TrimLeft(before + s) == TrimLeft(s)
  {
    if before == "" {
      assert before + s == s;
    } else {
      TrimLeftBlank(before[1..], s);
      assert (before + s)[1..] == before[1..] + s;
    }
  }

  lemma {:induction false} TrimRightBlank(s: string, after: string)
    requires Blank(after)
    ensures TrimRight(s + after) == TrimRight(s)
    decreases |after|
  {
    if after == "" {
      assert s + after == s;
    } else {
      TrimRightBlank(s, after[..|after| - 1]);
      assert (s + after)[..|s + after| - 1] == s + after[..|after| - 1];
    }
  }

  /** What stands bare between white space is what trimming leaves. */
  lemma TrimmedIs(text: string, s: string)
    requires Padded(text, s) && (s == "" || (!IsSpace(s[0]) && !IsSpace(s[|s| - 1])))
    ensures Trim(text) == s
  {
    var before, after :| Blank(before) && Blank(after) && text == before + s + after;
    assert text == before + (s + after);
    TrimLeftBlank(before, s + after);
    if s == "" {
      assert s + after == after && after + "" == after;
      TrimLeftBlank(after, "");
    } else {
      assert TrimLeft(s + after) == s + after;
      TrimRightBlank(s, after);
    }
  }

  lemma NumberIsIff(text: string, n: U32)
    ensures ParseUint(Trim(text)) == Some(n) <==> exists s :: Numeral(s, n) && Padded(text, s)
  {
    TrimSplits(text);
    if s :| Numeral(s, n) && Padded(text, s) {
      TrimmedIs(text, s);
    }
    if ParseUint(Trim(text)) == Some(n) {
      assert Numeral(Trim(text), n);
    }
  }

  lemma NumeralIsBare(s: string, n: nat)
    requires Numeral(s, n)
    ensures !IsSpace(s[0]) && !IsSpace(s[|s| - 1]) && '-' !in s
  {
    assert forall i :: 0 <= i < |s| ==> IsDigit(s[i]);
  }

  /** White space around the whole is white space around its first and its last number. */
  lemma DashInTrimmed(text: string, r: Range)
    ensures (exists i :: DashAt(text, i, r)) <==> exists i :: DashAt(Trim(text), i, r)
  {
    TrimSplits(text);
    var s := Trim(text);
    var before, after :| Blank(before) && Blank(after) && text == before + s + after;
    if i :| DashAt(s, i, r) {
      DashOutward(text, s, before, after, i, r);
    }
    if i :| DashAt(text, i, r) {
      DashInward(text, s, before, after, i, r);
    }
  }

  lemma DashOutward(text: string, s: string, before: string, after: string, i: nat, r: Range)
    requires Blank(before) && Blank(after) && text == before + s + after && DashAt(s, i, r)
    ensures DashAt(text, |before| + i, r)
  {
    var j := |before| + i;
    assert text[j] == s[i] && text[..j] == before + s[..i] && text[j + 1..] == s[i + 1..] + after;
    PadMore(text[..j], before, s[..i], "", r.min);
    PadMore(text[j + 1..], "", s[i + 1..], after, r.max);
  }

  lemma BlankJoins(s: string, t: string)
    requires Blank(s) && Blank(t)
    ensures Blank(s + t)
  {
  }

  lemma PadMore(text: string, before: string, s: string, after: string, n: nat)
    requires Blank(before) && Blank(after) && text == before + s + after
    requires exists d :: Numeral(d, n) && Padded(s, d)
    ensures exists d :: Numeral(d, n) && Padded(text, d)
  {
    var d :| Numeral(d, n) && Padded(s, d);
    var b, a :| Blank(b) && Blank(a) && s == b + d + a;
    assert text == (before + b) + d + (a + after);
    BlankJoins(before, b);
    BlankJoins(a, after);
    assert Padded(text, d);
  }

  lemma DashInward(text: string, s: string, before: string, after: string, j: nat, r: Range)
    requires Blank(before) && Blank(after) && text == before + s + after && DashAt(text, j, r)
    requires s == Trim(text)
    ensures DashAt(s, j - |before|, r)
  {
    DashIsInside(text, s, before, after, j);
    var i := j - |before|;
    hide Blank, Trim;
    assert text[..j] == before + s[..i] + "" && text[j + 1..] == "" + s[i + 1..] + after;
    NumberIsIff(text[..j], r.min);
    NumberIsIff(text[j + 1..], r.max);
    EmptyIsBlank();
    TrimLess(text[..j], before, s[..i], "");
    TrimLess(text[j + 1..], "", s[i + 1..], after);
    NumberIsIff(s[..i], r.min);
    NumberIsIff(s[i + 1..], r.max);
    hide ParseUint, Numeral, Padded;
  }

  lemma EmptyIsBlank()
    ensures Blank("")
  {
  }

  lemma DashIsInside(text: string, s: string, before: string, after: string, j: nat)
    requires Blank(before) && Blank(after) && text == before + s + after && j < |text| && text[j] == '-'
    ensures |before| <= j < |before| + |s| && s[j - |before|] == '-'
  {
    assert forall k :: 0 <= k < |before| ==> text[k] == before[k];
    assert forall k :: |before| + |s| <= k < |text| ==> text[k] == after[k - |before| - |s|];
  }

  lemma TrimLess(text: string, before: string, s: string, after: string)
    requires Blank(before) && Blank(after) && text == before + s + after
    ensures Trim(text) == Trim(s)
  {
    TrimSplits(s);
    var b, a :| Blank(b) && Blank(a) && s == b + Trim(s) + a;
    assert text == (before + b) + Trim(s) + (a + after);
    BlankJoins(before, b);
    BlankJoins(a, after);
    assert Padded(text, Trim(s));
    TrimmedIs(text, Trim(s));
  }

  lemma BlankIsTrimmed(text: string)
    ensures Trim(text) == "" <==> Blank(text)
  {
    TrimSplits(text);
    if Blank(text) {
      assert Blank("") && text == text + "" + "";
      assert Padded(text, "");
      TrimmedIs(text, "");
    }
  }

  lemma NumbersHaveNoDash(text: string, n: nat)
    requires exists s :: Numeral(s, n) && Padded(text, s)
    ensures forall i :: 0 <= i < |text| ==> text[i] != '-'
  {
    var s :| Numeral(s, n) && Padded(text, s);
    var before, after :| Blank(before) && Blank(after) && text == before + s + after;
    NumeralIsBare(s, n);
  }

  /** Only the first dash can part two numbers. */
  lemma DashIsTheCut(s: string, cut: nat, r: Range)
    requires cut == IndexOf(s, '-') && cut < |s|
    ensures forall i :: DashAt(s, i, r) ==> i == cut
    ensures !exists n :: Numeral(n, r.min) && Padded(s, n)
  {
    forall i | DashAt(s, i, r) ensures i == cut {
      assert cut < i ==> s[..i][cut] == '-';
      NumbersHaveNoDash(s[..i], r.min);
    }
    if exists n :: Numeral(n, r.min) && Padded(s, n) {
      NumbersHaveNoDash(s, r.min);
    }
  }

  lemma CutParsesIff(s: string, cut: nat, r: Range)
    requires s != "" && Trim(s) == s && cut == IndexOf(s, '-') < |s|
    ensures Parse(s) == Some(r) <==>
      ParseUint(Trim(s[..cut])) == Some(r.min) && ParseUint(Trim(s[cut + 1..])) == Some(r.max) && r.min <= r.max
  {
    hide Trim, ParseUint, IndexOf;
  }

  lemma DashIsCutIff(s: string, cut: nat, r: Range)
    requires cut == IndexOf(s, '-') < |s|
    ensures DashAt(s, cut, r) <==>
      ParseUint(Trim(s[..cut])) == Some(r.min) && ParseUint(Trim(s[cut + 1..])) == Some(r.max)
  {
    NumberIsIff(s[..cut], r.min);
    NumberIsIff(s[cut + 1..], r.max);
    hide Trim, ParseUint, Numeral, Padded;
  }

  lemma WithADash(s: string, r: Range)
    requires s != "" && Trim(s) == s && IndexOf(s, '-') < |s|
    ensures Parse(s) == Some(r) <==> Says(s, r)
  {
    var cut := IndexOf(s, '-');
    BlankIsTrimmed(s);
    CutParsesIff(s, cut, r);
    DashIsCutIff(s, cut, r);
    DashIsTheCut(s, cut, r);
    hide Parse, Trim, ParseUint, Numeral, Padded, Blank, DashAt, IndexOf;
  }

  lemma WithoutADash(s: string, r: Range)
    requires s != "" && Trim(s) == s && IndexOf(s, '-') == |s|
    ensures Parse(s) == Some(r) <==> Says(s, r)
  {
    BlankIsTrimmed(s);
    NumberIsIff(s, r.min);
    hide Trim, ParseUint, Numeral, Padded, Blank;
    assert s[..|s|] == s;
    assert forall i :: !DashAt(s, i, r);
  }

  lemma TrimmedSaysTheSame(text: string, r: Range)
    ensures Says(text, r) <==> Says(Trim(text), r)
  {
    var s := Trim(text);
    TrimSplits(text);
    TrimNothing(s);
    BlankIsTrimmed(text);
    BlankIsTrimmed(s);
    DashInTrimmed(text, r);
    NumberIsIff(text, r.min);
    NumberIsIff(s, r.min);
    hide Trim, ParseUint, Numeral, Padded, Blank, DashAt;
  }

  /** Main result. A text parses to a range exactly if it says it: whatever the white space, and nothing
      else. */
  lemma ParsesIff(text: string, r: Range)
    ensures Parse(text) == Some(r) <==> Says(text, r)
  {
    var s := Trim(text);
    TrimSplits(text);
    TrimNothing(s);
    TrimmedSaysTheSame(text, r);
    if s == "" {
      NumberIsIff(s, r.min);
    } else if IndexOf(s, '-') < |s| {
      WithADash(s, r);
    } else {
      WithoutADash(s, r);
    }
    hide Trim, Numeral, Padded, IndexOf;
  }

  // ---- JSON -------------------------------------------------------------------------------

  /** A decoded JSON value, as far as a range can be one. */
  datatype Json = Null | Number(n: int) | Text(s: string) | Other

  function Marshal(r: Range): Json {
    if r.min == r.max then Number(r.min) else Text(Render(r))
  }

  function Unmarshal(j: Json): Option<Range> {
    match j
    case Null => Some(UNSET)
    case Number(n) => if 0 <= n < LIMIT then Some(Range(n, n)) else None
    case Text(s) => Parse(s)
    case Other => None
  }

  /** Through JSON too a range comes back exactly when it does not run backwards. */
  lemma JsonRoundTrip(r: Range)
    ensures Unmarshal(Marshal(r)) == if r.min <= r.max then Some(r) else None
  {
    TextRoundTrip(r);
  }
}
