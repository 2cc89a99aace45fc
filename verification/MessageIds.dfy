/** Bridge message ids: "chain/emitter/sequence" of Wormhole and "lz/src/dst/guid" of LayerZero. */
module MessageIds {
  import opened Prelude

  const U16_MAX: nat := 0xFFFF
  const U32_MAX: nat := 0xFFFF_FFFF
  const U64_MAX: nat := 0xFFFF_FFFF_FFFF_FFFF

  // ---------------------------------------------------------------
  // Decimal numbers
  // ---------------------------------------------------------------

  predicate IsDigit(c: char) { '0' <= c <= '9' }

  function Digit(c: char): nat
    requires IsDigit(c)
  {
    (c - '0') as nat
  }

  function Decimal(v: nat): (s: string)
    ensures s != "" && forall i :: 0 <= i < |s| ==> IsDigit(s[i])
  {
    if v < 10 then ['0' + v as char] else Decimal(v / 10) + ['0' + (v % 10) as char]
  }

  predicate AllDigits(s: string) { forall i :: 0 <= i < |s| ==> IsDigit(s[i]) }

  function DecimalValue(s: string): nat
    requires AllDigits(s)
  {
    if s == "" then 0 else DecimalValue(s[..|s| - 1]) * 10 + Digit(s[|s| - 1])
  }

  /** `str::parse` of an unsigned integer: an optional plus sign, then at least one digit, within the type's range. */
  function ParseUint(s: string, max: nat): Option<nat> {
    var digits := if s != "" && s[0] == '+' then s[1..] else s;
    if digits == "" || !AllDigits(digits) || DecimalValue(digits) > max then None
    else Some(DecimalValue(digits))
  }

  lemma {:induction false} DecimalOf(v: nat)
    ensures DecimalValue(Decimal(v)) == v
  {
    if v >= 10 {
      DecimalOf(v / 10);
      assert Decimal(v)[..|Decimal(v)| - 1] == Decimal(v / 10);
    }
  }

  /** Printing and parsing agree on all numbers of the type, and the parser refuses all others. */
  lemma ParsePrinted(v: nat, max: nat)
    ensures ParseUint(Decimal(v), max) == if v <= max then Some(v) else None
  {
    DecimalOf(v);
    assert IsDigit(Decimal(v)[0]);
  }

  // ---------------------------------------------------------------
  // Splitting
  // ---------------------------------------------------------------

  predicate SlashFree(s: string) { '/' !in s }

  /** The text up to the first slash and, if there is one, the text after it. */
  function Cut(s: string): (r: (string, Option<string>))
    ensures SlashFree(r.0)
    ensures r.1.None? ==> s == r.0
    ensures r.1.Some? ==> s == r.0 + "/" + r.1.value
  {
    if s == "" then ("", None)
    else if s[0] == '/' then ("", Some(s[1..]))
    else
      var (head, tail) := Cut(s[1..]);
      ([s[0]] + head, tail)
  }

  /** `splitn(n, '/')` */
  function SplitN(s: string, n: nat): (parts: seq<string>)
    ensures |parts| <= n
    decreases n
  {
    if n == 0 then []
    else if n == 1 then [s]
    else
      var (head, tail) := Cut(s);
      if tail.None? then [head] else [head] + SplitN(tail.value, n - 1)
  }

  lemma {:induction false} CutAt(head: string, tail: string)
    requires SlashFree(head)
    ensures Cut(head + "/" + tail) == (head, Some(tail))
  {
    var s := head + "/" + tail;
    if head == "" {
      assert s[1..] == tail;
    } else {
      assert s[1..] == head[1..] + "/" + tail && s[0] == head[0];
      CutAt(head[1..], tail);
      assert [head[0]] + head[1..] == head;
    }
  }

  lemma DecimalSlashFree(v: nat)
    ensures SlashFree(Decimal(v))
  {
    assert !IsDigit('/');
  }

  // ---------------------------------------------------------------
  // Wormhole
  // ---------------------------------------------------------------

  function MessageId(chain: nat, emitter: string, sequence: nat): string {
    Decimal(chain) + "/" + (emitter + "/" + Decimal(sequence))
  }

  function ParseMessageId(id: string): Option<(nat, string, nat)> {
    var parts := SplitN(id, 3);
    if |parts| != 3 then None
    else
      var chain, sequence := ParseUint(parts[0], U16_MAX), ParseUint(parts[2], U64_MAX);
      if chain.None? || sequence.None? then None
      else Some((chain.value, parts[1], sequence.value))
  }

  lemma SplitThree(a: string, b: string, c: string)
    requires SlashFree(a) && SlashFree(b)
    ensures SplitN(a + "/" + (b + "/" + c), 3) == [a, b, c]
  {
    CutAt(a, b + "/" + c);
    CutAt(b, c);
    assert SplitN(b + "/" + c, 2) == [b] + SplitN(c, 1);
  }

  /** What the parser returns as the emitter never holds a slash. */
  lemma MiddleSlashFree(id: string)
    ensures |SplitN(id, 3)| == 3 ==> SlashFree(SplitN(id, 3)[1])
  {
    var (head, tail) := Cut(id);
    if tail.Some? {
      var (head', tail') := Cut(tail.value);
      assert SplitN(tail.value, 2) == if tail'.None? then [head'] else [head'] + SplitN(tail'.value, 1);
    }
  }

  /** Printing and parsing is the identity exactly on the ids whose emitter has no slash. */
  lemma WormholeRoundTripIff(chain: nat, emitter: string, sequence: nat)
    requires chain <= U16_MAX && sequence <= U64_MAX
    ensures ParseMessageId(MessageId(chain, emitter, sequence)) == Some((chain, emitter, sequence)) <==> SlashFree(emitter)
  {
    MiddleSlashFree(MessageId(chain, emitter, sequence));
    if SlashFree(emitter) {
      DecimalSlashFree(chain);
      SplitThree(Decimal(chain), emitter, Decimal(sequence));
      ParsePrinted(chain, U16_MAX);
      ParsePrinted(sequence, U64_MAX);
    }
  }

  /** The parser also takes "+1" and "007"; printing what it read gives the one canonical id that reads the same. */
  lemma WormholeCanonical(id: string)
    requires ParseMessageId(id).Some?
    ensures var (chain, emitter, sequence) := ParseMessageId(id).value;
            ParseMessageId(MessageId(chain, emitter, sequence)) == ParseMessageId(id)
  {
    var (chain, emitter, sequence) := ParseMessageId(id).value;
    MiddleSlashFree(id);
    WormholeRoundTripIff(chain, emitter, sequence);
  }

  /** The parser reads exactly the texts of three parts without a slash in the first two, whose outer parts are numbers. */
  lemma WormholeAcceptsIff(id: string, chain: nat, emitter: string, sequence: nat)
    ensures ParseMessageId(id) == Some((chain, emitter, sequence)) <==>
              exists a, b :: id == a + "/" + (emitter + "/" + b) && SlashFree(a) && SlashFree(emitter)
                             && ParseUint(a, U16_MAX) == Some(chain) && ParseUint(b, U64_MAX) == Some(sequence)
  {
    hide ParseUint;
    if ParseMessageId(id) == Some((chain, emitter, sequence)) {
      var (head, tail) := Cut(id);
      var (head', tail') := Cut(tail.value);
      assert SplitN(tail.value, 2) == [head'] + SplitN(tail'.value, 1);
      assert id == head + "/" + (head' + "/" + tail'.value);
    }
    if exists a, b :: id == a + "/" + (emitter + "/" + b) && SlashFree(a) && SlashFree(emitter)
                      && ParseUint(a, U16_MAX) == Some(chain) && ParseUint(b, U64_MAX) == Some(sequence) {
      var a, b :| id == a + "/" + (emitter + "/" + b) && SlashFree(a) && SlashFree(emitter)
                  && ParseUint(a, U16_MAX) == Some(chain) && ParseUint(b, U64_MAX) == Some(sequence);
      SplitThree(a, emitter, b);
    }
  }

  /** A number is read from digits that stand for it, with or without a plus sign, when it is within the type's range. */
  lemma ParseUintIff(s: string, max: nat, v: nat)
    ensures ParseUint(s, max) == Some(v) <==>
              v <= max && exists digits :: (s == digits || s == "+" + digits) && digits != "" && AllDigits(digits) && DecimalValue(digits) == v
  {
    var digits := if s != "" && s[0] == '+' then s[1..] else s;
    if s != "" && s[0] == '+' { assert s == "+" + digits; }
    if exists d :: (s == d || s == "+" + d) && d != "" && AllDigits(d) && DecimalValue(d) == v {
      var d :| (s == d || s == "+" + d) && d != "" && AllDigits(d) && DecimalValue(d) == v;
      if s == "+" + d { assert s[1..] == d; } else { assert IsDigit(s[0]); }
      assert d == digits;
    }
  }

  // ---------------------------------------------------------------
  // LayerZero
  // ---------------------------------------------------------------

  function LzMessageId(src: nat, dst: nat, guid: string): string {
    "lz" + "/" + (Decimal(src) + "/" + (Decimal(dst) + "/" + guid))
  }

  function ParseLzMessageId(id: string): Option<(nat, nat, string)> {
    var parts := SplitN(id, 4);
    if |parts| != 4 || parts[0] != "lz" then None
    else
      var src, dst := ParseUint(parts[1], U32_MAX), ParseUint(parts[2], U32_MAX);
      if src.None? || dst.None? then None
      else Some((src.value, dst.value, parts[3]))
  }

  /** The parser reads exactly the texts that start with "lz", go on with two numbers and end with anything. */
  lemma LayerZeroAcceptsIff(id: string, src: nat, dst: nat, guid: string)
    ensures ParseLzMessageId(id) == Some((src, dst, guid)) <==>
              exists a, b :: id == "lz" + "/" + (a + "/" + (b + "/" + guid)) && SlashFree(a) && SlashFree(b)
                             && ParseUint(a, U32_MAX) == Some(src) && ParseUint(b, U32_MAX) == Some(dst)
  {
    hide ParseUint;
    if ParseLzMessageId(id) == Some((src, dst, guid)) {
      var (head, tail) := Cut(id);
      var (a, tail') := Cut(tail.value);
      var (b, tail'') := Cut(tail'.value);
      assert SplitN(tail.value, 3) == [a] + SplitN(tail'.value, 2);
      assert SplitN(tail'.value, 2) == [b] + SplitN(tail''.value, 1);
      assert id == "lz" + "/" + (a + "/" + (b + "/" + tail''.value));
    }
    if exists a, b :: id == "lz" + "/" + (a + "/" + (b + "/" + guid)) && SlashFree(a) && SlashFree(b)
                      && ParseUint(a, U32_MAX) == Some(src) && ParseUint(b, U32_MAX) == Some(dst) {
      var a, b :| id == "lz" + "/" + (a + "/" + (b + "/" + guid)) && SlashFree(a) && SlashFree(b)
                  && ParseUint(a, U32_MAX) == Some(src) && ParseUint(b, U32_MAX) == Some(dst);
      SplitThree(a, b, guid);
      CutAt("lz", a + "/" + (b + "/" + guid));
      assert SplitN(id, 4) == ["lz"] + SplitN(a + "/" + (b + "/" + guid), 3);
    }
  }

  /** The guid comes last, so it may hold slashes. */
  lemma LayerZeroRoundTrip(src: nat, dst: nat, guid: string)
    requires src <= U32_MAX && dst <= U32_MAX
    ensures ParseLzMessageId(LzMessageId(src, dst, guid)) == Some((src, dst, guid))
  {
    DecimalSlashFree(src);
    DecimalSlashFree(dst);
    ParsePrinted(src, U32_MAX);
    ParsePrinted(dst, U32_MAX);
    SplitThree(Decimal(src), Decimal(dst), guid);
    CutAt("lz", Decimal(src) + "/" + (Decimal(dst) + "/" + guid));
  }
}
