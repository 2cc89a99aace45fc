/** `base64_encode` and `base64_decode` of the Wormhole bridge (section 4 of RFC 4648). Both are specified by the number
    their text stands for in base 64, not by each other. */
module Base64 {
  import opened Prelude
  import opened Bytes

  // ---------------------------------------------------------------
  // The alphabet
  // ---------------------------------------------------------------

  function Symbol(v: int): char
    requires 0 <= v < 64
  {
    if v < 26 then (v + 'A' as int) as char
    else if v < 52 then (v - 26 + 'a' as int) as char
    else if v < 62 then (v - 52 + '0' as int) as char
    else if v == 62 then '+' else '/'
  }

  /** The 64 symbols in order, sixteen a line. */
  lemma SymbolTable(v: int)
    requires 0 <= v < 16
    ensures Symbol(v) == "ABCDEFGHIJKLMNOP"[v]
    ensures Symbol(v + 16) == "QRSTUVWXYZabcdef"[v]
    ensures Symbol(v + 32) == "ghijklmnopqrstuv"[v]
    ensures Symbol(v + 48) == "wxyz0123456789+/"[v]
  {
  }

  /** Where the table holds a character. */
  function Position(c: char): (r: Option<nat>)
    ensures r.Some? ==> r.value < 64
  {
    var x := c as int;
    if 'A' as int <= x <= 'Z' as int then Some(x - 'A' as int)
    else if 'a' as int <= x <= 'z' as int then Some(x - 'a' as int + 26)
    else if '0' as int <= x <= '9' as int then Some(x - '0' as int + 52)
    else if c == '+' then Some(62)
    else if c == '/' then Some(63)
    else None
  }

  lemma SymbolPosition(v: int)
    requires 0 <= v < 64
    ensures Position(Symbol(v)) == Some(v)
  {
    if v < 26 {} else if v < 52 {} else if v < 62 {} else {}
  }

  predicate AllDigits(s: string) { forall i :: 0 <= i < |s| ==> Position(s[i]).Some? }

  /** The number a text stands for in base 64. */
  function DigitsValue(s: string): nat
    requires AllDigits(s)
  {
    if s == [] then 0 else DigitsValue(s[..|s| - 1]) * 64 + Position(s[|s| - 1]).value
  }

  lemma AppendDigit(s: string, v: int)
    requires AllDigits(s) && 0 <= v < 64
    ensures AllDigits(s + [Symbol(v)]) && DigitsValue(s + [Symbol(v)]) == DigitsValue(s) * 64 + v
  {
    SymbolPosition(v);
    hide Position, Symbol;
    assert (s + [Symbol(v)])[..|s|] == s;
  }

  function TrimEnd(s: string): string {
    if s != [] && s[|s| - 1] == '=' then TrimEnd(s[..|s| - 1]) else s
  }

  lemma TrimPadding(s: string, pad: string)
    requires AllDigits(s) && (pad == "" || pad == "=" || pad == "==")
    ensures TrimEnd(s + pad) == s
  {
    assert Position('=').None?;
    assert TrimEnd(s) == s;
    if pad == "=" {
      assert (s + pad)[..|s|] == s;
    } else if pad == "==" {
      assert (s + pad)[..|s| + 1] == s + "=" && (s + "=")[..|s|] == s;
    } else {
      assert s + pad == s;
    }
  }

  // ---------------------------------------------------------------
  // Decoding
  // ---------------------------------------------------------------

  /** 2^bits for the numbers of bits that can be left over. */
  function Scale(bits: nat): nat
    requires bits in {0, 2, 4, 6}
  {
    if bits == 0 then 1 else if bits == 2 then 4 else if bits == 4 then 16 else 64
  }

  /** The bits of n digits that do not fill a byte. */
  function Spare(n: nat): (bits: nat)
    ensures bits == 6 * n % 8 && bits in {0, 2, 4, 6}
  {
    assert 6 * n == 8 * (3 * (n / 4)) + 6 * (n % 4);
    if n % 4 == 0 then 0 else if n % 4 == 1 then 6 else if n % 4 == 2 then 4 else 2
  }

  /** What a text of n digits decodes to: floor(6n/8) bytes, which stand for the text's number without its last
      6n mod 8 bits. By `SameValueSameBytes` there is one such byte string. */
  ghost predicate Decodes(text: string, out: seq<Byte>) {
    var t := TrimEnd(text);
    && AllDigits(t)
    && |out| == 6 * |t| / 8
    && BytesValue(out) == DigitsValue(t) / Scale(Spare(|t|))
  }

  lemma TakeDigit(s: string, k: nat)
    requires k < |s| && AllDigits(s[..k]) && Position(s[k]).Some?
    ensures AllDigits(s[..k + 1]) && DigitsValue(s[..k + 1]) == DigitsValue(s[..k]) * 64 + Position(s[k]).value
  {
    assert s[..k + 1][..k] == s[..k];
  }

  /** The bits read so far are those of the bytes written and the `bits` low bits of `buf`. */
  ghost predicate Reads(out: seq<Byte>, buf: int, bits: nat, n: nat, value: int) {
    bits in {0, 2, 4, 6} && 8 * |out| + bits == 6 * n && 0 <= buf < Scale(bits) && BytesValue(out) * Scale(bits) + buf == value
  }

  /** `buf` stays below 2^bits, so the shift of a u32 never loses a bit. */
  method DecodeDigit(out: seq<Byte>, buf: int, bits: nat, val: nat, ghost n: nat, ghost value: int)
    returns (out': seq<Byte>, buf': int, bits': nat)
    requires Reads(out, buf, bits, n, value) && val < 64
    ensures Reads(out', buf', bits', n + 1, value * 64 + val)
  {
    hide BytesValue;
    ShiftFits(buf, bits, val);
    out' := out;
    buf' := buf * 64 % 0x1_0000_0000 + val;  // buf << 6 | val
    bits' := bits + 6;
    if bits' >= 8 {
      bits' := bits' - 8;
      var b: Byte := buf' / Scale(bits');
      AppendValue(out, b);
      out' := out + [b];
      buf' := buf' % Scale(bits');
    }
    hide Scale;
    TakeSixBits(BytesValue(out), buf, bits, val, BytesValue(out'));
  }

  ghost predicate ReadsText(out: seq<Byte>, buf: int, bits: nat, input: string) {
    AllDigits(input) && Reads(out, buf, bits, |input|, DigitsValue(input))
  }

  method DecodeNext(out: seq<Byte>, buf: int, bits: nat, c: char, ghost read: string)
    returns (ok: bool, out': seq<Byte>, buf': int, bits': nat)
    requires ReadsText(out, buf, bits, read)
    ensures ok == AllDigits(read + [c])
    ensures ok ==> ReadsText(out', buf', bits', read + [c])
  {
    hide Reads;
    ok, out', buf', bits' := false, out, buf, bits;
    var position := Position(c);
    hide Position;
    assert (read + [c])[|read|] == c;
    if position.Some? {
      TakeDigit(read + [c], |read|);
      assert (read + [c])[..|read|] == read && (read + [c])[..|read| + 1] == read + [c];
      hide DigitsValue;
      ok := true;
      out', buf', bits' := DecodeDigit(out, buf, bits, position.value, |read|, DigitsValue(read));
    }
  }

  method Decode(text: string) returns (r: Option<seq<Byte>>)
    ensures r.Some? <==> AllDigits(TrimEnd(text))
    ensures r.Some? ==> Decodes(text, r.value)
  {
    var input := TrimEnd(text);
    var out: seq<Byte>, buf, bits: nat := [], 0, 0;
    assert ReadsText(out, buf, bits, input[..0]);
    hide ReadsText, Decodes, Position;
    for k := 0 to |input|
      invariant ReadsText(out, buf, bits, input[..k])
    {
      var ok;
      assert input[..k + 1] == input[..k] + [input[k]];
      ok, out, buf, bits := DecodeNext(out, buf, bits, input[k], input[..k]);
      if !ok { return None; }
    }
    assert input[..|input|] == input;
    ReadsDecodes(text, out, buf, bits);
    r := Some(out);
  }

  lemma ReadsDecodes(text: string, out: seq<Byte>, buf: int, bits: nat)
    requires ReadsText(out, buf, bits, TrimEnd(text))
    ensures AllDigits(TrimEnd(text)) && Decodes(text, out)
  {
    hide DigitsValue, BytesValue, TrimEnd, AllDigits;
    var n := |TrimEnd(text)|;
    assert 6 * n / 8 == |out| && Spare(n) == bits;
    Leftover(BytesValue(out), buf, Scale(bits));
  }

  lemma ShiftFits(buf: int, bits: nat, val: nat)
    requires bits in {0, 2, 4, 6} && 0 <= buf < Scale(bits) && val < 64
    ensures buf * 64 % 0x1_0000_0000 == buf * 64
    ensures bits > 0 ==> Scale(bits - 2) > 0 && 0 <= (buf * 64 + val) / Scale(bits - 2) < 256
  {
    if bits == 2 {} else if bits == 4 {} else {}
  }

  /** Six bits come in; once there are eight, eight go out. Nothing is lost on the way. */
  lemma TakeSixBits(value: int, buf: int, bits: nat, val: nat, value': int)
    requires bits in {0, 2, 4, 6} && 0 <= buf < Scale(bits) && val < 64
    requires value' == if bits == 0 then value else value * 256 + (buf * 64 + val) / Scale(bits - 2)
    ensures var bits' := if bits == 0 then 6 else bits - 2;
            var buf' := if bits == 0 then buf * 64 + val else (buf * 64 + val) % Scale(bits - 2);
            0 <= buf' < Scale(bits') && value' * Scale(bits') + buf' == (value * Scale(bits) + buf) * 64 + val
  {
    if bits == 2 {} else if bits == 4 {} else {}
  }

  lemma Leftover(value: int, buf: int, scale: nat)
    requires 0 <= buf < scale && scale in {1, 4, 16, 64}
    ensures (value * scale + buf) / scale == value
  {
  }

  // ---------------------------------------------------------------
  // Encoding
  // ---------------------------------------------------------------

  /** The zero bits that fill up the last digit. */
  function Fill(n: nat): nat { if n % 3 == 0 then 1 else if n % 3 == 1 then 16 else 4 }

  function TextLength(n: nat): nat { (n + 2) / 3 * 4 }

  function DigitCount(n: nat): nat { (4 * n + 2) / 3 }

  function Filled(data: seq<Byte>): nat { BytesValue(data) * Fill(|data|) }

  /** A text of whole groups of four, whose digits stand for the data followed by the filling zero bits. */
  ghost predicate Encodes(text: string, data: seq<Byte>) {
    var t := TrimEnd(text);
    && AllDigits(t)
    && |text| == TextLength(|data|) && |t| == DigitCount(|data|)
    && DigitsValue(t) == Filled(data)
  }

  function Padding(n: nat): string
  { if n % 3 == 0 then "" else if n % 3 == 1 then "==" else "=" }

  /** Take the digits of a 24-bit group from the top. */
  method PushDigit(out: string, triple: int, divisor: nat) returns (out': string)
    requires AllDigits(out) && divisor > 0 && 0 <= triple
    ensures |out'| == |out| + 1 && AllDigits(out')
    ensures DigitsValue(out') == DigitsValue(out) * 64 + triple / divisor % 64
  {
    AppendDigit(out, triple / divisor % 64);
    out' := out + [Symbol(triple / divisor % 64)];
  }

  /** One group of at most three bytes; `digits` is the text without its padding. */
  method EncodeChunk(text: string, chunk: seq<Byte>) returns (text': string, ghost digits: string)
    requires AllDigits(text) && 1 <= |chunk| <= 3
    ensures text' == digits + Padding(|chunk|) && |text'| == |text| + 4 && |digits| == |text| + |chunk| + 1
    ensures AllDigits(digits) && DigitsValue(digits) == Extend(DigitsValue(text), chunk)
  {
    hide DigitsValue;
    var b0: int := chunk[0];
    var b1: int := if |chunk| > 1 then chunk[1] else 0;
    var b2: int := if |chunk| > 2 then chunk[2] else 0;
    var triple := b0 * 65536 + b1 * 256 + b2;
    Split(triple);
    text' := PushDigit(text, triple, 262144);
    text' := PushDigit(text', triple, 4096);
    digits := text';
    if |chunk| > 1 {
      text' := PushDigit(text', triple, 64);
      digits := text';
    } else {
      text' := text' + "=";
    }
    if |chunk| > 2 {
      text' := PushDigit(text', triple, 1);
      digits := text';
    } else {
      text' := text' + "=";
    }
  }

  ghost predicate Writes(text: string, digits: string, data: seq<Byte>) {
    && text == digits + Padding(|data|) && AllDigits(digits)
    && |text| == TextLength(|data|) && |digits| == DigitCount(|data|)
    && DigitsValue(digits) == Filled(data)
  }

  method Encode(data: seq<Byte>) returns (text: string)
    ensures Encodes(text, data)
  {
    hide Writes, Encodes, AllDigits, DigitsValue, Extend, Padding;
    text := "";
    var i := 0;
    ghost var digits, groups := "", 0;
    WritesNothing();
    while i < |data|
      invariant 0 <= i <= |data| && (i < |data| ==> i == 3 * groups)
      invariant Writes(text, digits, data[..i])
    {
      var n := if |data| - i >= 3 then 3 else |data| - i;
      WholeGroups(text, digits, data[..i], groups);
      ghost var before := text;
      text, digits := EncodeChunk(text, data[i..i + n]);
      WriteChunk(before, data[..i], groups, data[i..i + n], text, digits);
      assert data[..i] + data[i..i + n] == data[..i + n];
      i, groups := i + n, groups + 1;
    }
    assert data[..|data|] == data;
    WritesEncodes(text, digits, data);
  }

  lemma WritesNothing()
    ensures Writes("", "", [])
  {
  }

  /** After whole groups there is no padding. */
  lemma WholeGroups(text: string, digits: string, data: seq<Byte>, groups: nat)
    requires Writes(text, digits, data) && |data| == 3 * groups
    ensures text == digits && AllDigits(text)
  {
    hide DigitsValue, TextLength, DigitCount, Filled;
    GroupCount(groups, 0);
  }

  lemma WritesEncodes(text: string, digits: string, data: seq<Byte>)
    requires Writes(text, digits, data)
    ensures Encodes(text, data)
  {
    hide DigitsValue, TextLength, DigitCount, Filled, TrimEnd;
    TrimPadding(digits, Padding(|data|));
  }

  lemma WriteChunk(text: string, before: seq<Byte>, groups: nat, chunk: seq<Byte>, text': string, digits: string)
    requires 1 <= |chunk| <= 3 && |before| == 3 * groups && Writes(text, text, before)
    requires text' == digits + Padding(|chunk|) && |text'| == |text| + 4 && |digits| == |text| + |chunk| + 1 && AllDigits(digits)
    requires DigitsValue(digits) == Extend(DigitsValue(text), chunk)
    ensures Writes(text', digits, before + chunk)
  {
    hide DigitsValue, AllDigits, Extend, Filled, TextLength, DigitCount, Padding;
    GroupCount(groups, 0);
    GroupCount(groups, |chunk|);
    ChunkValue(before, chunk);
  }

  lemma GroupCount(j: nat, n: nat)
    requires n <= 3
    ensures TextLength(3 * j + n) == 4 * j + (if n == 0 then 0 else 4)
    ensures DigitCount(3 * j + n) == 4 * j + (if n == 0 then 0 else n + 1)
    ensures (3 * j + n) % 3 == n % 3 && Padding(3 * j + n) == Padding(n)
  {
    if n == 0 {} else if n == 1 {} else if n == 2 {} else {}
  }

  function Pow64(n: nat): nat
    requires 2 <= n <= 4
  { if n == 2 then 4096 else if n == 3 then 262144 else 16777216 }

  function GroupValue(chunk: seq<Byte>): nat
    requires 1 <= |chunk| <= 3
  {
    var b0: int := chunk[0];
    if |chunk| == 1 then b0
    else
      var b1: int := chunk[1];
      if |chunk| == 2 then b0 * 256 + b1 else b0 * 65536 + b1 * 256 + chunk[2]
  }

  /** The number of the text grows by the digits of one more group. */
  function Extend(value: int, chunk: seq<Byte>): int
    requires 1 <= |chunk| <= 3
  {
    value * Pow64(|chunk| + 1) + GroupValue(chunk) * Fill(|chunk|)
  }

  lemma ChunkValue(before: seq<Byte>, chunk: seq<Byte>)
    requires |before| % 3 == 0 && 1 <= |chunk| <= 3
    ensures Filled(before + chunk) == Extend(Filled(before), chunk)
  {
    hide BytesValue;
    assert Fill(|before|) == 1 && Fill(|before| + |chunk|) == Fill(|chunk|);
    AppendValue(before, chunk[0]);
    if |chunk| == 1 {
      assert before + chunk == before + [chunk[0]];
    } else {
      var two := before + [chunk[0]] + [chunk[1]];
      AppendValue(before + [chunk[0]], chunk[1]);
      if |chunk| == 2 {
        assert before + chunk == two;
      } else {
        AppendValue(two, chunk[2]);
        assert before + chunk == two + [chunk[2]];
      }
    }
  }

  /** The four digits of a group are its number in base 64. */
  lemma Split(triple: int)
    requires 0 <= triple < 16777216
    ensures triple / 262144 % 64 * 64 + triple / 4096 % 64 == triple / 4096
    ensures triple / 4096 * 64 + triple / 64 % 64 == triple / 64
    ensures triple / 64 * 64 + triple / 1 % 64 == triple
  {
  }

  // ---------------------------------------------------------------
  // Round trip
  // ---------------------------------------------------------------

  /** Whatever encodes `data` decodes to `data` and to nothing else, with none, one or two padding characters. */
  lemma EncodesDecodes(text: string, data: seq<Byte>, out: seq<Byte>)
    requires Encodes(text, data)
    ensures Decodes(text, out) <==> out == data
  {
    var t := TrimEnd(text);
    assert 6 * |t| / 8 == |data| && Scale(Spare(|t|)) == Fill(|data|);
    Leftover(BytesValue(data), 0, Fill(|data|));
    if Decodes(text, out) { SameValueSameBytes(out, data); }
  }

  /** `base64_decode(base64_encode(d)) == d` */
  method RoundTrip(data: seq<Byte>) returns (back: Option<seq<Byte>>)
    ensures back == Some(data)
  {
    var text := Encode(data);
    back := Decode(text);
    EncodesDecodes(text, data, back.value);
  }
}
