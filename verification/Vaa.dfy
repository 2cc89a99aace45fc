/** Wormhole VAAs: `build_vaa`, `parse_vaa` and `verify_vaa`. */
module Vaa {
  import opened Bytes

  const GUARDIAN_QUORUM: nat := 13
  const GUARDIANS: nat := 19
  const SIGNATURE: nat := 66  // guardian index and signature
  const HEADER: nat := 6      // version, guardian set, number of signatures
  const BODY: nat := 51       // timestamp, nonce, chain, emitter, sequence, consistency level

  datatype Vaa = Vaa(bytes: seq<Byte>, version: Byte, numSignatures: nat, emitterChain: nat,
                     emitterAddress: string, sequence: nat, payload: seq<Byte>)

  datatype Error =
    | TooShort | UnsupportedVersion(version: Byte) | BodyTooShort
    | InsufficientSignatures(n: nat) | IndexOutOfRange(index: nat) | DuplicateIndex(index: nat)

  datatype Result<+T> = Ok(value: T) | Err(error: Error)

  // ---------------------------------------------------------------
  // Hex
  // ---------------------------------------------------------------

  function HexDigit(v: int): char
    requires 0 <= v < 16
  {
    if v < 10 then '0' + v as char else 'a' + (v - 10) as char
  }

  function Hex(b: seq<Byte>): (s: string)
    ensures |s| == 2 * |b|
  {
    if b == [] then "" else [HexDigit(b[0] / 16), HexDigit(b[0] % 16)] + Hex(b[1..])
  }

  /** Two digits a byte, the high one first. */
  lemma {:induction false} HexDigits(b: seq<Byte>, i: nat)
    requires i < |b|
    ensures var digits := "0123456789abcdef"; Hex(b)[2 * i] == digits[b[i] / 16] && Hex(b)[2 * i + 1] == digits[b[i] % 16]
  {
    DigitTable(b[i] / 16);
    DigitTable(b[i] % 16);
    if i > 0 {
      HexDigits(b[1..], i - 1);
      assert Hex(b)[2 * i] == Hex(b[1..])[2 * (i - 1)] && Hex(b)[2 * i + 1] == Hex(b[1..])[2 * (i - 1) + 1];
    }
  }

  lemma DigitTable(v: int)
    requires 0 <= v < 16
    ensures HexDigit(v) == "0123456789abcdef"[v]
  {
  }

  /** The printed address determines the emitter. */
  lemma {:induction false} HexInjective(a: seq<Byte>, b: seq<Byte>)
    requires Hex(a) == Hex(b)
    ensures a == b
  {
    assert |a| == |b|;
    if a != [] {
      assert Hex(a)[0] == Hex(b)[0] && Hex(a)[1] == Hex(b)[1];
      assert Hex(a)[2..] == Hex(a[1..]) && Hex(b)[2..] == Hex(b[1..]);
      HexInjective(a[1..], b[1..]);
      assert a == [a[0]] + a[1..] && b == [b[0]] + b[1..];
    }
  }

  // ---------------------------------------------------------------
  // Parsing and verifying
  // ---------------------------------------------------------------

  function ParseVaa(bytes: seq<Byte>): (r: Result<Vaa>)
    ensures r.Ok? <==> |bytes| >= 57 && bytes[0] == 1 && |bytes| >= HEADER + SIGNATURE * bytes[5] + BODY
    ensures r.Ok? ==> r.value.bytes == bytes && r.value.numSignatures == bytes[5]
  {
    if |bytes| < 57 then Err(TooShort)
    else if bytes[0] != 1 then Err(UnsupportedVersion(bytes[0]))
    else
      var n: int := bytes[5];
      var offset := HEADER + n * SIGNATURE;
      if |bytes| < offset + BODY then Err(BodyTooShort)
      else
        var body := bytes[offset..];
        Ok(Vaa(bytes, bytes[0], n, BytesValue(body[8..10]), Hex(body[10..42]), BytesValue(body[42..50]), body[51..]))
  }

  /** Where an accepted VAA keeps its fields, counted from the end of its signatures. */
  lemma ParsedFields(bytes: seq<Byte>)
    requires ParseVaa(bytes).Ok?
    ensures var n: int := bytes[5];
            var at := 6 + 66 * n;
            && at + 51 <= |bytes|
            && ParseVaa(bytes).value == Vaa(bytes, 1, n, BytesValue(bytes[at + 8..at + 10]), Hex(bytes[at + 10..at + 42]),
                                            BytesValue(bytes[at + 42..at + 50]), bytes[at + 51..])
  {
    var n: int := bytes[5];
    var at := 6 + 66 * n;
    var body := bytes[at..];
    assert body[8..10] == bytes[at + 8..at + 10] && body[10..42] == bytes[at + 10..at + 42];
    assert body[42..50] == bytes[at + 42..at + 50] && body[51..] == bytes[at + 51..];
    hide BytesValue, Hex;
  }

  /** The guardian that signed at position i. */
  function Index(vaa: Vaa, i: nat): nat
    requires HEADER + SIGNATURE * i < |vaa.bytes|
  {
    vaa.bytes[HEADER + SIGNATURE * i]
  }

  /** The first `n` signatures come from different known guardians. */
  ghost predicate DistinctGuardians(vaa: Vaa, n: nat)
    requires HEADER + SIGNATURE * n <= |vaa.bytes|
  {
    && (forall i :: 0 <= i < n ==> Index(vaa, i) < GUARDIANS)
    && (forall i, j :: 0 <= i < j < n ==> Index(vaa, i) != Index(vaa, j))
  }

  /** A quorum of different known guardians signed. */
  ghost predicate Verified(vaa: Vaa)
    requires ParseVaa(vaa.bytes) == Ok(vaa)
  {
    vaa.numSignatures >= GUARDIAN_QUORUM && DistinctGuardians(vaa, vaa.numSignatures)
  }

  /** On whatever `parse_vaa` accepts no read is out of bounds, and the errors name the first offending signature. */
  method VerifyVaa(vaa: Vaa) returns (r: Result<()>)
    requires ParseVaa(vaa.bytes) == Ok(vaa)
    ensures r.Ok? <==> Verified(vaa)
    ensures r == Err(InsufficientSignatures(vaa.numSignatures)) <==> vaa.numSignatures < GUARDIAN_QUORUM
    ensures r.Err? && r.error.IndexOutOfRange? ==>
              exists i :: 0 <= i < vaa.numSignatures && DistinctGuardians(vaa, i) && Index(vaa, i) == r.error.index >= GUARDIANS
    ensures r.Err? && r.error.DuplicateIndex? ==>
              exists i, j :: 0 <= j < i < vaa.numSignatures && DistinctGuardians(vaa, i) && Index(vaa, i) == Index(vaa, j) == r.error.index
  {
    if vaa.numSignatures < GUARDIAN_QUORUM { return Err(InsufficientSignatures(vaa.numSignatures)); }
    var seen := new bool[19](_ => false);
    for i := 0 to vaa.numSignatures
      invariant DistinctGuardians(vaa, i)
      invariant forall g :: 0 <= g < 19 ==> (seen[g] <==> exists j :: 0 <= j < i && Index(vaa, j) == g)
    {
      var index := vaa.bytes[6 + i * 66] as int;
      assert index == Index(vaa, i);
      if index >= 19 { return Err(IndexOutOfRange(index)); }
      if seen[index] { return Err(DuplicateIndex(index)); }
      seen[index] := true;
    }
    return Ok(());
  }

  // ---------------------------------------------------------------
  // No more signatures than guardians
  // ---------------------------------------------------------------

  lemma {:induction false} PigeonHole(s: seq<nat>, bound: nat)
    requires forall i :: 0 <= i < |s| ==> s[i] < bound
    requires forall i, j :: 0 <= i < j < |s| ==> s[i] != s[j]
    ensures |s| <= bound
  {
    if s != [] {
      assert s[0] < bound;
      var top := bound - 1;
      if k :| 0 <= k < |s| && s[k] == top {
        PigeonHole(s[..k] + s[k + 1..], top);
      } else {
        PigeonHole(s, top);
      }
    }
  }

  /** A verified VAA carries at most 19 signatures, though the count in its header is a whole byte. */
  lemma AtMostAllGuardians(vaa: Vaa)
    requires ParseVaa(vaa.bytes) == Ok(vaa) && Verified(vaa)
    ensures 13 <= vaa.numSignatures <= 19
  {
    var indices: seq<nat> := seq(vaa.numSignatures, i requires 0 <= i < vaa.numSignatures => Index(vaa, i));
    PigeonHole(indices, GUARDIANS);
  }

  // ---------------------------------------------------------------
  // Building
  // ---------------------------------------------------------------

  function Signatures(n: nat): (s: seq<Byte>)
    requires n <= 256
    ensures |s| == SIGNATURE * n
  {
    if n == 0 then [] else Signatures(n - 1) + [n - 1] + Zeros(65)
  }

  lemma {:induction false} SignatureAt(n: nat, i: nat)
    requires i < n <= 256
    ensures Signatures(n)[SIGNATURE * i] == i
  {
    if i < n - 1 { SignatureAt(n - 1, i); }
  }

  function Header(n: Byte): seq<Byte> { [1] + Zeros(4) + [n] }

  function Body(chain: nat, emitter: seq<Byte>, sequence: nat, payload: seq<Byte>): seq<Byte> {
    Zeros(4) + Zeros(4) + ToBytes(chain, 2) + emitter + ToBytes(sequence, 8) + [1] + payload
  }

  function Layout(n: Byte, chain: nat, emitter: seq<Byte>, sequence: nat, payload: seq<Byte>): seq<Byte> {
    Header(n) + Signatures(n) + Body(chain, emitter, sequence, payload)
  }

  method BuildVaa(n: Byte, chain: nat, emitter: seq<Byte>, sequence: nat, payload: seq<Byte>) returns (vaa: seq<Byte>)
    ensures vaa == Layout(n, chain, emitter, sequence, payload)
  {
    vaa := [1];
    vaa := vaa + [0, 0, 0, 0];
    vaa := vaa + [n];
    for i := 0 to n
      invariant vaa == Header(n) + Signatures(i)
    {
      vaa := vaa + [i];
      vaa := vaa + Zeros(65);
    }
    vaa := vaa + ToBytes(0, 4);
    vaa := vaa + ToBytes(0, 4);
    vaa := vaa + ToBytes(chain, 2);
    vaa := vaa + emitter;
    vaa := vaa + ToBytes(sequence, 8);
    vaa := vaa + [1];
    vaa := vaa + payload;
  }

  lemma BodyParts(chain: nat, emitter: seq<Byte>, sequence: nat, payload: seq<Byte>)
    requires |emitter| == 32
    ensures var body := Body(chain, emitter, sequence, payload);
            && |body| == BODY + |payload|
            && body[8..10] == ToBytes(chain, 2) && body[10..42] == emitter
            && body[42..50] == ToBytes(sequence, 8) && body[51..] == payload
  {
  }

  lemma Widths()
    ensures Pow256(2) == 0x1_0000 && Pow256(8) == 0x1_0000_0000_0000_0000
  {
    assert Pow256(4) == 0x1_0000_0000;
  }

  /** What `build_vaa` writes `parse_vaa` reads back. */
  lemma BuiltParses(n: Byte, chain: nat, emitter: seq<Byte>, sequence: nat, payload: seq<Byte>)
    requires |emitter| == 32 && chain < 0x1_0000 && sequence < 0x1_0000_0000_0000_0000
    ensures var bytes := Layout(n, chain, emitter, sequence, payload);
            ParseVaa(bytes) == Ok(Vaa(bytes, 1, n, chain, Hex(emitter), sequence, payload))
  {
    var bytes := Layout(n, chain, emitter, sequence, payload);
    var body := Body(chain, emitter, sequence, payload);
    BodyParts(chain, emitter, sequence, payload);
    assert bytes[HEADER + n * SIGNATURE..] == body;
    Widths();
    ToBytesValue(chain, 2);
    ToBytesValue(sequence, 8);
    hide BytesValue, ToBytes, Body, Hex, Pow256;
  }

  lemma BuiltIndex(n: Byte, chain: nat, emitter: seq<Byte>, sequence: nat, payload: seq<Byte>, i: nat)
    requires i < n
    ensures HEADER + SIGNATURE * i < |Layout(n, chain, emitter, sequence, payload)|
    ensures Layout(n, chain, emitter, sequence, payload)[HEADER + SIGNATURE * i] == i
  {
    SignatureAt(n, i);
    hide Signatures, Body;
  }

  /** ... and it verifies exactly when it carries between 13 and 19 signatures. */
  lemma BuiltVerifiesIff(n: Byte, chain: nat, emitter: seq<Byte>, sequence: nat, payload: seq<Byte>, vaa: Vaa)
    requires |emitter| == 32 && chain < 0x1_0000 && sequence < 0x1_0000_0000_0000_0000
    requires ParseVaa(Layout(n, chain, emitter, sequence, payload)) == Ok(vaa)
    ensures ParseVaa(vaa.bytes) == Ok(vaa) && (Verified(vaa) <==> 13 <= n <= 19)
  {
    hide Layout;
    BuiltParses(n, chain, emitter, sequence, payload);
    forall i | 0 <= i < n ensures Index(vaa, i) == i { BuiltIndex(n, chain, emitter, sequence, payload, i); }
    if Verified(vaa) { AtMostAllGuardians(vaa); }
  }
}
