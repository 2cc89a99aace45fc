/** Calldata of the token bridge's completeTransfer(bytes). */
module Calldata {
  import opened Prelude
  import opened Bytes

  const COMPLETE_TRANSFER_SELECTOR: seq<Byte> := [0xc6, 0x87, 0x85, 0x19]

  function Word(v: nat): (w: seq<Byte>)
    ensures |w| == 32
  {
    Zeros(24) + ToBytes(v, 8)
  }

  /** A contract's reading of one `bytes` argument: the offset word leads to the length word, which leads to the data. */
  function DecodeCompleteTransfer(data: seq<Byte>): Option<seq<Byte>> {
    if |data| < 36 || data[..4] != COMPLETE_TRANSFER_SELECTOR then None
    else
      var at := 4 + BytesValue(data[4..36]);
      if |data| < at + 32 then None
      else
        var n := BytesValue(data[at..at + 32]);
        if |data| < at + 32 + n then None else Some(data[at + 32..at + 32 + n])
  }

  /** Leading zeros do not count. */
  lemma {:induction false} LeadingZeros(n: nat, b: seq<Byte>)
    ensures BytesValue(Zeros(n) + b) == BytesValue(b)
    decreases n + |b|
  {
    var s := Zeros(n) + b;
    if b != [] {
      assert s[..|s| - 1] == Zeros(n) + b[..|b| - 1];
      LeadingZeros(n, b[..|b| - 1]);
    } else if n > 0 {
      assert s[..|s| - 1] == Zeros(n - 1) + [];
      LeadingZeros(n - 1, []);
    }
  }

  lemma WordValue(v: nat)
    requires v < 0x1_0000_0000_0000_0000
    ensures BytesValue(Word(v)) == v
  {
    assert Pow256(4) == 0x1_0000_0000 && Pow256(8) == 0x1_0000_0000_0000_0000;
    LeadingZeros(24, ToBytes(v, 8));
    ToBytesValue(v, 8);
  }

  lemma OffsetWord(offset: seq<Byte>)
    requires |offset| == 32 && (forall i :: 0 <= i < 31 ==> offset[i] == 0) && offset[31] == 0x20
    ensures BytesValue(offset) == 32
  {
    assert offset == Zeros(31) + [0x20];
    LeadingZeros(31, [0x20]);
    assert BytesValue([0x20]) == 32;
  }

  /** What the contract reads back from the five parts. */
  lemma PartsDecode(offset: seq<Byte>, len: seq<Byte>, vaa: seq<Byte>, padding: seq<Byte>)
    requires |offset| == |len| == 32 && BytesValue(offset) == 32 && BytesValue(len) == |vaa|
    ensures DecodeCompleteTransfer(COMPLETE_TRANSFER_SELECTOR + offset + len + vaa + padding) == Some(vaa)
  {
    hide BytesValue;
    var data := COMPLETE_TRANSFER_SELECTOR + offset + len + vaa + padding;
    assert data[..4] == COMPLETE_TRANSFER_SELECTOR && data[4..36] == offset && data[36..68] == len;
    assert data[68..68 + |vaa|] == vaa;
  }

  lemma WholeWords(n: nat)
    ensures var padding := (32 - n % 32) % 32; 0 <= padding < 32 && (n + padding) % 32 == 0
  {
  }

  /** The calldata decodes to the VAA, whatever its length, its body is made of whole words and the padding is zero. */
  method EncodeCompleteTransfer(vaa: seq<Byte>) returns (data: seq<Byte>)
    requires |vaa| < 0x1_0000_0000_0000_0000
    ensures DecodeCompleteTransfer(data) == Some(vaa) && data[..4] == [0xc6, 0x87, 0x85, 0x19]
    ensures BytesValue(data[4..36]) == 32 && BytesValue(data[36..68]) == |vaa| && data[68..68 + |vaa|] == vaa
    ensures (|data| - 4) % 32 == 0 && 68 + |vaa| <= |data| < 68 + |vaa| + 32
    ensures forall i :: 68 + |vaa| <= i < |data| ==> data[i] == 0
  {
    hide BytesValue, ToBytes, DecodeCompleteTransfer;
    data := COMPLETE_TRANSFER_SELECTOR;
    var offset := Zeros(32);
    offset := offset[31 := 0x20];
    data := data + offset;
    OffsetWord(offset);
    var len := Zeros(24) + ToBytes(|vaa|, 8);
    WordValue(|vaa|);
    data := data + len;
    data := data + vaa;
    var padding := (32 - |vaa| % 32) % 32;
    WholeWords(|vaa|);
    data := data + Zeros(padding);
    PartsDecode(offset, len, vaa, Zeros(padding));
    assert data[4..36] == offset && data[36..68] == len && data[68..68 + |vaa|] == vaa;
  }
}
