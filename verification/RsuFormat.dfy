/** The legacy contiguous RSU image: a 0x200-byte header, the 0x100-byte five-word
descriptor, and the padded application; everything after the header is signed. */
module RsuFormat {
  import opened Wrappers
  import opened Bytes

  const HEADER_SIZE: nat := 0x200
  const DESCRIPTOR_SIZE: nat := 0x100
  const CODE_FLASH_END: nat := 0xFFFBFFFF
  const HARDWARE_ID: nat := 9
  const SIGNATURE_SIZE: nat := 64

  /** "Renesas" */
  const MAGIC: seq<Byte> := [0x52, 0x65, 0x6E, 0x65, 0x73, 0x61, 0x73]
  const IMAGE_FLAG_TESTING: Byte := 0xFE
  /** "sig-sha256-ecdsa" */
  const SIG_TYPE: seq<Byte> :=
    [0x73, 0x69, 0x67, 0x2D, 0x73, 0x68, 0x61, 0x32, 0x35, 0x36, 0x2D, 0x65, 0x63, 0x64, 0x73, 0x61]

  function Fill(n: nat, value: Byte): (s: seq<Byte>)
    ensures |s| == n
  {
    seq<Byte>(n, i => value)
  }

  /** Signing draws fresh randomness, so two signatures of the same data may differ;
      `nonce` tells the calls of one run apart. */
  type Signer = (nat, seq<Byte>) -> seq<Byte>

  type Verifier = (seq<Byte>, seq<Byte>) -> bool

  // The descriptor.

  predicate DescriptorFits(start: int, end: int, sequence: int, hardwareId: int) {
    1 <= sequence < WORD && 0 <= start <= end < WORD && 3 <= end && 0 <= hardwareId < WORD
  }

  function DescriptorWords(start: nat, end: nat, sequence: nat, hardwareId: nat): (d: seq<Byte>)
    requires DescriptorFits(start, end, sequence, hardwareId)
    ensures |d| == 20
  {
    Le32(sequence) + Le32(start) + Le32(end) + Le32(end - 3) + Le32(hardwareId)
  }

  /** The original five words, zero-filled to the descriptor size.  An end address
      below 3 has no reset word and fails in packing. */
  function LegacyDescriptor(start: int, end: int, sequence: int, hardwareId: int): (d: Result<seq<Byte>, ()>)
    ensures d.Ok? ==> |d.value| == DESCRIPTOR_SIZE
  {
    if DescriptorFits(start, end, sequence, hardwareId) then
      Ok(DescriptorWords(start, end, sequence, hardwareId) + Fill(DESCRIPTOR_SIZE - 20, 0))
    else Err(())
  }

  /** Accepts a descriptor of exactly this layout and returns its sequence. */
  function ValidateLegacyDescriptor(d: seq<Byte>, start: int, end: int, sequence: Option<int>): Result<nat, ()> {
    if |d| != DESCRIPTOR_SIZE then Err(())
    else
      var actual := U32(d, 0);
      if actual < 1 || (sequence.Some? && actual != sequence.value)
         || U32(d, 4) != start || U32(d, 8) != end || U32(d, 12) != end - 3 || U32(d, 16) != HARDWARE_ID
      then Err(())
      else Ok(actual)
  }

  lemma U32At(bs: seq<Byte>, offset: nat, v: nat)
    requires offset + 4 <= |bs| && v < WORD && bs[offset..offset + 4] == Le32(v)
    ensures U32(bs, offset) == v
  {
    U32OfLe32(v);
    U32Slice(bs, offset);
  }

  lemma U32Slice(bs: seq<Byte>, offset: nat)
    requires offset + 4 <= |bs|
    ensures U32(bs, offset) == U32(bs[offset..offset + 4], 0)
  {
    var s := bs[offset..offset + 4];
    assert s[0] == bs[offset] && s[1] == bs[offset + 1] && s[2] == bs[offset + 2] && s[3] == bs[offset + 3];
  }

  /** The packer and the validator are inverse: a descriptor is accepted with
      sequence n exactly if its words are the ones packed for n; the filler is free. */
  lemma DescriptorRoundTrip(d: seq<Byte>, start: int, end: int, n: nat)
    requires |d| == DESCRIPTOR_SIZE && DescriptorFits(start, end, 1, HARDWARE_ID)
    ensures ValidateLegacyDescriptor(d, start, end, None) == Ok(n)
       <==> 1 <= n < WORD && d[..20] == DescriptorWords(start, end, n, HARDWARE_ID)
  {
    if 1 <= n < WORD && d[..20] == DescriptorWords(start, end, n, HARDWARE_ID) {
      WordsRead(d, start, end, n);
    }
    if ValidateLegacyDescriptor(d, start, end, None) == Ok(n) {
      Le32OfU32(d, 0);
      Le32OfU32(d, 4);
      Le32OfU32(d, 8);
      Le32OfU32(d, 12);
      Le32OfU32(d, 16);
      assert d[..20] == d[0..4] + d[4..8] + d[8..12] + d[12..16] + d[16..20];
    }
  }

  lemma WordsRead(d: seq<Byte>, start: nat, end: nat, n: nat)
    requires 20 <= |d| && DescriptorFits(start, end, n, HARDWARE_ID)
    requires d[..20] == DescriptorWords(start, end, n, HARDWARE_ID)
    ensures U32(d, 0) == n && U32(d, 4) == start && U32(d, 8) == end && U32(d, 12) == end - 3
    ensures U32(d, 16) == HARDWARE_ID
  {
    var w := DescriptorWords(start, end, n, HARDWARE_ID);
    assert d[0..4] == w[0..4] == Le32(n);
    assert d[4..8] == w[4..8] == Le32(start);
    assert d[8..12] == w[8..12] == Le32(end);
    assert d[12..16] == w[12..16] == Le32(end - 3);
    assert d[16..20] == w[16..20] == Le32(HARDWARE_ID);
    U32At(d, 0, n);
    U32At(d, 4, start);
    U32At(d, 8, end);
    U32At(d, 12, end - 3);
    U32At(d, 16, HARDWARE_ID);
  }

  lemma PackedIsAccepted(start: int, end: int, n: int)
    requires DescriptorFits(start, end, n, HARDWARE_ID)
    ensures ValidateLegacyDescriptor(LegacyDescriptor(start, end, n, HARDWARE_ID).value, start, end, None) == Ok(n)
  {
    var d := LegacyDescriptor(start, end, n, HARDWARE_ID).value;
    assert d[..20] == DescriptorWords(start, end, n, HARDWARE_ID);
    DescriptorRoundTrip(d, start, end, n);
  }

  // The whole image.

  /** bs stands in the image at this offset. */
  predicate Holds(image: seq<Byte>, offset: nat, bs: seq<Byte>) {
    offset + |bs| <= |image| && image[offset..offset + |bs|] == bs
  }

  /** An RSU of the application, signed by `signature`, for the area at `start`. */
  ghost predicate IsRsu(image: seq<Byte>, start: nat, sequence: int, app: seq<Byte>, signature: seq<Byte>) {
    && |image| == HEADER_SIZE + DESCRIPTOR_SIZE + |app|
    && Holds(image, 0, MAGIC + [IMAGE_FLAG_TESTING])
    && Holds(image, 8, SIG_TYPE + Fill(16, 0))
    && Holds(image, 0x28, Le32(SIGNATURE_SIZE))
    && |signature| == SIGNATURE_SIZE && Holds(image, 0x2C, signature)
    && Holds(image, 0x12C, Le32(0)) && Holds(image, 0x130, Le32(0xFFFFFFFF)) && Holds(image, 0x134, Le32(0xFFFFFFFF))
    && DescriptorFits(start + 0x300, CODE_FLASH_END, sequence, HARDWARE_ID)
    && image[HEADER_SIZE..] == SignedData(start, sequence, app)
  }

  /** What the header signs: the descriptor followed by the application. */
  function SignedData(start: nat, sequence: int, app: seq<Byte>): seq<Byte>
    requires DescriptorFits(start + 0x300, CODE_FLASH_END, sequence, HARDWARE_ID)
  {
    LegacyDescriptor(start + 0x300, CODE_FLASH_END, sequence, HARDWARE_ID).value + app
  }

  lemma ZerosHold(image: seq<Byte>)
    requires Holds(image, 8, Fill(32, 0))
    ensures Holds(image, 24, Fill(16, 0))
  {
    assert image[24..40] == image[8..40][16..];
  }

  lemma HoldsJoin(image: seq<Byte>, offset: nat, a: seq<Byte>, b: seq<Byte>)
    requires Holds(image, offset, a) && Holds(image, offset + |a|, b)
    ensures Holds(image, offset, a + b)
  {
    assert image[offset..offset + |a + b|] == image[offset..offset + |a|] + image[offset + |a|..offset + |a| + |b|];
  }

  /** Slice assignment of equal length into a byte buffer: the bytes are there, and
      whatever stood elsewhere still does. */
  method PutBytes(image: array<Byte>, offset: nat, bs: seq<Byte>)
    requires offset + |bs| <= image.Length
    modifies image
    ensures Holds(image[..], offset, bs)
    ensures forall at: nat, other: seq<Byte> {:trigger Holds(image[..], at, other)} ::
              Holds(old(image[..]), at, other) && (at + |other| <= offset || offset + |bs| <= at) ==>
                Holds(image[..], at, other)
  {
    ghost var before := image[..];
    forall i | 0 <= i < |bs| {
      image[offset + i] := bs[i];
    }
    forall at: nat, other: seq<Byte> |
      Holds(before, at, other) && (at + |other| <= offset || offset + |bs| <= at)
      ensures Holds(image[..], at, other)
    {
      assert image[..][at..at + |other|] == before[at..at + |other|];
    }
  }
}
