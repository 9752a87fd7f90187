/** What the normal-boot bundle demands of a signed application image. */
module NormalBoot {
  import opened Wrappers
  import opened Bytes
  import opened RsuFormat

  datatype BootError = SizeMismatch | PolicyMismatch | BadSequence | DescriptorMismatch | VectorOutside | BadSignature

  datatype Application = Application(sequence: nat, resetVector: nat)

  /** `start` is the first code-flash address of the target. */
  function SignedApplication(image: seq<Byte>, start: nat, verify: Verifier): Result<Application, BootError>
    requires start + 0x304 <= 0xFFFC0000
  {
    if |image| != 0xFFFC0000 - start then Err(SizeMismatch)
    else if image[..8] != MAGIC + [IMAGE_FLAG_TESTING] || image[8..40] != SIG_TYPE + Fill(16, 0)
      || U32(image, 0x28) != SIGNATURE_SIZE
      || U32(image, 0x12C) != 0 || U32(image, 0x130) != 0xFFFFFFFF || U32(image, 0x134) != 0xFFFFFFFF
    then Err(PolicyMismatch)
    else if U32(image, 0x200) < 1 then Err(BadSequence)
    else if ValidateLegacyDescriptor(image[0x200..0x300], start + 0x300, CODE_FLASH_END, None).Err?
    then Err(DescriptorMismatch)
    else
      var vector := U32(image, 0xFFFBFFFC - start);
      if !(start + 0x300 <= vector <= CODE_FLASH_END) then Err(VectorOutside)
      else if !verify(image[0x2C..0x6C], image[0x200..]) then Err(BadSignature)
      else Ok(Application(U32(image, 0x200), vector))
  }

  /** The reset vector of an application: its last word. */
  function Vector(app: seq<Byte>): nat
    requires 4 <= |app|
  {
    U32(app, |app| - 4)
  }

  predicate VectorInside(app: seq<Byte>, start: nat)
    requires 4 <= |app|
  {
    start + 0x300 <= Vector(app) <= CODE_FLASH_END
  }

  lemma HeaderAccepted(image: seq<Byte>, start: nat, sequence: int, app: seq<Byte>, signature: seq<Byte>)
    requires IsRsu(image, start, sequence, app, signature)
    ensures image[..8] == MAGIC + [IMAGE_FLAG_TESTING] && image[8..40] == SIG_TYPE + Fill(16, 0)
    ensures U32(image, 0x28) == SIGNATURE_SIZE && image[0x2C..0x6C] == signature
    ensures U32(image, 0x12C) == 0 && U32(image, 0x130) == 0xFFFFFFFF && U32(image, 0x134) == 0xFFFFFFFF
  {
    U32At(image, 0x28, SIGNATURE_SIZE);
    U32At(image, 0x12C, 0);
    U32At(image, 0x130, 0xFFFFFFFF);
    U32At(image, 0x134, 0xFFFFFFFF);
  }

  lemma BodyAccepted(image: seq<Byte>, start: nat, sequence: int, app: seq<Byte>, signature: seq<Byte>)
    requires IsRsu(image, start, sequence, app, signature) && 4 <= |app|
    ensures ValidateLegacyDescriptor(image[0x200..0x300], start + 0x300, CODE_FLASH_END, None) == Ok(sequence)
    ensures U32(image, 0x200) == sequence
    ensures U32(image, |image| - 4) == Vector(app)
  {
    var d := LegacyDescriptor(start + 0x300, CODE_FLASH_END, sequence, HARDWARE_ID).value;
    var body := image[HEADER_SIZE..];
    assert image[0x200..0x300] == body[..0x100] == d;
    PackedIsAccepted(start + 0x300, CODE_FLASH_END, sequence);
    assert image[0x200..0x204] == d[0..4];
    U32Slice(image, 0x200);
    U32Slice(d, 0);
    assert image[|image| - 4..|image|] == body[|body| - 4..] == app[|app| - 4..|app|];
    U32Slice(image, |image| - 4);
    U32Slice(app, |app| - 4);
  }

  /** Every RSU of the right size is accepted exactly if its reset vector lies inside
      the application and its signature verifies, and then with its own sequence. */
  lemma RsuAccepted(
      image: seq<Byte>, start: nat, sequence: int, app: seq<Byte>, signature: seq<Byte>, verify: Verifier)
    requires start + 0x304 <= 0xFFFC0000 && IsRsu(image, start, sequence, app, signature)
    requires |app| == 0xFFFC0000 - start - 0x300
    ensures SignedApplication(image, start, verify) ==
              if !VectorInside(app, start) then Err(VectorOutside)
              else if !verify(signature, image[HEADER_SIZE..]) then Err(BadSignature)
              else Ok(Application(sequence, Vector(app)))
  {
    HeaderAccepted(image, start, sequence, app, signature);
    BodyAccepted(image, start, sequence, app, signature);
  }
}
