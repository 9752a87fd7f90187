/** build_rx671_fwup_v2_rsu: the strict builder of the RX671 image. */
module Rx671Builder {
  import opened Wrappers
  import opened Bytes
  import opened RsuFormat
  import opened NormalBoot
  import P = Rx671Parser

  datatype BuildError = BadMot(error: P.ParseError) | PayloadSize | BadDescriptor | SelfVerification | SignatureSize

  /** build_header: all of it 0xFF except the fields. */
  method BuildHeader(signature: seq<Byte>) returns (r: Result<seq<Byte>, BuildError>)
    ensures r.Err? <==> |signature| != SIGNATURE_SIZE
    ensures r.Ok? ==> IsHeader(r.value, signature)
  {
    if |signature| != SIGNATURE_SIZE {
      return Err(SignatureSize);
    }
    var header := new Byte[HEADER_SIZE](i => 0xFF);
    PutBytes(header, 0, MAGIC);
    PutBytes(header, 7, [IMAGE_FLAG_TESTING]);
    HoldsJoin(header[..], 0, MAGIC, [IMAGE_FLAG_TESTING]);
    PutBytes(header, 8, Fill(32, 0));
    ZerosHold(header[..]);
    PutBytes(header, 8, SIG_TYPE);
    HoldsJoin(header[..], 8, SIG_TYPE, Fill(16, 0));
    PutBytes(header, 0x28, Le32(SIGNATURE_SIZE));
    PutBytes(header, 0x2C, Fill(0x100, 0));
    PutBytes(header, 0x2C, signature);
    PutBytes(header, 0x12C, Le32(0));
    PutBytes(header, 0x130, Le32(0xFFFFFFFF));
    PutBytes(header, 0x134, Le32(0xFFFFFFFF));
    return Ok(header[..]);
  }

  ghost predicate IsHeader(h: seq<Byte>, signature: seq<Byte>) {
    && |h| == HEADER_SIZE && |signature| == SIGNATURE_SIZE
    && Holds(h, 0, MAGIC + [IMAGE_FLAG_TESTING]) && Holds(h, 8, SIG_TYPE + Fill(16, 0))
    && Holds(h, 0x28, Le32(SIGNATURE_SIZE)) && Holds(h, 0x2C, signature)
    && Holds(h, 0x12C, Le32(0)) && Holds(h, 0x130, Le32(0xFFFFFFFF)) && Holds(h, 0x134, Le32(0xFFFFFFFF))
  }

  lemma HeaderThenBody(h: seq<Byte>, signature: seq<Byte>, start: nat, sequence: int, app: seq<Byte>)
    requires IsHeader(h, signature) && DescriptorFits(start + 0x300, CODE_FLASH_END, sequence, HARDWARE_ID)
    ensures IsRsu(h + SignedData(start, sequence, app), start, sequence, app, signature)
  {
    var body := SignedData(start, sequence, app);
    assert (h + body)[HEADER_SIZE..] == body;
    HoldsInFront(h, body, 0, MAGIC + [IMAGE_FLAG_TESTING]);
    HoldsInFront(h, body, 8, SIG_TYPE + Fill(16, 0));
    HoldsInFront(h, body, 0x28, Le32(SIGNATURE_SIZE));
    HoldsInFront(h, body, 0x2C, signature);
    HoldsInFront(h, body, 0x12C, Le32(0));
    HoldsInFront(h, body, 0x130, Le32(0xFFFFFFFF));
    HoldsInFront(h, body, 0x134, Le32(0xFFFFFFFF));
  }

  lemma HoldsInFront(front: seq<Byte>, back: seq<Byte>, offset: nat, bs: seq<Byte>)
    requires Holds(front, offset, bs)
    ensures Holds(front + back, offset, bs)
  {
  }

  /** build_image.  Signature self-verification is part of building. */
  method BuildImage(payload: seq<Byte>, sequence: int, sign: Signer, verify: Verifier)
    returns (r: Result<seq<Byte>, BuildError>)
    ensures r.Ok? <==> BuildsFrom(payload, sequence, sign, verify)
    ensures r.Ok? ==>
              var data := SignedData(P.FWUP_AREA_START, sequence, payload);
              IsRsu(r.value, P.FWUP_AREA_START, sequence, payload, sign(0, data)) && verify(sign(0, data), data)
  {
    if |payload| != P.APPLICATION_SIZE {
      return Err(PayloadSize);
    }
    var descriptor := LegacyDescriptor(P.APPLICATION_START, P.APPLICATION_END, sequence, HARDWARE_ID);
    if descriptor.Err? {
      return Err(BadDescriptor);
    }
    var signedData := descriptor.value + payload;
    var signature := sign(0, signedData);
    if !verify(signature, signedData) {
      return Err(SelfVerification);
    }
    var header := BuildHeader(signature);
    if header.Err? {
      return Err(SignatureSize);
    }
    HeaderThenBody(header.value, signature, P.FWUP_AREA_START, sequence, payload);
    return Ok(header.value + signedData);
  }

  /** The exact condition under which an image is produced. */
  ghost predicate BuildsFrom(payload: seq<Byte>, sequence: int, sign: Signer, verify: Verifier) {
    && |payload| == P.APPLICATION_SIZE && 1 <= sequence < WORD
    && var data := SignedData(P.FWUP_AREA_START, sequence, payload);
       verify(sign(0, data), data) && |sign(0, data)| == SIGNATURE_SIZE
  }

  /** From the MOT text to an image that the boot bundle accepts exactly if the reset
      vector lies inside the application. */
  method BuildFromMot(lines: seq<string>, sequence: int, sign: Signer, verify: Verifier)
    returns (r: Result<seq<Byte>, BuildError>)
    ensures r.Ok? <==> P.Parse(lines).Ok? && BuildsFrom(P.Parse(lines).value, sequence, sign, verify)
    ensures r.Ok? ==>
              var app := P.Parse(lines).value;
              && IsRsu(r.value, P.FWUP_AREA_START, sequence, app, sign(0, SignedData(P.FWUP_AREA_START, sequence, app)))
              && SignedApplication(r.value, P.FWUP_AREA_START, verify) ==
                   if VectorInside(app, P.FWUP_AREA_START) then Ok(Application(sequence, Vector(app)))
                   else Err(VectorOutside)
  {
    var payload := P.ParseApplicationMot(lines);
    if payload.Err? {
      return Err(BadMot(payload.error));
    }
    r := BuildImage(payload.value, sequence, sign, verify);
    if r.Ok? {
      RsuAccepted(r.value, P.FWUP_AREA_START, sequence, payload.value,
        sign(0, SignedData(P.FWUP_AREA_START, sequence, payload.value)), verify);
    }
  }
}
