/** build_fwup_v2_rsu: the RX72N builder, whose parser slice-assigns records into a
byte buffer that a record can make longer. */
module Rx72nBuilder {
  import opened Wrappers
  import opened Bytes
  import opened LooseSrec
  import opened RsuFormat
  import opened NormalBoot

  const AREA_START: nat := 0xFFE00000
  const USER_PROGRAM_TOP: nat := 0xFFE00300
  const USER_PROGRAM_BOTTOM: nat := 0xFFFBFFFF
  const USER_PROGRAM_SIZE: nat := USER_PROGRAM_BOTTOM - USER_PROGRAM_TOP + 1

  datatype BuildError = BadLine | PayloadSize | BadDescriptor | SelfVerification

  /** buffer[offset:offset + len(data)] = data */
  function SliceAssign(buffer: seq<Byte>, offset: nat, data: seq<Byte>): (r: seq<Byte>)
    requires offset <= |buffer|
  {
    buffer[..offset] + data + if offset + |data| < |buffer| then buffer[offset + |data|..] else []
  }

  /** A data record that the parser copies; all others are ignored. */
  predicate Matched(line: string) {
    line != "" && Read(line).Ok? && Read(line).value.Data?
    && USER_PROGRAM_TOP <= Read(line).value.address <= USER_PROGRAM_BOTTOM + 1
  }

  /** Where the record ends, as an offset into the user program. */
  function EndOffset(line: string): nat
    requires Matched(line)
  {
    Read(line).value.address - USER_PROGRAM_TOP + |Read(line).value.data|
  }

  predicate RunsPast(line: string) {
    Matched(line) && EndOffset(line) > USER_PROGRAM_SIZE
  }

  predicate Readable(line: string) {
    line == "" || Read(line).Ok?
  }

  /** The line puts v at this offset of the user program. */
  ghost predicate Puts(line: string, offset: int, v: Byte) {
    Matched(line)
    && var start := Read(line).value.address - USER_PROGRAM_TOP;
       start <= offset < EndOffset(line) && Read(line).value.data[offset - start] == v
  }

  predicate Touches(line: string, offset: int) {
    Matched(line) && Read(line).value.address - USER_PROGRAM_TOP <= offset < EndOffset(line)
  }

  /** Last writer wins: the byte comes from the last of the first k lines that touch
      it, and is 0xFF if none does. */
  ghost predicate LastWrite(lines: seq<string>, k: nat, offset: int, v: Byte)
    requires k <= |lines|
  {
    || ((forall j :: 0 <= j < k ==> !Touches(lines[j], offset)) && v == 0xFF)
    || exists j :: 0 <= j < k && Puts(lines[j], offset, v) && forall m :: j < m < k ==> !Touches(lines[m], offset)
  }

  lemma LastWriteKept(lines: seq<string>, k: nat, offset: int, v: Byte)
    requires k < |lines| && LastWrite(lines, k, offset, v) && !Touches(lines[k], offset)
    ensures LastWrite(lines, k + 1, offset, v)
  {
    hide Touches, Puts;
    if !(forall j :: 0 <= j < k ==> !Touches(lines[j], offset)) {
      var j :| 0 <= j < k && Puts(lines[j], offset, v) && forall m :: j < m < k ==> !Touches(lines[m], offset);
      assert forall m :: j < m < k + 1 ==> !Touches(lines[m], offset);
    }
  }

  lemma LastWriteTaken(lines: seq<string>, k: nat, offset: int, v: Byte)
    requires k < |lines| && Puts(lines[k], offset, v)
    ensures LastWrite(lines, k + 1, offset, v)
  {
    hide Touches, Puts;
  }

  /** The bytes that the first k lines copy, counted with repetition. */
  function CopiedBytes(lines: seq<string>, k: nat): nat
    requires k <= |lines|
  {
    if k == 0 then 0
    else CopiedBytes(lines, k - 1) + if Matched(lines[k - 1]) then |Read(lines[k - 1]).value.data| else 0
  }

  ghost predicate Loaded(lines: seq<string>, k: nat, buffer: seq<Byte>) {
    && k <= |lines| && USER_PROGRAM_SIZE <= |buffer|
    && (forall offset :: 0 <= offset < |buffer| ==> LastWrite(lines, k, offset, buffer[offset]))
    && (forall j :: 0 <= j < k && Matched(lines[j]) ==> EndOffset(lines[j]) <= |buffer|)
    && (|buffer| == USER_PROGRAM_SIZE || exists j :: 0 <= j < k && Matched(lines[j]) && EndOffset(lines[j]) == |buffer|)
  }

  lemma LoadStep(lines: seq<string>, k: nat, buffer: seq<Byte>, next: seq<Byte>)
    requires Loaded(lines, k, buffer) && k < |lines| && Matched(lines[k])
    requires next == SliceAssign(buffer, Read(lines[k]).value.address - USER_PROGRAM_TOP, Read(lines[k]).value.data)
    ensures Loaded(lines, k + 1, next)
  {
    hide Read, LastWrite;
    var start, end := Read(lines[k]).value.address - USER_PROGRAM_TOP, EndOffset(lines[k]);
    forall offset | 0 <= offset < |next|
      ensures LastWrite(lines, k + 1, offset, next[offset])
    {
      if start <= offset < end {
        LastWriteTaken(lines, k, offset, next[offset]);
      } else {
        assert next[offset] == buffer[offset];
        LastWriteKept(lines, k, offset, next[offset]);
      }
    }
  }

  lemma SkipStep(lines: seq<string>, k: nat, buffer: seq<Byte>)
    requires Loaded(lines, k, buffer) && k < |lines| && !Matched(lines[k])
    ensures Loaded(lines, k + 1, buffer)
  {
    forall offset | 0 <= offset < |buffer|
      ensures LastWrite(lines, k + 1, offset, buffer[offset])
    {
      LastWriteKept(lines, k, offset, buffer[offset]);
    }
  }

  /** parse_mot_file: the buffer is the last-writer-wins image, exactly as long as the
      larger of the user program and the furthest end of a matched record. */
  method ParseMotFile(lines: seq<string>) returns (r: Result<seq<Byte>, BuildError>, written: nat)
    ensures r.Ok? <==> forall i :: 0 <= i < |lines| ==> Readable(lines[i])
    ensures r.Ok? ==> Loaded(lines, |lines|, r.value) && written == CopiedBytes(lines, |lines|)
    ensures r.Ok? ==> (|r.value| == USER_PROGRAM_SIZE <==> forall i :: 0 <= i < |lines| ==> !RunsPast(lines[i]))
  {
    hide Read, Loaded, SliceAssign, RunsPast;
    var codeFlash := Fill(USER_PROGRAM_SIZE, 0xFF);
    written := 0;
    NothingLoaded(lines, codeFlash);
    for k := 0 to |lines|
      invariant forall i :: 0 <= i < k ==> Readable(lines[i])
      invariant Loaded(lines, k, codeFlash) && written == CopiedBytes(lines, k)
    {
      if lines[k] == "" {
        SkipStep(lines, k, codeFlash);
        continue;
      }
      match Read(lines[k])
      case Err(_) =>
        return Err(BadLine), written;
      case Ok(Skip) =>
        SkipStep(lines, k, codeFlash);
      case Ok(Data(address, data)) =>
        LoadedRoom(lines, k, codeFlash);
        if USER_PROGRAM_TOP <= address <= USER_PROGRAM_BOTTOM + 1 {
          var next := SliceAssign(codeFlash, address - USER_PROGRAM_TOP, data);
          LoadStep(lines, k, codeFlash, next);
          codeFlash := next;
          written := written + |data|;
        } else {
          SkipStep(lines, k, codeFlash);
        }
    }
    SizeTellsOverrun(lines, codeFlash);
    return Ok(codeFlash), written;
  }

  lemma NothingLoaded(lines: seq<string>, buffer: seq<Byte>)
    requires buffer == Fill(USER_PROGRAM_SIZE, 0xFF)
    ensures Loaded(lines, 0, buffer)
  {
  }

  lemma LoadedRoom(lines: seq<string>, k: nat, buffer: seq<Byte>)
    requires Loaded(lines, k, buffer)
    ensures USER_PROGRAM_SIZE <= |buffer|
  {
  }

  /** The buffer has grown exactly if a record runs past the user program. */
  lemma SizeTellsOverrun(lines: seq<string>, buffer: seq<Byte>)
    requires Loaded(lines, |lines|, buffer)
    ensures |buffer| == USER_PROGRAM_SIZE <==> forall i :: 0 <= i < |lines| ==> !RunsPast(lines[i])
  {
    hide Matched, EndOffset, LastWrite;
  }

  /** build_rsu: the image is appended field by field. */
  method BuildRsu(codeFlash: seq<Byte>, sequence: int, sign: Signer, verify: Verifier)
    returns (r: Result<seq<Byte>, BuildError>)
    requires forall nonce: nat, data: seq<Byte> :: |sign(nonce, data)| == SIGNATURE_SIZE
    ensures r.Ok? <==>
              && |codeFlash| == USER_PROGRAM_SIZE && 1 <= sequence < WORD
              && verify(sign(0, SignedData(AREA_START, sequence, codeFlash)), SignedData(AREA_START, sequence, codeFlash))
    ensures r.Ok? ==>
              var data := SignedData(AREA_START, sequence, codeFlash);
              && IsRsu(r.value, AREA_START, sequence, codeFlash, sign(0, data))
              && SignedApplication(r.value, AREA_START, verify) ==
                   if VectorInside(codeFlash, AREA_START) then Ok(Application(sequence, Vector(codeFlash)))
                   else Err(VectorOutside)
  {
    if |codeFlash| != USER_PROGRAM_SIZE {
      return Err(PayloadSize);
    }
    var descriptor := LegacyDescriptor(USER_PROGRAM_TOP, USER_PROGRAM_BOTTOM, sequence, HARDWARE_ID);
    if descriptor.Err? {
      return Err(BadDescriptor);
    }
    var signedData := descriptor.value + codeFlash;
    var signature := sign(0, signedData);
    if !verify(signature, signedData) {
      return Err(SelfVerification);
    }
    var rsu: seq<Byte> := [];
    rsu := rsu + MAGIC;
    rsu := rsu + [IMAGE_FLAG_TESTING];
    rsu := rsu + (SIG_TYPE + Fill(16, 0));
    rsu := rsu + Le32(|signature|);
    rsu := rsu + (signature + Fill(256 - |signature|, 0));
    rsu := rsu + (Le32(0) + Le32(0xFFFFFFFF) + Le32(0xFFFFFFFF));
    rsu := rsu + Fill(200, 0);
    HeaderLayout(rsu, signature);
    ghost var header := rsu;
    rsu := rsu + descriptor.value;
    rsu := rsu + codeFlash;
    assert rsu[..HEADER_SIZE] == header && rsu == header + descriptor.value + codeFlash;
    BodyAppended(header, descriptor.value, codeFlash, sequence, signature, rsu);
    RsuAccepted(rsu, AREA_START, sequence, codeFlash, signature, verify);
    return Ok(rsu);
  }

  /** The appended fields land at the header offsets. */
  lemma HeaderLayout(h: seq<Byte>, signature: seq<Byte>)
    requires |signature| == SIGNATURE_SIZE
    requires h == MAGIC + [IMAGE_FLAG_TESTING] + (SIG_TYPE + Fill(16, 0)) + Le32(|signature|)
                  + (signature + Fill(256 - |signature|, 0))
                  + (Le32(0) + Le32(0xFFFFFFFF) + Le32(0xFFFFFFFF)) + Fill(200, 0)
    ensures HeaderAt(h, signature)
  {
    assert h[0..8] == MAGIC + [IMAGE_FLAG_TESTING];
    assert h[8..40] == SIG_TYPE + Fill(16, 0);
    assert h[0x28..0x2C] == Le32(|signature|);
    assert h[0x2C..0x6C] == signature;
    assert h[0x12C..0x130] == Le32(0);
    assert h[0x130..0x134] == Le32(0xFFFFFFFF);
    assert h[0x134..0x138] == Le32(0xFFFFFFFF);
  }

  ghost predicate HeaderAt(h: seq<Byte>, signature: seq<Byte>) {
    && |h| >= HEADER_SIZE && |signature| == SIGNATURE_SIZE
    && h[0..8] == MAGIC + [IMAGE_FLAG_TESTING] && h[8..40] == SIG_TYPE + Fill(16, 0)
    && h[0x28..0x2C] == Le32(SIGNATURE_SIZE) && h[0x2C..0x6C] == signature
    && h[0x12C..0x130] == Le32(0) && h[0x130..0x134] == Le32(0xFFFFFFFF) && h[0x134..0x138] == Le32(0xFFFFFFFF)
  }

  lemma BodyAppended(
      h: seq<Byte>, d: seq<Byte>, app: seq<Byte>, sequence: int, signature: seq<Byte>, rsu: seq<Byte>)
    requires |h| == HEADER_SIZE && HeaderAt(h, signature) && rsu == h + d + app
    requires DescriptorFits(USER_PROGRAM_TOP, USER_PROGRAM_BOTTOM, sequence, HARDWARE_ID)
    requires d == LegacyDescriptor(USER_PROGRAM_TOP, USER_PROGRAM_BOTTOM, sequence, HARDWARE_ID).value
    ensures IsRsu(rsu, AREA_START, sequence, app, signature)
  {
    assert rsu[..HEADER_SIZE] == h && rsu[HEADER_SIZE..] == d + app;
    assert rsu[0..8] == h[0..8] && rsu[8..40] == h[8..40] && rsu[0x28..0x2C] == h[0x28..0x2C];
    assert rsu[0x2C..0x6C] == h[0x2C..0x6C] && rsu[0x12C..0x130] == h[0x12C..0x130];
    assert rsu[0x130..0x134] == h[0x130..0x134] && rsu[0x134..0x138] == h[0x134..0x138];
  }

  /** build_rtos_ota_payload: the signed bytes without the header. */
  function BuildRtosOtaPayload(codeFlash: seq<Byte>, sequence: int): Result<seq<Byte>, BuildError> {
    if |codeFlash| != USER_PROGRAM_SIZE then Err(PayloadSize)
    else
      match LegacyDescriptor(USER_PROGRAM_TOP, USER_PROGRAM_BOTTOM, sequence, HARDWARE_ID)
      case Err(_) => Err(BadDescriptor)
      case Ok(d) => Ok(d + codeFlash)
  }

  /** main for both output formats: a record that runs past the application is always
      caught, and nothing else about the records is. */
  method BuildFromMot(lines: seq<string>, sequence: int, sign: Signer, verify: Verifier)
    returns (rsu: Result<seq<Byte>, BuildError>, payload: Result<seq<Byte>, BuildError>)
    requires forall nonce: nat, data: seq<Byte> :: |sign(nonce, data)| == SIGNATURE_SIZE
    ensures payload.Ok? <==>
              && (forall i :: 0 <= i < |lines| ==> Readable(lines[i]) && !RunsPast(lines[i]))
              && 1 <= sequence < WORD
    ensures rsu.Ok? <==> payload.Ok? && verify(sign(0, payload.value), payload.value)
    ensures rsu.Ok? ==> |rsu.value| == 0xFFFC0000 - AREA_START && rsu.value[HEADER_SIZE..] == payload.value
    ensures rsu.Ok? ==>
              var app := rsu.value[0x300..];
              && Loaded(lines, |lines|, app)
              && SignedApplication(rsu.value, AREA_START, verify) ==
                   if VectorInside(app, AREA_START) then Ok(Application(sequence, Vector(app)))
                   else Err(VectorOutside)
  {
    var codeFlash, _ := ParseMotFile(lines);
    if codeFlash.Err? {
      return Err(BadLine), Err(BadLine);
    }
    payload := BuildRtosOtaPayload(codeFlash.value, sequence);
    rsu := BuildRsu(codeFlash.value, sequence, sign, verify);
    if rsu.Ok? {
      assert rsu.value[0x300..] == rsu.value[HEADER_SIZE..][DESCRIPTOR_SIZE..] == codeFlash.value;
    }
  }
}
