/** create_bg96_rsu: the last-writer-wins builder of the BG96 image. */
module Bg96Builder {
  import opened Wrappers
  import opened Bytes
  import opened Srecord
  import opened LooseSrec
  import opened RsuFormat
  import opened NormalBoot
  import P = Rx671Parser

  const BASE_ADDRESS: nat := 0xFFF00000
  const IMAGE_SIZE: nat := 24 * 32768
  const USER_START: nat := 0xFFF00300
  const USER_END: nat := 0xFFFBFFFF
  const USER_EXECUTION: nat := 0xFFFBFFFC

  datatype BuildError = BadLine | BlankResetVector | BadDescriptor | SelfVerification

  /** The bootloader image and the headerless payload, with the extra signature the
      tool writes beside whichever of the two it outputs. */
  datatype Output = Output(image: seq<Byte>, payload: seq<Byte>, sideSignature: seq<Byte>)

  /** Memory after the first n bytes of a block; bytes outside the user area vanish. */
  function Overwritten(mem: Memory, address: nat, data: seq<Byte>, n: nat): Memory
    requires n <= |data|
  {
    if n == 0 then mem
    else
      var before := Overwritten(mem, address, data, n - 1);
      if USER_START <= address + n - 1 <= USER_END then before[address + n - 1 := data[n - 1]] else before
  }

  function Fold(mem: Memory, lines: seq<string>, k: nat): Result<Memory, BuildError>
    requires k <= |lines|
    decreases |lines| - k
  {
    if k == |lines| then Ok(mem)
    else if lines[k] == "" then Fold(mem, lines, k + 1)
    else
      match Read(lines[k])
      case Err(_) => Err(BadLine)
      case Ok(Skip) => Fold(mem, lines, k + 1)
      case Ok(Data(address, data)) => Fold(Overwritten(mem, address, data, |data|), lines, k + 1)
  }

  predicate InUserArea(mem: Memory) {
    forall a :: a in mem ==> USER_START <= a <= USER_END
  }

  /** The image buffer holds this sparse memory over an erased background. */
  ghost predicate Shows(image: array<Byte>, mem: Memory)
    reads image
  {
    && image.Length == IMAGE_SIZE && InUserArea(mem)
    && forall i :: 0 <= i < IMAGE_SIZE ==> image[i] == P.ByteAt(mem, BASE_ADDRESS + i)
  }

  predicate VectorBlank(mem: Memory) {
    && P.ByteAt(mem, USER_EXECUTION) == 0xFF && P.ByteAt(mem, USER_EXECUTION + 1) == 0xFF
    && P.ByteAt(mem, USER_EXECUTION + 2) == 0xFF && P.ByteAt(mem, USER_EXECUTION + 3) == 0xFF
  }

  method PutByte(image: array<Byte>, a: nat, v: Byte, ghost mem: Memory)
    requires Shows(image, mem) && USER_START <= a <= USER_END
    modifies image
    ensures Shows(image, mem[a := v])
  {
    image[a - BASE_ADDRESS] := v;
  }

  /** The loop over the bytes of one record. */
  method PutBlock(image: array<Byte>, address: nat, data: seq<Byte>, ghost mem: Memory)
    requires Shows(image, mem)
    modifies image
    ensures Shows(image, Overwritten(mem, address, data, |data|))
  {
    for offset := 0 to |data|
      invariant Shows(image, Overwritten(mem, address, data, offset))
    {
      var current := address + offset;
      if USER_START <= current <= USER_END {
        PutByte(image, current, data[offset], Overwritten(mem, address, data, offset));
      }
    }
  }

  /** The loop over the records. */
  method LoadImage(image: array<Byte>, lines: seq<string>) returns (ok: bool)
    requires Shows(image, map[])
    modifies image
    ensures ok <==> Fold(map[], lines, 0).Ok?
    ensures ok ==> Shows(image, Fold(map[], lines, 0).value)
  {
    ghost var mem: Memory := map[];
    for k := 0 to |lines|
      invariant Shows(image, mem)
      invariant Fold(mem, lines, k) == Fold(map[], lines, 0)
    {
      if lines[k] == "" {
        continue;
      }
      match Read(lines[k])
      case Err(_) => return false;
      case Ok(Skip) =>
      case Ok(Data(address, data)) =>
        PutBlock(image, address, data, mem);
        mem := Overwritten(mem, address, data, |data|);
    }
    return true;
  }

  method SealHeader(image: array<Byte>)
    requires image.Length == IMAGE_SIZE
    modifies image
    ensures HeaderFields(image[..]) && Holds(image[..], 0x300, old(image[0x300..]))
  {
    assert Holds(image[..], 0x300, old(image[0x300..]));
    PutBytes(image, 0, MAGIC);
    PutBytes(image, 7, [IMAGE_FLAG_TESTING]);
    HoldsJoin(image[..], 0, MAGIC, [IMAGE_FLAG_TESTING]);
    PutBytes(image, 8, Fill(32, 0));
    ZerosHold(image[..]);
    PutBytes(image, 8, SIG_TYPE);
    HoldsJoin(image[..], 8, SIG_TYPE, Fill(16, 0));
    PutBytes(image, 0x12C, Le32(0));
    PutBytes(image, 0x130, Le32(0xFFFFFFFF));
    PutBytes(image, 0x134, Le32(0xFFFFFFFF));
  }

  /** Header fields and descriptor, written over the loaded image. */
  method Seal(image: array<Byte>, sequence: int, ghost app: seq<Byte>) returns (ok: bool)
    requires image.Length == IMAGE_SIZE && image[0x300..] == app
    modifies image
    ensures ok <==> 1 <= sequence < WORD
    ensures ok ==> Sealed(image[..], sequence, app)
  {
    SealHeader(image);
    var descriptor := LegacyDescriptor(USER_START, USER_END, sequence, HARDWARE_ID);
    if descriptor.Err? {
      return false;
    }
    PutBytes(image, HEADER_SIZE, descriptor.value);
    HoldsJoin(image[..], HEADER_SIZE, descriptor.value, app);
    return true;
  }

  ghost predicate HeaderFields(image: seq<Byte>) {
    && Holds(image, 0, MAGIC + [IMAGE_FLAG_TESTING]) && Holds(image, 8, SIG_TYPE + Fill(16, 0))
    && Holds(image, 0x12C, Le32(0)) && Holds(image, 0x130, Le32(0xFFFFFFFF)) && Holds(image, 0x134, Le32(0xFFFFFFFF))
  }

  ghost predicate Sealed(image: seq<Byte>, sequence: int, app: seq<Byte>) {
    && |image| == IMAGE_SIZE && DescriptorFits(BASE_ADDRESS + 0x300, CODE_FLASH_END, sequence, HARDWARE_ID)
    && HeaderFields(image) && image[HEADER_SIZE..] == SignedData(BASE_ADDRESS, sequence, app)
  }

  /** From the loaded image to the outputs: header, descriptor, signatures. */
  method SignImage(image: array<Byte>, sequence: int, sign: Signer, verify: Verifier, ghost app: seq<Byte>)
    returns (r: Result<Output, BuildError>)
    requires forall nonce: nat, data: seq<Byte> :: |sign(nonce, data)| == SIGNATURE_SIZE
    requires image.Length == IMAGE_SIZE && image[0x300..] == app
    modifies image
    ensures r.Ok? <==> Signs(app, sequence, sign, verify)
    ensures r.Ok? ==>
              var data := SignedData(BASE_ADDRESS, sequence, app);
              && IsRsu(r.value.image, BASE_ADDRESS, sequence, app, sign(0, data))
              && r.value.payload == data && verify(r.value.sideSignature, data)
  {
    var sealed := Seal(image, sequence, app);
    if !sealed {
      return Err(BadDescriptor);
    }
    var payload := image[HEADER_SIZE..];
    assert Holds(image[..], HEADER_SIZE, payload);
    var rawSignature := sign(0, payload);
    if !verify(rawSignature, payload) {
      return Err(SelfVerification);
    }
    PutBytes(image, 0x28, Le32(|rawSignature|));
    PutBytes(image, 0x2C, rawSignature);
    var sideSignature := sign(1, payload);
    if !verify(sideSignature, payload) {
      return Err(SelfVerification);
    }
    assert Holds(image[..], HEADER_SIZE, payload);
    return Ok(Output(image[..], payload, sideSignature));
  }

  ghost predicate Signs(app: seq<Byte>, sequence: int, sign: Signer, verify: Verifier) {
    && 1 <= sequence < WORD
    && var data := SignedData(BASE_ADDRESS, sequence, app);
       verify(sign(0, data), data) && verify(sign(1, data), data)
  }

  /** main, up to writing the output files. */
  method Build(lines: seq<string>, sequence: int, sign: Signer, verify: Verifier)
    returns (r: Result<Output, BuildError>)
    requires forall nonce: nat, data: seq<Byte> :: |sign(nonce, data)| == SIGNATURE_SIZE
    ensures r.Ok? <==>
              && Fold(map[], lines, 0).Ok? && !VectorBlank(Fold(map[], lines, 0).value)
              && Signs(P.Padded(Fold(map[], lines, 0).value), sequence, sign, verify)
    ensures r.Ok? ==>
              var app := P.Padded(Fold(map[], lines, 0).value);
              var data := SignedData(BASE_ADDRESS, sequence, app);
              && IsRsu(r.value.image, BASE_ADDRESS, sequence, app, sign(0, data))
              && r.value.payload == data && verify(r.value.sideSignature, data)
              && SignedApplication(r.value.image, BASE_ADDRESS, verify) ==
                   if VectorInside(app, BASE_ADDRESS) then Ok(Application(sequence, Vector(app)))
                   else Err(VectorOutside)
  {
    var image := new Byte[IMAGE_SIZE](i => 0xFF);
    var loaded := LoadImage(image, lines);
    if !loaded {
      return Err(BadLine);
    }
    ghost var mem := Fold(map[], lines, 0).value;
    ghost var app := P.Padded(mem);
    var at := USER_EXECUTION - BASE_ADDRESS;
    if image[at] == 0xFF && image[at + 1] == 0xFF && image[at + 2] == 0xFF && image[at + 3] == 0xFF {
      return Err(BlankResetVector);
    }
    assert !VectorBlank(mem);
    assert image[0x300..] == app;
    r := SignImage(image, sequence, sign, verify, app);
    if r.Ok? {
      RsuAccepted(r.value.image, BASE_ADDRESS, sequence, app, sign(0, SignedData(BASE_ADDRESS, sequence, app)), verify);
    }
  }

  /** A record inside the application overwrites exactly like the strict parser. */
  lemma {:induction false} ApplicationOverwrites(mem: Memory, r: Record, n: nat)
    requires n <= |r.data| && P.InApplication(r)
    ensures Overwritten(mem, r.address, r.data, n) == Stored(mem, r, n)
  {
    if n > 0 {
      ApplicationOverwrites(mem, r, n - 1);
    }
  }

  lemma {:induction false} OptionsVanish(mem: Memory, r: Record, n: nat)
    requires n <= |r.data| && P.InOptionMemory(r)
    ensures Overwritten(mem, r.address, r.data, n) == mem
  {
    if n > 0 {
      OptionsVanish(mem, r, n - 1);
    }
  }

  lemma {:induction false} FoldFollowsStrictParser(mem: Memory, lines: seq<string>, k: nat)
    requires k <= |lines| && P.AbsorbFrom(mem, lines, k).Ok?
    ensures Fold(mem, lines, k) == Ok(P.AbsorbFrom(mem, lines, k).value)
    decreases |lines| - k
  {
    if k < |lines| {
      var step := P.Absorb(mem, lines[k], k + 1);
      if lines[k] != "" {
        StrictImpliesLoose(lines[k]);
        var r := Decode(lines[k]).value;
        if IsData(r.kind) {
          if P.InApplication(r) {
            ApplicationOverwrites(mem, r, |r.data|);
          } else {
            OptionsVanish(mem, r, |r.data|);
          }
        }
      }
      FoldFollowsStrictParser(step.value, lines, k + 1);
    }
  }

  /** Builder agreement: on every MOT that the RX671 parser accepts, the BG96 builder
      loads the same application, so at the same sequence number both sign the same
      bytes. */
  lemma BuildersAgree(lines: seq<string>, sequence: int)
    requires P.Parse(lines).Ok? && 1 <= sequence < WORD
    ensures Fold(map[], lines, 0).Ok? && !VectorBlank(Fold(map[], lines, 0).value)
    ensures SignedData(BASE_ADDRESS, sequence, P.Padded(Fold(map[], lines, 0).value))
         == SignedData(P.FWUP_AREA_START, sequence, P.Parse(lines).value)
  {
    FoldFollowsStrictParser(map[], lines, 0);
  }
}
