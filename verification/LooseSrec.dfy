/** The lenient S-record reader that the BG96 and RX72N builders share in substance:
no checksum, no count check, Python slices that silently run short. */
module LooseSrec {
  import opened Wrappers
  import opened Bytes
  import opened Srecord

  /** s[i:j] for i, j >= 0 */
  function Slice(s: string, i: nat, j: nat): string {
    var end := if j < |s| then j else |s|;
    if i < end then s[i..end] else ""
  }

  datatype Step = Skip | Data(address: nat, data: seq<Byte>)

  /** What one non-blank line contributes, or the exception it raises. */
  function Read(line: string): Result<Step, ()> {
    if KindOf(line).Unknown? then Err(())
    else if !IsData(KindOf(line)) then Ok(Skip)
    else
      var n := AddressBytes(KindOf(line)).value;
      match (ParseHex(Slice(line, 2, 4)), ParseHex(Slice(line, 4, 4 + 2 * n)))
      case (Some(count), Some(address)) =>
        var start := 4 + 2 * n;
        var end := start + 2 * (count - n - 1);
        (match FromHex(Slice(line, start, end))
         case None => Err(())
         case Some(data) => Ok(Data(address, data)))
      case _ => Err(())
  }

  lemma HexSplit(a: string, b: string, all: seq<Byte>, i: nat)
    requires FromHex(a + b) == Some(all) && |a| == 2 * i
    ensures i <= |all| && FromHex(a) == Some(all[..i]) && FromHex(b) == Some(all[i..])
  {
    FromHexJoin(a, b);
  }

  /** Bytes i to j of the record stand at characters 2 + 2i to 2 + 2j of the line. */
  lemma HexOfPart(line: string, all: seq<Byte>, i: nat, j: nat)
    requires 2 <= |line| && FromHex(line[2..]) == Some(all) && i <= j <= |all|
    ensures FromHex(line[2 + 2 * i..2 + 2 * j]) == Some(all[i..j])
  {
    var front, part, back := line[2..2 + 2 * i], line[2 + 2 * i..2 + 2 * j], line[2 + 2 * j..];
    assert line[2..] == front + (part + back);
    HexSplit(front, part + back, all, i);
    HexSplit(part, back, all[i..], j - i);
    assert all[i..][..j - i] == all[i..j];
  }

  lemma LooseFields(line: string, n: nat, encoded: seq<Byte>)
    requires 2 <= |line| && FromHex(line[2..]) == Some(encoded)
    requires 2 <= n && n + 2 <= |encoded| && |encoded| - 1 == encoded[0]
    ensures ParseHex(Slice(line, 2, 4)) == Some(encoded[0])
    ensures ParseHex(Slice(line, 4, 4 + 2 * n)) == Some(BigEndian(encoded[1..1 + n]))
    ensures 4 + 2 * n + 2 * (encoded[0] - n - 1) == |line| - 2
    ensures FromHex(Slice(line, 4 + 2 * n, |line| - 2)) == Some(encoded[1 + n..|encoded| - 1])
  {
    hide FromHex;
    LineLength(line, encoded);
    NumberOfPart(line, encoded, 0, 1);
    SingleByte(encoded);
    NumberOfPart(line, encoded, 1, 1 + n);
    HexOfPart(line, encoded, 1 + n, |encoded| - 1);
    var end := |line| - 2;
    assert Slice(line, 2, 4) == line[2..4] && Slice(line, 4, 4 + 2 * n) == line[4..4 + 2 * n];
    assert Slice(line, 4 + 2 * n, end) == line[4 + 2 * n..end];
  }

  lemma LineLength(line: string, encoded: seq<Byte>)
    requires 2 <= |line| && FromHex(line[2..]) == Some(encoded)
    ensures |line| == 2 + 2 * |encoded|
  {
  }

  lemma SingleByte(encoded: seq<Byte>)
    requires encoded != []
    ensures BigEndian(encoded[0..1]) == encoded[0]
  {
    assert encoded[0..1] == [encoded[0]];
    assert BigEndian([encoded[0]]) == 256 * BigEndian([]) + encoded[0];
  }

  lemma NumberOfPart(line: string, all: seq<Byte>, i: nat, j: nat)
    requires 2 <= |line| && FromHex(line[2..]) == Some(all) && i < j <= |all|
    ensures ParseHex(line[2 + 2 * i..2 + 2 * j]) == Some(BigEndian(all[i..j]))
  {
    HexOfPart(line, all, i, j);
    ParseHexIsBigEndian(line[2 + 2 * i..2 + 2 * j]);
  }

  /** On every record that the strict decoder accepts the lenient reader sees the
      same address and data. */
  lemma StrictImpliesLoose(line: string)
    requires Decode(line).Ok?
    ensures Read(line) == Ok(if IsData(Decode(line).value.kind)
                             then Data(Decode(line).value.address, Decode(line).value.data) else Skip)
  {
    if IsData(KindOf(line)) {
      LooseFields(line, AddressBytes(KindOf(line)).value, FromHex(line[2..]).value);
    }
  }
}
