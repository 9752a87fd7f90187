/** shift_srec_addresses: print an S-record file with selected addresses shifted. */
module ShiftSrec {
  import opened Wrappers
  import opened Bytes
  import opened Srecord
  import opened LooseSrec

  /** The address width of the record types that the tool rewrites. */
  function RecordAddressBytes(kind: Kind): (r: Option<nat>)
    ensures r.Some? ==> AddressBytes(kind) == r && 2 <= r.value <= 4
  {
    match kind
    case Unknown => None
    case S(d) =>
      if d == 1 || d == 9 then Some(2)
      else if d == 2 || d == 8 then Some(3)
      else if d == 3 || d == 7 then Some(4)
      else None
  }

  datatype Fate = Keep(line: string) | Drop

  datatype Window = Window(shift: int, first: int, last: int) {
    predicate Selects(address: int) { first <= address <= last }
    function Reversed(): Window { Window(-shift, first + shift, last + shift) }
  }

  /** (~sum(record_bytes)) & 0xFF */
  function Checksum(recordBytes: seq<Byte>): Byte {
    255 - Sum(recordBytes) % 256
  }

  /** The printed form of a rewritten record; the data text is kept as it is. */
  function Printed(typeText: string, count: nat, address: nat, n: nat, dataText: string, data: seq<Byte>): string
    requires count < 256
  {
    typeText + ToHex([count] + BigEndianBytes(address, n)) + dataText
    + ToHex([Checksum([count] + BigEndianBytes(address, n) + data)])
  }

  /** line[address_end:-2] */
  function DataText(line: string, n: nat): string {
    if |line| < 6 + 2 * n then "" else line[4 + 2 * n..|line| - 2]
  }

  /** rewrite_record as a function; Err is the ValueError of a parse or of an address
      that no longer fits. */
  function Rewritten(line: string, w: Window, dropOutOfRange: bool): Result<Fate, ()> {
    match RecordAddressBytes(KindOf(line))
    case None => Ok(Keep(line))
    case Some(n) =>
      match (ParseHex(Slice(line, 2, 4)), ParseHex(Slice(line, 4, 4 + 2 * n)))
      case (Some(count), Some(address)) =>
        if !w.Selects(address) then Ok(if dropOutOfRange then Drop else Keep(line))
        else if !(0 <= address + w.shift < Pow256(n)) || count > 255 then Err(())
        else
          (match FromHex(DataText(line, n))
           case None => Err(())
           case Some(data) => Ok(Keep(Printed(line[..2], count, address + w.shift, n, DataText(line, n), data))))
      case _ => Err(())
  }

  /** (v >> (8 * index)) & 0xFF */
  function ShiftedByte(v: nat, index: nat): Byte {
    if index == 0 then v % 256 else ShiftedByte(v / 256, index - 1)
  }

  lemma {:induction false} TopBytesFirst(v: nat, n: nat, i: nat)
    requires i < n
    ensures BigEndianBytes(v, n)[i] == ShiftedByte(v, n - 1 - i)
    decreases n
  {
    if i < n - 1 {
      TopBytesFirst(v / 256, n - 1, i);
    }
  }

  /** The loop over the address bytes, most significant first. */
  method AddressPart(count: Byte, shifted: nat, n: nat) returns (recordBytes: seq<Byte>)
    ensures recordBytes == [count] + BigEndianBytes(shifted, n)
  {
    recordBytes := [count];
    var index: int := n - 1;
    while index >= 0
      invariant -1 <= index < n
      invariant recordBytes == [count] + BigEndianBytes(shifted, n)[..n - 1 - index]
    {
      TopBytesFirst(shifted, n, n - 1 - index);
      recordBytes := recordBytes + [ShiftedByte(shifted, index)];
      index := index - 1;
    }
  }

  method RewriteRecord(line: string, w: Window, dropOutOfRange: bool) returns (r: Result<Fate, ()>)
    ensures r == Rewritten(line, w, dropOutOfRange)
  {
    hide FromHex, ToHex, ParseHex, Sum, BigEndianBytes;
    var addressBytes := RecordAddressBytes(KindOf(line));
    if addressBytes.None? {
      return Ok(Keep(line));
    }
    var n := addressBytes.value;
    var count, address := ParseHex(Slice(line, 2, 4)), ParseHex(Slice(line, 4, 4 + 2 * n));
    if count.None? || address.None? {
      return Err(());
    }
    if !w.Selects(address.value) {
      return Ok(if dropOutOfRange then Drop else Keep(line));
    }
    var shifted := address.value + w.shift;
    if shifted < 0 || shifted >= Pow256(n) || count.value > 255 {
      return Err(());
    }
    var dataText := DataText(line, n);
    var addressPart := AddressPart(count.value, shifted, n);
    var data := FromHex(dataText);
    if data.None? {
      return Err(());
    }
    var recordBytes := addressPart + data.value;
    return Ok(Keep(line[..2] + ToHex(addressPart) + dataText + ToHex([Checksum(recordBytes)])));
  }

  /** What a decodable record of a rewritten type looks like to the rewriter. */
  lemma DecodableFields(line: string, n: nat)
    requires Decode(line).Ok? && RecordAddressBytes(KindOf(line)) == Some(n)
    ensures var r := Decode(line).value;
      && |line| == 4 + 2 * n + 2 * |r.data| + 2
      && n + |r.data| + 1 < 256
      && ParseHex(Slice(line, 2, 4)) == Some(n + |r.data| + 1)
      && ParseHex(Slice(line, 4, 4 + 2 * n)) == Some(r.address)
      && FromHex(DataText(line, n)) == Some(r.data)
      && r.kind == KindOf(line)
  {
    var encoded := FromHex(line[2..]).value;
    LineLength(line, encoded);
    LooseFields(line, n, encoded);
  }

  lemma ChecksumCloses(body: seq<Byte>)
    ensures Sum(body + [Checksum(body)]) % 256 == 255
  {
    SumJoin(body, [Checksum(body)]);
    assert Sum([Checksum(body)]) == Checksum(body) + Sum([]);
  }

  lemma ThreeParts(a: string, b: string, c: string, p: seq<Byte>, q: seq<Byte>, r: seq<Byte>)
    requires FromHex(a) == Some(p) && FromHex(b) == Some(q) && FromHex(c) == Some(r)
    ensures FromHex(a + (b + c)) == Some(p + (q + r))
  {
    FromHexJoin(b, c);
    FromHexJoin(a, b + c);
  }

  lemma PrintedBytes(typeText: string, head: seq<Byte>, dataText: string, data: seq<Byte>, last: Byte)
    requires |typeText| == 2 && FromHex(dataText) == Some(data)
    ensures var line := typeText + ToHex(head) + dataText + ToHex([last]);
      && line[..2] == typeText && |line| == 4 + 2 * |head| + |dataText|
      && line[2 + 2 * |head|..|line| - 2] == dataText
      && FromHex(line[2..]) == Some(head + data + [last])
  {
    hide FromHex, ToHex, ParseHex, Sum;
    var line := typeText + ToHex(head) + dataText + ToHex([last]);
    FromHexOfToHex(head);
    FromHexOfToHex([last]);
    ThreeParts(ToHex(head), dataText, ToHex([last]), head, data, [last]);
    assert line[2..] == ToHex(head) + (dataText + ToHex([last]));
    assert head + data + [last] == head + (data + [last]);
  }

  lemma UnpackPrinted(kind: Kind, address: nat, n: nat, data: seq<Byte>)
    requires address < Pow256(n) && n + |data| + 1 < 256
    ensures var body := [n + |data| + 1] + BigEndianBytes(address, n) + data;
      Unpack(kind, n, body + [Checksum(body)]) == Ok(Record(kind, address, data))
  {
    var body := [n + |data| + 1] + BigEndianBytes(address, n) + data;
    var encoded := body + [Checksum(body)];
    ChecksumCloses(body);
    BigEndianOfBytes(address, n);
    assert encoded[1..1 + n] == BigEndianBytes(address, n);
    assert encoded[1 + n..|encoded| - 1] == data;
  }

  lemma DecodesFrom(line: string, n: nat, encoded: seq<Byte>)
    requires AddressBytes(KindOf(line)) == Some(n) && 4 <= |line|
    requires FromHex(line[2..]) == Some(encoded) && encoded != []
    ensures Decode(line) == Unpack(KindOf(line), n, encoded)
  {
    LineLength(line, encoded);
  }

  lemma SameKind(line: string, other: string)
    requires 2 <= |line| && 2 <= |other| && line[..2] == other[..2]
    ensures KindOf(line) == KindOf(other)
  {
    assert line[0] == line[..2][0] && line[1] == line[..2][1];
    assert other[0] == other[..2][0] && other[1] == other[..2][1];
  }

  /** A line that a decodable line is rewritten to: the bytes of the shifted record,
      with type and data text kept. */
  ghost predicate ShiftedBytes(line: string, out: string, shift: int, n: nat)
    requires Decode(line).Ok? && 0 <= Decode(line).value.address + shift
  {
    var r := Decode(line).value;
    var body := [n + |r.data| + 1] + BigEndianBytes(r.address + shift, n) + r.data;
    && n + |r.data| + 1 < 256 && 6 + 2 * n <= |out| && 2 <= |line| && out[..2] == line[..2]
    && DataText(out, n) == DataText(line, n)
    && FromHex(out[2..]) == Some(body + [Checksum(body)])
  }

  /** The printed line of a shifted record. */
  ghost function ShiftedLine(line: string, shift: int, n: nat): string
    requires Decode(line).Ok? && RecordAddressBytes(KindOf(line)) == Some(n)
    requires 0 <= Decode(line).value.address + shift
  {
    DecodableFields(line, n);
    var r := Decode(line).value;
    Printed(line[..2], n + |r.data| + 1, r.address + shift, n, DataText(line, n), r.data)
  }

  lemma ShiftedLineBytes(line: string, shift: int, n: nat)
    requires Decode(line).Ok? && RecordAddressBytes(KindOf(line)) == Some(n)
    requires 0 <= Decode(line).value.address + shift
    ensures ShiftedBytes(line, ShiftedLine(line, shift, n), shift, n)
  {
    hide FromHex, ToHex, ParseHex, BigEndianBytes, Sum, Slice;
    var r := Decode(line).value;
    DecodableFields(line, n);
    var head := [n + |r.data| + 1] + BigEndianBytes(r.address + shift, n);
    PrintedBytes(line[..2], head, DataText(line, n), r.data, Checksum(head + r.data));
  }

  lemma ShiftedBytesDecode(line: string, out: string, shift: int, n: nat)
    requires Decode(line).Ok? && RecordAddressBytes(KindOf(line)) == Some(n)
    requires 0 <= Decode(line).value.address + shift < Pow256(n)
    requires ShiftedBytes(line, out, shift, n)
    ensures KindOf(out) == KindOf(line)
    ensures Decode(out) == Ok(Decode(line).value.(address := Decode(line).value.address + shift))
  {
    hide FromHex, BigEndianBytes, Sum, Slice, ToHex, Unpack, Decode;
    var r := Decode(line).value;
    var body := [n + |r.data| + 1] + BigEndianBytes(r.address + shift, n) + r.data;
    DecodableFields(line, n);
    SameKind(line, out);
    DecodesFrom(out, n, body + [Checksum(body)]);
    UnpackPrinted(KindOf(line), r.address + shift, n, r.data);
  }

  lemma SelectedRewritten(line: string, w: Window, dropOutOfRange: bool, n: nat)
    requires Decode(line).Ok? && RecordAddressBytes(KindOf(line)) == Some(n)
    requires w.Selects(Decode(line).value.address)
    ensures 0 <= Decode(line).value.address + w.shift < Pow256(n) ==>
              Rewritten(line, w, dropOutOfRange) == Ok(Keep(ShiftedLine(line, w.shift, n)))
    ensures !(0 <= Decode(line).value.address + w.shift < Pow256(n)) ==> Rewritten(line, w, dropOutOfRange) == Err(())
  {
    hide ToHex, FromHex, ParseHex, BigEndianBytes, Sum, Slice;
    DecodableFields(line, n);
  }

  lemma OthersKeptOrDropped(line: string, w: Window, dropOutOfRange: bool)
    requires Decode(line).Ok?
    ensures RecordAddressBytes(KindOf(line)).None? ==> Rewritten(line, w, dropOutOfRange) == Ok(Keep(line))
    ensures RecordAddressBytes(KindOf(line)).Some? && !w.Selects(Decode(line).value.address) ==>
              Rewritten(line, w, dropOutOfRange) == Ok(if dropOutOfRange then Drop else Keep(line))
  {
    if RecordAddressBytes(KindOf(line)).Some? {
      DecodableFields(line, RecordAddressBytes(KindOf(line)).value);
    }
  }

  /** Shifting commutes with decoding: a decodable record that is selected and still
      fits is rewritten to one with the same type and data at the shifted address. */
  lemma ShiftCommutesWithDecode(line: string, w: Window, dropOutOfRange: bool, n: nat)
    requires Decode(line).Ok? && RecordAddressBytes(KindOf(line)) == Some(n)
    requires w.Selects(Decode(line).value.address) && 0 <= Decode(line).value.address + w.shift < Pow256(n)
    ensures Rewritten(line, w, dropOutOfRange) == Ok(Keep(ShiftedLine(line, w.shift, n)))
    ensures Decode(ShiftedLine(line, w.shift, n))
         == Ok(Decode(line).value.(address := Decode(line).value.address + w.shift))
  {
    hide *;
    SelectedRewritten(line, w, dropOutOfRange, n);
    ShiftedLineBytes(line, w.shift, n);
    ShiftedBytesDecode(line, ShiftedLine(line, w.shift, n), w.shift, n);
  }

  /** The line with count, address and checksum in upper case. */
  function Canonical(line: string, n: nat): string
    requires 4 + 2 * n + 2 <= |line|
  {
    line[..2] + Upper(line[2..4 + 2 * n]) + DataText(line, n) + Upper(line[|line| - 2..])
  }

  lemma AddressFits(line: string, n: nat)
    requires Decode(line).Ok? && AddressBytes(KindOf(line)) == Some(n)
    ensures Decode(line).value.address < Pow256(n)
  {
    BigEndianBound(FromHex(line[2..]).value[1..1 + n]);
  }

  lemma UpperPart(line: string, encoded: seq<Byte>, i: nat, j: nat)
    requires 2 <= |line| && FromHex(line[2..]) == Some(encoded) && i <= j <= |encoded|
    ensures 2 + 2 * j <= |line| && Upper(line[2 + 2 * i..2 + 2 * j]) == ToHex(encoded[i..j])
  {
    LineLength(line, encoded);
    HexOfPart(line, encoded, i, j);
    ToHexOfFromHex(line[2 + 2 * i..2 + 2 * j]);
  }

  lemma ChecksumRecomputed(encoded: seq<Byte>, n: nat, r: Record)
    requires encoded != [] && Unpack(r.kind, n, encoded) == Ok(r)
    ensures var last := |encoded| - 1;
      && n + 1 <= last && n + |r.data| + 1 == encoded[0]
      && encoded[0..1 + n] == [encoded[0]] + BigEndianBytes(r.address, n)
      && encoded[last..last + 1] == [Checksum([encoded[0]] + BigEndianBytes(r.address, n) + r.data)]
  {
    var last := |encoded| - 1;
    var body := encoded[..last];
    BytesOfBigEndian(encoded[1..1 + n]);
    assert body == [encoded[0]] + encoded[1..1 + n] + encoded[1 + n..last];
    assert encoded == body + [encoded[last]];
    SumJoin(body, [encoded[last]]);
    assert Sum([encoded[last]]) == encoded[last] + Sum([]);
  }

  /** Printing a record at its own address gives its line in canonical form. */
  lemma CanonicalIsUnshifted(line: string, n: nat)
    requires Decode(line).Ok? && RecordAddressBytes(KindOf(line)) == Some(n)
    ensures 6 + 2 * n <= |line|
    ensures ShiftedLine(line, 0, n) == Canonical(line, n)
  {
    hide FromHex, ToHex, ParseHex, BigEndianBytes, Sum, Slice, Upper, ShiftedLine, Canonical;
    var r := Decode(line).value;
    var encoded := FromHex(line[2..]).value;
    var last := |encoded| - 1;
    LineLength(line, encoded);
    ChecksumRecomputed(encoded, n, r);
    UpperPart(line, encoded, 0, 1 + n);
    UpperPart(line, encoded, last, last + 1);
    assert line[2 + 2 * last..2 + 2 * (last + 1)] == line[|line| - 2..];
    UnshiftedParts(line, n, r, encoded[0..1 + n], encoded[last..last + 1]);
  }

  lemma UnshiftedParts(line: string, n: nat, r: Record, head: seq<Byte>, tail: seq<Byte>)
    requires Decode(line) == Ok(r) && RecordAddressBytes(KindOf(line)) == Some(n) && 6 + 2 * n <= |line|
    requires n + |r.data| + 1 < 256
    requires head == [n + |r.data| + 1] + BigEndianBytes(r.address, n) && tail == [Checksum(head + r.data)]
    requires Upper(line[2..4 + 2 * n]) == ToHex(head) && Upper(line[|line| - 2..]) == ToHex(tail)
    ensures ShiftedLine(line, 0, n) == Canonical(line, n)
  {
    hide FromHex, ToHex, ParseHex, BigEndianBytes, Sum, Slice, Upper, Decode;
    assert Canonical(line, n) == line[..2] + ToHex(head) + DataText(line, n) + ToHex(tail);
  }

  /** Shifting a shifted line again depends only on the bytes it holds. */
  lemma ShiftedAgain(line: string, out: string, shift: int, n: nat)
    requires Decode(line).Ok? && RecordAddressBytes(KindOf(line)) == Some(n)
    requires 0 <= Decode(line).value.address + shift < Pow256(n) && ShiftedBytes(line, out, shift, n)
    requires KindOf(out) == KindOf(line)
    requires Decode(out) == Ok(Decode(line).value.(address := Decode(line).value.address + shift))
    ensures ShiftedLine(out, -shift, n) == ShiftedLine(line, 0, n)
  {
    hide FromHex, ToHex, ParseHex, BigEndianBytes, Sum, Slice, Decode, DataText;
    assert out[..2] == line[..2] && DataText(out, n) == DataText(line, n);
  }

  /** Shifting back with the translated window restores the line, with its count,
      address and checksum in upper case. */
  lemma ShiftBackRestores(line: string, w: Window, dropOutOfRange: bool, n: nat)
    requires Decode(line).Ok? && RecordAddressBytes(KindOf(line)) == Some(n)
    requires w.Selects(Decode(line).value.address) && 0 <= Decode(line).value.address + w.shift < Pow256(n)
    ensures 6 + 2 * n <= |line|
    ensures Rewritten(line, w, dropOutOfRange) == Ok(Keep(ShiftedLine(line, w.shift, n)))
    ensures Rewritten(ShiftedLine(line, w.shift, n), w.Reversed(), dropOutOfRange) == Ok(Keep(Canonical(line, n)))
  {
    hide *;
    var there := ShiftedLine(line, w.shift, n);
    ShiftCommutesWithDecode(line, w, dropOutOfRange, n);
    ShiftedLineBytes(line, w.shift, n);
    ShiftedBytesDecode(line, there, w.shift, n);
    RestoresFrom(line, there, w, dropOutOfRange, n);
  }

  lemma RestoresFrom(line: string, there: string, w: Window, dropOutOfRange: bool, n: nat)
    requires Decode(line).Ok? && RecordAddressBytes(KindOf(line)) == Some(n)
    requires w.Selects(Decode(line).value.address) && 0 <= Decode(line).value.address + w.shift < Pow256(n)
    requires ShiftedBytes(line, there, w.shift, n) && KindOf(there) == KindOf(line)
    requires Decode(there) == Ok(Decode(line).value.(address := Decode(line).value.address + w.shift))
    ensures 6 + 2 * n <= |line|
    ensures Rewritten(there, w.Reversed(), dropOutOfRange) == Ok(Keep(Canonical(line, n)))
  {
    hide FromHex, ToHex, ParseHex, BigEndianBytes, Sum, Slice, Decode, DataText;
    hide Rewritten, ShiftedLine, Canonical, ShiftedBytes;
    AddressFits(line, n);
    SelectedRewritten(there, w.Reversed(), dropOutOfRange, n);
    ShiftedAgain(line, there, w.shift, n);
    CanonicalIsUnshifted(line, n);
  }

  lemma CanonicalOfUpper(line: string, n: nat)
    requires 6 + 2 * n <= |line| && Upper(line) == line
    ensures Canonical(line, n) == line
  {
    hide *;
    var j, k := 4 + 2 * n, |line| - 2;
    UpperSlice(line, 2, j);
    UpperTail(line, k);
    DataBetween(line, n);
    CanonicalParts(line, n, Upper(line[2..j]), DataText(line, n), Upper(line[k..]));
    Rebuilt(line, j, k, Upper(line[2..j]), DataText(line, n), Upper(line[k..]));
  }

  lemma CanonicalParts(line: string, n: nat, b: string, data: string, d: string)
    requires 6 + 2 * n <= |line|
    requires b == Upper(line[2..4 + 2 * n]) && data == DataText(line, n) && d == Upper(line[|line| - 2..])
    ensures Canonical(line, n) == line[..2] + b + data + d
  {
    hide Upper, DataText;
  }

  lemma DataBetween(line: string, n: nat)
    requires 6 + 2 * n <= |line|
    ensures DataText(line, n) == line[4 + 2 * n..|line| - 2]
  {
  }

  lemma Rebuilt(line: string, j: nat, k: nat, b: string, data: string, d: string)
    requires 2 <= j <= k <= |line| && b == line[2..j] && data == line[j..k] && d == line[k..]
    ensures line[..2] + b + data + d == line
  {
  }

  lemma UpperTail(line: string, k: nat)
    requires k <= |line| && Upper(line) == line
    ensures Upper(line[k..]) == line[k..]
  {
    hide Upper;
    UpperSlice(line, k, |line|);
    assert line[k..|line|] == line[k..];
  }

  lemma UpperSlice(line: string, i: nat, j: nat)
    requires i <= j <= |line| && Upper(line) == line
    ensures Upper(line[i..j]) == line[i..j]
  {
    hide Upper;
    var front, part, back := line[..i], line[i..j], line[j..];
    CutInThree(line, i, j);
    UpperJoin(front, part + back);
    UpperJoin(part, back);
    MiddleOf(Upper(front), Upper(part), Upper(back), line, i, j);
  }

  lemma CutInThree(line: string, i: nat, j: nat)
    requires i <= j <= |line|
    ensures line == line[..i] + (line[i..j] + line[j..])
  {
  }

  lemma MiddleOf(a: string, b: string, c: string, line: string, i: nat, j: nat)
    requires i <= j <= |line| && |a| == i && |b| == j - i && line == a + (b + c)
    ensures b == line[i..j]
  {
  }

  /** A line printed in upper case is restored exactly. */
  lemma UpperCaseRoundTrip(line: string, w: Window, dropOutOfRange: bool, n: nat)
    requires Decode(line).Ok? && RecordAddressBytes(KindOf(line)) == Some(n) && Upper(line) == line
    requires w.Selects(Decode(line).value.address) && 0 <= Decode(line).value.address + w.shift < Pow256(n)
    ensures Rewritten(ShiftedLine(line, w.shift, n), w.Reversed(), dropOutOfRange) == Ok(Keep(line))
  {
    hide *;
    ShiftBackRestores(line, w, dropOutOfRange, n);
    CanonicalOfUpper(line, n);
  }

  // Whole files.

  function LineFate(line: string, w: Window, dropOutOfRange: bool): Result<Fate, ()> {
    if line == "" then Ok(Drop) else Rewritten(line, w, dropOutOfRange)
  }

  function Kept(fate: Fate): seq<string> {
    if fate.Keep? then [fate.line] else []
  }

  /** The output lines after the first k input lines. */
  function ShiftedUpTo(lines: seq<string>, k: nat, w: Window, dropOutOfRange: bool): Result<seq<string>, ()>
    requires k <= |lines|
  {
    if k == 0 then Ok([])
    else
      match (ShiftedUpTo(lines, k - 1, w, dropOutOfRange), LineFate(lines[k - 1], w, dropOutOfRange))
      case (Ok(before), Ok(fate)) => Ok(before + Kept(fate))
      case _ => Err(())
  }

  /** How many of the first k input lines come out changed. */
  function ChangedLines(lines: seq<string>, k: nat, w: Window, dropOutOfRange: bool): nat
    requires k <= |lines|
  {
    if k == 0 then 0
    else
      ChangedLines(lines, k - 1, w, dropOutOfRange)
      + match LineFate(lines[k - 1], w, dropOutOfRange)
        case Ok(Keep(line)) => if line != lines[k - 1] then 1 else 0
        case _ => 0
  }

  lemma {:induction false} FailureStays(lines: seq<string>, k: nat, w: Window, dropOutOfRange: bool)
    requires k <= |lines| && ShiftedUpTo(lines, k, w, dropOutOfRange).Err?
    ensures ShiftedUpTo(lines, |lines|, w, dropOutOfRange).Err?
    decreases |lines| - k
  {
    if k < |lines| {
      FailureStays(lines, k + 1, w, dropOutOfRange);
    }
  }

  /** main's loop over the lines of the input file. */
  method ShiftFile(lines: seq<string>, w: Window, dropOutOfRange: bool)
    returns (r: Result<seq<string>, ()>, shiftedCount: nat)
    ensures r == ShiftedUpTo(lines, |lines|, w, dropOutOfRange)
    ensures r.Ok? ==> shiftedCount == ChangedLines(lines, |lines|, w, dropOutOfRange)
  {
    hide Rewritten;
    var output: seq<string> := [];
    shiftedCount := 0;
    for k := 0 to |lines|
      invariant shiftedCount == ChangedLines(lines, k, w, dropOutOfRange)
      invariant ShiftedUpTo(lines, k, w, dropOutOfRange) == Ok(output)
    {
      if lines[k] == "" {
        assert output + Kept(Drop) == output;
        continue;
      }
      var rewritten := RewriteRecord(lines[k], w, dropOutOfRange);
      if rewritten.Err? {
        FailureStays(lines, k + 1, w, dropOutOfRange);
        return Err(()), shiftedCount;
      }
      if rewritten.value.Drop? {
        assert output + Kept(Drop) == output;
        continue;
      }
      assert Kept(rewritten.value) == [rewritten.value.line];
      if rewritten.value.line != lines[k] {
        shiftedCount := shiftedCount + 1;
      }
      output := output + [rewritten.value.line];
    }
    r := Ok(output);
  }

  ghost predicate FileWrites(lines: seq<string>, a: int, v: Byte) {
    exists i :: 0 <= i < |lines| && Writes(lines[i], a, v)
  }

  /** Written by a record whose start address is selected. */
  ghost predicate SelectedLine(line: string, w: Window, a: int, v: Byte) {
    Writes(line, a, v) && w.Selects(Decode(line).value.address)
  }

  ghost predicate SelectedWrites(lines: seq<string>, k: nat, w: Window, a: int, v: Byte) {
    exists i :: 0 <= i < k <= |lines| && SelectedLine(lines[i], w, a, v)
  }

  /** One decodable line, with dropping: it survives as a line that writes exactly
      what the selected original wrote, translated. */
  lemma LineTranslated(line: string, w: Window, a: int, v: Byte)
    requires line == "" || Decode(line).Ok?
    requires LineFate(line, w, true).Ok?
    ensures FileWrites(Kept(LineFate(line, w, true).value), a, v) <==> SelectedLine(line, w, a - w.shift, v)
  {
    hide FromHex, Decode, ToHex, Rewritten, ShiftedLine, Printed;
    var kept := Kept(LineFate(line, w, true).value);
    if line != "" {
      var n := RecordAddressBytes(KindOf(line));
      if n.Some? && w.Selects(Decode(line).value.address) {
        SelectedRewritten(line, w, true, n.value);
        ShiftCommutesWithDecode(line, w, true, n.value);
        OneLineWrites(ShiftedLine(line, w.shift, n.value), a, v);
        TranslatedWrites(line, ShiftedLine(line, w.shift, n.value), w, a, v);
        assert kept == [ShiftedLine(line, w.shift, n.value)];
      } else {
        OthersKeptOrDropped(line, w, true);
        OneLineWrites(line, a, v);
        UnselectedWrites(line, w, a - w.shift, v);
        assert !FileWrites([], a, v);
        assert kept == if n.Some? then [] else [line];
      }
    } else {
      BlankWrites(w, a - w.shift, v);
    }
  }

  lemma BlankWrites(w: Window, a: int, v: Byte)
    ensures !SelectedLine("", w, a, v)
  {
  }

  lemma UnselectedWrites(line: string, w: Window, a: int, v: Byte)
    requires Decode(line).Ok?
    ensures RecordAddressBytes(KindOf(line)).None? ==> forall b: int :: !Writes(line, b, v)
    ensures !w.Selects(Decode(line).value.address) ==> !SelectedLine(line, w, a, v)
  {
    hide FromHex, Sum;
    assert Decode(line).value.kind == KindOf(line);
  }

  lemma OneLineWrites(line: string, a: int, v: Byte)
    ensures FileWrites([line], a, v) <==> Writes(line, a, v)
  {
    assert [line][0] == line;
  }

  lemma TranslatedWrites(line: string, out: string, w: Window, a: int, v: Byte)
    requires Decode(line).Ok? && w.Selects(Decode(line).value.address)
    requires 0 <= Decode(line).value.address + w.shift
    requires Decode(out) == Ok(Decode(line).value.(address := Decode(line).value.address + w.shift))
    ensures Writes(out, a, v) <==> SelectedLine(line, w, a - w.shift, v)
  {
  }

  lemma WritesJoin(front: seq<string>, back: seq<string>, a: int, v: Byte)
    ensures FileWrites(front + back, a, v) <==> FileWrites(front, a, v) || FileWrites(back, a, v)
  {
    var all := front + back;
    if i :| 0 <= i < |all| && Writes(all[i], a, v) {
      assert if i < |front| then Writes(front[i], a, v) else Writes(back[i - |front|], a, v);
    }
    if i :| 0 <= i < |front| && Writes(front[i], a, v) {
      assert Writes(all[i], a, v);
    }
    if i :| 0 <= i < |back| && Writes(back[i], a, v) {
      assert Writes(all[|front| + i], a, v);
    }
  }

  /** With out-of-range records dropped, the memory of the output file is the
      translated memory of the records that start in the window. */
  lemma {:induction false} FileTranslated(lines: seq<string>, k: nat, w: Window, a: int, v: Byte)
    requires k <= |lines| && ShiftedUpTo(lines, k, w, true).Ok?
    requires forall i :: 0 <= i < |lines| ==> lines[i] == "" || Decode(lines[i]).Ok?
    ensures FileWrites(ShiftedUpTo(lines, k, w, true).value, a, v) <==> SelectedWrites(lines, k, w, a - w.shift, v)
  {
    hide Decode, Rewritten, SelectedLine, Writes;
    if k > 0 {
      FileTranslated(lines, k - 1, w, a, v);
      LineTranslated(lines[k - 1], w, a, v);
      WritesJoin(ShiftedUpTo(lines, k - 1, w, true).value, Kept(LineFate(lines[k - 1], w, true).value), a, v);
      SelectedStep(lines, k, w, a - w.shift, v);
    }
  }

  lemma SelectedStep(lines: seq<string>, k: nat, w: Window, a: int, v: Byte)
    requires 0 < k <= |lines|
    ensures SelectedWrites(lines, k, w, a, v) <==>
              SelectedWrites(lines, k - 1, w, a, v) || SelectedLine(lines[k - 1], w, a, v)
  {
  }
}
