/** What an S-record line says, read off its characters: type digit, count, address and
data at their places in the text, without the tables that the tools look up. */
module SrecordText {
  import opened Wrappers
  import opened Bytes
  import opened Srecord
  import opened LooseSrec
  import opened ShiftSrec

  /** The line begins with S and the digit d. */
  predicate Begins(line: string, d: nat) {
    d <= 9 && 2 <= |line| && line[..2] == "S" + ["0123456789"[d]]
  }

  /** Record type and address width: S1 to S3 carry data at 2, 3 and 4 bytes, S9 to S7 a
      start address of the same widths; header and counts are as wide as they need be. */
  predicate Width(d: nat, n: nat) {
    || (1 <= d <= 3 && n == d + 1)
    || (7 <= d <= 9 && n == 11 - d)
    || (d in {0, 5} && n == 2)
    || (d == 6 && n == 3)
  }

  /** The line is hexadecimal, as long as its count says, closed by its checksum, and has
      room for an address of n bytes. */
  predicate Framed(line: string, n: nat) {
    && 6 + 2 * n <= |line| && FromHex(line[2..]).Some?
    && ParseHex(line[2..4]) == Some((|line| - 4) / 2)
    && Sum(FromHex(line[2..]).value) % 256 == 255
  }

  /** Address and data stand where the width puts them. */
  predicate Says(line: string, n: nat, address: nat, data: seq<Byte>) {
    && 6 + 2 * n <= |line|
    && ParseHex(line[4..4 + 2 * n]) == Some(address) && FromHex(line[4 + 2 * n..|line| - 2]) == Some(data)
  }

  lemma KindOfText(line: string, d: nat)
    ensures Begins(line, d) <==> KindOf(line) == S(d)
  {
    if 2 <= |line| && d <= 9 {
      assert line[..2] == [line[0], line[1]];
      assert "0123456789"[d] == ('0' as int + d) as char;
    }
  }

  lemma WidthIsTheTable(d: nat, n: nat)
    ensures Width(d, n) <==> d <= 9 && AddressBytes(S(d)) == Some(n)
    ensures Width(d, n) && (1 <= d <= 3 || 7 <= d) <==> d <= 9 && RecordAddressBytes(S(d)) == Some(n)
  {
  }

  /** The strict decoder accepts exactly the framed lines of a known type, and reads
      address and data where they stand. */
  lemma DecodeIsText(line: string, d: nat, n: nat)
    requires Begins(line, d) && Width(d, n)
    ensures Decode(line).Ok? <==> Framed(line, n)
    ensures Decode(line).Ok? ==>
              Decode(line).value.kind == S(d) && Says(line, n, Decode(line).value.address, Decode(line).value.data)
  {
    KindOfText(line, d);
    WidthIsTheTable(d, n);
    if FromHex(line[2..]).Some? && 4 <= |line| {
      var encoded := FromHex(line[2..]).value;
      FramedIsUnpacked(line, S(d), n, encoded);
      hide Unpack, FromHex, ParseHex, KindOf, AddressBytes, Framed, Says;
      LineLength(line, encoded);
    } else {
      hide ParseHex, KindOf, AddressBytes;
    }
  }

  lemma FramedIsUnpacked(line: string, kind: Kind, n: nat, encoded: seq<Byte>)
    requires 4 <= |line| && FromHex(line[2..]) == Some(encoded) && 2 <= n
    ensures encoded != []
    ensures Unpack(kind, n, encoded).Ok? <==> Framed(line, n)
    ensures Unpack(kind, n, encoded).Ok? ==>
              var r := Unpack(kind, n, encoded).value; r.kind == kind && Says(line, n, r.address, r.data)
  {
    hide FromHex, ParseHex, BigEndian, Sum;
    LineLength(line, encoded);
    CountText(line, encoded);
    if Unpack(kind, n, encoded).Ok? {
      LooseFields(line, n, encoded);
      assert Slice(line, 4, 4 + 2 * n) == line[4..4 + 2 * n];
      assert Slice(line, 4 + 2 * n, |line| - 2) == line[4 + 2 * n..|line| - 2];
    }
  }

  lemma CountText(line: string, encoded: seq<Byte>)
    requires 4 <= |line| && FromHex(line[2..]) == Some(encoded)
    ensures encoded != [] && ParseHex(line[2..4]) == Some(encoded[0])
  {
    LineLength(line, encoded);
    NumberOfPart(line, encoded, 0, 1);
    SingleByte(encoded);
  }

  /** All other lines are refused for their type. */
  lemma OtherTypesRefused(line: string)
    requires forall d: nat, n: nat :: Begins(line, d) ==> !Width(d, n)
    ensures Decode(line) == Err(UnsupportedType)
  {
    if KindOf(line).S? {
      var d := KindOf(line).digit;
      KindOfText(line, d);
      if AddressBytes(S(d)).Some? {
        WidthIsTheTable(d, AddressBytes(S(d)).value);
      }
    }
  }

  /** What the line writes, off its characters. */
  ghost predicate WritesText(line: string, d: nat, address: nat, data: seq<Byte>, a: int, v: Byte) {
    && 1 <= d <= 3 && Begins(line, d) && Framed(line, d + 1) && Says(line, d + 1, address, data)
    && address <= a < address + |data| && data[a - address] == v
  }

  /** A line writes a byte exactly if it is a framed S1, S2 or S3 line which says so. */
  lemma WritesIsText(line: string, a: int, v: Byte)
    ensures Writes(line, a, v)
       <==> exists d: nat, address: nat, data: seq<Byte> :: WritesText(line, d, address, data, a, v)
  {
    hide FromHex, ParseHex, Sum;
    if Writes(line, a, v) {
      var r := Decode(line).value;
      var d := KindOf(line).digit;
      assert r.kind == KindOf(line);
      KindOfText(line, d);
      DecodeIsText(line, d, d + 1);
      assert WritesText(line, d, r.address, r.data, a, v);
    }
    if d: nat, address: nat, data: seq<Byte> :| WritesText(line, d, address, data, a, v) {
      DecodeIsText(line, d, d + 1);
      KindOfText(line, d);
    }
  }

  /** The lenient reader sees data exactly on S1, S2 and S3 lines whose count, address
      and data read as numbers, cut short where the line ends; it skips the other types. */
  lemma ReadIsText(line: string, address: nat, data: seq<Byte>)
    ensures Read(line) == Ok(Data(address, data)) <==>
              exists d: nat, count: nat ::
                && 1 <= d <= 3 && Begins(line, d) && ParseHex(Slice(line, 2, 4)) == Some(count)
                && ParseHex(Slice(line, 4, 6 + 2 * d)) == Some(address)
                && FromHex(Slice(line, 6 + 2 * d, 2 + 2 * count)) == Some(data)
    ensures Read(line) == Ok(Skip) <==> exists d: nat :: Begins(line, d) && !(1 <= d <= 3)
  {
    hide FromHex, ParseHex, Slice;
    if KindOf(line).S? {
      KindOfText(line, KindOf(line).digit);
    }
    forall d: nat | Begins(line, d)
      ensures KindOf(line) == S(d)
    {
      KindOfText(line, d);
    }
    if KindOf(line).S? && 1 <= KindOf(line).digit <= 3 {
      var d := KindOf(line).digit;
      assert 4 + 2 * (d + 1) == 6 + 2 * d;
      if ParseHex(Slice(line, 2, 4)).Some? {
        var count: int := ParseHex(Slice(line, 2, 4)).value;
        assert 4 + 2 * (d + 1) + 2 * (count - (d + 1) - 1) == 2 + 2 * count;
      }
    }
  }

  /** The shifter keeps a decodable line of the other types, and a selected one of types
      1 to 3 and 7 to 9 it rewrites to a framed line of the same type, with the same data
      characters and the shifted number where the address stands. */
  lemma ShiftIsText(line: string, w: Window, dropOutOfRange: bool, d: nat, n: nat)
    requires Begins(line, d) && Width(d, n) && Framed(line, n)
    ensures !(1 <= d <= 3 || 7 <= d) ==> Rewritten(line, w, dropOutOfRange) == Ok(Keep(line))
    ensures 1 <= d <= 3 || 7 <= d ==>
              forall address: nat :: ParseHex(line[4..4 + 2 * n]) == Some(address) ==>
                if !w.Selects(address) then
                  Rewritten(line, w, dropOutOfRange) == Ok(if dropOutOfRange then Drop else Keep(line))
                else if !(0 <= address + w.shift < Pow256(n)) then Rewritten(line, w, dropOutOfRange) == Err(())
                else
                  && Rewritten(line, w, dropOutOfRange).Ok? && Rewritten(line, w, dropOutOfRange).value.Keep?
                  && var out := Rewritten(line, w, dropOutOfRange).value.line;
                     && Begins(out, d) && Framed(out, n) && |out| == |line|
                     && out[4 + 2 * n..|out| - 2] == line[4 + 2 * n..|line| - 2]
                     && ParseHex(out[4..4 + 2 * n]) == Some(address + w.shift)
  {
    hide FromHex, ParseHex, Sum, Rewritten, Decode, BigEndianBytes, Pow256, ShiftedLine;
    KindOfText(line, d);
    WidthIsTheTable(d, n);
    DecodeIsText(line, d, n);
    OthersKeptOrDropped(line, w, dropOutOfRange);
    var r := Decode(line).value;
    if (1 <= d <= 3 || 7 <= d) && w.Selects(r.address) {
      SelectedRewritten(line, w, dropOutOfRange, n);
      if 0 <= r.address + w.shift < Pow256(n) {
        var out := ShiftedLine(line, w.shift, n);
        ShiftCommutesWithDecode(line, w, dropOutOfRange, n);
        ShiftedLineBytes(line, w.shift, n);
        SameBeginning(line, out, d);
        DecodeIsText(out, d, n);
        SameLength(line, out, n);
      }
    }
  }

  lemma SameBeginning(line: string, out: string, d: nat)
    requires Begins(line, d) && 2 <= |out| && out[..2] == line[..2]
    ensures Begins(out, d)
  {
  }

  lemma SameLength(line: string, out: string, n: nat)
    requires 6 + 2 * n <= |line| && 6 + 2 * n <= |out| && DataText(out, n) == DataText(line, n)
    ensures |out| == |line| && out[4 + 2 * n..|out| - 2] == line[4 + 2 * n..|line| - 2]
  {
  }
}
