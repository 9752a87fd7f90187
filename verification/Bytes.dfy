/** Bytes, hexadecimal text and fixed-width integers. */
module Bytes {
  import opened Wrappers

  type Byte = x: int | 0 <= x < 256

  function HexValue(c: char): (r: Option<nat>)
    ensures r.Some? ==> r.value < 16
  {
    if '0' <= c <= '9' then Some(c as int - '0' as int)
    else if 'A' <= c <= 'F' then Some(c as int - 'A' as int + 10)
    else if 'a' <= c <= 'f' then Some(c as int - 'a' as int + 10)
    else None
  }

  function HexDigit(v: nat): (c: char)
    requires v < 16
    ensures HexValue(c) == Some(v)
  {
    if v < 10 then ('0' as int + v) as char else ('A' as int + v - 10) as char
  }

  /** The digits are the usual ones, read in either case and printed in upper case. */
  lemma DigitsInOrder(v: nat)
    requires v < 16
    ensures HexDigit(v) == "0123456789ABCDEF"[v]
    ensures forall c :: HexValue(c) == Some(v) <==> c == "0123456789ABCDEF"[v] || c == "0123456789abcdef"[v]
  {
    var upper, lower := "0123456789ABCDEF"[v], "0123456789abcdef"[v];
    assert v < 10 ==> upper == lower == ('0' as int + v) as char;
    assert 10 <= v ==> upper == ('A' as int + v - 10) as char && lower == ('a' as int + v - 10) as char;
  }

  function HexPair(hi: char, lo: char): Option<Byte> {
    match (HexValue(hi), HexValue(lo))
    case (Some(h), Some(l)) => Some(16 * h + l)
    case _ => None
  }

  /** bytes.fromhex on text without white space. */
  function FromHex(s: string): (r: Option<seq<Byte>>)
    ensures r.Some? ==> |s| == 2 * |r.value|
  {
    if s == "" then Some([])
    else if |s| == 1 then None
    else
      match (HexPair(s[0], s[1]), FromHex(s[2..]))
      case (Some(first), Some(rest)) => Some([first] + rest)
      case _ => None
  }

  lemma FromHexPair(hi: char, lo: char)
    ensures FromHex([hi, lo]).Some? <==> HexPair(hi, lo).Some?
    ensures FromHex([hi, lo]).Some? ==> FromHex([hi, lo]).value == [HexPair(hi, lo).value]
  {
    var s := [hi, lo];
    assert s[0] == hi && s[1] == lo && s[2..] == "";
    assert FromHex("") == Some([]);
  }

  lemma {:induction false} FromHexJoin(a: string, b: string)
    requires |a| % 2 == 0
    ensures FromHex(a + b).Some? <==> FromHex(a).Some? && FromHex(b).Some?
    ensures FromHex(a + b).Some? ==> FromHex(a + b).value == FromHex(a).value + FromHex(b).value
    decreases |a|
  {
    hide HexValue;
    if a == "" {
      assert a + b == b;
    } else {
      FromHexJoin(a[2..], b);
      assert (a + b)[2..] == a[2..] + b && (a + b)[0] == a[0] && (a + b)[1] == a[1];
      if FromHex(a).Some? && FromHex(b).Some? {
        assert FromHex(a + b).value == [FromHex(a).value[0]] + (FromHex(a[2..]).value + FromHex(b).value);
      }
    }
  }

  /** int(s, 16) on a string of hexadecimal digits. */
  function ParseHex(s: string): Option<nat> {
    if s == "" then None
    else
      match HexValue(s[|s| - 1])
      case None => None
      case Some(low) =>
        if |s| == 1 then Some(low)
        else
          match ParseHex(s[..|s| - 1])
          case None => None
          case Some(high) => Some(16 * high + low)
  }

  function BigEndian(bs: seq<Byte>): nat {
    if bs == [] then 0 else 256 * BigEndian(bs[..|bs| - 1]) + bs[|bs| - 1]
  }

  /** Reading text as one number and as bytes agree. */
  lemma {:induction false} ParseHexIsBigEndian(s: string)
    requires s != "" && FromHex(s).Some?
    ensures ParseHex(s) == Some(BigEndian(FromHex(s).value))
    decreases |s|
  {
    var n := |s| - 2;
    var bs := FromHex(s).value;
    FromHexJoin(s[..n], s[n..]);
    assert s[..n] + s[n..] == s;
    assert s[n..] == [s[n], s[n + 1]];
    FromHexPair(s[n], s[n + 1]);
    assert bs[..|bs| - 1] == FromHex(s[..n]).value;
    assert s[..|s| - 1][..n] == s[..n];
    if n > 0 {
      ParseHexIsBigEndian(s[..n]);
    }
  }

  function Pow256(n: nat): nat {
    if n == 0 then 1 else 256 * Pow256(n - 1)
  }

  lemma {:induction false} BigEndianBound(bs: seq<Byte>)
    ensures BigEndian(bs) < Pow256(|bs|)
  {
    if bs != [] {
      BigEndianBound(bs[..|bs| - 1]);
    }
  }

  /** The n low-order bytes of v, most significant first. */
  function BigEndianBytes(v: nat, n: nat): (bs: seq<Byte>)
    ensures |bs| == n
    decreases n
  {
    if n == 0 then [] else BigEndianBytes(v / 256, n - 1) + [v % 256]
  }

  lemma {:induction false} BigEndianOfBytes(v: nat, n: nat)
    requires v < Pow256(n)
    ensures BigEndian(BigEndianBytes(v, n)) == v
    decreases n
  {
    if n > 0 {
      BigEndianOfBytes(v / 256, n - 1);
    }
  }

  lemma {:induction false} BytesOfBigEndian(bs: seq<Byte>)
    ensures BigEndianBytes(BigEndian(bs), |bs|) == bs
  {
    if bs != [] {
      BytesOfBigEndian(bs[..|bs| - 1]);
      assert bs == bs[..|bs| - 1] + [bs[|bs| - 1]];
    }
  }

  /** Upper-case hexadecimal: the form f"{v:0nX}" prints, for v given by its bytes. */
  function ToHex(bs: seq<Byte>): (s: string)
    ensures |s| == 2 * |bs|
  {
    if bs == [] then "" else [HexDigit(bs[0] / 16), HexDigit(bs[0] % 16)] + ToHex(bs[1..])
  }

  lemma PairOfDigits(b: Byte)
    ensures HexPair(HexDigit(b / 16), HexDigit(b % 16)) == Some(b)
  {
  }

  /** Printing and parsing bytes are inverse. */
  lemma {:induction false} FromHexOfToHex(bs: seq<Byte>)
    ensures FromHex(ToHex(bs)) == Some(bs)
  {
    if bs != [] {
      var pair := [HexDigit(bs[0] / 16), HexDigit(bs[0] % 16)];
      FromHexOfToHex(bs[1..]);
      PairOfDigits(bs[0]);
      FromHexPair(pair[0], pair[1]);
      FromHexJoin(pair, ToHex(bs[1..]));
      assert [bs[0]] + bs[1..] == bs;
    }
  }

  /** A hexadecimal digit in the upper case the tools print. */
  function Upper(s: string): (r: string)
    ensures |r| == |s|
  {
    if s == "" then ""
    else [if 'a' <= s[0] <= 'f' then (s[0] as int - 32) as char else s[0]] + Upper(s[1..])
  }

  lemma {:induction false} UpperJoin(a: string, b: string)
    ensures Upper(a + b) == Upper(a) + Upper(b)
  {
    if a == "" {
      assert a + b == b;
    } else {
      assert (a + b)[1..] == a[1..] + b;
      UpperJoin(a[1..], b);
    }
  }

  lemma UpperDigit(c: char)
    requires HexValue(c).Some?
    ensures Upper([c]) == [HexDigit(HexValue(c).value)]
  {
  }

  lemma UpperPair(hi: char, lo: char)
    requires HexPair(hi, lo).Some?
    ensures Upper([hi, lo]) == [HexDigit(HexPair(hi, lo).value / 16), HexDigit(HexPair(hi, lo).value % 16)]
  {
    UpperJoin([hi], [lo]);
    UpperDigit(hi);
    UpperDigit(lo);
    assert [hi] + [lo] == [hi, lo];
  }

  /** Printing what was parsed gives the text back, in upper case. */
  lemma {:induction false} ToHexOfFromHex(s: string)
    requires FromHex(s).Some?
    ensures ToHex(FromHex(s).value) == Upper(s)
    decreases |s|
  {
    if s != "" {
      ToHexOfFromHex(s[2..]);
      UpperPair(s[0], s[1]);
      UpperJoin([s[0], s[1]], s[2..]);
      assert s == [s[0], s[1]] + s[2..];
    }
  }

  function Sum(bs: seq<Byte>): nat {
    if bs == [] then 0 else bs[0] + Sum(bs[1..])
  }

  lemma {:induction false} SumJoin(a: seq<Byte>, b: seq<Byte>)
    ensures Sum(a + b) == Sum(a) + Sum(b)
  {
    if a == [] {
      assert a + b == b;
    } else {
      assert (a + b)[1..] == a[1..] + b;
      SumJoin(a[1..], b);
    }
  }

  const WORD: nat := 0x1_0000_0000

  /** struct.pack("<I", v) */
  function Le32(v: nat): (bs: seq<Byte>)
    requires v < WORD
    ensures |bs| == 4
  {
    [v % 256, v / 256 % 256, v / 65536 % 256, v / 16777216]
  }

  /** struct.unpack_from("<I", bs, offset)[0] */
  function U32(bs: seq<Byte>, offset: nat): (v: nat)
    requires offset + 4 <= |bs|
    ensures v < WORD
  {
    var p: int, q: int, r: int, s: int := bs[offset], bs[offset + 1], bs[offset + 2], bs[offset + 3];
    p + 256 * q + 65536 * r + 16777216 * s
  }

  lemma U32OfLe32(v: nat)
    requires v < WORD
    ensures U32(Le32(v), 0) == v
  {
    var a, b, c := v / 256, v / 65536, v / 16777216;
    assert a / 256 == b && b / 256 == c;
    assert v == 256 * a + v % 256 && a == 256 * b + a % 256 && b == 256 * c + b % 256;
  }

  lemma Le32OfU32(bs: seq<Byte>, offset: nat)
    requires offset + 4 <= |bs|
    ensures Le32(U32(bs, offset)) == bs[offset..offset + 4]
  {
    var v := U32(bs, offset);
    var p: int, q: int, r: int, s: int := bs[offset], bs[offset + 1], bs[offset + 2], bs[offset + 3];
    assert v / 256 == q + 256 * r + 65536 * s && v % 256 == p;
    assert v / 65536 == r + 256 * s;
    assert v / 16777216 == s;
  }
}
