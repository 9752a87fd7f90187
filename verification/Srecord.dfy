/** Motorola S-records: the strict, checksummed decoder of the RX671 tools.

A line is the text of one record, already stripped of surrounding white space. */
module Srecord {
  import opened Wrappers
  import opened Bytes

  /** The type of a record: S followed by one digit. */
  datatype Kind = S(digit: nat) | Unknown

  datatype Record = Record(kind: Kind, address: nat, data: seq<Byte>)

  datatype DecodeError = UnsupportedType | MalformedLength | NonHex | CountMismatch | ChecksumMismatch | TooShort

  function KindOf(line: string): Kind {
    if |line| >= 2 && line[0] == 'S' && '0' <= line[1] <= '9' then S(line[1] as int - '0' as int) else Unknown
  }

  /** S4 is reserved and has no address width. */
  function AddressBytes(kind: Kind): (r: Option<nat>)
    ensures r.Some? ==> 2 <= r.value <= 4 && kind.S?
  {
    match kind
    case Unknown => None
    case S(d) =>
      if d == 0 || d == 1 || d == 5 || d == 9 then Some(2)
      else if d == 2 || d == 6 || d == 8 then Some(3)
      else if d == 3 || d == 7 then Some(4)
      else None
  }

  predicate IsData(kind: Kind) {
    kind.S? && 1 <= kind.digit <= 3
  }

  function Decode(line: string): (r: Result<Record, DecodeError>)
  {
    match AddressBytes(KindOf(line))
    case None => Err(UnsupportedType)
    case Some(n) =>
      if |line| < 4 || |line| % 2 != 0 then Err(MalformedLength)
      else
        match FromHex(line[2..])
        case None => Err(NonHex)
        case Some(encoded) => Unpack(KindOf(line), n, encoded)
  }

  /** The checks on the decoded bytes: count, checksum, room for an address. */
  function Unpack(kind: Kind, n: nat, encoded: seq<Byte>): Result<Record, DecodeError>
    requires encoded != []
  {
    if |encoded| - 1 != encoded[0] then Err(CountMismatch)
    else if Sum(encoded) % 256 != 255 then Err(ChecksumMismatch)
    else if |encoded| < n + 2 then Err(TooShort)
    else Ok(Record(kind, BigEndian(encoded[1..1 + n]), encoded[1 + n..|encoded| - 1]))
  }

  /** The line is a data record that puts v at address a. */
  ghost predicate Writes(line: string, a: int, v: Byte) {
    Decode(line).Ok? && IsData(Decode(line).value.kind) && Covers(Decode(line).value, a)
    && Decode(line).value.data[a - Decode(line).value.address] == v
  }

  predicate Covers(r: Record, a: int) {
    r.address <= a < r.address + |r.data|
  }

  type Memory = map<int, Byte>

  /** Sparse memory after the first n bytes of the record have been stored. */
  function Stored(mem: Memory, r: Record, n: nat): Memory
    requires n <= |r.data|
  {
    if n == 0 then mem else Stored(mem, r, n - 1)[r.address + n - 1 := r.data[n - 1]]
  }

  lemma {:induction false} StoredAt(mem: Memory, r: Record, n: nat, a: int)
    requires n <= |r.data|
    ensures a in Stored(mem, r, n) <==> a in mem || r.address <= a < r.address + n
    ensures r.address <= a < r.address + n ==> Stored(mem, r, n)[a] == r.data[a - r.address]
    ensures !(r.address <= a < r.address + n) && a in mem ==> Stored(mem, r, n)[a] == mem[a]
  {
    if n > 0 {
      StoredAt(mem, r, n - 1, a);
    }
  }
}
