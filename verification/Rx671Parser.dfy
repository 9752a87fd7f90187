/** parse_application_mot: from an application MOT to the padded RX671 payload.

Three levels: the loop over two buffers, a fold over a sparse memory map, and an
order-free description of which files are accepted and what the payload is. */
module Rx671Parser {
  import opened Wrappers
  import opened Bytes
  import opened Srecord

  const FWUP_AREA_START: nat := 0xFFF00000
  const FWUP_AREA_SIZE: nat := 0x000C0000
  const RSU_HEADER_SIZE: nat := 0x200
  const RSU_DESCRIPTOR_SIZE: nat := 0x100
  const APPLICATION_START: nat := FWUP_AREA_START + RSU_HEADER_SIZE + RSU_DESCRIPTOR_SIZE
  const APPLICATION_END: nat := FWUP_AREA_START + FWUP_AREA_SIZE - 1
  const APPLICATION_SIZE: nat := APPLICATION_END - APPLICATION_START + 1
  const RESET_VECTOR_ADDRESS: nat := APPLICATION_END - 3
  const OPTION_SETTING_MEMORY_START: nat := 0xFE7F5D00
  const OPTION_SETTING_MEMORY_END: nat := 0xFE7F5D80

  datatype ParseError =
    | BadRecord(error: DecodeError, line: nat)
    | EmptyData(line: nat)
    | OutsideApplication(line: nat)
    | Conflict(address: nat, line: nat)
    | NoApplicationData
    | NoResetVector

  predicate InApplication(r: Record) {
    APPLICATION_START <= r.address && r.address + |r.data| <= APPLICATION_END + 1
  }

  predicate InOptionMemory(r: Record) {
    OPTION_SETTING_MEMORY_START <= r.address && r.address + |r.data| <= OPTION_SETTING_MEMORY_END
  }

  /** The first byte of the record, from index i on, that contradicts the memory. */
  function FirstConflict(mem: Memory, r: Record, i: nat): (c: Option<nat>)
    requires i <= |r.data|
    ensures c.None? <==> forall k :: i <= k < |r.data| && r.address + k in mem ==> mem[r.address + k] == r.data[k]
    decreases |r.data| - i
  {
    if i == |r.data| then None
    else if r.address + i in mem && mem[r.address + i] != r.data[i] then Some(r.address + i)
    else FirstConflict(mem, r, i + 1)
  }

  function Absorb(mem: Memory, line: string, number: nat): Result<Memory, ParseError> {
    if line == "" then Ok(mem)
    else
      match Decode(line)
      case Err(e) => Err(BadRecord(e, number))
      case Ok(r) =>
        if !IsData(r.kind) then Ok(mem)
        else if r.data == [] then Err(EmptyData(number))
        else if !InApplication(r) then
          if InOptionMemory(r) then Ok(mem) else Err(OutsideApplication(number))
        else
          match FirstConflict(mem, r, 0)
          case Some(a) => Err(Conflict(a, number))
          case None => Ok(Stored(mem, r, |r.data|))
  }

  /** Line k of the sequence is line number k + 1 of the file. */
  function AbsorbFrom(mem: Memory, lines: seq<string>, k: nat): Result<Memory, ParseError>
    requires k <= |lines|
    decreases |lines| - k
  {
    if k == |lines| then Ok(mem)
    else
      match Absorb(mem, lines[k], k + 1)
      case Err(e) => Err(e)
      case Ok(m) => AbsorbFrom(m, lines, k + 1)
  }

  /** All four bytes are there and they are not the erased pattern. */
  predicate HasResetVector(mem: Memory) {
    && RESET_VECTOR_ADDRESS in mem && RESET_VECTOR_ADDRESS + 1 in mem
    && RESET_VECTOR_ADDRESS + 2 in mem && RESET_VECTOR_ADDRESS + 3 in mem
    && !(mem[RESET_VECTOR_ADDRESS] == mem[RESET_VECTOR_ADDRESS + 1] == mem[RESET_VECTOR_ADDRESS + 2]
         == mem[RESET_VECTOR_ADDRESS + 3] == 0xFF)
  }

  function ByteAt(mem: Memory, a: int): Byte {
    if a in mem then mem[a] else 0xFF
  }

  function Padded(mem: Memory): seq<Byte> {
    seq<Byte>(APPLICATION_SIZE, i => ByteAt(mem, APPLICATION_START + i))
  }

  function Parse(lines: seq<string>): Result<seq<Byte>, ParseError> {
    match AbsorbFrom(map[], lines, 0)
    case Err(e) => Err(e)
    case Ok(mem) =>
      if mem == map[] then Err(NoApplicationData)
      else if !HasResetVector(mem) then Err(NoResetVector)
      else Ok(Padded(mem))
  }

  // The loop.

  /** The two buffers hold exactly this sparse memory. */
  ghost predicate Holds(payload: array<Byte>, populated: array<bool>, mem: Memory)
    reads payload, populated
  {
    && payload.Length == populated.Length == APPLICATION_SIZE
    && (forall i :: 0 <= i < APPLICATION_SIZE ==> populated[i] == (APPLICATION_START + i in mem))
    && (forall i :: 0 <= i < APPLICATION_SIZE ==> payload[i] == ByteAt(mem, APPLICATION_START + i))
    && (forall a :: a in mem ==> APPLICATION_START <= a <= APPLICATION_END)
  }

  method Put(payload: array<Byte>, populated: array<bool>, a: int, v: Byte, ghost mem: Memory)
    requires Holds(payload, populated, mem) && APPLICATION_START <= a <= APPLICATION_END
    modifies payload, populated
    ensures Holds(payload, populated, mem[a := v])
  {
    populated[a - APPLICATION_START] := true;
    payload[a - APPLICATION_START] := v;
  }

  /** The inner loop: write one record, byte by byte, unless it contradicts. */
  method Deposit(payload: array<Byte>, populated: array<bool>, r: Record, ghost mem: Memory)
    returns (conflict: Option<nat>, added: nat)
    requires Holds(payload, populated, mem) && InApplication(r)
    modifies payload, populated
    ensures conflict == FirstConflict(mem, r, 0)
    ensures conflict.None? ==> Holds(payload, populated, Stored(mem, r, |r.data|))
    ensures conflict.None? && added == 0 ==> Stored(mem, r, |r.data|).Keys == mem.Keys
  {
    var offset := r.address - APPLICATION_START;
    added := 0;
    for index := 0 to |r.data|
      invariant Holds(payload, populated, Stored(mem, r, index))
      invariant FirstConflict(mem, r, index) == FirstConflict(mem, r, 0)
      invariant added == 0 ==> Stored(mem, r, index).Keys == mem.Keys
    {
      var a := r.address + index;
      StoredAt(mem, r, index, a);
      assert populated[offset + index] == (a in mem);
      if populated[offset + index] && payload[offset + index] != r.data[index] {
        return Some(a), added;
      }
      if !populated[offset + index] {
        added := added + 1;
      }
      Put(payload, populated, a, r.data[index], Stored(mem, r, index));
    }
    return None, added;
  }

  method ParseApplicationMot(lines: seq<string>) returns (r: Result<seq<Byte>, ParseError>)
    ensures r == Parse(lines)
  {
    var payload := new Byte[APPLICATION_SIZE](i => 0xFF);
    var populated := new bool[APPLICATION_SIZE](i => false);
    var dataBytes := 0;
    ghost var mem: Memory := map[];
    for k := 0 to |lines|
      invariant Holds(payload, populated, mem)
      invariant AbsorbFrom(mem, lines, k) == AbsorbFrom(map[], lines, 0)
      invariant dataBytes == 0 <==> mem == map[]
    {
      var line := lines[k];
      if line == "" {
        continue;
      }
      var decoded := Decode(line);
      if decoded.Err? {
        return Err(BadRecord(decoded.error, k + 1));
      }
      var record := decoded.value;
      if !IsData(record.kind) {
        continue;
      }
      if record.data == [] {
        return Err(EmptyData(k + 1));
      }
      if record.address < APPLICATION_START || record.address + |record.data| > APPLICATION_END + 1 {
        if OPTION_SETTING_MEMORY_START <= record.address
           && record.address + |record.data| <= OPTION_SETTING_MEMORY_END {
          continue;
        }
        return Err(OutsideApplication(k + 1));
      }
      var conflict, added := Deposit(payload, populated, record, mem);
      if conflict.Some? {
        return Err(Conflict(conflict.value, k + 1));
      }
      dataBytes := dataBytes + added;
      StoredAt(mem, record, |record.data|, record.address);
      mem := Stored(mem, record, |record.data|);
    }
    if dataBytes == 0 {
      return Err(NoApplicationData);
    }
    var at := RESET_VECTOR_ADDRESS - APPLICATION_START;
    var allPopulated := populated[at] && populated[at + 1] && populated[at + 2] && populated[at + 3];
    var blank := payload[at] == 0xFF && payload[at + 1] == 0xFF && payload[at + 2] == 0xFF && payload[at + 3] == 0xFF;
    if !allPopulated || blank {
      return Err(NoResetVector);
    }
    assert HasResetVector(mem);
    assert payload[..] == Padded(mem);
    return Ok(payload[..]);
  }
}
