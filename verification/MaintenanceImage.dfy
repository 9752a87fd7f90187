/** validate_image: what a public-signer maintenance MOT must contain. */
module MaintenanceImage {
  import opened Wrappers
  import opened Bytes
  import opened Srecord
  import P = Rx671Parser

  const OPTION_MDE: int := 0xFE7F5D00
  const OPTION_BANK: int := 0xFE7F5D20
  const HARDWARE_VECTOR: int := 0xFFFFFFFC

  /** "PUBLIC_SIGNER_PROVISIONER source_sha=" */
  const MARKER_PREFIX: seq<Byte> :=
    [0x50, 0x55, 0x42, 0x4C, 0x49, 0x43, 0x5F, 0x53, 0x49, 0x47, 0x4E, 0x45, 0x52, 0x5F, 0x50, 0x52, 0x4F, 0x56, 0x49,
     0x53, 0x49, 0x4F, 0x4E, 0x45, 0x52, 0x20, 0x73, 0x6F, 0x75, 0x72, 0x63, 0x65, 0x5F, 0x73, 0x68, 0x61, 0x3D]

  function Marker(sourceSha: seq<Byte>): (m: seq<Byte>)
    ensures m != []
  {
    MARKER_PREFIX + sourceSha + [0x0D, 0x0A]
  }

  datatype ImageError =
    BadIdentity | BadRecord | OutsideRanges | Conflict | MissingVector | WrongOptions | VectorOutside | NoIdentity

  /** The data lies wholly inside one reviewed range. */
  predicate InReviewedRange(r: Record, start: nat) {
    var last := r.address + |r.data| - 1;
    r.data != [] &&
    ((start <= r.address && last <= 0xFFFFFFFF)
     || (0xFE7F5D00 <= r.address && last <= 0xFE7F5D7F)
     || (0xFE7F7D70 <= r.address && last <= 0xFE7F7D9F))
  }

  function Absorb(mem: Memory, line: string, start: nat): Result<Memory, ImageError> {
    if line == "" then Ok(mem)
    else
      match Decode(line)
      case Err(_) => Err(BadRecord)
      case Ok(r) =>
        if !IsData(r.kind) then Ok(mem)
        else if !InReviewedRange(r, start) then Err(OutsideRanges)
        else if P.FirstConflict(mem, r, 0).Some? then Err(Conflict)
        else Ok(Stored(mem, r, |r.data|))
  }

  function AbsorbUpTo(lines: seq<string>, k: nat, start: nat): Result<Memory, ImageError>
    requires k <= |lines|
  {
    if k == 0 then Ok(map[])
    else
      match AbsorbUpTo(lines, k - 1, start)
      case Err(e) => Err(e)
      case Ok(mem) => Absorb(mem, lines[k - 1], start)
  }

  lemma {:induction false} AbsorbFailureStays(lines: seq<string>, k: nat, start: nat)
    requires k <= |lines| && AbsorbUpTo(lines, k, start).Err?
    ensures AbsorbUpTo(lines, |lines|, start) == AbsorbUpTo(lines, k, start)
    decreases |lines| - k
  {
    if k < |lines| {
      AbsorbFailureStays(lines, k + 1, start);
    }
  }

  /** Four consecutive bytes, if all of them are there. */
  function Field(mem: Memory, a: int): Option<seq<Byte>> {
    if a in mem && a + 1 in mem && a + 2 in mem && a + 3 in mem then Some([mem[a], mem[a + 1], mem[a + 2], mem[a + 3]])
    else None
  }

  /** The memory spells the text at address a. */
  ghost predicate Spells(mem: Memory, a: int, text: seq<Byte>) {
    forall i :: 0 <= i < |text| ==> At(mem, a + i, text[i])
  }

  ghost predicate At(mem: Memory, a: int, v: Byte) {
    a in mem && mem[a] == v
  }

  /** data is the run of memory that starts at `start` and ends at a gap. */
  ghost predicate IsRun(mem: Memory, start: int, data: seq<Byte>) {
    Spells(mem, start, data) && start + |data| !in mem
  }

  ghost predicate InRun(start: int, data: seq<Byte>, a: int) {
    start <= a < start + |data|
  }

  /** marker in data */
  predicate Occurs(marker: seq<Byte>, data: seq<Byte>) {
    exists o :: 0 <= o <= |data| - |marker| && OccursAt(marker, data, o)
  }

  predicate OccursAt(marker: seq<Byte>, data: seq<Byte>, o: int)
    requires 0 <= o <= |data| - |marker|
  {
    data[o..o + |marker|] == marker
  }

  ghost predicate Ascending(addresses: seq<int>) {
    forall i, j :: 0 <= i < j < |addresses| ==> addresses[i] < addresses[j]
  }

  /** The runs gathered so far, with their start addresses, are maximal upwards. */
  ghost predicate Gathered(mem: Memory, runs: seq<seq<Byte>>, starts: seq<int>) {
    |starts| == |runs| && forall n :: 0 <= n < |runs| ==> IsRun(mem, starts[n], runs[n])
  }

  ghost predicate Covered(runs: seq<seq<Byte>>, starts: seq<int>, a: int)
    requires |starts| == |runs|
  {
    exists n :: 0 <= n < |runs| && InRun(starts[n], runs[n], a)
  }

  /** The runs are the whole memory, cut at its gaps. */
  ghost predicate RunsOf(mem: Memory, runs: seq<seq<Byte>>, starts: seq<int>) {
    Gathered(mem, runs, starts) && forall a :: a in mem ==> Covered(runs, starts, a)
  }

  lemma CoveredMore(runs: seq<seq<Byte>>, starts: seq<int>, data: seq<Byte>, start: int, a: int)
    requires |starts| == |runs| && (Covered(runs, starts, a) || InRun(start, data, a))
    ensures Covered(runs + [data], starts + [start], a)
  {
    if n :| 0 <= n < |runs| && InRun(starts[n], runs[n], a) {
      assert InRun((starts + [start])[n], (runs + [data])[n], a);
    } else {
      assert InRun((starts + [start])[|runs|], (runs + [data])[|runs|], a);
    }
  }

  lemma GatheredMore(mem: Memory, runs: seq<seq<Byte>>, starts: seq<int>, data: seq<Byte>, start: int)
    requires Gathered(mem, runs, starts) && IsRun(mem, start, data)
    ensures Gathered(mem, runs + [data], starts + [start])
  {
  }

  /** The gap in front of the next address ends the current run. */
  lemma GapEndsRun(mem: Memory, addresses: seq<int>, i: nat)
    requires Ascending(addresses) && (forall a :: a in addresses <==> a in mem)
    requires 0 < i <= |addresses| && (i < |addresses| ==> addresses[i] != addresses[i - 1] + 1)
    ensures addresses[i - 1] + 1 !in mem
  {
    forall n | 0 <= n < |addresses|
      ensures addresses[n] != addresses[i - 1] + 1
    {
      if i < n {
        assert addresses[i - 1] < addresses[i] < addresses[n];
      }
    }
  }

  lemma SpellsMore(mem: Memory, start: int, data: seq<Byte>, v: Byte)
    requires Spells(mem, start, data) && At(mem, start + |data|, v)
    ensures Spells(mem, start, data + [v])
  {
  }

  /** The loop that cuts the sorted memory into contiguous runs. */
  method CollectRuns(mem: Memory, addresses: seq<int>) returns (runs: seq<seq<Byte>>)
    requires Ascending(addresses) && (forall a :: a in addresses <==> a in mem)
    ensures exists starts :: RunsOf(mem, runs, starts)
  {
    runs := [];
    ghost var starts: seq<int> := [];
    var current: seq<Byte> := [];
    var previous: Option<int> := None;
    ghost var start := 0;
    for i := 0 to |addresses|
      invariant Gathered(mem, runs, starts)
      invariant i == 0 <==> previous.None?
      invariant i == 0 ==> current == []
      invariant 0 < i ==> previous.value == addresses[i - 1] == start + |current| - 1
      invariant Spells(mem, start, current)
      invariant forall n :: 0 <= n < i ==> Covered(runs, starts, addresses[n]) || InRun(start, current, addresses[n])
    {
      var address := addresses[i];
      assert address in mem;
      if previous.Some? && address != previous.value + 1 {
        GapEndsRun(mem, addresses, i);
        GatheredMore(mem, runs, starts, current, start);
        forall n | 0 <= n < i
          ensures Covered(runs + [current], starts + [start], addresses[n])
        {
          CoveredMore(runs, starts, current, start, addresses[n]);
        }
        runs, starts := runs + [current], starts + [start];
        current, start := [], address;
      } else if previous.None? {
        start := address;
      }
      SpellsMore(mem, start, current, mem[address]);
      current := current + [mem[address]];
      previous := Some(address);
    }
    if previous.Some? {
      GapEndsRun(mem, addresses, |addresses|);
    }
    GatheredMore(mem, runs, starts, current, start);
    forall a | a in mem
      ensures Covered(runs + [current], starts + [start], a)
    {
      var n :| 0 <= n < |addresses| && addresses[n] == a;
      CoveredMore(runs, starts, current, start, a);
    }
    runs, starts := runs + [current], starts + [start];
    assert RunsOf(mem, runs, starts);
  }

  lemma OccurrenceSpells(mem: Memory, start: int, data: seq<Byte>, marker: seq<Byte>)
    requires Spells(mem, start, data) && Occurs(marker, data)
    ensures exists a :: Spells(mem, a, marker)
  {
    var o :| 0 <= o <= |data| - |marker| && OccursAt(marker, data, o);
    forall i | 0 <= i < |marker|
      ensures At(mem, start + o + i, marker[i])
    {
      assert At(mem, start + (o + i), data[o + i]);
    }
    assert Spells(mem, start + o, marker);
  }

  lemma SpelledIsThere(mem: Memory, a: int, text: seq<Byte>, i: nat)
    requires Spells(mem, a, text) && i < |text|
    ensures a + i in mem
  {
    assert At(mem, a + i, text[i]);
  }

  /** Text that memory spells cannot leave the run it starts in. */
  lemma SpelledStaysInRun(mem: Memory, start: int, data: seq<Byte>, a: int, marker: seq<Byte>)
    requires IsRun(mem, start, data) && InRun(start, data, a) && Spells(mem, a, marker)
    ensures Occurs(marker, data)
  {
    var o := a - start;
    if o + |marker| > |data| {
      SpelledIsThere(mem, a, marker, |data| - o);
    }
    forall i | 0 <= i < |marker|
      ensures data[o + i] == marker[i]
    {
      assert At(mem, a + i, marker[i]) && At(mem, start + (o + i), data[o + i]);
    }
    assert OccursAt(marker, data, o);
  }

  /** any(marker in data for data in runs): exactly if some address range of the
      sparse memory spells the marker. */
  method FindMarker(mem: Memory, addresses: seq<int>, marker: seq<Byte>) returns (found: bool)
    requires Ascending(addresses) && (forall a :: a in addresses <==> a in mem) && marker != []
    ensures found <==> exists a :: Spells(mem, a, marker)
  {
    var runs := CollectRuns(mem, addresses);
    ghost var starts :| RunsOf(mem, runs, starts);
    found := false;
    for n := 0 to |runs|
      invariant found <==> exists m :: 0 <= m < n && Occurs(marker, runs[m])
    {
      found := found || Occurs(marker, runs[n]);
    }
    if found {
      var m :| 0 <= m < |runs| && Occurs(marker, runs[m]);
      OccurrenceSpells(mem, starts[m], runs[m], marker);
    }
    if a :| Spells(mem, a, marker) {
      assert At(mem, a + 0, marker[0]);
      var n :| 0 <= n < |runs| && InRun(starts[n], runs[n], a);
      SpelledStaysInRun(mem, starts[n], runs[n], a, marker);
    }
  }

  /** What the memory must hold: dual-bank little-endian options, bank 0, a reset
      vector that points at loaded application code, and the source identity. */
  ghost predicate Reviewed(mem: Memory, start: nat, sourceSha: seq<Byte>) {
    && Field(mem, OPTION_MDE) == Some([0x8F, 0xFF, 0xFF, 0xFF])
    && Field(mem, OPTION_BANK) == Some([0xFF, 0xFF, 0xFF, 0xFF])
    && Field(mem, HARDWARE_VECTOR).Some?
    && (var vector := U32(Field(mem, HARDWARE_VECTOR).value, 0);
        start + 0x300 <= vector <= 0xFFFBFFFF && vector in mem)
    && exists a :: Spells(mem, a, Marker(sourceSha))
  }

  /** [a-f0-9]{40} */
  predicate IsSourceSha(sha: seq<Byte>) {
    |sha| == 40 && forall i :: 0 <= i < 40 ==> 0x30 <= sha[i] <= 0x39 || 0x61 <= sha[i] <= 0x66
  }

  /** validate_image; `sorter` stands for sorted() over the memory's addresses. */
  method ValidateImage(lines: seq<string>, start: nat, sourceSha: seq<Byte>, sorter: Memory -> seq<int>)
    returns (r: Result<nat, ImageError>)
    requires forall mem: Memory :: Ascending(sorter(mem)) && forall a :: a in sorter(mem) <==> a in mem
    ensures r.Ok? <==>
              && IsSourceSha(sourceSha) && AbsorbUpTo(lines, |lines|, start).Ok?
              && Reviewed(AbsorbUpTo(lines, |lines|, start).value, start, sourceSha)
    ensures r.Ok? ==> r.value == U32(Field(AbsorbUpTo(lines, |lines|, start).value, HARDWARE_VECTOR).value, 0)
  {
    if !IsSourceSha(sourceSha) {
      return Err(BadIdentity);
    }
    var mem: Memory := map[];
    for k := 0 to |lines|
      invariant AbsorbUpTo(lines, k, start) == Ok(mem)
    {
      var absorbed := Absorb(mem, lines[k], start);
      if absorbed.Err? {
        AbsorbFailureStays(lines, k + 1, start);
        return Err(absorbed.error);
      }
      mem := absorbed.value;
    }
    var mde, bank, vectorField := Field(mem, OPTION_MDE), Field(mem, OPTION_BANK), Field(mem, HARDWARE_VECTOR);
    if mde.None? {
      return Err(MissingVector);
    }
    if mde.value != [0x8F, 0xFF, 0xFF, 0xFF] {
      return Err(WrongOptions);
    }
    if bank.None? {
      return Err(MissingVector);
    }
    if bank.value != [0xFF, 0xFF, 0xFF, 0xFF] {
      return Err(WrongOptions);
    }
    if vectorField.None? {
      return Err(MissingVector);
    }
    var vector := U32(vectorField.value, 0);
    if !(start + 0x300 <= vector <= 0xFFFBFFFF) || vector !in mem {
      return Err(VectorOutside);
    }
    var found := FindMarker(mem, sorter(mem), Marker(sourceSha));
    if !found {
      return Err(NoIdentity);
    }
    return Ok(vector);
  }
}
