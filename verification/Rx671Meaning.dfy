/** What parse_application_mot means, without any order of lines: which files are
accepted, and which payload they denote. */
module Rx671Meaning {
  import opened Wrappers
  import opened Bytes
  import opened Srecord
  import opened Rx671Parser

  /** One line on its own is fine: blank, a decodable non-data record, or a non-empty
      data record wholly inside the application or wholly inside option memory. */
  predicate LineOk(line: string) {
    line == "" || (Decode(line).Ok? && (IsData(Decode(line).value.kind) ==>
      Decode(line).value.data != [] && (InApplication(Decode(line).value) || InOptionMemory(Decode(line).value))))
  }

  /** The line puts v at address a of the application. */
  ghost predicate Places(line: string, a: int, v: Byte) {
    Writes(line, a, v) && InApplication(Decode(line).value)
  }

  ghost predicate Placed(lines: seq<string>, a: int, v: Byte) {
    exists i :: 0 <= i < |lines| && Places(lines[i], a, v)
  }

  /** No two records disagree about an application byte. */
  ghost predicate Consistent(lines: seq<string>) {
    forall a: int, v: Byte, w: Byte :: Placed(lines, a, v) && Placed(lines, a, w) ==> v == w
  }

  ghost predicate Given(lines: seq<string>, a: int) {
    exists v: Byte :: Placed(lines, a, v)
  }

  /** The reset vector is given in full and is not blank. */
  ghost predicate ResetVectorPlaced(lines: seq<string>) {
    && Given(lines, RESET_VECTOR_ADDRESS) && Given(lines, RESET_VECTOR_ADDRESS + 1)
    && Given(lines, RESET_VECTOR_ADDRESS + 2) && Given(lines, RESET_VECTOR_ADDRESS + 3)
    && exists a: int, v: Byte :: RESET_VECTOR_ADDRESS <= a <= APPLICATION_END && v != 0xFF && Placed(lines, a, v)
  }

  ghost predicate Acceptable(lines: seq<string>) {
    && (forall i :: 0 <= i < |lines| ==> LineOk(lines[i]))
    && Consistent(lines) && ResetVectorPlaced(lines)
  }

  /** The payload is the placed bytes, padded with 0xFF. */
  ghost predicate Denotes(lines: seq<string>, payload: seq<Byte>) {
    && |payload| == APPLICATION_SIZE
    && forall i: nat :: i < APPLICATION_SIZE ==> PadsOrPlaces(lines, APPLICATION_START + i, payload[i])
  }

  ghost predicate PadsOrPlaces(lines: seq<string>, a: int, v: Byte) {
    Placed(lines, a, v) || (v == 0xFF && !Given(lines, a))
  }

  ghost predicate Has(mem: Memory, a: int, v: Byte) {
    a in mem && mem[a] == v
  }

  /** Known already, or placed by a line from k on. */
  ghost predicate Known(mem: Memory, lines: seq<string>, k: nat, a: int, v: Byte) {
    Has(mem, a, v) || exists i :: k <= i < |lines| && Places(lines[i], a, v)
  }

  /** Absorbing one line succeeds exactly if the line is fine and contradicts nothing
      known, and then adds exactly what the line places. */
  lemma AbsorbLine(mem: Memory, line: string, number: nat)
    ensures Absorb(mem, line, number).Ok? <==>
              LineOk(line) && forall a: int, v: Byte, w: Byte :: Places(line, a, v) && Has(mem, a, w) ==> v == w
    ensures Absorb(mem, line, number).Ok? ==>
              forall a: int, v: Byte :: Has(Absorb(mem, line, number).value, a, v) <==> Has(mem, a, v) || Places(line, a, v)
  {
    if line != "" && Decode(line).Ok? && IsData(Decode(line).value.kind) {
      var r := Decode(line).value;
      if r.data != [] && InApplication(r) {
        AbsorbBlock(mem, r);
        assert forall a: int, v: Byte :: Places(line, a, v) <==> Gives(r, a, v);
      } else {
        assert forall a: int, v: Byte :: Places(line, a, v) ==> r.data != [] && InApplication(r);
      }
    }
  }

  ghost predicate Gives(r: Record, a: int, v: Byte) {
    Covers(r, a) && r.data[a - r.address] == v
  }

  lemma AbsorbBlock(mem: Memory, r: Record)
    ensures FirstConflict(mem, r, 0).None? <==>
              forall a: int, v: Byte, w: Byte :: Gives(r, a, v) && Has(mem, a, w) ==> v == w
    ensures FirstConflict(mem, r, 0).None? ==>
              forall a: int, v: Byte :: Has(Stored(mem, r, |r.data|), a, v) <==> Has(mem, a, v) || Gives(r, a, v)
  {
    if FirstConflict(mem, r, 0).None? {
      forall a: int, v: Byte, w: Byte | Gives(r, a, v) && Has(mem, a, w)
        ensures v == w
      {
        assert mem[r.address + (a - r.address)] == r.data[a - r.address];
      }
      forall a: int, v: Byte
        ensures Has(Stored(mem, r, |r.data|), a, v) <==> Has(mem, a, v) || Gives(r, a, v)
      {
        StoredAt(mem, r, |r.data|, a);
        if Covers(r, a) && a in mem {
          assert Gives(r, a, r.data[a - r.address]) && Has(mem, a, mem[a]);
        }
      }
    } else {
      var k :| 0 <= k < |r.data| && r.address + k in mem && mem[r.address + k] != r.data[k];
      assert Gives(r, r.address + k, r.data[k]) && Has(mem, r.address + k, mem[r.address + k]);
    }
  }

  ghost predicate ConsistentFrom(mem: Memory, lines: seq<string>, k: nat) {
    forall a: int, v: Byte, w: Byte :: Known(mem, lines, k, a, v) && Known(mem, lines, k, a, w) ==> v == w
  }

  lemma KnownStep(mem: Memory, next: Memory, lines: seq<string>, k: nat)
    requires k < |lines|
    requires forall a: int, v: Byte :: Has(next, a, v) <==> Has(mem, a, v) || Places(lines[k], a, v)
    ensures forall a: int, v: Byte :: Known(next, lines, k + 1, a, v) <==> Known(mem, lines, k, a, v)
  {
    forall a: int, v: Byte
      ensures Known(next, lines, k + 1, a, v) <==> Known(mem, lines, k, a, v)
    {
      if exists i :: k <= i < |lines| && Places(lines[i], a, v) {
        var i :| k <= i < |lines| && Places(lines[i], a, v);
        if i != k {
          assert k + 1 <= i;
        }
      }
    }
  }

  lemma ClashingLine(mem: Memory, lines: seq<string>, k: nat)
    requires k < |lines|
    requires !forall a: int, v: Byte, w: Byte :: Places(lines[k], a, v) && Has(mem, a, w) ==> v == w
    ensures !ConsistentFrom(mem, lines, k)
  {
    var a: int, v: Byte, w: Byte :| Places(lines[k], a, v) && Has(mem, a, w) && v != w;
    assert Known(mem, lines, k, a, v) && Known(mem, lines, k, a, w);
  }

  lemma ConsistentTransfer(mem: Memory, k: nat, other: Memory, j: nat, lines: seq<string>)
    requires forall a: int, v: Byte :: Known(mem, lines, k, a, v) ==> Known(other, lines, j, a, v)
    requires ConsistentFrom(other, lines, j)
    ensures ConsistentFrom(mem, lines, k)
  {
    forall a: int, v: Byte, w: Byte | Known(mem, lines, k, a, v) && Known(mem, lines, k, a, w)
      ensures v == w
    {
      assert Known(other, lines, j, a, v) && Known(other, lines, j, a, w);
    }
  }

  lemma NothingLeft(mem: Memory, lines: seq<string>)
    ensures ConsistentFrom(mem, lines, |lines|)
    ensures forall a: int, v: Byte :: Has(mem, a, v) <==> Known(mem, lines, |lines|, a, v)
  {
  }

  /** The fold accepts exactly the consistent files and collects exactly what they
      place. */
  lemma {:induction false} AbsorbMeaning(mem: Memory, lines: seq<string>, k: nat)
    requires k <= |lines|
    ensures AbsorbFrom(mem, lines, k).Ok? <==>
              (forall i :: k <= i < |lines| ==> LineOk(lines[i])) && ConsistentFrom(mem, lines, k)
    ensures AbsorbFrom(mem, lines, k).Ok? ==>
              forall a: int, v: Byte :: Has(AbsorbFrom(mem, lines, k).value, a, v) <==> Known(mem, lines, k, a, v)
    decreases |lines| - k
  {
    hide Absorb, LineOk, ConsistentFrom;
    if k == |lines| {
      NothingLeft(mem, lines);
    } else {
      var step := Absorb(mem, lines[k], k + 1);
      AbsorbLine(mem, lines[k], k + 1);
      if step.Ok? {
        KnownStep(mem, step.value, lines, k);
        if ConsistentFrom(mem, lines, k) {
          ConsistentTransfer(step.value, k + 1, mem, k, lines);
        }
        if ConsistentFrom(step.value, lines, k + 1) {
          ConsistentTransfer(mem, k, step.value, k + 1, lines);
        }
        AbsorbMeaning(step.value, lines, k + 1);
      } else if LineOk(lines[k]) {
        ClashingLine(mem, lines, k);
      }
    }
  }

  lemma KnownFromNothing(lines: seq<string>)
    ensures forall a: int, v: Byte :: Known(map[], lines, 0, a, v) <==> Placed(lines, a, v)
    ensures ConsistentFrom(map[], lines, 0) <==> Consistent(lines)
  {
  }

  lemma HasMeansPlaced(lines: seq<string>, mem: Memory, a: int)
    requires forall b: int, v: Byte :: Has(mem, b, v) <==> Placed(lines, b, v)
    ensures a in mem <==> Given(lines, a)
    ensures a in mem ==> Placed(lines, a, mem[a]) && forall v: Byte :: Placed(lines, a, v) ==> v == mem[a]
  {
    if a in mem {
      assert Has(mem, a, mem[a]);
    }
    if Given(lines, a) {
      var v: Byte :| Placed(lines, a, v);
      assert Has(mem, a, v);
    }
  }

  lemma PaddedMeaning(lines: seq<string>, mem: Memory)
    requires forall a: int, v: Byte :: Has(mem, a, v) <==> Placed(lines, a, v)
    ensures Denotes(lines, Padded(mem))
  {
    forall i: nat | i < APPLICATION_SIZE
      ensures PadsOrPlaces(lines, APPLICATION_START + i, Padded(mem)[i])
    {
      var a := APPLICATION_START + i;
      HasMeansPlaced(lines, mem, a);
      assert Padded(mem)[i] == ByteAt(mem, a);
    }
  }

  lemma ResetVectorMeaning(lines: seq<string>, mem: Memory)
    requires forall a: int, v: Byte :: Has(mem, a, v) <==> Placed(lines, a, v)
    ensures HasResetVector(mem) <==> ResetVectorPlaced(lines)
  {
    var at := RESET_VECTOR_ADDRESS;
    forall a: int
      ensures a in mem <==> Given(lines, a)
      ensures a in mem ==> Placed(lines, a, mem[a]) && forall v: Byte :: Placed(lines, a, v) ==> v == mem[a]
    {
      HasMeansPlaced(lines, mem, a);
    }
    if ResetVectorPlaced(lines) {
      var a: int, v: Byte :| at <= a <= APPLICATION_END && v != 0xFF && Placed(lines, a, v);
      assert a in {at, at + 1, at + 2, at + 3} && mem[a] == v;
    }
  }

  /** parse_application_mot succeeds exactly on the acceptable files, and then its
      result is the placed bytes padded with 0xFF. */
  lemma ParseMeaning(lines: seq<string>)
    ensures Parse(lines).Ok? <==> Acceptable(lines)
    ensures Parse(lines).Ok? ==> Denotes(lines, Parse(lines).value)
  {
    AbsorbMeaning(map[], lines, 0);
    KnownFromNothing(lines);
    var absorbed := AbsorbFrom(map[], lines, 0);
    if absorbed.Ok? {
      assert forall a: int, v: Byte :: Has(absorbed.value, a, v) <==> Placed(lines, a, v);
      ResetVectorMeaning(lines, absorbed.value);
      PaddedMeaning(lines, absorbed.value);
      assert HasResetVector(absorbed.value) ==> absorbed.value != map[];
    }
  }

  /** Reordering or repeating lines changes neither acceptance nor the payload. */
  lemma LineOrderIrrelevant(lines: seq<string>, others: seq<string>)
    requires forall line :: line in lines <==> line in others
    ensures Parse(lines).Ok? <==> Parse(others).Ok?
    ensures Parse(lines).Ok? ==> Parse(lines).value == Parse(others).value
  {
    ParseMeaning(lines);
    ParseMeaning(others);
    SamePlaced(lines, others);
    if Parse(lines).Ok? && Parse(others).Ok? {
      var p, q := Parse(lines).value, Parse(others).value;
      forall i: nat | i < APPLICATION_SIZE
        ensures p[i] == q[i]
      {
        SameGiven(lines, others, APPLICATION_START + i);
        assert PadsOrPlaces(lines, APPLICATION_START + i, p[i]) && PadsOrPlaces(others, APPLICATION_START + i, q[i]);
      }
    }
  }

  lemma SameGiven(lines: seq<string>, others: seq<string>, a: int)
    requires forall b: int, v: Byte :: Placed(lines, b, v) <==> Placed(others, b, v)
    ensures Given(lines, a) <==> Given(others, a)
  {
  }

  lemma SamePlaced(lines: seq<string>, others: seq<string>)
    requires forall line :: line in lines <==> line in others
    ensures forall a: int, v: Byte :: Placed(lines, a, v) <==> Placed(others, a, v)
    ensures Acceptable(lines) <==> Acceptable(others)
  {
    PlacedSubset(lines, others);
    PlacedSubset(others, lines);
    forall a: int
      ensures Given(lines, a) <==> Given(others, a)
    {
      SameGiven(lines, others, a);
    }
    assert Consistent(lines) <==> Consistent(others);
    assert ResetVectorPlaced(lines) <==> ResetVectorPlaced(others);
  }

  lemma PlacedSubset(lines: seq<string>, others: seq<string>)
    requires forall line :: line in lines ==> line in others
    ensures forall a: int, v: Byte :: Placed(lines, a, v) ==> Placed(others, a, v)
    ensures (forall i :: 0 <= i < |others| ==> LineOk(others[i])) ==> forall i :: 0 <= i < |lines| ==> LineOk(lines[i])
  {
    forall i | 0 <= i < |lines|
      ensures exists j :: 0 <= j < |others| && others[j] == lines[i]
    {
      assert lines[i] in others;
    }
  }
}
