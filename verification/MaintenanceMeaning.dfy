/** What validate_image accepts, without any order of lines: which records a maintenance
MOT may have, and which memory they denote. */
module MaintenanceMeaning {
  import opened Wrappers
  import opened Bytes
  import opened Srecord
  import opened MaintenanceImage
  import M = Rx671Meaning

  /** Every byte of the record lies between these addresses. */
  ghost predicate Within(r: Record, first: int, last: int) {
    forall a :: Covers(r, a) ==> first <= a <= last
  }

  /** One line on its own is fine: blank, a decodable record that is no data record, or
      one with data wholly inside Code Flash or inside one of the option areas. */
  ghost predicate LineOk(line: string, start: nat) {
    line == ""
    || (&& Decode(line).Ok?
        && var r := Decode(line).value;
           (IsData(r.kind) ==>
              && r.data != []
              && (|| Within(r, start, 0xFFFFFFFF)
                  || Within(r, 0xFE7F5D00, 0xFE7F5D7F)
                  || Within(r, 0xFE7F7D70, 0xFE7F7D9F))))
  }

  ghost predicate Written(lines: seq<string>, k: nat, a: int, v: Byte)
    requires k <= |lines|
  {
    exists i :: 0 <= i < k && Writes(lines[i], a, v)
  }

  /** No two records disagree about a byte. */
  ghost predicate Consistent(lines: seq<string>, k: nat)
    requires k <= |lines|
  {
    forall a: int, v: Byte, w: Byte :: Written(lines, k, a, v) && Written(lines, k, a, w) ==> v == w
  }

  /** The memory is what the lines write. */
  ghost predicate Denotes(lines: seq<string>, k: nat, mem: Memory)
    requires k <= |lines|
  {
    forall a: int, v: Byte :: M.Has(mem, a, v) <==> Written(lines, k, a, v)
  }

  lemma RangeIsWithin(r: Record, start: nat)
    ensures InReviewedRange(r, start) <==>
              && r.data != []
              && (|| Within(r, start, 0xFFFFFFFF)
                  || Within(r, 0xFE7F5D00, 0xFE7F5D7F)
                  || Within(r, 0xFE7F7D70, 0xFE7F7D9F))
  {
    if r.data != [] {
      assert Covers(r, r.address) && Covers(r, r.address + |r.data| - 1);
    }
  }

  ghost predicate Clashes(mem: Memory, line: string) {
    exists a: int, v: Byte, w: Byte :: Writes(line, a, v) && M.Has(mem, a, w) && v != w
  }

  lemma AbsorbLine(mem: Memory, line: string, start: nat)
    ensures Absorb(mem, line, start).Ok? <==> LineOk(line, start) && !Clashes(mem, line)
    ensures Absorb(mem, line, start).Ok? ==>
              forall a: int, v: Byte ::
                M.Has(Absorb(mem, line, start).value, a, v) <==> M.Has(mem, a, v) || Writes(line, a, v)
  {
    if line != "" && Decode(line).Ok? && IsData(Decode(line).value.kind) {
      var r := Decode(line).value;
      RangeIsWithin(r, start);
      M.AbsorbBlock(mem, r);
      hide Decode, InReviewedRange, Within;
      assert forall a: int, v: Byte :: Writes(line, a, v) <==> M.Gives(r, a, v);
    } else {
      BlankWritesNothing();
    }
  }

  lemma BlankWritesNothing()
    ensures forall a: int, v: Byte :: !Writes("", a, v)
  {
  }

  lemma WrittenStep(lines: seq<string>, k: nat)
    requires k < |lines|
    ensures forall a: int, v: Byte ::
              Written(lines, k + 1, a, v) <==> Written(lines, k, a, v) || Writes(lines[k], a, v)
  {
    forall a: int, v: Byte
      ensures Written(lines, k + 1, a, v) <==> Written(lines, k, a, v) || Writes(lines[k], a, v)
    {
      if i :| 0 <= i < k + 1 && Writes(lines[i], a, v) {
        assert i == k || i < k;
      }
    }
  }

  lemma WritesOnce(line: string, a: int, v: Byte, w: Byte)
    requires Writes(line, a, v) && Writes(line, a, w)
    ensures v == w
  {
  }

  lemma ConsistentStep(lines: seq<string>, k: nat, mem: Memory)
    requires k < |lines| && Denotes(lines, k, mem)
    ensures Consistent(lines, k + 1) <==> Consistent(lines, k) && !Clashes(mem, lines[k])
  {
    hide Writes, M.Has, Written;
    var after := k + 1;
    WrittenStep(lines, k);
    if Consistent(lines, k) && !Clashes(mem, lines[k]) {
      forall a: int, v: Byte, w: Byte | Written(lines, after, a, v) && Written(lines, after, a, w)
        ensures v == w
      {
        assert M.Has(mem, a, v) <==> Written(lines, k, a, v);
        assert M.Has(mem, a, w) <==> Written(lines, k, a, w);
        if Writes(lines[k], a, v) && Writes(lines[k], a, w) {
          WritesOnce(lines[k], a, v, w);
        }
      }
    }
    if Consistent(lines, after) {
      forall a: int, v: Byte, w: Byte | Written(lines, k, a, v) && Written(lines, k, a, w)
        ensures v == w
      {
        assert Written(lines, after, a, v) && Written(lines, after, a, w);
      }
      forall a: int, v: Byte, w: Byte | Writes(lines[k], a, v) && M.Has(mem, a, w)
        ensures v == w
      {
        assert Written(lines, after, a, v) && Written(lines, after, a, w);
      }
    }
  }

  /** The fold accepts exactly the files of proper lines that agree, and collects exactly
      what they write. */
  lemma {:induction false} AbsorbMeaning(lines: seq<string>, k: nat, start: nat)
    requires k <= |lines|
    ensures AbsorbUpTo(lines, k, start).Ok? <==>
              (forall i :: 0 <= i < k ==> LineOk(lines[i], start)) && Consistent(lines, k)
    ensures AbsorbUpTo(lines, k, start).Ok? ==> Denotes(lines, k, AbsorbUpTo(lines, k, start).value)
  {
    hide Absorb, LineOk, Clashes;
    if k > 0 {
      var before := k - 1;
      AbsorbMeaning(lines, before, start);
      WrittenStep(lines, before);
      if AbsorbUpTo(lines, before, start).Ok? {
        var mem := AbsorbUpTo(lines, before, start).value;
        AbsorbLine(mem, lines[before], start);
        ConsistentStep(lines, before, mem);
      } else if Consistent(lines, k) {
        ConsistentBefore(lines, before);
      }
    }
  }

  lemma ConsistentBefore(lines: seq<string>, k: nat)
    requires k < |lines| && Consistent(lines, k + 1)
    ensures Consistent(lines, k)
  {
    WrittenStep(lines, k);
    forall a: int, v: Byte, w: Byte | Written(lines, k, a, v) && Written(lines, k, a, w)
      ensures v == w
    {
      assert Written(lines, k + 1, a, v) && Written(lines, k + 1, a, w);
    }
  }

  /** Forty lower-case hexadecimal digits. */
  lemma ShaIsHex(sha: seq<Byte>)
    ensures IsSourceSha(sha) <==>
              |sha| == 40
              && forall i :: 0 <= i < 40 ==> exists v: nat :: v < 16 && sha[i] == "0123456789abcdef"[v] as int
  {
    assert forall v :: 0 <= v < 10 ==> "0123456789abcdef"[v] as int == 0x30 + v;
    assert forall v :: 10 <= v < 16 ==> "0123456789abcdef"[v] as int == 0x61 + v - 10;
    if |sha| == 40 && forall i :: 0 <= i < 40 ==> exists v: nat :: v < 16 && sha[i] == "0123456789abcdef"[v] as int {
      forall i | 0 <= i < 40
        ensures 0x30 <= sha[i] <= 0x39 || 0x61 <= sha[i] <= 0x66
      {
        var v: nat :| v < 16 && sha[i] == "0123456789abcdef"[v] as int;
      }
    }
    if IsSourceSha(sha) {
      forall i | 0 <= i < 40
        ensures exists v: nat :: v < 16 && sha[i] == "0123456789abcdef"[v] as int
      {
        var v := if sha[i] <= 0x39 then sha[i] - 0x30 else sha[i] - 0x61 + 10;
        assert sha[i] == "0123456789abcdef"[v] as int;
      }
    }
  }

  /** An image passes exactly if its lines are proper and agree, and the memory that they
      denote is a reviewed one; the order of the lines does not matter. */
  lemma ImageMeaning(lines: seq<string>, start: nat, sourceSha: seq<Byte>)
    ensures && AbsorbUpTo(lines, |lines|, start).Ok?
            && Reviewed(AbsorbUpTo(lines, |lines|, start).value, start, sourceSha)
       <==> && (forall i :: 0 <= i < |lines| ==> LineOk(lines[i], start)) && Consistent(lines, |lines|)
            && exists mem: Memory :: Denotes(lines, |lines|, mem) && Reviewed(mem, start, sourceSha)
  {
    AbsorbMeaning(lines, |lines|, start);
    hide LineOk, Consistent, Reviewed;
    if AbsorbUpTo(lines, |lines|, start).Ok? {
      var mem := AbsorbUpTo(lines, |lines|, start).value;
      forall other: Memory | Denotes(lines, |lines|, other)
        ensures other == mem
      {
        SameMemory(mem, other);
      }
    }
  }

  lemma SameMemory(mem: Memory, other: Memory)
    requires forall a: int, v: Byte :: M.Has(mem, a, v) <==> M.Has(other, a, v)
    ensures mem == other
  {
    forall a | a in mem
      ensures a in other && other[a] == mem[a]
    {
      assert M.Has(mem, a, mem[a]);
    }
    forall a | a in other
      ensures a in mem
    {
      assert M.Has(other, a, other[a]);
    }
  }
}
