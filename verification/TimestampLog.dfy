/** The timestamped UART log: text arrives cut at arbitrary read boundaries, and the
log must stamp lines, not reads. */
module TimestampLog {
  /** What the log file holds: the prefix written for a moment, or a character. */
  datatype Token = Stamp(moment: nat) | Text(c: char)

  const NEWLINE: char := '\n'

  /** Whether the next character starts a line. */
  function LineStartAfter(atLineStart: bool, payload: string): bool {
    if payload == [] then atLineStart else payload[|payload| - 1] == NEWLINE
  }

  /** The line-by-line reference: a stamp before the first character of each line. */
  function Rendered(atLineStart: bool, payload: string, moment: nat): seq<Token>
    decreases |payload|
  {
    if payload == [] then []
    else (if atLineStart then [Stamp(moment)] else []) + [Text(payload[0])]
         + Rendered(payload[0] == NEWLINE, payload[1..], moment)
  }

  lemma {:induction false} RenderedJoin(atLineStart: bool, a: string, b: string, moment: nat)
    ensures Rendered(atLineStart, a + b, moment)
         == Rendered(atLineStart, a, moment) + Rendered(LineStartAfter(atLineStart, a), b, moment)
    decreases |a|
  {
    if a == [] {
      assert a + b == b;
    } else {
      assert (a + b)[1..] == a[1..] + b;
      RenderedJoin(a[0] == NEWLINE, a[1..], b, moment);
    }
  }

  function Characters(text: string): seq<Token> {
    if text == [] then [] else [Text(text[0])] + Characters(text[1..])
  }

  /** Text without an inner newline gets at most the one stamp in front. */
  lemma {:induction false} OneLine(atLineStart: bool, text: string, moment: nat)
    requires text != [] && forall i :: 0 <= i < |text| - 1 ==> text[i] != NEWLINE
    ensures Rendered(atLineStart, text, moment) == (if atLineStart then [Stamp(moment)] else []) + Characters(text)
  {
    if |text| > 1 {
      OneLine(false, text[1..], moment);
    }
  }

  /** One iteration of the writing loop extends the rendering by one line. */
  lemma LineAppended(atLineStart: bool, payload: string, offset: nat, end: nat, moment: nat)
    requires offset < end <= |payload|
    requires forall i :: offset <= i < end - 1 ==> payload[i] != NEWLINE
    ensures Rendered(atLineStart, payload[..end], moment)
         == Rendered(atLineStart, payload[..offset], moment)
            + (if LineStartAfter(atLineStart, payload[..offset]) then [Stamp(moment)] else [])
            + Characters(payload[offset..end])
  {
    OneLine(LineStartAfter(atLineStart, payload[..offset]), payload[offset..end], moment);
    RenderedJoin(atLineStart, payload[..offset], payload[offset..end], moment);
    assert payload[..offset] + payload[offset..end] == payload[..end];
  }

  class TimestampLog {
    var file: seq<Token>
    var atLineStart: bool

    constructor ()
      ensures file == [] && atLineStart
    {
      file, atLineStart := [], true;
    }

    /** Append text without creating line breaks or stamps at read boundaries. */
    method Write(payload: string, moment: nat)
      modifies this
      ensures file == old(file) + Rendered(old(atLineStart), payload, moment)
      ensures atLineStart == LineStartAfter(old(atLineStart), payload)
    {
      var offset := 0;
      while offset < |payload|
        invariant 0 <= offset <= |payload|
        invariant file == old(file) + Rendered(old(atLineStart), payload[..offset], moment)
        invariant atLineStart == LineStartAfter(old(atLineStart), payload[..offset])
      {
        if atLineStart {
          file := file + [Stamp(moment)];
          atLineStart := false;
        }
        var newline := Find(payload, offset);
        var end := if newline < 0 then |payload| else newline + 1;
        file := file + Characters(payload[offset..end]);
        LineAppended(old(atLineStart), payload, offset, end, moment);
        offset := end;
        if newline < 0 {
          break;
        }
        atLineStart := true;
      }
      assert payload[..|payload|] == payload;
    }
  }

  /** The first newline from `offset` on, or -1. */
  method Find(payload: string, offset: nat) returns (index: int)
    requires offset < |payload|
    ensures -1 <= index < |payload|
    ensures 0 <= index ==> offset <= index && payload[index] == NEWLINE
    ensures forall i :: offset <= i < (if index < 0 then |payload| else index) ==> payload[i] != NEWLINE
  {
    for i := offset to |payload|
      invariant forall k :: offset <= k < i ==> payload[k] != NEWLINE
    {
      if payload[i] == NEWLINE {
        return i;
      }
    }
    return -1;
  }

  /** One write of the consumer. */
  datatype Piece = Piece(text: string, moment: nat)

  function Joined(pieces: seq<Piece>): string {
    if pieces == [] then "" else pieces[0].text + Joined(pieces[1..])
  }

  /** What a sequence of writes leaves in the file. */
  function Written(atLineStart: bool, pieces: seq<Piece>): seq<Token>
    decreases |pieces|
  {
    if pieces == [] then []
    else Rendered(atLineStart, pieces[0].text, pieces[0].moment)
         + Written(LineStartAfter(atLineStart, pieces[0].text), pieces[1..])
  }

  /** The file with every moment forgotten. */
  function Undated(tokens: seq<Token>): seq<Token> {
    if tokens == [] then []
    else [if tokens[0].Stamp? then Stamp(0) else tokens[0]] + Undated(tokens[1..])
  }

  lemma {:induction false} UndatedJoin(a: seq<Token>, b: seq<Token>)
    ensures Undated(a + b) == Undated(a) + Undated(b)
  {
    if a == [] {
      assert a + b == b;
    } else {
      assert (a + b)[1..] == a[1..] + b;
      UndatedJoin(a[1..], b);
    }
  }

  lemma {:induction false} RenderedUndated(atLineStart: bool, text: string, moment: nat)
    ensures Undated(Rendered(atLineStart, text, moment)) == Rendered(atLineStart, text, 0)
    decreases |text|
  {
    if text != [] {
      var head := (if atLineStart then [Stamp(moment)] else []) + [Text(text[0])];
      RenderedUndated(text[0] == NEWLINE, text[1..], moment);
      UndatedJoin(head, Rendered(text[0] == NEWLINE, text[1..], moment));
      assert Undated(head) == (if atLineStart then [Stamp(0)] else []) + [Text(text[0])];
    }
  }

  /** Chunking independence: up to the moments shown in the stamps, the file depends
      only on the text, not on how the reads cut it. */
  lemma {:induction false} ChunkingIndependence(atLineStart: bool, pieces: seq<Piece>)
    ensures Undated(Written(atLineStart, pieces)) == Rendered(atLineStart, Joined(pieces), 0)
    decreases |pieces|
  {
    if pieces != [] {
      var rest := LineStartAfter(atLineStart, pieces[0].text);
      ChunkingIndependence(rest, pieces[1..]);
      UndatedJoin(Rendered(atLineStart, pieces[0].text, pieces[0].moment), Written(rest, pieces[1..]));
      RenderedUndated(atLineStart, pieces[0].text, pieces[0].moment);
      RenderedJoin(atLineStart, pieces[0].text, Joined(pieces[1..]), 0);
    }
  }
}
