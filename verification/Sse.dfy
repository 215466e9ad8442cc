/** The server's event printer and the client's chunked reader. */
module Sse {
  import opened Options

  type Bytes = seq<bv8>

  const NEWLINE: bv8 := 10

  /** The bytes of "data: ". */
  const PREFIX: Bytes := [100, 97, 116, 97, 58, 32]

  // ---- Frames end at a blank line ----

  predicate FrameEnd(b: Bytes, i: int) {
    0 <= i < |b| - 1 && b[i] == NEWLINE && b[i + 1] == NEWLINE
  }

  /** The first frame end at or after `i`, or -1. */
  function FrameEndFrom(b: Bytes, i: nat): (r: int)
    ensures r == -1 || (i <= r && FrameEnd(b, r))
    ensures forall j :: i <= j && FrameEnd(b, j) ==> 0 <= r <= j
    decreases |b| - i
  {
    if i >= |b| - 1 then -1
    else if FrameEnd(b, i) then i
    else FrameEndFrom(b, i + 1)
  }

  /** The complete frames of a stream. */
  function Frames(b: Bytes): seq<Bytes>
    decreases |b|
  {
    var idx := FrameEndFrom(b, 0);
    if idx < 0 then [] else [b[..idx]] + Frames(b[idx + 2..])
  }

  /** What follows the last complete frame. */
  function Rest(b: Bytes): Bytes
    decreases |b|
  {
    var idx := FrameEndFrom(b, 0);
    if idx < 0 then b else Rest(b[idx + 2..])
  }

  lemma FirstFrame(a: Bytes, b: Bytes)
    requires FrameEndFrom(a, 0) >= 0
    ensures FrameEndFrom(a + b, 0) == FrameEndFrom(a, 0)
  {
    var i := FrameEndFrom(a, 0);
    assert FrameEnd(a + b, i);
    var j := FrameEndFrom(a + b, 0);
    assert FrameEnd(a, j);
  }

  lemma FrameTaken(b: Bytes, idx: nat)
    requires FrameEndFrom(b, 0) == idx
    ensures Frames(b) == [b[..idx]] + Frames(b[idx + 2..]) && Rest(b) == Rest(b[idx + 2..])
  {
  }

  lemma Assoc<T>(x: seq<T>, y: seq<T>, z: seq<T>)
    ensures x + (y + z) == (x + y) + z
  {
  }

  /** Reading a stream in two parts is reading the first, then what it left over with the second. */
  lemma {:induction false} AppendFrames(a: Bytes, b: Bytes)
    ensures Frames(a + b) == Frames(a) + Frames(Rest(a) + b)
    ensures Rest(a + b) == Rest(Rest(a) + b)
    decreases |a|
  {
    var idx := FrameEndFrom(a, 0);
    if idx >= 0 {
      var (f, tail) := (a[..idx], a[idx + 2..]);
      FirstFrame(a, b);
      assert (a + b)[idx + 2..] == tail + b && (a + b)[..idx] == f;
      AppendFrames(tail, b);
      FrameTaken(a, idx);
      FrameTaken(a + b, idx);
      Assoc([f], Frames(tail), Frames(Rest(tail) + b));
    } else {
      assert Frames(a) == [] && Rest(a) == a;
    }
  }

  /** A stream cut off anywhere yields a prefix of its frames. */
  lemma TruncatedStream(a: Bytes, b: Bytes)
    ensures Frames(a) <= Frames(a + b)
  {
    AppendFrames(a, b);
  }

  // ---- Lines and payloads ----

  predicate OneLine(b: Bytes) {
    forall j :: 0 <= j < |b| ==> b[j] != NEWLINE
  }

  /** The length of the first line. */
  function LineEnd(b: Bytes): (i: nat)
    ensures i <= |b| && OneLine(b[..i]) && (i < |b| ==> b[i] == NEWLINE)
  {
    if b == [] || b[0] == NEWLINE then 0 else 1 + LineEnd(b[1..])
  }

  function Lines(b: Bytes): seq<Bytes>
    decreases |b|
  {
    if b == [] then []
    else
      var i := LineEnd(b);
      [b[..i]] + if i < |b| then Lines(b[i + 1..]) else []
  }

  /** The payload of a data line. */
  function Data(line: Bytes): Option<Bytes> {
    if |line| <= |PREFIX| || line[..|PREFIX|] != PREFIX then None else Some(line[|PREFIX|..])
  }

  function DataOf(lines: seq<Bytes>): seq<Bytes> {
    if lines == [] then []
    else
      var (init, last) := (lines[..|lines| - 1], lines[|lines| - 1]);
      DataOf(init) + if Data(last).Some? then [Data(last).value] else []
  }

  function Payloads(frames: seq<Bytes>): seq<Bytes> {
    if frames == [] then [] else Payloads(frames[..|frames| - 1]) + DataOf(Lines(frames[|frames| - 1]))
  }

  /** A payload that fits on one data line. */
  predicate Printable(p: Bytes) {
    p != [] && OneLine(p)
  }

  lemma {:induction false} LinesHaveNoNewline(b: Bytes)
    ensures forall l :: l in Lines(b) ==> OneLine(l)
    decreases |b|
  {
    if b != [] && LineEnd(b) < |b| { LinesHaveNoNewline(b[LineEnd(b) + 1..]); }
  }

  lemma {:induction false} DataIsPrintable(lines: seq<Bytes>)
    requires forall l :: l in lines ==> OneLine(l)
    ensures forall p :: p in DataOf(lines) ==> Printable(p)
  {
    if lines != [] {
      var last := lines[|lines| - 1];
      assert last in lines;
      DataIsPrintable(lines[..|lines| - 1]);
      if Data(last).Some? { assert last == last[..|PREFIX|] + Data(last).value; }
    }
  }

  /** Everything the reader hands on is non-empty and on one line. */
  lemma {:induction false} PayloadsArePrintable(frames: seq<Bytes>)
    ensures forall p :: p in Payloads(frames) ==> Printable(p)
  {
    if frames != [] {
      PayloadsArePrintable(frames[..|frames| - 1]);
      LinesHaveNoNewline(frames[|frames| - 1]);
      DataIsPrintable(Lines(frames[|frames| - 1]));
    }
  }

  // ---- The printer ----

  function PrintEvent(p: Bytes): Bytes {
    PREFIX + p + [NEWLINE, NEWLINE]
  }

  function Print(ps: seq<Bytes>): Bytes {
    if ps == [] then [] else Print(ps[..|ps| - 1]) + PrintEvent(ps[|ps| - 1])
  }

  class EventWriter {
    var out: Bytes
    ghost var written: seq<Bytes>

    ghost predicate Valid()
      reads this
    {
      out == Print(written)
    }

    constructor ()
      ensures Valid() && written == []
    {
      out, written := [], [];
    }

    method WriteEvent(data: Bytes)
      requires Valid()
      modifies this
      ensures Valid() && written == old(written) + [data]
    {
      out := out + (PREFIX + data + [NEWLINE, NEWLINE]);
      written := written + [data];
      assert written[..|written| - 1] == old(written);
    }
  }

  lemma NoNewlineAhead(p: Bytes)
    requires Printable(p)
    ensures FrameEndFrom(PrintEvent(p), 0) == |PREFIX| + |p|
    ensures Frames(PrintEvent(p)) == [PREFIX + p] && Rest(PrintEvent(p)) == []
  {
    var b := PrintEvent(p);
    var n := |PREFIX| + |p|;
    assert FrameEnd(b, n);
    forall j | 0 <= j < n ensures b[j] != NEWLINE {
      if j < |PREFIX| { assert b[j] == PREFIX[j]; } else { assert b[j] == p[j - |PREFIX|]; }
    }
    assert b[..n] == PREFIX + p && b[n + 2..] == [];
  }

  lemma OneDataLine(p: Bytes)
    requires Printable(p)
    ensures DataOf(Lines(PREFIX + p)) == [p]
  {
    var l := PREFIX + p;
    LastLine(l);
    assert l[..|PREFIX|] == PREFIX && l[|PREFIX|..] == p;
    var none: seq<Bytes> := [];
    assert [l][..0] == none && DataOf(none) == [];
  }

  lemma LastLine(l: Bytes)
    requires l != [] && OneLine(l)
    ensures LineEnd(l) == |l| && Lines(l) == [l]
  {
    assert l[..|l|] == l;
  }

  lemma PrintedNext(b: Bytes, last: Bytes)
    requires Printable(last) && Rest(b) == []
    ensures Frames(b + PrintEvent(last)) == Frames(b) + [PREFIX + last]
    ensures Rest(b + PrintEvent(last)) == []
  {
    AppendFrames(b, PrintEvent(last));
    assert [] + PrintEvent(last) == PrintEvent(last);
    NoNewlineAhead(last);
  }

  ghost predicate AllPrintable(ps: seq<Bytes>) {
    forall i :: 0 <= i < |ps| ==> Printable(ps[i])
  }

  /** Reading `b` yields `ps` and leaves nothing over. */
  ghost predicate ReadsBack(b: Bytes, ps: seq<Bytes>) {
    Payloads(Frames(b)) == ps && Rest(b) == []
  }

  lemma {:induction false} PrintedFrames(ps: seq<Bytes>)
    requires AllPrintable(ps)
    ensures ReadsBack(Print(ps), ps)
  {
    if ps != [] {
      var (init, last) := (ps[..|ps| - 1], ps[|ps| - 1]);
      PrintedFrames(init);
      PrintedStep(Print(init), init, last, Print(ps), ps);
    }
  }

  lemma PrintedStep(b: Bytes, init: seq<Bytes>, last: Bytes, c: Bytes, ps: seq<Bytes>)
    requires ReadsBack(b, init) && Printable(last) && c == b + PrintEvent(last) && ps == init + [last]
    ensures ReadsBack(c, ps)
  {
    PrintedNext(b, last);
    PayloadsOneMore(Frames(b), PREFIX + last);
    OneDataLine(last);
  }

  lemma PayloadsOneMore(frames: seq<Bytes>, frame: Bytes)
    ensures Payloads(frames + [frame]) == Payloads(frames) + DataOf(Lines(frame))
  {
    assert (frames + [frame])[..|frames|] == frames;
  }

  /** What is printed is read back exactly when every payload is non-empty and free of newlines. */
  lemma RoundTrip(ps: seq<Bytes>)
    ensures Payloads(Frames(Print(ps))) == ps <==> AllPrintable(ps)
  {
    if AllPrintable(ps) { PrintedFrames(ps); }
    PayloadsArePrintable(Frames(Print(ps)));
  }

  // ---- The reader ----

  method DoubleNewline(b: Bytes) returns (idx: int)
    ensures idx == FrameEndFrom(b, 0)
  {
    var i := 0;
    while i < |b| - 1
      invariant 0 <= i && FrameEndFrom(b, 0) == FrameEndFrom(b, i)
    {
      if b[i] == NEWLINE && b[i + 1] == NEWLINE { return i; }
      i := i + 1;
    }
    return -1;
  }

  lemma LineTaken(b: Bytes, i: nat)
    requires i < |b| && b[i] == NEWLINE && OneLine(b[..i])
    ensures Lines(b) == [b[..i]] + Lines(b[i + 1..])
  {
    var j := LineEnd(b);
    forall k | 0 <= k < i ensures b[k] != NEWLINE { assert b[..i][k] == b[k]; }
    forall k | 0 <= k < j ensures b[k] != NEWLINE { assert b[..j][k] == b[k]; }
    assert i == j;
  }

  lemma LineFrom(b: Bytes, start: nat, i: nat)
    requires start <= i < |b| && b[i] == NEWLINE && OneLine(b[start..i])
    ensures Lines(b[start..]) == [b[start..i]] + Lines(b[i + 1..])
  {
    var tail := b[start..];
    assert tail[..i - start] == b[start..i] && tail[i - start + 1..] == b[i + 1..];
    LineTaken(tail, i - start);
  }

  /** Of all lines, `out` holds those before `start`, and no line ends between there and `i`. */
  ghost predicate SplitUpTo(b: Bytes, lines: seq<Bytes>, out: seq<Bytes>, start: nat, i: nat) {
    start <= i <= |b| && OneLine(b[start..i]) && out + Lines(b[start..]) == lines
  }

  lemma SplitStart(b: Bytes)
    ensures SplitUpTo(b, Lines(b), [], 0, 0)
  {
    assert b[0..] == b && [] + Lines(b) == Lines(b);
  }

  lemma SplitNext(b: Bytes, lines: seq<Bytes>, out: seq<Bytes>, start: nat, i: nat)
    requires SplitUpTo(b, lines, out, start, i) && i < |b|
    ensures if b[i] == NEWLINE then SplitUpTo(b, lines, out + [b[start..i]], i + 1, i + 1)
            else SplitUpTo(b, lines, out, start, i + 1)
  {
    if b[i] == NEWLINE {
      LineFrom(b, start, i);
      Assoc(out, [b[start..i]], Lines(b[i + 1..]));
    } else {
      assert b[start..i + 1] == b[start..i] + [b[i]];
    }
  }

  lemma SplitDone(b: Bytes, lines: seq<Bytes>, out: seq<Bytes>, start: nat)
    requires SplitUpTo(b, lines, out, start, |b|)
    ensures lines == if start < |b| then out + [b[start..]] else out
  {
    assert b[start..|b|] == b[start..];
    if start < |b| { LastLine(b[start..]); }
  }

  method SplitLines(b: Bytes) returns (out: seq<Bytes>)
    ensures out == Lines(b)
  {
    out := [];
    var start := 0;
    ghost var lines := Lines(b);
    SplitStart(b);
    for i := 0 to |b|
      invariant 0 <= start <= i && SplitUpTo(b, lines, out, start, i)
    {
      SplitNext(b, lines, out, start, i);
      if b[i] == NEWLINE {
        out := out + [b[start..i]];
        start := i + 1;
      }
    }
    SplitDone(b, lines, out, start);
    if start < |b| { out := out + [b[start..]]; }
  }

  /** The events a decoder accepts, in order. Undecodable payloads and keep-alive events are passed over. */
  function Deliver<E>(payloads: seq<Bytes>, decode: Bytes -> Option<E>): seq<E> {
    if payloads == [] then []
    else
      var (init, last) := (payloads[..|payloads| - 1], payloads[|payloads| - 1]);
      Deliver(init, decode) + if decode(last).Some? then [decode(last).value] else []
  }

  lemma DeliverOneMore<E>(a: seq<Bytes>, p: Bytes, decode: Bytes -> Option<E>)
    ensures Deliver(a + [p], decode) == Deliver(a, decode) + if decode(p).Some? then [decode(p).value] else []
  {
    assert (a + [p])[..|a|] == a;
  }

  lemma DecodeNext<E>(lines: seq<Bytes>, i: nat, decode: Bytes -> Option<E>)
    requires i < |lines|
    ensures var data := Data(lines[i]);
            Deliver(DataOf(lines[..i + 1]), decode) ==
            Deliver(DataOf(lines[..i]), decode)
            + if data.Some? && decode(data.value).Some? then [decode(data.value).value] else []
  {
    assert lines[..i + 1][..i] == lines[..i];
    if Data(lines[i]).Some? {
      DeliverOneMore(DataOf(lines[..i]), Data(lines[i]).value, decode);
    } else {
      assert DataOf(lines[..i]) + [] == DataOf(lines[..i]);
    }
  }

  lemma {:induction false} DeliverAppend<E>(a: seq<Bytes>, b: seq<Bytes>, decode: Bytes -> Option<E>)
    ensures Deliver(a + b, decode) == Deliver(a, decode) + Deliver(b, decode)
  {
    if b == [] {
      assert a + b == a;
    } else {
      assert (a + b)[..|a + b| - 1] == a + b[..|b| - 1];
      DeliverAppend(a, b[..|b| - 1], decode);
    }
  }

  lemma {:induction false} PayloadsAppend(a: seq<Bytes>, b: seq<Bytes>)
    ensures Payloads(a + b) == Payloads(a) + Payloads(b)
  {
    if b == [] {
      assert a + b == a;
    } else {
      assert (a + b)[..|a + b| - 1] == a + b[..|b| - 1];
      PayloadsAppend(a, b[..|b| - 1]);
      Assoc(Payloads(a), Payloads(b[..|b| - 1]), DataOf(Lines(b[|b| - 1])));
    }
  }

  function Concat(chunks: seq<Bytes>): Bytes {
    if chunks == [] then [] else Concat(chunks[..|chunks| - 1]) + chunks[|chunks| - 1]
  }

  method DecodeFrame<E>(frame: Bytes, decode: Bytes -> Option<E>) returns (events: seq<E>)
    ensures events == Deliver(DataOf(Lines(frame)), decode)
  {
    var lines := SplitLines(frame);
    events := [];
    for i := 0 to |lines|
      invariant events == Deliver(DataOf(lines[..i]), decode)
    {
      DecodeNext(lines, i, decode);
      var data := Data(lines[i]);
      if data.Some? {
        var ev := decode(data.value);
        if ev.Some? { events := events + [ev.value]; }
      }
    }
    assert lines[..|lines|] == lines;
  }

  /** The stream loop: whatever the chunks, the events are those of the concatenated stream. */
  method ReadStream<E>(chunks: seq<Bytes>, decode: Bytes -> Option<E>) returns (events: seq<E>)
    ensures events == Deliver(Payloads(Frames(Concat(chunks))), decode)
  {
    var buf: Bytes := [];
    events := [];
    for i := 0 to |chunks|
      invariant buf == Rest(Concat(chunks[..i]))
      invariant events == Deliver(Payloads(Frames(Concat(chunks[..i]))), decode)
    {
      assert chunks[..i + 1][..i] == chunks[..i];
      AppendFrames(Concat(chunks[..i]), chunks[i]);
      PayloadsAppend(Frames(Concat(chunks[..i])), Frames(buf + chunks[i]));
      DeliverAppend(Payloads(Frames(Concat(chunks[..i]))), Payloads(Frames(buf + chunks[i])), decode);
      var more;
      buf, more := Drain(buf + chunks[i], decode);
      events := events + more;
    }
    assert chunks[..|chunks|] == chunks;
  }

  /** The inner loop: takes complete frames off the buffer until none is left. */
  method Drain<E>(b: Bytes, decode: Bytes -> Option<E>) returns (buf: Bytes, events: seq<E>)
    ensures buf == Rest(b) && events == Deliver(Payloads(Frames(b)), decode)
  {
    buf, events := b, [];
    ghost var done: seq<Bytes> := [];
    while true
      invariant Frames(b) == done + Frames(buf) && Rest(b) == Rest(buf)
      invariant events == Deliver(Payloads(done), decode)
      decreases |buf|
    {
      var idx := DoubleNewline(buf);
      if idx < 0 { break; }
      var frame := buf[..idx];
      buf := buf[idx + 2..];
      var more := DecodeFrame(frame, decode);
      PayloadsOneMore(done, frame);
      Assoc(done, [frame], Frames(buf));
      DeliverAppend(Payloads(done), DataOf(Lines(frame)), decode);
      events := events + more;
      done := done + [frame];
    }
    assert done + [] == done;
  }

  /** Printing, cutting the bytes anywhere and reading gives the decoded payloads back. */
  method PrintAndRead<E>(ps: seq<Bytes>, chunks: seq<Bytes>, decode: Bytes -> Option<E>) returns (events: seq<E>)
    requires Concat(chunks) == Print(ps) && AllPrintable(ps)
    ensures events == Deliver(ps, decode)
  {
    RoundTrip(ps);
    events := ReadStream(chunks, decode);
  }
}
