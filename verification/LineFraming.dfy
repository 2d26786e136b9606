/**
  Newline-delimited frames read from a stream that arrives in arbitrary buffers. The reader keeps
  at most one line of at most `limit` bytes; its meaning is a plain split of the whole stream.
 */
module LineFraming {
  import opened EmbeddingCore

  const NEWLINE: Byte := 10
  const RETURN: Byte := 13

  type Bytes = seq<Byte>

  predicate Unbroken(s: Bytes, n: nat)
    requires n <= |s|
  {
    forall i :: 0 <= i < n ==> s[i] != NEWLINE
  }

  /** Position of the first newline, or the length. */
  function Break(s: Bytes): (n: nat)
    ensures n <= |s| && Unbroken(s, n) && (n < |s| ==> s[n] == NEWLINE)
  {
    if s == [] || s[0] == NEWLINE then 0 else 1 + Break(s[1..])
  }

  lemma {:induction false} BreakIsFirst(s: Bytes, n: nat)
    requires n <= |s| && Unbroken(s, n) && (n < |s| ==> s[n] == NEWLINE)
    ensures Break(s) == n
  {}

  function FirstLine(s: Bytes): Bytes {
    s[..Break(s)]
  }

  /** What follows the first line and its newline. */
  function Beyond(s: Bytes): (rest: Bytes)
    ensures s != [] ==> |rest| < |s|
  {
    if Break(s) < |s| then s[Break(s) + 1..] else []
  }

  /** The lines of a whole stream; an unterminated last line counts unless it is empty. */
  function Lines(s: Bytes): seq<Bytes>
    decreases |s|
  {
    if s == [] then [] else [FirstLine(s)] + Lines(Beyond(s))
  }

  datatype Event = Frame(bytes: Bytes) | Oversized

  function StripReturn(line: Bytes): Bytes {
    if line != [] && line[|line| - 1] == RETURN then line[..|line| - 1] else line
  }

  function Received(line: Bytes, limit: nat): Event {
    if |line| > limit then Oversized else Frame(StripReturn(line))
  }

  function Classify(lines: seq<Bytes>, limit: nat): (events: seq<Event>)
    ensures |events| == |lines|
    ensures forall i :: 0 <= i < |lines| ==> events[i] == Received(lines[i], limit)
  {
    if lines == [] then [] else [Received(lines[0], limit)] + Classify(lines[1..], limit)
  }

  /** The frames a peer is answered for. */
  function Frames(s: Bytes, limit: nat): seq<Event> {
    Classify(Lines(s), limit)
  }

  // ----- Splitting and joining are inverse -----

  function Join(lines: seq<Bytes>, terminated: bool): Bytes {
    if lines == [] then []
    else lines[0] + (if terminated || |lines| > 1 then [NEWLINE] else []) + Join(lines[1..], terminated)
  }

  predicate Terminated(s: Bytes) {
    s != [] && s[|s| - 1] == NEWLINE
  }

  lemma {:induction false} JoinStep(x: Bytes, more: seq<Bytes>, t: bool)
    requires t || more != []
    ensures Join([x] + more, t) == x + [NEWLINE] + Join(more, t)
  {}

  lemma {:induction false} SplitStep(s: Bytes)
    requires Break(s) < |s|
    ensures s == FirstLine(s) + [NEWLINE] + Beyond(s)
  {}

  lemma {:induction false} LastLine(s: Bytes)
    requires s != [] && Break(s) == |s|
    ensures Lines(s) == [s] && !Terminated(s) && Join([s], false) == s
  {
    assert FirstLine(s) == s && Beyond(s) == [] && Lines([]) == [];
    assert [s][1..] == [];
  }

  /** Nothing is lost: joining the lines gives the stream back. */
  lemma {:induction false} JoinLines(s: Bytes)
    ensures Join(Lines(s), Terminated(s)) == s
    decreases |s|
  {
    if s != [] {
      if Break(s) == |s| {
        LastLine(s);
      } else {
        var rest := Beyond(s);
        JoinLines(rest);
        assert rest != [] ==> Terminated(rest) == Terminated(s);
        SplitStep(s);
        JoinStep(FirstLine(s), Lines(rest), Terminated(s));
      }
    }
  }

  lemma {:induction false} LinesAreUnbroken(s: Bytes)
    ensures forall i :: 0 <= i < |Lines(s)| ==> Unbroken(Lines(s)[i], |Lines(s)[i]|)
    decreases |s|
  {
    if s != [] {
      LinesAreUnbroken(Beyond(s));
      forall i | 0 <= i < |Lines(s)| ensures Unbroken(Lines(s)[i], |Lines(s)[i]|) {
        if i > 0 { assert Lines(s)[i] == Lines(Beyond(s))[i - 1]; }
      }
    }
  }

  lemma {:induction false} LinesStep(x: Bytes, rest: Bytes)
    requires Unbroken(x, |x|)
    ensures Lines(x + [NEWLINE] + rest) == [x] + Lines(rest)
  {
    var s := x + [NEWLINE] + rest;
    BreakIsFirst(s, |x|);
    assert FirstLine(s) == x && Beyond(s) == rest;
  }

  /** Nothing is invented: the lines of a joined stream are the lines that were joined. */
  lemma {:induction false} LinesOfJoin(lines: seq<Bytes>, terminated: bool)
    requires forall i :: 0 <= i < |lines| ==> Unbroken(lines[i], |lines[i]|)
    requires !terminated && lines != [] ==> lines[|lines| - 1] != []
    ensures Lines(Join(lines, terminated)) == lines
  {
    if lines != [] {
      var x, more := lines[0], lines[1..];
      assert lines == [x] + more;
      LinesOfJoin(more, terminated);
      if terminated || more != [] {
        JoinStep(x, more, terminated);
        LinesStep(x, Join(more, terminated));
      } else {
        BreakIsFirst(x, |x|);
        LastLine(x);
      }
    }
  }

  /** A reading of the stream as newline-free lines, the last one not empty unless terminated. */
  ghost predicate Reads(lines: seq<Bytes>, s: Bytes) {
    && (forall i :: 0 <= i < |lines| ==> Unbroken(lines[i], |lines[i]|))
    && (!Terminated(s) && lines != [] ==> lines[|lines| - 1] != [])
    && Join(lines, Terminated(s)) == s
  }

  lemma {:induction false} LastLineIsNotEmpty(s: Bytes)
    requires s != [] && !Terminated(s)
    ensures Lines(s) != [] && Lines(s)[|Lines(s)| - 1] != []
    decreases |s|
  {
    if Break(s) == |s| {
      LastLine(s);
    } else {
      assert Beyond(s) != [] && !Terminated(Beyond(s));
      LastLineIsNotEmpty(Beyond(s));
    }
  }

  /** The split is the one and only such reading. */
  lemma {:induction false} OnlyReading(lines: seq<Bytes>, s: Bytes)
    ensures Reads(lines, s) <==> lines == Lines(s)
  {
    if Reads(lines, s) {
      LinesOfJoin(lines, Terminated(s));
    }
    JoinLines(s);
    LinesAreUnbroken(s);
    if s != [] && !Terminated(s) {
      LastLineIsNotEmpty(s);
    }
  }

  // ----- What a peer sends is what is received -----

  /** A peer's message on the wire, ended by a newline alone or by a return and a newline. */
  function Wire(message: Bytes, withReturn: bool): Bytes {
    if withReturn then message + [RETURN] else message
  }

  ghost predicate Sendable(message: Bytes) {
    Unbroken(message, |message|) && (message != [] ==> message[|message| - 1] != RETURN)
  }

  /** Each message comes out as it went in, whichever line ending the peer uses, unless its line is too long. */
  lemma {:induction false} MessagesSurvive(messages: seq<Bytes>, withReturn: seq<bool>, limit: nat, i: nat)
    requires |messages| == |withReturn| && i < |messages|
    requires forall k :: 0 <= k < |messages| ==> Sendable(messages[k])
    ensures var lines := seq(|messages|, k requires 0 <= k < |messages| => Wire(messages[k], withReturn[k]));
      var events := Frames(Join(lines, true), limit);
      && |events| == |messages|
      && events[i] == if |messages[i]| + (if withReturn[i] then 1 else 0) > limit then Oversized else Frame(messages[i])
  {
    var lines := seq(|messages|, k requires 0 <= k < |messages| => Wire(messages[k], withReturn[k]));
    forall k | 0 <= k < |lines| ensures Unbroken(lines[k], |lines[k]|) {
      assert Sendable(messages[k]);
    }
    LinesOfJoin(lines, true);
    assert lines[i] == Wire(messages[i], withReturn[i]) && Sendable(messages[i]);
  }

  // ----- The reader -----

  function Flatten(chunks: seq<Bytes>): Bytes {
    if chunks == [] then [] else chunks[0] + Flatten(chunks[1..])
  }

  predicate NonEmpty(chunks: seq<Bytes>) {
    forall i :: 0 <= i < |chunks| ==> chunks[i] != []
  }

  datatype LineResult = FrameRead | OversizedRead | Eof

  /** A buffered reader over the buffers still to come, and the reusable line. */
  class LineReader {
    var chunks: seq<Bytes>
    var line: Bytes
    const limit: nat

    ghost predicate Valid()
      reads this
    {
      NonEmpty(chunks) && |line| <= limit
    }

    ghost function Stream(): Bytes
      reads this
    {
      Flatten(chunks)
    }

    constructor (chunks: seq<Bytes>, limit: nat)
      requires NonEmpty(chunks)
      ensures Valid() && this.limit == limit && Stream() == Flatten(chunks) && line == []
    {
      this.chunks, this.line, this.limit := chunks, [], limit;
    }

    /** `fill_buf`: what is buffered, empty only at the end. */
    function FillBuf(): (buffer: Bytes)
      requires Valid()
      reads this
      ensures buffer <= Stream() && (buffer == [] <==> Stream() == [])
    {
      if chunks == [] then [] else chunks[0]
    }

    method Consume(n: nat)
      requires Valid() && n <= |FillBuf()|
      modifies this`chunks
      ensures Valid() && Stream() == old(Stream())[n..]
    {
      if n == 0 { assert Stream()[n..] == Stream(); return; }
      if n == |chunks[0]| {
        chunks := chunks[1..];
      } else {
        chunks := [chunks[0][n..]] + chunks[1..];
      }
    }

    /** Index of the first newline in a buffer. */
    method Position(buffer: Bytes) returns (at: Option<nat>)
      ensures at == if Break(buffer) < |buffer| then Some(Break(buffer)) else None
    {
      for i := 0 to |buffer|
        invariant Unbroken(buffer, i)
      {
        if buffer[i] == NEWLINE {
          BreakIsFirst(buffer, i);
          return Some(i);
        }
      }
      assert buffer[..|buffer|] == buffer;
      BreakIsFirst(buffer, |buffer|);
      at := None;
    }

    /** Part way into the first line of `all`, `done` bytes of which have been taken. */
    ghost predicate Reading(all: Bytes, done: nat, oversized: bool)
      reads this
    {
      Valid() && done <= Break(all) && (oversized <==> done > limit) && (!oversized ==> line == all[..done])
    }

    /** One pass of the read loop: take the current buffer up to its first newline. */
    method Absorb(tooLong: bool, ghost all: Bytes, ghost done: nat)
      returns (oversized: bool, newline: bool, ghost now: nat)
      requires Reading(all, done, tooLong) && Stream() == all[done..] && Stream() != []
      modifies this`chunks, this`line
      ensures done <= now && Reading(all, now, oversized)
      ensures newline ==> now == Break(all) < |all| && Stream() == all[now + 1..]
      ensures !newline ==> done < now && Stream() == all[now..]
    {
      var buffer := FillBuf();
      var position := Position(buffer);
      BufferBreak(all, done, buffer);
      newline := position.Some?;
      var consumed := if newline then position.value + 1 else |buffer|;
      var payload := if newline then position.value else consumed;
      now := done + payload;
      Slices(all, done, buffer, payload, consumed);
      oversized := Append(tooLong, buffer[..payload]);
      Consume(consumed);
    }

    /** Add to the line unless that would take it over the limit, now or earlier. */
    method Append(tooLong: bool, piece: Bytes) returns (oversized: bool)
      requires Valid()
      modifies this`line
      ensures Valid() && oversized == (tooLong || old(|line|) + |piece| > limit)
      ensures !oversized ==> line == old(line) + piece
    {
      oversized := tooLong;
      if !oversized {
        if |line| + |piece| > limit {
          oversized := true;
          line := [];
        } else {
          line := line + piece;
        }
      }
    }

    /**
      `read_capped_line`: takes exactly the first line off the stream, however it is buffered,
      and holds at most `limit` bytes of it at any time.
     */
    method ReadCappedLine() returns (r: LineResult)
      requires Valid()
      modifies this`chunks, this`line
      ensures Valid()
      ensures r.Eof? <==> old(Stream()) == []
      ensures Stream() == Beyond(old(Stream()))
      ensures !r.Eof? ==> (if r.FrameRead? then Frame(line) else Oversized) == Received(FirstLine(old(Stream())), limit)
    {
      line := [];
      var oversized, sawBytes, newline := false, false, false;
      ghost var all := Stream();
      ghost var done: nat := 0;
      while !newline
        invariant Reading(all, done, oversized) && (sawBytes <==> all != [] && (newline || done > 0))
        invariant if newline then done == Break(all) < |all| && Stream() == all[done + 1..] else Stream() == all[done..]
        decreases |all| - done, !newline
      {
        if |FillBuf()| == 0 {
          if !sawBytes { return Eof; }
          break;
        }
        sawBytes := true;
        oversized, newline, done := Absorb(oversized, all, done);
      }
      assert done == Break(all);
      if oversized { return OversizedRead; }
      assert line == FirstLine(all);
      if line != [] && line[|line| - 1] == RETURN {
        line := line[..|line| - 1];
      }
      r := FrameRead;
    }
  }

  lemma {:induction false} Slices(all: Bytes, done: nat, buffer: Bytes, payload: nat, consumed: nat)
    requires done <= |all| && buffer <= all[done..] && payload <= |buffer| && consumed <= |buffer|
    ensures all[..done + payload] == all[..done] + buffer[..payload]
    ensures all[done..][consumed..] == all[done + consumed..]
  {
    assert forall i :: done <= i < done + payload ==> all[i] == buffer[i - done];
  }

  /** Where the first line ends, seen through the current buffer. */
  lemma {:induction false} BufferBreak(all: Bytes, done: nat, buffer: Bytes)
    requires done <= Break(all) && buffer != [] && buffer <= all[done..]
    ensures if Break(buffer) < |buffer| then Break(all) == done + Break(buffer) else done + |buffer| <= Break(all)
  {
    var b := Break(buffer);
    assert forall i :: done <= i < done + |buffer| ==> all[i] == buffer[i - done];
    if b < |buffer| {
      BreakIsFirst(all, done + b);
    }
  }

  /**
    `run_stdio`, up to the moment shutdown is seen: the events it acts on are those of the whole
    stream, in order, or a prefix of them if it stops early. Nothing depends on the buffering.
   */
  method RunStdio(chunks: seq<Bytes>, limit: nat, rounds: nat) returns (events: seq<Event>, ended: bool)
    requires NonEmpty(chunks)
    ensures events <= Frames(Flatten(chunks), limit)
    ensures ended ==> events == Frames(Flatten(chunks), limit)
    ensures !ended ==> |events| == rounds
    ensures rounds > |Frames(Flatten(chunks), limit)| ==> ended
  {
    var reader := new LineReader(chunks, limit);
    ghost var all := Frames(Flatten(chunks), limit);
    events, ended := [], false;
    while |events| < rounds
      invariant reader.Valid() && fresh(reader) && reader.limit == limit
      invariant |events| <= rounds && events + Frames(reader.Stream(), limit) == all
      decreases rounds - |events|
    {
      ghost var before := reader.Stream();
      var r := reader.ReadCappedLine();
      if r.Eof? {
        ended := true;
        return;
      }
      var event := if r.FrameRead? then Frame(reader.line) else Oversized;
      NextEvent(events, before, limit);
      events := events + [event];
    }
  }

  lemma {:induction false} NextEvent(seen: seq<Event>, s: Bytes, limit: nat)
    requires s != []
    ensures seen + [Received(FirstLine(s), limit)] + Frames(Beyond(s), limit) == seen + Frames(s, limit)
  {}
}
