/** The output of an agent process: bytes in chunks of any size, read as lines of events. */
module AgentStream {
  import opened ByteLines
  import opened Options
  import PythonText

  datatype Usage = Usage(input: int, output: int, cacheRead: int, cacheWrite: int, cost: real)

  /** A finished message; `usage` is zero where the message gives none. If it stopped on an error,
      `error` is the error's text, or none where the message gives null for it. */
  datatype Message = Message(assistant: bool, usage: Usage, failed: bool, error: Option<string>)

  /** An event. `Malformed` is JSON of the wrong shape, such as a list: handling it raises for `reason`,
      perhaps after a message has been kept and part of its usage, given here, has been added. */
  datatype Event = TextDelta(delta: string) | MessageEnd(message: Message) | Other
                 | Malformed(kept: Option<Message>, reason: string)

  /** How a line of bytes is read: UTF-8 with replacement, and a JSON event if it parses. */
  datatype Wire = Wire(decode: bytes -> string, parse: string -> Option<Event>)

  predicate BlankBytes(line: bytes) {
    forall b :: b in line ==> IsBlank(b)
  }

  /** Decoding turns blank bytes into white space. */
  ghost predicate Faithful(wire: Wire) {
    forall line :: BlankBytes(line) ==> PythonText.Strip(wire.decode(line)) == ""
  }

  /** The result so far; `raised` is the exception in flight, which ends the reading. */
  datatype View = View(messages: seq<Message>, usage: Usage, error: Option<string>, streamed: seq<string>,
                       exitCode: int, raised: Option<string>)

  function Plus(a: Usage, b: Usage): Usage {
    Usage(a.input + b.input, a.output + b.output, a.cacheRead + b.cacheRead, a.cacheWrite + b.cacheWrite, a.cost + b.cost)
  }

  function Keep(v: View, m: Message): View {
    if m.assistant
    then v.(messages := v.messages + [m], usage := Plus(v.usage, m.usage), error := if m.failed then m.error else v.error)
    else v.(messages := v.messages + [m])
  }

  function Take(v: View, e: Event): View {
    match e
    case TextDelta(delta) => v.(streamed := v.streamed + [delta])
    case MessageEnd(m) => Keep(v, m)
    case Other => v
    case Malformed(kept, reason) =>
      (if kept.Some? then Keep(v, kept.value.(failed := false)) else v).(raised := Some(reason))
  }

  function TakeLine(wire: Wire, v: View, line: bytes): View {
    var text := PythonText.Strip(wire.decode(line));
    if v.raised.Some? || text == "" then v
    else
      var e := wire.parse(text);
      if e.None? then v else Take(v, e.value)
  }

  function TakeAll(wire: Wire, v: View, lines: seq<bytes>): View
    decreases |lines|
  {
    if lines == [] then v else TakeAll(wire, TakeLine(wire, v, lines[0]), lines[1..])
  }

  const NOTHING := View([], Usage(0, 0, 0, 0, 0.0), None, [], 0, None)

  /** The exception handler around the reading loop. */
  function Handled(v: View): View {
    if v.raised.None? then v
    else v.(error := Some("pi process read error: " + v.raised.value), exitCode := -1, raised := None)
  }

  /** The chunks before the end of the stream, which an empty read signals. */
  function Received(chunks: seq<bytes>): bytes {
    if chunks == [] || chunks[0] == [] then [] else chunks[0] + Received(chunks[1..])
  }

  lemma {:induction false} TakeAllAppend(wire: Wire, v: View, a: seq<bytes>, b: seq<bytes>)
    ensures TakeAll(wire, v, a + b) == TakeAll(wire, TakeAll(wire, v, a), b)
    decreases |a|
  {
    if a == [] {
      assert a + b == b;
    } else {
      assert (a + b)[1..] == a[1..] + b;
      TakeAllAppend(wire, TakeLine(wire, v, a[0]), a[1..], b);
    }
  }

  /** After an exception nothing more is taken. */
  lemma {:induction false} NothingAfterRaise(wire: Wire, v: View, lines: seq<bytes>)
    requires v.raised.Some?
    ensures TakeAll(wire, v, lines) == v
    decreases |lines|
  {
    if lines != [] { NothingAfterRaise(wire, v, lines[1..]); }
  }

  /** The usage of the assistant messages. */
  function Total(messages: seq<Message>): Usage {
    if messages == [] then Usage(0, 0, 0, 0, 0.0)
    else
      var m := messages[|messages| - 1];
      Plus(Total(messages[..|messages| - 1]), if m.assistant then m.usage else Usage(0, 0, 0, 0, 0.0))
  }

  /** The error of the last assistant message that stopped on one. */
  function LastError(messages: seq<Message>): Option<string> {
    if messages == [] then None
    else
      var m := messages[|messages| - 1];
      if m.assistant && m.failed then m.error else LastError(messages[..|messages| - 1])
  }

  /** The totals and the error are those of the messages kept. */
  lemma {:induction false} TotalsMatchMessages(wire: Wire, v: View, lines: seq<bytes>)
    requires v.usage == Total(v.messages) && v.error == LastError(v.messages)
    ensures var w := TakeAll(wire, v, lines);
            w.usage == Total(w.messages) && w.error == LastError(w.messages) && v.messages <= w.messages
    decreases |lines|
  {
    if lines != [] {
      var w := TakeLine(wire, v, lines[0]);
      if w.messages != v.messages {
        assert w.messages[..|v.messages|] == v.messages;
      }
      TotalsMatchMessages(wire, w, lines[1..]);
    }
  }

  /** The events of the lines, blank lines and lines that do not parse left out. */
  function Events(wire: Wire, lines: seq<bytes>): seq<Event> {
    if lines == [] then []
    else
      var text := PythonText.Strip(wire.decode(lines[0]));
      (if text == "" || wire.parse(text).None? then [] else [wire.parse(text).value]) + Events(wire, lines[1..])
  }

  /** The messages that the events end, up to the first that raises, which may have ended one itself. */
  function Ended(events: seq<Event>): seq<Message> {
    if events == [] then []
    else match events[0]
      case MessageEnd(m) => [m] + Ended(events[1..])
      case Malformed(kept, _) => if kept.Some? then [kept.value.(failed := false)] else []
      case _ => Ended(events[1..])
  }

  /** The pieces of text that the events stream, up to the first that raises. */
  function Deltas(events: seq<Event>): seq<string> {
    if events == [] || events[0].Malformed? then []
    else (if events[0].TextDelta? then [events[0].delta] else []) + Deltas(events[1..])
  }

  /** The exception of the first event that raises. */
  function FirstRaise(events: seq<Event>): Option<string> {
    if events == [] then None
    else if events[0].Malformed? then Some(events[0].reason)
    else FirstRaise(events[1..])
  }

  /** The sum of a token count over the assistant messages. */
  function Tokens(messages: seq<Message>, count: Usage -> int): int {
    if messages == [] then 0
    else (if messages[0].assistant then count(messages[0].usage) else 0) + Tokens(messages[1..], count)
  }

  function InputOf(u: Usage): int { u.input }
  function OutputOf(u: Usage): int { u.output }
  function CacheReadOf(u: Usage): int { u.cacheRead }
  function CacheWriteOf(u: Usage): int { u.cacheWrite }

  function Costs(messages: seq<Message>): real {
    if messages == [] then 0.0
    else (if messages[0].assistant then messages[0].usage.cost else 0.0) + Costs(messages[1..])
  }

  /** The error of the last assistant message that stopped on one, or `previous` if none did. */
  function ErrorAfter(previous: Option<string>, messages: seq<Message>): Option<string>
    decreases |messages|
  {
    if messages == [] then previous
    else ErrorAfter(if messages[0].assistant && messages[0].failed then messages[0].error else previous, messages[1..])
  }

  /** `w` is what `v` becomes when the messages `ended` are kept and `deltas` are streamed. */
  predicate Grew(v: View, w: View, ended: seq<Message>, deltas: seq<string>) {
    && w.messages == v.messages + ended && w.streamed == v.streamed + deltas
    && w.usage.input == v.usage.input + Tokens(ended, InputOf)
    && w.usage.output == v.usage.output + Tokens(ended, OutputOf)
    && w.usage.cacheRead == v.usage.cacheRead + Tokens(ended, CacheReadOf)
    && w.usage.cacheWrite == v.usage.cacheWrite + Tokens(ended, CacheWriteOf)
    && w.usage.cost == v.usage.cost + Costs(ended)
    && w.error == ErrorAfter(v.error, ended) && w.exitCode == v.exitCode
  }

  lemma GrewOnce(v: View, w: View, m: Message)
    requires w == Keep(v, m)
    ensures Grew(v, w, [m], [])
  {
    assert [m][1..] == [];
  }

  lemma {:induction false} SumsAppend(a: seq<Message>, b: seq<Message>, count: Usage -> int, previous: Option<string>)
    ensures Tokens(a + b, count) == Tokens(a, count) + Tokens(b, count)
    ensures Costs(a + b) == Costs(a) + Costs(b)
    ensures ErrorAfter(previous, a + b) == ErrorAfter(ErrorAfter(previous, a), b)
  {
    if a == [] {
      assert a + b == b;
    } else {
      assert (a + b)[1..] == a[1..] + b;
      SumsAppend(a[1..], b, count, if a[0].assistant && a[0].failed then a[0].error else previous);
    }
  }

  lemma GrewMore(v: View, u: View, w: View, ended: seq<Message>, deltas: seq<string>, more: seq<Message>, rest: seq<string>)
    requires Grew(v, u, ended, deltas) && Grew(u, w, more, rest)
    ensures Grew(v, w, ended + more, deltas + rest)
  {
    SumsAppend(ended, more, InputOf, v.error);
    SumsAppend(ended, more, OutputOf, v.error);
    SumsAppend(ended, more, CacheReadOf, v.error);
    SumsAppend(ended, more, CacheWriteOf, v.error);
  }

  /** What the lines make of a result: the messages that their events end, their text and their totals. */
  lemma {:induction false} TakenIs(wire: Wire, v: View, lines: seq<bytes>)
    requires v.raised.None?
    ensures var w, events := TakeAll(wire, v, lines), Events(wire, lines);
            Grew(v, w, Ended(events), Deltas(events)) && w.raised == FirstRaise(events)
    decreases |lines|
  {
    if lines != [] {
      var text := PythonText.Strip(wire.decode(lines[0]));
      var u := TakeLine(wire, v, lines[0]);
      var tail := Events(wire, lines[1..]);
      if text == "" || wire.parse(text).None? {
        TakenIs(wire, v, lines[1..]);
        assert [] + tail == tail;
      } else {
        EventTaken(wire, v, wire.parse(text).value, lines);
      }
    }
  }

  lemma {:induction false} EventTaken(wire: Wire, v: View, e: Event, lines: seq<bytes>)
    requires v.raised.None? && lines != [] && TakeLine(wire, v, lines[0]) == Take(v, e)
    requires Events(wire, lines) == [e] + Events(wire, lines[1..])
    ensures var w, events := TakeAll(wire, v, lines), Events(wire, lines);
            Grew(v, w, Ended(events), Deltas(events)) && w.raised == FirstRaise(events)
    decreases |lines|, 0
  {
    var u, tail := Take(v, e), Events(wire, lines[1..]);
    assert ([e] + tail)[1..] == tail;
    match e
    case Malformed(kept, reason) =>
      NothingAfterRaise(wire, u, lines[1..]);
      if kept.Some? { GrewOnce(v, Keep(v, kept.value.(failed := false)), kept.value.(failed := false)); }
    case MessageEnd(m) =>
      TakenIs(wire, u, lines[1..]);
      GrewOnce(v, u, m);
      GrewMore(v, u, TakeAll(wire, u, lines[1..]), [m], [], Ended(tail), Deltas(tail));
      assert [] + Deltas(tail) == Deltas(tail);
    case TextDelta(delta) =>
      TakenIs(wire, u, lines[1..]);
      GrewMore(v, u, TakeAll(wire, u, lines[1..]), [], [delta], Ended(tail), Deltas(tail));
    case Other =>
      TakenIs(wire, u, lines[1..]);
      assert [] + Deltas(tail) == Deltas(tail);
  }

  class AgentResult {
    var messages: seq<Message>
    var usage: Usage
    var error: Option<string>
    var streamed: seq<string>
    var exitCode: int

    function Value(raised: Option<string>): View reads this {
      View(messages, usage, error, streamed, exitCode, raised)
    }

    constructor ()
      ensures Value(None) == NOTHING && usage == Total(messages) && error == LastError(messages)
      ensures messages == [] && usage == Usage(0, 0, 0, 0, 0.0) && error == None && streamed == [] && exitCode == 0
    {
      messages, usage, error, streamed, exitCode := [], Usage(0, 0, 0, 0, 0.0), None, [], 0;
    }

    method KeepMessage(m: Message)
      modifies this
      ensures Value(None) == Keep(old(Value(None)), m)
    {
      messages := messages + [m];
      if m.assistant {
        usage := Usage(usage.input + m.usage.input, usage.output + m.usage.output,
                       usage.cacheRead + m.usage.cacheRead, usage.cacheWrite + m.usage.cacheWrite,
                       usage.cost + m.usage.cost);
        if m.failed { error := m.error; }
      }
    }

    /** _process_line, with a stream callback; it may raise. */
    method ProcessLine(wire: Wire, line: bytes) returns (raised: Option<string>)
      modifies this
      ensures Value(raised) == TakeLine(wire, old(Value(None)), line)
    {
      var text := PythonText.Strip(wire.decode(line));
      if text == "" { return None; }
      var event := wire.parse(text);
      if event.None? { return None; }
      match event.value {
        case TextDelta(delta) => streamed := streamed + [delta];
        case Other =>
        case MessageEnd(m) => KeepMessage(m);
        case Malformed(kept, reason) =>
          if kept.Some? { KeepMessage(kept.value.(failed := false)); }
          return Some(reason);
      }
      return None;
    }

    /** The inner loop of _execute: every full line of the buffer, up to an exception. */
    method Drain(wire: Wire, buffer0: bytes, ghost goal: View, ghost tail: bytes)
      returns (buffer: bytes, raised: Option<string>)
      requires Pending(wire, Value(None), buffer0, goal, tail)
      modifies this
      ensures Value(raised) == goal && (raised.None? ==> buffer == tail)
    {
      buffer, raised := buffer0, None;
      while LF in buffer && raised.None?
        invariant Pending(wire, Value(raised), buffer, goal, tail)
        decreases |buffer|
      {
        var n := FirstLF(buffer);
        FirstLFIsFirst(buffer);
        var line, rest := buffer[..n], buffer[n + 1..];
        assert buffer == line + ([LF] + rest);
        TakeOne(wire, Value(None), line, rest, goal, tail);
        raised := ProcessLine(wire, line);
        buffer := rest;
      }
      if raised.Some? {
        RaisedPending(wire, Value(raised), buffer, goal, tail);
      } else {
        NothingPending(wire, Value(None), buffer, goal, tail);
      }
    }

    /** The reading of _execute with its exception handler: the same as splitting the whole output once,
        up to the first line that raises. */
    method Execute(wire: Wire, chunks: seq<bytes>)
      requires Faithful(wire)
      modifies this
      ensures Value(None) == Handled(TakeAll(wire, old(Value(None)), Split(Received(chunks))))
      ensures var events := Events(wire, Split(Received(chunks)));
              if FirstRaise(events).None? then Grew(old(Value(None)), Value(None), Ended(events), Deltas(events))
              else && Grew(old(Value(None)), Value(None).(error := ErrorAfter(old(error), Ended(events)), exitCode := old(exitCode)),
                           Ended(events), Deltas(events))
                   && error == Some("pi process read error: " + FirstRaise(events).value) && exitCode == -1
    {
      TakenIs(wire, Value(None), Split(Received(chunks)));
      var raised := ReadAll(wire, chunks);
      if raised.Some? {
        error := Some("pi process read error: " + raised.value);
        exitCode := -1;
      }
    }

    method ReadAll(wire: Wire, chunks: seq<bytes>) returns (raised: Option<string>)
      requires Faithful(wire)
      modifies this
      ensures Value(raised) == TakeAll(wire, old(Value(None)), Split(Received(chunks)))
    {
      var buffer: bytes := [];
      var i := 0;
      raised := None;
      ghost var start := Value(None);
      ghost var seen: bytes := [];
      NothingRead(wire, start);
      while i < |chunks| && chunks[i] != []
        invariant i <= |chunks| && raised.None?
        invariant seen + Received(chunks[i..]) == Received(chunks)
        invariant Reading(wire, start, seen, Value(None), buffer)
      {
        ghost var goal, tail := ReadChunk(wire, start, seen, Value(None), buffer, chunks[i]);
        buffer, raised := Drain(wire, buffer + chunks[i], goal, tail);
        ReceivedMore(chunks, i, seen);
        seen := seen + chunks[i];
        i := i + 1;
        if raised.Some? {
          StoppedEarly(wire, start, seen, Received(chunks[i..]), goal, tail);
          return;
        }
      }
      assert seen == Received(chunks);
      SplitAtEnd(wire, start, seen, Value(None), buffer);
      if !BlankBytes(buffer) {
        raised := ProcessLine(wire, buffer);
      }
    }
  }

  /** Taking the full lines of `buffer` leads from `v` to `goal` and leaves `tail`. */
  ghost predicate Pending(wire: Wire, v: View, buffer: bytes, goal: View, tail: bytes) {
    exists pieces :: pieces == Split(buffer) && Last(pieces) == tail && TakeAll(wire, v, Front(pieces)) == goal
  }

  /** After the bytes `seen` the result is `v`, and `buffer` is waiting. */
  ghost predicate Reading(wire: Wire, start: View, seen: bytes, v: View, buffer: bytes) {
    exists pieces :: pieces == Split(seen) && Last(pieces) == buffer && TakeAll(wire, start, Front(pieces)) == v
  }

  lemma TakeOne(wire: Wire, v: View, line: bytes, rest: bytes, goal: View, tail: bytes)
    requires LF !in line && Pending(wire, v, line + ([LF] + rest), goal, tail)
    ensures Pending(wire, TakeLine(wire, v, line), rest, goal, tail)
  {
    SplitLine(line, rest);
    var pieces := Split(rest);
    assert Front([line] + pieces) == [line] + Front(pieces);
    assert ([line] + Front(pieces))[1..] == Front(pieces);
  }

  lemma NothingPending(wire: Wire, v: View, buffer: bytes, goal: View, tail: bytes)
    requires LF !in buffer && Pending(wire, v, buffer, goal, tail)
    ensures buffer == tail && v == goal
  {
    SplitLast(buffer);
  }

  lemma RaisedPending(wire: Wire, v: View, buffer: bytes, goal: View, tail: bytes)
    requires v.raised.Some? && Pending(wire, v, buffer, goal, tail)
    ensures v == goal
  {
    NothingAfterRaise(wire, v, Front(Split(buffer)));
  }

  /** What follows the line that raised makes no difference. */
  lemma StoppedEarly(wire: Wire, start: View, seen: bytes, rest: bytes, v: View, buffer: bytes)
    requires Reading(wire, start, seen, v, buffer) && v.raised.Some?
    ensures TakeAll(wire, start, Split(seen + rest)) == v
  {
    SplitAppend(seen, rest);
    var more := Split(buffer + rest);
    TakeAllAppend(wire, start, Front(Split(seen)), more);
    NothingAfterRaise(wire, v, more);
  }

  lemma NothingRead(wire: Wire, start: View)
    ensures Reading(wire, start, [], start, [])
  {
    SplitLast([]);
    assert Front([[]]) == [];
  }

  lemma ReadChunk(wire: Wire, start: View, seen: bytes, v: View, buffer: bytes, chunk: bytes)
    returns (goal: View, tail: bytes)
    requires Reading(wire, start, seen, v, buffer)
    ensures Pending(wire, v, buffer + chunk, goal, tail)
    ensures Reading(wire, start, seen + chunk, goal, tail)
  {
    var front, more := Front(Split(seen)), Split(buffer + chunk);
    goal, tail := TakeAll(wire, v, Front(more)), Last(more);
    SplitAppend(seen, chunk);
    assert Front(front + more) == front + Front(more);
    TakeAllAppend(wire, start, front, Front(more));
  }

  lemma ReceivedMore(chunks: seq<bytes>, i: nat, seen: bytes)
    requires i < |chunks| && chunks[i] != []
    ensures seen + Received(chunks[i..]) == (seen + chunks[i]) + Received(chunks[i + 1..])
  {
    assert chunks[i..][1..] == chunks[i + 1..];
    assert seen + (chunks[i] + Received(chunks[i + 1..])) == (seen + chunks[i]) + Received(chunks[i + 1..]);
  }

  lemma SplitAtEnd(wire: Wire, start: View, seen: bytes, v: View, buffer: bytes)
    requires Reading(wire, start, seen, v, buffer)
    ensures TakeAll(wire, start, Split(seen)) == TakeLine(wire, v, buffer)
  {
    assert Split(seen) == Front(Split(seen)) + [buffer];
    TakeAllAppend(wire, start, Front(Split(seen)), [buffer]);
  }
}
