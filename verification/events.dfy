/** The pothole event queue and the server-sent-events stream that drains it
    (`event_generator` inside `pothole_event_stream`), together with a reader
    for the stream that follows the event-stream interpretation rules of
    section 9.2.6 of the WHATWG HTML Living Standard, so that what the
    server writes can be checked against what a browser's `EventSource`
    dispatches. */
module Events {
  import opened Common
  import opened Detection

  // ---- the queue ----

  /** `pothole_events.put(event)`: append at the back, never blocks. */
  function Put(queue: seq<PotholeEvent>, e: PotholeEvent): (q: seq<PotholeEvent>)
    ensures |q| == |queue| + 1 && q[..|queue|] == queue && q[|queue|] == e
  {
    queue + [e]
  }

  /** `pothole_events.get(block=False)`: the oldest event and what is left, or `queue.Empty`. */
  function TryGet(queue: seq<PotholeEvent>): (r: Option<(PotholeEvent, seq<PotholeEvent>)>)
    ensures r.None? <==> queue == []
    ensures r.Some? ==> [r.value.0] + r.value.1 == queue
  {
    if queue == [] then None else Some((queue[0], queue[1..]))
  }

  function PutAll(queue: seq<PotholeEvent>, es: seq<PotholeEvent>): seq<PotholeEvent>
    decreases |es|
  {
    if es == [] then queue else PutAll(Put(queue, es[0]), es[1..])
  }

  /** Putting events one by one queues them behind the old ones in the order given. */
  lemma {:induction false} PutAllAppends(queue: seq<PotholeEvent>, es: seq<PotholeEvent>)
    ensures PutAll(queue, es) == queue + es
    decreases |es|
  {
    if es != [] {
      PutAllAppends(Put(queue, es[0]), es[1..]);
      assert queue + [es[0]] + es[1..] == queue + es;
    }
  }

  // ---- the records ----

  /** One event-stream message: its event type and its data. The server
      writes it as an `event:` line, a `data:` line and a blank line; a
      browser's `EventSource` dispatches it under the same type and data. */
  datatype Message = Message(eventType: string, data: string)

  const PotholeEventName: string := "pothole_detected"

  /** The data line of a pothole message: the event dictionary as Python formats it. */
  function EventData(e: PotholeEvent): string {
    "{'timestamp': " + e.timestamp + "}"
  }

  function EventMessage(e: PotholeEvent): Message {
    Message(PotholeEventName, EventData(e))
  }

  const CloseMessage: Message := Message("close", "Connection closed")

  function Messages(es: seq<PotholeEvent>): (ms: seq<Message>)
    ensures |ms| == |es|
    ensures forall i :: 0 <= i < |es| ==> ms[i] == EventMessage(es[i])
  {
    seq(|es|, i requires 0 <= i < |es| => EventMessage(es[i]))
  }

  // ---- the generator ----

  /** How many times the loop condition `processing_active or camera_active` holds before it first fails. */
  function LivePolls(guards: seq<bool>): (n: nat)
    ensures n <= |guards|
    ensures forall i :: 0 <= i < n ==> guards[i]
    ensures n < |guards| ==> !guards[n]
    ensures n < |guards| <==> false in guards
    decreases |guards|
  {
    if guards == [] || !guards[0] then 0 else 1 + LivePolls(guards[1..])
  }

  function Min(a: nat, b: nat): nat {
    if a <= b then a else b
  }

  /** A live first poll: one more live poll than the tail, and the condition fails later exactly when it fails in the tail. */
  lemma LivePollStep(guards: seq<bool>)
    requires guards != [] && guards[0]
    ensures LivePolls(guards) == 1 + LivePolls(guards[1..])
    ensures false in guards <==> false in guards[1..]
  {
    assert guards == [guards[0]] + guards[1..];
  }

  /** What the generator has yielded, what is left in the queue, and whether it closed. */
  datatype SseOut = SseOut(messages: seq<Message>, rest: seq<PotholeEvent>, closed: bool)

  /** What a generator run amounts to: one message for each of the oldest
      events, as many as there were live polls, then the close message
      exactly when the condition was seen to fail; the rest stays queued. */
  function Drained(queue: seq<PotholeEvent>, guards: seq<bool>): SseOut {
    var k := Min(|queue|, LivePolls(guards));
    var closed := false in guards;
    SseOut(Messages(queue[..k]) + (if closed then [CloseMessage] else []), queue[k..], closed)
  }

  /** A live poll on an empty queue yields nothing and leaves the rest to the later polls. */
  lemma IdlePoll(guards: seq<bool>)
    requires guards != [] && guards[0]
    ensures Drained([], guards) == Drained([], guards[1..])
  {
    LivePollStep(guards);
  }

  /** A live poll on a non-empty queue yields the oldest event ahead of what the later polls yield. */
  lemma DeliveringPoll(e: PotholeEvent, tail: seq<PotholeEvent>, guards: seq<bool>)
    requires guards != [] && guards[0]
    ensures var r := Drained(tail, guards[1..]);
      Drained([e] + tail, guards) == SseOut([EventMessage(e)] + r.messages, r.rest, r.closed)
  {
    LivePollStep(guards);
    var n := Min(|tail|, LivePolls(guards[1..]));
    assert ([e] + tail)[..n + 1] == [e] + tail[..n];
    assert ([e] + tail)[n + 1..] == tail[n..];
  }

  /** `event_generator` over the queue as it stands and the loop condition as
      observed on each iteration: a live iteration pops at most one event;
      the first failed condition yields the close message and ends the stream. */
  function EventGenerator(queue: seq<PotholeEvent>, guards: seq<bool>): (r: SseOut)
    ensures r == Drained(queue, guards)
    decreases |guards|
  {
    if guards == [] then SseOut([], queue, false)
    else if !guards[0] then SseOut([CloseMessage], queue, true)
    else match TryGet(queue)
      case None =>
        IdlePoll(guards);
        EventGenerator(queue, guards[1..])
      case Some((e, tail)) =>
        DeliveringPoll(e, tail, guards);
        var r := EventGenerator(tail, guards[1..]);
        SseOut([EventMessage(e)] + r.messages, r.rest, r.closed)
  }

  /** A notifier whose condition holds once and then fails yields at most one
      pothole message and then exactly one close message. */
  lemma OnePollThenClose(queue: seq<PotholeEvent>)
    ensures var r := EventGenerator(queue, [true, false]);
      && r.closed
      && 1 <= |r.messages| <= 2
      && r.messages[|r.messages| - 1] == CloseMessage
      && (queue != [] ==> r.messages == [EventMessage(queue[0]), CloseMessage])
  {
    assert LivePolls([true, false]) == 1;
  }

  /** Events put on the queue come out of the stream exactly once each, in
      the order they were put, once the notifier has polled often enough. */
  lemma {:induction false} DrainsInOrder(es: seq<PotholeEvent>, guards: seq<bool>)
    requires |es| <= LivePolls(guards) < |guards|
    ensures EventGenerator(PutAll([], es), guards) == SseOut(Messages(es) + [CloseMessage], [], true)
  {
    PutAllAppends([], es);
    assert [] + es == es;
    assert es[..|es|] == es;
  }

  // ---- the text on the wire, and reading it back as a browser does ----

  /** A `name: value` field line, without its line end. */
  function FieldText(name: string, value: string): string {
    name + ": " + value
  }

  /** The text the generator yields for one message. */
  function Text(m: Message): string {
    FieldText("event", m.eventType) + "\n" + FieldText("data", m.data) + "\n" + "\n"
  }

  /** The texts of a message sequence, one per message. */
  function Wire(ms: seq<Message>): (ts: seq<string>)
    ensures |ts| == |ms|
    ensures forall i :: 0 <= i < |ms| ==> ts[i] == Text(ms[i])
  {
    seq(|ms|, i requires 0 <= i < |ms| => Text(ms[i]))
  }

  /** The response body: the yielded texts one after another. */
  function Join(ts: seq<string>): string
    decreases |ts|
  {
    if ts == [] then "" else ts[0] + Join(ts[1..])
  }

  /** The event type buffer and the data buffer of the interpretation rules. */
  datatype Buffers = Buffers(eventType: string, data: string)

  const Cleared: Buffers := Buffers("", "")

  function DropFinalLf(d: string): string {
    if |d| > 0 && d[|d| - 1] == '\n' then d[..|d| - 1] else d
  }

  /** A blank line: nothing if the data buffer is empty, else one message. */
  function Dispatch(b: Buffers): (ms: seq<Message>)
    ensures |ms| <= 1
  {
    if b.data == "" then []
    else [Message(if b.eventType == "" then "message" else b.eventType, DropFinalLf(b.data))]
  }

  /** A field: `event` sets the type, `data` appends a line, anything else is ignored here. */
  function Field(b: Buffers, name: string, value: string): Buffers {
    if name == "event" then b.(eventType := value)
    else if name == "data" then b.(data := b.data + value + "\n")
    else b
  }

  /** A non-blank line: a comment, a `name: value` field (one space after the
      colon is dropped), or a bare field name with an empty value. */
  function ProcessLine(b: Buffers, line: string): Buffers
    requires line != []
  {
    if line[0] == ':' then b
    else match IndexOf(line, ':')
      case None => Field(b, line, "")
      case Some(j) =>
        var v := line[j + 1..];
        Field(b, line[..j], if |v| > 0 && v[0] == ' ' then v[1..] else v)
  }

  /** The messages a stream dispatches, reading LF-terminated lines; an
      unterminated last line and undispatched buffers are discarded. */
  function Parse(s: string, b: Buffers): seq<Message>
    decreases |s|
  {
    match IndexOf(s, '\n')
    case None => []
    case Some(i) =>
      if i == 0 then Dispatch(b) + Parse(s[1..], Cleared)
      else Parse(s[i + 1..], ProcessLine(b, s[..i]))
  }

  lemma FieldLine(b: Buffers, name: string, value: string)
    requires ':' !in name && name != []
    ensures ProcessLine(b, FieldText(name, value)) == Field(b, name, value)
  {
    var line := FieldText(name, value);
    assert line == name + [':'] + (" " + value);
    IndexOfAfterPrefix(name, ':', " " + value);
    assert line[0] == name[0];
    assert line[..|name|] == name;
    assert line[|name| + 1..] == " " + value;
  }

  /** A terminated non-blank line updates the buffers and reading goes on after it. */
  lemma ParseLine(b: Buffers, line: string, rest: string)
    requires line != [] && '\n' !in line
    ensures Parse(line + "\n" + rest, b) == Parse(rest, ProcessLine(b, line))
  {
    var s := line + "\n" + rest;
    assert s == line + ['\n'] + rest;
    IndexOfAfterPrefix(line, '\n', rest);
    assert s[..|line|] == line;
    assert s[|line| + 1..] == rest;
  }

  /** A blank line dispatches and clears the buffers. */
  lemma ParseBlank(b: Buffers, rest: string)
    ensures Parse("\n" + rest, b) == Dispatch(b) + Parse(rest, Cleared)
  {
    var s := "\n" + rest;
    assert s[0] == '\n';
    assert IndexOf(s, '\n') == Some(0);
    assert s[1..] == rest;
  }

  lemma FieldTextLineFree(name: string, value: string)
    requires '\n' !in name && '\n' !in value
    ensures '\n' !in FieldText(name, value)
  {
    var t := FieldText(name, value);
    forall i | 0 <= i < |t| ensures t[i] != '\n' {
      if i < |name| {
        assert t[i] == name[i];
      } else if i >= |name| + 2 {
        assert t[i] == value[i - |name| - 2];
      }
    }
  }

  /** What the server can write so that a browser reads it back unchanged:
      a non-empty event type with no colon and no line break, data with no line break. */
  predicate Writable(m: Message) {
    && m.eventType != "" && '\n' !in m.eventType && ':' !in m.eventType
    && '\n' !in m.data
  }

  /** The `event:` line of a message fills the event type buffer. */
  lemma EventLineStep(m: Message, rest: string)
    requires Writable(m)
    ensures Parse(FieldText("event", m.eventType) + "\n" + rest, Cleared) == Parse(rest, Buffers(m.eventType, ""))
  {
    FieldTextLineFree("event", m.eventType);
    assert Field(Cleared, "event", m.eventType) == Buffers(m.eventType, "");
    FieldLine(Cleared, "event", m.eventType);
    ParseLine(Cleared, FieldText("event", m.eventType), rest);
  }

  /** The `data:` line of a message appends its data and a line feed to the data buffer. */
  lemma DataLineStep(m: Message, rest: string)
    requires Writable(m)
    ensures Parse(FieldText("data", m.data) + "\n" + rest, Buffers(m.eventType, ""))
         == Parse(rest, Buffers(m.eventType, m.data + "\n"))
  {
    var b1 := Buffers(m.eventType, "");
    FieldTextLineFree("data", m.data);
    assert Field(b1, "data", m.data) == Buffers(m.eventType, m.data + "\n");
    FieldLine(b1, "data", m.data);
    ParseLine(b1, FieldText("data", m.data), rest);
  }

  /** The blank line that ends a message dispatches exactly that message. */
  lemma BlankLineStep(m: Message, t: string)
    requires Writable(m)
    ensures Parse("\n" + t, Buffers(m.eventType, m.data + "\n")) == [m] + Parse(t, Cleared)
  {
    var b2 := Buffers(m.eventType, m.data + "\n");
    ParseBlank(b2, t);
    assert DropFinalLf(b2.data) == m.data;
  }

  /** One message's text is read back as exactly that message, and reading
      resumes with cleared buffers right after it. */
  lemma TextReadsBack(m: Message, t: string)
    requires Writable(m)
    ensures Parse(Text(m) + t, Cleared) == [m] + Parse(t, Cleared)
  {
    var l1 := FieldText("event", m.eventType);
    var l2 := FieldText("data", m.data);
    var rest2 := "\n" + t;
    var rest1 := l2 + "\n" + rest2;
    assert Text(m) + t == l1 + "\n" + rest1;
    EventLineStep(m, rest1);
    DataLineStep(m, rest2);
    BlankLineStep(m, t);
  }

  /** Under the reader `read`, text `s` reads back as exactly the message `m`, whatever follows it. */
  ghost predicate ReadsBackAs(read: string -> seq<Message>, s: string, m: Message) {
    forall t :: read(s + t) == [m] + read(t)
  }

  lemma JoinStep(read: string -> seq<Message>, ts: seq<string>, m: Message, t: string)
    requires ts != [] && ReadsBackAs(read, ts[0], m)
    ensures read(Join(ts) + t) == [m] + read(Join(ts[1..]) + t)
  {
    assert Join(ts) + t == ts[0] + (Join(ts[1..]) + t);
  }

  /** Texts that each read back as one message read back, joined, as those
      messages in order; this holds for any reader, and so for `Parse`. */
  lemma {:induction false} JoinReadsBack(read: string -> seq<Message>, ts: seq<string>, ms: seq<Message>, t: string)
    requires |ts| == |ms|
    requires forall i :: 0 <= i < |ts| ==> ReadsBackAs(read, ts[i], ms[i])
    ensures read(Join(ts) + t) == ms + read(t)
    decreases |ts|
  {
    if ts == [] {
      assert Join(ts) + t == t;
    } else {
      JoinStep(read, ts, ms[0], t);
      assert forall i :: 0 <= i < |ts| - 1 ==> ts[1..][i] == ts[i + 1] && ms[1..][i] == ms[i + 1];
      JoinReadsBack(read, ts[1..], ms[1..], t);
      assert ms == [ms[0]] + ms[1..];
    }
  }

  /** A timestamp as Python prints a float never holds a line break. */
  predicate LineFree(e: PotholeEvent) {
    '\n' !in e.timestamp
  }

  lemma EventWritable(e: PotholeEvent)
    requires LineFree(e)
    ensures Writable(EventMessage(e))
  {
    assert '\n' !in "{'timestamp': " && '\n' !in "}";
  }

  /** The browser's reader on a fresh connection. */
  function ReadCleared(s: string): seq<Message> {
    Parse(s, Cleared)
  }

  lemma MessageReadsBack(m: Message)
    requires Writable(m)
    ensures ReadsBackAs(ReadCleared, Text(m), m)
  {
    forall t ensures ReadCleared(Text(m) + t) == [m] + ReadCleared(t) {
      TextReadsBack(m, t);
    }
  }

  lemma CloseWritable()
    ensures Writable(CloseMessage)
  {
    assert ':' !in "close" && '\n' !in "close" && '\n' !in "Connection closed";
  }

  predicate AllWritable(ms: seq<Message>) {
    forall i :: 0 <= i < |ms| ==> Writable(ms[i])
  }

  /** Every message a closed stream yields can be written as lines. */
  lemma StreamWritable(queue: seq<PotholeEvent>, guards: seq<bool>)
    requires forall i :: 0 <= i < |queue| ==> LineFree(queue[i])
    requires false in guards
    ensures AllWritable(EventGenerator(queue, guards).messages)
  {
    var r := EventGenerator(queue, guards);
    forall i | 0 <= i < |r.messages| ensures Writable(r.messages[i]) {
      if i < |r.messages| - 1 {
        EventWritable(queue[i]);
      } else {
        CloseWritable();
      }
    }
  }

  /** Messages that can each be written as lines read back one by one from their texts. */
  lemma WireReadsBack(ms: seq<Message>)
    requires forall i :: 0 <= i < |ms| ==> Writable(ms[i])
    ensures forall i :: 0 <= i < |ms| ==> ReadsBackAs(ReadCleared, Wire(ms)[i], ms[i])
  {
    forall i | 0 <= i < |ms| ensures ReadsBackAs(ReadCleared, Wire(ms)[i], ms[i]) {
      MessageReadsBack(ms[i]);
    }
  }

  /** A closed stream yields the events it took off the queue, then the close message. */
  lemma StreamMessages(queue: seq<PotholeEvent>, guards: seq<bool>)
    requires false in guards
    ensures var r := EventGenerator(queue, guards);
      r.messages == Messages(queue[..|queue| - |r.rest|]) + [CloseMessage]
  {
    var r := EventGenerator(queue, guards);
    assert r.closed && |r.rest| == |queue| - Min(|queue|, LivePolls(guards));
  }

  /** Written messages, joined, read back as exactly those messages. */
  lemma BodyReadsBack(ms: seq<Message>)
    requires AllWritable(ms)
    ensures ReadCleared(Join(Wire(ms))) == ms
  {
    WireReadsBack(ms);
    JoinReadsBack(ReadCleared, Wire(ms), ms, "");
    assert Join(Wire(ms)) + "" == Join(Wire(ms));
    assert ReadCleared("") == [];
    assert ms + [] == ms;
  }

  /** A browser reading a closed event stream sees one `pothole_detected`
      message per delivered event, in queue order, carrying the event's
      timestamp, and then the single `close` message. */
  lemma StreamReadsBack(queue: seq<PotholeEvent>, guards: seq<bool>)
    requires forall i :: 0 <= i < |queue| ==> LineFree(queue[i])
    requires false in guards
    ensures var r := EventGenerator(queue, guards);
      Parse(Join(Wire(r.messages)), Cleared) == Messages(queue[..|queue| - |r.rest|]) + [CloseMessage]
  {
    var ms := EventGenerator(queue, guards).messages;
    assert ms == Messages(queue[..|queue| - |EventGenerator(queue, guards).rest|]) + [CloseMessage] by {
      StreamMessages(queue, guards);
    }
    assert ReadCleared(Join(Wire(ms))) == ms by {
      StreamWritable(queue, guards);
      BodyReadsBack(ms);
    }
  }
}
