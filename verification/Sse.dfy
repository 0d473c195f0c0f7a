/**
 * Server-sent events: the server's printer and the client's line reader. Characters stand for
 * bytes. The JSON codec is a parameter: `enc` renders a message, `dec` is its inverse.
 */
module Sse {
  import opened Outcome

  // The longest line, line feed excluded, that the line scanner does not give up on is one shorter.
  const MAX_TOKEN := 65536

  /** A watch event: its type, and everything else it carries. */
  datatype Message<+T> = Message(kind: string, content: T)

  // ------------------------------------------------------------------- printing

  function EventLine(event: string): string {
    "event: " + event
  }

  function DataLine(body: string): string {
    "data: " + body
  }

  function Frame(event: string, body: string): string {
    EventLine(event) + "\n" + DataLine(body) + "\n\n"
  }

  /** What a stream of messages looks like when each is written under its own type. */
  function Written<T>(ms: seq<Message<T>>, enc: Message<T> -> string): string {
    if ms == [] then "" else Frame(ms[0].kind, enc(ms[0])) + Written(ms[1..], enc)
  }

  /** The body of a streaming response. */
  class ResponseWriter<T> {
    var sent: string

    constructor ()
      ensures sent == ""
    {
      sent := "";
    }

    method WriteSSE(event: string, payload: Message<T>, enc: Message<T> -> string)
      modifies this
      ensures sent == old(sent) + Frame(event, enc(payload))
    {
      var body := enc(payload);
      sent := sent + ("event: " + event + "\n" + ("data: " + body) + "\n\n");
    }

    /** The handler's loop. */
    method WriteAll(events: seq<Message<T>>, enc: Message<T> -> string)
      modifies this
      ensures sent == old(sent) + Written(events, enc)
    {
      hide Frame;
      for n := 0 to |events|
        invariant sent + Written(events[n..], enc) == old(sent) + Written(events, enc)
      {
        assert events[n..][0] == events[n] && events[n..][1..] == events[n + 1..];
        ghost var before, frame := sent, Frame(events[n].kind, enc(events[n]));
        WriteSSE(events[n].kind, events[n], enc);
        assert before + (frame + Written(events[n + 1..], enc)) == (before + frame) + Written(events[n + 1..], enc);
      }
    }
  }

  // -------------------------------------------------------------------- scanning

  function LineEnd(text: string): (n: nat)
    ensures n <= |text| && '\n' !in text[..n] && (n < |text| ==> text[n] == '\n')
  {
    if text == "" || text[0] == '\n' then 0
    else
      var n := LineEnd(text[1..]);
      assert text[..1 + n] == [text[0]] + text[1..][..n];
      1 + n
  }

  /** A line loses one trailing carriage return. */
  function DropCR(line: string): string {
    if line != "" && line[|line| - 1] == '\r' then line[..|line| - 1] else line
  }

  /** The lines a scanner yields; it stops for good at the first line that is too long. */
  function Scanned(text: string): seq<string>
    decreases |text|
  {
    if text == "" || LineEnd(text) >= MAX_TOKEN then []
    else [DropCR(text[..LineEnd(text)])] + Scanned(AfterLine(text))
  }

  function AfterLine(text: string): (rest: string)
    ensures text != "" ==> |rest| < |text|
  {
    if LineEnd(text) < |text| then text[LineEnd(text) + 1..] else ""
  }

  // --------------------------------------------------------------------- reading

  function Understood<T>(line: string, current: string, dec: string -> Option<Message<T>>): seq<Message<T>> {
    if "event: " <= line || !("data: " <= line) then []
    else
      match dec(line[6..])
      case None => []
      case Some(m) => [if m.kind == "" then m.(kind := current) else m]
  }

  function TypeAfter(line: string, current: string): string {
    if "event: " <= line then line[7..] else current
  }

  /** The events in a list of lines, where `current` is the last event type announced. */
  function Parsed<T>(lines: seq<string>, current: string, dec: string -> Option<Message<T>>): seq<Message<T>>
    decreases |lines|
  {
    if lines == [] then []
    else Understood(lines[0], current, dec) + Parsed(lines[1..], TypeAfter(lines[0], current), dec)
  }

  function Read<T>(text: string, dec: string -> Option<Message<T>>): seq<Message<T>> {
    Parsed(Scanned(text), "", dec)
  }

  /** The reader goroutine: scan a line, remember an announced type, decode and send a data line. */
  method ReadStream<T>(body: string, dec: string -> Option<Message<T>>) returns (out: seq<Message<T>>)
    ensures out == Read(body, dec)
  {
    hide LineEnd, AfterLine, Parsed, Scanned, Understood, TypeAfter, DropCR;
    out := [];
    var currentType := "";
    var text := body;
    NothingIsRead("", dec);
    while text != ""
      invariant out + Parsed(Scanned(text), currentType, dec) == Read(body, dec)
      decreases |text|
    {
      var end := LineEnd(text);
      ScanStep(text);
      if end >= MAX_TOKEN {
        NothingIsRead(currentType, dec);
        return;
      }
      var line := DropCR(text[..end]);
      text := AfterLine(text);
      ParsedFirst(line, Scanned(text), currentType, dec);
      LineStep(line, currentType, dec);
      if "event: " <= line {
        currentType := line[7..];
        continue;
      }
      if "data: " <= line {
        var event := dec(line[6..]);
        if event.Some? {
          var m := event.value;
          if m.kind == "" {
            m := m.(kind := currentType);
          }
          out := out + [m];
        }
      }
    }
    ScanStep("");
    NothingIsRead(currentType, dec);
  }

  lemma ScanStep(text: string)
    ensures text == "" ==> Scanned(text) == []
    ensures text != "" ==>
      Scanned(text) == if LineEnd(text) >= MAX_TOKEN then [] else [DropCR(text[..LineEnd(text)])] + Scanned(AfterLine(text))
  {
  }

  lemma NothingIsRead<T>(current: string, dec: string -> Option<Message<T>>)
    ensures Parsed([], current, dec) == []
  {
  }

  lemma LineStep<T>(line: string, current: string, dec: string -> Option<Message<T>>)
    ensures "event: " <= line ==> Understood(line, current, dec) == [] && TypeAfter(line, current) == line[7..]
    ensures !("event: " <= line) ==> TypeAfter(line, current) == current
    ensures !("event: " <= line) && "data: " <= line ==>
      Understood(line, current, dec) ==
      match dec(line[6..])
      case None => []
      case Some(m) => [if m.kind == "" then m.(kind := current) else m]
    ensures !("event: " <= line) && !("data: " <= line) ==> Understood(line, current, dec) == []
  {
  }

  lemma ParsedFirst<T>(line: string, rest: seq<string>, current: string, dec: string -> Option<Message<T>>)
    ensures Parsed([line] + rest, current, dec) == Understood(line, current, dec) + Parsed(rest, TypeAfter(line, current), dec)
  {
    assert ([line] + rest)[1..] == rest;
  }

  // ------------------------------------------------------------------- round trip

  /** What a JSON codec and the event types of the application give. */
  ghost predicate Codec<T(!new)>(enc: Message<T> -> string, dec: string -> Option<Message<T>>) {
    forall m :: dec(enc(m)) == Some(m) && '\n' !in enc(m) && !EndsInCR(enc(m))
  }

  predicate EndsInCR(s: string) {
    s != "" && s[|s| - 1] == '\r'
  }

  predicate Fits<T>(m: Message<T>, enc: Message<T> -> string) {
    |EventLine(m.kind)| < MAX_TOKEN && |DataLine(enc(m))| < MAX_TOKEN
  }

  /** The messages before the first one that does not fit. */
  function Fitting<T>(ms: seq<Message<T>>, enc: Message<T> -> string): seq<Message<T>> {
    if ms == [] || !Fits(ms[0], enc) then [] else [ms[0]] + Fitting(ms[1..], enc)
  }

  function Ended(line: string, rest: string): string {
    line + "\n" + rest
  }

  lemma LineEndOf(line: string, rest: string)
    requires '\n' !in line
    ensures LineEnd(Ended(line, rest)) == |line|
  {
    var text := Ended(line, rest);
    var n := LineEnd(text);
    assert text[|line|] == '\n';
    assert forall i :: 0 <= i < |line| ==> text[i] == line[i] && text[i] != '\n';
    assert forall i :: 0 <= i < n ==> text[..n][i] == text[i] && text[i] != '\n';
  }

  /** One line at the head of the text: its event if it has one, and the rest; or the end, if it is too long. */
  lemma ReadLine<T>(line: string, rest: string, current: string, dec: string -> Option<Message<T>>)
    requires '\n' !in line
    ensures Parsed(Scanned(Ended(line, rest)), current, dec) ==
            if |line| >= MAX_TOKEN then []
            else Understood(DropCR(line), current, dec) + Parsed(Scanned(rest), TypeAfter(DropCR(line), current), dec)
  {
    var text := Ended(line, rest);
    LineEndOf(line, rest);
    assert text[..|line|] == line && text[|line| + 1..] == rest;
    ScanStep(text);
    ParsedFirst(DropCR(line), Scanned(rest), current, dec);
    hide LineEnd, Understood, TypeAfter, DropCR, Scanned;
  }

  lemma EventLineIsSilent<T>(kind: string, current: string, dec: string -> Option<Message<T>>)
    requires '\n' !in kind
    ensures Understood(DropCR(EventLine(kind)), current, dec) == []
    ensures kind == "" ==> TypeAfter(DropCR(EventLine(kind)), current) == ""
    ensures '\n' !in EventLine(kind)
  {
    var whole := EventLine(kind);
    assert whole[|whole| - 1] == if kind == "" then ' ' else kind[|kind| - 1];
    assert DropCR(whole) == whole || DropCR(whole) == "event: " + kind[..|kind| - 1];
  }

  lemma DataLineIsUnderstood<T>(m: Message<T>, current: string, enc: Message<T> -> string, dec: string -> Option<Message<T>>)
    requires dec(enc(m)) == Some(m) && '\n' !in enc(m) && !EndsInCR(enc(m)) && (m.kind == "" ==> current == "")
    ensures Understood(DropCR(DataLine(enc(m))), current, dec) == [m]
    ensures '\n' !in DataLine(enc(m))
  {
    var whole := DataLine(enc(m));
    assert whole[|whole| - 1] == if enc(m) == "" then ' ' else enc(m)[|enc(m)| - 1];
    assert DropCR(whole) == whole && whole[6..] == enc(m);
    assert whole[0] == 'd' && "event: "[0] == 'e';
    assert m.kind == "" ==> m.(kind := current) == m;
  }

  lemma BlankLineIsSilent<T>(current: string, dec: string -> Option<Message<T>>)
    ensures DropCR("") == "" && Understood("", current, dec) == [] && TypeAfter("", current) == current
  {
  }

  lemma FrameIsThreeLines(event: string, body: string, rest: string)
    ensures Frame(event, body) + rest == Ended(EventLine(event), Ended(DataLine(body), Ended("", rest)))
  {
    assert "\n\n" == "\n" + "\n";
    var e, d := EventLine(event), DataLine(body);
    hide EventLine, DataLine;
    assert e + "\n" + d + ("\n" + "\n") + rest == e + "\n" + (d + "\n" + ("" + "\n" + rest));
  }

  /** Whatever type was announced before, one frame reads as its message, or ends the reading. */
  lemma ReadFrame<T(!new)>(m: Message<T>, rest: string, current: string, enc: Message<T> -> string,
                           dec: string -> Option<Message<T>>) returns (current': string)
    requires Codec(enc, dec) && '\n' !in m.kind
    ensures Parsed(Scanned(Frame(m.kind, enc(m)) + rest), current, dec) ==
            if Fits(m, enc) then [m] + Parsed(Scanned(rest), current', dec) else []
  {
    hide Understood, TypeAfter, DropCR, Scanned, Parsed, Frame, Ended, EventLine, DataLine;
    assert '\n' !in enc(m) && dec(enc(m)) == Some(m) && !EndsInCR(enc(m));
    FrameIsThreeLines(m.kind, enc(m), rest);
    EventLineIsSilent(m.kind, current, dec);
    ReadLine(EventLine(m.kind), Ended(DataLine(enc(m)), Ended("", rest)), current, dec);
    var announced := TypeAfter(DropCR(EventLine(m.kind)), current);
    DataLineIsUnderstood(m, announced, enc, dec);
    ReadLine(DataLine(enc(m)), Ended("", rest), announced, dec);
    current' := TypeAfter(DropCR(DataLine(enc(m))), announced);
    BlankLineIsSilent(current', dec);
    ReadLine("", rest, current', dec);
  }

  lemma {:induction false} FramesReadBack<T(!new)>(ms: seq<Message<T>>, current: string, enc: Message<T> -> string,
                                                   dec: string -> Option<Message<T>>)
    requires Codec(enc, dec) && forall m :: m in ms ==> '\n' !in m.kind
    ensures Parsed(Scanned(Written(ms, enc)), current, dec) == Fitting(ms, enc)
    decreases |ms|
  {
    if ms != [] {
      hide Codec, Frame, Scanned, Fits;
      var current' := ReadFrame(ms[0], Written(ms[1..], enc), current, enc, dec);
      FramesReadBack(ms[1..], current', enc, dec);
    }
  }

  /** The text of one event, and the sizes up to which it can be read back, in full. */
  lemma FramesAreLaidOut<T>(m: Message<T>, enc: Message<T> -> string)
    ensures Written([m], enc) == "event: " + m.kind + "\ndata: " + enc(m) + "\n\n"
    ensures Fits(m, enc) <==> 7 + |m.kind| <= 65535 && 6 + |enc(m)| <= 65535
  {
    var body := enc(m);
    assert "\n" + "data: " == "\ndata: ";
    assert "event: " + m.kind + "\n" + ("data: " + body) == "event: " + m.kind + ("\n" + "data: ") + body;
    assert Written([m][1..], enc) == "";
  }

  /** Reading what was written yields exactly the events before the first one with a line that is too long. */
  lemma WrittenEventsReadBack<T(!new)>(ms: seq<Message<T>>, enc: Message<T> -> string, dec: string -> Option<Message<T>>)
    requires Codec(enc, dec) && forall m :: m in ms ==> '\n' !in m.kind
    ensures Read(Written(ms, enc), dec) == Fitting(ms, enc)
  {
    FramesReadBack(ms, "", enc, dec);
  }

  /** The round trip is complete exactly if every event fits. */
  lemma {:induction false} RoundTripExactly<T(!new)>(ms: seq<Message<T>>, enc: Message<T> -> string, dec: string -> Option<Message<T>>)
    requires Codec(enc, dec) && forall m :: m in ms ==> '\n' !in m.kind
    ensures Read(Written(ms, enc), dec) == ms <==> forall m :: m in ms ==> Fits(m, enc)
  {
    WrittenEventsReadBack(ms, enc, dec);
    FittingIsAll(ms, enc);
  }

  lemma {:induction false} FittingIsAll<T>(ms: seq<Message<T>>, enc: Message<T> -> string)
    ensures |Fitting(ms, enc)| <= |ms|
    ensures Fitting(ms, enc) == ms <==> forall m :: m in ms ==> Fits(m, enc)
  {
    hide Fits;
    if ms != [] {
      assert ms == [ms[0]] + ms[1..];
      FittingIsAll(ms[1..], enc);
      assert ms[0] in ms;
    }
  }
}
