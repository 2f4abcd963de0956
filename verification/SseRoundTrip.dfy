/** What is written as server-sent events is what the reader emits. */
module SseRoundTrip {
  import opened Basics
  import opened JsText
  import opened SseStream

  // -------------------------------------------------------- lines of a frame

  predicate OneLine(s: string) {
    '\n' !in s
  }

  predicate OneLiners(lines: seq<string>) {
    forall i :: 0 <= i < |lines| ==> OneLine(lines[i])
  }

  /** Lines with a line feed between them. */
  function Text(lines: seq<string>): string
    requires lines != []
  {
    if |lines| == 1 then lines[0] else lines[0] + "\n" + Text(lines[1..])
  }

  lemma {:induction false} LinesWhole(l: string)
    requires OneLine(l)
    ensures Lines(l) == [l]
  {
    if l != "" {
      LinesWhole(l[1..]);
      assert [l[0]] + l[1..] == l;
    }
  }

  lemma {:induction false} LinesFirst(l: string, t: string)
    requires OneLine(l)
    ensures Lines(l + "\n" + t) == [l] + Lines(t)
  {
    var s := l + "\n" + t;
    if l == "" {
      assert s[1..] == t;
    } else {
      assert s[1..] == l[1..] + "\n" + t;
      LinesFirst(l[1..], t);
      assert [s[0]] + l[1..] == l;
    }
  }

  /** The lines of a text written line by line are those lines. */
  lemma {:induction false} LinesOfText(lines: seq<string>)
    requires lines != [] && OneLiners(lines)
    ensures Lines(Text(lines)) == lines
  {
    if |lines| == 1 {
      LinesWhole(lines[0]);
    } else {
      LinesOfText(lines[1..]);
      LinesFirst(lines[0], Text(lines[1..]));
    }
  }

  /** Every frame is its lines, none of which holds a line feed, joined by line feeds. */
  lemma {:induction false} TextOfLines(frame: string)
    ensures Lines(frame) != [] && OneLiners(Lines(frame)) && Text(Lines(frame)) == frame
  {
    if frame != "" {
      TextOfLines(frame[1..]);
      var tail := Lines(frame[1..]);
      if frame[0] == '\n' {
        assert ([""] + tail)[1..] == tail;
      } else {
        assert ([[frame[0]] + tail[0]] + tail[1..])[1..] == tail[1..];
      }
    }
  }

  // ----------------------------------------------------------- one message

  datatype Message = Message(kind: string, data: seq<string>, id: string)

  predicate Plain(s: string) {
    '\n' !in s && '\r' !in s
  }

  /** Kind and id are trimmed, nothing holds a line end, and the first of several data
      lines is not empty. */
  predicate Sendable(m: Message) {
    && Plain(m.kind) && Trimmed(m.kind) && Plain(m.id) && Trimmed(m.id)
    && (forall i :: 0 <= i < |m.data| ==> Plain(m.data[i]))
    && (|m.data| <= 1 || m.data[0] != "")
  }

  function DataLines(data: seq<string>): seq<string> {
    seq(|data|, i requires 0 <= i < |data| => "data: " + data[i])
  }

  function MessageLines(m: Message): seq<string> {
    ["event: " + m.kind] + DataLines(m.data) + ["id: " + m.id]
  }

  function FrameText(m: Message): string {
    Text(MessageLines(m))
  }

  lemma {:induction false} MoreLines(lines: seq<string>, line: string)
    ensures FieldsOf(lines + [line]) == WithLine(FieldsOf(lines), line)
  {
    FieldsStep(lines + [line], |lines|);
    assert (lines + [line])[..|lines|] == lines && (lines + [line])[..|lines| + 1] == lines + [line];
  }

  lemma {:induction false} KindRead(kind: string)
    requires Trimmed(kind)
    ensures FieldsOf(["event: " + kind]) == Fields(kind, "", "", true)
  {
    var line := "event: " + kind;
    MoreLines([], line);
    assert [] + [line] == [line];
    assert line[6..] == " " + kind && EventLine(line);
    TrimSpaced(kind);
  }

  lemma {:induction false} DataRead(f: Fields, d: string)
    ensures WithLine(f, "data: " + d) == f.(data := AppendData(f.data, d), hasField := true)
  {
    var line := "data: " + d;
    assert line[5..] == " " + d && DataLine(line);
    OnePrefix(line);
    assert (" " + d)[1..] == d;
  }

  lemma {:induction false} AllDataRead(kind: string, data: seq<string>)
    requires Trimmed(kind)
    ensures FieldsOf(["event: " + kind] + DataLines(data)) == Fields(kind, AppendAll(data), "", true)
  {
    var first := ["event: " + kind];
    if data == [] {
      assert first + DataLines(data) == first;
      KindRead(kind);
    } else {
      var n := |data| - 1;
      AllDataRead(kind, data[..n]);
      assert first + DataLines(data) == (first + DataLines(data[..n])) + ["data: " + data[n]];
      MoreLines(first + DataLines(data[..n]), "data: " + data[n]);
      DataRead(FieldsOf(first + DataLines(data[..n])), data[n]);
    }
  }

  lemma {:induction false} MessageRead(m: Message)
    requires Trimmed(m.kind) && Trimmed(m.id)
    ensures FieldsOf(MessageLines(m)) == Fields(m.kind, AppendAll(m.data), m.id, true)
  {
    var before, line := ["event: " + m.kind] + DataLines(m.data), "id: " + m.id;
    AllDataRead(m.kind, m.data);
    MoreLines(before, line);
    assert line[3..] == " " + m.id && IdLine(line);
    OnePrefix(line);
    TrimSpaced(m.id);
  }

  predicate Written(lines: seq<string>) {
    lines != [] && forall i :: 0 <= i < |lines| ==> Plain(lines[i]) && lines[i] != ""
  }

  lemma {:induction false} MessageWritten(m: Message)
    requires Sendable(m)
    ensures Written(MessageLines(m)) && OneLiners(MessageLines(m))
  {
    var lines := MessageLines(m);
    forall i | 0 <= i < |lines| ensures Plain(lines[i]) && lines[i] != "" {
      assert 0 < i <= |m.data| ==> lines[i] == "data: " + m.data[i - 1];
    }
  }

  /** The frame written from a message is emitted as exactly that message, its data lines
      joined as section 9.2 of the WHATWG HTML Living Standard joins them. */
  lemma {:induction false} FrameRoundTrip(m: Message)
    requires Sendable(m)
    ensures Emitted(FrameText(m)) == [Event(m.kind, JoinLines(m.data), m.id)]
  {
    MessageWritten(m);
    LinesOfText(MessageLines(m));
    MessageRead(m);
    DataJoinExactly(m.data);
  }

  /** A frame is silent exactly when none of its lines is an event, data or id line: a
      keep-alive comment emits nothing. */
  lemma {:induction false} SilentExactly(frame: string)
    ensures Emitted(frame) == [] <==>
      forall i :: 0 <= i < |Lines(frame)| ==>
        !("event:" <= Lines(frame)[i]) && !("data:" <= Lines(frame)[i]) && !("id:" <= Lines(frame)[i])
  {
  }

  /** Comments and unknown lines between the others change nothing. */
  lemma {:induction false} CommentIgnored(lines: seq<string>, line: string)
    requires !("event:" <= line) && !("data:" <= line) && !("id:" <= line)
    ensures FieldsOf(lines + [line]) == FieldsOf(lines)
  {
    MoreLines(lines, line);
  }

  // ------------------------------------------------------------- whole streams

  function SentText(messages: seq<Message>): string {
    if messages == [] then "" else FrameText(messages[0]) + "\n\n" + SentText(messages[1..])
  }

  function Received(messages: seq<Message>): seq<Event> {
    if messages == [] then []
    else [Event(messages[0].kind, JoinLines(messages[0].data), messages[0].id)] + Received(messages[1..])
  }

  /** No blank line inside, and no line feed at either end. */
  predicate Solid(s: string) {
    && s != "" && s[0] != '\n' && s[|s| - 1] != '\n'
    && forall i :: 0 <= i < |s| - 1 ==> !(s[i] == '\n' && s[i + 1] == '\n')
  }

  lemma {:induction false} TextSolid(lines: seq<string>)
    requires Written(lines)
    ensures Solid(Text(lines)) && '\r' !in Text(lines)
  {
    assert Plain(lines[0]) && lines[0] != "";
    if |lines| == 1 {
      PlainSolid(lines[0]);
    } else {
      TextSolid(lines[1..]);
      PlainSolid(lines[0]);
      JoinSolid(lines[0], Text(lines[1..]));
    }
  }

  lemma {:induction false} PlainSolid(s: string)
    requires Plain(s) && s != ""
    ensures Solid(s)
  {
  }

  lemma {:induction false} JoinSolid(a: string, b: string)
    requires Solid(a) && Solid(b)
    ensures Solid(a + "\n" + b)
  {
    var s := a + "\n" + b;
    forall i | 0 <= i < |s| - 1 ensures !(s[i] == '\n' && s[i + 1] == '\n') {
      if i < |a| - 1 {
        assert s[i] == a[i] && s[i + 1] == a[i + 1];
      } else if i > |a| {
        assert s[i] == b[i - |a| - 1] && s[i + 1] == b[i - |a|];
      }
    }
  }

  predicate NoBlankBefore(s: string) {
    && s != "" && s[|s| - 1] != '\n'
    && forall i :: 0 <= i < |s| - 1 ==> !(s[i] == '\n' && s[i + 1] == '\n')
  }

  lemma {:induction false} BlankLineBehind(s: string, t: string)
    requires NoBlankBefore(s)
    ensures BlankLine(s + "\n\n" + t) == |s|
  {
    var u := s + "\n\n" + t;
    assert u[1..] == s[1..] + "\n\n" + t;
    if |s| == 1 {
      assert u[1..][0] == '\n' && u[1..][1] == '\n';
    } else {
      assert u[0] == s[0] && u[1] == s[1];
      BlankLineBehind(s[1..], t);
    }
  }

  lemma {:induction false} SentCut(messages: seq<Message>)
    requires forall i :: 0 <= i < |messages| ==> Sendable(messages[i])
    ensures Cut(SentText(messages)).rest == "" && Events(Cut(SentText(messages)).frames) == Received(messages)
    ensures '\r' !in SentText(messages)
  {
    if messages != [] {
      var m, rest := messages[0], SentText(messages[1..]);
      SentCut(messages[1..]);
      FirstCut(m, rest);
      FrameRoundTrip(m);
      EventsCons(FrameText(m), Cut(rest).frames);
    }
  }

  lemma {:induction false} FirstCut(m: Message, rest: string)
    requires Sendable(m)
    ensures Cut(FrameText(m) + "\n\n" + rest) == Cutting([FrameText(m)] + Cut(rest).frames, Cut(rest).rest)
    ensures '\r' !in FrameText(m)
  {
    var frame := FrameText(m);
    MessageWritten(m);
    TextSolid(MessageLines(m));
    BlankLineBehind(frame, rest);
    var u := frame + "\n\n" + rest;
    CutAt(u, |frame|);
    assert u[..|frame|] == frame && u[|frame| + 2..] == rest;
  }

  /** End to end: however the written stream is split into chunks, the reader emits exactly
      the messages sent, in order, and keeps nothing back. */
  lemma {:induction false} SentIsReceived(messages: seq<Message>, chunks: seq<string>)
    requires forall i :: 0 <= i < |messages| ==> Sendable(messages[i])
    requires Concat(chunks) == SentText(messages)
    ensures Events(Stream(chunks).frames) == Received(messages) && Stream(chunks).rest == ""
  {
    var text := SentText(messages);
    SentCut(messages);
    assert NoCrCrlf(text) && NoCrlf(text);
    StreamingEqualsBatch(chunks);
    NormalizeKeeps(text);
  }
}
