/** The incremental server-sent-event reader of the operator console. */
module SseStream {
  import opened Basics
  import opened JsText

  // -------------------------------------------------- cutting text into frames

  /** buf.replace(/\r\n/g, '\n'): one left-to-right pass. */
  function Normalize(s: string): string {
    if s == "" then ""
    else if |s| >= 2 && s[0] == '\r' && s[1] == '\n' then "\n" + Normalize(s[2..])
    else [s[0]] + Normalize(s[1..])
  }

  /** buf.indexOf('\n\n'), or -1. */
  function BlankLine(s: string): (k: int)
    ensures -1 <= k <= |s| - 2 || k == -1
    ensures k >= 0 ==> s[k] == '\n' && s[k + 1] == '\n'
  {
    if |s| < 2 then -1
    else if s[0] == '\n' && s[1] == '\n' then 0
    else
      var k := BlankLine(s[1..]);
      if k >= 0 then k + 1 else -1
  }

  datatype Cutting = Cutting(frames: seq<string>, rest: string)

  /** Complete frames of a text, and what is left after the last blank line. */
  function Cut(s: string): Cutting {
    var k := BlankLine(s);
    if k < 0 then Cutting([], s)
    else
      var tail := Cut(s[k + 2..]);
      Cutting([s[..k]] + tail.frames, tail.rest)
  }

  /** The reader over a list of decoded chunks: grow, normalise, cut, repeat. */
  function Stream(chunks: seq<string>): Cutting {
    if chunks == [] then Cutting([], "")
    else Feed(Stream(chunks[..|chunks| - 1]), chunks[|chunks| - 1])
  }

  /** One read: the buffer grows, is normalised, and loses its complete frames. */
  function Feed(before: Cutting, chunk: string): Cutting {
    var step := Cut(Normalize(before.rest + chunk));
    Cutting(before.frames + step.frames, step.rest)
  }

  /** The reference: normalise the whole text once, then cut it. */
  function Batch(s: string): Cutting {
    Cut(Normalize(s))
  }

  function Concat(chunks: seq<string>): string {
    if chunks == [] then "" else Concat(chunks[..|chunks| - 1]) + chunks[|chunks| - 1]
  }

  predicate CrlfAt(s: string, i: int) {
    0 <= i < |s| - 1 && s[i] == '\r' && s[i + 1] == '\n'
  }

  predicate CrCrlfAt(s: string, i: int) {
    0 <= i < |s| - 2 && s[i] == '\r' && s[i + 1] == '\r' && s[i + 2] == '\n'
  }

  /** No carriage return stands immediately before a CRLF. */
  ghost predicate NoCrCrlf(s: string) {
    forall i :: !CrCrlfAt(s, i)
  }

  ghost predicate NoCrlf(s: string) {
    forall i :: !CrlfAt(s, i)
  }

  // ------------------------------------------------------ normalising in steps

  lemma {:induction false} NormalizeSplits(a: string, b: string)
    requires !(a != "" && b != "" && a[|a| - 1] == '\r' && b[0] == '\n')
    ensures Normalize(a + b) == Normalize(a) + Normalize(b)
  {
    if a == "" {
      assert a + b == b;
    } else if CrlfAt(a, 0) {
      NormalizeSplits(a[2..], b);
      SplitCrlf(a[2..], b);
      assert a == "\r\n" + a[2..];
    } else {
      NormalizeSplits(a[1..], b);
      SplitHead(a[0], a[1..], b);
      assert a == [a[0]] + a[1..];
    }
  }

  lemma {:induction false} SplitCrlf(t: string, b: string)
    requires Normalize(t + b) == Normalize(t) + Normalize(b)
    ensures Normalize("\r\n" + t + b) == Normalize("\r\n" + t) + Normalize(b)
  {
    NormalizeCrlf(t);
    NormalizeCrlf(t + b);
    Associates("\r\n", t, b);
    Associates("\n", Normalize(t), Normalize(b));
  }

  lemma {:induction false} SplitHead(c: char, t: string, b: string)
    requires Normalize(t + b) == Normalize(t) + Normalize(b)
    requires !(c == '\r' && t + b != "" && (t + b)[0] == '\n')
    ensures Normalize([c] + t + b) == Normalize([c] + t) + Normalize(b)
  {
    NormalizeHead(c, t);
    NormalizeHead(c, t + b);
    Associates([c], t, b);
    Associates([c], Normalize(t), Normalize(b));
  }

  lemma {:induction false} TailClean(s: string, k: nat)
    requires NoCrCrlf(s) && k <= |s|
    ensures NoCrCrlf(s[k..])
  {
    forall i ensures !CrCrlfAt(s[k..], i) {
      assert !CrCrlfAt(s, i + k);
    }
  }

  lemma {:induction false} NormalizeHead(c: char, t: string)
    requires !(c == '\r' && t != "" && t[0] == '\n')
    ensures Normalize([c] + t) == [c] + Normalize(t)
  {
  }

  lemma {:induction false} NormalizeCrlf(t: string)
    ensures Normalize("\r\n" + t) == "\n" + Normalize(t)
  {
  }

  /** The first character of a normalised text is a line feed only if the text
      started with one, possibly behind a carriage return. */
  lemma {:induction false} NormalizeFirst(a: string)
    requires a != ""
    ensures Normalize(a) != ""
    ensures Normalize(a)[0] == if CrlfAt(a, 0) then '\n' else a[0]
  {
  }

  /** Normalising what is already normalised changes nothing more. */
  lemma {:induction false} NormalizeAgain(a: string, b: string)
    requires NoCrCrlf(a + b)
    ensures Normalize(Normalize(a) + b) == Normalize(a + b)
  {
    if a == "" {
      assert Normalize(a) + b == a + b;
    } else if CrlfAt(a, 0) {
      RestClean(a, b, 2);
      NormalizeAgain(a[2..], b);
      AgainCrlf(a[2..], b);
      assert a == "\r\n" + a[2..];
    } else {
      RestClean(a, b, 1);
      NormalizeAgain(a[1..], b);
      assert !CrCrlfAt(a + b, 0);
      AgainHead(a[0], a[1..], b);
      assert a == [a[0]] + a[1..];
    }
  }

  lemma {:induction false} RestClean(a: string, b: string, k: nat)
    requires k <= |a| && NoCrCrlf(a + b)
    ensures NoCrCrlf(a[k..] + b)
  {
    TailClean(a + b, k);
    assert (a + b)[k..] == a[k..] + b;
  }

  lemma {:induction false} AgainCrlf(t: string, b: string)
    requires Normalize(Normalize(t) + b) == Normalize(t + b)
    ensures Normalize(Normalize("\r\n" + t) + b) == Normalize("\r\n" + t + b)
  {
    NormalizeCrlf(t);
    NormalizeCrlf(t + b);
    Associates("\n", Normalize(t), b);
    Associates("\r\n", t, b);
    NormalizeHead('\n', Normalize(t) + b);
  }

  lemma {:induction false} AgainHead(c: char, t: string, b: string)
    requires Normalize(Normalize(t) + b) == Normalize(t + b)
    requires !CrlfAt([c] + t, 0) && !(c == '\r' && CrlfAt(t, 0))
    ensures Normalize(Normalize([c] + t) + b) == Normalize([c] + t + b)
  {
    NormalizeHead(c, t);
    Associates([c], Normalize(t), b);
    Associates([c], t, b);
    if t != "" {
      NormalizeFirst(t);
      NormalizeHead(c, Normalize(t) + b);
      NormalizeHead(c, t + b);
    }
  }

  lemma {:induction false} NormalizeRemovesCrlf(a: string)
    requires NoCrCrlf(a)
    ensures NoCrlf(Normalize(a))
    ensures a != "" ==> Normalize(a) != "" && (Normalize(a)[0] == '\n' ==> a[0] == '\n' || CrlfAt(a, 0))
  {
    if a != "" {
      var k := if |a| >= 2 && a[0] == '\r' && a[1] == '\n' then 2 else 1;
      TailClean(a, k);
      NormalizeRemovesCrlf(a[k..]);
      var n, t := Normalize(a), Normalize(a[k..]);
      forall i ensures !CrlfAt(n, i) {
        assert !CrlfAt(t, i - 1);
        if i == 0 && k == 1 && a[0] == '\r' && |a| > 1 {
          assert !CrCrlfAt(a, 0);
        }
      }
    }
  }

  lemma {:induction false} NormalizeKeeps(p: string)
    requires NoCrlf(p)
    ensures Normalize(p) == p
  {
    if p != "" {
      assert !CrlfAt(p, 0);
      forall i ensures !CrlfAt(p[1..], i) {
        assert !CrlfAt(p, i + 1);
      }
      NormalizeKeeps(p[1..]);
    }
  }

  /** The first blank line is found where it ends, whatever follows it. */
  lemma {:induction false} BlankLineFirst(s: string, t: string)
    requires BlankLine(s) >= 0
    ensures BlankLine(s[..BlankLine(s) + 2] + t) == BlankLine(s)
  {
    var k := BlankLine(s);
    var u := s[..k + 2] + t;
    assert u[0] == s[0] && u[1] == s[1];
    if k > 0 {
      BlankLineFirst(s[1..], t);
      assert u[1..] == s[1..][..k + 1] + t;
    }
  }

  /** Cutting at the first blank line. */
  lemma {:induction false} CutAt(u: string, k: nat)
    requires BlankLine(u) == k
    ensures Cut(u) == Cutting([u[..k]] + Cut(u[k + 2..]).frames, Cut(u[k + 2..]).rest)
  {
  }

  lemma {:induction false} CutFirst(s: string, t: string)
    requires BlankLine(s) >= 0
    ensures var k := BlankLine(s); Cut(s[..k + 2] + t) == Cutting([s[..k]] + Cut(t).frames, Cut(t).rest)
  {
    var k := BlankLine(s);
    BlankLineFirst(s, t);
    var u := s[..k + 2] + t;
    CutAt(u, k);
    assert u[..k] == s[..k] && u[k + 2..] == t;
  }

  lemma {:induction false} SliceClean(x: string, i: nat, j: nat)
    requires NoCrlf(x) && i <= j <= |x|
    ensures NoCrlf(x[i..j])
  {
    forall n ensures !CrlfAt(x[i..j], n) {
      assert !CrlfAt(x, n + i);
    }
  }

  lemma {:induction false} FirstFrameStays(x: string, b: string)
    requires NoCrlf(x) && BlankLine(x) >= 0
    ensures var k := BlankLine(x); var y := Normalize(x[k + 2..] + b);
      && NoCrlf(x[k + 2..])
      && Cut(Normalize(x + b)) == Cutting([x[..k]] + Cut(y).frames, Cut(y).rest)
  {
    var k := BlankLine(x);
    var p, x' := x[..k + 2], x[k + 2..];
    SliceClean(x, 0, k + 2);
    SliceClean(x, k + 2, |x|);
    assert x[0..k + 2] == p && x[k + 2..|x|] == x';
    NormalizeSplits(p, x' + b);
    NormalizeKeeps(p);
    assert x + b == p + (x' + b);
    CutFirst(x, Normalize(x' + b));
  }

  lemma {:induction false} FeedAfterFrame(frame: string, done: Cutting, b: string)
    ensures Feed(Cutting([frame] + done.frames, done.rest), b)
         == Cutting([frame] + Feed(done, b).frames, Feed(done, b).rest)
  {
  }

  /** Frames already cut stay cut, whatever follows. */
  lemma {:induction false} CutThenFeedStep(x: string, b: string, k: nat)
    requires NoCrlf(x) && BlankLine(x) == k && NoCrlf(x[k + 2..])
    requires Cut(Normalize(x[k + 2..] + b)) == Feed(Cut(x[k + 2..]), b)
    ensures Cut(Normalize(x + b)) == Feed(Cut(x), b)
  {
    FirstFrameStays(x, b);
    CutAt(x, k);
    JoinFrame(x[..k], Cut(x[k + 2..]), b, Cut(Normalize(x + b)), Cut(x));
  }

  lemma {:induction false} JoinFrame(frame: string, done: Cutting, b: string, whole: Cutting, cut: Cutting)
    requires whole == Cutting([frame] + Feed(done, b).frames, Feed(done, b).rest)
    requires cut == Cutting([frame] + done.frames, done.rest)
    ensures whole == Feed(cut, b)
  {
    FeedAfterFrame(frame, done, b);
  }

  lemma {:induction false} CutThenFeed(x: string, b: string)
    requires NoCrlf(x)
    ensures Cut(Normalize(x + b)) == Feed(Cut(x), b)
    decreases |x|
  {
    var k := BlankLine(x);
    if k >= 0 {
      FirstFrameStays(x, b);
      CutThenFeed(x[k + 2..], b);
      CutThenFeedStep(x, b, k);
    } else {
      assert Cut(x) == Cutting([], x);
    }
  }

  /** Streaming equals batch: cutting chunk by chunk gives the frames and the
      remainder of the whole text, if no CR stands before a CRLF. */
  lemma {:induction false} StreamingEqualsBatch(chunks: seq<string>)
    requires NoCrCrlf(Concat(chunks))
    ensures Stream(chunks) == Batch(Concat(chunks))
  {
    if chunks != [] {
      var init, last := chunks[..|chunks| - 1], chunks[|chunks| - 1];
      var a := Concat(init);
      forall i ensures !CrCrlfAt(a, i) {
        assert !CrCrlfAt(a + last, i);
      }
      StreamingEqualsBatch(init);
      NormalizeAgain(a, last);
      NormalizeRemovesCrlf(a);
      CutThenFeed(Normalize(a), last);
    }
  }

  // ------------------------------------------------------- and only if

  function Size(frames: seq<string>): nat {
    if frames == [] then 0 else |frames[0]| + 2 + Size(frames[1..])
  }

  lemma {:induction false} SizeConcat(f: seq<string>, g: seq<string>)
    ensures Size(f + g) == Size(f) + Size(g)
  {
    if f == [] {
      assert f + g == g;
    } else {
      assert (f + g)[1..] == f[1..] + g;
      SizeConcat(f[1..], g);
    }
  }

  lemma {:induction false} CutSize(s: string)
    ensures Size(Cut(s).frames) + |Cut(s).rest| == |s|
    decreases |s|
  {
    var k := BlankLine(s);
    if k >= 0 {
      CutSize(s[k + 2..]);
      assert Cut(s).frames[1..] == Cut(s[k + 2..]).frames;
    }
  }

  predicate EndsInCrlf(s: string) {
    |s| >= 2 && s[|s| - 2] == '\r' && s[|s| - 1] == '\n'
  }

  lemma {:induction false} CutKeepsEnd(s: string)
    requires EndsInCrlf(s)
    ensures EndsInCrlf(Cut(s).rest)
    decreases |s|
  {
    var k := BlankLine(s);
    if k >= 0 {
      assert k + 1 != |s| - 2 && k + 1 != |s| - 1;
      CutKeepsEnd(s[k + 2..]);
    }
  }

  lemma {:induction false} NormalizeShrinks(s: string)
    ensures |Normalize(s)| <= |s|
  {
    if s != "" {
      NormalizeShrinks(if |s| >= 2 && s[0] == '\r' && s[1] == '\n' then s[2..] else s[1..]);
    }
  }

  lemma {:induction false} StreamTwo(a: string, b: string)
    ensures Concat([a, b]) == a + b
    ensures Stream([a, b]) == Feed(Cut(Normalize(a)), b)
  {
    assert [a, b][..1] == [a] && [a][..0] == [];
    assert Concat([a]) == "" + a == a;
    var first := Cut(Normalize(a));
    assert Stream([a]) == Feed(Cutting([], ""), a) == first by {
      assert "" + a == a;
    }
  }

  /** A CR before a CRLF makes the split right after it visible. */
  lemma {:induction false} CrCrlfShows(s: string, i: int)
    requires CrCrlfAt(s, i)
    ensures Concat([s[..i + 3], s[i + 3..]]) == s
    ensures Stream([s[..i + 3], s[i + 3..]]) != Batch(s)
  {
    var a, b := s[..i + 3], s[i + 3..];
    assert s == a + b && a == s[..i] + "\r\r\n";
    StreamTwo(a, b);
    NormalizeTail(s[..i]);
    StreamLoses(a, b);
    CutSize(Normalize(s));
  }

  lemma {:induction false} StreamLoses(a: string, b: string)
    requires a != "" && a[|a| - 1] == '\n' && EndsInCrlf(Normalize(a))
    ensures Size(Stream([a, b]).frames) + |Stream([a, b]).rest| < |Normalize(a + b)|
  {
    var first := Cut(Normalize(a));
    var second := Cut(Normalize(first.rest + b));
    StreamTwo(a, b);
    SizeConcat(first.frames, second.frames);
    CutSize(Normalize(a));
    CutSize(Normalize(first.rest + b));
    CutKeepsEnd(Normalize(a));
    NormalizeSplits(a, b);
    RestLoses(first.rest, b);
  }

  lemma {:induction false} RestLoses(rest: string, b: string)
    requires EndsInCrlf(rest)
    ensures |Normalize(rest + b)| < |rest| + |Normalize(b)|
  {
    NormalizeSplits(rest, b);
    DropsOne(rest);
  }

  lemma {:induction false} NormalizeTail(p: string)
    ensures EndsInCrlf(Normalize(p + "\r\r\n"))
  {
    NormalizeSplits(p, "\r\r\n");
    assert "\r\r\n"[1..] == "\r\n" && "\r\n"[2..] == "";
    assert Normalize("\r\n") == "\n" + Normalize("");
    assert Normalize("\r\r\n") == "\r" + Normalize("\r\n") == "\r\n";
  }

  lemma {:induction false} DropsOne(r: string)
    requires EndsInCrlf(r)
    ensures |Normalize(r)| < |r|
  {
    var p := r[..|r| - 2];
    assert r == p + "\r\n";
    NormalizeSplits(p, "\r\n");
    assert "\r\n"[2..] == "";
    assert Normalize("\r\n") == "\n" + Normalize("");
    NormalizeShrinks(p);
  }

  /** The exact condition: every split of a text is invisible if and only if no CR
      stands immediately before a CRLF in it. */
  lemma {:induction false} SplitsInvisibleExactly(s: string)
    ensures (forall chunks :: Concat(chunks) == s ==> Stream(chunks) == Batch(s)) <==> NoCrCrlf(s)
  {
    if NoCrCrlf(s) {
      forall chunks | Concat(chunks) == s ensures Stream(chunks) == Batch(s) {
        StreamingEqualsBatch(chunks);
      }
    } else {
      var i :| CrCrlfAt(s, i);
      CrCrlfShows(s, i);
    }
  }

  // --------------------------------------------------------- frames to events

  datatype Event = Event(kind: string, data: string, id: string)

  datatype Fields = Fields(kind: string, data: string, id: string, hasField: bool)

  function Lines(frame: string): seq<string> {
    if frame == "" then [""]
    else
      var tail := Lines(frame[1..]);
      if frame[0] == '\n' then [""] + tail
      else if tail == [] then [[frame[0]]]
      else [[frame[0]] + tail[0]] + tail[1..]
  }

  function DropSpace(s: string): string {
    if s != "" && s[0] == ' ' then s[1..] else s
  }

  predicate EventLine(line: string) { "event:" <= line }
  predicate DataLine(line: string) { "data:" <= line }
  predicate IdLine(line: string) { "id:" <= line }

  function DataValue(line: string): string
    requires DataLine(line)
  {
    DropSpace(line[5..])
  }

  /** The values of the data lines, in order. */
  function DataValues(lines: seq<string>): seq<string> {
    if lines == [] then []
    else
      DataValues(lines[..|lines| - 1])
      + if DataLine(lines[|lines| - 1]) then [DataValue(lines[|lines| - 1])] else []
  }

  /** Append one value the way the source does: no separator while data is empty. */
  function AppendData(data: string, value: string): string {
    data + (if data != "" then "\n" else "") + value
  }

  function AppendAll(values: seq<string>): string {
    if values == [] then "" else AppendData(AppendAll(values[..|values| - 1]), values[|values| - 1])
  }

  /** The last line of a kind decides, trimmed; otherwise the default. */
  function LastField(lines: seq<string>, prefix: string, default: string): string {
    if lines == [] then default
    else if prefix <= lines[|lines| - 1] then Trim(lines[|lines| - 1][|prefix|..])
    else LastField(lines[..|lines| - 1], prefix, default)
  }

  ghost predicate HasField(lines: seq<string>) {
    exists i :: 0 <= i < |lines| && (EventLine(lines[i]) || DataLine(lines[i]) || IdLine(lines[i]))
  }

  /** What a frame means; None when it carries no field (a keep-alive comment). */
  ghost function FrameEvent(frame: string): Option<Event> {
    var lines := Lines(frame);
    if HasField(lines)
    then Some(Event(LastField(lines, "event:", "message"), AppendAll(DataValues(lines)), LastField(lines, "id:", "")))
    else None
  }

  ghost function Events(frames: seq<string>): seq<Event> {
    if frames == [] then []
    else
      Events(frames[..|frames| - 1]) + Emitted(frames[|frames| - 1])
  }

  ghost function Emitted(frame: string): seq<Event> {
    match FrameEvent(frame) case Some(e) => [e] case None => []
  }

  /** The loop variables of the line loop, after some lines. */
  ghost function FieldsOf(lines: seq<string>): Fields {
    Fields(LastField(lines, "event:", "message"), AppendAll(DataValues(lines)), LastField(lines, "id:", ""), HasField(lines))
  }

  /** One more line, by its prefix; comments and unknown lines change nothing. */
  function WithLine(f: Fields, line: string): Fields {
    if EventLine(line) then f.(kind := Trim(line[6..]), hasField := true)
    else if DataLine(line) then f.(data := AppendData(f.data, DataValue(line)), hasField := true)
    else if IdLine(line) then f.(id := Trim(line[3..]), hasField := true)
    else f
  }

  lemma {:induction false} FieldsStep(lines: seq<string>, n: nat)
    requires n < |lines|
    ensures FieldsOf(lines[..n + 1]) == WithLine(FieldsOf(lines[..n]), lines[n])
  {
    LineStep(lines, n);
    LastFieldStep(lines, n, "event:", "message");
    LastFieldStep(lines, n, "id:", "");
    OnePrefix(lines[n]);
  }

  lemma {:induction false} LastFieldStep(lines: seq<string>, n: nat, prefix: string, default: string)
    requires n < |lines|
    ensures LastField(lines[..n + 1], prefix, default)
         == if prefix <= lines[n] then Trim(lines[n][|prefix|..]) else LastField(lines[..n], prefix, default)
  {
    assert lines[..n + 1][..n] == lines[..n] && lines[..n + 1][n] == lines[n];
  }

  lemma {:induction false} OnePrefix(line: string)
    ensures !(EventLine(line) && DataLine(line)) && !(EventLine(line) && IdLine(line)) && !(DataLine(line) && IdLine(line))
  {
    assert EventLine(line) ==> line[0] == 'e';
    assert DataLine(line) ==> line[0] == 'd';
    assert IdLine(line) ==> line[0] == 'i';
  }

  /** The line loop over one frame. */
  method ParseFrame(frame: string) returns (event: Option<Event>)
    ensures event == FrameEvent(frame)
  {
    var lines := Lines(frame);
    var kind, data, id, hasField := "message", "", "", false;
    assert FieldsOf([]) == Fields(kind, data, id, hasField);
    for n := 0 to |lines|
      invariant FieldsOf(lines[..n]) == Fields(kind, data, id, hasField)
    {
      var line := lines[n];
      FieldsStep(lines, n);
      if line != "" && line[0] == ':' {
        continue;
      }
      if EventLine(line) {
        kind, hasField := Trim(line[6..]), true;
      } else if DataLine(line) {
        data, hasField := AppendData(data, DataValue(line)), true;
      } else if IdLine(line) {
        id, hasField := Trim(line[3..]), true;
      }
    }
    assert lines[..|lines|] == lines;
    event := if hasField then Some(Event(kind, data, id)) else None;
  }

  lemma {:induction false} LineStep(lines: seq<string>, n: nat)
    requires n < |lines|
    ensures HasField(lines[..n + 1]) <==> HasField(lines[..n]) || EventLine(lines[n]) || DataLine(lines[n]) || IdLine(lines[n])
    ensures DataValues(lines[..n + 1]) == DataValues(lines[..n]) + if DataLine(lines[n]) then [DataValue(lines[n])] else []
    ensures AppendAll(DataValues(lines[..n + 1]))
         == if DataLine(lines[n]) then AppendData(AppendAll(DataValues(lines[..n])), DataValue(lines[n]))
            else AppendAll(DataValues(lines[..n]))
  {
    var a, b := lines[..n], lines[..n + 1];
    assert b[..n] == a && b[n] == lines[n];
    if HasField(a) {
      var i :| 0 <= i < |a| && (EventLine(a[i]) || DataLine(a[i]) || IdLine(a[i]));
      assert b[i] == a[i];
    }
    if HasField(b) {
      var i :| 0 <= i < |b| && (EventLine(b[i]) || DataLine(b[i]) || IdLine(b[i]));
      assert i < n ==> a[i] == b[i];
    }
    if DataLine(lines[n]) {
      var v := DataValues(a) + [DataValue(lines[n])];
      assert v[..|v| - 1] == DataValues(a);
    } else {
      assert DataValues(b) == DataValues(a) + [] == DataValues(a);
    }
  }

  lemma {:induction false} EventsConcat(f: seq<string>, g: seq<string>)
    ensures Events(f + g) == Events(f) + Events(g)
  {
    if g == [] {
      assert f + g == f && Events(f) + [] == Events(f);
    } else {
      var h := g[..|g| - 1];
      assert (f + g)[..|f + g| - 1] == f + h;
      EventsConcat(f, h);
    }
  }

  /** The events of a non-empty list of frames start with those of its first frame. */
  lemma {:induction false} EventsCons(frame: string, tail: seq<string>)
    ensures Events([frame] + tail) == Emitted(frame) + Events(tail)
  {
    EventsConcat([frame], tail);
    EventsOne(frame);
  }

  /** Emitting the first frame leaves the events of the others to come. */
  lemma {:induction false} Emits(events: seq<Event>, frame: string, tail: seq<string>, frames: seq<string>)
    requires frames == [frame] + tail
    ensures events + Events(frames) == events + Emitted(frame) + Events(tail)
  {
    EventsCons(frame, tail);
    Associates(events, Emitted(frame), Events(tail));
  }

  lemma {:induction false} Associates<T>(a: seq<T>, b: seq<T>, c: seq<T>)
    ensures a + (b + c) == a + b + c
  {
  }

  lemma {:induction false} EventsOne(frame: string)
    ensures Events([frame]) == Emitted(frame)
  {
    assert [frame][..0] == [];
    assert Events([]) + Emitted(frame) == Emitted(frame);
  }

  /** onEvent for one frame, unless it carries no field. */
  method EmitFrame(before: seq<Event>, frame: string) returns (events: seq<Event>)
    ensures events == before + Emitted(frame)
  {
    var event := ParseFrame(frame);
    events := if event.Some? then before + [event.value] else before;
  }

  /** Part of a text is emitted; the buffer holds the frames and the rest still to come. */
  ghost predicate ToCome(text: string, events: seq<Event>, buf: string) {
    Cut(buf).rest == Cut(text).rest && events + Events(Cut(buf).frames) == Events(Cut(text).frames)
  }

  lemma {:induction false} ToComeStep(text: string, events: seq<Event>, buf: string, sep: nat)
    requires ToCome(text, events, buf) && BlankLine(buf) == sep
    ensures ToCome(text, events + Emitted(buf[..sep]), buf[sep + 2..])
  {
    CutAt(buf, sep);
    Emits(events, buf[..sep], Cut(buf[sep + 2..]).frames, Cut(buf).frames);
  }

  lemma {:induction false} ToComeEnd(text: string, events: seq<Event>, buf: string)
    requires ToCome(text, events, buf) && BlankLine(buf) < 0
    ensures events == Events(Cut(text).frames) && buf == Cut(text).rest
  {
    assert events + [] == events;
  }

  /** The inner loop: emit every complete frame of the buffer. */
  method EmitFrames(text: string) returns (events: seq<Event>, buf: string)
    ensures events == Events(Cut(text).frames) && buf == Cut(text).rest
  {
    events, buf := [], text;
    var sep := BlankLine(buf);
    while sep >= 0
      invariant sep == BlankLine(buf) && ToCome(text, events, buf)
      decreases |buf|
    {
      ToComeStep(text, events, buf, sep);
      events := EmitFrame(events, buf[..sep]);
      buf := buf[sep + 2..];
      sep := BlankLine(buf);
    }
    ToComeEnd(text, events, buf);
  }

  /** streamSessionEvents: the read loop. */
  method StreamEvents(chunks: seq<string>) returns (events: seq<Event>, buf: string)
    ensures events == Events(Stream(chunks).frames) && buf == Stream(chunks).rest
  {
    events, buf := [], "";
    for n := 0 to |chunks|
      invariant events == Events(Stream(chunks[..n]).frames) && buf == Stream(chunks[..n]).rest
    {
      assert chunks[..n + 1][..n] == chunks[..n];
      var text := Normalize(buf + chunks[n]);
      EventsConcat(Stream(chunks[..n]).frames, Cut(text).frames);
      var emitted;
      emitted, buf := EmitFrames(text);
      events := events + emitted;
    }
    assert chunks[..|chunks|] == chunks;
  }

  /** The events of a stream do not depend on how it was split into chunks. */
  lemma {:induction false} EventsIgnoreSplits(chunks: seq<string>)
    requires NoCrCrlf(Concat(chunks))
    ensures Events(Stream(chunks).frames) == Events(Batch(Concat(chunks)).frames)
  {
    StreamingEqualsBatch(chunks);
  }

  // ------------------------------------------------ data lines and the standard

  /** The data of an event in section 9.2 of the WHATWG HTML Living Standard. */
  function JoinLines(values: seq<string>): string {
    if values == [] then ""
    else if |values| == 1 then values[0]
    else JoinLines(values[..|values| - 1]) + "\n" + values[|values| - 1]
  }

  /** The source joins data lines as the standard does exactly when the first of
      several lines is not empty; leading empty lines are lost. */
  lemma {:induction false} DataJoinExactly(values: seq<string>)
    ensures AppendAll(values) == JoinLines(values) <==> |values| <= 1 || values[0] != ""
    ensures |values| >= 2 && values[0] == "" ==> |AppendAll(values)| < |JoinLines(values)|
    ensures values != [] && values[0] != "" ==> AppendAll(values) != ""
  {
    if |values| == 1 {
      assert AppendAll(values[..0]) == "";
    } else if |values| >= 2 {
      DataJoinExactly(values[..|values| - 1]);
    }
  }
}
