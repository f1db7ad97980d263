/**
 * The line-framed event-stream decoder of the chat client (`createSseParser`).
 *
 * It reads the `event:`/`data:` framing of server-sent events (WHATWG HTML
 * Standard, section 9.2 "Server-sent events"), but with its own rules:
 * a `data:` line overwrites the pending data instead of appending to it, field
 * values are trimmed, nothing is dispatched without an event name, and a blank
 * line after an incomplete frame changes nothing.
 *
 * `push` and `flush` are transitions on a `Parser` record that return the
 * events they emit, in order.
 */
module Sse {
  import opened Wrappers
  import opened Text
  import opened Json

  /** The frame being accumulated: last `event:` and last `data:` value seen. */
  datatype Frame = Frame(eventType: string, data: string)

  /** Decoder state: the unterminated last line, and the pending frame. */
  datatype Parser = Parser(buffer: string, frame: Frame)

  /** One dispatched frame: its event name and its decoded payload. */
  datatype Event = Event(name: string, payload: Payload)

  const EmptyFrame := Frame("", "")
  const Initial := Parser("", EmptyFrame)

  predicate NoNewline(s: string) {
    forall i | 0 <= i < |s| :: s[i] != '\n'
  }

  // ---------------------------------------------------------------------------
  // Line splitting

  /** `text.replace(/\r\n/g, '\n')`: one left-to-right pass over non-overlapping CR LF pairs. */
  function Normalize(s: string): string
    decreases |s|
  {
    if |s| >= 2 && s[0] == '\r' && s[1] == '\n' then "\n" + Normalize(s[2..])
    else if |s| == 0 then ""
    else [s[0]] + Normalize(s[1..])
  }

  /** `text.split('\n')`: always at least one piece, and no piece holds a newline. */
  function Split(s: string): (r: seq<string>)
    ensures |r| >= 1
    ensures forall k | 0 <= k < |r| :: NoNewline(r[k])
    ensures !NoNewline(s) ==> |r| >= 2
    decreases |s|
  {
    if |s| == 0 then [""]
    else
      var rest := Split(s[1..]);
      if s[0] == '\n' then [""] + rest
      else [[s[0]] + rest[0]] + rest[1..]
  }

  /** The payload of a frame: the JSON value if `data` parses, the raw text otherwise. */
  function Decode(data: string, parse: string -> Option<Json>): Payload {
    match parse(data)
    case Some(j) => Parsed(j)
    case None => Raw(data)
  }

  // ---------------------------------------------------------------------------
  // Line interpretation

  /** One complete line applied to the pending frame. */
  function Line(f: Frame, line: string, parse: string -> Option<Json>): (Frame, seq<Event>) {
    if StartsWith(line, "event:") then (f.(eventType := Trim(line[6..])), [])
    else if StartsWith(line, "data:") then (f.(data := Trim(line[5..])), [])
    else if line == "" && f.eventType != "" && f.data != "" then
      (EmptyFrame, [Event(f.eventType, Decode(f.data, parse))])
    else (f, [])
  }

  /**
   * What one line does: an `event:` or `data:` line overwrites that field with
   * its trimmed value; a blank line after a complete frame emits it and clears
   * the frame; every other line, including a blank one after an incomplete
   * frame, changes nothing.
   */
  lemma LineEffect(f: Frame, line: string, parse: string -> Option<Json>)
    ensures var r := Line(f, line, parse);
      && |r.1| <= 1
      && (|r.1| == 1 <==> line == "" && f.eventType != "" && f.data != "")
      && (|r.1| == 1 ==> r.0 == EmptyFrame && r.1[0] == Event(f.eventType, Decode(f.data, parse)))
      && (StartsWith(line, "event:") ==> r.0 == f.(eventType := Trim(line[6..])))
      && (StartsWith(line, "data:") ==> r.0 == f.(data := Trim(line[5..])))
      && (!StartsWith(line, "event:") && !StartsWith(line, "data:") && |r.1| == 0 ==> r.0 == f)
  {
    FieldPrefixesExclusive(line);
  }

  /** No line starts with both field names, and the blank line starts with neither. */
  lemma FieldPrefixesExclusive(line: string)
    ensures !(StartsWith(line, "event:") && StartsWith(line, "data:"))
    ensures line == "" ==> !StartsWith(line, "event:") && !StartsWith(line, "data:")
  {
    if StartsWith(line, "event:") {
      assert line[0] == line[..6][0] == 'e';
    }
    if StartsWith(line, "data:") {
      assert line[0] == line[..5][0] == 'd';
    }
  }

  /** The complete lines of one push, applied in order. */
  function Lines(f: Frame, lines: seq<string>, parse: string -> Option<Json>): (Frame, seq<Event>)
    decreases |lines|
  {
    if |lines| == 0 then (f, [])
    else
      var first := Line(f, lines[0], parse);
      var rest := Lines(first.0, lines[1..], parse);
      (rest.0, first.1 + rest.1)
  }

  /** Applying a first line, then the rest. */
  lemma LinesCons(f: Frame, line: string, rest: seq<string>, parse: string -> Option<Json>)
    ensures var first := Line(f, line, parse);
      var after := Lines(first.0, rest, parse);
      Lines(f, [line] + rest, parse) == (after.0, first.1 + after.1)
  {
    assert ([line] + rest)[0] == line;
    assert ([line] + rest)[1..] == rest;
  }

  /** `push(chunk)`: append, normalise line ends, split, keep the last piece, apply the others. */
  function Push(p: Parser, chunk: string, parse: string -> Option<Json>): (r: (Parser, seq<Event>))
    ensures NoNewline(r.0.buffer)
  {
    Feed(p.frame, Split(Normalize(p.buffer + chunk)), parse)
  }

  /** Applies every piece but the last, which becomes the new buffer. */
  function Feed(f: Frame, pieces: seq<string>, parse: string -> Option<Json>): (r: (Parser, seq<Event>))
    requires |pieces| >= 1
    ensures r.0.buffer == pieces[|pieces| - 1]
  {
    var applied := Lines(f, pieces[..|pieces| - 1], parse);
    (Parser(pieces[|pieces| - 1], applied.0), applied.1)
  }

  /** `flush()`: the pending frame, if complete; the buffer is ignored and nothing is reset. */
  function Flush(p: Parser, parse: string -> Option<Json>): (r: seq<Event>)
    ensures |r| <= 1
    ensures |r| == 1 <==> p.frame.eventType != "" && p.frame.data != ""
    ensures |r| == 1 ==> r[0] == Event(p.frame.eventType, Decode(p.frame.data, parse))
  {
    if p.frame.eventType != "" && p.frame.data != "" then
      [Event(p.frame.eventType, Decode(p.frame.data, parse))]
    else []
  }

  /** A sequence of pushes, one per chunk, events concatenated in order. */
  function PushAll(p: Parser, chunks: seq<string>, parse: string -> Option<Json>): (Parser, seq<Event>)
    decreases |chunks|
  {
    if |chunks| == 0 then (p, [])
    else
      var first := Push(p, chunks[0], parse);
      var rest := PushAll(first.0, chunks[1..], parse);
      (rest.0, first.1 + rest.1)
  }

  function Concat(chunks: seq<string>): string
    decreases |chunks|
  {
    if |chunks| == 0 then "" else chunks[0] + Concat(chunks[1..])
  }

  // ---------------------------------------------------------------------------
  // Facts about normalisation and splitting

  /** Index just past the last newline of `x` (0 when there is none). */
  function LastLineStart(x: string): (k: nat)
    ensures k <= |x|
    ensures k == 0 || x[k - 1] == '\n'
    ensures NoNewline(x[k..])
    decreases |x|
  {
    if |x| == 0 then 0
    else if x[|x| - 1] == '\n' then |x|
    else
      var k := LastLineStart(x[..|x| - 1]);
      assert x[k..] == x[..|x| - 1][k..] + [x[|x| - 1]];
      k
  }

  /** Normalisation does not look across a boundary that does not follow a carriage return. */
  lemma {:induction false} NormalizeConcat(a: string, b: string)
    requires |a| == 0 || a[|a| - 1] != '\r'
    ensures Normalize(a + b) == Normalize(a) + Normalize(b)
    decreases |a|
  {
    if |a| == 0 {
      assert a + b == b;
    } else if |a| >= 2 && a[0] == '\r' && a[1] == '\n' {
      assert (a + b)[0] == '\r' && (a + b)[1] == '\n';
      assert (a + b)[2..] == a[2..] + b;
      NormalizeConcat(a[2..], b);
      assert Normalize(a + b) == "\n" + Normalize(a[2..] + b);
    } else {
      assert (a + b)[0] == a[0];
      assert |a| >= 2 ==> (a + b)[1] == a[1];
      assert !(|a + b| >= 2 && (a + b)[0] == '\r' && (a + b)[1] == '\n');
      assert (a + b)[1..] == a[1..] + b;
      NormalizeConcat(a[1..], b);
      assert Normalize(a + b) == [a[0]] + Normalize(a[1..] + b);
    }
  }

  lemma {:induction false} NormalizeNoNewline(s: string)
    requires NoNewline(s)
    ensures Normalize(s) == s
    decreases |s|
  {
    if |s| > 0 {
      NormalizeNoNewline(s[1..]);
    }
  }

  lemma {:induction false} NormalizeKeepsFinalNewline(s: string)
    requires |s| > 0 && s[|s| - 1] == '\n'
    ensures |Normalize(s)| > 0 && Normalize(s)[|Normalize(s)| - 1] == '\n'
    decreases |s|
  {
    if |s| >= 2 && s[0] == '\r' && s[1] == '\n' {
      if |s| > 2 {
        NormalizeKeepsFinalNewline(s[2..]);
      }
    } else if |s| > 1 {
      NormalizeKeepsFinalNewline(s[1..]);
    }
  }

  /** Splitting after a newline: the pieces of the left part, minus its empty last piece, then the right part's. */
  lemma {:induction false} SplitConcat(a: string, b: string)
    requires |a| == 0 || a[|a| - 1] == '\n'
    ensures Split(a + b) == Split(a)[..|Split(a)| - 1] + Split(b)
    decreases |a|
  {
    if |a| == 0 {
      assert a + b == b;
    } else {
      assert (a + b)[1..] == a[1..] + b;
      if |a| == 1 {
        assert a[1..] == [];
        assert a + b == "\n" + b;
      } else {
        SplitConcat(a[1..], b);
      }
    }
  }

  lemma {:induction false} SplitNoNewline(s: string)
    requires NoNewline(s)
    ensures Split(s) == [s]
    decreases |s|
  {
    if |s| > 0 {
      assert NoNewline(s[1..]);
      SplitNoNewline(s[1..]);
      assert [s[0]] + s[1..] == s;
    }
  }

  /** The pieces of `x` are the complete lines before its last newline, then the raw tail after it. */
  lemma TailDecomposition(x: string)
    ensures var k := LastLineStart(x);
      var pieces := Split(Normalize(x));
      && pieces[|pieces| - 1] == x[k..]
      && pieces == Split(Normalize(x[..k]))[..|Split(Normalize(x[..k]))| - 1] + [x[k..]]
  {
    var k := LastLineStart(x);
    var p, q := x[..k], x[k..];
    assert x == p + q;
    NormalizeConcat(p, q);
    NormalizeNoNewline(q);
    if k > 0 {
      NormalizeKeepsFinalNewline(p);
    }
    SplitConcat(Normalize(p), q);
    SplitNoNewline(q);
  }

  /** A left fold of a line step over lines, events concatenated in order. */
  function Fold(step: (Frame, string) -> (Frame, seq<Event>), f: Frame, lines: seq<string>): (Frame, seq<Event>)
    decreases |lines|
  {
    if |lines| == 0 then (f, [])
    else
      var first := step(f, lines[0]);
      var rest := Fold(step, first.0, lines[1..]);
      (rest.0, first.1 + rest.1)
  }

  function LineStep(parse: string -> Option<Json>): (Frame, string) -> (Frame, seq<Event>) {
    (g, l) => Line(g, l, parse)
  }

  /** Folding in two batches equals folding at once, whatever the step. */
  lemma {:induction false} FoldConcat(step: (Frame, string) -> (Frame, seq<Event>), f: Frame, a: seq<string>, b: seq<string>)
    ensures Fold(step, f, a + b)
         == (Fold(step, Fold(step, f, a).0, b).0, Fold(step, f, a).1 + Fold(step, Fold(step, f, a).0, b).1)
    decreases |a|
  {
    if |a| == 0 {
      assert a + b == b;
      assert [] + Fold(step, f, b).1 == Fold(step, f, b).1;
    } else {
      var first := step(f, a[0]);
      var mid := Fold(step, first.0, a[1..]);
      var last := Fold(step, mid.0, b);
      FoldConcat(step, first.0, a[1..], b);
      assert (a + b)[0] == a[0];
      assert (a + b)[1..] == a[1..] + b;
      assert first.1 + (mid.1 + last.1) == (first.1 + mid.1) + last.1;
    }
  }

  /** `Lines` is the fold of `Line`. */
  lemma {:induction false} LinesIsFold(f: Frame, lines: seq<string>, parse: string -> Option<Json>)
    ensures Lines(f, lines, parse) == Fold(LineStep(parse), f, lines)
    decreases |lines|
  {
    if |lines| > 0 {
      LinesIsFold(Line(f, lines[0], parse).0, lines[1..], parse);
    }
  }

  /** Lines applied in two batches equal the lines applied at once. */
  lemma LinesConcat(f: Frame, a: seq<string>, b: seq<string>, parse: string -> Option<Json>)
    ensures Lines(f, a + b, parse)
         == (Lines(Lines(f, a, parse).0, b, parse).0, Lines(f, a, parse).1 + Lines(Lines(f, a, parse).0, b, parse).1)
  {
    LinesIsFold(f, a + b, parse);
    LinesIsFold(f, a, parse);
    LinesIsFold(Lines(f, a, parse).0, b, parse);
    FoldConcat(LineStep(parse), f, a, b);
  }

  // ---------------------------------------------------------------------------
  // Properties

  /**
   * Chunk boundaries do not matter: two pushes emit the same events, and leave
   * the same state, as one push of the joined text. This holds even when a
   * carriage return and its line feed arrive in different chunks.
   */
  /** The pieces of `x + b`: the complete lines of `x`, then the pieces of its tail followed by `b`. */
  lemma PiecesAfterTail(x: string, b: string)
    ensures var k := LastLineStart(x);
      var SP := Split(Normalize(x[..k]));
      Split(Normalize(x + b)) == SP[..|SP| - 1] + Split(Normalize(x[k..] + b))
  {
    var k := LastLineStart(x);
    var P, Q := x[..k], x[k..];
    assert x + b == P + (Q + b);
    NormalizeConcat(P, Q + b);
    if k > 0 {
      NormalizeKeepsFinalNewline(P);
    }
    SplitConcat(Normalize(P), Normalize(Q + b));
  }

  /** The lines of `x` that a push applies: everything before its last newline. */
  function CompleteLines(x: string): seq<string> {
    var SP := Split(Normalize(x[..LastLineStart(x)]));
    SP[..|SP| - 1]
  }

  /** A push applies the complete lines of the buffered text and keeps the raw tail. */
  lemma PushShape(p: Parser, chunk: string, parse: string -> Option<Json>)
    ensures var x := p.buffer + chunk;
      var applied := Lines(p.frame, CompleteLines(x), parse);
      Push(p, chunk, parse) == (Parser(x[LastLineStart(x)..], applied.0), applied.1)
  {
    var x := p.buffer + chunk;
    TailDecomposition(x);
    var init := CompleteLines(x);
    assert (init + [x[LastLineStart(x)..]])[..|init|] == init;
  }

  /** Feeding pieces `init + T` applies `init` and all of `T` but its last piece. */
  lemma FeedConcat(f: Frame, init: seq<string>, T: seq<string>, parse: string -> Option<Json>)
    requires |T| >= 1
    ensures var applied := Lines(f, init + T[..|T| - 1], parse);
      Feed(f, init + T, parse) == (Parser(T[|T| - 1], applied.0), applied.1)
  {
    assert (init + T)[..|init + T| - 1] == init + T[..|T| - 1];
  }

  /** Pushing `a + b` applies the complete lines of `buffer + a`, then those of its tail followed by `b`. */
  lemma PushConcatShape(p: Parser, a: string, b: string, parse: string -> Option<Json>)
    ensures var x := p.buffer + a;
      var T := Split(Normalize(x[LastLineStart(x)..] + b));
      var applied := Lines(p.frame, CompleteLines(x) + T[..|T| - 1], parse);
      Push(p, a + b, parse) == (Parser(T[|T| - 1], applied.0), applied.1)
  {
    var x := p.buffer + a;
    var T := Split(Normalize(x[LastLineStart(x)..] + b));
    var pieces := Split(Normalize(p.buffer + (a + b)));
    assert pieces == CompleteLines(x) + T by {
      assert p.buffer + (a + b) == x + b;
      PiecesAfterTail(x, b);
    }
    assert Push(p, a + b, parse) == Feed(p.frame, pieces, parse);
    FeedConcat(p.frame, CompleteLines(x), T, parse);
  }

  lemma PushSplitAnywhere(p: Parser, a: string, b: string, parse: string -> Option<Json>)
    ensures Push(p, a + b, parse)
         == (Push(Push(p, a, parse).0, b, parse).0, Push(p, a, parse).1 + Push(Push(p, a, parse).0, b, parse).1)
  {
    var x := p.buffer + a;
    var k := LastLineStart(x);
    var T := Split(Normalize(x[k..] + b));
    var first := Lines(p.frame, CompleteLines(x), parse);
    PushShape(p, a, parse);
    PushConcatShape(p, a, b, parse);
    LinesConcat(p.frame, CompleteLines(x), T[..|T| - 1], parse);
  }

  /** Any chunking of a text, pushed chunk by chunk, decodes exactly like the text pushed whole. */
  lemma {:induction false} PushAllIsPushOfConcat(p: Parser, chunks: seq<string>, parse: string -> Option<Json>)
    requires NoNewline(p.buffer)
    ensures PushAll(p, chunks, parse) == Push(p, Concat(chunks), parse)
    decreases |chunks|
  {
    if |chunks| == 0 {
      assert p.buffer + "" == p.buffer;
      NormalizeNoNewline(p.buffer);
      SplitNoNewline(p.buffer);
    } else {
      var (p1, _) := Push(p, chunks[0], parse);
      PushAllIsPushOfConcat(p1, chunks[1..], parse);
      PushSplitAnywhere(p, chunks[0], Concat(chunks[1..]), parse);
    }
  }

  // ---------------------------------------------------------------------------
  // Round trip: frames written in the wire format decode to themselves

  /** A field value the encoder can write: non-empty, already trimmed, on one line. */
  predicate Writable(s: string) {
    s != [] && IsTrimmed(s) && NoNewline(s) && forall i | 0 <= i < |s| :: s[i] != '\r'
  }

  /** One frame in the wire format, terminated by a blank line. */
  function EncodeFrame(name: string, data: string): string {
    "event:" + name + "\n" + "data:" + data + "\n\n"
  }

  function EncodeAll(frames: seq<(string, string)>): string
    decreases |frames|
  {
    if |frames| == 0 then "" else EncodeFrame(frames[0].0, frames[0].1) + EncodeAll(frames[1..])
  }

  lemma NormalizeNoCr(s: string)
    requires forall i | 0 <= i < |s| :: s[i] != '\r'
    ensures Normalize(s) == s
  {
    if |s| > 0 {
      NormalizeNoCr(s[1..]);
    }
  }

  /** An encoded frame splits into its two field lines, the blank line, and an empty tail. */
  lemma EncodedFramePieces(name: string, data: string)
    requires Writable(name) && Writable(data)
    ensures Split(Normalize(EncodeFrame(name, data))) == ["event:" + name, "data:" + data, "", ""]
  {
    var l1 := "event:" + name;
    var l2 := "data:" + data;
    var x := EncodeFrame(name, data);
    assert forall i | 0 <= i < |x| :: x[i] != '\r';
    NormalizeNoCr(x);
    var rest := l2 + "\n" + "\n";
    assert x == (l1 + "\n") + rest;
    assert rest == (l2 + "\n") + "\n";
    assert NoNewline(l1) && NoNewline(l2);
    SplitConcatNewline(l1);
    SplitConcatNewline(l2);
    SplitConcatNewline("");
    assert "" + "\n" == "\n";
    SplitConcat(l1 + "\n", rest);
    SplitConcat(l2 + "\n", "\n");
  }

  /** A frame pushed on an idle decoder is emitted exactly once, and the decoder is idle again. */
  lemma EncodeFrameRoundTrip(name: string, data: string, parse: string -> Option<Json>)
    requires Writable(name) && Writable(data)
    ensures Push(Initial, EncodeFrame(name, data), parse) == (Initial, [Event(name, Decode(data, parse))])
  {
    var pieces := ["event:" + name, "data:" + data, "", ""];
    assert Split(Normalize("" + EncodeFrame(name, data))) == pieces by {
      assert "" + EncodeFrame(name, data) == EncodeFrame(name, data);
      EncodedFramePieces(name, data);
    }
    assert pieces[..|pieces| - 1] == ["event:" + name, "data:" + data, ""];
    FrameLinesApplied(name, data, parse);
  }

  /** An `event:` line carrying a trimmed name sets exactly that name. */
  lemma EventLineSetsName(f: Frame, name: string, parse: string -> Option<Json>)
    requires IsTrimmed(name)
    ensures Line(f, "event:" + name, parse) == (f.(eventType := name), [])
  {
    var l := "event:" + name;
    assert StartsWith(l, "event:") && l[6..] == name;
    TrimOfTrimmed(name);
  }

  /** A `data:` line carrying trimmed text sets exactly that text. */
  lemma DataLineSetsData(f: Frame, data: string, parse: string -> Option<Json>)
    requires IsTrimmed(data)
    ensures Line(f, "data:" + data, parse) == (f.(data := data), [])
  {
    var l := "data:" + data;
    assert StartsWith(l, "data:") && l[5..] == data;
    FieldPrefixesExclusive(l);
    TrimOfTrimmed(data);
  }

  /** Applying a line whose effect is known, then lines whose effect is known. */
  lemma LinesConsKnown(f: Frame, line: string, rest: seq<string>, parse: string -> Option<Json>,
                       g: Frame, es: seq<Event>, h: Frame, fs: seq<Event>)
    requires Line(f, line, parse) == (g, es)
    requires Lines(g, rest, parse) == (h, fs)
    ensures Lines(f, [line] + rest, parse) == (h, es + fs)
  {
    LinesCons(f, line, rest, parse);
  }

  /** A line that emits nothing only hands its frame on to the lines after it. */
  lemma QuietLineThen(f: Frame, line: string, g: Frame, rest: seq<string>, parse: string -> Option<Json>)
    requires Line(f, line, parse) == (g, [])
    ensures Lines(f, [line] + rest, parse) == Lines(g, rest, parse)
  {
    var after := Lines(g, rest, parse);
    LinesConsKnown(f, line, rest, parse, g, [], after.0, after.1);
    assert [] + after.1 == after.1;
  }

  lemma EventLineThen(f: Frame, name: string, rest: seq<string>, parse: string -> Option<Json>)
    requires IsTrimmed(name)
    ensures Lines(f, ["event:" + name] + rest, parse) == Lines(f.(eventType := name), rest, parse)
  {
    EventLineSetsName(f, name, parse);
    QuietLineThen(f, "event:" + name, f.(eventType := name), rest, parse);
  }

  lemma DataLineThen(f: Frame, data: string, rest: seq<string>, parse: string -> Option<Json>)
    requires IsTrimmed(data)
    ensures Lines(f, ["data:" + data] + rest, parse) == Lines(f.(data := data), rest, parse)
  {
    DataLineSetsData(f, data, parse);
    QuietLineThen(f, "data:" + data, f.(data := data), rest, parse);
  }

  /** A blank line after a complete frame emits it and clears the frame. */
  lemma BlankLineEmits(name: string, data: string, parse: string -> Option<Json>)
    requires name != [] && data != []
    ensures Lines(Frame(name, data), [""], parse) == (EmptyFrame, [Event(name, Decode(data, parse))])
  {
    var ev := Event(name, Decode(data, parse));
    FieldPrefixesExclusive("");
    assert Line(Frame(name, data), "", parse) == (EmptyFrame, [ev]);
    LinesConsKnown(Frame(name, data), "", [], parse, EmptyFrame, [ev], EmptyFrame, []);
    assert [""] + [] == [""] && [ev] + [] == [ev];
  }

  /** A `data:` line and a blank line after a named frame emit that frame with the data. */
  lemma DataThenBlank(g: Frame, data: string, parse: string -> Option<Json>)
    requires g.eventType != [] && data != [] && IsTrimmed(data)
    ensures Lines(g, ["data:" + data, ""], parse) == (EmptyFrame, [Event(g.eventType, Decode(data, parse))])
  {
    DataLineThen(g, data, [""], parse);
    assert ["data:" + data] + [""] == ["data:" + data, ""];
    assert g.(data := data) == Frame(g.eventType, data);
    BlankLineEmits(g.eventType, data, parse);
  }

  /** The three lines of an encoded frame, whatever frame was pending, fill a frame and then emit it. */
  lemma FrameLinesFrom(f: Frame, name: string, data: string, parse: string -> Option<Json>)
    requires name != [] && data != [] && IsTrimmed(name) && IsTrimmed(data)
    ensures Lines(f, ["event:" + name, "data:" + data, ""], parse)
         == (EmptyFrame, [Event(name, Decode(data, parse))])
  {
    var l1, l2 := "event:" + name, "data:" + data;
    EventLineThen(f, name, [l2, ""], parse);
    DataThenBlank(f.(eventType := name), data, parse);
    assert [l1] + [l2, ""] == [l1, l2, ""];
  }

  /** The three lines of an encoded frame fill the frame and then emit it. */
  lemma FrameLinesApplied(name: string, data: string, parse: string -> Option<Json>)
    requires name != [] && data != [] && IsTrimmed(name) && IsTrimmed(data)
    ensures Lines(EmptyFrame, ["event:" + name, "data:" + data, ""], parse)
         == (EmptyFrame, [Event(name, Decode(data, parse))])
  {
    FrameLinesFrom(EmptyFrame, name, data, parse);
  }

  lemma {:induction false} SplitConcatNewline(s: string)
    requires NoNewline(s)
    ensures Split(s + "\n") == [s, ""]
    decreases |s|
  {
    if |s| == 0 {
      assert s + "\n" == "\n";
    } else {
      assert (s + "\n")[1..] == s[1..] + "\n";
      assert NoNewline(s[1..]);
      SplitConcatNewline(s[1..]);
      assert [s[0]] + s[1..] == s;
    }
  }

  /** One frame with CR LF line ends, as a server on another platform may write it. */
  function EncodeFrameCrLf(name: string, data: string): string {
    "event:" + name + "\r\n" + "data:" + data + "\r\n\r\n"
  }

  /** A line without carriage returns followed by CR LF normalises to the line and LF. */
  lemma NormalizeCrLfLine(l: string, t: string)
    requires forall i | 0 <= i < |l| :: l[i] != '\r'
    ensures Normalize(l + "\r\n" + t) == l + "\n" + Normalize(t)
  {
    assert l + "\r\n" + t == l + ("\r\n" + t);
    NormalizeConcat(l, "\r\n" + t);
    NormalizeNoCr(l);
    assert ("\r\n" + t)[2..] == t;
  }

  lemma NormalizeCrLfFrame(name: string, data: string)
    requires Writable(name) && Writable(data)
    ensures Normalize(EncodeFrameCrLf(name, data)) == EncodeFrame(name, data)
  {
    var l1 := "event:" + name;
    var l2 := "data:" + data;
    assert EncodeFrameCrLf(name, data) == l1 + "\r\n" + (l2 + "\r\n" + ("" + "\r\n" + ""));
    assert forall i | 0 <= i < |l1| :: l1[i] != '\r';
    assert forall i | 0 <= i < |l2| :: l2[i] != '\r';
    NormalizeCrLfLine("", "");
    NormalizeCrLfLine(l2, "" + "\r\n" + "");
    NormalizeCrLfLine(l1, l2 + "\r\n" + ("" + "\r\n" + ""));
    assert EncodeFrame(name, data) == l1 + "\n" + (l2 + "\n" + ("" + "\n" + ""));
  }

  /** CR LF line ends decode exactly as LF line ends do. */
  lemma CrLfFrameRoundTrip(name: string, data: string, parse: string -> Option<Json>)
    requires Writable(name) && Writable(data)
    ensures Push(Initial, EncodeFrameCrLf(name, data), parse) == (Initial, [Event(name, Decode(data, parse))])
  {
    var lf := EncodeFrame(name, data);
    var crlf := EncodeFrameCrLf(name, data);
    NormalizeCrLfFrame(name, data);
    assert forall i | 0 <= i < |lf| :: lf[i] != '\r';
    NormalizeNoCr(lf);
    assert "" + crlf == crlf && "" + lf == lf;
    assert Split(Normalize("" + crlf)) == Split(Normalize("" + lf));
    EncodeFrameRoundTrip(name, data, parse);
  }

  /** Frames written back to back, in any chunking, decode to exactly those frames in order. */
  lemma {:induction false} EncodeAllRoundTrip(frames: seq<(string, string)>, parse: string -> Option<Json>)
    requires forall i | 0 <= i < |frames| :: Writable(frames[i].0) && Writable(frames[i].1)
    ensures Push(Initial, EncodeAll(frames), parse).0 == Initial
    ensures Push(Initial, EncodeAll(frames), parse).1
         == seq(|frames|, i requires 0 <= i < |frames| => Event(frames[i].0, Decode(frames[i].1, parse)))
    decreases |frames|
  {
    if |frames| == 0 {
      assert Normalize("") == "";
    } else {
      var head := EncodeFrame(frames[0].0, frames[0].1);
      var tail := EncodeAll(frames[1..]);
      EncodeFrameRoundTrip(frames[0].0, frames[0].1, parse);
      EncodeAllRoundTrip(frames[1..], parse);
      PushSplitAnywhere(Initial, head, tail, parse);
      var want := seq(|frames|, i requires 0 <= i < |frames| => Event(frames[i].0, Decode(frames[i].1, parse)));
      var rest := seq(|frames| - 1, i requires 0 <= i < |frames| - 1 => Event(frames[i + 1].0, Decode(frames[i + 1].1, parse)));
      assert Push(Initial, tail, parse).1 == rest;
      assert want == [Event(frames[0].0, Decode(frames[0].1, parse))] + rest;
    }
  }
}
