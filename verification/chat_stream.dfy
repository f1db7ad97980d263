/**
 * `sendChatMessage`: the request it builds, the way each decoded frame is
 * handed to a callback, and the rules that end the call.
 *
 * The network is abstract: a call meets one `Response`, and a response with a
 * body is the list of results its reader returns, in order. The call's
 * observable behaviour is the list of callbacks it makes.
 */
module ChatStream {
  import opened Wrappers
  import opened Text
  import opened Json
  import opened Sse
  import opened KycTypes

  /** One field of the multipart request, in append order. */
  datatype FormField =
    | TextField(name: string, value: string)
    | FileField(name: string, file: File)
    /** `document_types`, the JSON text of the list (the list is kept, its encoding is not modelled). */
    | TypesField(types: seq<string>)

  /** The form `sendChatMessage` posts. */
  function Form(message: string, sessionId: string, userId: Option<string>,
                documents: seq<File>, documentTypes: seq<string>): (r: seq<FormField>)
    ensures |r| >= 2 && r[0] == TextField("message", message) && r[1] == TextField("session_id", sessionId)
    ensures (exists i | 0 <= i < |r| :: r[i].TypesField?) <==> |documents| > 0 && |documentTypes| > 0
    ensures (exists i | 0 <= i < |r| :: r[i] == TextField("user_id", userId.GetOr("")))
        <==> userId.Some? && userId.value != ""
  {
    var head := [TextField("message", message), TextField("session_id", sessionId)];
    var user := if userId.Some? && userId.value != "" then [TextField("user_id", userId.value)] else [];
    var docs := seq(|documents|, i requires 0 <= i < |documents| => FileField("documents", documents[i]));
    var types := if |documents| > 0 && |documentTypes| > 0 then [TypesField(documentTypes)] else [];
    var r := head + user + docs + types;
    assert |documents| > 0 && |documentTypes| > 0 ==> r[|r| - 1].TypesField?;
    assert userId.Some? && userId.value != "" ==> r[2] == TextField("user_id", userId.GetOr(""));
    r
  }

  /** The files of a form, in order. */
  function FormFiles(form: seq<FormField>): seq<File>
    decreases |form|
  {
    if |form| == 0 then []
    else (if form[0].FileField? then [form[0].file] else []) + FormFiles(form[1..])
  }

  lemma {:induction false} FormFilesConcat(a: seq<FormField>, b: seq<FormField>)
    ensures FormFiles(a + b) == FormFiles(a) + FormFiles(b)
    decreases |a|
  {
    if |a| == 0 {
      assert a + b == b;
    } else {
      assert (a + b)[1..] == a[1..] + b;
      FormFilesConcat(a[1..], b);
      var x := if a[0].FileField? then [a[0].file] else [];
      assert x + (FormFiles(a[1..]) + FormFiles(b)) == (x + FormFiles(a[1..])) + FormFiles(b);
    }
  }

  /** The file fields of a run of `documents` entries hand back the files in order. */
  lemma {:induction false} FormFilesOfDocuments(documents: seq<File>)
    ensures FormFiles(seq(|documents|, i requires 0 <= i < |documents| => FileField("documents", documents[i]))) == documents
    decreases |documents|
  {
    var docs := seq(|documents|, i requires 0 <= i < |documents| => FileField("documents", documents[i]));
    if |documents| > 0 {
      var tail := seq(|documents| - 1, i requires 0 <= i < |documents| - 1 => FileField("documents", documents[1..][i]));
      assert docs[1..] == tail;
      FormFilesOfDocuments(documents[1..]);
      assert documents == [documents[0]] + documents[1..];
    }
  }

  /** The request carries exactly the given files, in the given order. */
  lemma FormCarriesFiles(message: string, sessionId: string, userId: Option<string>,
                         documents: seq<File>, documentTypes: seq<string>)
    ensures FormFiles(Form(message, sessionId, userId, documents, documentTypes)) == documents
  {
    var head := [TextField("message", message), TextField("session_id", sessionId)];
    var user := if userId.Some? && userId.value != "" then [TextField("user_id", userId.value)] else [];
    var docs := seq(|documents|, i requires 0 <= i < |documents| => FileField("documents", documents[i]));
    var types := if |documents| > 0 && |documentTypes| > 0 then [TypesField(documentTypes)] else [];
    assert Form(message, sessionId, userId, documents, documentTypes) == head + user + docs + types;
    FormFilesConcat(head + user + docs, types);
    FormFilesConcat(head + user, docs);
    FormFilesConcat(head, user);
    FormFilesOfDocuments(documents);
    assert FormFiles(head) == [] by {
      assert head[1..][1..] == [];
    }
    assert FormFiles(types) == [] by {
      if |types| > 0 {
        assert types[1..] == [];
      }
    }
    assert FormFiles(user) == [] by {
      if |user| > 0 {
        assert user[1..] == [];
      }
    }
  }

  const StartMessage := "Start identity verification"

  /** `startVerification`: the fixed opening message, sent with the user id and no files. */
  function StartVerificationForm(userId: string, sessionId: string): (r: seq<FormField>)
    ensures |r| >= 2 && r[0] == TextField("message", StartMessage)
    ensures forall i | 0 <= i < |r| :: !r[i].FileField? && !r[i].TypesField?
  {
    Form(StartMessage, sessionId, Some(userId), [], [])
  }

  // ---------------------------------------------------------------------------
  // Callbacks

  /**
   * One callback invocation with its arguments as read from the payload:
   * `None` stands for `undefined`, a field that is absent, or a payload that is
   * a plain string.
   */
  datatype Callback =
    | SessionStart(sessionId: Option<Json>)
    | Text(chunk: Option<Json>)
    | ToolCall(toolName: Option<Json>, toolId: Option<Json>)
    | ToolResult(toolId: Option<Json>, success: Option<Json>)
    | DocumentUploaded(filename: Option<Json>, success: Option<Json>, error: Option<Json>)
    | Progress(payload: Payload)
    | Stop(reason: Option<Json>)
    | Warning(message: Option<Json>)
    | Error(text: string)
    | Complete

  /** The event names `handleEvent` reacts to. */
  const Names: set<string> := {"session", "text", "tool_call", "tool_result", "document_uploaded",
                               "kyc_progress", "stop", "warning", "error"}

  /** `handleEvent`: one frame to at most one callback. */
  function Dispatch(name: string, payload: Payload): Option<Callback> {
    match name
    case "session" => Some(SessionStart(Field(payload, "session_id")))
    case "text" => Some(Text(Field(payload, "text")))
    case "tool_call" => Some(ToolCall(Field(payload, "tool_name"), Field(payload, "tool_id")))
    case "tool_result" => Some(ToolResult(Field(payload, "tool_id"), Field(payload, "success")))
    case "document_uploaded" =>
      Some(DocumentUploaded(Field(payload, "filename"), Field(payload, "success"), Field(payload, "error")))
    case "kyc_progress" => Some(Progress(payload))
    case "stop" => Some(Stop(Field(payload, "reason")))
    case "warning" => Some(Warning(Field(payload, "message")))
    case "error" => Some(Error(PayloadToStr(payload)))
    case _ => None
  }

  /** The event name each callback answers: the inverse of `Dispatch` on names. */
  function NameOf(c: Callback): string {
    match c
    case SessionStart(_) => "session"
    case Text(_) => "text"
    case ToolCall(_, _) => "tool_call"
    case ToolResult(_, _) => "tool_result"
    case DocumentUploaded(_, _, _) => "document_uploaded"
    case Progress(_) => "kyc_progress"
    case Stop(_) => "stop"
    case Warning(_) => "warning"
    case Error(_) => "error"
    case Complete => ""
  }

  /** Each known name fires exactly its own callback; any other name fires none. */
  lemma DispatchByName(name: string, payload: Payload)
    ensures Dispatch(name, payload).Some? <==> name in Names
    ensures Dispatch(name, payload).Some? ==> NameOf(Dispatch(name, payload).value) == name
    ensures Dispatch(name, payload).Some? ==> Dispatch(name, payload).value != Complete
    ensures name == "error" ==> Dispatch(name, payload) == Some(Error(PayloadToStr(payload)))
    ensures name == "kyc_progress" ==> Dispatch(name, payload) == Some(Progress(payload))
  {
  }

  /** The callbacks of a list of decoded frames, in order. */
  function Dispatched(events: seq<Event>): (r: seq<Callback>)
    ensures |r| <= |events|
    ensures forall i | 0 <= i < |r| :: r[i] != Complete
    decreases |events|
  {
    if |events| == 0 then []
    else
      var d := Dispatch(events[0].name, events[0].payload);
      (if d.Some? then [d.value] else []) + Dispatched(events[1..])
  }

  lemma DispatchedSingle(ev: Event)
    ensures var d := Dispatch(ev.name, ev.payload);
      Dispatched([ev]) == if d.Some? then [d.value] else []
  {
    assert [ev][1..] == [];
  }

  lemma {:induction false} DispatchedConcat(a: seq<Event>, b: seq<Event>)
    ensures Dispatched(a + b) == Dispatched(a) + Dispatched(b)
    decreases |a|
  {
    if |a| == 0 {
      assert a + b == b;
    } else {
      assert (a + b)[1..] == a[1..] + b;
      DispatchedConcat(a[1..], b);
    }
  }

  // ---------------------------------------------------------------------------
  // The call

  /**
   * What one `reader.read()` gives: a decoded chunk, the end of the stream, or
   * a thrown error (its message, or None for a value that is not an `Error`).
   */
  datatype ReadResult = Chunk(text: string) | Done | ReadFailed(error: Option<string>)

  /**
   * How the request fared: `fetch` rejected (with the message of the `Error`
   * thrown, or None for a non-`Error` value), a non-OK status with its body
   * text, an OK response without a body, or a body and the reads it yields.
   */
  datatype Response =
    | Rejected(error: Option<string>)
    | NotOk(status: nat, body: string)
    | NoBody
    | Body(results: seq<ReadResult>)

  /** The outer `catch`: a message naming a network error or an abort counts as a normal end. */
  function OuterCatch(error: Option<string>): (r: seq<Callback>)
    ensures |r| == 1
    ensures var msg := error.GetOr("Unknown error");
      r[0] == (if Contains(msg, "network") || Contains(msg, "aborted") then Complete else Error(msg))
  {
    var msg := error.GetOr("Unknown error");
    if !Contains(msg, "network") && !Contains(msg, "aborted") then [Error(msg)] else [Complete]
  }

  /** Ends of the read loop: both `done` and a failed read flush the decoder, then complete. */
  function ReadLoop(p: Parser, results: seq<ReadResult>, parse: string -> Option<Json>): seq<Callback>
    decreases |results|
  {
    if |results| == 0 then []
    else match results[0]
      case Chunk(s) =>
        var pushed := Push(p, s, parse);
        Dispatched(pushed.1) + ReadLoop(pushed.0, results[1..], parse)
      case _ => Dispatched(Flush(p, parse)) + [Complete]
  }

  /** The callbacks of one `sendChatMessage` call, in order. */
  function ChatCall(response: Response, parse: string -> Option<Json>): seq<Callback> {
    match response
    case Rejected(e) => OuterCatch(e)
    case NotOk(status, body) => [Error(if body != "" then body else "HTTP " + NatToString(status))]
    case NoBody => [Error("No response body")]
    case Body(results) => ReadLoop(Initial, results, parse)
  }

  // ---------------------------------------------------------------------------
  // Properties of the call

  /** A read result that ends the loop. */
  predicate Ends(r: ReadResult) {
    !r.Chunk?
  }

  /** The loop has met the end of the stream or a failed read. */
  predicate Terminated(results: seq<ReadResult>) {
    exists i | 0 <= i < |results| :: Ends(results[i])
  }

  /**
   * `onComplete` can only be the last callback, and it comes exactly when the
   * reader reported the end or failed; a stream that is still open has not
   * completed.
   */
  lemma {:induction false} ReadLoopCompletesLast(p: Parser, results: seq<ReadResult>, parse: string -> Option<Json>)
    ensures var r := ReadLoop(p, results, parse);
      && (forall i | 0 <= i < |r| - 1 :: r[i] != Complete)
      && (|r| > 0 && r[|r| - 1] == Complete <==> Terminated(results))
    decreases |results|
  {
    var r := ReadLoop(p, results, parse);
    if |results| > 0 {
      if results[0].Chunk? {
        var pushed := Push(p, results[0].text, parse);
        ReadLoopCompletesLast(pushed.0, results[1..], parse);
        var rest := ReadLoop(pushed.0, results[1..], parse);
        var head := Dispatched(pushed.1);
        assert r == head + rest;
        if Terminated(results[1..]) {
          var i :| 0 <= i < |results[1..]| && Ends(results[1..][i]);
          assert Ends(results[i + 1]);
        }
        if Terminated(results) {
          var i :| 0 <= i < |results| && Ends(results[i]);
          assert i > 0 && Ends(results[1..][i - 1]);
        }
        assert |rest| > 0 ==> r[|r| - 1] == rest[|rest| - 1];
      } else {
        assert Ends(results[0]);
      }
    }
  }

  /** Every call makes at most one `onComplete`, and nothing follows it. */
  lemma ChatCallCompletesLast(response: Response, parse: string -> Option<Json>)
    ensures var r := ChatCall(response, parse);
      forall i | 0 <= i < |r| - 1 :: r[i] != Complete
  {
    if response.Body? {
      ReadLoopCompletesLast(Initial, response.results, parse);
    }
  }

  /** A non-OK response or a missing body gives exactly one `onError` and never `onComplete`. */
  lemma FailedResponseErrorsOnly(response: Response, parse: string -> Option<Json>)
    requires response.NotOk? || response.NoBody?
    ensures var r := ChatCall(response, parse);
      |r| == 1 && r[0].Error? && r[0] != Complete
    ensures response.NotOk? && response.body != "" ==> ChatCall(response, parse) == [Error(response.body)]
  {
  }

  /** The reads of a list of chunks. */
  function Chunks(texts: seq<string>): (r: seq<ReadResult>)
    ensures |r| == |texts| && !Terminated(r)
  {
    seq(|texts|, i requires 0 <= i < |texts| => Chunk(texts[i]))
  }

  lemma ChunksSnoc(texts: seq<string>, s: string)
    ensures Chunks(texts + [s]) == Chunks(texts) + [Chunk(s)]
  {
  }

  /**
   * A stream that ends after some chunks makes the callbacks of those chunks'
   * frames, then those of the frame the flush completes, then `onComplete`;
   * reads after the end are never made.
   */
  lemma {:induction false} ReadLoopIsPushAll(p: Parser, texts: seq<string>, last: ReadResult, rest: seq<ReadResult>,
                                             parse: string -> Option<Json>)
    requires Ends(last)
    ensures var pushed := PushAll(p, texts, parse);
      ReadLoop(p, Chunks(texts) + [last] + rest, parse)
        == Dispatched(pushed.1 + Flush(pushed.0, parse)) + [Complete]
    decreases |texts|
  {
    var results := Chunks(texts) + [last] + rest;
    var pushed := PushAll(p, texts, parse);
    if |texts| == 0 {
      assert results[0] == last;
      assert pushed.1 + Flush(pushed.0, parse) == Flush(p, parse);
    } else {
      var first := Push(p, texts[0], parse);
      var after := PushAll(first.0, texts[1..], parse);
      var tail := after.1 + Flush(after.0, parse);
      assert ReadLoop(p, results, parse) == Dispatched(first.1) + ReadLoop(first.0, results[1..], parse) by {
        assert results[0] == Chunk(texts[0]);
      }
      assert ReadLoop(first.0, results[1..], parse) == Dispatched(tail) + [Complete] by {
        assert results[1..] == Chunks(texts[1..]) + [last] + rest;
        ReadLoopIsPushAll(first.0, texts[1..], last, rest, parse);
      }
      assert pushed.1 + Flush(pushed.0, parse) == first.1 + tail by {
        assert pushed == (after.0, first.1 + after.1);
      }
      DispatchedConcat(first.1, tail);
    }
  }

  /** How the server's bytes were cut into chunks makes no difference to the callbacks. */
  lemma ChunkingIrrelevant(texts: seq<string>, parse: string -> Option<Json>)
    ensures ReadLoop(Initial, Chunks(texts) + [Done], parse)
         == ReadLoop(Initial, [Chunk(Concat(texts)), Done], parse)
  {
    var whole := Concat(texts);
    var pushed := PushAll(Initial, texts, parse);
    assert ReadLoop(Initial, Chunks(texts) + [Done], parse)
        == Dispatched(pushed.1 + Flush(pushed.0, parse)) + [Complete] by {
      ReadLoopIsPushAll(Initial, texts, Done, [], parse);
      assert Chunks(texts) + [Done] + [] == Chunks(texts) + [Done];
    }
    assert pushed == Push(Initial, whole, parse) by {
      PushAllIsPushOfConcat(Initial, texts, parse);
    }
    OneChunkThenDone(Initial, whole, parse);
  }

  /** An exception outside the read loop ends the call normally only for network errors and aborts. */
  lemma OuterCatchBenign(error: Option<string>, parse: string -> Option<Json>)
    ensures var msg := error.GetOr("Unknown error");
      ChatCall(Rejected(error), parse) == [Complete] <==> Contains(msg, "network") || Contains(msg, "aborted")
  {
  }

  /**
   * The test is case-sensitive: a message without a lower-case 'n' or 'a', such
   * as "NetworkError", is reported as an error.
   */
  lemma OuterCatchIsCaseSensitive(msg: string, parse: string -> Option<Json>)
    requires forall i | 0 <= i < |msg| :: msg[i] != 'n' && msg[i] != 'a'
    ensures ChatCall(Rejected(Some(msg)), parse) == [Error(msg)]
  {
    NotContainsWithoutFirstChar(msg, "network");
    NotContainsWithoutFirstChar(msg, "aborted");
  }

  /** One chunk and then the end: that chunk's frames, the flushed frame, `onComplete`. */
  lemma OneChunkThenDone(p: Parser, x: string, parse: string -> Option<Json>)
    ensures var pushed := Push(p, x, parse);
      ReadLoop(p, [Chunk(x), Done], parse) == Dispatched(pushed.1 + Flush(pushed.0, parse)) + [Complete]
  {
    ReadLoopIsPushAll(p, [x], Done, [], parse);
    assert Chunks([x]) + [Done] + [] == [Chunk(x), Done];
    var pushed := Push(p, x, parse);
    assert PushAll(pushed.0, [x][1..], parse) == (pushed.0, []);
    assert pushed.1 + [] == pushed.1;
  }

  /**
   * An `error` frame does not end the call: the server's error gives `onError`,
   * and the end of the stream still gives `onComplete`.
   */
  lemma ErrorFrameThenComplete(data: string, parse: string -> Option<Json>)
    requires Writable(data)
    ensures ChatCall(Body([Chunk(EncodeFrame("error", data)), Done]), parse)
         == [Error(PayloadToStr(Decode(data, parse))), Complete]
  {
    var x := EncodeFrame("error", data);
    var ev := Event("error", Decode(data, parse));
    assert Push(Initial, x, parse) == (Initial, [ev]) by {
      assert Writable("error");
      EncodeFrameRoundTrip("error", data, parse);
    }
    assert [ev] + Flush(Initial, parse) == [ev];
    assert Dispatched([ev]) == [Error(PayloadToStr(Decode(data, parse)))] by {
      DispatchedSingle(ev);
      DispatchByName("error", ev.payload);
    }
    OneChunkThenDone(Initial, x, parse);
  }

  /** The text `event:<name>` LF `data:<data>`, with no newline after the data line. */
  lemma UnterminatedPieces(name: string, data: string)
    requires Writable(name) && Writable(data)
    ensures Split(Normalize("" + ("event:" + name + "\n" + "data:" + data))) == ["event:" + name, "data:" + data]
  {
    var l1 := "event:" + name;
    var l2 := "data:" + data;
    var x := l1 + "\n" + l2;
    assert x == "event:" + name + "\n" + "data:" + data;
    assert Normalize("" + x) == x by {
      assert "" + x == x;
      assert forall i | 0 <= i < |x| :: x[i] != '\r';
      NormalizeNoCr(x);
    }
    assert Split(x) == [l1, l2] by {
      assert NoNewline(l1) && NoNewline(l2);
      SplitConcatNewline(l1);
      SplitNoNewline(l2);
      SplitConcat(l1 + "\n", l2);
      assert [l1, ""][..1] + [l2] == [l1, l2];
    }
  }

  /** A last line without its newline is never decoded: the flush at the end ignores it. */
  lemma UnterminatedDataLineLost(name: string, data: string, parse: string -> Option<Json>)
    requires Writable(name) && Writable(data)
    ensures ReadLoop(Initial, [Chunk("event:" + name + "\n" + "data:" + data), Done], parse) == [Complete]
  {
    var l1 := "event:" + name;
    var l2 := "data:" + data;
    var x := l1 + "\n" + l2;
    assert x == "event:" + name + "\n" + "data:" + data;
    assert Push(Initial, x, parse) == (Parser(l2, Frame(name, "")), []) by {
      UnterminatedPieces(name, data);
      var pieces := [l1, l2];
      assert pieces[..|pieces| - 1] == [l1] + [];
      EventLineSetsName(EmptyFrame, name, parse);
      LinesCons(EmptyFrame, l1, [], parse);
    }
    assert [] + Flush(Parser(l2, Frame(name, "")), parse) == [];
    OneChunkThenDone(Initial, x, parse);
  }
}
