/**
 * `subscribeToStatus`: the status endpoint's frames translated into progress
 * snapshots, and what the cancel function returned to the caller does and
 * does not stop.
 */
module StatusStream {
  import opened Wrappers
  import opened Text
  import opened Json
  import opened Sse
  import opened KycTypes
  import opened ChatStream
  import opened Seqs

  datatype StatusCallback = Status(progress: KycProgress) | StatusError(text: string) | StatusComplete

  /**
   * The translation of one frame. `cast` is the unchecked cast of a payload to
   * a progress snapshot. A `stage_update` becomes a snapshot that carries only
   * the current stage (its `String()` form) and nothing else.
   */
  function Translate(ev: Event, cast: Payload -> KycProgress): Option<StatusCallback> {
    if ev.name == "kyc_progress" || ev.name == "init" then Some(Status(cast(ev.payload)))
    else if ev.name == "stage_update" then
      var current := Field(ev.payload, "current_stage");
      if TruthyOpt(current) then Some(Status(KycProgress("", "", Some(ToStr(current.value)), [])))
      else None
    else if ev.name == "complete" then Some(StatusComplete)
    else None
  }

  /** The four names the status endpoint's handler knows, and what each one yields. */
  lemma TranslateByName(ev: Event, cast: Payload -> KycProgress)
    ensures ev.name in {"kyc_progress", "init"} ==> Translate(ev, cast) == Some(Status(cast(ev.payload)))
    ensures ev.name == "stage_update" ==>
      (Translate(ev, cast).Some? <==> TruthyOpt(Field(ev.payload, "current_stage")))
    ensures ev.name == "stage_update" && Translate(ev, cast).Some? ==>
      var pr := Translate(ev, cast).value.progress;
      pr.applicationId == "" && pr.status == "" && pr.stages == []
      && pr.currentStage == Some(ToStr(Field(ev.payload, "current_stage").value))
    ensures ev.name == "stage_update" && Field(ev.payload, "current_stage").Some?
            && Field(ev.payload, "current_stage").value.JStr? && Translate(ev, cast).Some? ==>
      Translate(ev, cast).value.progress.currentStage == Some(Field(ev.payload, "current_stage").value.s)
    ensures ev.name == "complete" ==> Translate(ev, cast) == Some(StatusComplete)
    ensures ev.name !in {"kyc_progress", "init", "stage_update", "complete"} ==> Translate(ev, cast).None?
    ensures Translate(ev, cast).Some? ==> !Translate(ev, cast).value.StatusError?
  {
  }

  function Translated(events: seq<Event>, cast: Payload -> KycProgress): (r: seq<StatusCallback>)
    ensures |r| <= |events|
    ensures forall i | 0 <= i < |r| :: !r[i].StatusError?
    decreases |events|
  {
    if |events| == 0 then []
    else
      var t := Translate(events[0], cast);
      (if t.Some? then [t.value] else []) + Translated(events[1..], cast)
  }

  /**
   * When the cancel function runs, relative to the work of the subscription:
   * never; while the request is pending; after `k` reads have resolved and
   * before the next one starts; or while read `k` is in flight.
   */
  datatype Cancel = NotCancelled | DuringFetch | BeforeRead(k: nat) | DuringRead(k: nat)

  /**
   * The read loop over the reads that start. `lastAborted` says whether the
   * flag was set while the last of them was in flight, which silences a failure
   * of that read.
   */
  function StatusLoop(p: Parser, results: seq<ReadResult>, lastAborted: bool,
                      parse: string -> Option<Json>, cast: Payload -> KycProgress): seq<StatusCallback>
    decreases |results|
  {
    if |results| == 0 then []
    else match results[0]
      case Done => Translated(Flush(p, parse), cast) + [StatusComplete]
      case ReadFailed(e) => if lastAborted && |results| == 1 then [] else [StatusError(e.GetOr("Unknown error"))]
      case Chunk(s) =>
        var pushed := Push(p, s, parse);
        Translated(pushed.1, cast) + StatusLoop(pushed.0, results[1..], lastAborted, parse, cast)
  }

  /** The reads that start: all, the first `k`, or the first `k + 1` when read `k` was in flight. */
  function Started(results: seq<ReadResult>, cancel: Cancel): (r: seq<ReadResult>)
    ensures |r| <= |results| && r == results[..|r|]
  {
    match cancel
    case NotCancelled => results
    case DuringFetch => []
    case BeforeRead(k) => if k <= |results| then results[..k] else results
    case DuringRead(k) => if k + 1 <= |results| then results[..k + 1] else results
  }

  /** The callbacks of one subscription, in order. */
  function Subscription(response: Response, cancel: Cancel,
                        parse: string -> Option<Json>, cast: Payload -> KycProgress): seq<StatusCallback> {
    match response
    case Rejected(e) => if cancel == DuringFetch then [] else [StatusError(e.GetOr("Unknown error"))]
    case NotOk(status, body) => [StatusError(if body != "" then body else "HTTP " + NatToString(status))]
    case NoBody => [StatusError("No response body")]
    case Body(results) =>
      StatusLoop(Initial, Started(results, cancel), cancel.DuringRead? && cancel.k < |results|, parse, cast)
  }

  // ---------------------------------------------------------------------------
  // Cancellation

  /** Reads after the cancel point are never made: the callbacks depend only on the reads before it. */
  lemma CancelStopsNewReads(a: seq<ReadResult>, b: seq<ReadResult>, k: nat,
                            parse: string -> Option<Json>, cast: Payload -> KycProgress)
    requires k <= |a| && k <= |b| && a[..k] == b[..k]
    ensures Subscription(Body(a), BeforeRead(k), parse, cast) == Subscription(Body(b), BeforeRead(k), parse, cast)
    ensures Subscription(Body(a), BeforeRead(k), parse, cast) == Subscription(Body(a[..k]), NotCancelled, parse, cast)
  {
  }

  /** The loop over reads none of which ends the stream: their frames, and no end callback. */
  lemma {:induction false} StatusLoopOpen(p: Parser, texts: seq<string>, lastAborted: bool,
                                          parse: string -> Option<Json>, cast: Payload -> KycProgress)
    ensures StatusLoop(p, Chunks(texts), lastAborted, parse, cast) == Translated(PushAll(p, texts, parse).1, cast)
    decreases |texts|
  {
    if |texts| > 0 {
      var first := Push(p, texts[0], parse);
      assert Chunks(texts)[0] == Chunk(texts[0]);
      assert Chunks(texts)[1..] == Chunks(texts[1..]);
      StatusLoopOpen(first.0, texts[1..], lastAborted, parse, cast);
      TranslatedConcat(first.1, PushAll(first.0, texts[1..], parse).1, cast);
    }
  }

  lemma {:induction false} TranslatedConcat(a: seq<Event>, b: seq<Event>, cast: Payload -> KycProgress)
    ensures Translated(a + b, cast) == Translated(a, cast) + Translated(b, cast)
    decreases |a|
  {
    if |a| == 0 {
      assert a + b == b;
    } else {
      assert (a + b)[1..] == a[1..] + b;
      TranslatedConcat(a[1..], b, cast);
    }
  }

  /**
   * The loop over some chunks and then a last read: the chunks' frames, then
   * what the last read gives.
   */
  lemma {:induction false} StatusLoopThenLast(p: Parser, texts: seq<string>, last: ReadResult, lastAborted: bool,
                                              parse: string -> Option<Json>, cast: Payload -> KycProgress)
    ensures var pushed := PushAll(p, texts, parse);
      StatusLoop(p, Chunks(texts) + [last], lastAborted, parse, cast)
        == Translated(pushed.1, cast) + StatusLoop(pushed.0, [last], lastAborted, parse, cast)
    decreases |texts|
  {
    var results := Chunks(texts) + [last];
    if |texts| == 0 {
      assert results == [last];
      var tail := StatusLoop(p, [last], lastAborted, parse, cast);
      assert [] + tail == tail;
    } else {
      var first := Push(p, texts[0], parse);
      var after := PushAll(first.0, texts[1..], parse);
      var tail := StatusLoop(after.0, [last], lastAborted, parse, cast);
      assert results[0] == Chunk(texts[0]);
      assert results[1..] == Chunks(texts[1..]) + [last];
      assert StatusLoop(p, results, lastAborted, parse, cast)
          == Translated(first.1, cast) + StatusLoop(first.0, results[1..], lastAborted, parse, cast);
      StatusLoopThenLast(first.0, texts[1..], last, lastAborted, parse, cast);
      TranslatedConcat(first.1, after.1, cast);
      assert PushAll(p, texts, parse) == (after.0, first.1 + after.1);
      AppendAssoc(Translated(first.1, cast), Translated(after.1, cast), tail);
    }
  }

  /** Cancelling while read `n` is in flight: the loop runs over the reads up to and including it. */
  lemma SubscriptionDuringRead(results: seq<ReadResult>, n: nat,
                               parse: string -> Option<Json>, cast: Payload -> KycProgress)
    requires n < |results|
    ensures Subscription(Body(results), DuringRead(n), parse, cast)
         == StatusLoop(Initial, results[..n + 1], true, parse, cast)
  {
  }

  /** A failed last read is silent exactly when the flag was set while it was in flight. */
  lemma LastReadFailed(p: Parser, e: Option<string>, lastAborted: bool,
                       parse: string -> Option<Json>, cast: Payload -> KycProgress)
    ensures StatusLoop(p, [ReadFailed(e)], lastAborted, parse, cast)
         == if lastAborted then [] else [StatusError(e.GetOr("Unknown error"))]
  {
  }

  /** A read in flight when the flag is set still has its chunk decoded and its frames delivered. */
  lemma InFlightChunkDelivered(texts: seq<string>, s: string, rest: seq<ReadResult>,
                               parse: string -> Option<Json>, cast: Payload -> KycProgress)
    ensures Subscription(Body(Chunks(texts) + [Chunk(s)] + rest), DuringRead(|texts|), parse, cast)
         == Translated(PushAll(Initial, texts + [s], parse).1, cast)
  {
    SubscriptionDuringRead(Chunks(texts) + [Chunk(s)] + rest, |texts|, parse, cast);
    PrefixThroughElement(Chunks(texts), Chunk(s), rest);
    ChunksSnoc(texts, s);
    StatusLoopOpen(Initial, texts + [s], true, parse, cast);
  }

  /** A read that fails after the flag is set is silent. */
  lemma FailureAfterCancelSilent(texts: seq<string>, e: Option<string>, rest: seq<ReadResult>,
                                 parse: string -> Option<Json>, cast: Payload -> KycProgress)
    ensures Subscription(Body(Chunks(texts) + [ReadFailed(e)] + rest), DuringRead(|texts|), parse, cast)
         == Translated(PushAll(Initial, texts, parse).1, cast)
  {
    var pushed := PushAll(Initial, texts, parse);
    SubscriptionDuringRead(Chunks(texts) + [ReadFailed(e)] + rest, |texts|, parse, cast);
    PrefixThroughElement(Chunks(texts), ReadFailed(e), rest);
    StatusLoopThenLast(Initial, texts, ReadFailed(e), true, parse, cast);
    LastReadFailed(pushed.0, e, true, parse, cast);
    AppendEmpty(Translated(pushed.1, cast));
  }

  /** The same failure without a cancel is reported, after the frames before it. */
  lemma FailureWithoutCancelReported(texts: seq<string>, e: Option<string>,
                                     parse: string -> Option<Json>, cast: Payload -> KycProgress)
    ensures Subscription(Body(Chunks(texts) + [ReadFailed(e)]), NotCancelled, parse, cast)
         == Translated(PushAll(Initial, texts, parse).1, cast) + [StatusError(e.GetOr("Unknown error"))]
  {
    var pushed := PushAll(Initial, texts, parse);
    assert Subscription(Body(Chunks(texts) + [ReadFailed(e)]), NotCancelled, parse, cast)
        == StatusLoop(Initial, Chunks(texts) + [ReadFailed(e)], false, parse, cast);
    StatusLoopThenLast(Initial, texts, ReadFailed(e), false, parse, cast);
    LastReadFailed(pushed.0, e, false, parse, cast);
  }

  /**
   * Cancelling does not silence everything: a non-OK answer to a request that
   * was pending when the flag was set is still reported, and the end of a
   * stream read in flight still completes.
   */
  lemma CancelNotSilent(status: nat, body: string, parse: string -> Option<Json>, cast: Payload -> KycProgress)
    ensures |Subscription(NotOk(status, body), DuringFetch, parse, cast)| == 1
    ensures Subscription(NotOk(status, body), DuringFetch, parse, cast)[0].StatusError?
    ensures Subscription(Body([Done]), DuringRead(0), parse, cast) == [StatusComplete]
    ensures Subscription(Rejected(None), DuringFetch, parse, cast) == []
  {
    assert Flush(Initial, parse) == [];
    assert [Done][..1] == [Done];
  }
}
