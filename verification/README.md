# KYC front end — a Dafny model

This project models the client-side logic of an insurance portal's identity
verification (KYC) front end and its compliance review screens. The system is
a Next.js application. The model covers the following, in its own terms:

- **The streaming chat call.** The multipart form it posts and the
  server-sent-events decoder that turns the response body into frames. The
  decoder keeps a buffer, normalises CR LF, splits lines, and handles the
  `event:` and `data:` fields and the blank-line dispatch. The model also
  covers how frames become callbacks, and which callback ends a turn.
- **The status subscription.** Its event translation (`kyc_progress`, `init`,
  `stage_update`, `complete`) and its cancellation flag.
- **The session store.** Messages, streaming text, pending approval, pending
  files, stages, and the one live status subscription. It also covers the
  status the store writes into the auth store.
- **The UI-action parser.** It strips system-context spans, finds an
  `[UI_ACTION:` / `<UI_ACTION:` marker, scans balanced braces, and strips
  markers for display.
- **The inline action cards.** File upload, data confirmation, the
  verification-progress animation schedule, and the additional-documents
  request. This also covers the tool approval card, the upload zone, the chat
  message colouring, and the status panel's stage merge.
- **The auth store.** Its persistence slice and rehydration, and the KYC
  banner driven by it.
- **The login and signup validation schemas** (zod 3 semantics).
- **The dashboard.** Navigation highlighting and initials, the quick-stats
  figures, the policy details, and the member list ordering.
- **The manual review page.** The filter tabs, applying a decision, the
  counters and statistics, the risk colour, and the case dialog's
  choose/confirm/cancel protocol.

Modules follow the program's files:

| module | source file |
|---|---|
| `Sse` | SSE parser |
| `ChatStream` and `StatusStream` | the two calls of the API file |
| `KycStore` | session store |
| `ParseAction` | UI-action parser |
| `StatusPanel`, `ConfirmData`, `VerificationProgress`, `FileUploadAction`, `FileUploadZone`, `AdditionalDocs`, `ToolApproval`, `ChatMessage` | components |
| `AuthStore`, `KycBanner`, `Validations`, `DashboardNav` | auth store, banner, validation schemas, navigation |
| `QuickStats`, `PolicyDetails`, `MemberDetails` | dashboard and policy components |
| `ManualReview`, `CaseDetail` | review page and case dialog |
| `Wrappers`, `Json`, `Text`, `Seqs`, `KycTypes`, `PolicyTypes`, `ReviewTypes` | shared data types and helpers |

Side effects are returned as data rather than performed. These include the
POST, opening or closing a subscription, writing the auth store's status, and
clearing the stored session. Inputs the code only receives are parameters:
`JSON.parse`, the `as` casts, zod's email check, the clock, and the review
fixtures.

Several behaviours of the code as written are stated as lemmas rather than
changed:

- **An `approved` status crashes the banner.** A completed verification makes
  the session store write `approved` into the auth store, a status the user
  type does not allow. The banner then reads the icon of a missing
  configuration entry (`AuthStore.CompletionBreaksValid`,
  `KycBanner.CompletionCrashesBanner`).
- **Document types are dropped.** The additional-documents card passes
  document types that the store's `sendMessage` never forwards
  (`AdditionalDocs.TypesAreDropped`).
- **The benign-ending checks disagree on case.** The outer catch of the chat
  call matches `network` / `aborted` case-sensitively, while the store's error
  callback matches them case-insensitively and also accepts `incomplete`
  (`ChatStream.OuterCatchIsCaseSensitive`, `KycStore.BenignEndCaseMismatch`).
- **A stage update wipes progress.** A `stage_update` event replaces the
  stored stages with an empty list (`KycStore.StageUpdateErasesProgress`).
- **One system span can survive stripping.** A single replace pass can leave
  a system span behind (`ParseAction.OnePassLeavesSpan`).
- **A final data line with no trailing newline is lost.** It stays in the
  decoder's buffer, which the end-of-stream flush ignores; a final data line
  that does end in a newline is still dispatched by the flush, together with
  the event name already set
  (`ChatStream.UnterminatedDataLineLost`).
- **Two upload components disagree on the file limit.** The upload zone's
  default parameter makes a missing limit 2 and keeps an explicit 0, while
  the upload card's `|| 3` turns both a missing limit and 0 into 3
  (`FileUploadZone.ZeroLimitDiffers`).
- **An empty first name shows `undefined` in the avatar**
  (`DashboardNav.EmptyFirstNameInitials`).

Three further behaviours of the code:

- The status panel's stage mapper has no override for a terminal overall
  status: the stages shown follow the reported stages and the current stage
  only.
- A chat turn can receive both an error callback and a completion callback
  (`KycStore.ErrorThenComplete`).
- The status panel's emoji and check marks are saved in a mis-decoded form, so
  its rejection, success, failure and manual-review texts begin with those
  characters (`StatusPanel.HeaderText`, `StatusPanel.FooterText`).

## Model

| member | source | states |
|---|---|---|
| Sse.Split | src/api/kyc.ts:62 | `split('\n')` yields at least one piece, no piece holds a newline, and a text with a newline yields two or more |
| Sse.LineEffect | src/api/kyc.ts:66-81 | one line sets the event name (after `event:`, trimmed), sets the data (after `data:`, trimmed), or, as a blank line with both set, emits exactly one frame and resets; anything else changes nothing |
| Sse.FieldPrefixesExclusive | src/api/kyc.ts:67-71 | the three branches of the line handler are mutually exclusive |
| Sse.Push | src/api/kyc.ts:57-65 | after a push the buffer holds no newline (it is the unterminated tail) |
| Sse.Feed | src/api/kyc.ts:62-66 | the last piece of the split becomes the new buffer |
| Sse.Flush | src/api/kyc.ts:84-94 | flush emits one frame exactly when both name and data are set, decoded as JSON or as raw text |
| Sse.NormalizeConcat | src/api/kyc.ts:60 | CR LF normalisation distributes over a concatenation whose left part does not end in CR |
| Sse.SplitConcat | src/api/kyc.ts:62 | splitting text whose left part ends at a newline splits each part separately |
| Sse.TailDecomposition | src/api/kyc.ts:58-64 | the pieces of the buffer are its complete lines followed by the raw tail after the last newline |
| Sse.LinesConcat | src/api/kyc.ts:66-82 | applying lines in two batches equals applying them at once |
| Sse.PushShape | src/api/kyc.ts:57-83 | a push applies exactly the complete lines of buffer+chunk and keeps the tail |
| Sse.PushSplitAnywhere | src/api/kyc.ts:57-83 | pushing `a + b` equals pushing `a` then `b`, with events concatenated |
| Sse.PushAllIsPushOfConcat | src/api/kyc.ts:57-83 | any chunking of the body decodes exactly like the whole body pushed at once |
| Sse.EncodedFramePieces | src/api/kyc.ts:60-64 | a written frame splits into its two field lines, the blank line and an empty tail |
| Sse.EncodeFrameRoundTrip | src/api/kyc.ts:57-83 | decoding an encoded frame on an idle parser emits that frame exactly once and leaves the parser idle |
| Sse.EventLineSetsName | src/api/kyc.ts:67-68 | an `event:` line with a trimmed name sets exactly that name |
| Sse.DataLineSetsData | src/api/kyc.ts:69-70 | a `data:` line with trimmed text sets exactly that text |
| Sse.FrameLinesApplied | src/api/kyc.ts:66-81 | the three lines of a frame fill the frame, emit it and reset |
| Sse.NormalizeCrLfFrame | src/api/kyc.ts:60 | a CR LF frame normalises to the LF frame |
| Sse.CrLfFrameRoundTrip | src/api/kyc.ts:57-83 | CR LF line ends decode exactly as LF ones |
| Sse.EncodeAllRoundTrip | src/api/kyc.ts:57-83 | a stream of encoded frames decodes to exactly those frames, in order, leaving the parser idle |
| ChatStream.Form | src/api/kyc.ts:136-153 | the form starts with message and session id; it carries `user_id` exactly for a non-empty user id and `document_types` exactly when documents and types are both non-empty |
| ChatStream.FormCarriesFiles | src/api/kyc.ts:144-148 | the form's files are exactly the documents, in order |
| ChatStream.StartVerificationForm | src/api/kyc.ts:112-123 | the start call posts the fixed start message and no files or types |
| ChatStream.DispatchByName | src/api/kyc.ts:176-210 | a frame becomes a callback exactly for the nine known names; the callback matches the name; an `error` frame carries `String(data)`; nothing dispatches completion |
| ChatStream.Dispatched | src/api/kyc.ts:176-212 | dispatching never produces more callbacks than frames and never a completion |
| ChatStream.DispatchedConcat | src/api/kyc.ts:176-212 | dispatch is applied frame by frame |
| ChatStream.OuterCatch | src/api/kyc.ts:235-245 | a thrown error reports completion when its message contains `network` or `aborted`, and otherwise reports the error |
| ChatStream.ReadLoopCompletesLast | src/api/kyc.ts:214-234 | completion is only ever the last callback, and it is there exactly when the body ends or a read fails |
| ChatStream.ChatCallCompletesLast | src/api/kyc.ts:155-246 | in the whole call no callback follows completion |
| ChatStream.FailedResponseErrorsOnly | src/api/kyc.ts:161-170 | a non-OK or bodiless response yields exactly one error and no completion; the error is the body text when non-empty |
| ChatStream.ReadLoopIsPushAll | src/api/kyc.ts:214-234 | the read loop equals pushing every chunk, flushing, then completing |
| ChatStream.ChunkingIrrelevant | src/api/kyc.ts:214-234 | the chunking of the body does not change the callbacks |
| ChatStream.OuterCatchBenign | src/api/kyc.ts:237-244 | the outer catch reports completion iff the message contains `network` or `aborted` |
| ChatStream.OuterCatchIsCaseSensitive | src/api/kyc.ts:238 | a message such as `NETWORK` is reported as an error |
| ChatStream.ErrorFrameThenComplete | src/api/kyc.ts:206-221 | an `error` frame followed by end of stream yields the error and then completion |
| ChatStream.UnterminatedDataLineLost | src/api/kyc.ts:84-94 | an `event:`/`data:` pair whose data line is never terminated yields only completion |
| StatusStream.TranslateByName | src/api/kyc.ts:279-301 | `kyc_progress` and `init` become status callbacks, `stage_update` only with a truthy `current_stage` (and then with empty id, status and stages, carrying that stage, unchanged when it is a string), and `complete` becomes completion; other names nothing |
| StatusStream.Translated | src/api/kyc.ts:279-301 | translated frames never produce an error callback |
| StatusStream.Started | src/api/kyc.ts:303-313 | the reads performed are a prefix of the reads available |
| StatusStream.CancelStopsNewReads | src/api/kyc.ts:303-326 | after cancellation before read k, nothing past read k matters |
| StatusStream.StatusLoopOpen | src/api/kyc.ts:303-313 | while the stream is open, callbacks are the translated frames of the chunks so far |
| StatusStream.SubscriptionDuringRead | src/api/kyc.ts:303-313 | cancelling during read n lets that read finish and stops the loop |
| StatusStream.LastReadFailed | src/api/kyc.ts:314-318 | a failed read reports an error only when not cancelled |
| StatusStream.InFlightChunkDelivered | src/api/kyc.ts:303-313 | a chunk whose read was in flight at cancellation is still delivered |
| StatusStream.FailureAfterCancelSilent | src/api/kyc.ts:314-318 | a read failing after cancellation reports nothing |
| StatusStream.FailureWithoutCancelReported | src/api/kyc.ts:314-318 | a read failing without cancellation reports one error after the delivered frames |
| StatusStream.CancelNotSilent | src/api/kyc.ts:259-318 | cancelling does not silence a failed response, and an ended body still completes |
| KycTypes.WithoutName | src/store/kyc-store.ts:323-327 | removing a file by name keeps exactly the files with other names |
| KycTypes.WithoutNameIdempotent | src/store/kyc-store.ts:323-327 | removing the same name twice equals removing it once |
| KycTypes.SliceEnd | src/components/kyc/inline-actions/FileUploadAction.tsx:47 | `slice(0, n)`'s end index: n clamped to the length, a negative n counted from the end |
| KycTypes.Capped | src/components/kyc/inline-actions/FileUploadAction.tsx:47-54 | appending then slicing keeps at most `max` files, keeps the earlier files first, and keeps all when they fit |
| KycStore.AddMessage | src/store/kyc-store.ts:238-247 | exactly one message is appended, everything else is unchanged |
| KycStore.AppendText | src/store/kyc-store.ts:90-94 | the chunk is appended to the streaming text, nothing else changes |
| KycStore.DescriptionOr | src/store/kyc-store.ts:275-285 | a truthy description is kept, otherwise the fallback |
| KycStore.ApplyAction | src/store/kyc-store.ts:268-291 | a `file_upload` action sets the pending approval; a `confirm_data` action sets it and the extracted data; any other type changes nothing |
| KycStore.Finalize | src/store/kyc-store.ts:255-295 | streaming text with non-blank content adds exactly one assistant message built from the parsed text and action; the text is always cleared; blank text changes nothing else |
| KycStore.EndTurn | src/store/kyc-store.ts:146-171 | stop and completion leave the store not streaming and with no streaming text |
| KycStore.OnError | src/store/kyc-store.ts:153-167 | an error adds an `Error:` message unless it mentions network, aborted or incomplete (any case), then finalises and stops streaming |
| KycStore.OnToolResult | src/store/kyc-store.ts:100-108 | the pending approval is cleared exactly when its id matches the tool id; nothing else changes |
| KycStore.OnDocumentUploaded | src/store/kyc-store.ts:109-118 | a failed upload adds one system message naming the file and the error (or `Unknown error`); success changes nothing |
| KycStore.UnsubscribeFromStatus | src/store/kyc-store.ts:372-378 | an open subscription is closed and forgotten; with none nothing happens |
| KycStore.SubscribeToStatusUpdates | src/store/kyc-store.ts:352-370 | the previous subscription is closed before the new one is opened and stored |
| KycStore.KycStatusWrite | src/store/kyc-store.ts:132-142 | `approved`/`completed` write `approved`, `rejected`/`failed` write `rejected`, anything else writes nothing |
| KycStore.OnProgress | src/store/kyc-store.ts:119-145 | progress is copied into the store; a subscription is opened only for a non-empty application id when none is open |
| KycStore.OnStatus | src/store/kyc-store.ts:357-363 | a status callback overwrites status, current stage and stages; others change nothing |
| KycStore.Apply | src/store/kyc-store.ts:86-172 | only the progress callback has effects or touches the subscription |
| KycStore.InitSession | src/store/kyc-store.ts:177-194 | a new session sets session and user, clears messages, stages, approval and data, and keeps the rest |
| KycStore.UserIdArg | src/store/kyc-store.ts:232 | the user id is sent only when non-empty |
| KycStore.BeginTurn | src/store/kyc-store.ts:221-227 | a turn starts streaming with empty text and one user message |
| KycStore.SendBegin | src/store/kyc-store.ts:214-236 | without a session nothing happens; otherwise the turn begins and one chat POST carries the message, session, user and documents |
| KycStore.StartBegin | src/store/kyc-store.ts:196-212 | the start call needs both session and user, then posts the start form |
| KycStore.ApproveAndUpload | src/store/kyc-store.ts:333-342 | with no pending files nothing happens; otherwise the pending files end up cleared |
| KycStore.UpdateStage | src/store/kyc-store.ts:301-307 | the stages with the given name get the new status, the others are unchanged |
| KycStore.Reset | src/store/kyc-store.ts:380-390 | reset restores the initial state after clearing the stored session and closing the subscription |
| KycStore.AddPendingFile | src/store/kyc-store.ts:317-321 | the file is appended and nothing else changes |
| KycStore.RemovePendingFile | src/store/kyc-store.ts:323-327 | no remaining file has the name and nothing else changes |
| KycStore.ClearPendingFiles | src/store/kyc-store.ts:329-331 | the pending files are emptied and nothing else changes |
| KycStore.TextAppendsInOrder | src/store/kyc-store.ts:90-94 | text callbacks append their chunks in order and have no effects |
| KycStore.FinalizeIdempotent | src/store/kyc-store.ts:255-295 | finalising twice equals finalising once |
| KycStore.EndTurnIdempotent | src/store/kyc-store.ts:146-171 | ending a turn twice equals ending it once |
| KycStore.StopThenComplete | src/store/kyc-store.ts:146-171 | completion after stop changes nothing |
| KycStore.ErrorThenComplete | src/store/kyc-store.ts:153-171 | completion after an error changes nothing more |
| KycStore.ErrorFrameHandledOnce | src/api/kyc.ts:206-221 | an error frame at the end of the stream is handled as one error |
| KycStore.LastCallbackEnds | src/api/kyc.ts:155-246 | every call that ends delivers completion or an error last |
| KycStore.ChatTurnEnds | src/store/kyc-store.ts:146-171 | after any call that ends, the store is not streaming and has no streaming text |
| KycStore.SendGuards | src/store/kyc-store.ts:196-219 | without a session (and user, for start) the calls do nothing; start's guard implies send's |
| KycStore.SendPostsFirst | src/store/kyc-store.ts:214-236 | the first effect of a send posts the message and exactly the given documents, with no document types |
| KycStore.SendShowsOneMessage | src/store/kyc-store.ts:221-227 | a send shows exactly one user message and starts streaming |
| KycStore.UploadSendsPendingFiles | src/store/kyc-store.ts:333-342 | the upload posts the fixed message with exactly the pending files, then clears them |
| KycStore.UploadWithoutSessionLosesFiles | src/store/kyc-store.ts:333-342 | without a session the upload clears approval and files and posts nothing |
| KycStore.ConfirmClearsApproval | src/store/kyc-store.ts:344-350 | confirming clears the pending approval with or without a session |
| KycStore.FinalizeAppliesAction | src/store/kyc-store.ts:259-292 | the parsed action, when present, decides the approval and extracted data; otherwise they are unchanged |
| KycStore.FinalizeBlank | src/store/kyc-store.ts:257 | blank streaming text adds no message and keeps the approval |
| KycStore.UnsubscribeIdempotent | src/store/kyc-store.ts:372-378 | unsubscribing twice does nothing the second time |
| KycStore.ResetCleansUp | src/store/kyc-store.ts:380-390 | reset closes an open subscription and clears the stored session first; a second reset does nothing |
| KycStore.StepKeepsLive | src/store/kyc-store.ts:352-378 | every store operation keeps the stored handle equal to the set of open subscriptions |
| KycStore.RunKeepsLive | src/store/kyc-store.ts:352-378 | any sequence of operations keeps that invariant |
| KycStore.AtMostOneSubscription | src/store/kyc-store.ts:352-378 | from the initial state at most one status subscription is ever open |
| KycStore.CompletedWritesApproved | src/store/kyc-store.ts:133-137 | a `completed` or `approved` progress writes `approved` to the auth store |
| KycStore.StageUpdateErasesProgress | src/api/kyc.ts:286-297 | a stage update empties the stored stages and overall status |
| KycStore.BenignEndCaseMismatch | src/store/kyc-store.ts:156-158 | `NETWORK` reaches the store as an error yet adds no message there |
| ParseAction.CloseBracket | src/lib/parse-action.ts:13-14 | finds the first `]` at or after a position, or reports there is none |
| ParseAction.SpanAt | src/lib/parse-action.ts:13-14 | a span matches only at a case-insensitive opening and ends after its `]` and trailing whitespace |
| ParseAction.RemoveSpans | src/lib/parse-action.ts:112-114 | one global replace pass never lengthens the text |
| ParseAction.StripSystemContext | src/lib/parse-action.ts:111-116 | the stripped content is trimmed and no longer than the input |
| ParseAction.RemoveSpansWithoutBracket | src/lib/parse-action.ts:112-114 | text without `[` is unchanged by the replace |
| ParseAction.SpanRemoved | src/lib/parse-action.ts:112-114 | an opening, a bracket-free body, `]` and trailing space are removed as a whole |
| ParseAction.OnePassLeavesSpan | src/lib/parse-action.ts:111-116 | a span whose opening is split by an inner span survives the single pass |
| ParseAction.FindMarker | src/lib/parse-action.ts:22 | finds the first case-insensitive marker, and none exactly when none exists |
| ParseAction.HasUiAction | src/lib/parse-action.ts:158-160 | true exactly when a marker occurs |
| ParseAction.MarkerSurvivesTrim | src/lib/parse-action.ts:115 | trimming keeps a marker |
| ParseAction.FirstClose | src/lib/parse-action.ts:34-63 | the scan finds the first position where the brace depth returns to zero outside a string, or none |
| ParseAction.CloseIsBrace | src/lib/parse-action.ts:54-61 | the closing position is a `}` outside a string at depth one |
| ParseAction.ScanForClose | src/lib/parse-action.ts:28-67 | the character loop finds the same first closing position |
| ParseAction.MarkerEnd | src/lib/parse-action.ts:72-82 | the marker end skips spaces and line breaks and at most one `]` or `>` |
| ParseAction.Extract | src/lib/parse-action.ts:20-89 | an extraction starts at the first marker and ends after it; it is absent exactly when there is no marker or the braces never balance |
| ParseAction.ParseUiAction | src/lib/parse-action.ts:118-153 | the text is trimmed; an action has a truthy type and title; with no action the text is the stripped content |
| ParseAction.TrimJoinAround | src/lib/parse-action.ts:144-148 | the text around the marker is joined by a blank line only when both sides are non-empty |
| ParseAction.ParseActionIff | src/lib/parse-action.ts:118-153 | an action is returned iff the content is non-empty, a marker is extracted, its JSON parses and has type and title; empty content gives empty text |
| ParseAction.ParseSuccessText | src/lib/parse-action.ts:144-148 | on success the text is the trimmed text before the marker and after it, joined by a blank line when both exist |
| ParseAction.LaterMarkerKept | src/lib/parse-action.ts:144-148 | a second marker after the first stays in the returned text |
| ParseAction.RemoveMarkers | src/lib/parse-action.ts:173-177 | the loop removes markers until no complete one is left |
| ParseAction.StripUiAction | src/lib/parse-action.ts:166-190 | the display text is trimmed and contains no marker, complete or partial |
| ParseAction.PlainTextAgrees | src/lib/parse-action.ts:118-190 | content without brackets is only trimmed by both functions |
| StatusPanel.StageIndex | src/components/kyc/status-panel.tsx:226-235 | a backend stage name maps to the one display stage listing it, or to none |
| StatusPanel.Highest | src/components/kyc/status-panel.tsx:237-248 | the highest stage index reached lies in -1..6 |
| StatusPanel.HighestIsMax | src/components/kyc/status-panel.tsx:237-248 | it is -1 iff nothing is reached, and otherwise the largest index reached by the current stage or a backend stage |
| StatusPanel.FindReport | src/components/kyc/status-panel.tsx:254 | the first backend stage whose name is in the merge list |
| StatusPanel.DisplayStages | src/components/kyc/status-panel.tsx:250-267 | always the seven display stages, in order |
| StatusPanel.DisplayedStatus | src/components/kyc/status-panel.tsx:250-267 | a display stage takes status and message from the first reporting backend stage; otherwise it is completed iff a later stage was reached, else pending |
| StatusPanel.ConsentNeverAdopts | src/components/kyc/status-panel.tsx:193-195 | consent is completed exactly once stage 2 is reached and never shows a message |
| StatusPanel.EffectiveStatus | src/components/kyc/status-panel.tsx:333-334 | the shown status is in progress iff the stage is, or it is pending and the current stage maps to it |
| StatusPanel.FinalStatusesKept | src/components/kyc/status-panel.tsx:333-334 | completed and failed are never overridden |
| StatusPanel.MergeNamesDisjoint | src/components/kyc/status-panel.tsx:189-214 | no backend name is merged into two display stages |
| StatusPanel.IndexedNamesMerge | src/components/kyc/status-panel.tsx:189-235 | every indexed name is merged into its own display stage |
| StatusPanel.NamesWithoutIndex | src/components/kyc/status-panel.tsx:226-235 | `processing` and the two `_passed` names have no index |
| StatusPanel.HighestStageAdopts | src/components/kyc/status-panel.tsx:243-258 | the highest reached stage shows the status of a backend stage |
| StatusPanel.Classify | src/components/kyc/status-panel.tsx:423-434 | success iff approved/completed, failure iff rejected/failed, manual review iff pending_review |
| StatusPanel.HeaderText | src/components/kyc/status-panel.tsx:320-324 | `Waiting to start...` iff idle, the rejection line (in the file's mis-encoded characters) iff rejected or failed, and no header text iff the status is none of the listed ones |
| StatusPanel.FooterText | src/components/kyc/status-panel.tsx:430-434 | the success, failure and manual-review texts, spelled with the file's mis-encoded characters, each appear iff the status is in that text's list |
| StatusPanel.FooterProcessing | src/components/kyc/status-panel.tsx:433-434 | the footer says `Processing...` exactly for the other statuses |
| VerificationProgress.NormaliseOutcome | src/components/kyc/inline-actions/VerificationProgress.tsx:68-77 | a truthy outcome, lower-cased, maps to approved, rejected or manual review by its three synonyms; otherwise in progress |
| VerificationProgress.DetermineCheckStatus | src/components/kyc/inline-actions/VerificationProgress.tsx:91-106 | a check fails iff the outcome is neither approved nor manual review and the lower-cased reason names that check |
| VerificationProgress.FailedCheck | src/components/kyc/inline-actions/VerificationProgress.tsx:109-118 | a failed check is chosen iff rejected with a reason; it is the first check the reason names, or the risk score when none is named |
| VerificationProgress.FinalStatuses | src/components/kyc/inline-actions/VerificationProgress.tsx:161-165 | the final status of each of the five checks |
| VerificationProgress.SuccessPassesAll | src/components/kyc/inline-actions/VerificationProgress.tsx:92 | approval and manual review pass every check |
| VerificationProgress.RejectionWithoutReasonPassesAll | src/components/kyc/inline-actions/VerificationProgress.tsx:104-118 | a rejection without a reason passes every check |
| VerificationProgress.UnexplainedRejectionFailsRisk | src/components/kyc/inline-actions/VerificationProgress.tsx:117 | a reason naming no check fails only the risk score |
| VerificationProgress.InProgressCanFail | src/components/kyc/inline-actions/VerificationProgress.tsx:91-102 | an outcome still in progress fails a check its reason names |
| VerificationProgress.Scheduled | src/components/kyc/inline-actions/VerificationProgress.tsx:181-211 | the animation runs through the first failing check, or through all checks |
| VerificationProgress.Schedule | src/components/kyc/inline-actions/VerificationProgress.tsx:178-218 | the loop schedules start and completion times from the cumulative delays; the end mark comes 500 ms after the last completion |
| VerificationProgress.StartsIncrease | src/components/kyc/inline-actions/VerificationProgress.tsx:183-195 | a later check starts after an earlier one completes |
| VerificationProgress.AtMostOneShownFailed | src/components/kyc/inline-actions/VerificationProgress.tsx:207-210 | only the last shown check can be failed |
| VerificationProgress.FullScheduleLength | src/components/kyc/inline-actions/VerificationProgress.tsx:120-160 | the full run completes the fifth check at 5600 ms |
| VerificationProgress.TwoBlamedOneShown | src/components/kyc/inline-actions/VerificationProgress.tsx:97-118 | a reason naming document and face fails both checks, yet the animation stops at the first |
| ChatMessage.SystemVariant | src/components/kyc/chat-message.tsx:14-31 | success iff the lower-cased text contains a success phrase; error iff not success and it contains a failure phrase |
| ChatMessage.SuccessWordSuffices | src/components/kyc/chat-message.tsx:18-21 | the success test reduces to containing `successfully` |
| ChatMessage.SuccessWins | src/components/kyc/chat-message.tsx:18-28 | success is checked before failure |
| ChatMessage.CaseInsensitive | src/components/kyc/chat-message.tsx:15 | the variant ignores ASCII case |
| ChatMessage.StoreMessagesAreErrors | src/store/kyc-store.ts:115-161 | the store's upload-failure and error messages are coloured as errors unless they say `successfully` |
| ConfirmData.Unsnake | src/components/kyc/inline-actions/ConfirmDataAction.tsx:18 | underscores become spaces, character for character |
| ConfirmData.CapitalizeWords | src/components/kyc/inline-actions/ConfirmDataAction.tsx:19 | exactly the word-initial characters are upper-cased |
| ConfirmData.FormatFieldName | src/components/kyc/inline-actions/ConfirmDataAction.tsx:16-20 | the label has the key's length, no underscores, spaces exactly where the key has `_` or a space, and no lower-case letter at a word start |
| ConfirmData.FormatFieldNameIdempotent | src/components/kyc/inline-actions/ConfirmDataAction.tsx:16-20 | formatting a label again changes nothing |
| ConfirmData.FormatFieldNameExample | src/components/kyc/inline-actions/ConfirmDataAction.tsx:16-20 | `date_of_birth` is shown as `Date Of Birth` |
| ConfirmData.ListableItems | src/components/kyc/inline-actions/ConfirmDataAction.tsx:30 | keeps exactly the string and number items |
| ConfirmData.FormatValue | src/components/kyc/inline-actions/ConfirmDataAction.tsx:22-37 | null and placeholders (unreadable, n/a, unknown, blank) and objects are hidden; scalars show as text; arrays show iff they have listable items |
| ConfirmData.ZeroAndFalseShown | src/components/kyc/inline-actions/ConfirmDataAction.tsx:22-37 | `0` and `false` are shown |
| ConfirmData.EmptyAndPlaceholderArraysHidden | src/components/kyc/inline-actions/ConfirmDataAction.tsx:25-31 | `[]` and `["n/a"]` are hidden |
| ConfirmData.PlaceholderItemListed | src/components/kyc/inline-actions/ConfirmDataAction.tsx:25-31 | a mixed array is checked as a whole, so its placeholder item is listed |
| ConfirmData.Fields | src/components/kyc/inline-actions/ConfirmDataAction.tsx:41-44 | keeps exactly the visible keys with a shown value |
| ConfirmData.DisplayFields | src/components/kyc/inline-actions/ConfirmDataAction.tsx:39-45 | no data shows nothing; no shown key is `document_type` or starts with `_` |
| ConfirmData.DisplayFieldsFromMembers | src/components/kyc/inline-actions/ConfirmDataAction.tsx:39-45 | each shown row comes from a member with that formatted value |
| ConfirmData.DisplayFieldsListMembers | src/components/kyc/inline-actions/ConfirmDataAction.tsx:39-45 | each visible member with a shown value is listed |
| ConfirmData.DisplayFieldsInOrder | src/components/kyc/inline-actions/ConfirmDataAction.tsx:41-44 | rows follow member order |
| ConfirmData.SingleDocumentMerged | src/components/kyc/inline-actions/ConfirmDataAction.tsx:88-133 | one document or none uses the merged view |
| ConfirmData.TwoDocumentsSplit | src/components/kyc/inline-actions/ConfirmDataAction.tsx:128-133 | two documents use the per-document view iff one of them has data |
| ConfirmData.Step | src/components/kyc/inline-actions/ConfirmDataAction.tsx:90-124 | a click while processing or decided does nothing; otherwise it records the choice and sends its text; settling keeps the decision only on success |
| ConfirmData.RunSendsOnce | src/components/kyc/inline-actions/ConfirmDataAction.tsx:90-124 | each sent answer beyond the first needs a failed send first |
| ConfirmData.AnswersOnce | src/components/kyc/inline-actions/ConfirmDataAction.tsx:90-124 | without failures the card sends at most one answer |
| FileUploadAction.MaxFiles | src/components/kyc/inline-actions/FileUploadAction.tsx:24 | a missing or zero limit means 3 |
| FileUploadAction.AddFiles | src/components/kyc/inline-actions/FileUploadAction.tsx:43-56 | disabled or completed cards ignore new files; otherwise they are appended and capped |
| FileUploadAction.RemoveFile | src/components/kyc/inline-actions/FileUploadAction.tsx:58-60 | removes the files with that name only |
| FileUploadAction.Upload | src/components/kyc/inline-actions/FileUploadAction.tsx:62-80 | with files and not completed, the card completes, remembers the names, empties the list and sends the files once |
| FileUploadAction.CompletedStays | src/components/kyc/inline-actions/FileUploadAction.tsx:44-63 | a completed card stays completed and sends nothing more |
| FileUploadAction.SendsAtMostOnce | src/components/kyc/inline-actions/FileUploadAction.tsx:62-80 | any interaction sequence sends at most once |
| FileUploadAction.StaysWithinLimit | src/components/kyc/inline-actions/FileUploadAction.tsx:47-54 | with a non-negative limit the list never exceeds it |
| FileUploadAction.NegativeLimitDropsLast | src/components/kyc/inline-actions/FileUploadAction.tsx:24-54 | a limit of -1 drops the last file |
| FileUploadZone.MaxFiles | src/components/kyc/file-upload-zone.tsx:22 | a missing limit means 2; a given one, zero included, is kept |
| FileUploadZone.AddFiles | src/components/kyc/file-upload-zone.tsx:44-58 | disabled zones report nothing; otherwise the appended and capped list |
| FileUploadZone.RemoveFile | src/components/kyc/file-upload-zone.tsx:60-62 | reports the list without that name |
| FileUploadZone.DefaultKeepsTwo | src/components/kyc/file-upload-zone.tsx:22-56 | by default a third file is dropped |
| FileUploadZone.ZeroLimitDiffers | src/components/kyc/file-upload-zone.tsx:22 | a zero limit keeps no file here but means 3 in the upload card |
| AdditionalDocs.RequiredDocs | src/components/kyc/inline-actions/AdditionalDocsRequest.tsx:65 | defaults to passport, visa and live photo |
| AdditionalDocs.InitialSlots | src/components/kyc/inline-actions/AdditionalDocsRequest.tsx:68-74 | one empty pending slot per required document |
| AdditionalDocs.Select | src/components/kyc/inline-actions/AdditionalDocsRequest.tsx:79-84 | sets that slot to the file, other slots unchanged |
| AdditionalDocs.Remove | src/components/kyc/inline-actions/AdditionalDocsRequest.tsx:86-91 | empties that slot, other slots unchanged |
| AdditionalDocs.InputChange | src/components/kyc/inline-actions/AdditionalDocsRequest.tsx:93-98 | only the first chosen file is used; none changes nothing |
| AdditionalDocs.Collect | src/components/kyc/inline-actions/AdditionalDocsRequest.tsx:106-111 | collects every document exactly when all are selected, in the required order |
| AdditionalDocs.SelectedCount | src/components/kyc/inline-actions/AdditionalDocsRequest.tsx:294 | the button's counter is the number of documents with a file, as many as are collected and at most all of them |
| AdditionalDocs.CounterFullIffAllSelected | src/components/kyc/inline-actions/AdditionalDocsRequest.tsx:100 | the counter is full iff every document is selected |
| AdditionalDocs.SubmitText | src/components/kyc/inline-actions/AdditionalDocsRequest.tsx:114-117 | singular text iff one file |
| AdditionalDocs.Submit | src/components/kyc/inline-actions/AdditionalDocsRequest.tsx:102-129 | submits once all are selected and not yet submitted: files and types in required order, with the count text |
| AdditionalDocs.SubmitsOnce | src/components/kyc/inline-actions/AdditionalDocsRequest.tsx:103-120 | a submitted card does not submit again |
| AdditionalDocs.DefaultRequestSubmitsThree | src/components/kyc/inline-actions/AdditionalDocsRequest.tsx:102-124 | the default request sends the three files in order |
| AdditionalDocs.TypesAreDropped | src/components/kyc/inline-actions/AdditionalDocsRequest.tsx:124 | the posted form carries the files but no document types |
| ToolApproval.LabelIsFormatFieldName | src/components/kyc/tool-approval-card.tsx:90-92 | the card's label is the confirm card's field name |
| ToolApproval.Rows | src/components/kyc/tool-approval-card.tsx:87-98 | rows are exactly the truthy entries other than `document_type` |
| ToolApproval.Render | src/components/kyc/tool-approval-card.tsx:28-63 | upload card iff `file_upload`; data card iff `confirm_data` with data; reject button iff a handler is given |
| ToolApproval.ZeroHiddenHereShownThere | src/components/kyc/tool-approval-card.tsx:88 | a zero is hidden here but shown by the confirm card |
| Text.Trim | src/lib/parse-action.ts:115 | the result is trimmed and no longer than the input |
| Text.TrimRemovesOnlySpace | src/lib/parse-action.ts:115 | trimming removes only leading and trailing whitespace |
| Text.ContainsIffOccurs | src/components/kyc/chat-message.tsx:18 | `includes` holds iff the pattern occurs at some index |
| Text.Upper | src/components/kyc/inline-actions/ConfirmDataAction.tsx:25 | upper-cases each character |
| Text.Lower | src/components/kyc/chat-message.tsx:15 | lower-cases each character |
| Text.LowerOfUpper | src/components/kyc/chat-message.tsx:15 | lower-casing ignores an earlier upper-casing |
| Text.FirstCharText | src/components/layout/dashboard-nav.tsx:39 | the first character, or `undefined` for an empty name |
| Text.Initials | src/components/policy/member-details-tab.tsx:38-40 | for non-empty names, the two upper-cased first letters |
| Validations.Check | src/lib/validations.ts:6 | a check reports its single issue iff it fails |
| Validations.EmailShapeIffMatches | src/lib/validations.ts:11 | the email pattern matches iff the text is `local@domain.tld` with no spaces or extra `@` |
| Validations.MemberIdIsNotEmail | src/lib/validations.ts:10-12 | a member id never matches the email pattern |
| Validations.MemberIdExamples | src/lib/validations.ts:10 | `INS1234567` matches; lower case or six digits do not |
| Validations.LoginIssues | src/lib/validations.ts:3-17 | each login message appears iff its rule fails |
| Validations.LoginAcceptedIff | src/lib/validations.ts:3-17 | login is accepted iff member id or email matches and the password has 6+ characters |
| Validations.EmptyMemberIdTwoIssues | src/lib/validations.ts:6-15 | an empty member id reports both messages |
| Validations.NameIssues | src/lib/validations.ts:20-21 | names need 1 to 50 characters |
| Validations.PasswordIssues | src/lib/validations.ts:25-30 | the password passes iff 8+ characters with upper, lower and digit |
| Validations.FieldIssues | src/lib/validations.ts:20-30 | the fields pass iff every field rule holds |
| Validations.SignupIssues | src/lib/validations.ts:19-35 | mismatch reported iff the passwords differ; accepted iff fields pass and they match |
| Validations.SignupAcceptedIff | src/lib/validations.ts:32-35 | with valid fields, the refine decides alone |
| Validations.PasswordExamples | src/lib/validations.ts:25-30 | `Passw0rd` passes, `password1` does not |
| AuthStore.SetAuth | src/store/auth-store.ts:27-34 | signing in stores user and token, authenticates and stops loading |
| AuthStore.Logout | src/store/auth-store.ts:42-49 | signing out forgets user and token |
| AuthStore.UpdateKycStatus | src/store/auth-store.ts:36-40 | writes the status into the user, if any; nothing else changes |
| AuthStore.SetLoading | src/store/auth-store.ts:51-53 | only the loading flag changes |
| AuthStore.LogoutForgets | src/store/auth-store.ts:42-49 | signing out erases what sign-in and status writes stored |
| AuthStore.UpdateKycStatusIdempotent | src/store/auth-store.ts:36-40 | writing a status twice equals writing it once |
| AuthStore.TransitionsKeepValid | src/store/auth-store.ts:27-53 | transitions given allowed statuses keep the stored status allowed |
| AuthStore.ApprovedBreaksValid | src/store/auth-store.ts:38 | the unchecked cast admits `approved` |
| AuthStore.Perform | src/store/kyc-store.ts:132-142 | only status writes reach this store |
| AuthStore.CompletionBreaksValid | src/store/kyc-store.ts:133-137 | a completed verification leaves the user type's statuses |
| AuthStore.Partialize | src/store/auth-store.ts:57-61 | saves user, token and authentication flag |
| AuthStore.Rehydrate | src/store/auth-store.ts:62-66 | a saved slice is restored and loading stops; nothing saved stops loading; a failed read does nothing |
| AuthStore.RehydrateRestores | src/store/auth-store.ts:55-66 | a reload restores the saved slice exactly |
| KycBanner.ConfigFor | src/components/layout/kyc-banner.tsx:10-42 | an entry exists iff the status is pending, rejected or verified |
| KycBanner.Render | src/components/layout/kyc-banner.tsx:48-53 | nothing iff no user, verified or dismissed; a crash iff shown with an unknown status |
| KycBanner.StartActionShown | src/components/layout/kyc-banner.tsx:73 | the action is offered iff pending or rejected |
| KycBanner.Step | src/components/layout/kyc-banner.tsx:46-83 | close sets the flag; a user change replaces the user |
| KycBanner.DismissalIsOneWay | src/components/layout/kyc-banner.tsx:46-83 | once dismissed, the banner never returns |
| KycBanner.OnlyCloseDismisses | src/components/layout/kyc-banner.tsx:46-83 | dismissed iff some event was a close |
| KycBanner.CompletionCrashesBanner | src/components/layout/kyc-banner.tsx:52-53 | after a completed verification the banner reads a missing entry |
| DashboardNav.IsActiveIff | src/components/layout/dashboard-nav.tsx:57 | active iff the path equals the href or extends it after a `/` |
| DashboardNav.TwoActiveItemsNest | src/components/layout/dashboard-nav.tsx:57 | two items active on one path are nested |
| DashboardNav.NoPathActivatesBoth | src/components/layout/dashboard-nav.tsx:20-57 | no path highlights both items |
| DashboardNav.PoliciesExamples | src/components/layout/dashboard-nav.tsx:57 | `/policies/abc` is under `/policies`, `/policiesX` is not |
| DashboardNav.AvatarInitials | src/components/layout/dashboard-nav.tsx:37-40 | `U` with no user, otherwise the two upper-cased initials |
| DashboardNav.EmptyFirstNameInitials | src/components/layout/dashboard-nav.tsx:39 | an empty first name shows `UNDEFINED` before the last initial |
| PolicyDetails.PaymentsPerYear | src/components/policy/policy-details-tab.tsx:124-130 | 12 iff monthly, 1 iff yearly |
| PolicyDetails.AnnualPremium | src/components/policy/policy-details-tab.tsx:124-130 | the premium times payments per year, never below a non-negative premium |
| PolicyDetails.DaysLabel | src/components/policy/policy-details-tab.tsx:163 | `N days` for positive N, otherwise `Due for renewal` |
| PolicyDetails.DaysLabelIff | src/components/policy/policy-details-tab.tsx:163 | the label is a count iff days are positive |
| PolicyDetails.AlertAndHighlight | src/components/policy/policy-details-tab.tsx:162-163 | the alert shows iff the amber highlight does and the label is a count |
| QuickStats.ActivePolicies | src/components/dashboard/quick-stats.tsx:13-16 | keeps exactly the active policies |
| QuickStats.ActivePoliciesConcat | src/components/dashboard/quick-stats.tsx:13-16 | filtering distributes over concatenation |
| QuickStats.ActiveCount | src/components/dashboard/quick-stats.tsx:13 | the number of active positions, counted independently |
| QuickStats.ActivePoliciesCount | src/components/dashboard/quick-stats.tsx:13 | the filter's length equals that count |
| QuickStats.TwelveMonthsAreTheYear | src/components/dashboard/quick-stats.tsx:19-26 | twelve monthly figures equal the policy page's annual premium |
| QuickStats.SumByConcat | src/components/dashboard/quick-stats.tsx:17 | the fold distributes over concatenation |
| QuickStats.Compute | src/components/dashboard/quick-stats.tsx:12-30 | the active count is that of the active positions |
| QuickStats.StatsConcat | src/components/dashboard/quick-stats.tsx:12-30 | the figures of two lists add up |
| QuickStats.InactiveChangesNothing | src/components/dashboard/quick-stats.tsx:12-30 | an inactive policy changes no figure |
| QuickStats.MonthlyPremiumIsAnnualOverTwelve | src/components/dashboard/quick-stats.tsx:19-26 | the monthly figure is a twelfth of the annual premiums |
| QuickStats.FiguresNonNegative | src/components/dashboard/quick-stats.tsx:15-30 | non-negative amounts give non-negative figures |
| MemberDetails.Compare | src/components/policy/member-details-tab.tsx:24-28 | the comparator returns 0 for two non-primaries |
| MemberDetails.TwoPrimariesInconsistent | src/components/policy/member-details-tab.tsx:25-26 | with two primaries each is "less" than the other |
| MemberDetails.SplitIsPermutation | src/components/policy/member-details-tab.tsx:24-28 | primaries-first is a permutation |
| MemberDetails.InsertStep | src/components/policy/member-details-tab.tsx:24-28 | each stable insertion extends the primaries-first order |
| MemberDetails.Sort | src/components/policy/member-details-tab.tsx:24-28 | with at most one primary, sorting gives primaries first and others in order |
| MemberDetails.PrimaryLeads | src/components/policy/member-details-tab.tsx:24-28 | the primary leads the list |
| MemberDetails.OthersKeepOrder | src/components/policy/member-details-tab.tsx:24-28 | non-primaries keep their relative order |
| MemberDetails.CountWord | src/components/policy/member-details-tab.tsx:53 | `member` iff exactly one |
| MemberDetails.MemberInitials | src/components/policy/member-details-tab.tsx:38-40 | two letters for non-empty names |
| ReviewTypes.StatusOf | src/app/manual-review/page.tsx:62-67 | an action never yields pending |
| CaseDetail.HandleAction | src/components/manual-review/case-detail-modal.tsx:93-96 | a choice is recorded only for a pending case |
| CaseDetail.ExecuteAction | src/components/manual-review/case-detail-modal.tsx:98-104 | confirming sends id, choice and notes and resets the dialog |
| CaseDetail.Step | src/components/manual-review/case-detail-modal.tsx:93-104 | a call is made only on confirm after a choice; cancel clears the choice |
| CaseDetail.CallsNeedChoices | src/components/manual-review/case-detail-modal.tsx:93-104 | each call consumes a choice |
| CaseDetail.ReviewedCaseIsFinal | src/components/manual-review/case-detail-modal.tsx:94 | a reviewed case makes no calls |
| CaseDetail.ChooseThenConfirm | src/components/manual-review/case-detail-modal.tsx:93-104 | choose then confirm makes exactly one call |
| CaseDetail.CancelDiscards | src/components/manual-review/case-detail-modal.tsx:469-474 | cancel before confirm makes none |
| CaseDetail.VerificationColour | src/components/manual-review/case-detail-modal.tsx:129-133 | green iff Pass/High, red iff Fail/Low |
| CaseDetail.ScreeningColour | src/components/manual-review/case-detail-modal.tsx:135-139 | green iff No Hit/Clear/No, red iff Hit/Yes |
| CaseDetail.UnknownResultsAreAmber | src/components/manual-review/case-detail-modal.tsx:132-138 | unlisted results are amber |
| CaseDetail.FaceMatchColour | src/components/manual-review/case-detail-modal.tsx:285 | amber iff confidence < 0.75 |
| CaseDetail.RecommendationText | src/components/manual-review/case-detail-modal.tsx:141-153 | the text per recommendation, with the face-match variant below 0.75 |
| CaseDetail.RecommendationWord | src/components/manual-review/case-detail-modal.tsx:141-153 | starts with HOLD or PROCEED iff that recommendation |
| CaseDetail.FaceMatchVariantIffAmber | src/components/manual-review/case-detail-modal.tsx:146 | the hold variant appears iff the cell is amber |
| ManualReview.WithStatus | src/app/manual-review/page.tsx:28 | keeps exactly the cases of that status |
| ManualReview.WithStatusKeepsOrder | src/app/manual-review/page.tsx:28 | the filter keeps the list's order: filtering a concatenation is concatenating the filtered parts, and a single case is kept iff it has the status |
| ManualReview.WithStatusMultiplicity | src/app/manual-review/page.tsx:28 | the filter holds each case of that status as often as the list does, and holds no case of another status |
| ManualReview.Filtered | src/app/manual-review/page.tsx:26-28 | all cases, or those of the status |
| ManualReview.TabsPartition | src/app/manual-review/page.tsx:26-28 | the four tabs list every case once |
| ManualReview.Decide | src/app/manual-review/page.tsx:65-71 | new status, reviewer and notes; the rest kept |
| ManualReview.ApplyAction | src/app/manual-review/page.tsx:63-73 | decides exactly the cases with that id |
| ManualReview.HandleCaseAction | src/app/manual-review/page.tsx:62-75 | applies the decision and closes the dialog |
| ManualReview.OnlyMatchingCaseChanges | src/app/manual-review/page.tsx:63-73 | other cases unchanged |
| ManualReview.DecidingPendingCaseReducesPending | src/app/manual-review/page.tsx:49-73 | deciding a pending case lowers the pending count by one |
| ManualReview.DialogDecisionApplied | src/components/manual-review/case-detail-modal.tsx:98-104 | a confirmed dialog decision reaches the page |
| ManualReview.UntouchedWithoutId | src/app/manual-review/page.tsx:63-73 | an unknown id changes nothing |
| ManualReview.Find | src/app/manual-review/page.tsx:39 | the first case with the id (no earlier case has it), and none iff no case has it |
| ManualReview.Count | src/app/manual-review/page.tsx:33-45 | cleared plus rejected never exceed those reduced |
| ManualReview.ReducedIsClearedRejectedHeld | src/app/manual-review/page.tsx:38-45 | every case leaving pending was cleared, rejected or held |
| ManualReview.ComputeStats | src/app/manual-review/page.tsx:49-56 | the fixture total; cleared and rejected are the fixture figures plus the cases newly cleared and newly rejected, together at most the fixture figures plus the cases that left pending; pending counted live |
| ManualReview.FalsePositiveRate | src/app/manual-review/page.tsx:58-60 | a rate in [0, 1] once cases are processed, else the fixture rate |
| ManualReview.FullRateIffNoRejection | src/app/manual-review/page.tsx:59-60 | the rate is 1 iff nothing was rejected |
| ManualReview.StatusLabelsDistinct | src/app/manual-review/page.tsx:86-94 | the four labels are distinct |
| ManualReview.RiskColourOf | src/app/manual-review/page.tsx:96-101 | red at 80+, amber at 60+, yellow at 40+, green below |
| ManualReview.RiskColourMonotone | src/app/manual-review/page.tsx:96-101 | a higher score never gets a milder colour |

## Left out

- JSON parsing, the TypeScript `as` casts and zod's email check are parameters. The model assumes nothing about them beyond their types.
- Case mapping is ASCII only. The length checks count Dafny characters (code points), not UTF-16 code units.
- Network, timers, the clock, random ids and timestamps (`reviewedAt`, message ids) are left out. Only the order of events is modelled.
- `TextDecoder`, a lone CR, and `text()` failing on an error response are left out.
- The store's `uploadProgress` is never written by the code, so it is left out.
- Rendering, icons, styles and animation frames are left out. The animation is modelled as its schedule of times.
- The review fixtures `mockReviewCases` / `mockStatistics` are parameters.
- Date arithmetic for renewal days is left out: days are a parameter. Currency formatting is left out too.
- JavaScript floating point is left out: amounts are exact reals.
- CaseDetail.RecommendationText: the percentage inside the face-match text is a parameter, because `toFixed(0)` is floating-point formatting.
- MemberDetails.Sort: the engine's sort algorithm is replaced by stable insertion sort. This gives the same result for a consistent comparator. Two primaries make the comparator inconsistent and are excluded by a precondition.
- ChatStream.Form: absent `documents` and `documentTypes` values are modelled as empty lists.
- AdditionalDocs.Collect: keeps the documents whose slot has a file, while the code's `item.file !== null` would also keep a document with no slot at all (file `undefined`). The two agree whenever the submit guard holds, because then every document has a file.
- StatusStream.TranslateByName: a non-string `current_stage` is passed on by the code as it is; the snapshot's stage is a string here, so such a value is carried as its `String()` form.
- VerificationProgress.NormaliseOutcome: a non-string `failure_reason` is not modelled.
- FileUploadAction.MaxFiles: non-integer and NaN limits are not modelled.
- Validations.LoginIssues: only zod 3 issue semantics are modelled (all string checks run, and refinements run on dirty values). The order and exact list of issues matter only through the stated iff properties.
- Object keys inherited from `Object.prototype` are not modelled.
- Concurrent interleaving of two chat calls is not modelled. Each call is modelled as one ordered run of callbacks.
- `getKycStatus`, `getOrCreateSessionId` and `generateSessionId` involve storage, the clock and randomness: session ids are parameters.
