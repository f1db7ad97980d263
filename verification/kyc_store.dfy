/**
 * The KYC session store: one immutable record and one transition per command
 * or callback. A transition returns the new record together with the effects
 * it asks of the outside world, in order: chat requests, opening and closing
 * the status subscription, writes of the KYC status into the auth store, and
 * clearing the stored session.
 *
 * A command that awaits a chat call is given the call's `Response`; the
 * callbacks of that call are applied one after another, each an atomic
 * transition, before the command's own last step.
 */
module KycStore {
  import opened Wrappers
  import opened Text
  import opened Json
  import opened KycTypes
  import opened ChatStream
  import opened ParseAction
  import StatusStream
  import Sse
  import opened Seqs

  datatype Role = UserRole | AssistantRole | SystemRole

  /** A chat message; id and timestamp are not modelled. */
  datatype Message = Message(role: Role, content: string, action: Option<Json>)

  /** A human-in-the-loop request shown above the chat. */
  datatype Approval = Approval(id: string, kind: string, title: Option<Json>, description: Json,
                               data: Option<Json>, pending: bool)

  /**
   * The store. `sessionId` holds whatever the `session` frame carried (None is
   * `null` or `undefined`); `statusHandle` names the cancel function of the
   * status subscription, when one is held.
   */
  datatype State = State(
    sessionId: Option<Json>,
    applicationId: Option<string>,
    userId: Option<string>,
    messages: seq<Message>,
    isStreaming: bool,
    streamingText: string,
    stages: seq<Stage>,
    currentStage: Option<string>,
    overallStatus: string,
    pendingApproval: Option<Approval>,
    extractedData: Option<Json>,
    pendingFiles: seq<File>,
    statusHandle: Option<nat>)

  const Initial := State(None, None, None, [], false, "", [], None, "idle", None, None, [], None)

  /** What a transition asks of the outside world. */
  datatype Effect =
    | PostChat(form: seq<FormField>)
    | OpenSubscription(handle: nat, applicationId: string)
    | CloseSubscription(handle: nat)
    | WriteKycStatus(status: string)
    | ClearStoredSession(userId: string)

  /**
   * The values the store takes from outside: the JSON parser, the unchecked
   * cast of a payload to a progress snapshot, the id of the next approval and
   * the handle of the next status subscription.
   */
  datatype Env = Env(parse: string -> Option<Json>, cast: Payload -> KycProgress, approvalId: string, handle: nat)

  const UserStartText := "Start my KYC verification"
  const UploadText := "Here is my documents"
  const ConfirmText := "Yes the data is correct. Please verify and complete my KYC."

  // ---------------------------------------------------------------------------
  // Messages and the streaming buffer

  /** `addMessage`: one message at the end, nothing else touched. */
  function AddMessage(st: State, role: Role, content: string, action: Option<Json>): (r: State)
    ensures |r.messages| == |st.messages| + 1 && r.messages[..|st.messages|] == st.messages
    ensures r.messages[|st.messages|] == Message(role, content, action)
    ensures r.(messages := st.messages) == st
  {
    st.(messages := st.messages + [Message(role, content, action)])
  }

  /** `updateStreamingText`, and `onText`. */
  function AppendText(st: State, text: string): (r: State)
    ensures |r.streamingText| == |st.streamingText| + |text|
    ensures r.streamingText[..|st.streamingText|] == st.streamingText && r.streamingText[|st.streamingText|..] == text
    ensures r.(streamingText := st.streamingText) == st
  {
    st.(streamingText := st.streamingText + text)
  }

  /** `description || fallback`. */
  function DescriptionOr(d: Option<Json>, fallback: string): (r: Json)
    requires fallback != ""
    ensures Truthy(r) && (TruthyOpt(d) ==> r == d.value)
  {
    if TruthyOpt(d) then d.value else JStr(fallback)
  }

  /** A parsed action of type `file_upload` or `confirm_data` becomes the pending approval. */
  function ApplyAction(st: State, action: Json, id: string): (r: State)
    ensures r.(pendingApproval := st.pendingApproval, extractedData := st.extractedData) == st
    ensures Get(action, "type") == Some(JStr("file_upload")) ==>
      r == st.(pendingApproval := Some(Approval(id, "file_upload", Get(action, "title"),
                                                DescriptionOr(Get(action, "description"), "Please upload your document"), None, true)))
    ensures Get(action, "type") == Some(JStr("confirm_data")) ==>
      && r.pendingApproval == Some(Approval(id, "confirm_data", Get(action, "title"),
                                            DescriptionOr(Get(action, "description"), "Please confirm the extracted data"),
                                            Get(action, "data"), true))
      && r.extractedData == Get(action, "data")
      && r.(pendingApproval := st.pendingApproval, extractedData := st.extractedData) == st
    ensures Get(action, "type") !in {Some(JStr("file_upload")), Some(JStr("confirm_data"))} ==> r == st
  {
    var kind := Get(action, "type");
    if kind == Some(JStr("file_upload")) then
      st.(pendingApproval := Some(Approval(id, "file_upload", Get(action, "title"),
                                           DescriptionOr(Get(action, "description"), "Please upload your document"), None, true)))
    else if kind == Some(JStr("confirm_data")) then
      st.(pendingApproval := Some(Approval(id, "confirm_data", Get(action, "title"),
                                           DescriptionOr(Get(action, "description"), "Please confirm the extracted data"),
                                           Get(action, "data"), true)),
          extractedData := Get(action, "data"))
    else st
  }

  /** Whether the buffer holds anything but whitespace. */
  predicate HasText(s: string) {
    Trim(s) != ""
  }

  /**
   * `finalizeStreamingMessage`: a buffer with non-whitespace content becomes one
   * assistant message, its marker parsed; the buffer is emptied in every case.
   */
  function Finalize(st: State, env: Env): (r: State)
    ensures r.streamingText == ""
    ensures |r.messages| == |st.messages| + (if HasText(st.streamingText) then 1 else 0)
    ensures r.messages[..|st.messages|] == st.messages
    ensures HasText(st.streamingText) ==>
      var p := ParseUiAction(st.streamingText, env.parse);
      r.messages[|st.messages|] == Message(AssistantRole, p.text, p.action)
    ensures r.isStreaming == st.isStreaming && r.statusHandle == st.statusHandle && r.pendingFiles == st.pendingFiles
    ensures r.sessionId == st.sessionId && r.stages == st.stages && r.overallStatus == st.overallStatus
    ensures !HasText(st.streamingText) ==> r == st.(streamingText := "")
  {
    if HasText(st.streamingText) then
      var p := ParseUiAction(st.streamingText, env.parse);
      var s1 := AddMessage(st, AssistantRole, p.text, p.action);
      var s2 := if p.action.Some? then ApplyAction(s1, p.action.value, env.approvalId) else s1;
      s2.(streamingText := "")
    else st.(streamingText := "")
  }

  /** `onStop` and `onComplete`: finalize, then stop streaming. */
  function EndTurn(st: State, env: Env): (r: State)
    ensures !r.isStreaming && r.streamingText == ""
  {
    Finalize(st, env).(isStreaming := false)
  }

  /** The store's test for errors that are only the stream ending: on the lower-cased text. */
  predicate BenignEnd(error: string) {
    var e := Lower(error);
    Contains(e, "network") || Contains(e, "aborted") || Contains(e, "incomplete")
  }

  /** `onError`: a system message unless the error is benign, then the end of the turn. */
  function OnError(st: State, error: string, env: Env): (r: State)
    ensures !r.isStreaming && r.streamingText == ""
    ensures |r.messages| == |st.messages| + (if BenignEnd(error) then 0 else 1) + (if HasText(st.streamingText) then 1 else 0)
    ensures r.messages[..|st.messages|] == st.messages
    ensures !BenignEnd(error) ==> r.messages[|st.messages|] == Message(SystemRole, "Error: " + error, None)
  {
    var s1 := if BenignEnd(error) then st else AddMessage(st, SystemRole, "Error: " + error, None);
    var r := EndTurn(s1, env);
    assert r.messages[..|s1.messages|] == s1.messages;
    assert |st.messages| <= |s1.messages|;
    assert r.messages[..|st.messages|] == r.messages[..|s1.messages|][..|st.messages|];
    r
  }

  /** `onToolResult`: the pending approval is cleared only when its id is the tool's id. */
  function OnToolResult(st: State, toolId: Option<Json>): (r: State)
    ensures r.pendingApproval.None? <==> st.pendingApproval.None? || toolId == Some(JStr(st.pendingApproval.value.id))
    ensures r.pendingApproval.Some? ==> r == st
    ensures r == st.(pendingApproval := r.pendingApproval)
  {
    if st.pendingApproval.Some? && toolId == Some(JStr(st.pendingApproval.value.id)) then st.(pendingApproval := None)
    else st
  }

  /** `onDocumentUploaded`: a failed upload is reported as a system message, a success says nothing. */
  function OnDocumentUploaded(st: State, filename: Option<Json>, success: Option<Json>, error: Option<Json>): (r: State)
    ensures TruthyOpt(success) ==> r == st
    ensures !TruthyOpt(success) ==>
      r == AddMessage(st, SystemRole, "Failed to upload \"" + ToStrOpt(filename) + "\": "
                                      + (if TruthyOpt(error) then ToStr(error.value) else "Unknown error"), None)
  {
    if TruthyOpt(success) then st
    else
      var reason := if TruthyOpt(error) then ToStr(error.value) else "Unknown error";
      AddMessage(st, SystemRole, "Failed to upload \"" + ToStrOpt(filename) + "\": " + reason, None)
  }

  // ---------------------------------------------------------------------------
  // Status subscription

  /** `unsubscribeFromStatus`: close the held subscription, if any. */
  function UnsubscribeFromStatus(st: State): (r: (State, seq<Effect>))
    ensures r.0.statusHandle.None? && r.0 == st.(statusHandle := None)
    ensures st.statusHandle.Some? ==> r.1 == [CloseSubscription(st.statusHandle.value)]
    ensures st.statusHandle.None? ==> r == (st, [])
  {
    if st.statusHandle.Some? then (st.(statusHandle := None), [CloseSubscription(st.statusHandle.value)])
    else (st, [])
  }

  /** `subscribeToStatusUpdates`: the previous subscription is closed before the new one opens. */
  function SubscribeToStatusUpdates(st: State, applicationId: string, handle: nat): (r: (State, seq<Effect>))
    ensures r.0 == st.(statusHandle := Some(handle))
    ensures r.1 == UnsubscribeFromStatus(st).1 + [OpenSubscription(handle, applicationId)]
  {
    var u := UnsubscribeFromStatus(st);
    (u.0.(statusHandle := Some(handle)), u.1 + [OpenSubscription(handle, applicationId)])
  }

  /** The auth-store write a progress status asks for, if any. */
  function KycStatusWrite(status: string): (r: seq<Effect>)
    ensures |r| <= 1
    ensures r == [WriteKycStatus("approved")] <==> status == "approved" || status == "completed"
    ensures r == [WriteKycStatus("rejected")] <==> status == "rejected" || status == "failed"
  {
    if status == "approved" || status == "completed" then [WriteKycStatus("approved")]
    else if status == "rejected" || status == "failed" then [WriteKycStatus("rejected")]
    else []
  }

  /** A snapshot copied into the store wholesale. */
  function TakeSnapshot(st: State, p: KycProgress): State {
    st.(overallStatus := p.status, currentStage := p.currentStage, stages := p.stages)
  }

  /**
   * `onKycProgress`: the snapshot and application id are copied, a subscription
   * is opened when the id is non-empty and none is held, and the auth store is
   * told of a final status.
   */
  function OnProgress(st: State, p: KycProgress, handle: nat): (r: (State, seq<Effect>))
    ensures r.0.applicationId == Some(p.applicationId) && r.0.overallStatus == p.status
    ensures r.0.currentStage == p.currentStage && r.0.stages == p.stages
    ensures p.applicationId != "" && st.statusHandle.None? ==>
      r.0.statusHandle == Some(handle) && r.1 == [OpenSubscription(handle, p.applicationId)] + KycStatusWrite(p.status)
    ensures !(p.applicationId != "" && st.statusHandle.None?) ==>
      r.0.statusHandle == st.statusHandle && r.1 == KycStatusWrite(p.status)
  {
    var s1 := TakeSnapshot(st, p).(applicationId := Some(p.applicationId));
    var sub := if p.applicationId != "" && s1.statusHandle.None? then SubscribeToStatusUpdates(s1, p.applicationId, handle) else (s1, []);
    (sub.0, sub.1 + KycStatusWrite(p.status))
  }

  /** The callback the store hands to the status subscription: every snapshot is copied, nothing else is done. */
  function OnStatus(st: State, cb: StatusStream.StatusCallback): (r: State)
    ensures cb.Status? ==> r == st.(overallStatus := cb.progress.status, currentStage := cb.progress.currentStage,
                                    stages := cb.progress.stages)
    ensures !cb.Status? ==> r == st
  {
    if cb.Status? then TakeSnapshot(st, cb.progress) else st
  }

  // ---------------------------------------------------------------------------
  // Chat callbacks

  /** The store's handler for one chat callback (`createCallbacks`). */
  function Apply(st: State, cb: Callback, env: Env): (r: (State, seq<Effect>))
    ensures !cb.Progress? ==> r.1 == []
    ensures !cb.Progress? ==> r.0.statusHandle == st.statusHandle
  {
    match cb
    case SessionStart(sid) => (st.(sessionId := sid), [])
    case Text(chunk) => (AppendText(st, ToStrOpt(chunk)), [])
    case ToolCall(_, _) => (st, [])
    case ToolResult(toolId, _) => (OnToolResult(st, toolId), [])
    case DocumentUploaded(f, ok, err) => (OnDocumentUploaded(st, f, ok, err), [])
    case Progress(payload) => OnProgress(st, env.cast(payload), env.handle)
    case Stop(_) => (EndTurn(st, env), [])
    case Warning(_) => (st, [])
    case Error(e) => (OnError(st, e, env), [])
    case Complete => (EndTurn(st, env), [])
  }

  /** The callbacks of one chat call, applied in order. */
  function ApplyAll(st: State, cbs: seq<Callback>, env: Env): (r: (State, seq<Effect>))
    decreases |cbs|
  {
    if |cbs| == 0 then (st, [])
    else
      var first := Apply(st, cbs[0], env);
      var rest := ApplyAll(first.0, cbs[1..], env);
      (rest.0, first.1 + rest.1)
  }

  // ---------------------------------------------------------------------------
  // Commands

  /** `initSession`: a fresh conversation for the user, with the session id the caller obtained. */
  function InitSession(st: State, userId: string, sessionId: string): (r: State)
    ensures r.sessionId == Some(JStr(sessionId)) && r.userId == Some(userId)
    ensures r.messages == [] && r.stages == [] && r.overallStatus == "idle"
    ensures r.pendingApproval.None? && r.extractedData.None?
    ensures r.pendingFiles == st.pendingFiles && r.streamingText == st.streamingText
    ensures r.statusHandle == st.statusHandle && r.isStreaming == st.isStreaming
    ensures r.applicationId == st.applicationId && r.currentStage == st.currentStage
  {
    st.(sessionId := Some(JStr(sessionId)), userId := Some(userId), messages := [], stages := [],
        overallStatus := "idle", pendingApproval := None, extractedData := None)
  }

  /** `userId || undefined`. */
  function UserIdArg(userId: Option<string>): (r: Option<string>)
    ensures r.Some? <==> userId.Some? && userId.value != ""
  {
    if userId.Some? && userId.value != "" then userId else None
  }

  predicate CanSend(st: State) {
    TruthyOpt(st.sessionId)
  }

  predicate CanStart(st: State) {
    TruthyOpt(st.sessionId) && st.userId.Some? && st.userId.value != ""
  }

  /** The session id as `FormData` sends it. */
  function SessionText(st: State): string
    requires CanSend(st)
  {
    ToStr(st.sessionId.value)
  }

  /** What a send does before it awaits the call: streaming starts, the user's message is shown. */
  function BeginTurn(st: State, message: string): (r: State)
    ensures r.isStreaming && r.streamingText == ""
    ensures r.messages == st.messages + [Message(UserRole, message, None)]
  {
    AddMessage(st.(isStreaming := true, streamingText := ""), UserRole, message, None)
  }

  /** `sendMessage` up to its request. The document types are never passed on. */
  function SendBegin(st: State, message: string, documents: seq<File>): (r: (State, seq<Effect>))
    ensures !CanSend(st) ==> r == (st, [])
    ensures CanSend(st) ==>
      && r.0 == BeginTurn(st, message)
      && r.1 == [PostChat(Form(message, SessionText(st), UserIdArg(st.userId), documents, []))]
  {
    if !CanSend(st) then (st, [])
    else (BeginTurn(st, message), [PostChat(Form(message, SessionText(st), UserIdArg(st.userId), documents, []))])
  }

  /** `startKycVerification` up to its request. */
  function StartBegin(st: State): (r: (State, seq<Effect>))
    ensures !CanStart(st) ==> r == (st, [])
    ensures CanStart(st) ==>
      && r.0 == BeginTurn(st, UserStartText)
      && r.1 == [PostChat(StartVerificationForm(st.userId.value, SessionText(st)))]
  {
    if !CanStart(st) then (st, [])
    else (BeginTurn(st, UserStartText), [PostChat(StartVerificationForm(st.userId.value, SessionText(st)))])
  }

  /** A send followed by the callbacks of its call. */
  function Converse(begin: (State, seq<Effect>), sent: bool, response: Response, env: Env): (r: (State, seq<Effect>)) {
    if !sent then begin
    else
      var call := ApplyAll(begin.0, ChatCall(response, env.parse), env);
      (call.0, begin.1 + call.1)
  }

  /** `sendMessage`: `documents` empty stands for none given. */
  function SendMessage(st: State, message: string, documents: seq<File>, response: Response, env: Env): (r: (State, seq<Effect>)) {
    Converse(SendBegin(st, message, documents), CanSend(st), response, env)
  }

  function StartKycVerification(st: State, response: Response, env: Env): (r: (State, seq<Effect>)) {
    Converse(StartBegin(st), CanStart(st), response, env)
  }

  /** `approveAndUpload`: with files pending, clear the approval, send them, then forget them. */
  function ApproveAndUpload(st: State, response: Response, env: Env): (r: (State, seq<Effect>))
    ensures |st.pendingFiles| == 0 ==> r == (st, [])
    ensures |st.pendingFiles| > 0 ==> r.0.pendingFiles == []
  {
    if |st.pendingFiles| == 0 then (st, [])
    else
      var sent := SendMessage(st.(pendingApproval := None), UploadText, st.pendingFiles, response, env);
      (sent.0.(pendingFiles := []), sent.1)
  }

  /** `confirmData`: clear the approval and send the confirmation. */
  function ConfirmData(st: State, response: Response, env: Env): (r: (State, seq<Effect>)) {
    SendMessage(st.(pendingApproval := None), ConfirmText, [], response, env)
  }

  /** `updateStage`: every stage with that name takes the status; the rest are untouched. */
  function UpdateStage(stages: seq<Stage>, name: string, status: string): (r: seq<Stage>)
    ensures |r| == |stages|
    ensures forall i | 0 <= i < |r| :: r[i] == if stages[i].name == name then stages[i].(status := status) else stages[i]
  {
    seq(|stages|, i requires 0 <= i < |stages| => if stages[i].name == name then stages[i].(status := status) else stages[i])
  }

  /** `reset`: forget the stored session, close the subscription, return to the initial record. */
  function Reset(st: State): (r: (State, seq<Effect>))
    ensures r.0 == Initial
    ensures r.1 == (if st.userId.Some? && st.userId.value != "" then [ClearStoredSession(st.userId.value)] else [])
                   + UnsubscribeFromStatus(st).1
  {
    var clear := if st.userId.Some? && st.userId.value != "" then [ClearStoredSession(st.userId.value)] else [];
    (Initial, clear + UnsubscribeFromStatus(st).1)
  }

  // ---------------------------------------------------------------------------
  // Pending files

  /** `addPendingFile`. */
  function AddPendingFile(st: State, f: File): (r: State)
    ensures r.pendingFiles == st.pendingFiles + [f]
    ensures r.(pendingFiles := st.pendingFiles) == st
  {
    st.(pendingFiles := st.pendingFiles + [f])
  }

  /** `removePendingFile`: every file with that name goes, the others keep their order. */
  function RemovePendingFile(st: State, name: string): (r: State)
    ensures r.pendingFiles == Keep(st.pendingFiles, name)
    ensures forall i | 0 <= i < |r.pendingFiles| :: r.pendingFiles[i].name != name
    ensures r.(pendingFiles := st.pendingFiles) == st
  {
    WithoutNameIsKeep(st.pendingFiles, name);
    st.(pendingFiles := WithoutName(st.pendingFiles, name))
  }

  /** `clearPendingFiles`. */
  function ClearPendingFiles(st: State): (r: State)
    ensures r.pendingFiles == [] && r.(pendingFiles := st.pendingFiles) == st
  {
    st.(pendingFiles := [])
  }

  // ---------------------------------------------------------------------------
  // Properties of the callbacks

  lemma ApplyAllCons(st: State, c: Callback, rest: seq<Callback>, env: Env)
    ensures ApplyAll(st, [c] + rest, env)
         == (var f := Apply(st, c, env); var r := ApplyAll(f.0, rest, env); (r.0, f.1 + r.1))
  {
    assert ([c] + rest)[1..] == rest;
  }

  lemma ApplyAllOne(st: State, c: Callback, env: Env)
    ensures ApplyAll(st, [c], env) == Apply(st, c, env)
  {
    ApplyAllCons(st, c, [], env);
    assert [c] + [] == [c];
    assert Apply(st, c, env).1 + [] == Apply(st, c, env).1;
  }

  /** The texts of a run of `text` callbacks. */
  function TextCallbacks(chunks: seq<Option<Json>>): (r: seq<Callback>)
    ensures |r| == |chunks| && forall i | 0 <= i < |r| :: r[i] == Text(chunks[i])
  {
    seq(|chunks|, i requires 0 <= i < |chunks| => Text(chunks[i]))
  }

  /** What `+` makes of the chunks, one after the other. */
  function Joined(chunks: seq<Option<Json>>): string
    decreases |chunks|
  {
    if |chunks| == 0 then "" else ToStrOpt(chunks[0]) + Joined(chunks[1..])
  }

  /** `text` callbacks append to the buffer in arrival order, and change nothing else. */
  lemma {:induction false} TextAppendsInOrder(st: State, chunks: seq<Option<Json>>, env: Env)
    ensures ApplyAll(st, TextCallbacks(chunks), env) == (st.(streamingText := st.streamingText + Joined(chunks)), [])
    decreases |chunks|
  {
    if |chunks| == 0 {
      assert st.streamingText + "" == st.streamingText;
    } else {
      var cbs := TextCallbacks(chunks);
      assert cbs == [Text(chunks[0])] + TextCallbacks(chunks[1..]);
      ApplyAllCons(st, Text(chunks[0]), TextCallbacks(chunks[1..]), env);
      var s1 := AppendText(st, ToStrOpt(chunks[0]));
      assert Apply(st, Text(chunks[0]), env) == (s1, []);
      TextAppendsInOrder(s1, chunks[1..], env);
      AppendAssoc(st.streamingText, ToStrOpt(chunks[0]), Joined(chunks[1..]));
      var none: seq<Effect> := [];
      assert none + none == none;
    }
  }

  /** Finalizing twice is finalizing once: the second call finds an empty buffer. */
  lemma FinalizeIdempotent(st: State, env: Env)
    ensures Finalize(Finalize(st, env), env) == Finalize(st, env)
  {
    var f := Finalize(st, env);
    assert !HasText(f.streamingText) by {
      TrimOfAllSpace("");
    }
  }

  /** Ending a turn twice is ending it once. */
  lemma EndTurnIdempotent(st: State, env: Env)
    ensures EndTurn(EndTurn(st, env), env) == EndTurn(st, env)
  {
    var f := Finalize(st, env);
    assert !HasText(f.streamingText) by {
      TrimOfAllSpace("");
    }
  }

  /** `onStop` followed by `onComplete` appends the assistant message once; the second end changes nothing. */
  lemma StopThenComplete(st: State, reason: Option<Json>, env: Env)
    ensures ApplyAll(st, [Stop(reason), Complete], env) == Apply(st, Stop(reason), env)
  {
    var r1 := EndTurn(st, env);
    ApplyAllTwo(st, Stop(reason), Complete, env);
    assert Apply(st, Stop(reason), env) == (r1, []);
    EndTurnIdempotent(st, env);
    assert Apply(r1, Complete, env) == (r1, []);
    var none: seq<Effect> := [];
    assert none + none == none;
  }

  /** Two callbacks applied in order. */
  lemma ApplyAllTwo(st: State, c: Callback, d: Callback, env: Env)
    ensures var f := Apply(st, c, env);
      var g := Apply(f.0, d, env);
      ApplyAll(st, [c, d], env) == (g.0, f.1 + g.1)
  {
    var f := Apply(st, c, env);
    ApplyAllCons(st, c, [d], env);
    assert [c] + [d] == [c, d];
    ApplyAllOne(f.0, d, env);
  }

  /** After `onError` the turn is over: ending it again changes nothing. */
  lemma OnErrorEndsTurn(st: State, error: string, env: Env)
    ensures EndTurn(OnError(st, error, env), env) == OnError(st, error, env)
  {
    var s1 := if BenignEnd(error) then st else AddMessage(st, SystemRole, "Error: " + error, None);
    assert OnError(st, error, env) == EndTurn(s1, env);
    EndTurnIdempotent(s1, env);
  }

  /** `onError` followed by `onComplete`: the second end adds nothing to what the error did. */
  lemma ErrorThenComplete(st: State, error: string, env: Env)
    ensures ApplyAll(st, [Error(error), Complete], env) == (OnError(st, error, env), [])
  {
    var r1 := OnError(st, error, env);
    ApplyAllTwo(st, Error(error), Complete, env);
    assert Apply(st, Error(error), env) == (r1, []);
    OnErrorEndsTurn(st, error, env);
    assert Apply(r1, Complete, env) == (r1, []);
    var none: seq<Effect> := [];
    assert none + none == none;
  }

  /**
   * An `error` frame in the stream: the store reports it (unless its text looks
   * benign) and finalizes, and the `onComplete` that the call still makes
   * afterwards has nothing left to do.
   */
  lemma ErrorFrameHandledOnce(st: State, data: string, env: Env)
    requires Sse.Writable(data)
    ensures var e := PayloadToStr(Sse.Decode(data, env.parse));
      ApplyAll(st, ChatCall(Body([Chunk(Sse.EncodeFrame("error", data)), Done]), env.parse), env) == (OnError(st, e, env), [])
  {
    ErrorFrameThenComplete(data, env.parse);
    ErrorThenComplete(st, PayloadToStr(Sse.Decode(data, env.parse)), env);
  }

  lemma {:induction false} ApplyAllSnoc(st: State, cbs: seq<Callback>, c: Callback, env: Env)
    ensures ApplyAll(st, cbs + [c], env)
         == (var a := ApplyAll(st, cbs, env); var l := Apply(a.0, c, env); (l.0, a.1 + l.1))
    decreases |cbs|
  {
    if |cbs| == 0 {
      assert cbs + [c] == [c];
      ApplyAllOne(st, c, env);
      var none: seq<Effect> := [];
      assert none + Apply(st, c, env).1 == Apply(st, c, env).1;
    } else {
      var f := Apply(st, cbs[0], env);
      assert cbs + [c] == [cbs[0]] + (cbs[1..] + [c]);
      ApplyAllCons(st, cbs[0], cbs[1..] + [c], env);
      ApplyAllSnoc(f.0, cbs[1..], c, env);
      assert cbs == [cbs[0]] + cbs[1..];
      ApplyAllCons(st, cbs[0], cbs[1..], env);
      var a := ApplyAll(f.0, cbs[1..], env);
      var l := Apply(a.0, c, env);
      AppendAssoc(f.1, a.1, l.1);
    }
  }

  /** The last callback of a call that ended, which is an end of the turn. */
  lemma LastCallbackEnds(response: Response, parse: string -> Option<Json>)
    requires !response.Body? || Terminated(response.results)
    ensures var r := ChatCall(response, parse);
      |r| > 0 && (r[|r| - 1] == Complete || r[|r| - 1].Error?)
  {
    match response
    case Body(results) =>
      ReadLoopCompletesLast(Sse.Initial, results, parse);
    case Rejected(e) =>
      assert |OuterCatch(e)| == 1;
    case NotOk(_, _) =>
    case NoBody =>
  }

  /**
   * Every chat call that ends, by the end of the stream, a failed read, a
   * non-OK response or a failed request, leaves the store not streaming and
   * with an empty buffer.
   */
  lemma ChatTurnEnds(st: State, response: Response, env: Env)
    requires !response.Body? || Terminated(response.results)
    ensures var r := ApplyAll(st, ChatCall(response, env.parse), env).0;
      !r.isStreaming && r.streamingText == ""
  {
    var cbs := ChatCall(response, env.parse);
    LastCallbackEnds(response, env.parse);
    var n := |cbs| - 1;
    assert cbs == cbs[..n] + [cbs[n]];
    ApplyAllSnoc(st, cbs[..n], cbs[n], env);
    EndingCallback(ApplyAll(st, cbs[..n], env).0, cbs[n], env);
  }

  /** Completion and errors end the turn. */
  lemma EndingCallback(st: State, c: Callback, env: Env)
    requires c == Complete || c.Error?
    ensures !Apply(st, c, env).0.isStreaming && Apply(st, c, env).0.streamingText == ""
  {
  }

  // ---------------------------------------------------------------------------
  // Properties of the commands

  /** `sendMessage` without a session, and `startKycVerification` without a session or user, do nothing. */
  lemma SendGuards(st: State, message: string, documents: seq<File>, response: Response, env: Env)
    ensures !CanSend(st) ==> SendMessage(st, message, documents, response, env) == (st, [])
    ensures !CanStart(st) ==> StartKycVerification(st, response, env) == (st, [])
    ensures CanStart(st) ==> CanSend(st)
  {
  }

  /**
   * A send with a session posts exactly one request first, carrying the message
   * and the given files in order, and never the document types.
   */
  lemma SendPostsFirst(st: State, message: string, documents: seq<File>, response: Response, env: Env)
    requires CanSend(st)
    ensures var r := SendMessage(st, message, documents, response, env);
      && |r.1| > 0 && r.1[0].PostChat?
      && r.1[0].form[0] == TextField("message", message)
      && FormFiles(r.1[0].form) == documents
      && forall i | 0 <= i < |r.1[0].form| :: !r.1[0].form[i].TypesField?
  {
    var f := Form(message, SessionText(st), UserIdArg(st.userId), documents, []);
    FormCarriesFiles(message, SessionText(st), UserIdArg(st.userId), documents, []);
    var r := SendMessage(st, message, documents, response, env);
    var call := ApplyAll(BeginTurn(st, message), ChatCall(response, env.parse), env);
    assert r.1 == [PostChat(f)] + call.1;
  }

  /** Before its call's callbacks, a send has shown exactly one user message and emptied the buffer. */
  lemma SendShowsOneMessage(st: State, message: string, documents: seq<File>)
    requires CanSend(st)
    ensures var b := SendBegin(st, message, documents).0;
      b.messages == st.messages + [Message(UserRole, message, None)] && b.isStreaming && b.streamingText == ""
      && b.pendingFiles == st.pendingFiles && b.statusHandle == st.statusHandle
  {
  }

  /** Upload with files and a session: the approval is gone and the pending files go out in the request. */
  lemma UploadSendsPendingFiles(st: State, response: Response, env: Env)
    requires |st.pendingFiles| > 0 && CanSend(st)
    ensures var r := ApproveAndUpload(st, response, env);
      && |r.1| > 0 && r.1[0].PostChat?
      && r.1[0].form[0] == TextField("message", UploadText)
      && FormFiles(r.1[0].form) == st.pendingFiles
      && r.0.pendingFiles == []
  {
    var s1 := st.(pendingApproval := None);
    SendPostsFirst(s1, UploadText, st.pendingFiles, response, env);
  }

  /**
   * Upload with files but no session: the send returns at once, yet the files
   * are still forgotten, and nothing is posted.
   */
  lemma UploadWithoutSessionLosesFiles(st: State, response: Response, env: Env)
    requires |st.pendingFiles| > 0 && !CanSend(st)
    ensures ApproveAndUpload(st, response, env) == (st.(pendingApproval := None, pendingFiles := []), [])
  {
  }

  /** Confirmation clears the approval before it sends, and sends only with a session. */
  lemma ConfirmClearsApproval(st: State, response: Response, env: Env)
    ensures !CanSend(st) ==> ConfirmData(st, response, env) == (st.(pendingApproval := None), [])
    ensures CanSend(st) ==> SendBegin(st.(pendingApproval := None), ConfirmText, []).0.pendingApproval.None?
  {
  }

  /** With text in the buffer, finalizing applies the parsed action, if any, to the approval and extracted data. */
  lemma FinalizeAppliesAction(st: State, env: Env)
    requires HasText(st.streamingText)
    ensures var p := ParseUiAction(st.streamingText, env.parse);
      var r := Finalize(st, env);
      && (p.action.None? ==> r.pendingApproval == st.pendingApproval && r.extractedData == st.extractedData)
      && (p.action.Some? ==>
            var a := ApplyAction(st, p.action.value, env.approvalId);
            r.pendingApproval == a.pendingApproval && r.extractedData == a.extractedData)
  {
    var p := ParseUiAction(st.streamingText, env.parse);
    var s1 := AddMessage(st, AssistantRole, p.text, p.action);
    assert Finalize(st, env) == (if p.action.Some? then ApplyAction(s1, p.action.value, env.approvalId) else s1).(streamingText := "");
    if p.action.Some? {
      ApplyActionIgnoresMessages(st, s1.messages, p.action.value, env.approvalId);
    }
  }

  /** Applying an action does not look at the messages. */
  lemma ApplyActionIgnoresMessages(st: State, messages: seq<Message>, action: Json, id: string)
    ensures ApplyAction(st.(messages := messages), action, id) == ApplyAction(st, action, id).(messages := messages)
  {
  }

  /** Finalizing an empty or blank buffer leaves the approval and the messages alone. */
  lemma FinalizeBlank(st: State, env: Env)
    requires !HasText(st.streamingText)
    ensures Finalize(st, env).messages == st.messages && Finalize(st, env).pendingApproval == st.pendingApproval
  {
  }

  /** Unsubscribing twice is unsubscribing once. */
  lemma UnsubscribeIdempotent(st: State)
    ensures var u := UnsubscribeFromStatus(st);
      UnsubscribeFromStatus(u.0) == (u.0, [])
  {
  }

  /** `reset` closes the held subscription and forgets the stored session of a signed-in user. */
  lemma ResetCleansUp(st: State)
    ensures st.statusHandle.Some? ==> CloseSubscription(st.statusHandle.value) in Reset(st).1
    ensures st.userId.Some? && st.userId.value != "" ==> Reset(st).1[0] == ClearStoredSession(st.userId.value)
    ensures Reset(Reset(st).0) == (Initial, [])
  {
  }

  // ---------------------------------------------------------------------------
  // The status subscription: at most one is ever open

  /** The subscriptions open after some effects, starting from those in `open`. */
  function AfterEffect(open: set<nat>, e: Effect): set<nat> {
    match e
    case OpenSubscription(h, _) => open + {h}
    case CloseSubscription(h) => open - {h}
    case _ => open
  }

  function Live(open: set<nat>, effects: seq<Effect>): set<nat>
    decreases |effects|
  {
    if |effects| == 0 then open else Live(AfterEffect(open, effects[0]), effects[1..])
  }

  /** The subscription the store holds, as a set. */
  function Held(st: State): (r: set<nat>)
    ensures |r| <= 1
  {
    if st.statusHandle.Some? then {st.statusHandle.value} else {}
  }

  lemma {:induction false} LiveConcat(open: set<nat>, a: seq<Effect>, b: seq<Effect>)
    ensures Live(open, a + b) == Live(Live(open, a), b)
    decreases |a|
  {
    if |a| == 0 {
      assert a + b == b;
    } else {
      assert (a + b)[1..] == a[1..] + b;
      LiveConcat(AfterEffect(open, a[0]), a[1..], b);
    }
  }

  lemma StatusWriteKeepsLive(open: set<nat>, status: string)
    ensures Live(open, KycStatusWrite(status)) == open
  {
  }

  lemma SubscribeKeepsLive(st: State, applicationId: string, handle: nat)
    ensures var r := SubscribeToStatusUpdates(st, applicationId, handle);
      Live(Held(st), r.1) == Held(r.0)
  {
    var u := UnsubscribeFromStatus(st);
    LiveConcat(Held(st), u.1, [OpenSubscription(handle, applicationId)]);
  }

  lemma ProgressKeepsLive(st: State, p: KycProgress, handle: nat)
    ensures var r := OnProgress(st, p, handle);
      Live(Held(st), r.1) == Held(r.0)
  {
    var s1 := TakeSnapshot(st, p).(applicationId := Some(p.applicationId));
    var sub := if p.applicationId != "" && s1.statusHandle.None? then SubscribeToStatusUpdates(s1, p.applicationId, handle) else (s1, []);
    if p.applicationId != "" && s1.statusHandle.None? {
      SubscribeKeepsLive(s1, p.applicationId, handle);
    }
    LiveConcat(Held(st), sub.1, KycStatusWrite(p.status));
    StatusWriteKeepsLive(Held(sub.0), p.status);
  }

  lemma ApplyKeepsLive(st: State, cb: Callback, env: Env)
    ensures var r := Apply(st, cb, env);
      Live(Held(st), r.1) == Held(r.0)
  {
    if cb.Progress? {
      ProgressKeepsLive(st, env.cast(cb.payload), env.handle);
    }
  }

  lemma {:induction false} ApplyAllKeepsLive(st: State, cbs: seq<Callback>, env: Env)
    ensures var r := ApplyAll(st, cbs, env);
      Live(Held(st), r.1) == Held(r.0)
    decreases |cbs|
  {
    if |cbs| > 0 {
      var f := Apply(st, cbs[0], env);
      ApplyKeepsLive(st, cbs[0], env);
      ApplyAllKeepsLive(f.0, cbs[1..], env);
      LiveConcat(Held(st), f.1, ApplyAll(f.0, cbs[1..], env).1);
    }
  }

  lemma ConverseKeepsLive(st: State, begin: (State, seq<Effect>), sent: bool, response: Response, env: Env)
    requires Live(Held(st), begin.1) == Held(begin.0)
    ensures var r := Converse(begin, sent, response, env);
      Live(Held(st), r.1) == Held(r.0)
  {
    if sent {
      var call := ApplyAll(begin.0, ChatCall(response, env.parse), env);
      ApplyAllKeepsLive(begin.0, ChatCall(response, env.parse), env);
      LiveConcat(Held(st), begin.1, call.1);
    }
  }

  lemma SendKeepsLive(st: State, message: string, documents: seq<File>, response: Response, env: Env)
    ensures var r := SendMessage(st, message, documents, response, env);
      Live(Held(st), r.1) == Held(r.0)
  {
    ConverseKeepsLive(st, SendBegin(st, message, documents), CanSend(st), response, env);
  }

  /** Every command and callback the store offers. */
  datatype Op =
    | OnChat(cb: Callback)
    | OnStatusUpdate(scb: StatusStream.StatusCallback)
    | DoInitSession(userId: string, sessionId: string)
    | DoStartKyc(response: Response)
    | DoSendMessage(message: string, documents: seq<File>, response: Response)
    | DoAddMessage(role: Role, content: string, action: Option<Json>)
    | DoUpdateStreamingText(text: string)
    | DoFinalize
    | DoSetStages(stages: seq<Stage>)
    | DoUpdateStage(name: string, status: string)
    | DoSetPendingApproval(approval: Option<Approval>)
    | DoSetExtractedData(data: Option<Json>)
    | DoAddPendingFile(file: File)
    | DoRemovePendingFile(name: string)
    | DoClearPendingFiles
    | DoApproveAndUpload(response: Response)
    | DoConfirmData(response: Response)
    | DoSubscribe(applicationId: string)
    | DoUnsubscribe
    | DoReset

  function Step(st: State, op: Op, env: Env): (State, seq<Effect>) {
    match op
    case OnChat(cb) => Apply(st, cb, env)
    case OnStatusUpdate(scb) => (OnStatus(st, scb), [])
    case DoInitSession(u, sid) => (InitSession(st, u, sid), [])
    case DoStartKyc(resp) => StartKycVerification(st, resp, env)
    case DoSendMessage(m, docs, resp) => SendMessage(st, m, docs, resp, env)
    case DoAddMessage(role, content, action) => (AddMessage(st, role, content, action), [])
    case DoUpdateStreamingText(t) => (AppendText(st, t), [])
    case DoFinalize => (Finalize(st, env), [])
    case DoSetStages(stages) => (st.(stages := stages), [])
    case DoUpdateStage(name, status) => (st.(stages := UpdateStage(st.stages, name, status)), [])
    case DoSetPendingApproval(a) => (st.(pendingApproval := a), [])
    case DoSetExtractedData(d) => (st.(extractedData := d), [])
    case DoAddPendingFile(f) => (AddPendingFile(st, f), [])
    case DoRemovePendingFile(name) => (RemovePendingFile(st, name), [])
    case DoClearPendingFiles => (ClearPendingFiles(st), [])
    case DoApproveAndUpload(resp) => ApproveAndUpload(st, resp, env)
    case DoConfirmData(resp) => ConfirmData(st, resp, env)
    case DoSubscribe(appId) => SubscribeToStatusUpdates(st, appId, env.handle)
    case DoUnsubscribe => UnsubscribeFromStatus(st)
    case DoReset => Reset(st)
  }

  /** The steps that touch neither the subscription nor the outside world. */
  predicate IsLocal(op: Op) {
    !(op.OnChat? || op.DoStartKyc? || op.DoSendMessage? || op.DoApproveAndUpload? || op.DoConfirmData?
      || op.DoSubscribe? || op.DoUnsubscribe? || op.DoReset?)
  }

  lemma LocalStepKeepsLive(st: State, op: Op, env: Env)
    requires IsLocal(op)
    ensures Step(st, op, env).1 == [] && Held(Step(st, op, env).0) == Held(st)
  {
  }

  lemma CallStepKeepsLive(st: State, op: Op, env: Env)
    requires op.DoStartKyc? || op.DoSendMessage? || op.DoApproveAndUpload? || op.DoConfirmData?
    ensures var r := Step(st, op, env);
      Live(Held(st), r.1) == Held(r.0)
  {
    match op
    case DoStartKyc(resp) => StartKeepsLive(st, resp, env);
    case DoSendMessage(m, docs, resp) => SendKeepsLive(st, m, docs, resp, env);
    case DoApproveAndUpload(resp) => ApproveKeepsLive(st, resp, env);
    case DoConfirmData(resp) => ConfirmKeepsLive(st, resp, env);
  }

  lemma StartKeepsLive(st: State, response: Response, env: Env)
    ensures var r := StartKycVerification(st, response, env);
      Live(Held(st), r.1) == Held(r.0)
  {
    ConverseKeepsLive(st, StartBegin(st), CanStart(st), response, env);
  }

  lemma ConfirmKeepsLive(st: State, response: Response, env: Env)
    ensures var r := ConfirmData(st, response, env);
      Live(Held(st), r.1) == Held(r.0)
  {
    var cleared := st.(pendingApproval := None);
    assert Held(cleared) == Held(st);
    SendKeepsLive(cleared, ConfirmText, [], response, env);
  }

  lemma ApproveKeepsLive(st: State, response: Response, env: Env)
    ensures var r := ApproveAndUpload(st, response, env);
      Live(Held(st), r.1) == Held(r.0)
  {
    if |st.pendingFiles| > 0 {
      var cleared := st.(pendingApproval := None);
      assert Held(cleared) == Held(st);
      SendKeepsLive(cleared, UploadText, st.pendingFiles, response, env);
      var sent := SendMessage(cleared, UploadText, st.pendingFiles, response, env);
      assert Held(sent.0.(pendingFiles := [])) == Held(sent.0);
    }
  }

  lemma ResetKeepsLive(st: State)
    ensures Live(Held(st), Reset(st).1) == Held(Reset(st).0)
  {
    var clear := if st.userId.Some? && st.userId.value != "" then [ClearStoredSession(st.userId.value)] else [];
    LiveConcat(Held(st), clear, UnsubscribeFromStatus(st).1);
  }

  /** Every step keeps the open subscriptions equal to the one the store holds. */
  lemma StepKeepsLive(st: State, op: Op, env: Env)
    ensures var r := Step(st, op, env);
      Live(Held(st), r.1) == Held(r.0)
  {
    if IsLocal(op) {
      LocalStepKeepsLive(st, op, env);
    } else if op.OnChat? {
      ApplyKeepsLive(st, op.cb, env);
    } else if op.DoSubscribe? {
      SubscribeKeepsLive(st, op.applicationId, env.handle);
    } else if op.DoReset? {
      ResetKeepsLive(st);
    } else if !op.DoUnsubscribe? {
      CallStepKeepsLive(st, op, env);
    }
  }

  /** A run of steps, each with the values it takes from outside. */
  function Run(st: State, ops: seq<(Op, Env)>): (State, seq<Effect>)
    decreases |ops|
  {
    if |ops| == 0 then (st, [])
    else
      var first := Step(st, ops[0].0, ops[0].1);
      var rest := Run(first.0, ops[1..]);
      (rest.0, first.1 + rest.1)
  }

  lemma {:induction false} RunKeepsLive(st: State, ops: seq<(Op, Env)>)
    ensures var r := Run(st, ops);
      Live(Held(st), r.1) == Held(r.0)
    decreases |ops|
  {
    if |ops| > 0 {
      var first := Step(st, ops[0].0, ops[0].1);
      StepKeepsLive(st, ops[0].0, ops[0].1);
      RunKeepsLive(first.0, ops[1..]);
      LiveConcat(Held(st), first.1, Run(first.0, ops[1..]).1);
    }
  }

  /**
   * From the initial store, whatever commands and callbacks follow, at most
   * one status subscription is open at the end, and it is the one the store holds.
   */
  lemma AtMostOneSubscription(ops: seq<(Op, Env)>)
    ensures var r := Run(Initial, ops);
      Live({}, r.1) == Held(r.0) && |Live({}, r.1)| <= 1
  {
    RunKeepsLive(Initial, ops);
  }

  // ---------------------------------------------------------------------------
  // Defects the code has

  /** A final progress status of `completed` writes `approved` into the auth store's KYC status. */
  lemma CompletedWritesApproved(st: State, p: KycProgress, handle: nat)
    requires p.status == "completed" || p.status == "approved"
    ensures WriteKycStatus("approved") in OnProgress(st, p, handle).1
  {
  }

  /**
   * A `stage_update` with a current stage reaches the store as a snapshot with
   * no stages and an empty status: whatever progress the store showed is erased.
   */
  lemma StageUpdateErasesProgress(st: State, ev: Sse.Event, cast: Payload -> KycProgress)
    requires ev.name == "stage_update" && TruthyOpt(Field(ev.payload, "current_stage"))
    ensures StatusStream.Translate(ev, cast).Some?
    ensures var r := OnStatus(st, StatusStream.Translate(ev, cast).value);
      r.stages == [] && r.overallStatus == "" && r.currentStage.Some?
  {
    StatusStream.TranslateByName(ev, cast);
  }

  /**
   * The two benign-end tests disagree on letter case: a request failing with
   * "NETWORK" is an error to the chat call, which the store then hides.
   */
  lemma BenignEndCaseMismatch(st: State, env: Env)
    ensures ChatCall(Rejected(Some("NETWORK")), env.parse) == [Error("NETWORK")]
    ensures BenignEnd("NETWORK")
    ensures OnError(st, "NETWORK", env).messages == Finalize(st, env).messages
  {
    OuterCatchIsCaseSensitive("NETWORK", env.parse);
    assert Lower("NETWORK") == "network";
    assert StartsWith("network", "network");
  }
}
