/**
 * The inline request for extra documents: one slot per required document type,
 * a file chosen for each, and a single submission that sends the files with
 * their types in the order the types were requested.
 */
module AdditionalDocs {
  import opened Wrappers
  import opened Text
  import opened KycTypes
  import ChatStream
  import KycStore

  /** `action.required_docs || [...]`: any list given, even an empty one, replaces the default. */
  function RequiredDocs(requiredDocs: Option<seq<string>>): (r: seq<string>)
    ensures requiredDocs.None? ==> r == ["passport", "visa", "live_photo"]
    ensures requiredDocs.Some? ==> r == requiredDocs.value
  {
    requiredDocs.GetOr(["passport", "visa", "live_photo"])
  }

  datatype SlotStatus = Pending | Selected

  /** One document slot: the chosen file, if any, and its status. */
  datatype Slot = Slot(file: Option<File>, status: SlotStatus)

  /** Every required document starts empty and pending. */
  function InitialSlots(docs: seq<string>): (r: map<string, Slot>)
    ensures forall d :: d in r <==> d in docs
    ensures forall d | d in r :: r[d] == Slot(None, Pending)
  {
    map d | d in docs :: Slot(None, Pending)
  }

  /** `handleFileSelect`: only that document's slot changes, to the file, selected. */
  function Select(slots: map<string, Slot>, doc: string, file: File): (r: map<string, Slot>)
    ensures doc in r && r[doc] == Slot(Some(file), Selected)
    ensures forall d | d != doc :: (d in r <==> d in slots) && (d in r ==> r[d] == slots[d])
  {
    slots[doc := Slot(Some(file), Selected)]
  }

  /** `handleFileRemove`: only that document's slot changes, back to empty and pending. */
  function Remove(slots: map<string, Slot>, doc: string): (r: map<string, Slot>)
    ensures doc in r && r[doc] == Slot(None, Pending)
    ensures forall d | d != doc :: (d in r <==> d in slots) && (d in r ==> r[d] == slots[d])
  {
    slots[doc := Slot(None, Pending)]
  }

  /** `handleFileInputChange`: the first chosen file is taken, the rest ignored. */
  function InputChange(slots: map<string, Slot>, doc: string, chosen: seq<File>): (r: map<string, Slot>)
    ensures |chosen| == 0 ==> r == slots
    ensures |chosen| > 0 ==> r == Select(slots, doc, chosen[0])
  {
    if |chosen| > 0 then Select(slots, doc, chosen[0]) else slots
  }

  /** `docStates[doc]?.file` is set. */
  predicate HasFile(slots: map<string, Slot>, doc: string) {
    doc in slots && slots[doc].file.Some?
  }

  /** `allDocsSelected`. */
  predicate AllDocsSelected(docs: seq<string>, slots: map<string, Slot>) {
    forall i | 0 <= i < |docs| :: HasFile(slots, docs[i])
  }

  /** The documents with a file, in requested order, paired with their files. */
  function Collect(docs: seq<string>, slots: map<string, Slot>): (r: seq<(File, string)>)
    ensures |r| <= |docs|
    ensures |r| == |docs| <==> AllDocsSelected(docs, slots)
    ensures AllDocsSelected(docs, slots) ==> forall i | 0 <= i < |docs| :: r[i] == (slots[docs[i]].file.value, docs[i])
    decreases |docs|
  {
    if |docs| == 0 then []
    else
      var rest := Collect(docs[1..], slots);
      assert AllDocsSelected(docs, slots) <==> HasFile(slots, docs[0]) && AllDocsSelected(docs[1..], slots) by {
        if HasFile(slots, docs[0]) && AllDocsSelected(docs[1..], slots) {
          assert forall i | 1 <= i < |docs| :: docs[i] == docs[1..][i - 1];
        }
      }
      (if HasFile(slots, docs[0]) then [(slots[docs[0]].file.value, docs[0])] else []) + rest
  }

  /** The button's counter: how many required documents have a file. */
  function SelectedCount(docs: seq<string>, slots: map<string, Slot>): (r: nat)
    ensures r == |Collect(docs, slots)| && r <= |docs|
    decreases |docs|
  {
    if |docs| == 0 then 0 else (if HasFile(slots, docs[0]) then 1 else 0) + SelectedCount(docs[1..], slots)
  }

  /** The counter reaches the number of required documents exactly when all are selected. */
  lemma CounterFullIffAllSelected(docs: seq<string>, slots: map<string, Slot>)
    ensures SelectedCount(docs, slots) == |docs| <==> AllDocsSelected(docs, slots)
  {
  }

  /** The submission text: singular for one file, otherwise the count. */
  function SubmitText(n: nat): (r: string)
    ensures n == 1 <==> r == "Here is my additional document"
  {
    if n == 1 then "Here is my additional document"
    else
      var r := "Here are my " + NatToString(n) + " additional documents";
      assert r[5] == 'a';
      r
  }

  /** What a submission sends: its text, the files and their types. */
  datatype Submission = Submission(message: string, files: seq<File>, types: seq<string>)

  /** `handleSubmit`: only with every document selected and not yet submitted; marks the request submitted. */
  function Submit(docs: seq<string>, slots: map<string, Slot>, submitted: bool): (r: (bool, Option<Submission>))
    ensures !AllDocsSelected(docs, slots) || submitted ==> r == (submitted, None)
    ensures AllDocsSelected(docs, slots) && !submitted ==> r.0 && r.1.Some?
    ensures r.1.Some? ==> var s := r.1.value;
      && |s.files| == |s.types| == |docs|
      && s.types == docs
      && (forall i | 0 <= i < |docs| :: Some(s.files[i]) == slots[docs[i]].file)
      && s.message == SubmitText(|docs|)
  {
    if !AllDocsSelected(docs, slots) || submitted then (submitted, None)
    else
      var pairs := Collect(docs, slots);
      var files := seq(|pairs|, i requires 0 <= i < |pairs| => pairs[i].0);
      var types := seq(|pairs|, i requires 0 <= i < |pairs| => pairs[i].1);
      (true, Some(Submission(SubmitText(|files|), files, types)))
  }

  /** A second submission sends nothing. */
  lemma SubmitsOnce(docs: seq<string>, slots: map<string, Slot>, slots2: map<string, Slot>)
    ensures var (submitted, _) := Submit(docs, slots, false);
      submitted ==> Submit(docs, slots2, submitted).1.None?
  {
  }

  /** Choosing a file for every default document enables the submission of three files. */
  lemma DefaultRequestSubmitsThree(a: File, b: File, c: File)
    ensures var docs := RequiredDocs(None);
      var slots := Select(Select(Select(InitialSlots(docs), "passport", a), "visa", b), "live_photo", c);
      Submit(docs, slots, false).1 == Some(Submission(SubmitText(3), [a, b, c], docs))
  {
    var docs := RequiredDocs(None);
    var s1 := Select(InitialSlots(docs), "passport", a);
    var s2 := Select(s1, "visa", b);
    var slots := Select(s2, "live_photo", c);
    assert slots[docs[0]].file == Some(a) && slots[docs[1]].file == Some(b) && slots[docs[2]].file == Some(c) by {
      assert "passport" != "visa" && "passport" != "live_photo" && "visa" != "live_photo";
    }
    assert AllDocsSelected(docs, slots);
    var sub := Submit(docs, slots, false).1.value;
    assert sub.files == [a, b, c] by {
      assert sub.files[0] == a && sub.files[1] == b && sub.files[2] == c;
    }
  }

  /**
   * The store's `sendMessage` takes only a text and files, so the types of a
   * submission never reach the request: the form posted carries the files and
   * no document types, however many types were submitted.
   */
  lemma TypesAreDropped(st: KycStore.State, sub: Submission, response: ChatStream.Response, env: KycStore.Env)
    requires KycStore.CanSend(st)
    ensures var r := KycStore.SendMessage(st, sub.message, sub.files, response, env);
      && r.1[0].PostChat?
      && ChatStream.FormFiles(r.1[0].form) == sub.files
      && forall i | 0 <= i < |r.1[0].form| :: !r.1[0].form[i].TypesField?
  {
    KycStore.SendPostsFirst(st, sub.message, sub.files, response, env);
  }
}
