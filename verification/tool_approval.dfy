/**
 * The approval card shown for a pending tool approval: which card a kind of
 * approval gets, and the rows of extracted data the confirmation card lists.
 */
module ToolApproval {
  import opened Wrappers
  import opened Json
  import ConfirmData

  /** The rows of the data card and whether it offers the "Data Incorrect" button. */
  datatype Card =
    | UploadCard
    | DataCard(rows: seq<(string, string)>, rejectButton: bool)
    | GenericCard

  /** The card's own label transform: underscores to spaces, then a capital at every word start. */
  function Label(key: string): string {
    ConfirmData.CapitalizeWords(ConfirmData.Unsnake(key))
  }

  /** The card's label is the confirmation card's field name. */
  lemma LabelIsFormatFieldName(key: string)
    ensures Label(key) == ConfirmData.FormatFieldName(key)
  {
  }

  /** Entries with a truthy value and a key other than `document_type`, labelled, with `String(value)`. */
  function Rows(entries: seq<(string, Json)>): (r: seq<(string, string)>)
    ensures |r| <= |entries|
    ensures forall i | 0 <= i < |r| :: exists e | e in entries ::
      && Truthy(e.1) && e.0 != "document_type" && r[i] == (Label(e.0), ToStr(e.1))
    ensures forall j | 0 <= j < |entries| && Truthy(entries[j].1) && entries[j].0 != "document_type" ::
      (Label(entries[j].0), ToStr(entries[j].1)) in r
    decreases |entries|
  {
    if |entries| == 0 then []
    else
      var (key, value) := entries[0];
      var rest := Rows(entries[1..]);
      assert forall j | 1 <= j < |entries| :: entries[j] == entries[1..][j - 1];
      (if Truthy(value) && key != "document_type" then [(Label(key), ToStr(value))] else []) + rest
  }

  /** The card for an approval of the given kind, with the store's extracted data. */
  function Render(kind: string, extractedData: Option<Json>, hasReject: bool): (r: Card)
    ensures kind == "file_upload" <==> r == UploadCard
    ensures r.DataCard? <==> kind == "confirm_data" && TruthyOpt(extractedData)
    ensures r.DataCard? ==> r.rejectButton == hasReject
  {
    if kind == "file_upload" then UploadCard
    else if kind == "confirm_data" && TruthyOpt(extractedData) then DataCard(Rows(Entries(extractedData.value)), hasReject)
    else GenericCard
  }

  /** The data card hides a zero. */
  lemma ZeroHidden(key: string)
    ensures Render("confirm_data", Some(JObj([Member(key, JNum("0"))])), false) == DataCard([], false)
  {
    var es := Entries(JObj([Member(key, JNum("0"))]));
    assert es == [(key, JNum("0"))];
    assert es[1..] == [];
  }

  /** The confirmation card shows the zero that the data card hides. */
  lemma ZeroHiddenHereShownThere(key: string)
    requires !ConfirmData.HiddenKey(key)
    ensures Render("confirm_data", Some(JObj([Member(key, JNum("0"))])), false) == DataCard([], false)
    ensures ConfirmData.DisplayFields(Some(JObj([Member(key, JNum("0"))]))) == [(key, "0")]
  {
    ZeroHidden(key);
    ZeroShownThere(key);
  }

  /** An object with one listed member shows exactly that member on the confirmation card. */
  lemma OneMemberShown(key: string, v: Json)
    requires !ConfirmData.HiddenKey(key) && ConfirmData.FormatValue(Some(v)).Some?
    ensures ConfirmData.DisplayFields(Some(JObj([Member(key, v)]))) == [(key, ConfirmData.FormatValue(Some(v)).value)]
  {
    var es := Entries(JObj([Member(key, v)]));
    assert es == [(key, v)];
    var ps := ConfirmData.Formatted(es);
    assert ps == [(key, ConfirmData.FormatValue(Some(v)))];
    OnePairListed(key, ConfirmData.FormatValue(Some(v)).value);
  }

  lemma OnePairListed(key: string, s: string)
    requires !ConfirmData.HiddenKey(key)
    ensures ConfirmData.Fields([(key, Some(s))]) == [(key, s)]
  {
    var ps := [(key, Some(s))];
    assert ps[1..] == [];
  }

  lemma ZeroShownThere(key: string)
    requires !ConfirmData.HiddenKey(key)
    ensures ConfirmData.DisplayFields(Some(JObj([Member(key, JNum("0"))]))) == [(key, "0")]
  {
    ConfirmData.ZeroAndFalseShown();
    OneMemberShown(key, JNum("0"));
  }
}
