/**
 * The inline card that shows the data extracted from the user's documents and
 * asks them to confirm it: how a field name and a field value are shown, which
 * fields are listed, when the card switches to one section per document, and
 * the guard that lets the user answer once.
 */
module ConfirmData {
  import opened Wrappers
  import opened Text
  import opened Json
  import KycStore
  import opened Seqs

  // ---------------------------------------------------------------------------
  // Field names

  /** `\w` of a regular expression without the `u` flag. */
  predicate IsWordChar(c: char) {
    ('a' <= c <= 'z') || ('A' <= c <= 'Z') || ('0' <= c <= '9') || c == '_'
  }

  /** `key.replace(/_/g, ' ')`. */
  function Unsnake(key: string): (r: string)
    ensures |r| == |key|
    ensures forall i | 0 <= i < |key| :: r[i] == (if key[i] == '_' then ' ' else key[i])
  {
    seq(|key|, i requires 0 <= i < |key| => if key[i] == '_' then ' ' else key[i])
  }

  /** A word character at `i` with no word character before it: where `\b\w` matches. */
  predicate WordStart(s: string, i: nat)
    requires i < |s|
  {
    IsWordChar(s[i]) && (i == 0 || !IsWordChar(s[i - 1]))
  }

  /** `.replace(/\b\w/g, l => l.toUpperCase())`. */
  function CapitalizeWords(s: string): (r: string)
    ensures |r| == |s|
    ensures forall i | 0 <= i < |s| :: r[i] == (if WordStart(s, i) then UpperChar(s[i]) else s[i])
  {
    seq(|s|, i requires 0 <= i < |s| => if WordStart(s, i) then UpperChar(s[i]) else s[i])
  }

  /** `formatFieldName`: underscores become spaces and every word starts with a capital. */
  function FormatFieldName(key: string): (r: string)
    ensures |r| == |key|
    ensures forall i | 0 <= i < |r| :: r[i] != '_'
    ensures forall i | 0 <= i < |key| :: (r[i] == ' ' <==> key[i] == '_' || key[i] == ' ')
    ensures forall i | 0 <= i < |key| :: UpperChar(r[i]) == UpperChar(if key[i] == '_' then ' ' else key[i])
    ensures forall i | 0 <= i < |key| && 'a' <= r[i] <= 'z' :: i > 0 && IsWordChar(r[i - 1])
  {
    var u := Unsnake(key);
    var r := CapitalizeWords(u);
    assert forall i | 0 <= i < |key| :: r[i] == (if WordStart(u, i) then UpperChar(u[i]) else u[i]);
    r
  }

  /** Formatting a formatted name changes nothing more. */
  lemma FormatFieldNameIdempotent(key: string)
    ensures FormatFieldName(FormatFieldName(key)) == FormatFieldName(key)
  {
    var r := FormatFieldName(key);
    var u := Unsnake(r);
    assert u == r;
    var rr := CapitalizeWords(u);
    forall i | 0 <= i < |r|
      ensures rr[i] == r[i]
    {
      if WordStart(u, i) {
        assert !('a' <= r[i] <= 'z');
      }
    }
  }

  /** A snake-case key reads as title-case words. */
  lemma FormatFieldNameExample()
    ensures FormatFieldName("date_of_birth") == "Date Of Birth"
  {
    UnsnakeExample();
    CapitalizeExample();
  }

  lemma UnsnakeExample()
    ensures Unsnake("date_of_birth") == "date of birth"
  {
  }

  lemma CapitalizeExample()
    ensures CapitalizeWords("date of birth") == "Date Of Birth"
  {
    var u := "date of birth";
    assert WordStart(u, 0) && WordStart(u, 5) && WordStart(u, 8);
    assert forall i | 0 <= i < |u| && i != 0 && i != 5 && i != 8 :: !WordStart(u, i);
  }

  // ---------------------------------------------------------------------------
  // Field values

  /** The texts that mean "no value" once trimmed and upper-cased. */
  predicate Placeholder(s: string) {
    s in {"UNREADABLE", "N/A", "UNKNOWN", ""}
  }

  /** `String(value).trim().toUpperCase()` is a placeholder. */
  predicate PlaceholderText(v: Json) {
    Placeholder(Upper(Trim(ToStr(v))))
  }

  /** `typeof v === 'string' || typeof v === 'number'`. */
  predicate Listable(j: Json) {
    j.JStr? || j.JNum?
  }

  /** `value.filter(v => typeof v === 'string' || typeof v === 'number')`. */
  function ListableItems(items: seq<Json>): (r: seq<Json>)
    ensures forall i | 0 <= i < |r| :: Listable(r[i]) && r[i] in items
    ensures forall i | 0 <= i < |items| :: Listable(items[i]) ==> items[i] in r
    decreases |items|
  {
    if |items| == 0 then []
    else (if Listable(items[0]) then [items[0]] else []) + ListableItems(items[1..])
  }

  /** `formatValue`: `undefined` (None) and null show nothing, and neither does a placeholder text. */
  function FormatValue(value: Option<Json>): (r: Option<string>)
    ensures value.None? || value == Some(JNull) ==> r.None?
    ensures value.Some? && (PlaceholderText(value.value) || value.value.JObj?) ==> r.None?
    ensures value.Some? && !value.value.JArr? && r.Some? ==> r.value == ToStr(value.value)
    ensures value.Some? && (value.value.JStr? || value.value.JNum? || value.value.JBool?) ==>
      (r.Some? <==> !PlaceholderText(value.value))
    ensures value.Some? && value.value.JArr? && !PlaceholderText(value.value) ==>
      (r.Some? <==> |ListableItems(value.value.items)| > 0)
  {
    if value.None? || value.value.JNull? then None
    else
      var v := value.value;
      if PlaceholderText(v) then None
      else if v.JArr? then ListText(v.items)
      else if v.JObj? then None
      else Some(ToStr(v))
  }

  /** The array branch of `formatValue`: the strings and numbers, joined with ", ", and nothing when there are none. */
  function ListText(items: seq<Json>): (r: Option<string>)
    ensures r.Some? <==> |ListableItems(items)| > 0
  {
    var valid := ListableItems(items);
    if |valid| > 0 then Some(Join(seq(|valid|, i requires 0 <= i < |valid| => ToStr(valid[i])), ", ")) else None
  }

  lemma UpperOfDigitsAndCapitals(s: string)
    requires forall i | 0 <= i < |s| :: !('a' <= s[i] <= 'z')
    ensures Upper(s) == s
  {
  }

  lemma ZeroText()
    ensures !PlaceholderText(JNum("0"))
  {
    TrimOfTrimmed("0");
    UpperOfDigitsAndCapitals("0");
  }

  lemma FalseText()
    ensures !PlaceholderText(JBool(false))
  {
    assert ToStr(JBool(false)) == "false";
    TrimOfTrimmed("false");
    PlaceholderLengths(Upper("false"));
  }

  /** Every placeholder has 0, 3, 7 or 10 characters. */
  lemma PlaceholderLengths(s: string)
    ensures Placeholder(s) ==> |s| in {0, 3, 7, 10}
  {
  }

  /** A string, number or boolean whose text is no placeholder is shown as its text. */
  lemma ScalarShown(v: Json)
    requires (v.JStr? || v.JNum? || v.JBool?) && !PlaceholderText(v)
    ensures FormatValue(Some(v)) == Some(ToStr(v))
  {
  }

  /** Zero and false are values, shown as `0` and `false`. */
  lemma ZeroAndFalseShown()
    ensures FormatValue(Some(JNum("0"))) == Some("0")
    ensures FormatValue(Some(JBool(false))) == Some("false")
  {
    ZeroText();
    ScalarShown(JNum("0"));
    FalseText();
    ScalarShown(JBool(false));
  }

  lemma NaText()
    ensures PlaceholderText(JArr([JStr("n/a")]))
  {
    assert ToStr(JArr([JStr("n/a")])) == "n/a";
    TrimOfTrimmed("n/a");
    assert Upper("n/a") == "N/A";
  }

  /** An empty array and an array holding only a placeholder show nothing. */
  lemma EmptyAndPlaceholderArraysHidden()
    ensures FormatValue(Some(JArr([]))).None?
    ensures FormatValue(Some(JArr([JStr("n/a")]))).None?
  {
    assert ToStr(JArr([])) == "";
    assert PlaceholderText(JArr([]));
    NaText();
  }

  lemma MixedListToStr()
    ensures ToStr(JArr([JStr("unknown"), JObj([])])) == "unknown,[object Object]"
  {
    var items := [JStr("unknown"), JObj([])];
    var parts := seq(|items|, i requires 0 <= i < |items| => if items[i] == JNull then "" else ToStr(items[i]));
    assert parts == ["unknown", "[object Object]"];
    assert Join(parts, ",") == "unknown" + "," + Join(parts[1..], ",");
    assert parts[1..] == ["[object Object]"];
  }

  lemma MixedListText()
    ensures !PlaceholderText(JArr([JStr("unknown"), JObj([])]))
  {
    var t := "unknown,[object Object]";
    MixedListToStr();
    TrimOfTrimmed(t);
    assert |Upper(t)| == 23;
  }

  /** The array's own text is tested, not its items': a placeholder item next to an object is still listed. */
  lemma PlaceholderItemListed()
    ensures FormatValue(Some(JArr([JStr("unknown"), JObj([])]))) == Some("unknown")
  {
    var v := JArr([JStr("unknown"), JObj([])]);
    assert FormatValue(Some(v)) == ListText(v.items) by { MixedListText(); }
    MixedListItems();
  }

  lemma MixedListItems()
    ensures ListText([JStr("unknown"), JObj([])]) == Some("unknown")
  {
    var items := [JStr("unknown"), JObj([])];
    assert ListableItems(items[1..]) == [];
    assert ListableItems(items) == [JStr("unknown")];
  }

  // ---------------------------------------------------------------------------
  // Listed fields

  /** Keys the card never lists. */
  predicate HiddenKey(key: string) {
    key == "document_type" || StartsWith(key, "_")
  }

  /** The two filters around the formatting: shown keys with a value, in order. */
  function Fields(pairs: seq<(string, Option<string>)>): (r: seq<(string, string)>)
    ensures forall i | 0 <= i < |r| :: !HiddenKey(r[i].0) && (r[i].0, Some(r[i].1)) in pairs
    ensures forall j | 0 <= j < |pairs| && !HiddenKey(pairs[j].0) && pairs[j].1.Some? ::
      (pairs[j].0, pairs[j].1.value) in r
    decreases |pairs|
  {
    if |pairs| == 0 then []
    else
      var rest := Fields(pairs[1..]);
      assert forall j | 1 <= j < |pairs| :: pairs[j] == pairs[1..][j - 1];
      (if !HiddenKey(pairs[0].0) && pairs[0].1.Some? then [(pairs[0].0, pairs[0].1.value)] else []) + rest
  }

  /** Listing keeps the entries' order: the fields of a concatenation are the concatenated fields. */
  lemma {:induction false} FieldsConcat(a: seq<(string, Option<string>)>, b: seq<(string, Option<string>)>)
    ensures Fields(a + b) == Fields(a) + Fields(b)
    decreases |a|
  {
    if |a| == 0 {
      assert a + b == b;
    } else {
      assert (a + b)[1..] == a[1..] + b;
      FieldsConcat(a[1..], b);
      var x := if !HiddenKey(a[0].0) && a[0].1.Some? then [(a[0].0, a[0].1.value)] else [];
      assert Fields(a + b) == x + (Fields(a[1..]) + Fields(b));
      AppendAssoc(x, Fields(a[1..]), Fields(b));
    }
  }

  /** Each entry with its value formatted. */
  function Formatted(entries: seq<(string, Json)>): (r: seq<(string, Option<string>)>)
    ensures |r| == |entries|
    ensures forall i | 0 <= i < |entries| :: r[i] == (entries[i].0, FormatValue(Some(entries[i].1)))
  {
    seq(|entries|, i requires 0 <= i < |entries| => (entries[i].0, FormatValue(Some(entries[i].1))))
  }

  /** `getDisplayFields`: nothing for a falsy value, otherwise the listed entries of the value. */
  function DisplayFields(data: Option<Json>): (r: seq<(string, string)>)
    ensures !TruthyOpt(data) ==> r == []
    ensures forall i | 0 <= i < |r| :: r[i].0 != "document_type" && !StartsWith(r[i].0, "_")
  {
    if !TruthyOpt(data) then [] else Fields(Formatted(Entries(data.value)))
  }

  /** Every field listed for an object is one of its members, with the member's formatted value. */
  lemma DisplayFieldsFromMembers(members: seq<Member>)
    ensures var r := DisplayFields(Some(JObj(members)));
      forall i | 0 <= i < |r| :: exists j | 0 <= j < |members| ::
        members[j].key == r[i].0 && FormatValue(Some(members[j].value)) == Some(r[i].1)
  {
    var ps := Formatted(Entries(JObj(members)));
    var r := Fields(ps);
    forall i | 0 <= i < |r|
      ensures exists j | 0 <= j < |members| :: members[j].key == r[i].0 && FormatValue(Some(members[j].value)) == Some(r[i].1)
    {
      var j :| 0 <= j < |ps| && ps[j] == (r[i].0, Some(r[i].1));
      assert members[j].key == r[i].0;
    }
  }

  /** Every member of an object with a shown key and a shown value is listed. */
  lemma DisplayFieldsListMembers(members: seq<Member>)
    ensures var r := DisplayFields(Some(JObj(members)));
      forall j | 0 <= j < |members| && !HiddenKey(members[j].key) && FormatValue(Some(members[j].value)).Some? ::
        (members[j].key, FormatValue(Some(members[j].value)).value) in r
  {
    var ps := Formatted(Entries(JObj(members)));
    forall j | 0 <= j < |members| && !HiddenKey(members[j].key) && FormatValue(Some(members[j].value)).Some?
      ensures (members[j].key, FormatValue(Some(members[j].value)).value) in Fields(ps)
    {
      assert ps[j] == (members[j].key, FormatValue(Some(members[j].value)));
    }
  }

  /** The fields of an object with two members: the first member's field, if any, then the second's. */
  lemma DisplayFieldsInOrder(m1: Member, m2: Member)
    ensures DisplayFields(Some(JObj([m1, m2]))) == DisplayFields(Some(JObj([m1]))) + DisplayFields(Some(JObj([m2])))
  {
    var p1 := Formatted(Entries(JObj([m1])));
    var p2 := Formatted(Entries(JObj([m2])));
    assert Formatted(Entries(JObj([m1, m2]))) == p1 + p2;
    FieldsConcat(p1, p2);
  }

  // ---------------------------------------------------------------------------
  // One section per document

  /** `doc.data || doc.extracted_data`, non-empty as an object. */
  predicate HasDocumentData(doc: Json) {
    var d := if TruthyOpt(Get(doc, "data")) then Get(doc, "data") else Get(doc, "extracted_data");
    TruthyOpt(d) && |Entries(d.value)| > 0
  }

  /** `showPerDocumentView`: more than one document and one of them with data. */
  predicate ShowPerDocumentView(documents: Option<seq<Json>>) {
    && documents.Some? && |documents.value| > 1
    && exists i | 0 <= i < |documents.value| :: HasDocumentData(documents.value[i])
  }

  /** One document never gets its own section, however much data it carries. */
  lemma SingleDocumentMerged(doc: Json)
    ensures !ShowPerDocumentView(Some([doc]))
    ensures !ShowPerDocumentView(None)
  {
  }

  /** Two documents get their own sections exactly when one of them has data. */
  lemma TwoDocumentsSplit(a: Json, b: Json)
    ensures ShowPerDocumentView(Some([a, b])) <==> HasDocumentData(a) || HasDocumentData(b)
  {
    if HasDocumentData(a) {
      assert [a, b][0] == a;
    }
    if HasDocumentData(b) {
      assert [a, b][1] == b;
    }
  }

  // ---------------------------------------------------------------------------
  // Answering once

  datatype Decision = Confirmed | Rejected

  /** `isProcessing` and `decision` of the card. */
  datatype Guard = Guard(processing: bool, decision: Option<Decision>)

  const Fresh := Guard(false, None)

  const RejectText := "The extracted data is not correct. Please let me upload a different document."

  /** A click on a button, or the end of the message it sent (`ok` = it did not throw). */
  datatype Event = Click(choice: Decision) | Settle(ok: bool)

  /** One event: a click while idle and undecided sends its message; a failed send forgets the decision. */
  function Step(g: Guard, e: Event): (r: (Guard, Option<string>))
    ensures e.Click? && (g.processing || g.decision.Some?) ==> r == (g, None)
    ensures e.Click? && !g.processing && g.decision.None? ==>
      r.0 == Guard(true, Some(e.choice)) && r.1 == Some(if e.choice == Confirmed then KycStore.ConfirmText else RejectText)
    ensures e.Settle? ==> r.1.None? && !r.0.processing && r.0.decision == (if e.ok then g.decision else None)
  {
    match e
    case Click(choice) =>
      if g.processing || g.decision.Some? then (g, None)
      else (Guard(true, Some(choice)), Some(if choice == Confirmed then KycStore.ConfirmText else RejectText))
    case Settle(ok) => (Guard(false, if ok then g.decision else None), None)
  }

  /** Runs the events; returns the final guard and the messages sent, in order. */
  function Run(g: Guard, events: seq<Event>): (Guard, seq<string>)
    decreases |events|
  {
    if |events| == 0 then (g, [])
    else
      var (g1, sent) := Step(g, events[0]);
      var (g2, rest) := Run(g1, events[1..]);
      (g2, (if sent.Some? then [sent.value] else []) + rest)
  }

  /** How many sends failed. */
  function Failures(events: seq<Event>): nat
    decreases |events|
  {
    if |events| == 0 then 0
    else (if events[0] == Settle(false) then 1 else 0) + Failures(events[1..])
  }

  /** Each message sent beyond the first is paid for by a failed send before it. */
  lemma {:induction false} RunSendsOnce(g: Guard, events: seq<Event>)
    ensures var (g2, sent) := Run(g, events);
      |sent| + (if g.decision.Some? then 1 else 0) <= Failures(events) + (if g2.decision.Some? then 1 else 0)
    decreases |events|
  {
    if |events| > 0 {
      var (g1, s) := Step(g, events[0]);
      RunSendsOnce(g1, events[1..]);
    }
  }

  /** From a fresh card, without a failed send, at most one message is ever sent. */
  lemma AnswersOnce(events: seq<Event>)
    requires Failures(events) == 0
    ensures |Run(Fresh, events).1| <= 1
  {
    RunSendsOnce(Fresh, events);
  }
}
