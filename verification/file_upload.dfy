/**
 * The two file pickers: the inline upload card the assistant asks for, which
 * keeps its own list and sends it once, and the drop zone of the approval card,
 * which hands every new list to its owner.
 */
module FileUploadAction {
  import opened Wrappers
  import opened KycTypes
  import KycStore

  /** `action.maxFiles || 3`: a missing or zero limit means three. */
  function MaxFiles(maxFiles: Option<int>): (r: int)
    ensures maxFiles.None? || maxFiles == Some(0) ==> r == 3
    ensures maxFiles.Some? && maxFiles.value != 0 ==> r == maxFiles.value
  {
    if maxFiles.None? || maxFiles.value == 0 then 3 else maxFiles.value
  }

  /** The card's list, the names it sent, and whether it has sent. */
  datatype Card = Card(files: seq<File>, uploaded: seq<string>, completed: bool)

  const Fresh := Card([], [], false)

  /** A drop, or a pick in the file input (`None` = the input reports no file list). */
  function AddFiles(c: Card, disabled: bool, max: int, chosen: Option<seq<File>>): (r: Card)
    ensures disabled || c.completed || chosen.None? ==> r == c
    ensures !disabled && !c.completed && chosen.Some? ==> r == c.(files := Capped(c.files, chosen.value, max))
  {
    if disabled || c.completed || chosen.None? then c
    else c.(files := Capped(c.files, chosen.value, max))
  }

  /** `removeFile`: every file with that name goes, the others stay in order. */
  function RemoveFile(c: Card, name: string): (r: Card)
    ensures r.files == Keep(c.files, name)
    ensures r == c.(files := r.files)
  {
    WithoutNameIsKeep(c.files, name);
    c.(files := WithoutName(c.files, name))
  }

  function Names(files: seq<File>): (r: seq<string>)
    ensures |r| == |files| && forall i | 0 <= i < |files| :: r[i] == files[i].name
  {
    seq(|files|, i requires 0 <= i < |files| => files[i].name)
  }

  /** `handleUpload`: with files and not yet sent, record their names, mark sent, empty the list, then send them. */
  function Upload(c: Card): (r: (Card, Option<(string, seq<File>)>))
    ensures |c.files| == 0 || c.completed ==> r == (c, None)
    ensures |c.files| > 0 && !c.completed ==>
      && r.0 == Card([], Names(c.files), true)
      && r.1 == Some((KycStore.UploadText, c.files))
  {
    if |c.files| == 0 || c.completed then (c, None)
    else (Card([], Names(c.files), true), Some((KycStore.UploadText, c.files)))
  }

  /** What can happen to the card; a failed send is caught and changes nothing. */
  datatype Op = Drop(dropped: seq<File>) | Pick(chosen: Option<seq<File>>) | Remove(name: string) | DoUpload | SendFailed

  function Step(c: Card, disabled: bool, max: int, op: Op): (r: (Card, Option<(string, seq<File>)>)) {
    match op
    case Drop(dropped) => (AddFiles(c, disabled, max, Some(dropped)), None)
    case Pick(chosen) => (AddFiles(c, disabled, max, chosen), None)
    case Remove(name) => (RemoveFile(c, name), None)
    case DoUpload => Upload(c)
    case SendFailed => (c, None)
  }

  /** Runs the operations; returns the final card and the messages sent. */
  function Run(c: Card, disabled: bool, max: int, ops: seq<Op>): (Card, seq<(string, seq<File>)>)
    decreases |ops|
  {
    if |ops| == 0 then (c, [])
    else
      var (c1, sent) := Step(c, disabled, max, ops[0]);
      var (c2, rest) := Run(c1, disabled, max, ops[1..]);
      (c2, (if sent.Some? then [sent.value] else []) + rest)
  }

  /** Once sent, the card stays sent and sends nothing more, whatever happens, a failed send included. */
  lemma {:induction false} CompletedStays(c: Card, disabled: bool, max: int, ops: seq<Op>)
    requires c.completed
    ensures Run(c, disabled, max, ops).0.completed
    ensures Run(c, disabled, max, ops).1 == []
    decreases |ops|
  {
    if |ops| > 0 {
      var (c1, sent) := Step(c, disabled, max, ops[0]);
      CompletedStays(c1, disabled, max, ops[1..]);
    }
  }

  /** From a fresh card, the card sends at most once. */
  lemma {:induction false} SendsAtMostOnce(c: Card, disabled: bool, max: int, ops: seq<Op>)
    ensures |Run(c, disabled, max, ops).1| <= 1
    ensures c.completed ==> |Run(c, disabled, max, ops).1| == 0
    decreases |ops|
  {
    if |ops| > 0 {
      var (c1, sent) := Step(c, disabled, max, ops[0]);
      SendsAtMostOnce(c1, disabled, max, ops[1..]);
      if sent.Some? {
        CompletedStays(c1, disabled, max, ops[1..]);
      }
    }
  }

  /** With a non-negative limit, the list never grows past it. */
  lemma {:induction false} StaysWithinLimit(c: Card, disabled: bool, max: int, ops: seq<Op>)
    requires 0 <= max && |c.files| <= max
    ensures |Run(c, disabled, max, ops).0.files| <= max
    decreases |ops|
  {
    if |ops| > 0 {
      var (c1, sent) := Step(c, disabled, max, ops[0]);
      assert |c1.files| <= max;
      StaysWithinLimit(c1, disabled, max, ops[1..]);
    }
  }

  /** A negative limit drops files from the end: `slice(0, -1)` keeps all but the last. */
  lemma NegativeLimitDropsLast(a: File, b: File)
    ensures AddFiles(Fresh, false, -1, Some([a, b])).files == [a]
  {
  }
}

module FileUploadZone {
  import opened Wrappers
  import opened KycTypes
  import FileUploadAction

  /** The default parameter `maxFiles = 2`: only a missing limit is replaced; zero stays zero. */
  function MaxFiles(maxFiles: Option<int>): (r: int)
    ensures maxFiles.None? ==> r == 2
    ensures maxFiles.Some? ==> r == maxFiles.value
  {
    maxFiles.GetOr(2)
  }

  /**
   * A drop or a pick: the list handed to `onFilesChange`, or None when it is not
   * called (the zone is disabled, or the input reports no file list).
   */
  function AddFiles(files: seq<File>, disabled: bool, max: int, chosen: Option<seq<File>>): (r: Option<seq<File>>)
    ensures disabled || chosen.None? ==> r.None?
    ensures r.Some? ==> r.value == Capped(files, chosen.value, max)
  {
    if disabled || chosen.None? then None else Some(Capped(files, chosen.value, max))
  }

  /** `removeFile`: always hands over the list without that name, even while disabled. */
  function RemoveFile(files: seq<File>, name: string): (r: seq<File>)
    ensures r == Keep(files, name)
  {
    WithoutNameIsKeep(files, name);
    WithoutName(files, name)
  }

  /** With the default limit, a third file is refused. */
  lemma DefaultKeepsTwo(a: File, b: File, c: File)
    ensures AddFiles([a], false, MaxFiles(None), Some([b, c])) == Some([a, b])
  {
    assert ([a] + [b, c])[..2] == [a, b];
  }

  /** An explicit zero limit refuses every file here, while the inline card reads zero as three. */
  lemma ZeroLimitDiffers(a: File)
    ensures AddFiles([], false, MaxFiles(Some(0)), Some([a])) == Some([])
    ensures FileUploadAction.MaxFiles(Some(0)) == 3
  {
  }
}
