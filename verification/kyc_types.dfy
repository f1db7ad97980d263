/**
 * The records the KYC client passes between its parts: one stage of the
 * backend's pipeline and a progress snapshot, and the files a user picks.
 */
module KycTypes {
  import opened Wrappers

  /** One stage as the backend reports it: its name, status and optional message. */
  datatype Stage = Stage(name: string, status: string, message: Option<string>)

  /** A progress snapshot: application id, overall status, current stage, reported stages. */
  datatype KycProgress = KycProgress(applicationId: string, status: string, currentStage: Option<string>, stages: seq<Stage>)

  /** A file chosen in the browser; `tag` tells apart distinct files that share a name. */
  datatype File = File(name: string, tag: nat)

  /** `files.filter(f => f.name !== name)`. */
  function WithoutName(files: seq<File>, name: string): (r: seq<File>)
    ensures |r| <= |files|
    ensures forall i | 0 <= i < |r| :: r[i].name != name && r[i] in files
    ensures forall i | 0 <= i < |files| :: files[i].name != name ==> files[i] in r
    decreases |files|
  {
    if |files| == 0 then []
    else if files[0].name == name then WithoutName(files[1..], name)
    else [files[0]] + WithoutName(files[1..], name)
  }

  /** The files whose name differs, kept from the back: an independent reading of `filter`. */
  function Keep(files: seq<File>, name: string): seq<File>
    decreases |files|
  {
    if |files| == 0 then []
    else
      var last := files[|files| - 1];
      Keep(files[..|files| - 1], name) + (if last.name != name then [last] else [])
  }

  lemma {:induction false} WithoutNameSnoc(files: seq<File>, f: File, name: string)
    ensures WithoutName(files + [f], name) == WithoutName(files, name) + (if f.name != name then [f] else [])
    decreases |files|
  {
    if |files| == 0 {
      assert files + [f] == [f];
    } else {
      assert (files + [f])[1..] == files[1..] + [f];
      WithoutNameSnoc(files[1..], f, name);
    }
  }

  /** Both readings of the filter agree: removal keeps the other files in their order. */
  lemma {:induction false} WithoutNameIsKeep(files: seq<File>, name: string)
    ensures WithoutName(files, name) == Keep(files, name)
    decreases |files|
  {
    if |files| > 0 {
      var init := files[..|files| - 1];
      assert files == init + [files[|files| - 1]];
      WithoutNameIsKeep(init, name);
      WithoutNameSnoc(init, files[|files| - 1], name);
    }
  }

  /** Removing the same name twice removes nothing more. */
  lemma {:induction false} WithoutNameIdempotent(files: seq<File>, name: string)
    ensures WithoutName(WithoutName(files, name), name) == WithoutName(files, name)
    decreases |files|
  {
    if |files| > 0 {
      WithoutNameIdempotent(files[1..], name);
      if files[0].name != name {
        var rest := WithoutName(files[1..], name);
        assert ([files[0]] + rest)[1..] == rest;
      }
    }
  }

  /** Where `slice(0, end)` stops on a list of length `n`: a negative end counts from the back. */
  function SliceEnd(n: nat, end: int): (r: nat)
    ensures r <= n
    ensures end >= 0 ==> r == if end < n then end else n
    ensures end < 0 ==> r == if n + end > 0 then n + end else 0
  {
    if end >= 0 then (if end < n then end else n)
    else if n + end > 0 then n + end else 0
  }

  /** `[...files, ...added].slice(0, max)`: the joined list cut after `max` files. */
  function Capped(files: seq<File>, added: seq<File>, max: int): (r: seq<File>)
    ensures r == (files + added)[..SliceEnd(|files| + |added|, max)]
    ensures max >= 0 ==> |r| <= max
    ensures max >= 0 && |files| <= max ==> r[..|files|] == files
    ensures max >= |files| + |added| ==> r == files + added
  {
    var r := (files + added)[..SliceEnd(|files| + |added|, max)];
    assert max >= 0 && |files| <= max ==> r[..|files|] == (files + added)[..|files|];
    r
  }
}
