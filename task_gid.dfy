/** The Asana task gid is carried by the pull request's source branch name
    as its last `/`-separated segment. */
module TaskGid {
  import opened Wrappers
  import opened JsBuiltins

  const NoSlashPrefix := "Could not find slash in ref: "

  /** `getAsanaTaskGid`: everything after the last `/` of the branch ref.
      A ref without `/` is an error; no gid is produced then. */
  function GetAsanaTaskGid(ref: string): (r: Result<string, string>)
    ensures r.Failure? <==> '/' !in ref
    ensures r.Failure? ==> r.error == NoSlashPrefix + ref
    ensures r.Success? ==>
      && '/' !in r.value
      && |r.value| < |ref|
      && ref == ref[..|ref| - |r.value| - 1] + "/" + r.value
  {
    var lastSlashIndex := LastIndexOf(ref, '/');
    if lastSlashIndex == -1 then Failure(NoSlashPrefix + ref)
    else
      assert ref == ref[..lastSlashIndex] + "/" + ref[lastSlashIndex + 1..];
      Success(ref[lastSlashIndex + 1..])
  }

  /** Any prefix, a `/` and a slash-free gid: the gid is what comes back. */
  lemma GidOfBranch(prefix: string, gid: string)
    requires '/' !in gid
    ensures GetAsanaTaskGid(prefix + "/" + gid) == Success(gid)
  {
    var ref := prefix + "/" + gid;
    var r := GetAsanaTaskGid(ref);
    assert ref[|prefix|] == '/';
    var v := r.value;
    assert v == ref[|ref| - |v|..] == gid;
  }

  /** The two refs used as examples: `feature/998877` names task `998877`,
      a ref without slash is refused with the ref in the message. */
  lemma GidExamples()
    ensures GetAsanaTaskGid("feature/998877") == Success("998877")
    ensures GetAsanaTaskGid("no-slash-here") == Failure("Could not find slash in ref: no-slash-here")
  {
    GidOfBranch("feature", "998877");
    assert "feature" + "/" + "998877" == "feature/998877";
    var noSlash := "no-slash-here";
    assert forall k :: 0 <= k < |noSlash| ==> noSlash[k] != '/';
    assert NoSlashPrefix + noSlash == "Could not find slash in ref: no-slash-here";
  }
}
