/** The action's entry point `run`: validate the payload, derive the gid,
    post the PR link on the task, fetch the task's permalink, post it on the
    pull request, then publish the two outputs. The first step that throws
    ends the run with `setFailed` and its message. */
module Action {
  import opened Wrappers
  import opened JsBuiltins
  import opened TaskGid
  import opened Validation
  import opened Linking

  const PrUrlOutput := "pr_url"
  const TaskUrlOutput := "asana_task_url"

  /** `const [owner, repo] = full_name.split("/")`: the first two pieces;
      `repo` is `undefined` when there is no `/`. */
  function OwnerRepo(fullName: string): (r: (string, Option<string>))
    ensures '/' !in r.0
    ensures r.1.None? <==> '/' !in fullName
    ensures r.1.None? ==> r.0 == fullName
    ensures r.1.Some? ==> '/' !in r.1.value
    ensures r.1.Some? ==> |r.0| + 1 + |r.1.value| <= |fullName|
    ensures r.1.Some? ==> fullName[..|r.0| + 1 + |r.1.value|] == r.0 + "/" + r.1.value
    ensures r.1.Some? ==> |r.0| + 1 + |r.1.value| == |fullName| || fullName[|r.0| + 1 + |r.1.value|] == '/'
  {
    var parts := Split(fullName, '/');
    SplitFirstPiece(fullName, '/');
    if |parts| > 1 then
      SplitFirstTwoPieces(fullName, '/');
      (parts[0], Some(parts[1]))
    else
      (parts[0], None)
  }

  /** An `owner/repo` name splits into its owner and repository. */
  lemma OwnerRepoOfFullName(owner: string, repo: string)
    requires '/' !in owner && '/' !in repo
    ensures OwnerRepo(owner + "/" + repo) == (owner, Some(repo))
  {
    SplitTwoPieces(owner, repo, '/');
  }

  /** The effects of one run, as `run` performs them. */
  function RunTrace(payload: Payload, asana: AsanaClient, github: GithubClient): seq<Effect> {
    match DetailsOf(payload)
    case Failure(message) => [SetFailed(message)]
    case Success(details) =>
      match GetAsanaTaskGid(details.ref)
      case Failure(message) => [SetFailed(message)]
      case Success(gid) => LinkTrace(gid, details, asana, github)
  }

  /** The effects of the remote part of a run, once the details are valid
      and the gid is known. */
  function LinkTrace(gid: string, details: GithubDetails, asana: AsanaClient, github: GithubClient): seq<Effect> {
    var story := AddPRToAsanaTask(gid, details.prUrl, asana);
    if story.result.Failure? then [story.effect, SetFailed(story.result.error)]
    else
      var fetch := GetAsanaTaskUrl(gid, asana);
      if fetch.result.Failure? then [story.effect, fetch.effect, SetFailed(fetch.result.error)]
      else
        var asanaTaskUrl := fetch.result.value;
        var (owner, repo) := OwnerRepo(details.fullName);
        var comment := CommentOnIssue(asanaTaskUrl, owner, repo, details.issueNumber, github);
        if comment.result.Failure? then
          [story.effect, fetch.effect, comment.effect, SetFailed(comment.result.error)]
        else
          [story.effect, fetch.effect, comment.effect,
           SetOutput(PrUrlOutput, details.prUrl), SetOutput(TaskUrlOutput, asanaTaskUrl)]
  }

  /** `run`: each step in turn; the first error is caught, reported with
      `setFailed`, and nothing after it happens. */
  method Run(payload: Payload, asana: AsanaClient, github: GithubClient) returns (trace: seq<Effect>)
    ensures trace == RunTrace(payload, asana, github)
  {
    trace := [];
    var details := GetGithubDetails(payload);
    if details.Failure? {
      trace := trace + [SetFailed(details.error)];
      return;
    }
    var (owner, repo) := OwnerRepo(details.value.fullName);
    var gid := GetAsanaTaskGid(details.value.ref);
    if gid.Failure? {
      trace := trace + [SetFailed(gid.error)];
      return;
    }
    assert RunTrace(payload, asana, github) == LinkTrace(gid.value, details.value, asana, github);
    var story := AddPRToAsanaTask(gid.value, details.value.prUrl, asana);
    trace := trace + [story.effect];
    if story.result.Failure? {
      trace := trace + [SetFailed(story.result.error)];
      return;
    }
    var fetch := GetAsanaTaskUrl(gid.value, asana);
    trace := trace + [fetch.effect];
    if fetch.result.Failure? {
      trace := trace + [SetFailed(fetch.result.error)];
      return;
    }
    var asanaTaskUrl := fetch.result.value;
    var comment := CommentOnIssue(asanaTaskUrl, owner, repo, details.value.issueNumber, github);
    trace := trace + [comment.effect];
    if comment.result.Failure? {
      trace := trace + [SetFailed(comment.result.error)];
      return;
    }
    trace := trace + [SetOutput(PrUrlOutput, details.value.prUrl)];
    trace := trace + [SetOutput(TaskUrlOutput, asanaTaskUrl)];
  }

  /** The effect sequences a run can produce: the steps in their fixed order
      (story, fetch, comment, two outputs), cut short by a `setFailed` at the
      first step that throws. */
  predicate InRunOrder(t: seq<Effect>) {
    || (|t| == 1 && t[0].SetFailed?)
    || (|t| == 2 && t[0].CreateStoryForTask? && t[1].SetFailed?)
    || (|t| == 3 && t[0].CreateStoryForTask? && t[1].GetTask? && t[2].SetFailed?)
    || (|t| == 4 && t[0].CreateStoryForTask? && t[1].GetTask? && t[2].CreateComment? && t[3].SetFailed?)
    || (|t| == 5 && t[0].CreateStoryForTask? && t[1].GetTask? && t[2].CreateComment?
        && t[3].SetOutput? && t[3].name == PrUrlOutput && t[4].SetOutput? && t[4].name == TaskUrlOutput)
  }

  /** The kinds of effect a run has come in the fixed order, and a failure
      at any step is the last effect. The arguments of each effect are
      stated by `RunSucceedsIff`, `RunRemoteCallFails`, `RunTaskNotFound`
      and `RunMissingPermalink`. */
  lemma RunStepOrder(payload: Payload, asana: AsanaClient, github: GithubClient)
    ensures InRunOrder(RunTrace(payload, asana, github))
  {
    match DetailsOf(payload)
    case Failure(_) =>
    case Success(details) =>
      match GetAsanaTaskGid(details.ref)
      case Failure(_) =>
      case Success(gid) =>
        assert RunTrace(payload, asana, github) == LinkTrace(gid, details, asana, github);
  }

  /** Outputs are published exactly when the run does not fail, and a
      failure is reported once, as the last effect. */
  lemma RunOutputsOnlyOnSuccess(payload: Payload, asana: AsanaClient, github: GithubClient)
    ensures var trace := RunTrace(payload, asana, github);
      && |trace| > 0
      && (forall i :: 0 <= i < |trace| - 1 ==> !trace[i].SetFailed?)
      && ((exists i :: 0 <= i < |trace| && trace[i].SetOutput?) <==> !trace[|trace| - 1].SetFailed?)
  {
    RunStepOrder(payload, asana, github);
    InRunOrderReportsOnce(RunTrace(payload, asana, github));
  }

  /** In a trace in run order, a failure can only be the last effect, and
      outputs appear exactly when it is not a failure. */
  lemma InRunOrderReportsOnce(t: seq<Effect>)
    requires InRunOrder(t)
    ensures |t| > 0
    ensures forall i :: 0 <= i < |t| - 1 ==> !t[i].SetFailed?
    ensures (exists i :: 0 <= i < |t| && t[i].SetOutput?) <==> !t[|t| - 1].SetFailed?
  {
    if |t| == 5 {
      assert t[3].SetOutput?;
    }
  }

  /** A payload that fails validation, or a ref without `/`, fails the run
      before any remote call, with that error's message. */
  lemma RunRejectsBeforeRemoteCalls(payload: Payload, asana: AsanaClient, github: GithubClient)
    requires DetailsOf(payload).Failure? || GetAsanaTaskGid(DetailsOf(payload).value.ref).Failure?
    ensures RunTrace(payload, asana, github) == [SetFailed(
      if DetailsOf(payload).Failure? then DetailsOf(payload).error
      else NoSlashPrefix + payload.headRef.value)]
  {
  }

  /** Everything a run needs to go through: a valid payload whose ref yields
      a gid (it holds a `/`), Asana calls that succeed, a task with a non-empty permalink,
      and a GitHub call that succeeds. */
  predicate Linkable(payload: Payload, asana: AsanaClient, github: GithubClient) {
    && Given(payload.headRef) && Given(payload.htmlUrl)
    && payload.number.Some? && payload.number.value != 0
    && Given(payload.repositoryFullName)
    && asana.createStoryError.None? && asana.getTaskError.None?
    && GetAsanaTaskGid(payload.headRef.value).Success?
    && GetAsanaTaskGid(payload.headRef.value).value in asana.tasks
    && Given(asana.tasks[GetAsanaTaskGid(payload.headRef.value).value].permalinkUrl)
    && github.createCommentError.None?
  }

  /** The run fails exactly when one of the conditions of `Linkable` does
      not hold; when it holds, the run posts `GitHub PR: <pr url>` on the
      task, reads the permalink, posts `Asana Task: <permalink>` on the pull
      request, and publishes the PR URL and the permalink. */
  lemma RunSucceedsIff(payload: Payload, asana: AsanaClient, github: GithubClient)
    ensures var trace := RunTrace(payload, asana, github);
      !trace[|trace| - 1].SetFailed? <==> Linkable(payload, asana, github)
    ensures Linkable(payload, asana, github) ==>
      var gid := GetAsanaTaskGid(payload.headRef.value).value;
      var prUrl := payload.htmlUrl.value;
      var permalink := asana.tasks[gid].permalinkUrl.value;
      var (owner, repo) := OwnerRepo(payload.repositoryFullName.value);
      RunTrace(payload, asana, github) == [
        CreateStoryForTask(gid, StoryPrefix + prUrl),
        GetTask(gid),
        CreateComment(owner, repo, payload.number.value, CommentPrefix + permalink),
        SetOutput(PrUrlOutput, prUrl),
        SetOutput(TaskUrlOutput, permalink)]
  {
    var trace := RunTrace(payload, asana, github);
    RunOutputsOnlyOnSuccess(payload, asana, github);
    if Linkable(payload, asana, github) {
      var gid := GetAsanaTaskGid(payload.headRef.value).value;
      var prUrl := payload.htmlUrl.value;
      var permalink := asana.tasks[gid].permalinkUrl.value;
      assert trace[0].text == StoryPrefix + prUrl;
      assert trace[2].body == CommentPrefix + permalink;
    }
  }

  /** An unknown gid: the story has already been posted, the fetch fails
      with `Task not found`, and nothing reaches GitHub. */
  lemma RunTaskNotFound(payload: Payload, asana: AsanaClient, github: GithubClient)
    requires DetailsOf(payload).Success?
    requires GetAsanaTaskGid(payload.headRef.value).Success?
    requires asana.createStoryError.None? && asana.getTaskError.None?
    requires GetAsanaTaskGid(payload.headRef.value).value !in asana.tasks
    ensures var gid := GetAsanaTaskGid(payload.headRef.value).value;
      RunTrace(payload, asana, github) == [
        CreateStoryForTask(gid, StoryPrefix + payload.htmlUrl.value),
        GetTask(gid),
        SetFailed(TaskNotFoundPrefix + gid)]
  {
    var details := DetailsOf(payload).value;
    var gid := GetAsanaTaskGid(payload.headRef.value).value;
    assert RunTrace(payload, asana, github) == LinkTrace(gid, details, asana, github);
    assert GetAsanaTaskUrl(gid, asana).result == Failure(TaskNotFoundPrefix + gid);
  }

  /** A task without a usable permalink: the story has been posted and the
      task fetched, then the run fails with `Task URL not found`, and
      nothing reaches GitHub. */
  lemma RunMissingPermalink(payload: Payload, asana: AsanaClient, github: GithubClient)
    requires DetailsOf(payload).Success?
    requires GetAsanaTaskGid(payload.headRef.value).Success?
    requires asana.createStoryError.None? && asana.getTaskError.None?
    requires GetAsanaTaskGid(payload.headRef.value).value in asana.tasks
    requires !Given(asana.tasks[GetAsanaTaskGid(payload.headRef.value).value].permalinkUrl)
    ensures var gid := GetAsanaTaskGid(payload.headRef.value).value;
      RunTrace(payload, asana, github) == [
        CreateStoryForTask(gid, StoryPrefix + payload.htmlUrl.value),
        GetTask(gid),
        SetFailed(UrlNotFoundPrefix + gid)]
  {
    var details := DetailsOf(payload).value;
    var gid := GetAsanaTaskGid(payload.headRef.value).value;
    assert RunTrace(payload, asana, github) == LinkTrace(gid, details, asana, github);
    assert GetAsanaTaskUrl(gid, asana).result == Failure(UrlNotFoundPrefix + gid);
  }

  /** A client call that throws ends the run there: the effects up to and
      including the failed request, then `setFailed` with the client's own
      message, unchanged. */
  lemma RunRemoteCallFails(payload: Payload, asana: AsanaClient, github: GithubClient)
    requires DetailsOf(payload).Success?
    requires GetAsanaTaskGid(payload.headRef.value).Success?
    ensures var gid := GetAsanaTaskGid(payload.headRef.value).value;
      var story := CreateStoryForTask(gid, StoryPrefix + payload.htmlUrl.value);
      && (asana.createStoryError.Some? ==>
            RunTrace(payload, asana, github) == [story, SetFailed(asana.createStoryError.value)])
      && (asana.createStoryError.None? && asana.getTaskError.Some? ==>
            RunTrace(payload, asana, github) == [story, GetTask(gid), SetFailed(asana.getTaskError.value)])
      && (asana.createStoryError.None? && asana.getTaskError.None? && gid in asana.tasks
          && Given(asana.tasks[gid].permalinkUrl) && github.createCommentError.Some? ==>
            var (owner, repo) := OwnerRepo(payload.repositoryFullName.value);
            RunTrace(payload, asana, github) == [
              story,
              GetTask(gid),
              CreateComment(owner, repo, payload.number.value, CommentPrefix + asana.tasks[gid].permalinkUrl.value),
              SetFailed(github.createCommentError.value)])
  {
    var details := DetailsOf(payload).value;
    var gid := GetAsanaTaskGid(payload.headRef.value).value;
    assert RunTrace(payload, asana, github) == LinkTrace(gid, details, asana, github);
  }

  /** The end-to-end example: branch `feature/42`, PR 7 of `o/r`, task 42
      with permalink `https://app.asana.com/0/42`. The task gets the story
      `GitHub PR: <pr url>`, the pull request the comment `Asana Task:
      <permalink>`, and both URLs are published. */
  lemma RunExample(payload: Payload, asana: AsanaClient, github: GithubClient)
    requires payload == Payload(Some("feature/42"), Some("https://github.com/o/r/pull/7"), Some(7), Some("o/r"))
    requires asana == AsanaClient(map["42" := AsanaTask(Some("https://app.asana.com/0/42"))], None, None)
    requires github == GithubClient(None)
    ensures RunTrace(payload, asana, github) == [
      CreateStoryForTask("42", StoryPrefix + "https://github.com/o/r/pull/7"),
      GetTask("42"),
      CreateComment("o", Some("r"), 7, CommentPrefix + "https://app.asana.com/0/42"),
      SetOutput("pr_url", "https://github.com/o/r/pull/7"),
      SetOutput("asana_task_url", "https://app.asana.com/0/42")]
  {
    ExampleIsLinkable(payload, asana, github);
    RunSucceedsIff(payload, asana, github);
  }

  /** The example's payload and clients meet `Linkable`, with gid `42` and
      owner `o`, repo `r`. */
  lemma ExampleIsLinkable(payload: Payload, asana: AsanaClient, github: GithubClient)
    requires payload == Payload(Some("feature/42"), Some("https://github.com/o/r/pull/7"), Some(7), Some("o/r"))
    requires asana == AsanaClient(map["42" := AsanaTask(Some("https://app.asana.com/0/42"))], None, None)
    requires github == GithubClient(None)
    ensures Linkable(payload, asana, github)
    ensures GetAsanaTaskGid(payload.headRef.value) == Success("42")
    ensures OwnerRepo(payload.repositoryFullName.value) == ("o", Some("r"))
  {
    ExampleGid(payload.headRef.value);
    ExampleOwnerRepo(payload.repositoryFullName.value);
  }

  /** The example's branch `feature/42` gives gid `42`. */
  lemma ExampleGid(ref: string)
    requires ref == "feature/42"
    ensures GetAsanaTaskGid(ref) == Success("42")
  {
    GidOfBranch("feature", "42");
    assert "feature" + "/" + "42" == "feature/42";
  }

  /** The example's repository `o/r` gives owner `o` and repo `r`. */
  lemma ExampleOwnerRepo(fullName: string)
    requires fullName == "o/r"
    ensures OwnerRepo(fullName) == ("o", Some("r"))
  {
    OwnerRepoOfFullName("o", "r");
    assert "o" + "/" + "r" == "o/r";
  }
}
