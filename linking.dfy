/** The calls the action makes to Asana and to GitHub. The clients are
    modelled as the answers they would give: each call records the request
    it sends as an `Effect` and yields either its result or the message of
    the error it throws. */
module Linking {
  import opened Wrappers
  import opened JsBuiltins
  import opened Validation

  /** An Asana task as returned by `tasks.getTask`; only `permalink_url` is
      read, and it may be missing (`None`). */
  datatype AsanaTask = AsanaTask(permalinkUrl: Option<string>)

  /** The Asana client: the tasks it returns by gid (a gid it does not know
      yields no task), and, per call, the message of a transport or
      authorisation error when that call fails. */
  datatype AsanaClient = AsanaClient(
    tasks: map<string, AsanaTask>,
    createStoryError: Option<string>,
    getTaskError: Option<string>)

  /** The GitHub client: the message of the error `issues.createComment`
      throws, if it fails. */
  datatype GithubClient = GithubClient(createCommentError: Option<string>)

  /** Everything the run does outside itself, in the order it does it. */
  datatype Effect =
    | CreateStoryForTask(gid: string, text: string)
    | GetTask(taskGid: string)
    | CreateComment(owner: string, repo: Option<string>, issueNumber: int, body: string)
    | SetOutput(name: string, value: string)
    | SetFailed(message: string)

  /** One remote call: the request sent and what came back. */
  datatype Call<+T> = Call(effect: Effect, result: Result<T, string>)

  const StoryPrefix := "GitHub PR: "
  const CommentPrefix := "Asana Task: "
  const TaskNotFoundPrefix := "Task not found with gid: "
  const UrlNotFoundPrefix := "Task URL not found for gid: "

  /** `addPRToAsanaTask`: a story on the task whose text is the PR URL after
      a fixed label. */
  function AddPRToAsanaTask(gid: string, prUrl: string, client: AsanaClient): (call: Call<()>)
    ensures call.effect.CreateStoryForTask? && call.effect.gid == gid
    ensures call.effect.text == StoryPrefix + prUrl
    ensures call.result.Success? <==> client.createStoryError.None?
    ensures call.result.Failure? ==> call.result.error == client.createStoryError.value
  {
    var comment := StoryPrefix + prUrl;
    Call(CreateStoryForTask(gid, comment),
      match client.createStoryError
      case Some(message) => Failure(message)
      case None => Success(()))
  }

  /** `getAsanaTask`: one fetch; an unknown gid is an error naming the gid. */
  function GetAsanaTask(gid: string, client: AsanaClient): (call: Call<AsanaTask>)
    ensures call.effect == GetTask(gid)
    ensures call.result.Success? <==> client.getTaskError.None? && gid in client.tasks
    ensures call.result.Success? ==> call.result.value == client.tasks[gid]
    ensures client.getTaskError.Some? ==> call.result == Failure(client.getTaskError.value)
    ensures client.getTaskError.None? && gid !in client.tasks ==>
      call.result == Failure(TaskNotFoundPrefix + gid)
  {
    Call(GetTask(gid),
      if client.getTaskError.Some? then Failure(client.getTaskError.value)
      else if gid !in client.tasks then Failure(TaskNotFoundPrefix + gid)
      else Success(client.tasks[gid]))
  }

  /** `getAsanaTaskUrl`: the permalink of the fetched task, unchanged; a
      missing or empty permalink is an error naming the gid. */
  function GetAsanaTaskUrl(gid: string, client: AsanaClient): (call: Call<string>)
    ensures call.effect == GetTask(gid)
    ensures call.result.Success? <==>
      && client.getTaskError.None? && gid in client.tasks
      && Given(client.tasks[gid].permalinkUrl)
    ensures call.result.Success? ==>
      client.tasks[gid].permalinkUrl == Some(call.result.value) && call.result.value != ""
    ensures GetAsanaTask(gid, client).result.Failure? ==>
      call.result == GetAsanaTask(gid, client).result.PropagateFailure()
    ensures GetAsanaTask(gid, client).result.Success? && !Given(client.tasks[gid].permalinkUrl) ==>
      call.result == Failure(UrlNotFoundPrefix + gid)
  {
    var fetched := GetAsanaTask(gid, client);
    Call(fetched.effect,
      match fetched.result
      case Failure(message) => Failure(message)
      case Success(task) =>
        if !Given(task.permalinkUrl) then Failure(UrlNotFoundPrefix + gid)
        else Success(task.permalinkUrl.value))
  }

  /** `commentOnIssue`: a comment on the pull request whose body is the task
      URL after a fixed label. */
  function CommentOnIssue(asanaTaskUrl: string, owner: string, repo: Option<string>, issueNumber: int,
                          client: GithubClient): (call: Call<()>)
    ensures call.effect.CreateComment?
    ensures call.effect.owner == owner && call.effect.repo == repo && call.effect.issueNumber == issueNumber
    ensures call.effect.body == CommentPrefix + asanaTaskUrl
    ensures call.result.Success? <==> client.createCommentError.None?
    ensures call.result.Failure? ==> call.result.error == client.createCommentError.value
  {
    var comment := CommentPrefix + asanaTaskUrl;
    Call(CreateComment(owner, repo, issueNumber, comment),
      match client.createCommentError
      case Some(message) => Failure(message)
      case None => Success(()))
  }
}
