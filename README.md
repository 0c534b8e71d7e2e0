# github-asana-action, modelled in Dafny

This project models a GitHub Action that links a pull request to an Asana
task. The action reads the pull request's source branch, URL and number and
the repository's `owner/repo` name from the event payload, and checks that
all four are present. It takes the Asana task gid from the branch name, as
the part after its last `/`. It then:

1. posts the story `GitHub PR: <pr url>` on that task;
2. fetches the task and reads its `permalink_url`;
3. posts the comment `Asana Task: <permalink>` on the pull request;
4. publishes the outputs `pr_url` and `asana_task_url`.

The first error ends the run with `setFailed(message)`.

Modules:

- `Wrappers` (`wrappers.dfy`): `Option`, `Result` and `Outcome`. They stand for `undefined` values and for thrown errors.
- `JsBuiltins` (`js_builtins.dfy`): the JavaScript behaviour the action relies on. This covers truthiness of values and the string methods `lastIndexOf`, `split` (defined with an `indexOf` helper) and `join`.
- `TaskGid` (`task_gid.dfy`): `getAsanaTaskGid`.
- `Validation` (`validation.dfy`): `validateGithubDetails`, written as a loop that collects names, and `getGithubDetails`.
- `Linking` (`linking.dfy`): the Asana and GitHub clients, written as the answers they give, plus the effects the action has on the outside world. It also holds `getAsanaTask`, `getAsanaTaskUrl`, `addPRToAsanaTask` and `commentOnIssue`.
- `Action` (`action.dfy`): `run`. `RunTrace` specifies the sequence of effects. The method `Run` performs the steps one after another and returns early on the first error, as the `try`/`catch` does. The lemmas state the order of effects, what happens on each error, and when outputs are published.

Three points about how `run` and its helpers behave:

- The story request is sent before the task is fetched (`index.js:107-113`). If that call succeeds and `getTask` returns no task, the run fails after it with `Task not found with gid: <gid>`. `RunTaskNotFound` states this.
- The task is fetched once, because `getAsanaTaskUrl` calls `getAsanaTask` (`index.js:21`). The model records one `GetTask` effect for it.
- Errors are plain `Error`s with fixed message texts, and the model carries those messages.

## Model

| member | source | states |
|---|---|---|
| `JsBuiltins.IsFalsy` | index.js:82 | no ensures: the definition of JavaScript's `!value`, which holds for `undefined`, `null`, `false`, `0` and `""` |
| `JsBuiltins.LastIndexOf` | index.js:50 | the result is -1 exactly when the character does not occur; otherwise it is a position holding the character with no occurrence after it |
| `JsBuiltins.IndexOf` | index.js:103 | the result is -1 exactly when the character does not occur; otherwise it is a position holding the character with no occurrence before it |
| `JsBuiltins.Split` | index.js:103 | `split` yields at least one piece, and no piece contains the separator |
| `JsBuiltins.SplitFirstPiece` | index.js:103 | the first piece is a prefix of the string; there is a second piece exactly when the separator occurs, and then the separator follows the first piece |
| `JsBuiltins.SplitFirstTwoPieces` | index.js:103 | when the separator occurs, the string begins with the first piece, the separator and the second piece, and the second piece ends at the next separator or at the end of the string |
| `JsBuiltins.Join` | index.js:88 | no ensures: the definition of `join`, the pieces with the separator between each two of them |
| `JsBuiltins.JoinSplit` | index.js:103 | joining the pieces of a split with the separator gives back the original string |
| `JsBuiltins.SplitTwoPieces` | index.js:103 | `a/b` with slash-free `a` and `b` splits into exactly `[a, b]` |
| `TaskGid.GetAsanaTaskGid` | index.js:49-55 | fails exactly when the ref has no `/`, with message `Could not find slash in ref: <ref>`; otherwise the gid is slash-free and the ref is some prefix, a `/`, then the gid |
| `TaskGid.GidOfBranch` | index.js:49-55 | for any prefix and any slash-free gid, `prefix/gid` yields exactly that gid |
| `TaskGid.GidExamples` | index.js:49-55 | `feature/998877` yields `998877`; `no-slash-here` fails and its message names the ref |
| `Validation.FalsyNames` | index.js:80-85 | the names of the falsy entries, in input order; its contract bounds their number by the number of entries, and `FalsyPositionsExact` and `FalsyNamesAtFalsyPositions` state which names they are |
| `Validation.FalsyPositions` | index.js:81-85 | the positions of falsy entries are in range and strictly increasing |
| `Validation.FalsyPositionsExact` | index.js:81-85 | a position is listed exactly when the entry there is falsy |
| `Validation.FalsyNamesAtFalsyPositions` | index.js:81-85 | the collected names are, one for one and in input order, the names at the falsy positions |
| `Validation.FalsyNamesEmpty` | index.js:81-86 | no name is collected exactly when every value is truthy |
| `Validation.ValidationOutcome` | index.js:79-91 | passes exactly when every value is truthy; otherwise fails with `Cannot find the following properties: ` followed by the falsy names joined by `, ` |
| `Validation.ValidateGithubDetails` | index.js:79-91 | the loop that pushes falsy names, followed by the length test, gives exactly `ValidationOutcome` |
| `Validation.ValidationExample` | index.js:79-91 | entries `a: "x"`, `b: ""`, `c: 0` fail with the message listing `b, c` |
| `Validation.GithubProperties` | index.js:70-75 | no ensures: the four entries `ref`, `html_url`, `number` and `full_name`, in that order, with the payload's values |
| `Validation.GivenIsTruthy` | index.js:22 | a string field is present and non-empty exactly when JavaScript finds it truthy, which is the test `!permalink_url` and the validation make |
| `Validation.DetailsOf` | index.js:57-77 | succeeds exactly when ref, URL and repo name are non-empty strings and the number is present and non-zero; it then returns those values unchanged; otherwise it fails with the validation message |
| `Validation.GetGithubDetails` | index.js:57-77 | validating the four named fields and returning them gives exactly `DetailsOf` |
| `Linking.AddPRToAsanaTask` | index.js:28-31 | one story request to the given gid, whose text is exactly `GitHub PR: ` + the PR URL; fails exactly when the client call fails, with the client's message |
| `Linking.GetAsanaTask` | index.js:12-18 | one fetch of the gid; succeeds exactly when the call does not fail and the task exists, and returns that task; an unknown gid fails with `Task not found with gid: <gid>` |
| `Linking.GetAsanaTaskUrl` | index.js:20-26 | one fetch; succeeds exactly when the task exists and its permalink is truthy, and returns the permalink unchanged; a missing or empty permalink fails with `Task URL not found for gid: <gid>`; a failed fetch passes its error on |
| `Linking.CommentOnIssue` | index.js:33-47 | one comment request on the given owner, repo and issue number, whose body is exactly `Asana Task: ` + the task URL; fails exactly when the client call fails |
| `Action.OwnerRepo` | index.js:103 | the owner has no `/`; the repo is absent exactly when the name has no `/`, and then the owner is the whole name; otherwise the repo has no `/`, the name begins with owner, `/`, repo, and the repo ends at the next `/` or at the end of the name |
| `Action.OwnerRepoOfFullName` | index.js:103 | `owner/repo` with slash-free parts gives that owner and that repo |
| `Action.RunTrace` | index.js:93-128 | no ensures: the effects of one run; a validation or gid error gives `setFailed` alone, otherwise the effects are those of `LinkTrace` |
| `Action.LinkTrace` | index.js:107-124 | no ensures: the story, then the fetch, then the comment, then the two outputs, each cut short by `setFailed` with the message of the first call that fails |
| `Action.Run` | index.js:93-128 | performing the steps in turn and catching the first error produces exactly the effects `RunTrace` specifies |
| `Action.RunStepOrder` | index.js:101-124 | the kinds of effect come in the order story, fetch, comment, then the outputs `pr_url` and `asana_task_url`; a failure cuts this short and is the last effect |
| `Action.InRunOrderReportsOnce` | index.js:123-126 | in such a sequence a failure can only be last, and outputs appear exactly when the last effect is not a failure |
| `Action.RunOutputsOnlyOnSuccess` | index.js:123-127 | every run reports something; `setFailed` happens at most once and last; outputs are set exactly when the run does not fail |
| `Action.RunRejectsBeforeRemoteCalls` | index.js:101-105 | a validation failure or a ref without `/` makes the run's only effect `setFailed` with that error's message, so no remote call is made |
| `Action.RunSucceedsIff` | index.js:101-124 | the run ends without failure exactly when the fields are valid, the ref holds `/`, both Asana calls succeed, the task exists with a non-empty permalink, and the GitHub call succeeds; in that case the effects are exactly the story, the fetch, the comment and the two outputs, with the PR URL and the permalink |
| `Action.RunTaskNotFound` | index.js:107-113 | an unknown gid: the story is posted, the task is fetched, and the run fails with `Task not found with gid: <gid>` without reaching GitHub |
| `Action.RunMissingPermalink` | index.js:113-121 | a task without a usable permalink: the story is posted, the task is fetched, and the run fails with `Task URL not found for gid: <gid>` without reaching GitHub |
| `Action.RunRemoteCallFails` | index.js:107-126 | when a client call throws (story, fetch or GitHub comment), the run stops right after that request and reports `setFailed` with the client's message unchanged; the effects before it are the earlier requests of a successful run |
| `Action.RunExample` | index.js:93-128 | branch `feature/42`, PR 7 of `o/r` and task 42 with a permalink: the story carries the PR URL, the comment on PR 7 of `o`/`r` carries the permalink, and both are published |

## Left out

- `initAsana` and `initOctokit` (`index.js:5-10`) are left out. They wrap the `asana` and `@actions/github` libraries, which are not part of this model. The clients are replaced by the values `AsanaClient` and `GithubClient`.
- Reading the two tokens with `core.getInput` (`index.js:95-96`) is left out, because the tokens only feed client creation.
- `console.log` (`index.js:69`) is left out, because it only writes a log line.
- The model does not tie the story call's success to whether the task exists. The Asana client's answers for the story call and for `getTask` are independent, so a run can post the story on a gid that names no task.
- Network behaviour is reduced to what each call returns. Each client call either succeeds or fails with some message, with one optional message per kind of call. A run makes each call at most once. Retries, timeouts and eventual consistency are not modelled.
- `core.setOutput` and `core.setFailed` are kept only as entries in the effect trace.
- Promises and `await` are modelled as plain sequential steps, since nothing runs concurrently.
- `getGithubDetails` assumes the payload has `pull_request` and `repository` objects, with a string ref, URL and repo name and an integer number. So the model leaves out these cases:
  - A payload without these objects makes the destructuring throw a `TypeError`.
  - A truthy non-string `ref` makes `lastIndexOf` throw (`index.js:50`), and a truthy non-string `full_name` makes `split` throw (`index.js:103`).
  - A non-string `html_url` is turned into text by the template literal (`index.js:29`), and a non-integer `number` is passed on as `issue_number` (`index.js:44`), both without a check.
- `JsBuiltins.IsFalsy` treats numbers as integers. `NaN`, `-0` and fractional numbers are not modelled.
- `Action.OwnerRepo` follows `split("/")` and takes the first two pieces. With no `/`, `repo` is `undefined` (`None`) and is passed to the GitHub call unchecked, as the code does. The model makes no claim that the name is validated.
- The export list and the top-level `run()` call (`index.js:130-132`) are left out, because they contain no behaviour of their own.
