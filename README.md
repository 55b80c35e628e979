# cp8 webhook dispatcher, modelled in Dafny

cp8 is a GitHub bot. Every webhook delivery it receives is handed to
`Processor#process` (`lib/processor.rb`), and this project models that
dispatcher. The dispatcher returns nil when the delivery was caused by the
bot's own account. Otherwise it runs seven steps in a fixed order:

1. a new-pull-request notification;
2. an unwip notification;
3. a recycle-request notification;
4. a review notification;
5. the Trello card update;
6. labelling;
7. closing stale issues.

The first four steps run only when the event qualifies. The last three always
run. A step that runs appends one line to the processor's log and then calls
exactly one collaborator. Nothing recovers from errors, so a collaborator that
raises ends the call and no later step runs. If every step completes, the
method returns the log joined with `"\n"`.

The model has six modules.

- `Events` (`events.dfy`) holds the data:
  - the payload, with the answers of its classification predicates as booleans;
  - the issue, review and repository;
  - `Call`, the collaborator invocations;
  - the configuration lookup `config[:stale_issue_weeks]`.
- `Dispatch` (`dispatch.dfy`) holds the specification as pure functions:
  - the steps and their guards, log lines and invocations;
  - `Fired`, the steps that fire when nothing raises;
  - `Execute`, a run in which invocation number k raises exactly when k is in a set `failing`;
  - `Dispatched`, the specification of one whole `process` call;
  - the lemmas: ordering, guards, the log/call correspondence, parsing the log back, and failure propagation.
- `Text` (`text.dfy`) holds `Join`, which is `Array#join("\n")`, and its inverse `Split`.
- `Processor` (`processor.dfy`) is the imperative model:
  - class `Processor` has the field `logs: seq<string>`, one method per private step method, and `Process`;
  - class `Collaborators` records every invocation in `invoked` and raises on the invocations numbered in `failing`.
- `Scenarios` (`scenarios.dfy`) has client methods for concrete deliveries. They run a fresh processor end to end.
- `Wrappers` (`wrappers.dfy`) holds `Option`.

Two points of the code's behaviour are worth stating outright:

- **Self-triggered delivery.** Line 16 is a bare `return`, so a self-triggered delivery returns nil, not the empty string. The model returns `Returned(None)`, which is distinct from `Returned(Some(""))`.
- **Stale-issue threshold.** Line 81 passes `config[:stale_issue_weeks]` unchanged, so with no configuration the issue closer receives nil. Any default lives inside `IssueCloser`, which is not part of this model. The model passes `None`.

## Model

| member | source | states |
|---|---|---|
| Processor.Processor.constructor | lib/processor.rb:9-13 | the processor keeps the payload; a nil configuration becomes the empty hash; the log starts empty |
| Events.NoConfigNoWeeks | lib/processor.rb:11 | with no configuration, the threshold handed to the issue closer is nil |
| Processor.Processor.Log | lib/processor.rb:32-34 | `log` appends exactly its message at the end of the log |
| Processor.Collaborators.Invoke | lib/processor.rb:42 | one collaborator invocation is recorded at the end of the trace; it raises, with that call as the error, exactly when its number is a failing one |
| Processor.Processor.NotifyNewPullRequest | lib/processor.rb:36-43 | when the event is an opened pull request whose issue is not WIP, the step logs "Notifying new pull request" and then delivers a ready-for-review notification for the issue; otherwise it changes nothing |
| Processor.Processor.NotifyUnwip | lib/processor.rb:45-50 | on an unwip action the step logs "Notifying unwip" and then delivers a ready-for-review notification; otherwise it changes nothing |
| Processor.Processor.NotifyRecycle | lib/processor.rb:52-60 | on a recycle request the step logs its line and then delivers a recycle notification with the issue and the comment body; otherwise it changes nothing |
| Processor.Processor.NotifyReview | lib/processor.rb:62-67 | on a review action the step logs its line and then delivers a review notification with the review and the issue; otherwise it changes nothing |
| Processor.Processor.UpdateTrelloCards | lib/processor.rb:69-72 | the step always logs "Updating trello cards" and then runs the card updater on the payload |
| Processor.Processor.AddLabels | lib/processor.rb:74-77 | the step always logs "Updating labels" and then runs the labeler on the issue |
| Processor.Processor.CloseStaleIssues | lib/processor.rb:79-82 | the step always logs "Closing stale issues" and then runs the issue closer on the repository with `config[:stale_issue_weeks]` |
| Processor.Processor.Process | lib/processor.rb:15-26 | `process` meets `Dispatched`: on a self-triggered delivery it returns nil and nothing changes; otherwise the log gains the lines and the trace gains the calls of exactly the steps `Execute` runs; it raises the last call's error if that call raised, and otherwise returns the whole log joined with "\n" |
| Dispatch.Execute | lib/processor.rb:15-26 | a run that raises ran at least one step and never runs more steps than it was given |
| Dispatch.SelfTriggeredDoesNothing | lib/processor.rb:84-86 | when the current user is the sender, `process` returns nil, appends no log line and invokes no collaborator |
| Dispatch.DispatchedRun | lib/processor.rb:15-26 | for any other delivery: the new log lines and the new calls match one to one and in order; the new lines read back as the steps that ran; those steps are a prefix of the fired steps; the call raises exactly when one of the fired steps' invocations fails, and then with the last call made, which is the first failing one; otherwise every fired step ran and the whole log is returned |
| Dispatch.DispatchedWithoutFailure | lib/processor.rb:15-26 | when no invocation fails, the log and the calls are exactly those of the fired steps, and the text returned is their join |
| Dispatch.DispatchedNotifications | lib/processor.rb:36-60 | for a whole `process` call in which no invocation fails: "Notifying new pull request" is logged if and only if the event is an opened non-WIP pull request, "Notifying unwip" if and only if it is an unwip action; the ready-for-review deliveries number one for each of those; the recycle notification with the issue and the comment body is made if and only if the event is a recycle request |
| Dispatch.ExecuteFollowsFired | lib/processor.rb:18-24 | the steps a run gets through are a prefix of the fired steps; a run that raises stops at the first failing invocation; a run that does not raise got through every fired step |
| Dispatch.RaisesIff | lib/processor.rb:18-24 | a run raises if and only if some fired step's invocation is a failing one |
| Dispatch.FiredMembers | lib/processor.rb:36-82 | a step fires if and only if its guard clauses let it through |
| Dispatch.FiredInPipelineOrder | lib/processor.rb:18-24 | the steps that fire appear in the fixed order (new PR, unwip, recycle, review, cards, labels, closer), each at most once, even when several conditions hold at once |
| Dispatch.FiredShape | lib/processor.rb:18-24 | the fired steps are the four notifications, each present exactly when its guard holds, followed by the three maintenance steps |
| Dispatch.MaintenanceStepsLast | lib/processor.rb:22-24 | whatever the event, a run without failure has 3 to 7 steps; its last three lines are "Updating trello cards", "Updating labels", "Closing stale issues"; its last three calls run the card updater, the labeler and the issue closer |
| Dispatch.NewPullRequestRule | lib/processor.rb:36-43 | the new-PR step fires if and only if the event is a pull-request action, the action is opened and the issue is not WIP; in a run where no collaborator raises, a WIP issue suppresses the log line |
| Dispatch.UnwipRule | lib/processor.rb:45-50 | in a run where no collaborator raises, "Notifying unwip" is logged if and only if the event is an unwip action, with no WIP check |
| Dispatch.ReadyForReviewDeliveries | lib/processor.rb:36-50 | in a run where no collaborator raises, the number of ready-for-review deliveries is one for an opened non-WIP pull request plus one for an unwip action |
| Dispatch.RecycleCarriesCommentBody | lib/processor.rb:52-60 | in a run where no collaborator raises, a recycle notification with the payload's issue and exactly its comment body is made if and only if the event is a recycle request; no run makes any other recycle notification |
| Dispatch.CallsCarryPayload | lib/processor.rb:36-82 | every collaborator call carries the payload's own issue, review, comment body, repository and the configured threshold |
| Dispatch.LineParse | lib/processor.rb:36-82 | a line reads back as a step if and only if it is the line that step logs |
| Dispatch.LogReadsBack | lib/processor.rb:32-34 | the log of any sequence of steps reads back as exactly that sequence |
| Dispatch.LogDeterminesCalls | lib/processor.rb:41-42 | two runs with the same log ran the same steps and made the same collaborator calls |
| Dispatch.ReportSplitsBack | lib/processor.rb:25 | no log line holds a line break, so the returned text splits back into exactly the log lines |
| Text.SplitJoin | lib/processor.rb:25 | joining lines that hold no line break with "\n" can be undone by splitting at "\n" |
| Scenarios.OpenedPullRequest | lib/processor.rb:15-26 | for an opened pull request with no other classification: a non-WIP issue gives four lines and calls, starting with the ready-for-review delivery; a WIP issue gives only the three maintenance lines and calls; the closer gets a nil threshold |
| Scenarios.SelfTriggered | lib/processor.rb:16 | the bot's own delivery returns nil and invokes nothing |
| Scenarios.LabelerRaises | lib/processor.rb:23-24 | if the labeler raises on a delivery with no notification, that error propagates and the issue closer is never invoked |
| Scenarios.ConfiguredThreshold | lib/processor.rb:81 | a configured `stale_issue_weeks` reaches the issue closer unchanged as the last call |

## Left out

- `current_user`, `github` and `Cp8.github_client` (lib/processor.rb:88-98) are a network query for the bot's account. The model takes the account id as the input `currentUserId` of `Process`.
- The private `repo` helper (lib/processor.rb:92-94) is folded into `CloseStaleIssues`, which reads `payload.repo` directly.
- The collaborators `ReadyForReviewNotification`, `RecycleNotification`, `ReviewNotification`, `CardUpdater`, `Labeler` and `IssueCloser` are not part of this model. Each is one `Call` recorded by `Collaborators`. Whether it raises is the input set `failing`, and the error it raises is modelled as the call itself.
- The payload's classification predicates (`pull_request_action?`, `action.opened?`, `issue.wip?`, `unwip_action?`, `recycle_request?`, `review_action?`) are not part of this model; they are fields of `Payload`.
- `payload.comment.body` is the field `commentBody`. Ruby raising when a recycle payload has no comment is not modelled.
- Webhook hosting, HTTP and signature checks are outside `lib/processor.rb` and are not modelled.
- Exceptions raised by Ruby itself (for example out of memory) are not modelled. Only collaborator errors are.
