/**
 * The dispatcher object: a `Processor` holds one payload, its configuration
 * and the run log it appends to; `Collaborators` stands for the notification
 * senders, card updater, labeler and issue closer, and records every
 * invocation made on them.
 */
module Processor {
  import opened Wrappers
  import opened Events
  import opened Dispatch
  import opened Text

  /**
   * The collaborators as seen from the dispatcher. Invocations are numbered in
   * the order they are made; the one numbered k raises exactly when k is in
   * `failing`.
   */
  class Collaborators {
    const failing: set<nat>
    var invoked: seq<Call>

    constructor (failing: set<nat>)
      ensures this.failing == failing && invoked == []
    {
      this.failing := failing;
      invoked := [];
    }

    /** Constructs the collaborator and calls `deliver` or `run` on it; `error` is what it raises. */
    method Invoke(c: Call) returns (error: Option<Call>)
      modifies this`invoked
      ensures invoked == old(invoked) + [c]
      ensures error == if |old(invoked)| in failing then Some(c) else None
    {
      error := if |invoked| in failing then Some(c) else None;
      invoked := invoked + [c];
    }
  }

  class Processor {
    const payload: Payload
    const config: map<string, int>
    var logs: seq<string>

    /** `Processor.new(payload, config:)`; a nil configuration becomes the empty hash. */
    constructor (payload: Payload, config: Option<map<string, int>>)
      ensures this.payload == payload
      ensures this.config == EffectiveConfig(config)
      ensures logs == []
    {
      this.payload := payload;
      this.config := EffectiveConfig(config);
      logs := [];
    }

    /** The threshold handed to the issue closer. */
    function Weeks(): Option<int> {
      StaleIssueWeeks(config)
    }

    method Log(msg: string)
      modifies this`logs
      ensures logs == old(logs) + [msg]
    {
      logs := logs + [msg];
    }

    method NotifyNewPullRequest(world: Collaborators) returns (error: Option<Call>)
      modifies this`logs, world`invoked
      ensures StepEffect(NewPullRequest, payload, Weeks(), world.failing,
        old(logs), old(world.invoked), logs, world.invoked, error)
    {
      error := None;
      if !payload.pullRequestAction { return; }
      if !payload.actionOpened { return; }
      if payload.issue.wip { return; }
      Log("Notifying new pull request");
      error := world.Invoke(ReadyForReviewDelivery(payload.issue));
    }

    method NotifyUnwip(world: Collaborators) returns (error: Option<Call>)
      modifies this`logs, world`invoked
      ensures StepEffect(Unwip, payload, Weeks(), world.failing,
        old(logs), old(world.invoked), logs, world.invoked, error)
    {
      error := None;
      if !payload.unwipAction { return; }
      Log("Notifying unwip");
      error := world.Invoke(ReadyForReviewDelivery(payload.issue));
    }

    method NotifyRecycle(world: Collaborators) returns (error: Option<Call>)
      modifies this`logs, world`invoked
      ensures StepEffect(RecycleRequest, payload, Weeks(), world.failing,
        old(logs), old(world.invoked), logs, world.invoked, error)
    {
      error := None;
      if !payload.recycleRequest { return; }
      Log("Notifying recycle request");
      error := world.Invoke(RecycleDelivery(payload.issue, payload.commentBody));
    }

    method NotifyReview(world: Collaborators) returns (error: Option<Call>)
      modifies this`logs, world`invoked
      ensures StepEffect(ReviewAction, payload, Weeks(), world.failing,
        old(logs), old(world.invoked), logs, world.invoked, error)
    {
      error := None;
      if !payload.reviewAction { return; }
      Log("Notifying review");
      error := world.Invoke(ReviewDelivery(payload.review, payload.issue));
    }

    method UpdateTrelloCards(world: Collaborators) returns (error: Option<Call>)
      modifies this`logs, world`invoked
      ensures StepEffect(TrelloCards, payload, Weeks(), world.failing,
        old(logs), old(world.invoked), logs, world.invoked, error)
    {
      Log("Updating trello cards");
      error := world.Invoke(CardUpdaterRun(payload));
    }

    method AddLabels(world: Collaborators) returns (error: Option<Call>)
      modifies this`logs, world`invoked
      ensures StepEffect(Labels, payload, Weeks(), world.failing,
        old(logs), old(world.invoked), logs, world.invoked, error)
    {
      Log("Updating labels");
      error := world.Invoke(LabelerRun(payload.issue));
    }

    method CloseStaleIssues(world: Collaborators) returns (error: Option<Call>)
      modifies this`logs, world`invoked
      ensures StepEffect(StaleIssues, payload, Weeks(), world.failing,
        old(logs), old(world.invoked), logs, world.invoked, error)
    {
      Log("Closing stale issues");
      error := world.Invoke(IssueCloserRun(payload.repo, Weeks()));
    }

    /**
     * `process`: nothing at all for a self-triggered delivery; otherwise the
     * seven steps in order, stopping at the first collaborator that raises,
     * and on success the whole log joined with "\n".
     */
    method Process(currentUserId: int, world: Collaborators) returns (r: Outcome)
      modifies this`logs, world`invoked
      ensures Dispatched(currentUserId, payload, Weeks(), world.failing,
        old(logs), old(world.invoked), logs, world.invoked, r)
    {
      if currentUserId == payload.senderId {
        return Returned(None);
      }
      // The ghost bookkeeping below ties each step to `Execute`; it is not part of the source.
      ghost var n0 := |world.invoked|;
      ghost var done: seq<Step> := [];
      ghost var todo := Pipeline;
      ghost var before, calledBefore := logs, world.invoked;
      Start(payload, Weeks(), world.failing, n0, old(logs), old(world.invoked));
      var error := NotifyNewPullRequest(world);
      done := Advance(currentUserId, NewPullRequest, todo, payload, Weeks(), world.failing, n0, old(logs), old(world.invoked), done,
                      before, calledBefore, logs, world.invoked, error);
      if error.Some? { return Raised(error.value); }
      todo := todo[1..];
      before, calledBefore := logs, world.invoked;
      error := NotifyUnwip(world);
      done := Advance(currentUserId, Unwip, todo, payload, Weeks(), world.failing, n0, old(logs), old(world.invoked), done,
                      before, calledBefore, logs, world.invoked, error);
      if error.Some? { return Raised(error.value); }
      todo := todo[1..];
      before, calledBefore := logs, world.invoked;
      error := NotifyRecycle(world);
      done := Advance(currentUserId, RecycleRequest, todo, payload, Weeks(), world.failing, n0, old(logs), old(world.invoked), done,
                      before, calledBefore, logs, world.invoked, error);
      if error.Some? { return Raised(error.value); }
      todo := todo[1..];
      before, calledBefore := logs, world.invoked;
      error := NotifyReview(world);
      done := Advance(currentUserId, ReviewAction, todo, payload, Weeks(), world.failing, n0, old(logs), old(world.invoked), done,
                      before, calledBefore, logs, world.invoked, error);
      if error.Some? { return Raised(error.value); }
      todo := todo[1..];
      before, calledBefore := logs, world.invoked;
      error := UpdateTrelloCards(world);
      done := Advance(currentUserId, TrelloCards, todo, payload, Weeks(), world.failing, n0, old(logs), old(world.invoked), done,
                      before, calledBefore, logs, world.invoked, error);
      if error.Some? { return Raised(error.value); }
      todo := todo[1..];
      before, calledBefore := logs, world.invoked;
      error := AddLabels(world);
      done := Advance(currentUserId, Labels, todo, payload, Weeks(), world.failing, n0, old(logs), old(world.invoked), done,
                      before, calledBefore, logs, world.invoked, error);
      if error.Some? { return Raised(error.value); }
      todo := todo[1..];
      before, calledBefore := logs, world.invoked;
      error := CloseStaleIssues(world);
      done := Advance(currentUserId, StaleIssues, todo, payload, Weeks(), world.failing, n0, old(logs), old(world.invoked), done,
                      before, calledBefore, logs, world.invoked, error);
      if error.Some? { return Raised(error.value); }
      Finish(currentUserId, payload, Weeks(), world.failing, n0, old(logs), old(world.invoked), done, logs, world.invoked);
      r := Returned(Some(Join(logs)));
    }
  }
}
