/**
 * Deliveries run end to end through `Processor.Process`: a fresh processor,
 * collaborators that raise on the given invocations, and the outcome and
 * calls the specification then fixes.
 */
module Scenarios {
  import opened Wrappers
  import opened Events
  import opened Dispatch
  import opened Processor
  import opened Text

  /** A delivery whose only classification is the one the scenario names. */
  predicate OnlyOpenedPullRequest(p: Payload) {
    p.pullRequestAction && p.actionOpened && !p.unwipAction && !p.recycleRequest && !p.reviewAction
  }

  /** An opened pull request: notified unless WIP, then the three maintenance steps. */
  method OpenedPullRequest(p: Payload, currentUserId: int) returns (r: Outcome, calls: seq<Call>)
    requires OnlyOpenedPullRequest(p) && currentUserId != p.senderId
    ensures !p.issue.wip ==>
      r == Returned(Some(Join(["Notifying new pull request", "Updating trello cards", "Updating labels", "Closing stale issues"]))) &&
      calls == [ReadyForReviewDelivery(p.issue), CardUpdaterRun(p), LabelerRun(p.issue), IssueCloserRun(p.repo, None)]
    ensures p.issue.wip ==>
      r == Returned(Some(Join(["Updating trello cards", "Updating labels", "Closing stale issues"]))) &&
      calls == [CardUpdaterRun(p), LabelerRun(p.issue), IssueCloserRun(p.repo, None)]
  {
    var processor := new Processor(p, None);
    var world := new Collaborators({});
    r := processor.Process(currentUserId, world);
    calls := world.invoked;
    DispatchedWithoutFailure(currentUserId, p, None, {}, [], [], processor.logs, calls, r);
    OpenedPullRequestSteps(p);
    assert [] + Lines(Fired(p)) == Lines(Fired(p));
    assert [] + Invocations(Fired(p), p, None) == Invocations(Fired(p), p, None);
  }

  /** The lines and calls of the steps an opened pull request fires. */
  lemma OpenedPullRequestSteps(p: Payload)
    requires OnlyOpenedPullRequest(p)
    ensures !p.issue.wip ==>
      Lines(Fired(p)) == ["Notifying new pull request", "Updating trello cards", "Updating labels", "Closing stale issues"] &&
      Invocations(Fired(p), p, None) == [ReadyForReviewDelivery(p.issue), CardUpdaterRun(p), LabelerRun(p.issue), IssueCloserRun(p.repo, None)]
    ensures p.issue.wip ==>
      Lines(Fired(p)) == ["Updating trello cards", "Updating labels", "Closing stale issues"] &&
      Invocations(Fired(p), p, None) == [CardUpdaterRun(p), LabelerRun(p.issue), IssueCloserRun(p.repo, None)]
  {
    FiredShape(p);
    if p.issue.wip {
      assert Fired(p) == [TrelloCards, Labels, StaleIssues];
    } else {
      assert Fired(p) == [NewPullRequest, TrelloCards, Labels, StaleIssues];
    }
    Unfold(Fired(p), p, None);
  }

  /** The bot's own delivery: nil, and no collaborator is invoked. */
  method SelfTriggered(p: Payload) returns (r: Outcome, calls: seq<Call>)
    ensures r == Returned(None) && calls == []
  {
    var processor := new Processor(p, None);
    var world := new Collaborators({});
    r := processor.Process(p.senderId, world);
    calls := world.invoked;
  }

  /**
   * An issue comment with no notification whose labeler raises (the second
   * invocation): the error propagates and the issue closer is never invoked.
   */
  method LabelerRaises(p: Payload, currentUserId: int) returns (r: Outcome, calls: seq<Call>)
    requires !p.pullRequestAction && !p.unwipAction && !p.recycleRequest && !p.reviewAction
    requires currentUserId != p.senderId
    ensures r == Raised(LabelerRun(p.issue))
    ensures calls == [CardUpdaterRun(p), LabelerRun(p.issue)]
  {
    var processor := new Processor(p, None);
    var world := new Collaborators({1});
    r := processor.Process(currentUserId, world);
    calls := world.invoked;
    FiredShape(p);
    var prefix := [TrelloCards, Labels, StaleIssues];
    assert Fired(p) == prefix;
    assert Execute(Pipeline, p, {1}, 0) == Run([TrelloCards, Labels], true) by {
      ExecuteAt(p, {1});
    }
    Unfold([TrelloCards, Labels], p, None);
  }

  /** A configured threshold reaches the issue closer unchanged. */
  method ConfiguredThreshold(p: Payload, currentUserId: int, weeks: int) returns (r: Outcome, calls: seq<Call>)
    requires currentUserId != p.senderId
    ensures |calls| >= 3 && calls[|calls| - 1] == IssueCloserRun(p.repo, Some(weeks))
    ensures r.Returned?
  {
    var processor := new Processor(p, Some(map[StaleIssueWeeksKey := weeks]));
    var world := new Collaborators({});
    r := processor.Process(currentUserId, world);
    calls := world.invoked;
    DispatchedWithoutFailure(currentUserId, p, Some(weeks), {}, [], [], processor.logs, calls, r);
    MaintenanceStepsLast(p, Some(weeks));
  }

  /** The lines and calls of up to four steps, computed. */
  lemma {:induction false} Unfold(ss: seq<Step>, p: Payload, weeks: Option<int>)
    requires |ss| <= 4
    ensures |ss| == 3 ==>
      Lines(ss) == [Line(ss[0]), Line(ss[1]), Line(ss[2])] &&
      Invocations(ss, p, weeks) == [Invocation(ss[0], p, weeks), Invocation(ss[1], p, weeks), Invocation(ss[2], p, weeks)]
    ensures |ss| == 4 ==>
      Lines(ss) == [Line(ss[0]), Line(ss[1]), Line(ss[2]), Line(ss[3])] &&
      Invocations(ss, p, weeks) ==
        [Invocation(ss[0], p, weeks), Invocation(ss[1], p, weeks), Invocation(ss[2], p, weeks), Invocation(ss[3], p, weeks)]
    ensures |ss| == 2 ==>
      Lines(ss) == [Line(ss[0]), Line(ss[1])] &&
      Invocations(ss, p, weeks) == [Invocation(ss[0], p, weeks), Invocation(ss[1], p, weeks)]
  {
    if ss != [] {
      Unfold(ss[1..], p, weeks);
      assert Lines(ss) == [Line(ss[0])] + Lines(ss[1..]);
      assert Invocations(ss, p, weeks) == [Invocation(ss[0], p, weeks)] + Invocations(ss[1..], p, weeks);
    }
  }

  lemma ExecuteAt(p: Payload, failing: set<nat>)
    requires !p.pullRequestAction && !p.unwipAction && !p.recycleRequest && !p.reviewAction
    requires failing == {1}
    ensures Execute(Pipeline, p, failing, 0) == Run([TrelloCards, Labels], true)
  {
    var r := Run([TrelloCards, Labels], true);
    var m2 := [Labels, StaleIssues];
    ExecuteCons(Labels, [StaleIssues], p, failing, 1);
    assert Execute(m2, p, failing, 1) == Run([Labels], true);
    var m3 := [TrelloCards] + m2;
    ExecuteCons(TrelloCards, m2, p, failing, 0);
    assert Execute(m3, p, failing, 0) == r;
    var m4 := [ReviewAction] + m3;
    ExecuteCons(ReviewAction, m3, p, failing, 0);
    assert Execute(m4, p, failing, 0) == r;
    var m5 := [RecycleRequest] + m4;
    ExecuteCons(RecycleRequest, m4, p, failing, 0);
    assert Execute(m5, p, failing, 0) == r;
    var m6 := [Unwip] + m5;
    ExecuteCons(Unwip, m5, p, failing, 0);
    assert Execute(m6, p, failing, 0) == r;
    ExecuteCons(NewPullRequest, m6, p, failing, 0);
    assert Pipeline == [NewPullRequest] + m6;
  }
}
