/**
 * The dispatch procedure as values: the seven steps in their fixed order,
 * when each one fires, the log line it writes and the collaborator call it
 * makes, and what a run does when a collaborator raises.
 */
module Dispatch {
  import opened Wrappers
  import opened Events
  import opened Text

  /** The seven steps of `process`, one per private step method. */
  datatype Step =
    | NewPullRequest   // notify_new_pull_request
    | Unwip            // notify_unwip
    | RecycleRequest   // notify_recycle
    | ReviewAction     // notify_review
    | TrelloCards      // update_trello_cards
    | Labels           // add_labels
    | StaleIssues      // close_stale_issues

  /** The order in which `process` calls the steps. */
  const Pipeline: seq<Step> :=
    [NewPullRequest, Unwip, RecycleRequest, ReviewAction, TrelloCards, Labels, StaleIssues]

  /** The position of a step in `Pipeline`. */
  function Rank(s: Step): (k: nat)
    ensures k < |Pipeline| && Pipeline[k] == s
  {
    match s
    case NewPullRequest => 0
    case Unwip => 1
    case RecycleRequest => 2
    case ReviewAction => 3
    case TrelloCards => 4
    case Labels => 5
    case StaleIssues => 6
  }

  /** `event_triggered_by_cp8?`: the delivery was caused by the bot's own account. */
  predicate TriggeredBySelf(currentUserId: int, p: Payload) {
    currentUserId == p.senderId
  }

  /** The guard clauses at the head of each step method. */
  predicate Fires(s: Step, p: Payload) {
    match s
    case NewPullRequest => p.pullRequestAction && p.actionOpened && !p.issue.wip
    case Unwip => p.unwipAction
    case RecycleRequest => p.recycleRequest
    case ReviewAction => p.reviewAction
    case TrelloCards => true
    case Labels => true
    case StaleIssues => true
  }

  /** The message a step logs when it fires. */
  function Line(s: Step): string {
    match s
    case NewPullRequest => "Notifying new pull request"
    case Unwip => "Notifying unwip"
    case RecycleRequest => "Notifying recycle request"
    case ReviewAction => "Notifying review"
    case TrelloCards => "Updating trello cards"
    case Labels => "Updating labels"
    case StaleIssues => "Closing stale issues"
  }

  /** Reads a log line back as the step that wrote it. */
  function ParseLine(line: string): Option<Step> {
    if line == "Notifying new pull request" then Some(NewPullRequest)
    else if line == "Notifying unwip" then Some(Unwip)
    else if line == "Notifying recycle request" then Some(RecycleRequest)
    else if line == "Notifying review" then Some(ReviewAction)
    else if line == "Updating trello cards" then Some(TrelloCards)
    else if line == "Updating labels" then Some(Labels)
    else if line == "Closing stale issues" then Some(StaleIssues)
    else None
  }

  /**
   * The collaborator a step constructs and calls once it has logged; `weeks`
   * is `config[:stale_issue_weeks]`.
   */
  function Invocation(s: Step, p: Payload, weeks: Option<int>): Call {
    match s
    case NewPullRequest => ReadyForReviewDelivery(p.issue)
    case Unwip => ReadyForReviewDelivery(p.issue)
    case RecycleRequest => RecycleDelivery(p.issue, p.commentBody)
    case ReviewAction => ReviewDelivery(p.review, p.issue)
    case TrelloCards => CardUpdaterRun(p)
    case Labels => LabelerRun(p.issue)
    case StaleIssues => IssueCloserRun(p.repo, weeks)
  }

  /** The step alone if its guard holds for `p`, nothing otherwise. */
  function IfFires(s: Step, p: Payload): seq<Step> {
    if Fires(s, p) then [s] else []
  }

  /** The steps of `ss` whose guard holds for `p`, in the order of `ss`. */
  function FiredFrom(ss: seq<Step>, p: Payload): seq<Step> {
    if ss == [] then [] else IfFires(ss[0], p) + FiredFrom(ss[1..], p)
  }

  /** The steps that fire for `p` when no collaborator raises. */
  function Fired(p: Payload): seq<Step> {
    FiredFrom(Pipeline, p)
  }

  /** The log lines written by a sequence of steps. */
  function Lines(ss: seq<Step>): seq<string> {
    if ss == [] then [] else [Line(ss[0])] + Lines(ss[1..])
  }

  /** Reads a whole log back as the steps that wrote it. */
  function ParseLog(lines: seq<string>): Option<seq<Step>> {
    if lines == [] then Some([])
    else match (ParseLine(lines[0]), ParseLog(lines[1..]))
      case (Some(s), Some(rest)) => Some([s] + rest)
      case _ => None
  }

  /** The collaborator calls made by a sequence of steps. */
  function Invocations(ss: seq<Step>, p: Payload, weeks: Option<int>): seq<Call> {
    if ss == [] then [] else [Invocation(ss[0], p, weeks)] + Invocations(ss[1..], p, weeks)
  }

  /** The steps that ran (each logged, then invoked) and whether the last one raised. */
  datatype Run = Run(ran: seq<Step>, raised: bool)

  /**
   * Runs the steps `ss` on `p` with no error recovery. The collaborator
   * invocations are numbered from `n` on, and an invocation whose number is
   * in `failing` raises; the run stops right after it.
   */
  function Execute(ss: seq<Step>, p: Payload, failing: set<nat>, n: nat): (r: Run)
    ensures r.raised ==> r.ran != []
    ensures |r.ran| <= |ss|
  {
    if ss == [] then Run([], false)
    else if !Fires(ss[0], p) then Execute(ss[1..], p, failing, n)
    else if n in failing then Run([ss[0]], true)
    else
      var rest := Execute(ss[1..], p, failing, n + 1);
      Run([ss[0]] + rest.ran, rest.raised)
  }

  // ----- which steps fire, and in what order -----

  /** Ranks strictly increase along `ss`. */
  ghost predicate InPipelineOrder(ss: seq<Step>) {
    forall i, j :: 0 <= i < j < |ss| ==> Rank(ss[i]) < Rank(ss[j])
  }

  /** A step is among the fired ones exactly when it is among the candidates and its guard holds. */
  lemma {:induction false} FiredFromMembers(ss: seq<Step>, p: Payload, s: Step)
    ensures s in FiredFrom(ss, p) <==> s in ss && Fires(s, p)
  {
    if ss != [] {
      FiredFromMembers(ss[1..], p, s);
      assert ss == [ss[0]] + ss[1..];
    }
  }

  /** Filtering keeps the candidates' order. */
  lemma {:induction false} FiredFromOrdered(ss: seq<Step>, p: Payload)
    requires InPipelineOrder(ss)
    ensures InPipelineOrder(FiredFrom(ss, p))
  {
    if ss != [] {
      var tail := ss[1..];
      OrderedTail(ss);
      FiredFromOrdered(tail, p);
      var rest := FiredFrom(tail, p);
      forall t | t in rest ensures Rank(ss[0]) < Rank(t) {
        FiredFromMembers(tail, p, t);
        var k :| 0 <= k < |tail| && tail[k] == t;
        assert ss[k + 1] == t;
      }
      if Fires(ss[0], p) {
        OrderedCons(ss[0], rest);
        assert FiredFrom(ss, p) == [ss[0]] + rest;
      } else {
        assert FiredFrom(ss, p) == rest;
      }
    }
  }

  lemma OrderedTail(ss: seq<Step>)
    requires ss != [] && InPipelineOrder(ss)
    ensures InPipelineOrder(ss[1..])
  {
    var tail := ss[1..];
    forall i, j | 0 <= i < j < |tail| ensures Rank(tail[i]) < Rank(tail[j]) {
      assert tail[i] == ss[i + 1] && tail[j] == ss[j + 1];
    }
  }

  /** A step ranked below every step of an ordered sequence can be put in front of it. */
  lemma OrderedCons(x: Step, rest: seq<Step>)
    requires InPipelineOrder(rest)
    requires forall t :: t in rest ==> Rank(x) < Rank(t)
    ensures InPipelineOrder([x] + rest)
  {
    var f := [x] + rest;
    forall i, j | 0 <= i < j < |f| ensures Rank(f[i]) < Rank(f[j]) {
      if i == 0 {
        assert f[j] == rest[j - 1] && f[j] in rest;
      } else {
        assert f[i] == rest[i - 1] && f[j] == rest[j - 1];
      }
    }
  }

  /** The fired steps, written out: the four notifications each when their guard holds, then the three maintenance steps. */
  lemma FiredShape(p: Payload)
    ensures Fired(p) ==
      IfFires(NewPullRequest, p) + (IfFires(Unwip, p) + (IfFires(RecycleRequest, p) +
      (IfFires(ReviewAction, p) + [TrelloCards, Labels, StaleIssues])))
  {
    var s7: seq<Step> := [StaleIssues];
    var s6 := [Labels] + s7;
    var s5 := [TrelloCards] + s6;
    var s4 := [ReviewAction] + s5;
    var s3 := [RecycleRequest] + s4;
    var s2 := [Unwip] + s3;
    var s1 := [NewPullRequest] + s2;
    assert s1 == Pipeline;
    FiredFromCons(StaleIssues, [], p);
    assert [StaleIssues] + [] == s7;
    FiredFromCons(Labels, s7, p);
    FiredFromCons(TrelloCards, s6, p);
    assert FiredFrom(s5, p) == [TrelloCards, Labels, StaleIssues];
    FiredFromCons(ReviewAction, s5, p);
    FiredFromCons(RecycleRequest, s4, p);
    FiredFromCons(Unwip, s3, p);
    FiredFromCons(NewPullRequest, s2, p);
  }

  lemma FiredFromCons(s: Step, rest: seq<Step>, p: Payload)
    ensures FiredFrom([s] + rest, p) == IfFires(s, p) + FiredFrom(rest, p)
  {
    assert ([s] + rest)[1..] == rest;
  }

  /** Every step fires exactly when its guard holds (both directions). */
  lemma FiredMembers(p: Payload, s: Step)
    ensures s in Fired(p) <==> Fires(s, p)
  {
    FiredFromMembers(Pipeline, p, s);
    assert Pipeline[Rank(s)] == s;
  }

  /** Whatever fires, fires in the fixed order new-PR, unwip, recycle, review, cards, labels, closer, each at most once. */
  lemma FiredInPipelineOrder(p: Payload)
    ensures InPipelineOrder(Fired(p))
    ensures forall i, j :: 0 <= i < j < |Fired(p)| ==> Fired(p)[i] != Fired(p)[j]
  {
    assert InPipelineOrder(Pipeline) by {
      forall i, j | 0 <= i < j < |Pipeline| ensures Rank(Pipeline[i]) < Rank(Pipeline[j]) {
        assert Rank(Pipeline[i]) == i && Rank(Pipeline[j]) == j;
      }
    }
    FiredFromOrdered(Pipeline, p);
  }

  /**
   * Card update, labelling and stale-issue closing always close a run that no
   * collaborator interrupts, whatever the event; so there are from 3 to 7 lines.
   */
  lemma MaintenanceStepsLast(p: Payload, weeks: Option<int>)
    ensures 3 <= |Fired(p)| <= 7 &&
      Fired(p)[|Fired(p)| - 3..] == [TrelloCards, Labels, StaleIssues]
    ensures |Lines(Fired(p))| == |Fired(p)| &&
      Lines(Fired(p))[|Fired(p)| - 3..] ==
        ["Updating trello cards", "Updating labels", "Closing stale issues"]
    ensures |Invocations(Fired(p), p, weeks)| == |Fired(p)| &&
      Invocations(Fired(p), p, weeks)[|Fired(p)| - 3..] ==
        [CardUpdaterRun(p), LabelerRun(p.issue), IssueCloserRun(p.repo, weeks)]
  {
    FiredShape(p);
    var fired := Fired(p);
    var notes := fired[..|fired| - 3];
    assert fired == notes + [TrelloCards, Labels, StaleIssues];
    MaintenanceAfter(notes, p, weeks);
  }

  /** Whatever precedes them, the maintenance steps contribute the last three lines and calls. */
  lemma MaintenanceAfter(notes: seq<Step>, p: Payload, weeks: Option<int>)
    ensures var ss := notes + [TrelloCards, Labels, StaleIssues];
      |Lines(ss)| == |ss| &&
      Lines(ss)[|ss| - 3..] == ["Updating trello cards", "Updating labels", "Closing stale issues"]
    ensures var ss := notes + [TrelloCards, Labels, StaleIssues];
      |Invocations(ss, p, weeks)| == |ss| &&
      Invocations(ss, p, weeks)[|ss| - 3..] == [CardUpdaterRun(p), LabelerRun(p.issue), IssueCloserRun(p.repo, weeks)]
  {
    var maintenance := [TrelloCards, Labels, StaleIssues];
    MaintenanceEffects(p, weeks);
    LinesAppend(notes, maintenance);
    InvocationsAppend(notes, maintenance, p, weeks);
    LinesLength(notes);
    InvocationsLength(notes, p, weeks);
  }

  /** The lines and calls of the three maintenance steps, computed. */
  lemma MaintenanceEffects(p: Payload, weeks: Option<int>)
    ensures Lines([TrelloCards, Labels, StaleIssues]) ==
      ["Updating trello cards", "Updating labels", "Closing stale issues"]
    ensures Invocations([TrelloCards, Labels, StaleIssues], p, weeks) ==
      [CardUpdaterRun(p), LabelerRun(p.issue), IssueCloserRun(p.repo, weeks)]
  {
    var s3: seq<Step> := [StaleIssues];
    var s2 := [Labels] + s3;
    var s1 := [TrelloCards] + s2;
    assert s1 == [TrelloCards, Labels, StaleIssues];
    assert s3[1..] == [] && s2[1..] == s3 && s1[1..] == s2;
    assert Lines(s3) == [Line(StaleIssues)];
    assert Lines(s2) == [Line(Labels)] + Lines(s3);
    assert Lines(s1) == [Line(TrelloCards)] + Lines(s2);
    assert Invocations(s3, p, weeks) == [Invocation(StaleIssues, p, weeks)];
    assert Invocations(s2, p, weeks) == [Invocation(Labels, p, weeks)] + Invocations(s3, p, weeks);
    assert Invocations(s1, p, weeks) == [Invocation(TrelloCards, p, weeks)] + Invocations(s2, p, weeks);
  }

  /** In a run where no collaborator raises, a new-PR notification happens exactly for an opened pull request whose issue is not WIP. */
  lemma NewPullRequestRule(p: Payload)
    ensures NewPullRequest in Fired(p) <==>
      p.pullRequestAction && p.actionOpened && !p.issue.wip
    ensures p.issue.wip ==> "Notifying new pull request" !in Lines(Fired(p))
  {
    FiredMembers(p, NewPullRequest);
    forall s | s in Fired(p) ensures Line(s) != "Notifying new pull request" || s == NewPullRequest {
    }
    LinesMembers(Fired(p), "Notifying new pull request");
  }

  /** In a run where no collaborator raises, an unwip action is logged exactly when the event is one, whatever the issue's WIP flag. */
  lemma UnwipRule(p: Payload)
    ensures "Notifying unwip" in Lines(Fired(p)) <==> p.unwipAction
  {
    FiredMembers(p, Unwip);
    forall s | s in Fired(p) ensures Line(s) != "Notifying unwip" || s == Unwip {
    }
    LinesMembers(Fired(p), "Notifying unwip");
  }

  /** The number of ready-for-review deliveries among `calls`. */
  function ReadyForReviewCount(calls: seq<Call>): nat {
    if calls == [] then 0
    else (if calls[0].ReadyForReviewDelivery? then 1 else 0) + ReadyForReviewCount(calls[1..])
  }

  lemma {:induction false} ReadyForReviewCountAppend(a: seq<Call>, b: seq<Call>)
    ensures ReadyForReviewCount(a + b) == ReadyForReviewCount(a) + ReadyForReviewCount(b)
  {
    if a == [] {
      assert a + b == b;
    } else {
      assert (a + b)[0] == a[0] && (a + b)[1..] == a[1..] + b;
      ReadyForReviewCountAppend(a[1..], b);
    }
  }

  /**
   * Ready-for-review deliveries: one for a non-WIP opened pull request, one for
   * an unwip action with no WIP check, none otherwise; each for the payload's issue.
   */
  lemma ReadyForReviewDeliveries(p: Payload, weeks: Option<int>)
    ensures ReadyForReviewCount(Invocations(Fired(p), p, weeks)) ==
      (if p.pullRequestAction && p.actionOpened && !p.issue.wip then 1 else 0) +
      (if p.unwipAction then 1 else 0)
  {
    ReadyForReviewCountSteps(Fired(p), p, weeks);
    FiredFromMultiplicity(Pipeline, p, NewPullRequest);
    FiredFromMultiplicity(Pipeline, p, Unwip);
    PipelineOnce(NewPullRequest);
    PipelineOnce(Unwip);
  }

  /** Every call the steps make for a payload is about that payload's issue, review, comment body, repository and threshold. */
  lemma {:induction false} CallsCarryPayload(ss: seq<Step>, p: Payload, weeks: Option<int>)
    ensures forall c :: c in Invocations(ss, p, weeks) ==>
      match c
      case ReadyForReviewDelivery(issue) => issue == p.issue
      case RecycleDelivery(issue, body) => issue == p.issue && body == p.commentBody
      case ReviewDelivery(review, issue) => review == p.review && issue == p.issue
      case CardUpdaterRun(payload) => payload == p
      case LabelerRun(issue) => issue == p.issue
      case IssueCloserRun(repo, w) => repo == p.repo && w == weeks
  {
    if ss != [] {
      CallsCarryPayload(ss[1..], p, weeks);
      assert Invocations(ss, p, weeks) == [Invocation(ss[0], p, weeks)] + Invocations(ss[1..], p, weeks);
    }
  }

  /** Each step stands in the pipeline exactly once. */
  lemma PipelineOnce(s: Step)
    ensures multiset(Pipeline)[s] == 1
  {
    var m := multiset{NewPullRequest, Unwip, RecycleRequest, ReviewAction, TrelloCards, Labels, StaleIssues};
    assert multiset(Pipeline) == m;
  }

  /** A single step's contribution to the ready-for-review count. */
  lemma StepDelivers(s: Step, p: Payload, weeks: Option<int>)
    ensures (if Invocation(s, p, weeks).ReadyForReviewDelivery? then 1 else 0) ==
      multiset{s}[NewPullRequest] + multiset{s}[Unwip]
  {
    match s
    case NewPullRequest => assert multiset{s}[Unwip] == 0;
    case Unwip => assert multiset{s}[NewPullRequest] == 0;
    case _ => assert multiset{s}[NewPullRequest] == 0 && multiset{s}[Unwip] == 0;
  }

  /** Only the new-PR and unwip steps deliver ready-for-review notifications, one each. */
  lemma {:induction false} ReadyForReviewCountSteps(ss: seq<Step>, p: Payload, weeks: Option<int>)
    ensures ReadyForReviewCount(Invocations(ss, p, weeks)) ==
      multiset(ss)[NewPullRequest] + multiset(ss)[Unwip]
  {
    if ss != [] {
      var s, rest := ss[0], ss[1..];
      var calls := Invocations(ss, p, weeks);
      ReadyForReviewCountSteps(rest, p, weeks);
      assert calls[0] == Invocation(s, p, weeks) && calls[1..] == Invocations(rest, p, weeks);
      StepDelivers(s, p, weeks);
      assert multiset(ss) == multiset{s} + multiset(rest) by {
        assert ss == [s] + rest;
      }
    }
  }

  /** Filtering keeps every copy of a step whose guard holds and drops every copy of one whose guard fails. */
  lemma {:induction false} FiredFromMultiplicity(ss: seq<Step>, p: Payload, s: Step)
    ensures multiset(FiredFrom(ss, p))[s] == if Fires(s, p) then multiset(ss)[s] else 0
  {
    if ss != [] {
      FiredFromMultiplicity(ss[1..], p, s);
      assert ss == [ss[0]] + ss[1..];
    }
  }

  /**
   * In a run where no collaborator raises, a recycle notification carrying the
   * payload's issue and exactly its comment body is made exactly on a recycle
   * request, and no other recycle notification is made.
   */
  lemma RecycleCarriesCommentBody(p: Payload, weeks: Option<int>)
    ensures RecycleDelivery(p.issue, p.commentBody) in Invocations(Fired(p), p, weeks) <==>
      p.recycleRequest
    ensures forall c :: c in Invocations(Fired(p), p, weeks) && c.RecycleDelivery? ==>
      c == RecycleDelivery(p.issue, p.commentBody)
  {
    var call := RecycleDelivery(p.issue, p.commentBody);
    InvocationsMembers(Fired(p), p, weeks, call);
    FiredMembers(p, RecycleRequest);
    forall c | c in Invocations(Fired(p), p, weeks) && c.RecycleDelivery?
      ensures c == call
    {
      InvocationsMembers(Fired(p), p, weeks, c);
    }
  }

  // ----- the log and the calls -----

  lemma {:induction false} LinesLength(ss: seq<Step>)
    ensures |Lines(ss)| == |ss|
  {
    if ss != [] { LinesLength(ss[1..]); }
  }

  lemma {:induction false} InvocationsLength(ss: seq<Step>, p: Payload, weeks: Option<int>)
    ensures |Invocations(ss, p, weeks)| == |ss|
  {
    if ss != [] { InvocationsLength(ss[1..], p, weeks); }
  }

  lemma {:induction false} LinesAppend(a: seq<Step>, b: seq<Step>)
    ensures Lines(a + b) == Lines(a) + Lines(b)
  {
    if a == [] {
      assert a + b == b;
    } else {
      assert (a + b)[0] == a[0] && (a + b)[1..] == a[1..] + b;
      LinesAppend(a[1..], b);
      assert [Line(a[0])] + (Lines(a[1..]) + Lines(b)) == ([Line(a[0])] + Lines(a[1..])) + Lines(b);
    }
  }

  lemma {:induction false} InvocationsAppend(a: seq<Step>, b: seq<Step>, p: Payload, weeks: Option<int>)
    ensures Invocations(a + b, p, weeks) == Invocations(a, p, weeks) + Invocations(b, p, weeks)
  {
    if a == [] {
      assert a + b == b;
    } else {
      assert (a + b)[0] == a[0] && (a + b)[1..] == a[1..] + b;
      InvocationsAppend(a[1..], b, p, weeks);
      var head := [Invocation(a[0], p, weeks)];
      assert head + (Invocations(a[1..], p, weeks) + Invocations(b, p, weeks)) ==
        (head + Invocations(a[1..], p, weeks)) + Invocations(b, p, weeks);
    }
  }

  lemma {:induction false} LinesMembers(ss: seq<Step>, line: string)
    ensures line in Lines(ss) <==> exists s :: s in ss && Line(s) == line
  {
    if ss != [] {
      LinesMembers(ss[1..], line);
      assert forall s :: s in ss <==> s == ss[0] || s in ss[1..];
    }
  }

  /** A call is made exactly when some step that ran makes it. */
  lemma {:induction false} InvocationsMembers(ss: seq<Step>, p: Payload, weeks: Option<int>, c: Call)
    ensures c in Invocations(ss, p, weeks) <==> exists s :: s in ss && Invocation(s, p, weeks) == c
  {
    if ss != [] {
      InvocationsMembers(ss[1..], p, weeks, c);
      assert forall s :: s in ss <==> s == ss[0] || s in ss[1..];
    }
  }

  /** Each log line names the one step that wrote it, and nothing else reads as a step. */
  lemma LineParse(line: string, s: Step)
    ensures ParseLine(line) == Some(s) <==> line == Line(s)
  {
  }

  /**
   * The log is an audit trail: read back, it gives exactly the steps that ran,
   * hence exactly the collaborator calls made.
   */
  lemma {:induction false} LogReadsBack(ss: seq<Step>)
    ensures ParseLog(Lines(ss)) == Some(ss)
  {
    if ss != [] {
      LineParse(Line(ss[0]), ss[0]);
      LogReadsBack(ss[1..]);
      assert Lines(ss)[1..] == Lines(ss[1..]);
      assert [ss[0]] + ss[1..] == ss;
    }
  }

  /** Two runs with the same log made the same collaborator calls. */
  lemma LogDeterminesCalls(a: seq<Step>, b: seq<Step>, p: Payload, weeks: Option<int>)
    requires Lines(a) == Lines(b)
    ensures a == b
    ensures Invocations(a, p, weeks) == Invocations(b, p, weeks)
  {
    LogReadsBack(a);
    LogReadsBack(b);
  }

  /** No log line holds a line break, so the returned text splits back into the log. */
  lemma {:induction false} ReportSplitsBack(ss: seq<Step>)
    requires ss != []
    ensures Split(Join(Lines(ss))) == Lines(ss)
  {
    LinesLength(ss);
    forall i | 0 <= i < |Lines(ss)| ensures SingleLine(Lines(ss)[i]) {
      LinesIndex(ss, i);
      LineSingle(ss[i]);
    }
    SplitJoin(Lines(ss));
  }

  lemma LineSingle(s: Step)
    ensures SingleLine(Line(s))
  {
  }

  lemma {:induction false} LinesIndex(ss: seq<Step>, i: nat)
    requires i < |ss|
    ensures |Lines(ss)| == |ss| && Lines(ss)[i] == Line(ss[i])
  {
    LinesLength(ss);
    if i > 0 { LinesIndex(ss[1..], i - 1); }
  }

  // ----- failures -----

  /**
   * What runs is the fired steps up to and including the first one whose
   * collaborator raises: a prefix of the fired steps; a raising run ends at
   * the first failing invocation; a run that does not raise is all of them.
   */
  lemma {:induction false} ExecuteFollowsFired(ss: seq<Step>, p: Payload, failing: set<nat>, n: nat)
    ensures Execute(ss, p, failing, n).ran <= FiredFrom(ss, p)
    ensures var r := Execute(ss, p, failing, n);
      r.raised ==>
        (n + |r.ran| - 1) in failing &&
        (forall k :: n <= k < n + |r.ran| - 1 ==> k !in failing)
    ensures var r := Execute(ss, p, failing, n);
      !r.raised ==>
        r.ran == FiredFrom(ss, p) &&
        (forall k :: n <= k < n + |r.ran| ==> k !in failing)
  {
    if ss != [] {
      if !Fires(ss[0], p) {
        ExecuteFollowsFired(ss[1..], p, failing, n);
      } else if n !in failing {
        ExecuteFollowsFired(ss[1..], p, failing, n + 1);
      }
    }
  }

  /** A run raises exactly when one of its fired steps' invocations is a failing one. */
  lemma RaisesIff(ss: seq<Step>, p: Payload, failing: set<nat>, n: nat)
    ensures Execute(ss, p, failing, n).raised <==>
      exists k :: n <= k < n + |FiredFrom(ss, p)| && k in failing
  {
    var r := Execute(ss, p, failing, n);
    ExecuteFollowsFired(ss, p, failing, n);
    if r.raised {
      assert |r.ran| <= |FiredFrom(ss, p)|;
      var k := n + |r.ran| - 1;
      assert n <= k < n + |FiredFrom(ss, p)| && k in failing;
    }
  }

  // ----- the whole of `process` -----

  /** What `process` gives its caller: a value (nil or the log text) or a raised error. */
  datatype Outcome = Returned(text: Option<string>) | Raised(error: Call)

  /**
   * The specification of one `process` call on a payload, from the log
   * `logs0` and trace `calls0` before it to `logs1`, `calls1` and the outcome
   * `r` after it. Invocation number |calls0| + i is the i-th of this call.
   */
  predicate Dispatched(currentUserId: int, p: Payload, weeks: Option<int>, failing: set<nat>,
                       logs0: seq<string>, calls0: seq<Call>,
                       logs1: seq<string>, calls1: seq<Call>, r: Outcome)
  {
    if TriggeredBySelf(currentUserId, p) then
      r == Returned(None) && logs1 == logs0 && calls1 == calls0
    else
      var run := Execute(Pipeline, p, failing, |calls0|);
      logs1 == logs0 + Lines(run.ran) &&
      calls1 == calls0 + Invocations(run.ran, p, weeks) &&
      r == if run.raised then Raised(Invocation(run.ran[|run.ran| - 1], p, weeks))
           else Returned(Some(Join(logs1)))
  }

  /** A self-triggered delivery returns nil, logs nothing and invokes no collaborator. */
  lemma SelfTriggeredDoesNothing(currentUserId: int, p: Payload, weeks: Option<int>, failing: set<nat>,
                                 logs0: seq<string>, calls0: seq<Call>,
                                 logs1: seq<string>, calls1: seq<Call>, r: Outcome)
    requires Dispatched(currentUserId, p, weeks, failing, logs0, calls0, logs1, calls1, r)
    requires currentUserId == p.senderId
    ensures r == Returned(None) && logs1 == logs0 && calls1 == calls0
  {
  }

  /**
   * Any other delivery: the new log lines and the new calls match one to one
   * and in order, and the lines read back as the steps that ran; those are the
   * fired steps up to the first raising call; the run raises exactly when one
   * of the fired steps' invocations fails, and then with the error of the last
   * call made; otherwise every fired step ran and the whole log is returned.
   */
  lemma DispatchedRun(currentUserId: int, p: Payload, weeks: Option<int>, failing: set<nat>,
                      logs0: seq<string>, calls0: seq<Call>,
                      logs1: seq<string>, calls1: seq<Call>, r: Outcome)
    requires Dispatched(currentUserId, p, weeks, failing, logs0, calls0, logs1, calls1, r)
    requires currentUserId != p.senderId
    ensures |logs0| <= |logs1| && |calls0| <= |calls1|
    ensures |logs1| - |logs0| == |calls1| - |calls0| <= |Fired(p)|
    ensures ParseLog(logs1[|logs0|..]).Some?
    ensures var ran := ParseLog(logs1[|logs0|..]).value;
      ran <= Fired(p) && calls1[|calls0|..] == Invocations(ran, p, weeks)
    ensures r.Raised? <==> exists k :: |calls0| <= k < |calls0| + |Fired(p)| && k in failing
    ensures r.Raised? ==>
      |calls1| > |calls0| && (|calls1| - 1) in failing && r.error == calls1[|calls1| - 1] &&
      forall k :: |calls0| <= k < |calls1| - 1 ==> k !in failing
    ensures r.Returned? ==>
      r.text == Some(Join(logs1)) &&
      logs1 == logs0 + Lines(Fired(p)) && calls1 == calls0 + Invocations(Fired(p), p, weeks)
  {
    var run := Execute(Pipeline, p, failing, |calls0|);
    DispatchedSlices(currentUserId, p, weeks, failing, logs0, calls0, logs1, calls1, r);
    ExecuteFollowsFired(Pipeline, p, failing, |calls0|);
    RaisesIff(Pipeline, p, failing, |calls0|);
    LogReadsBack(run.ran);
    assert |run.ran| <= |Fired(p)| by {
      assert run.ran <= Fired(p);
    }
    if run.raised {
      LastInvocation(run.ran, p, weeks);
      assert calls1[|calls1| - 1] == calls1[|calls0|..][|run.ran| - 1];
    }
  }

  /** The part of the log and of the trace that one call adds, and their lengths. */
  lemma DispatchedSlices(currentUserId: int, p: Payload, weeks: Option<int>, failing: set<nat>,
                         logs0: seq<string>, calls0: seq<Call>,
                         logs1: seq<string>, calls1: seq<Call>, r: Outcome)
    requires Dispatched(currentUserId, p, weeks, failing, logs0, calls0, logs1, calls1, r)
    requires currentUserId != p.senderId
    ensures var run := Execute(Pipeline, p, failing, |calls0|);
      |logs1| == |logs0| + |run.ran| && |calls1| == |calls0| + |run.ran| &&
      logs1[|logs0|..] == Lines(run.ran) && calls1[|calls0|..] == Invocations(run.ran, p, weeks)
  {
    var run := Execute(Pipeline, p, failing, |calls0|);
    LinesLength(run.ran);
    InvocationsLength(run.ran, p, weeks);
    assert logs1[|logs0|..] == Lines(run.ran);
    assert calls1[|calls0|..] == Invocations(run.ran, p, weeks);
  }

  /** The last call of a run is the invocation of its last step. */
  lemma LastInvocation(ran: seq<Step>, p: Payload, weeks: Option<int>)
    requires ran != []
    ensures |Invocations(ran, p, weeks)| == |ran|
    ensures Invocations(ran, p, weeks)[|ran| - 1] == Invocation(ran[|ran| - 1], p, weeks)
  {
    var last := ran[|ran| - 1];
    InvocationsLength(ran, p, weeks);
    InvocationsAppend(ran[..|ran| - 1], [last], p, weeks);
    assert ran == ran[..|ran| - 1] + [last];
    assert Invocations([last], p, weeks) == [Invocation(last, p, weeks)];
  }

  /** When none of its invocations fails, a delivery's log and calls are exactly those of the fired steps. */
  lemma DispatchedWithoutFailure(currentUserId: int, p: Payload, weeks: Option<int>, failing: set<nat>,
                                 logs0: seq<string>, calls0: seq<Call>,
                                 logs1: seq<string>, calls1: seq<Call>, r: Outcome)
    requires Dispatched(currentUserId, p, weeks, failing, logs0, calls0, logs1, calls1, r)
    requires currentUserId != p.senderId
    requires forall k :: |calls0| <= k < |calls0| + |Pipeline| ==> k !in failing
    ensures logs1 == logs0 + Lines(Fired(p))
    ensures calls1 == calls0 + Invocations(Fired(p), p, weeks)
    ensures r == Returned(Some(Join(logs0 + Lines(Fired(p)))))
  {
    MaintenanceStepsLast(p, weeks);
    DispatchedRun(currentUserId, p, weeks, failing, logs0, calls0, logs1, calls1, r);
  }

  /**
   * The notification rules for a whole `process` call in which no invocation
   * fails: which notification lines the call logs, how many ready-for-review
   * deliveries it makes, and when it makes the recycle notification.
   */
  lemma DispatchedNotifications(currentUserId: int, p: Payload, weeks: Option<int>, failing: set<nat>,
                                logs0: seq<string>, calls0: seq<Call>,
                                logs1: seq<string>, calls1: seq<Call>, r: Outcome)
    requires Dispatched(currentUserId, p, weeks, failing, logs0, calls0, logs1, calls1, r)
    requires currentUserId != p.senderId
    requires forall k :: |calls0| <= k < |calls0| + |Pipeline| ==> k !in failing
    ensures |logs0| <= |logs1| && |calls0| <= |calls1|
    ensures "Notifying new pull request" in logs1[|logs0|..] <==>
      p.pullRequestAction && p.actionOpened && !p.issue.wip
    ensures "Notifying unwip" in logs1[|logs0|..] <==> p.unwipAction
    ensures ReadyForReviewCount(calls1[|calls0|..]) ==
      (if p.pullRequestAction && p.actionOpened && !p.issue.wip then 1 else 0) +
      (if p.unwipAction then 1 else 0)
    ensures RecycleDelivery(p.issue, p.commentBody) in calls1[|calls0|..] <==> p.recycleRequest
  {
    DispatchedWithoutFailure(currentUserId, p, weeks, failing, logs0, calls0, logs1, calls1, r);
    assert logs1[|logs0|..] == Lines(Fired(p));
    assert calls1[|calls0|..] == Invocations(Fired(p), p, weeks);
    LineOf(Fired(p), NewPullRequest);
    FiredMembers(p, NewPullRequest);
    UnwipRule(p);
    ReadyForReviewDeliveries(p, weeks);
    RecycleCarriesCommentBody(p, weeks);
  }

  /** A step's line is in the log of `ss` exactly when the step is in `ss`. */
  lemma LineOf(ss: seq<Step>, s: Step)
    ensures Line(s) in Lines(ss) <==> s in ss
  {
    LinesMembers(ss, Line(s));
    forall t | t in ss && Line(t) == Line(s) ensures t == s {
      LineParse(Line(t), t);
      LineParse(Line(s), s);
    }
  }

  // ----- one step at a time, as `process` runs them -----

  /**
   * The effect of one step method on the log and the invocation trace: if its
   * guard holds it appends its line and then makes its one invocation, raising
   * what that invocation raises; otherwise it changes nothing.
   */
  predicate StepEffect(s: Step, p: Payload, weeks: Option<int>, failing: set<nat>,
                       logs0: seq<string>, calls0: seq<Call>,
                       logs1: seq<string>, calls1: seq<Call>, error: Option<Call>)
  {
    if Fires(s, p) then
      logs1 == logs0 + [Line(s)] &&
      calls1 == calls0 + [Invocation(s, p, weeks)] &&
      error == (if |calls0| in failing then Some(Invocation(s, p, weeks)) else None)
    else
      logs1 == logs0 && calls1 == calls0 && error == None
  }

  /**
   * Where `process` stands when the steps `todo` are still to come and the
   * earlier ones ran without raising: the steps `done` that fired have been
   * logged and invoked, and the rest of the run is what `todo` does.
   */
  ghost predicate Progress(todo: seq<Step>, p: Payload, weeks: Option<int>, failing: set<nat>, n0: nat,
                           logs0: seq<string>, calls0: seq<Call>, done: seq<Step>,
                           logs: seq<string>, calls: seq<Call>)
  {
    var rest := Execute(todo, p, failing, n0 + |done|);
    |calls0| == n0 &&
    logs == logs0 + Lines(done) &&
    calls == calls0 + Invocations(done, p, weeks) &&
    Execute(Pipeline, p, failing, n0) == Run(done + rest.ran, rest.raised)
  }

  lemma Start(p: Payload, weeks: Option<int>, failing: set<nat>, n0: nat,
              logs0: seq<string>, calls0: seq<Call>)
    requires |calls0| == n0
    ensures Progress(Pipeline, p, weeks, failing, n0, logs0, calls0, [], logs0, calls0)
  {
    assert logs0 + [] == logs0 && calls0 + [] == calls0;
  }

  /** The next step of `process` either keeps the run on track or ends it exactly as `Execute` says. */
  lemma Advance(currentUserId: int, s: Step, todo: seq<Step>, p: Payload, weeks: Option<int>, failing: set<nat>, n0: nat,
                logs0: seq<string>, calls0: seq<Call>, done: seq<Step>,
                logs: seq<string>, calls: seq<Call>,
                logs1: seq<string>, calls1: seq<Call>, error: Option<Call>)
    returns (done1: seq<Step>)
    requires !TriggeredBySelf(currentUserId, p)
    requires todo != [] && todo[0] == s
    requires Progress(todo, p, weeks, failing, n0, logs0, calls0, done, logs, calls)
    requires StepEffect(s, p, weeks, failing, logs, calls, logs1, calls1, error)
    ensures error.None? ==> Progress(todo[1..], p, weeks, failing, n0, logs0, calls0, done1, logs1, calls1)
    ensures error.Some? ==>
      Dispatched(currentUserId, p, weeks, failing, logs0, calls0, logs1, calls1, Raised(error.value))
  {
    InvocationsLength(done, p, weeks);
    assert |calls| == n0 + |done|;
    assert todo == [s] + todo[1..];
    if !Fires(s, p) {
      done1 := done;
      ExecuteCons(s, todo[1..], p, failing, n0 + |done|);
    } else if n0 + |done| !in failing {
      done1 := done + [s];
      AdvanceDelivered(s, todo[1..], p, weeks, failing, n0, logs0, calls0, done, logs, calls);
    } else {
      done1 := done + [s];
      AdvanceRaised(currentUserId, s, todo[1..], p, weeks, failing, n0, logs0, calls0, done, logs, calls);
    }
  }

  /** A step that fired and whose collaborator returned keeps the run on track. */
  lemma AdvanceDelivered(s: Step, rest: seq<Step>, p: Payload, weeks: Option<int>, failing: set<nat>, n0: nat,
                         logs0: seq<string>, calls0: seq<Call>, done: seq<Step>,
                         logs: seq<string>, calls: seq<Call>)
    requires Fires(s, p) && n0 + |done| !in failing
    requires Progress([s] + rest, p, weeks, failing, n0, logs0, calls0, done, logs, calls)
    ensures Progress(rest, p, weeks, failing, n0, logs0, calls0, done + [s],
                     logs + [Line(s)], calls + [Invocation(s, p, weeks)])
  {
    ExecuteCons(s, rest, p, failing, n0 + |done|);
    Appended(s, rest, p, weeks, failing, n0, logs0, calls0, done, logs, calls);
  }

  /** A step that fired and whose collaborator raised ends the run as `Dispatched` says. */
  lemma AdvanceRaised(currentUserId: int, s: Step, rest: seq<Step>, p: Payload, weeks: Option<int>,
                      failing: set<nat>, n0: nat,
                      logs0: seq<string>, calls0: seq<Call>, done: seq<Step>,
                      logs: seq<string>, calls: seq<Call>)
    requires !TriggeredBySelf(currentUserId, p)
    requires Fires(s, p) && n0 + |done| in failing
    requires Progress([s] + rest, p, weeks, failing, n0, logs0, calls0, done, logs, calls)
    ensures Dispatched(currentUserId, p, weeks, failing, logs0, calls0,
                       logs + [Line(s)], calls + [Invocation(s, p, weeks)], Raised(Invocation(s, p, weeks)))
  {
    ExecuteCons(s, rest, p, failing, n0 + |done|);
    Appended(s, rest, p, weeks, failing, n0, logs0, calls0, done, logs, calls);
    var run := Execute(Pipeline, p, failing, |calls0|);
    assert run == Run(done + [s], true);
    assert run.ran[|run.ran| - 1] == s;
  }

  /** The bookkeeping of a step that fired: its line and call extend those of the earlier steps. */
  lemma Appended(s: Step, rest: seq<Step>, p: Payload, weeks: Option<int>, failing: set<nat>, n0: nat,
                 logs0: seq<string>, calls0: seq<Call>, done: seq<Step>,
                 logs: seq<string>, calls: seq<Call>)
    requires logs == logs0 + Lines(done) && calls == calls0 + Invocations(done, p, weeks)
    requires |calls0| == n0
    ensures logs + [Line(s)] == logs0 + Lines(done + [s])
    ensures calls + [Invocation(s, p, weeks)] == calls0 + Invocations(done + [s], p, weeks)
    ensures |calls| == n0 + |done|
    ensures (done + [s]) + Execute(rest, p, failing, n0 + |done| + 1).ran ==
      done + ([s] + Execute(rest, p, failing, n0 + |done| + 1).ran)
  {
    InvocationsLength(done, p, weeks);
    LinesAppend(done, [s]);
    InvocationsAppend(done, [s], p, weeks);
    assert Lines([s]) == [Line(s)];
    assert Invocations([s], p, weeks) == [Invocation(s, p, weeks)];
  }

  /** How a run goes on from its next candidate step. */
  lemma ExecuteCons(s: Step, rest: seq<Step>, p: Payload, failing: set<nat>, n: nat)
    ensures Execute([s] + rest, p, failing, n) ==
      if !Fires(s, p) then Execute(rest, p, failing, n)
      else if n in failing then Run([s], true)
      else Run([s] + Execute(rest, p, failing, n + 1).ran, Execute(rest, p, failing, n + 1).raised)
  {
    assert ([s] + rest)[0] == s && ([s] + rest)[1..] == rest;
  }

  lemma Finish(currentUserId: int, p: Payload, weeks: Option<int>, failing: set<nat>, n0: nat,
               logs0: seq<string>, calls0: seq<Call>, done: seq<Step>,
               logs: seq<string>, calls: seq<Call>)
    requires !TriggeredBySelf(currentUserId, p)
    requires Progress(Pipeline[7..], p, weeks, failing, n0, logs0, calls0, done, logs, calls)
    ensures Dispatched(currentUserId, p, weeks, failing, logs0, calls0, logs, calls, Returned(Some(Join(logs))))
  {
    assert Pipeline[7..] == [];
    assert done + [] == done;
  }
}
