/**
 * The values the dispatcher reads: the webhook payload with the answers of
 * its classification predicates, the entities it hands to collaborators, the
 * collaborator invocations themselves, and the configuration hash.
 */
module Events {
  import opened Wrappers

  /** The issue (or pull request) a delivery is about; `wip` is `issue.wip?`. */
  datatype Issue = Issue(number: int, wip: bool)

  /** The review carried by a review event; opaque to the dispatcher. */
  datatype Review = Review(id: int)

  /** The repository reference returned by `payload.repo`. */
  datatype Repo = Repo(fullName: string)

  /**
   * One webhook delivery. The booleans are the results of the payload's
   * classification predicates (`pull_request_action?`, `action.opened?`,
   * `unwip_action?`, `recycle_request?`, `review_action?`), which are
   * computed outside the dispatcher.
   */
  datatype Payload = Payload(
    senderId: int,
    pullRequestAction: bool,
    actionOpened: bool,
    unwipAction: bool,
    recycleRequest: bool,
    reviewAction: bool,
    issue: Issue,
    review: Review,
    commentBody: string,
    repo: Repo)

  /**
   * One invocation of a collaborator: the object it is constructed with and
   * the `deliver` or `run` call made on it.
   */
  datatype Call =
    | ReadyForReviewDelivery(issue: Issue)
    | RecycleDelivery(issue: Issue, commentBody: string)
    | ReviewDelivery(review: Review, issue: Issue)
    | CardUpdaterRun(payload: Payload)
    | LabelerRun(issue: Issue)
    | IssueCloserRun(repo: Repo, weeks: Option<int>)

  /** The configuration hash key `:stale_issue_weeks`. */
  const StaleIssueWeeksKey: string := "stale_issue_weeks"

  /** `config || {}`: a missing configuration is the empty hash. */
  function EffectiveConfig(config: Option<map<string, int>>): map<string, int> {
    if config.Some? then config.value else map[]
  }

  /** `config[:stale_issue_weeks]`: nil when the key is absent. */
  function StaleIssueWeeks(config: map<string, int>): Option<int> {
    if StaleIssueWeeksKey in config then Some(config[StaleIssueWeeksKey]) else None
  }

  /** A processor built without configuration hands the issue closer no threshold. */
  lemma NoConfigNoWeeks()
    ensures StaleIssueWeeks(EffectiveConfig(None)) == None
  {
  }
}
