/** The words a guard tool answers in, and the shapes it accepts. */
module Guard {
  import opened Common

  /** Passed stands for the empty reason; Other is text outside the closed vocabulary. */
  datatype Reason =
    | Passed | Merged | InvalidInput | WrongRepository | WrongBase | PRNotOpen | HeadMoved
    | ReviewMissing | ReviewStale | ChangesRequested
    | QAMissing | QAUntrustedCreator | QANotSuccess
    | CheckMissing | CheckNotSuccess
    | BaseBehind | NotMergeable | MergeabilityUnknown
    | MergeRefused | OutcomeUnknown | MergeNotSent
    | Moved | AlreadyInLane | ItemNotFound | WrongProject | ItemArchived | LaneUnknown
    | TravadoIsHuman | DoneIsFinal | TransitionRefused | MoveRefused | MoveNotSent
    | SentBack | NotReadyToMerge | CauseNotObserved
    | CommentRefused | CommentNotSent | LabelRefused | LabelNotSent
    | ClosedOut | PRNotMerged | CardNotClosable
    | Other(text: string)

  /** What a read of GitHub gave. */
  datatype Read<+T> = Unread | Got(value: T)

  function LowerChar(c: char): char {
    if 'A' <= c <= 'Z' then c - 'A' + 'a' else c
  }

  function Lower(s: string): string {
    seq(|s|, i requires 0 <= i < |s| => LowerChar(s[i]))
  }

  /** GitHub compares logins and repository names without case. */
  predicate SameName(a: string, b: string) {
    Lower(a) == Lower(b)
  }

  predicate ValidSHA(s: string) {
    |s| == 40 && forall i :: 0 <= i < |s| ==> '0' <= s[i] <= '9' || 'a' <= s[i] <= 'f'
  }

  /** State words are kept as the one comparison a decision makes with each. */
  datatype PullState = Open | Closed

  /** The labels that tell the roles apart. */
  datatype Tag = ReadyToMerge | NeedsReview | NeedsChanges | NeedsQA | OtherTag(text: string)

  datatype PullRequest = PullRequest(
    state: PullState, labels: seq<Tag>, merged: bool, mergeable: Option<bool>, mergeCommit: string,
    head: string, base: string, repo: string)

  datatype Target = Target(repo: string, base: string)

  function CheckPullRequest(want: Target, pr: PullRequest, head: string): Reason {
    if !SameName(pr.repo, want.repo) then WrongRepository
    else if pr.base != want.base then WrongBase
    else if pr.state != Open || pr.merged then PRNotOpen
    else if pr.head != head then HeadMoved
    else Passed
  }

  /** The pull request is in the protected target and GitHub merged it with exactly this head. */
  predicate AlreadyMerged(want: Target, pr: PullRequest, head: string) {
    pr.merged && pr.head == head && SameName(pr.repo, want.repo) && pr.base == want.base
  }

  method HasLabel(pr: PullRequest, name: Tag) returns (found: bool)
    ensures found <==> name in pr.labels
  {
    for i := 0 to |pr.labels|
      invariant name !in pr.labels[..i]
    {
      if pr.labels[i] == name {
        return true;
      }
    }
    return false;
  }
}

/** Whether a pull request may be merged: each signal judged by its latest word, in a fixed order of
    conditions, and the readiness condition those judgements decide. */
module Readiness {
  import opened Common
  import opened Guard
  import Sorting

  datatype ReviewState = Approves | RequestsChanges | Comments | Dismissed
  datatype Review = Review(id: int, state: ReviewState, commit: string, login: string)
  datatype Context = FactoryQA | OtherContext
  datatype Verdict = Success | OtherVerdict
  datatype Account = Bot | OtherAccount
  datatype CommitStatus = CommitStatus(id: int, state: Verdict, context: Context, creator: int, creatorType: Account)
  datatype RunStatus = Completed | Running
  datatype CheckRun = CheckRun(id: int, name: string, status: RunStatus, conclusion: Verdict, head: string, app: int)
  datatype Signals = Signals(
    reviews: seq<Review>, statuses: seq<CommitStatus>, checks: seq<CheckRun>, behindBy: int)
  datatype Settings = Settings(
    target: Target, reviewers: seq<string>, qaBot: int, checks: seq<string>, checksApp: int)

  /** GitHub gives each review, status and run an id of its own. */
  ghost predicate DistinctIDs(sig: Signals) {
    && DistinctReviews(sig.reviews)
    && (forall a, b :: a in sig.statuses && b in sig.statuses && a.id == b.id ==> a == b)
    && (forall a, b :: a in sig.checks && b in sig.checks && a.id == b.id ==> a == b)
  }

  ghost predicate DistinctReviews(reviews: seq<Review>) {
    forall a, b :: a in reviews && b in reviews && a.id == b.id ==> a == b
  }

  // ---- reviews ----

  predicate Authorised(reviewers: seq<string>, login: string) {
    exists k :: 0 <= k < |reviewers| && SameName(reviewers[k], login)
  }

  /** A review that decides something, by someone allowed to decide it. */
  predicate Decides(reviewers: seq<string>, r: Review) {
    r.state != Comments && Authorised(reviewers, r.login)
  }

  /** Nothing its reviewer decided is later than r. */
  ghost predicate Standing(reviewers: seq<string>, reviews: seq<Review>, r: Review) {
    && r in reviews && Decides(reviewers, r)
    && forall o :: o in reviews && Decides(reviewers, o) && SameName(o.login, r.login) ==> o.id <= r.id
  }

  /** One standing review for each reviewer who decided something. */
  ghost predicate IsStandings(reviewers: seq<string>, reviews: seq<Review>, latest: map<string, Review>) {
    && (forall k :: k in latest ==> Lower(latest[k].login) == k && Standing(reviewers, reviews, latest[k]))
    && (forall r :: r in reviews && Decides(reviewers, r) ==> Lower(r.login) in latest)
  }

  ghost function Standings(reviewers: seq<string>, reviews: seq<Review>): set<Review> {
    set r | r in reviews && Standing(reviewers, reviews, r)
  }

  /** What a set of standing reviews says of a head, whatever the order they are read in. */
  ghost function ReviewReason(standing: set<Review>, head: string): Reason {
    if exists r :: r in standing && r.state == RequestsChanges then ChangesRequested
    else if exists r :: r in standing && r.state == Approves && r.commit == head then Passed
    else if exists r :: r in standing && r.state == Approves then ReviewStale
    else ReviewMissing
  }

  lemma DistinctStandings(reviewers: seq<string>, reviews: seq<Review>, latest: map<string, Review>)
    requires DistinctReviews(reviews) && IsStandings(reviewers, reviews, latest)
    ensures latest.Values == Standings(reviewers, reviews)
  {
  }

  /** A library sort by id: any order among equal ids. */
  method SortByID(reviews: seq<Review>) returns (out: seq<Review>)
    ensures forall r :: r in out <==> r in reviews
    ensures forall a, b :: 0 <= a < b < |out| ==> out[a].id <= out[b].id
  {
    var key := (r: Review) => r.id;
    out := Sorting.SortStable(reviews, key);
    ghost var idx := Sorting.SortStableIsStable(reviews, key);
    forall r | r in reviews ensures r in out {
      var i: nat :| i < |reviews| && reviews[i] == r;
      assert i in idx;
    }
    forall a, b | 0 <= a < b < |out| ensures out[a].id <= out[b].id {
      assert Sorting.Precedes(reviews, key, idx[a], idx[b]);
    }
  }

  method LatestReviews(reviewers: seq<string>, reviews: seq<Review>) returns (latest: map<string, Review>)
    ensures IsStandings(reviewers, reviews, latest)
  {
    var sorted := SortByID(reviews);
    latest := map[];
    for i := 0 to |sorted|
      invariant forall k :: k in latest ==>
        latest[k] in sorted[..i] && Decides(reviewers, latest[k]) && Lower(latest[k].login) == k
      invariant forall j :: 0 <= j < i && Decides(reviewers, sorted[j]) ==>
        Lower(sorted[j].login) in latest && sorted[j].id <= latest[Lower(sorted[j].login)].id
    {
      var r := sorted[i];
      assert forall k :: k in latest ==> latest[k].id <= r.id;
      if Decides(reviewers, r) {
        latest := latest[Lower(r.login) := r];
      }
    }
  }

  /** Reads the standings in whatever order the map gives them. */
  method JudgeStandings(latest: map<string, Review>, head: string) returns (reason: Reason)
    ensures reason == ReviewReason(latest.Values, head)
  {
    reason := ReviewMissing;
    var left := latest.Keys;
    ghost var seen: set<Review> := {};
    while left != {}
      invariant left <= latest.Keys
      invariant forall k :: k in latest.Keys - left ==> latest[k] in seen
      invariant forall r :: r in seen ==> r in latest.Values && r.state != RequestsChanges
      invariant reason == ReviewReason(seen, head)
      decreases left
    {
      var k :| k in left;
      var r := latest[k];
      left := left - {k};
      if r.state == RequestsChanges {
        assert r in latest.Values;
        return ChangesRequested;
      }
      reason := JudgeOne(seen, r, head, reason);
      seen := seen + {r};
    }
    assert seen == latest.Values;
  }

  method JudgeOne(ghost seen: set<Review>, r: Review, head: string, was: Reason) returns (reason: Reason)
    requires was == ReviewReason(seen, head)
    requires forall o :: o in seen ==> o.state != RequestsChanges
    requires r.state != RequestsChanges
    ensures reason == ReviewReason(seen + {r}, head)
  {
    reason := was;
    if r.state == Approves && r.commit == head {
      reason := Passed;
    } else if r.state == Approves && reason == ReviewMissing {
      reason := ReviewStale;
    }
    assert r in seen + {r};
    assert forall o :: o in seen ==> o in seen + {r};
  }

  // ---- the QA status ----

  ghost predicate LatestStatus(statuses: seq<CommitStatus>, s: CommitStatus) {
    && s in statuses && s.context == FactoryQA
    && forall o :: o in statuses && o.context == FactoryQA ==> o.id <= s.id
  }

  function StatusReason(bot: int, s: CommitStatus): Reason {
    if s.creator != bot || s.creatorType != Bot then QAUntrustedCreator
    else if s.state != Success then QANotSuccess
    else Passed
  }

  method CheckQA(bot: int, statuses: seq<CommitStatus>) returns (reason: Reason)
    ensures (forall s :: s in statuses ==> s.context != FactoryQA) ==> reason == QAMissing
    ensures (exists s :: s in statuses && s.context == FactoryQA) ==>
              exists s :: LatestStatus(statuses, s) && reason == StatusReason(bot, s)
  {
    var latest: Option<CommitStatus> := None;
    for i := 0 to |statuses|
      invariant latest.None? ==> forall s :: s in statuses[..i] ==> s.context != FactoryQA
      invariant latest.Some? ==> LatestStatus(statuses[..i], latest.value)
    {
      var s := statuses[i];
      assert statuses[..i + 1] == statuses[..i] + [s];
      if s.context == FactoryQA && (latest.None? || s.id > latest.value.id) {
        latest := Some(s);
      }
    }
    assert statuses[..|statuses|] == statuses;
    if latest.None? {
      return QAMissing;
    }
    return StatusReason(bot, latest.value);
  }

  // ---- the check runs ----

  predicate RunOf(r: CheckRun, name: string, app: int, head: string) {
    r.name == name && r.app == app && r.head == head
  }

  ghost predicate LatestRun(runs: seq<CheckRun>, name: string, app: int, head: string, r: CheckRun) {
    && r in runs && RunOf(r, name, app, head)
    && forall o :: o in runs && RunOf(o, name, app, head) ==> o.id <= r.id
  }

  predicate Succeeded(r: CheckRun) {
    r.status == Completed && r.conclusion == Success
  }

  /** The verdict on one expected check, by the latest run the expected app made of it on the head. */
  ghost predicate RunReason(runs: seq<CheckRun>, name: string, app: int, head: string, reason: Reason) {
    match reason
    case CheckMissing => forall r :: r in runs ==> !RunOf(r, name, app, head)
    case Passed => exists r :: LatestRun(runs, name, app, head, r) && Succeeded(r)
    case CheckNotSuccess => exists r :: LatestRun(runs, name, app, head, r) && !Succeeded(r)
    case _ => false
  }

  method FindLatestRun(runs: seq<CheckRun>, name: string, app: int, head: string) returns (found: Option<CheckRun>)
    ensures found.None? ==> forall r :: r in runs ==> !RunOf(r, name, app, head)
    ensures found.Some? ==> LatestRun(runs, name, app, head, found.value)
  {
    found := None;
    for i := 0 to |runs|
      invariant found.None? ==> forall r :: r in runs[..i] ==> !RunOf(r, name, app, head)
      invariant found.Some? ==> LatestRun(runs[..i], name, app, head, found.value)
    {
      var r := runs[i];
      assert runs[..i + 1] == runs[..i] + [r];
      if RunOf(r, name, app, head) && (found.None? || r.id > found.value.id) {
        found := Some(r);
      }
    }
    assert runs[..|runs|] == runs;
  }

  /** The first expected check that fails, and how; no name when none does. */
  ghost predicate RunsReason(m: Settings, runs: seq<CheckRun>, head: string, reason: Reason, name: string) {
    if reason == Passed then name == "" && RunsPass(m, runs, head, |m.checks|)
    else FirstFailure(m, runs, head, reason, name)
  }

  ghost predicate RunsPass(m: Settings, runs: seq<CheckRun>, head: string, count: nat)
    requires count <= |m.checks|
  {
    forall j :: 0 <= j < count ==> RunReason(runs, m.checks[j], m.checksApp, head, Passed)
  }

  ghost predicate FirstFailure(m: Settings, runs: seq<CheckRun>, head: string, reason: Reason, name: string) {
    exists k ::
      && 0 <= k < |m.checks| && name == m.checks[k]
      && RunReason(runs, name, m.checksApp, head, reason)
      && RunsPass(m, runs, head, k)
  }

  method CheckRuns(m: Settings, runs: seq<CheckRun>, head: string) returns (reason: Reason, name: string)
    ensures RunsReason(m, runs, head, reason, name)
  {
    for k := 0 to |m.checks|
      invariant RunsPass(m, runs, head, k)
    {
      var found := FindLatestRun(runs, m.checks[k], m.checksApp, head);
      if found.None? {
        return CheckMissing, m.checks[k];
      }
      if !Succeeded(found.value) {
        return CheckNotSuccess, m.checks[k];
      }
    }
    return Passed, "";
  }

  // ---- the judgement ----

  function CheckFreshness(pr: PullRequest, behindBy: int): Reason {
    if behindBy > 0 then BaseBehind
    else if pr.mergeable.None? then MergeabilityUnknown
    else if !pr.mergeable.value then NotMergeable
    else Passed
  }

  /** The verdict on reviews, then QA, then checks, then freshness: the first that fails decides. With
      an id shared by two reviews either may stand, so this is a relation. */
  ghost predicate Judged(m: Settings, pr: PullRequest, sig: Signals, head: string, reason: Reason, check: string) {
    exists latest ::
      && IsStandings(m.reviewers, sig.reviews, latest)
      && JudgedOn(m, pr, sig, head, ReviewReason(latest.Values, head), reason, check)
  }

  ghost predicate JudgedOn(m: Settings, pr: PullRequest, sig: Signals, head: string, review: Reason, reason: Reason,
                           check: string) {
    if review != Passed then reason == review && check == ""
    else exists qa :: QAReason(m.qaBot, sig.statuses, qa) && JudgedAfterQA(m, pr, sig, head, qa, reason, check)
  }

  ghost predicate JudgedAfterQA(m: Settings, pr: PullRequest, sig: Signals, head: string, qa: Reason, reason: Reason,
                                check: string) {
    if qa != Passed then reason == qa && check == ""
    else
      exists runs, name ::
        && RunsReason(m, sig.checks, head, runs, name)
        && check == name
        && reason == if runs != Passed then runs else CheckFreshness(pr, sig.behindBy)
  }

  ghost predicate QAReason(bot: int, statuses: seq<CommitStatus>, reason: Reason) {
    if exists s :: s in statuses && s.context == FactoryQA
    then exists s :: LatestStatus(statuses, s) && reason == StatusReason(bot, s)
    else reason == QAMissing
  }

  method Judge(m: Settings, pr: PullRequest, sig: Signals, head: string) returns (reason: Reason, check: string)
    ensures Judged(m, pr, sig, head, reason, check)
  {
    var latest := LatestReviews(m.reviewers, sig.reviews);
    reason := JudgeStandings(latest, head);
    if reason != Passed {
      return reason, "";
    }
    reason := CheckQA(m.qaBot, sig.statuses);
    ghost var qa := reason;
    assert QAReason(m.qaBot, sig.statuses, qa);
    if reason != Passed {
      assert JudgedAfterQA(m, pr, sig, head, qa, reason, "");
      return reason, "";
    }
    reason, check := CheckRuns(m, sig.checks, head);
    if reason == Passed {
      reason := CheckFreshness(pr, sig.behindBy);
    }
    assert JudgedAfterQA(m, pr, sig, head, qa, reason, check);
  }

  /** The readiness condition, with no order of judging in it: an approval of this head stands and no
      reviewer's standing asks for changes, the QA bot's success is the last word of QA, every expected
      check last succeeded on this head, and GitHub finds the open, current head mergeable. */
  ghost predicate Ready(m: Settings, pr: PullRequest, sig: Signals, head: string) {
    && CheckPullRequest(m.target, pr, head) == Passed
    && Approved(m.reviewers, sig.reviews, head)
    && QASucceeded(m.qaBot, sig.statuses)
    && ChecksSucceeded(m, sig.checks, head)
    && sig.behindBy <= 0 && pr.mergeable == Some(true)
  }

  ghost predicate Approved(reviewers: seq<string>, reviews: seq<Review>, head: string) {
    && (exists r :: Standing(reviewers, reviews, r) && r.state == Approves && r.commit == head)
    && (forall r :: Standing(reviewers, reviews, r) ==> r.state != RequestsChanges)
  }

  ghost predicate QASucceeded(bot: int, statuses: seq<CommitStatus>) {
    exists s :: LatestStatus(statuses, s) && s.creator == bot && s.creatorType == Bot && s.state == Success
  }

  ghost predicate ChecksSucceeded(m: Settings, runs: seq<CheckRun>, head: string) {
    forall name :: name in m.checks ==> exists r :: LatestRun(runs, name, m.checksApp, head, r) && Succeeded(r)
  }

  lemma QAReasonIsUnique(m: Settings, sig: Signals, a: Reason, b: Reason)
    requires DistinctIDs(sig)
    requires QAReason(m.qaBot, sig.statuses, a) && QAReason(m.qaBot, sig.statuses, b)
    ensures a == b
  {
    if exists s :: s in sig.statuses && s.context == FactoryQA {
      var s :| LatestStatus(sig.statuses, s) && a == StatusReason(m.qaBot, s);
      var t :| LatestStatus(sig.statuses, t) && b == StatusReason(m.qaBot, t);
      assert s.id == t.id;
    }
  }

  lemma RunReasonIsUnique(sig: Signals, name: string, app: int, head: string, a: Reason, b: Reason)
    requires DistinctIDs(sig)
    requires RunReason(sig.checks, name, app, head, a) && RunReason(sig.checks, name, app, head, b)
    ensures a == b
  {
  }

  lemma RunsReasonIsUnique(m: Settings, sig: Signals, head: string, a: Reason, x: string, b: Reason, y: string)
    requires DistinctIDs(sig)
    requires RunsReason(m, sig.checks, head, a, x) && RunsReason(m, sig.checks, head, b, y)
    ensures a == b && x == y
  {
    if a != Passed && b != Passed {
      var k :| 0 <= k < |m.checks| && x == m.checks[k] && RunReason(sig.checks, x, m.checksApp, head, a)
        && RunsPass(m, sig.checks, head, k);
      var j :| 0 <= j < |m.checks| && y == m.checks[j] && RunReason(sig.checks, y, m.checksApp, head, b)
        && RunsPass(m, sig.checks, head, j);
      if k < j {
        RunReasonIsUnique(sig, x, m.checksApp, head, a, Passed);
      } else if j < k {
        RunReasonIsUnique(sig, y, m.checksApp, head, b, Passed);
      } else {
        RunReasonIsUnique(sig, x, m.checksApp, head, a, b);
      }
    } else {
      FailureIsNoPass(m, sig, head, a, x);
      FailureIsNoPass(m, sig, head, b, y);
    }
  }

  lemma FailureIsNoPass(m: Settings, sig: Signals, head: string, reason: Reason, name: string)
    requires DistinctIDs(sig)
    ensures reason != Passed && FirstFailure(m, sig.checks, head, reason, name) ==>
            !RunsPass(m, sig.checks, head, |m.checks|)
  {
  }

  /** Two judgements of one state say the same, and name the same check. */
  lemma JudgedIsUnique(m: Settings, pr: PullRequest, sig: Signals, head: string, a: Reason, x: string, b: Reason,
                       y: string)
    requires DistinctIDs(sig)
    requires Judged(m, pr, sig, head, a, x) && Judged(m, pr, sig, head, b, y)
    ensures a == b && x == y
  {
    var l :| IsStandings(m.reviewers, sig.reviews, l) && JudgedOn(m, pr, sig, head, ReviewReason(l.Values, head), a, x);
    var k :| IsStandings(m.reviewers, sig.reviews, k) && JudgedOn(m, pr, sig, head, ReviewReason(k.Values, head), b, y);
    DistinctStandings(m.reviewers, sig.reviews, l);
    DistinctStandings(m.reviewers, sig.reviews, k);
    if ReviewReason(l.Values, head) == Passed {
      var q :| QAReason(m.qaBot, sig.statuses, q) && JudgedAfterQA(m, pr, sig, head, q, a, x);
      var p :| QAReason(m.qaBot, sig.statuses, p) && JudgedAfterQA(m, pr, sig, head, p, b, y);
      QAReasonIsUnique(m, sig, q, p);
      JudgedAfterQAIsUnique(m, pr, sig, head, q, a, x, b, y);
    }
  }

  lemma JudgedAfterQAIsUnique(m: Settings, pr: PullRequest, sig: Signals, head: string, qa: Reason, a: Reason,
                              x: string, b: Reason, y: string)
    requires DistinctIDs(sig)
    requires JudgedAfterQA(m, pr, sig, head, qa, a, x) && JudgedAfterQA(m, pr, sig, head, qa, b, y)
    ensures a == b && x == y
  {
    if qa == Passed {
      var r :| RunsReason(m, sig.checks, head, r, x)
        && a == if r != Passed then r else CheckFreshness(pr, sig.behindBy);
      var t :| RunsReason(m, sig.checks, head, t, y)
        && b == if t != Passed then t else CheckFreshness(pr, sig.behindBy);
      RunsReasonIsUnique(m, sig, head, r, x, t, y);
    }
  }

  /** The ordered judgement passes exactly on the readiness condition. */
  lemma PassesExactlyWhenReady(m: Settings, pr: PullRequest, sig: Signals, head: string, reason: Reason, check: string)
    requires DistinctIDs(sig)
    requires CheckPullRequest(m.target, pr, head) == Passed
    requires Judged(m, pr, sig, head, reason, check)
    ensures reason == Passed <==> Ready(m, pr, sig, head)
  {
    var latest :| IsStandings(m.reviewers, sig.reviews, latest)
      && JudgedOn(m, pr, sig, head, ReviewReason(latest.Values, head), reason, check);
    DistinctStandings(m.reviewers, sig.reviews, latest);
    ReviewsPass(m, sig, head);
    var review := ReviewReason(latest.Values, head);
    if review == Passed {
      var qa :| QAReason(m.qaBot, sig.statuses, qa) && JudgedAfterQA(m, pr, sig, head, qa, reason, check);
      PassesAfterQA(m, pr, sig, head, qa, reason, check);
    }
  }

  lemma PassesAfterQA(m: Settings, pr: PullRequest, sig: Signals, head: string, qa: Reason, reason: Reason,
                      check: string)
    requires DistinctIDs(sig)
    requires QAReason(m.qaBot, sig.statuses, qa) && JudgedAfterQA(m, pr, sig, head, qa, reason, check)
    ensures reason == Passed <==>
              && QASucceeded(m.qaBot, sig.statuses)
              && ChecksSucceeded(m, sig.checks, head)
              && sig.behindBy <= 0 && pr.mergeable == Some(true)
  {
    QAPasses(m, sig, qa);
    if qa == Passed {
      var r :| RunsReason(m, sig.checks, head, r, check)
        && reason == if r != Passed then r else CheckFreshness(pr, sig.behindBy);
      ChecksPass(m, sig, head, r, check);
    }
  }

  lemma ReviewsPass(m: Settings, sig: Signals, head: string)
    ensures ReviewReason(Standings(m.reviewers, sig.reviews), head) == Passed <==>
            Approved(m.reviewers, sig.reviews, head)
  {
  }

  lemma QAPasses(m: Settings, sig: Signals, qa: Reason)
    requires DistinctIDs(sig) && QAReason(m.qaBot, sig.statuses, qa)
    ensures qa == Passed <==> QASucceeded(m.qaBot, sig.statuses)
  {
  }

  lemma ChecksPass(m: Settings, sig: Signals, head: string, reason: Reason, name: string)
    requires DistinctIDs(sig) && RunsReason(m, sig.checks, head, reason, name)
    ensures reason == Passed <==> ChecksSucceeded(m, sig.checks, head)
  {
    if reason != Passed {
      assert name in m.checks;
      if exists r :: LatestRun(sig.checks, name, m.checksApp, head, r) && Succeeded(r) {
        RunReasonIsUnique(sig, name, m.checksApp, head, reason, Passed);
      }
    } else {
      forall n | n in m.checks ensures RunReason(sig.checks, n, m.checksApp, head, Passed) {
        var k :| 0 <= k < |m.checks| && m.checks[k] == n;
      }
    }
  }

  /** The order GitHub lists reviews, statuses and runs in changes no readiness. */
  lemma OrderDoesNotMatter(m: Settings, pr: PullRequest, sig: Signals, other: Signals, head: string)
    requires forall r :: r in sig.reviews <==> r in other.reviews
    requires forall s :: s in sig.statuses <==> s in other.statuses
    requires forall r :: r in sig.checks <==> r in other.checks
    requires sig.behindBy == other.behindBy
    ensures Ready(m, pr, sig, head) == Ready(m, pr, other, head)
  {
  }

  /** The judgement on its own, for a listing or a send_back. */
  method Prejudge(m: Settings, first: Read<PullRequest>, signals: Read<Signals>, head: string)
    returns (verdict: Read<(Reason, string)>)
    ensures verdict.Unread? <==>
              first.Unread? || (CheckPullRequest(m.target, first.value, head) == Passed && signals.Unread?)
    ensures verdict.Got? ==> Prejudged(m, first.value, signals, head, verdict.value.0, verdict.value.1)
    ensures verdict.Got? && signals.Got? && DistinctIDs(signals.value) ==>
              (verdict.value.0 == Passed <==> Ready(m, first.value, signals.value, head))
  {
    if first.Unread? {
      return Unread;
    }
    var reason := CheckPullRequest(m.target, first.value, head);
    if reason != Passed {
      return Got((reason, ""));
    }
    if signals.Unread? {
      return Unread;
    }
    var check;
    reason, check := Judge(m, first.value, signals.value, head);
    if DistinctIDs(signals.value) {
      PassesExactlyWhenReady(m, first.value, signals.value, head, reason, check);
    }
    return Got((reason, check));
  }

  ghost predicate Prejudged(m: Settings, pr: PullRequest, signals: Read<Signals>, head: string, reason: Reason,
                            check: string) {
    var first := CheckPullRequest(m.target, pr, head);
    if first != Passed then reason == first && check == ""
    else signals.Got? && Judged(m, pr, signals.value, head, reason, check)
  }
}
