/** GitHub as the guard's client meets it: a request may fail before it leaves, and once it has left
    GitHub may apply it whatever comes back. */
module Wire {
  import opened Common
  import opened Guard

  datatype Write =
    | PutMerge(pr: int, sha: string)
    | PostComment(pr: int, cause: Reason, head: string)
    | AddLabel(pr: int, name: Tag)
    | DropReady(pr: int)
    | SetStatus(item: string, option: string)

  /** What comes back: nothing usable, or a status and a body, None when the body does not decode. */
  datatype Reply<+T> = Lost | Status(code: nat, body: Option<T>)

  /** How one request fares: the stages before it leaves, whether GitHub applies it once it has left,
      and what comes back. */
  datatype Attempt<+T> = Attempt(token: bool, encodes: bool, builds: bool, live: bool, applies: bool, reply: Reply<T>)

  /** What send reports: never sent, sent and then failed, or a status with what was decoded. */
  datatype Sent<+T> = NotSent | Failed | Answered(code: nat, out: Option<T>)

  predicate Leaves<T>(a: Attempt<T>) {
    a.token && a.encodes && a.builds && a.live
  }

  predicate Takes<T>(a: Attempt<T>) {
    Leaves(a) && a.applies
  }

  /** The request left and no usable answer came: a cut connection, or a success that does not decode. */
  predicate Unanswered<T>(reply: Reply<T>, wantsOut: bool) {
    reply.Lost? || (reply.code / 100 == 2 && wantsOut && reply.body.None?)
  }

  function When<T>(b: bool, x: T): seq<T> {
    if b then [x] else []
  }

  /** A log, with one write more where that happened. */
  function Logged(log: seq<Write>, b: bool, w: Write): seq<Write> {
    if b then log + [w] else log
  }

  datatype Traffic = Traffic(tried: seq<Write>, handed: seq<Write>, applied: seq<Write>)

  class GitHub {
    /** The writes send was asked for, those handed to the transport, and those GitHub applied,
        other people's included. */
    var tried: seq<Write>
    var handed: seq<Write>
    ghost var applied: seq<Write>

    ghost function Sent(): Traffic
      reads this
    {
      Traffic(tried, handed, applied)
    }

    constructor ()
      ensures tried == handed == applied == []
    {
      tried, handed, applied := [], [], [];
    }

    /** The failure is NotSent exactly when nothing left the process. */
    method Send<T>(w: Write, a: Attempt<T>, wantsOut: bool) returns (r: Sent<T>)
      modifies this
      ensures tried == old(tried) + [w]
      ensures handed == Logged(old(handed), Leaves(a), w)
      ensures applied == Logged(old(applied), Takes(a), w)
      ensures r.NotSent? <==> !Leaves(a)
      ensures r.Answered? ==> a.reply.Status? && r.code == a.reply.code
      ensures r.Answered? && r.code / 100 == 2 && wantsOut ==> r.out.Some? && r.out == a.reply.body
      ensures r.Answered? && (r.code / 100 != 2 || !wantsOut) ==> r.out.None?
      ensures r.Failed? <==> Leaves(a) && Unanswered(a.reply, wantsOut)
    {
      tried := tried + [w];
      if !a.token {
        return NotSent;
      }
      if !a.encodes {
        return NotSent;
      }
      if !a.builds || !a.live {
        return NotSent;
      }
      handed := handed + [w];
      if a.applies {
        applied := applied + [w];
      }
      if a.reply.Lost? {
        return Failed;
      }
      if a.reply.code / 100 != 2 || !wantsOut {
        return Answered(a.reply.code, None);
      }
      if a.reply.body.None? {
        return Failed;
      }
      return Answered(a.reply.code, a.reply.body);
    }

    /** What other people did meanwhile. */
    ghost method Meanwhile(writes: seq<Write>)
      modifies this`applied
      ensures applied == old(applied) + writes
    {
      applied := applied + writes;
    }
  }
}

/** The one irreversible write: merge_if_ready, and the re-read that settles a lost answer. */
module Merging {
  import opened Common
  import opened Guard
  import opened Wire
  import opened Readiness
  import opened Refusals

  datatype MergeAnswer = MergeAnswer(sha: string, merged: bool)

  /** An error of the source is Unread: GitHub could not be read. */
  datatype MergeResult = MergeResult(
    merged: bool, reason: Reason, pr: int, head: string, mergeSHA: string, check: string, httpStatus: nat)

  /** Every answer one call gets, and what others do before its request and before its re-read. */
  datatype Script = Script(
    first: Read<PullRequest>, signals: Read<Signals>, before: seq<Write>, merge: Attempt<MergeAnswer>,
    after: seq<Write>, again: Read<PullRequest>)

  /** What GitHub applied by the time of the re-read, had the request been made. */
  ghost function AppliedBy(applied: seq<Write>, number: int, head: string, s: Script): seq<Write> {
    Logged(applied + s.before, Takes(s.merge), PutMerge(number, head)) + s.after
  }

  predicate SaysMerged(reply: Reply<MergeAnswer>) {
    reply.Status? && reply.code == 200 && reply.body.Some? && reply.body.value.merged
  }

  /** GitHub reports a merge only where it merged: by a read, that head; by an answer, this request. */
  ghost predicate Honest(applied: seq<Write>, number: int, head: string, s: Script) {
    && (s.first.Got? && s.first.value.merged ==> PutMerge(number, s.first.value.head) in applied)
    && (SaysMerged(s.merge.reply) ==> s.merge.applies)
    && (s.again.Got? && s.again.value.merged ==>
          PutMerge(number, s.again.value.head) in AppliedBy(applied, number, head, s))
  }

  /** The reads and the judgement that stand before the merge request. */
  ghost predicate Admitted(m: Settings, number: int, head: string, s: Script) {
    && number > 0 && ValidSHA(head)
    && s.first.Got? && CheckPullRequest(m.target, s.first.value, head) == Passed
    && s.signals.Got? && Judged(m, s.first.value, s.signals.value, head, Passed, "")
  }

  /** What settles that the request merged: GitHub says so, or its answer was lost and a read shows it. */
  predicate Shown(m: Settings, head: string, s: Script) {
    && Leaves(s.merge)
    && (SaysMerged(s.merge.reply)
        || (Unanswered(s.merge.reply, true) && s.again.Got? && AlreadyMerged(m.target, s.again.value, head)))
  }

  /** The answer to the one merge call, by how its request fared. */
  function Outcome(m: Settings, head: string, s: Script): Reason {
    if !Leaves(s.merge) then MergeNotSent
    else if Shown(m, head, s) then Merged
    else if Unanswered(s.merge.reply, true) then OutcomeUnknown
    else if s.merge.reply.code == 409 then HeadMoved
    else MergeRefused
  }

  /** What GitHub applied while the call ran: its own request or not, and other people's writes. */
  ghost function Applied(applied: seq<Write>, number: int, head: string, s: Script): seq<Write> {
    if Leaves(s.merge) && Unanswered(s.merge.reply, true) then AppliedBy(applied, number, head, s)
    else Logged(applied + s.before, Takes(s.merge), PutMerge(number, head))
  }

  /** What was asked for, what left and what GitHub applied, after the one merge request. */
  ghost function Requested(was: Traffic, number: int, head: string, s: Script): Traffic {
    var w := PutMerge(number, head);
    Traffic(was.tried + [w], Logged(was.handed, Leaves(s.merge), w), Applied(was.applied, number, head, s))
  }

  /** What GitHub is trusted with: a merge it answers with a 4xx of its own is not made. */
  predicate Trusted(s: Script) {
    s.merge.reply.Status? && s.merge.reply.code / 100 == 4 ==> !s.merge.applies
  }

  /** The caller sees the status; it proves that this call merged nothing. */
  ghost predicate RefusalIsProof(m: Settings, head: string, status: nat) {
    forall s :: Outcome(m, head, s) == MergeRefused && s.merge.reply.code == status && Trusted(s) ==> !Takes(s.merge)
  }

  /** An error status from in front of GitHub stands over a merge that was made: at 502, say. */
  lemma RefusalMayHideAMerge(m: Settings, head: string, status: nat) returns (s: Script)
    requires status / 100 != 4
    ensures Outcome(m, head, s) == MergeRefused && s.merge.reply.code == status && Trusted(s) && Takes(s.merge)
  {
    var answer := Status(status, Some(MergeAnswer("", false)));
    s := Script(Unread, Unread, [], Attempt(true, true, true, true, true, answer), [], Unread);
  }

  /** merge_refused proves that this call merged nothing exactly when its status is a 4xx. */
  lemma RefusalProvesExactlyOn4xx(m: Settings, head: string, status: nat)
    requires status != 409
    ensures RefusalIsProof(m, head, status) <==> status / 100 == 4
  {
    if status / 100 != 4 {
      var s := RefusalMayHideAMerge(m, head, status);
    }
  }

  /** The reads and the readiness condition on them. */
  ghost predicate Reaches(m: Settings, number: int, head: string, s: Script) {
    && number > 0 && ValidSHA(head)
    && s.first.Got? && s.signals.Got? && Ready(m, s.first.value, s.signals.value, head)
  }

  /** An answer given without a merge request: bad input, a head merged already, or what prejudge says. */
  ghost predicate Settles(m: Settings, number: int, head: string, s: Script, res: MergeResult) {
    if number <= 0 || !ValidSHA(head) then res.reason == InvalidInput
    else
      && s.first.Got?
      && if AlreadyMerged(m.target, s.first.value, head) then res.reason == Merged
         else Prejudged(m, s.first.value, s.signals, head, res.reason, res.check)
  }

  /** A read the decision needs did not come. */
  predicate NotRead(m: Settings, number: int, head: string, s: Script) {
    && number > 0 && ValidSHA(head)
    && (s.first.Unread? || (CheckPullRequest(m.target, s.first.value, head) == Passed && s.signals.Unread?))
  }

  /** Before the merge request: a failed read, an answer already, or the request is next. */
  datatype Entry = Failed | Settled(res: MergeResult) | Proceed(res: MergeResult)

  function MergedResult(res: MergeResult, sha: string): MergeResult {
    var done := res.(merged := true, reason := Merged, httpStatus := 0);
    if ValidSHA(sha) then done.(mergeSHA := sha) else done
  }

  /** The log after an answer: the step of a refusal, for the outcomes no read can rebuild. */
  function Noted(seen: Log, number: int, head: string, reason: Reason, now: nat): Log {
    if Unrebuildable(reason) then Trimmed(seen, now)[Key(number, head, reason) := now] else seen
  }

  class Merger {
    const m: Settings
    const gh: GitHub
    const refusals: Record

    constructor (m: Settings, gh: GitHub, refusals: Record)
      ensures this.m == m && this.gh == gh && this.refusals == refusals
    {
      this.m, this.gh, this.refusals := m, gh, refusals;
    }

    /** At most one merge request, and only once every signal passed on that head; an error or
        merge_not_sent means nothing left the process; merged means GitHub merged that head. */
    method MergeIfReady(number: int, head: string, s: Script, now: nat) returns (r: Read<MergeResult>)
      requires Honest(gh.applied, number, head, s)
      modifies gh, refusals
      ensures gh.tried != old(gh.tried) ==>
                && Admitted(m, number, head, s)
                && r.Got? && r.value.reason == Outcome(m, head, s)
                && (r.value.reason == MergeRefused ==> r.value.httpStatus == s.merge.reply.code)
                && gh.Sent() == Requested(old(gh.Sent()), number, head, s)
      ensures gh.tried == old(gh.tried) ==>
                gh.Sent() == old(gh.Sent()) && (r.Got? ==> Settles(m, number, head, s, r.value))
      ensures r.Unread? <==> NotRead(m, number, head, s)
      ensures r.Unread? ==> gh.tried == old(gh.tried)
      ensures r.Got? && r.value.reason == MergeNotSent ==> gh.handed == old(gh.handed) && !Takes(s.merge)
      ensures r.Got? ==> r.value.pr == number && (r.value.merged <==> r.value.reason == Merged)
      ensures r.Got? && r.value.merged ==> PutMerge(number, head) in gh.applied && r.value.head == head
      ensures refusals.seen ==
                if r.Got? then Noted(old(refusals.seen), number, head, r.value.reason, now) else old(refusals.seen)
      ensures s.signals.Got? && DistinctIDs(s.signals.value) ==>
                (gh.tried != old(gh.tried) <==> Reaches(m, number, head, s))
    {
      var entry := Admit(number, head, s);
      if entry.Failed? {
        return Unread;
      }
      if entry.Settled? {
        return Got(entry.res);
      }
      var res := MergeAndRecord(entry.res, s, now);
      return Got(res);
    }

    /** The merge call, and the record of an outcome no read can rebuild. */
    method MergeAndRecord(was: MergeResult, s: Script, now: nat) returns (res: MergeResult)
      requires !was.merged && was.reason == Passed
      requires Honest(gh.applied, was.pr, was.head, s)
      modifies gh, refusals
      ensures gh.Sent() == Requested(old(gh.Sent()), was.pr, was.head, s)
      ensures gh.tried == old(gh.tried) + [PutMerge(was.pr, was.head)]
      ensures res.pr == was.pr && res.head == was.head
      ensures res.reason == Outcome(m, was.head, s) && (res.merged <==> res.reason == Merged)
      ensures res.merged ==> PutMerge(was.pr, was.head) in gh.applied
      ensures res.reason == MergeRefused ==> res.httpStatus == s.merge.reply.code
      ensures res.reason == MergeNotSent ==> gh.handed == old(gh.handed) && !Takes(s.merge)
      ensures refusals.seen == Noted(old(refusals.seen), was.pr, was.head, res.reason, now)
    {
      res := Merge(was, s);
      if Unrebuildable(res.reason) {
        refusals.Add(Key(res.pr, res.head, res.reason), now);
      }
    }

    /** Everything before the merge request. */
    method Admit(number: int, head: string, s: Script) returns (e: Entry)
      requires Honest(gh.applied, number, head, s)
      ensures e.Failed? <==> NotRead(m, number, head, s)
      ensures e.Proceed? ==> Admitted(m, number, head, s)
      ensures s.signals.Got? && DistinctIDs(s.signals.value) ==>
                (e.Proceed? <==> Reaches(m, number, head, s))
      ensures e.Proceed? ==> e.res == MergeResult(false, Passed, number, head, "", "", 0)
      ensures e.Settled? ==> e.res.pr == number && Settles(m, number, head, s, e.res)
      ensures e.Settled? ==> (e.res.merged <==> e.res.reason == Merged)
      ensures e.Settled? ==> e.res.reason != MergeNotSent && !Unrebuildable(e.res.reason)
      ensures e.Settled? && e.res.merged ==> PutMerge(number, head) in gh.applied && e.res.head == head
    {
      e := AdmitPull(number, head, s);
      if e.Proceed? {
        if s.signals.Unread? {
          return Entry.Failed;
        }
        e := AdmitSignals(e.res, s.first.value, s.signals.value, head);
      }
    }

    /** The input and the pull request itself. */
    method AdmitPull(number: int, head: string, s: Script) returns (e: Entry)
      requires Honest(gh.applied, number, head, s)
      ensures e.Proceed? <==>
                number > 0 && ValidSHA(head) && s.first.Got?
                  && CheckPullRequest(m.target, s.first.value, head) == Passed
      ensures e.Failed? <==> number > 0 && ValidSHA(head) && s.first.Unread?
      ensures e.Proceed? ==> e.res == MergeResult(false, Passed, number, head, "", "", 0)
      ensures e.Settled? ==> e.res.pr == number && Settles(m, number, head, s, e.res)
      ensures e.Settled? ==> (e.res.merged <==> e.res.reason == Merged)
      ensures e.Settled? ==> e.res.reason != MergeNotSent && !Unrebuildable(e.res.reason)
      ensures e.Settled? && e.res.merged ==> PutMerge(number, head) in gh.applied && e.res.head == head
    {
      var res := MergeResult(false, Passed, number, "", "", "", 0);
      if number <= 0 || !ValidSHA(head) {
        return Settled(res.(reason := InvalidInput));
      }
      res := res.(head := head);
      if s.first.Unread? {
        return Entry.Failed;
      }
      if AlreadyMerged(m.target, s.first.value, head) {
        return Settled(MergedResult(res, s.first.value.mergeCommit));
      }
      var reason := CheckPullRequest(m.target, s.first.value, head);
      return if reason != Passed then Settled(res.(reason := reason)) else Proceed(res);
    }

    method AdmitSignals(res: MergeResult, pr: PullRequest, sig: Signals, head: string) returns (e: Entry)
      requires CheckPullRequest(m.target, pr, head) == Passed && !res.merged && res.reason == Passed && res.check == ""
      ensures e == Proceed(res)
              || (e.Settled? && e.res == res.(reason := e.res.reason, check := e.res.check) && e.res.reason != Passed)
      ensures Judged(m, pr, sig, head, e.res.reason, e.res.check) && !MergeWord(e.res.reason)
      ensures DistinctIDs(sig) ==> (e.Proceed? <==> Ready(m, pr, sig, head))
    {
      var reason, check := Judge(m, pr, sig, head);
      JudgedByReadiness(m, pr, sig, head, reason, check);
      return if reason != Passed then Settled(res.(reason := reason, check := check)) else Proceed(res);
    }

    /** The one merge call. */
    method Merge(was: MergeResult, s: Script) returns (res: MergeResult)
      requires !was.merged && was.reason == Passed
      requires Honest(gh.applied, was.pr, was.head, s)
      modifies gh
      ensures gh.tried == old(gh.tried) + [PutMerge(was.pr, was.head)]
      ensures gh.handed == Logged(old(gh.handed), Leaves(s.merge), PutMerge(was.pr, was.head))
      ensures gh.applied == Applied(old(gh.applied), was.pr, was.head, s)
      ensures res.pr == was.pr && res.head == was.head
      ensures res.reason == Outcome(m, was.head, s) && (res.merged <==> res.reason == Merged)
      ensures res.merged ==> PutMerge(was.pr, was.head) in gh.applied
      ensures res.reason == MergeRefused ==> res.httpStatus == s.merge.reply.code
    {
      gh.Meanwhile(s.before);
      var sent := gh.Send(PutMerge(was.pr, was.head), s.merge, true);
      if sent.NotSent? {
        return was.(reason := MergeNotSent);
      }
      if sent.Failed? {
        gh.Meanwhile(s.after);
        assert gh.applied == AppliedBy(old(gh.applied), was.pr, was.head, s);
        res := Reconcile(was, s.again);
        return;
      }
      if sent.code == 200 && sent.out.Some? && sent.out.value.merged {
        return MergedResult(was, sent.out.value.sha);
      }
      return was.(reason := if sent.code == 409 then HeadMoved else MergeRefused, httpStatus := sent.code);
    }

    /** Settles a lost answer by reading, never by merging again. */
    method Reconcile(was: MergeResult, again: Read<PullRequest>) returns (res: MergeResult)
      requires !was.merged && was.reason == Passed
      requires again.Got? && again.value.merged ==> PutMerge(was.pr, again.value.head) in gh.applied
      ensures res.pr == was.pr && res.head == was.head && (res.merged <==> res.reason == Merged)
      ensures res.merged ==> PutMerge(was.pr, was.head) in gh.applied
      ensures res.reason == OutcomeUnknown <==> !(again.Got? && AlreadyMerged(m.target, again.value, was.head))
      ensures res.reason in {Merged, OutcomeUnknown}
    {
      if again.Got? && AlreadyMerged(m.target, again.value, was.head) {
        return MergedResult(was, again.value.mergeCommit);
      }
      return was.(reason := OutcomeUnknown);
    }
  }

  lemma JudgedByReadiness(m: Settings, pr: PullRequest, sig: Signals, head: string, reason: Reason, check: string)
    requires CheckPullRequest(m.target, pr, head) == Passed && Judged(m, pr, sig, head, reason, check)
    ensures reason == Passed ==> check == ""
    ensures !MergeWord(reason)
    ensures DistinctIDs(sig) ==> (reason == Passed <==> Ready(m, pr, sig, head))
  {
    if DistinctIDs(sig) {
      PassesExactlyWhenReady(m, pr, sig, head, reason, check);
    }
    JudgedWords(m, pr, sig, head, reason, check);
  }

  /** The answers only a merge request can give. */
  predicate MergeWord(reason: Reason) {
    reason.Merged? || reason.MergeNotSent? || reason.OutcomeUnknown? || reason.MergeRefused?
  }

  lemma JudgedWords(m: Settings, pr: PullRequest, sig: Signals, head: string, reason: Reason, check: string)
    requires Judged(m, pr, sig, head, reason, check)
    ensures reason == Passed ==> check == ""
    ensures !MergeWord(reason)
  {
    var latest :| IsStandings(m.reviewers, sig.reviews, latest)
      && JudgedOn(m, pr, sig, head, ReviewReason(latest.Values, head), reason, check);
    ReviewWord(latest.Values, head);
    JudgedOnWords(m, pr, sig, head, ReviewReason(latest.Values, head), reason, check);
  }

  lemma ReviewWord(standing: set<Review>, head: string)
    ensures !MergeWord(ReviewReason(standing, head))
  {
  }

  lemma QAWord(bot: int, statuses: seq<CommitStatus>, qa: Reason)
    requires QAReason(bot, statuses, qa)
    ensures !MergeWord(qa)
  {
  }

  lemma RunsWord(m: Settings, runs: seq<CheckRun>, head: string, reason: Reason, name: string)
    requires RunsReason(m, runs, head, reason, name)
    ensures (reason.Passed? ==> name == "") && (reason.Passed? || reason.CheckMissing? || reason.CheckNotSuccess?)
  {
  }

  lemma FreshnessWord(pr: PullRequest, behindBy: int)
    ensures !MergeWord(CheckFreshness(pr, behindBy))
  {
  }

  lemma RunsWords(m: Settings, pr: PullRequest, sig: Signals, head: string, reason: Reason, check: string)
    requires JudgedAfterQA(m, pr, sig, head, Passed, reason, check)
    ensures (reason == Passed ==> check == "") && !MergeWord(reason)
  {
    FreshnessWord(pr, sig.behindBy);
    forall runs | RunsReason(m, sig.checks, head, runs, check)
      ensures (runs.Passed? ==> check == "") && !MergeWord(runs)
    {
      RunsWord(m, sig.checks, head, runs, check);
    }
  }

  lemma JudgedOnWords(m: Settings, pr: PullRequest, sig: Signals, head: string, review: Reason, reason: Reason,
                      check: string)
    requires !MergeWord(review) && JudgedOn(m, pr, sig, head, review, reason, check)
    ensures (reason == Passed ==> check == "") && !MergeWord(reason)
  {
    if review == Passed {
      var qa :| QAReason(m.qaBot, sig.statuses, qa) && JudgedAfterQA(m, pr, sig, head, qa, reason, check);
      QAWord(m.qaBot, sig.statuses, qa);
      if qa == Passed {
        RunsWords(m, pr, sig, head, reason, check);
      }
    }
  }

  /** On one state, read the same way, prejudge answers empty exactly when merge_if_ready is admitted to
      its merge request. */
  lemma PrejudgeForetellsMerge(m: Settings, number: int, head: string, s: Script, reason: Reason, check: string)
    requires number > 0 && ValidSHA(head) && s.first.Got? && s.signals.Got? && DistinctIDs(s.signals.value)
    requires Prejudged(m, s.first.value, s.signals, head, reason, check)
    ensures reason == Passed <==> Admitted(m, number, head, s)
    ensures reason == Passed <==> Ready(m, s.first.value, s.signals.value, head)
  {
    if CheckPullRequest(m.target, s.first.value, head) == Passed {
      JudgedByReadiness(m, s.first.value, s.signals.value, head, reason, check);
      if Judged(m, s.first.value, s.signals.value, head, Passed, "") {
        JudgedIsUnique(m, s.first.value, s.signals.value, head, reason, check, Passed, "");
      }
    }
  }
}

/** send_back: telling a pull request why it was not merged, and handing it on. */
module SendingBack {
  import opened Common
  import opened Guard
  import opened Wire
  import opened Readiness
  import opened Refusals

  /** Who is next after a cause: a factory role, by label, or a person. */
  datatype Route = ToRole(tag: Tag) | ToPerson

  function RouteFor(cause: Reason): Option<Route> {
    match cause
    case HeadMoved => Some(ToRole(NeedsReview))
    case ReviewMissing => Some(ToRole(NeedsReview))
    case ReviewStale => Some(ToRole(NeedsReview))
    case ChangesRequested => Some(ToRole(NeedsChanges))
    case QANotSuccess => Some(ToRole(NeedsChanges))
    case CheckNotSuccess => Some(ToRole(NeedsChanges))
    case QAMissing => Some(ToRole(NeedsQA))
    case QAUntrustedCreator => Some(ToRole(NeedsQA))
    case BaseBehind => Some(ToPerson)
    case NotMergeable => Some(ToPerson)
    case MergeRefused => Some(ToPerson)
    case OutcomeUnknown => Some(ToPerson)
    case _ => None
  }

  /** Whatever a judgement refuses with can be sent back, but for the two causes that clear by themselves. */
  lemma EveryLastingRefusalHasARoute(m: Settings, pr: PullRequest, sig: Signals, head: string, reason: Reason,
                                     check: string)
    requires Judged(m, pr, sig, head, reason, check) && reason != Passed
    ensures RouteFor(reason).None? <==> reason == CheckMissing || reason == MergeabilityUnknown
  {
    var latest :| IsStandings(m.reviewers, sig.reviews, latest)
      && JudgedOn(m, pr, sig, head, ReviewReason(latest.Values, head), reason, check);
    ReviewRefusalHasARoute(latest.Values, head);
    RefusalHasARoute(m, pr, sig, head, ReviewReason(latest.Values, head), reason, check);
  }

  /** The refusal is not one of the two that clear by themselves, and has a route. */
  predicate Lasting(reason: Reason) {
    RouteFor(reason).Some? && !reason.CheckMissing? && !reason.MergeabilityUnknown?
  }

  lemma ReviewRefusalHasARoute(standing: set<Review>, head: string)
    ensures ReviewReason(standing, head) == Passed || Lasting(ReviewReason(standing, head))
  {
  }

  lemma RefusalHasARoute(m: Settings, pr: PullRequest, sig: Signals, head: string, review: Reason, reason: Reason,
                         check: string)
    requires (review == Passed || Lasting(review)) && JudgedOn(m, pr, sig, head, review, reason, check)
             && reason != Passed
    ensures RouteFor(reason).None? <==> reason == CheckMissing || reason == MergeabilityUnknown
  {
    if review == Passed {
      var qa :| QAReason(m.qaBot, sig.statuses, qa) && JudgedAfterQA(m, pr, sig, head, qa, reason, check);
      if qa == Passed {
        RefusalAfterQAHasARoute(m, pr, sig, head, reason, check);
      } else {
        QARefusalHasARoute(m, sig, qa);
      }
    }
  }

  lemma QARefusalHasARoute(m: Settings, sig: Signals, qa: Reason)
    requires QAReason(m.qaBot, sig.statuses, qa) && qa != Passed
    ensures Lasting(qa)
  {
  }

  lemma RefusalAfterQAHasARoute(m: Settings, pr: PullRequest, sig: Signals, head: string, reason: Reason, check: string)
    requires JudgedAfterQA(m, pr, sig, head, Passed, reason, check) && reason != Passed
    ensures RouteFor(reason).None? <==> reason == CheckMissing || reason == MergeabilityUnknown
  {
    var runs :| RunsReason(m, sig.checks, head, runs, check)
      && reason == if runs != Passed then runs else CheckFreshness(pr, sig.behindBy);
  }

  datatype SendBackResult = SendBackResult(
    sentBack: bool, reason: Reason, pr: int, commentID: int, travado: bool, httpStatus: nat)

  /** Every answer one call gets: the pull request, the reads of a fresh judgement, and its writes. */
  datatype Script = Script(
    first: Read<PullRequest>, again: Read<PullRequest>, signals: Read<Signals>,
    comment: Attempt<CommentAnswer>, add: Attempt<()>, drop: Attempt<()>)

  /** An open pull request in the target that still carries the label. */
  predicate Addressable(want: Target, pr: PullRequest) {
    SameName(pr.repo, want.repo) && pr.base == want.base && pr.state == Open && !pr.merged && ReadyToMerge in pr.labels
  }

  function JudgeTarget(want: Target, pr: PullRequest): Reason {
    if !SameName(pr.repo, want.repo) then WrongRepository
    else if pr.base != want.base then WrongBase
    else if pr.state != Open || pr.merged then PRNotOpen
    else Passed
  }

  /** The server itself sees the cause on the head: recorded within the hour and not yet spent, or what
      a fresh judgement says. */
  ghost predicate Observed(m: Settings, number: int, head: string, cause: Reason, s: Script, seen: Log, now: nat) {
    if Unrebuildable(cause) then
      var key := Key(number, head, cause);
      s.first.Got? && s.first.value.head == head && key in seen && Proves(seen[key], now)
    else SeenAgain(m, head, cause, s)
  }

  /** A fresh judgement gives the cause. */
  ghost predicate SeenAgain(m: Settings, head: string, cause: Reason, s: Script) {
    s.again.Got? && exists check :: Prejudged(m, s.again.value, s.signals, head, cause, check)
  }

  /** A read the fresh judgement needs did not come. */
  predicate Unjudged(m: Settings, head: string, s: Script) {
    s.again.Unread? || (CheckPullRequest(m.target, s.again.value, head) == Passed && s.signals.Unread?)
  }

  predicate Created(a: Attempt<CommentAnswer>) {
    && Leaves(a) && a.reply.Status? && a.reply.code == 201
    && a.reply.body.Some? && a.reply.body.value.id > 0
  }

  predicate Deleted(a: Attempt<()>) {
    Leaves(a) && a.reply.Status? && a.reply.code in {200, 404}
  }

  predicate Labelled(a: Attempt<()>) {
    Leaves(a) && a.reply.Status? && a.reply.code == 200
  }

  /** The call gets as far as observing the cause. */
  predicate Enters(m: Settings, number: int, head: string, cause: Reason, s: Script) {
    && number > 0 && ValidSHA(head) && RouteFor(cause).Some?
    && s.first.Got? && Addressable(m.target, s.first.value)
  }

  /** What a call that does not get there answers. */
  function Turned(m: Settings, number: int, head: string, cause: Reason, s: Script): Read<Reason> {
    if number <= 0 || !ValidSHA(head) || RouteFor(cause).None? then Got(InvalidInput)
    else if s.first.Unread? then Unread
    else if JudgeTarget(m.target, s.first.value) != Passed then Got(JudgeTarget(m.target, s.first.value))
    else Got(NotReadyToMerge)
  }

  /** The judgement a rebuildable cause is compared with does not hang on shared ids. */
  ghost predicate Decided(cause: Reason, s: Script) {
    Unrebuildable(cause) || (s.signals.Got? ==> DistinctIDs(s.signals.value))
  }

  /** The refusal's whole journey through one call, as the steps other calls may interleave with. */
  function Journey(seen: Log, key: Key, now: nat, comment: Attempt<CommentAnswer>): State {
    Next(Next(State(seen, [], [], [], []), Taken(key, now)), Commented(0, comment))
  }

  /** A call leaves the refusal for another exactly where its answer rules a comment out, with the original
      moment; and of a GitHub whose 4xx answers wrote nothing, a refusal left has no comment. */
  lemma SpentUnlessUnwritten(seen: Log, key: Key, now: nat, comment: Attempt<CommentAnswer>)
    ensures var left := Journey(seen, key, now, comment).seen;
      && (key in left <==> key in seen && Proves(seen[key], now) && seen[key] != 0 && KnownUnwritten(comment))
      && (forall k :: k in left ==> k in seen && left[k] == seen[k])
      && (forall k :: k in seen && k != key ==> k in left)
    ensures Trusted(comment) && key in Journey(seen, key, now, comment).seen ==> !Takes(comment)
  {
  }

  /** The journey posts a comment exactly when the request made for a taken refusal is applied. */
  lemma JourneyPosts(seen: Log, key: Key, now: nat, comment: Attempt<CommentAnswer>)
    requires key in seen && Proves(seen[key], now)
    ensures Journey(seen, key, now, comment).posted == When(Takes(comment), Token(key, seen[key], now))
    ensures Journey(seen, key, now, comment).seen ==
            if seen[key] != 0 && KnownUnwritten(comment) then (seen - {key})[key := seen[key]] else seen - {key}
  {
    var taken := Next(State(seen, [], [], [], []), Taken(key, now));
    assert taken.held == [Token(key, seen[key], now)];
  }

  /** A log after the comment request: once the comment is known to exist the new label, and once that is
      known the old one removed; of the two, those that did what is asked of each. */
  function LabelsLogged(log: seq<Write>, number: int, route: Route, s: Script, added: bool, dropped: bool): seq<Write> {
    if Created(s.comment) && route.ToRole? then RelabelLogged(log, number, route.tag, s, added, dropped) else log
  }

  function RelabelLogged(log: seq<Write>, number: int, tag: Tag, s: Script, added: bool, dropped: bool): seq<Write> {
    Logged(Logged(log, added, AddLabel(number, tag)), Labelled(s.add) && dropped, DropReady(number))
  }

  /** What was asked for, what left and what GitHub applied, after a call that got to writing. */
  ghost function Wrote(was: Traffic, number: int, head: string, cause: Reason, route: Route, s: Script): Traffic {
    var w := PostComment(number, cause, head);
    Traffic(LabelsLogged(was.tried + [w], number, route, s, true, true),
         LabelsLogged(Logged(was.handed, Leaves(s.comment), w), number, route, s, Leaves(s.add), Leaves(s.drop)),
         LabelsLogged(Logged(was.applied, Takes(s.comment), w), number, route, s, Takes(s.add), Takes(s.drop)))
  }

  predicate Finishes(route: Route, s: Script) {
    Created(s.comment) && (route.ToRole? ==> Labelled(s.add) && Deleted(s.drop))
  }

  /** Why no comment is known to exist. */
  function CommentReason(a: Attempt<CommentAnswer>): Reason {
    if Created(a) then Passed
    else if !Leaves(a) then CommentNotSent
    else if KnownUnwritten(a) then CommentRefused
    else OutcomeUnknown
  }

  class Sender {
    const m: Settings
    const gh: GitHub
    const refusals: Record

    constructor (m: Settings, gh: GitHub, refusals: Record)
      ensures this.m == m && this.gh == gh && this.refusals == refusals
    {
      this.m, this.gh, this.refusals := m, gh, refusals;
    }

    /** It writes exactly when the call is well formed, the pull request can be addressed and its cause is
        observed; what is tried, what leaves and what GitHub applies are in the plan's
        order; the refusal makes the journey of the interleaved steps. */
    method SendBack(number: int, head: string, cause: Reason, s: Script, now: nat) returns (r: Read<SendBackResult>)
      modifies gh, refusals
      ensures !Enters(m, number, head, cause, s) ==> Answers(r, Turned(m, number, head, cause, s))
      ensures gh.tried != old(gh.tried) ==>
                Enters(m, number, head, cause, s) && Observed(m, number, head, cause, s, old(refusals.seen), now)
      ensures Decided(cause, s) && Enters(m, number, head, cause, s)
              && Observed(m, number, head, cause, s, old(refusals.seen), now) ==>
                gh.tried != old(gh.tried)
      ensures Enters(m, number, head, cause, s) && gh.tried == old(gh.tried) ==>
                Answers(r, if !Unrebuildable(cause) && Unjudged(m, head, s) then Unread else Got(CauseNotObserved))
      ensures gh.tried != old(gh.tried) ==>
                var route := RouteFor(cause).value;
                && gh.Sent() == Wrote(old(gh.Sent()), number, head, cause, route, s)
                && r.Got? && Reports(r.value, route, s)
      ensures gh.tried == old(gh.tried) ==> gh.Sent() == old(gh.Sent())
      ensures refusals.seen ==
                if Unrebuildable(cause) && Enters(m, number, head, cause, s) && s.first.value.head == head
                then Journey(old(refusals.seen), Key(number, head, cause), now, s.comment).seen
                else old(refusals.seen)
    {
      var gate := Enter(number, head, cause, s);
      if gate.Some? {
        return if gate.value.Unread? then Unread else Got(SendBackResult(false, gate.value.value, number, 0, false, 0));
      }
      r := ObserveAndWrite(number, head, cause, s, now);
    }

    /** Once the pull request can be addressed. */
    method ObserveAndWrite(number: int, head: string, cause: Reason, s: Script, now: nat)
      returns (r: Read<SendBackResult>)
      requires RouteFor(cause).Some? && s.first.Got?
      modifies gh, refusals
      ensures gh.tried != old(gh.tried) ==> Observed(m, number, head, cause, s, old(refusals.seen), now)
      ensures Decided(cause, s) && Observed(m, number, head, cause, s, old(refusals.seen), now) ==>
              gh.tried != old(gh.tried)
      ensures gh.tried == old(gh.tried) ==>
                && Answers(r, if !Unrebuildable(cause) && Unjudged(m, head, s) then Unread else Got(CauseNotObserved))
                && gh.Sent() == old(gh.Sent())
      ensures gh.tried != old(gh.tried) ==>
                var route := RouteFor(cause).value;
                && gh.Sent() == Wrote(old(gh.Sent()), number, head, cause, route, s)
                && r.Got? && Reports(r.value, route, s)
      ensures refusals.seen ==
                if Unrebuildable(cause) && s.first.value.head == head
                then Journey(old(refusals.seen), Key(number, head, cause), now, s.comment).seen
                else old(refusals.seen)
    {
      var reason, taken := Observe(number, head, cause, s, now);
      if reason.Unread? {
        return Unread;
      }
      if reason.value != Passed {
        return Got(SendBackResult(false, reason.value, number, 0, false, 0));
      }
      ghost var seen, key := old(refusals.seen), Key(number, head, cause);
      if Unrebuildable(cause) {
        JourneyPosts(seen, key, now, s.comment);
      }
      var res := Write(number, head, cause, RouteFor(cause).value, s, taken);
      return Got(res);
    }

    /** Judges the input and the pull request. */
    method Enter(number: int, head: string, cause: Reason, s: Script) returns (gate: Option<Read<Reason>>)
      ensures gate.None? <==> Enters(m, number, head, cause, s)
      ensures gate.Some? ==> gate.value == Turned(m, number, head, cause, s)
      ensures gate.Some? && gate.value.Got? ==> gate.value.value != SentBack && gate.value.value != Passed
    {
      if number <= 0 || !ValidSHA(head) || RouteFor(cause).None? {
        return Some(Got(InvalidInput));
      }
      if s.first.Unread? {
        return Some(Unread);
      }
      var reason := JudgeTarget(m.target, s.first.value);
      if reason != Passed {
        return Some(Got(reason));
      }
      var ready := HasLabel(s.first.value, ReadyToMerge);
      if !ready {
        return Some(Got(NotReadyToMerge));
      }
      return None;
    }

    /** Spends a recorded refusal, or judges again now. */
    method Observe(number: int, head: string, cause: Reason, s: Script, now: nat)
      returns (reason: Read<Reason>, taken: nat)
      requires s.first.Got?
      modifies refusals
      ensures reason.Unread? <==> !Unrebuildable(cause) && Unjudged(m, head, s)
      ensures reason.Got? ==> reason.value == Passed || reason.value == CauseNotObserved
      ensures reason == Got(Passed) ==> Observed(m, number, head, cause, s, old(refusals.seen), now)
      ensures Decided(cause, s) && Observed(m, number, head, cause, s, old(refusals.seen), now) ==>
              reason == Got(Passed)
      ensures Unrebuildable(cause) && reason == Got(Passed) ==> taken == old(refusals.seen)[Key(number, head, cause)]
      ensures !Unrebuildable(cause) ==> taken == 0
      ensures refusals.seen ==
                if Unrebuildable(cause) && s.first.value.head == head
                then old(refusals.seen) - {Key(number, head, cause)}
                else old(refusals.seen)
    {
      if Unrebuildable(cause) {
        if s.first.value.head != head {
          return Got(CauseNotObserved), 0;
        }
        var at, ok := refusals.Take(Key(number, head, cause), now);
        return if ok then Got(Passed) else Got(CauseNotObserved), at;
      }
      reason := ObserveAgain(head, cause, s);
      return reason, 0;
    }

    /** Judges again now, for a cause a read can rebuild. */
    method ObserveAgain(head: string, cause: Reason, s: Script) returns (reason: Read<Reason>)
      ensures reason.Unread? <==> Unjudged(m, head, s)
      ensures reason.Got? ==> reason.value == Passed || reason.value == CauseNotObserved
      ensures reason == Got(Passed) ==> SeenAgain(m, head, cause, s)
      ensures (s.signals.Got? ==> DistinctIDs(s.signals.value)) && SeenAgain(m, head, cause, s) ==>
              reason == Got(Passed)
    {
      var verdict := Prejudge(m, s.again, s.signals, head);
      if verdict.Unread? {
        return Unread;
      }
      if s.signals.Got? ==> DistinctIDs(s.signals.value) {
        VerdictIsTheOnlyOne(m, head, cause, s, verdict.value.0, verdict.value.1);
      }
      return if verdict.value.0 == cause then Got(Passed) else Got(CauseNotObserved);
    }

    /** The comment first; the labels only once it is known to exist. */
    method Write(number: int, head: string, cause: Reason, route: Route, s: Script, taken: nat)
      returns (res: SendBackResult)
      modifies gh, refusals
      ensures gh.Sent() == Wrote(old(gh.Sent()), number, head, cause, route, s)
      ensures gh.tried != old(gh.tried)
      ensures Reports(res, route, s)
      ensures refusals.seen ==
                if taken != 0 && KnownUnwritten(s.comment) then old(refusals.seen)[Key(number, head, cause) := taken]
                else old(refusals.seen)
    {
      res := SendBackResult(false, Passed, number, 0, route.ToPerson?, 0);
      var id, reason, code := CommentOrRestore(number, cause, head, s.comment, taken);
      if reason != Passed {
        return res.(reason := reason, httpStatus := code);
      }
      res := res.(commentID := id);
      if route.ToRole? {
        reason, code := Relabel(number, route.tag, s);
        if reason != Passed {
          return res.(reason := reason, httpStatus := code);
        }
      }
      return res.(sentBack := true, reason := SentBack);
    }

    /** A refusal taken goes back exactly where the answer rules a comment out. */
    method CommentOrRestore(number: int, cause: Reason, head: string, a: Attempt<CommentAnswer>, taken: nat)
      returns (id: int, reason: Reason, code: nat)
      modifies gh, refusals
      ensures gh.tried == old(gh.tried) + [PostComment(number, cause, head)]
      ensures gh.handed == Logged(old(gh.handed), Leaves(a), PostComment(number, cause, head))
      ensures gh.applied == Logged(old(gh.applied), Takes(a), PostComment(number, cause, head))
      ensures reason == CommentReason(a) && (reason == Passed ==> id == a.reply.body.value.id)
      ensures refusals.seen ==
                if taken != 0 && KnownUnwritten(a) then old(refusals.seen)[Key(number, head, cause) := taken]
                else old(refusals.seen)
    {
      id, reason, code := Comment(number, cause, head, a);
      if taken != 0 && (reason == CommentNotSent || reason == CommentRefused) {
        refusals.Restore(Key(number, head, cause), taken);
        assert refusals.seen == old(refusals.seen)[Key(number, head, cause) := taken];
      }
    }

    /** How the comment request fared, and what that says about a comment. */
    method Comment(number: int, cause: Reason, head: string, a: Attempt<CommentAnswer>)
      returns (id: int, reason: Reason, code: nat)
      modifies gh
      ensures gh.tried == old(gh.tried) + [PostComment(number, cause, head)]
      ensures gh.handed == Logged(old(gh.handed), Leaves(a), PostComment(number, cause, head))
      ensures gh.applied == Logged(old(gh.applied), Takes(a), PostComment(number, cause, head))
      ensures reason == CommentReason(a)
      ensures reason == Passed ==> id == a.reply.body.value.id
      ensures Trusted(a) && (reason == CommentNotSent || reason == CommentRefused) ==> gh.applied == old(gh.applied)
    {
      var sent := gh.Send(PostComment(number, cause, head), a, true);
      match sent
      case NotSent => return 0, CommentNotSent, 0;
      case Failed => return 0, OutcomeUnknown, 0;
      case Answered(status, out) =>
        if status / 100 == 4 {
          return 0, CommentRefused, status;
        }
        if status != 201 || out.None? || out.value.id <= 0 {
          return 0, OutcomeUnknown, status;
        }
        return out.value.id, Passed, 0;
    }

    method Relabel(number: int, tag: Tag, s: Script) returns (reason: Reason, code: nat)
      modifies gh
      ensures gh.tried == RelabelLogged(old(gh.tried), number, tag, s, true, true)
      ensures gh.handed == RelabelLogged(old(gh.handed), number, tag, s, Leaves(s.add), Leaves(s.drop))
      ensures gh.applied == RelabelLogged(old(gh.applied), number, tag, s, Takes(s.add), Takes(s.drop))
      ensures reason == Passed <==> Labelled(s.add) && Deleted(s.drop)
      ensures reason != SentBack
    {
      var sent := gh.Send(AddLabel(number, tag), s.add, false);
      reason := LabelReason(sent);
      if reason != Passed {
        return reason, if sent.Answered? then sent.code else 0;
      }
      reason, code := DropReadyLabel(gh, number, s.drop);
    }
  }

  /** The call answers with this reason and sent nothing back, or its read failed. */
  predicate Answers(r: Read<SendBackResult>, want: Read<Reason>) {
    if want.Unread? then r.Unread? else r.Got? && r.value.reason == want.value && !r.value.sentBack
  }

  /** The result of a call that made its comment request. */
  predicate Reports(res: SendBackResult, route: Route, s: Script) {
    && (res.sentBack <==> Finishes(route, s)) && (res.sentBack <==> res.reason == SentBack)
    && (res.travado <==> route.ToPerson?)
    && (if Created(s.comment) then res.commentID == s.comment.reply.body.value.id
        else res.reason == CommentReason(s.comment))
  }

  /** Where the judgement is decided, the cause a fresh judgement supports is the one prejudge answers. */
  lemma VerdictIsTheOnlyOne(m: Settings, head: string, cause: Reason, s: Script, reason: Reason, check: string)
    requires s.again.Got? && Prejudged(m, s.again.value, s.signals, head, reason, check)
    requires s.signals.Got? ==> DistinctIDs(s.signals.value)
    ensures forall other :: Prejudged(m, s.again.value, s.signals, head, cause, other) ==> cause == reason
  {
    forall other | Prejudged(m, s.again.value, s.signals, head, cause, other) ensures cause == reason {
      if CheckPullRequest(m.target, s.again.value, head) == Passed {
        JudgedIsUnique(m, s.again.value, s.signals.value, head, reason, check, cause, other);
      }
    }
  }

  function LabelReason(sent: Sent<()>): Reason {
    match sent
    case NotSent => LabelNotSent
    case Failed => OutcomeUnknown
    case Answered(code, _) => if code != 200 then LabelRefused else Passed
  }

  /** Removing a label that is not there any more is as good as removing it. */
  method DropReadyLabel(gh: GitHub, number: int, a: Attempt<()>) returns (reason: Reason, code: nat)
    modifies gh
    ensures gh.tried == old(gh.tried) + [DropReady(number)]
    ensures gh.handed == Logged(old(gh.handed), Leaves(a), DropReady(number))
    ensures gh.applied == Logged(old(gh.applied), Takes(a), DropReady(number))
    ensures reason == Passed <==> Deleted(a)
    ensures reason in {Passed, LabelNotSent, OutcomeUnknown, LabelRefused}
  {
    var sent := gh.Send(DropReady(number), a, false);
    if sent.Answered? && sent.code == 404 {
      return Passed, 0;
    }
    reason := LabelReason(sent);
    return reason, if sent.Answered? && reason != Passed then sent.code else 0;
  }
}
