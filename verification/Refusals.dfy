/** Refused and lost merges as evidence: recorded by a merge, spent by one comment. */
module Refusals {
  import opened Common
  import opened Guard
  import opened Wire

  /** How long a refusal proves anything, in seconds. */
  const REFUSAL_TTL := 3600
  const MAX_REFUSALS := 256

  datatype Key = Key(pr: int, head: string, cause: Reason)

  type Log = map<Key, nat>

  predicate Unrebuildable(cause: Reason) {
    cause == MergeRefused || cause == OutcomeUnknown
  }

  /** A refusal seen at one moment still proves something at another. */
  predicate Proves(at: nat, now: nat) {
    now - at < REFUSAL_TTL
  }

  function Younger(seen: Log, now: nat): Log {
    map k | k in seen && Proves(seen[k], now) :: seen[k]
  }

  /** Room for one more: a full log drops what proves nothing any more, or else everything. */
  function Trimmed(seen: Log, now: nat): Log {
    if |seen| < MAX_REFUSALS then seen
    else if |Younger(seen, now)| < MAX_REFUSALS then Younger(seen, now)
    else map[]
  }

  class Record {
    var seen: Log

    constructor ()
      ensures seen == map[]
    {
      seen := map[];
    }

    method Add(k: Key, now: nat)
      modifies this
      ensures seen == Trimmed(old(seen), now)[k := now]
    {
      if |seen| >= MAX_REFUSALS {
        DropExpired(now);
        if |seen| >= MAX_REFUSALS {
          seen := map[];
        }
      }
      seen := seen[k := now];
    }

    method DropExpired(now: nat)
      modifies this
      ensures seen == Younger(old(seen), now)
    {
      var left := seen.Keys;
      while left != {}
        invariant left <= seen.Keys <= old(seen).Keys
        invariant forall k :: k in seen ==> seen[k] == old(seen)[k]
        invariant forall k :: k in old(seen).Keys - left ==> (k in seen <==> Proves(old(seen)[k], now))
        decreases left
      {
        var k :| k in left;
        if now - seen[k] >= REFUSAL_TTL {
          seen := seen - {k};
        }
        left := left - {k};
      }
    }

    /** Spends the refusal, and says when it was observed. */
    method Take(k: Key, now: nat) returns (at: nat, ok: bool)
      modifies this
      ensures seen == old(seen) - {k}
      ensures ok <==> k in old(seen) && Proves(old(seen)[k], now)
      ensures ok ==> at == old(seen)[k]
    {
      at, ok := 0, false;
      if k in seen {
        at, ok := seen[k], now - seen[k] < REFUSAL_TTL;
      }
      seen := seen - {k};
    }

    /** Gives a refusal back: no other entry changes, and it stops proving anything when it would have. */
    method Restore(k: Key, at: nat)
      modifies this
      ensures seen.Keys == old(seen).Keys + {k}
      ensures forall other :: other in old(seen) && other != k ==> seen[other] == old(seen)[other]
      ensures seen[k] == at && forall now: nat :: Proves(seen[k], now) <==> now < at + REFUSAL_TTL
    {
      seen := seen[k := at];
    }
  }

  // ---- what an answer proves about a comment ----

  datatype CommentAnswer = CommentAnswer(id: int)

  /** The guard's own reading of an answer: no comment can exist. */
  predicate KnownUnwritten(a: Attempt<CommentAnswer>) {
    !Leaves(a) || (a.reply.Status? && a.reply.code / 100 == 4)
  }

  /** What GitHub is trusted with: a request it answers with a 4xx of its own is not applied. */
  predicate Trusted(a: Attempt<CommentAnswer>) {
    a.reply.Status? && a.reply.code / 100 == 4 ==> !a.applies
  }

  // ---- any number of merge and send-back calls at once ----

  /** A refusal a call took: when it was observed, and when it was taken. */
  datatype Token = Token(key: Key, at: nat, taken: nat)

  datatype Recording = Recording(key: Key, at: nat)

  /** The log, the refusals calls hold now, the comments GitHub applied, those it may have applied, and
      every recording ever made. */
  datatype State = State(
    seen: Log, held: seq<Token>, posted: seq<Token>, maybe: seq<Token>, recorded: seq<Recording>)

  /** Between locks, calls interleave freely: one is refused by GitHub, one takes a refusal, one makes its
      comment request and acts on the answer, and one dies around its request. */
  datatype Step =
    | Refused(key: Key, now: nat)
    | Taken(key: Key, now: nat)
    | Commented(i: nat, a: Attempt<CommentAnswer>)
    | Died(i: nat, a: Attempt<CommentAnswer>)

  function Drop<T>(xs: seq<T>, i: nat): seq<T>
    requires i < |xs|
  {
    xs[..i] + xs[i + 1..]
  }

  /** One recording more, over what is left of the log. */
  function Note(s: State, left: Log, key: Key, now: nat): State {
    s.(seen := left[key := now], recorded := s.recorded + [Recording(key, now)])
  }

  lemma TrimmingAddsNothing(seen: Log, now: nat)
    ensures forall k :: k in Trimmed(seen, now) ==> k in seen && Trimmed(seen, now)[k] == seen[k]
  {
  }

  function Take(s: State, key: Key, now: nat): State {
    if key in s.seen && Proves(s.seen[key], now)
    then s.(seen := s.seen - {key}, held := s.held + [Token(key, s.seen[key], now)])
    else s.(seen := s.seen - {key})
  }

  /** The request is applied or not whatever comes back; the refusal is given back on what comes back. */
  function Comment(s: State, i: nat, a: Attempt<CommentAnswer>): State
    requires i < |s.held|
  {
    var t := s.held[i];
    s.(seen := if KnownUnwritten(a) && t.at != 0 then s.seen[t.key := t.at] else s.seen,
       held := Drop(s.held, i),
       posted := s.posted + When(Takes(a), t),
       maybe := s.maybe + When(!KnownUnwritten(a), t))
  }

  function Next(s: State, step: Step): State {
    match step
    case Refused(k, now) => Note(s, Trimmed(s.seen, now), k, now)
    case Taken(k, now) => Take(s, k, now)
    case Commented(i, a) => if i < |s.held| then Comment(s, i, a) else s
    case Died(i, a) =>
      if i < |s.held|
      then s.(held := Drop(s.held, i),
              posted := s.posted + When(Takes(a), s.held[i]),
              maybe := s.maybe + When(Leaves(a), s.held[i]))
      else s
  }

  function After(steps: seq<Step>): State {
    if steps == [] then State(map[], [], [], [], [])
    else Next(After(steps[..|steps| - 1]), steps[|steps| - 1])
  }

  function TokensOf(k: Key, tokens: seq<Token>): nat {
    if tokens == [] then 0
    else TokensOf(k, tokens[..|tokens| - 1]) + One(tokens[|tokens| - 1].key == k)
  }

  function RecordingsOf(k: Key, recorded: seq<Recording>): nat {
    if recorded == [] then 0
    else RecordingsOf(k, recorded[..|recorded| - 1]) + One(recorded[|recorded| - 1].key == k)
  }

  function One(b: bool): nat {
    if b then 1 else 0
  }

  /** No refusal proves two comments: what GitHub may have posted, what calls hold and what is stored never
      exceed the recordings, and what it did post is among what it may have posted. */
  ghost predicate Balanced(s: State, k: Key) {
    && TokensOf(k, s.posted) <= TokensOf(k, s.maybe)
    && TokensOf(k, s.maybe) + TokensOf(k, s.held) + One(k in s.seen) <= RecordingsOf(k, s.recorded)
  }

  ghost predicate Conserved(s: State) {
    forall k :: Balanced(s, k)
  }

  ghost predicate Traced(s: State, t: Token) {
    Recording(t.key, t.at) in s.recorded && Proves(t.at, t.taken)
  }

  /** Whatever is stored, held or posted goes back to a recording that was really made, and was taken
      within the hour of it. */
  ghost predicate Genuine(s: State) {
    && (forall k :: k in s.seen ==> Recording(k, s.seen[k]) in s.recorded)
    && (forall t :: t in s.held || t in s.posted || t in s.maybe ==> Traced(s, t))
  }

  lemma TokensOfWhen(k: Key, tokens: seq<Token>, b: bool, t: Token)
    ensures TokensOf(k, tokens + When(b, t)) == TokensOf(k, tokens) + One(b && t.key == k)
  {
    assert (tokens + [t])[..|tokens|] == tokens;
    assert tokens + [] == tokens;
  }

  lemma RecordingsOfAppend(k: Key, recorded: seq<Recording>, r: Recording)
    ensures RecordingsOf(k, recorded + [r]) == RecordingsOf(k, recorded) + One(r.key == k)
  {
    assert (recorded + [r])[..|recorded|] == recorded;
  }

  lemma {:induction false} TokensOfDrop(k: Key, tokens: seq<Token>, i: nat)
    requires i < |tokens|
    ensures TokensOf(k, Drop(tokens, i)) == TokensOf(k, tokens) - One(tokens[i].key == k)
    ensures forall t :: t in Drop(tokens, i) ==> t in tokens
  {
    var n := |tokens| - 1;
    if i == n {
      assert Drop(tokens, i) == tokens[..n];
    } else {
      TokensOfDrop(k, tokens[..n], i);
      assert Drop(tokens, i) == Drop(tokens[..n], i) + [tokens[n]];
      TokensOfWhen(k, Drop(tokens[..n], i), true, tokens[n]);
    }
  }

  lemma RefusalBalances(s: State, left: Log, key: Key, now: nat, k: Key)
    requires Balanced(s, k) && (k in left ==> k in s.seen)
    ensures Balanced(Note(s, left, key, now), k)
  {
    RecordingsOfAppend(k, s.recorded, Recording(key, now));
  }

  lemma TakeBalances(s: State, key: Key, now: nat, k: Key)
    requires Balanced(s, k)
    ensures Balanced(Take(s, key, now), k)
  {
    if key in s.seen {
      TokensOfWhen(k, s.held, true, Token(key, s.seen[key], now));
    }
  }

  /** The one place honesty is needed: a refusal given back had no comment applied. */
  lemma CommentBalances(s: State, i: nat, a: Attempt<CommentAnswer>, k: Key)
    requires Balanced(s, k) && i < |s.held| && Trusted(a)
    ensures Balanced(Comment(s, i, a), k)
  {
    TokensOfDrop(k, s.held, i);
    TokensOfWhen(k, s.posted, Takes(a), s.held[i]);
    TokensOfWhen(k, s.maybe, !KnownUnwritten(a), s.held[i]);
  }

  lemma DeathBalances(s: State, i: nat, a: Attempt<CommentAnswer>, k: Key)
    requires Balanced(s, k) && i < |s.held|
    ensures Balanced(Next(s, Died(i, a)), k)
  {
    TokensOfDrop(k, s.held, i);
    TokensOfWhen(k, s.posted, Takes(a), s.held[i]);
    TokensOfWhen(k, s.maybe, Leaves(a), s.held[i]);
  }

  lemma StepConserves(s: State, step: Step)
    requires Conserved(s) && (step.Commented? ==> Trusted(step.a))
    ensures Conserved(Next(s, step))
  {
    forall k ensures Balanced(Next(s, step), k) {
      assert Balanced(s, k);
      match step
      case Refused(key, now) =>
        TrimmingAddsNothing(s.seen, now);
        RefusalBalances(s, Trimmed(s.seen, now), key, now, k);
      case Taken(key, now) => TakeBalances(s, key, now, k);
      case Commented(i, a) =>
        if i < |s.held| {
          CommentBalances(s, i, a, k);
        }
      case Died(i, a) =>
        if i < |s.held| {
          DeathBalances(s, i, a, k);
        }
    }
  }

  lemma NoteStaysGenuine(s: State, left: Log, key: Key, now: nat)
    requires Genuine(s) && forall k :: k in left ==> k in s.seen && left[k] == s.seen[k]
    ensures Genuine(Note(s, left, key, now))
  {
    var n := Note(s, left, key, now);
    assert Recording(key, now) in n.recorded;
    forall t | t in n.held || t in n.posted || t in n.maybe ensures Traced(n, t) {
      assert Traced(s, t);
    }
  }

  lemma TakeStaysGenuine(s: State, key: Key, now: nat)
    requires Genuine(s)
    ensures Genuine(Take(s, key, now))
  {
    var n := Take(s, key, now);
    forall t | t in n.held || t in n.posted || t in n.maybe ensures Traced(n, t) {
      assert t in s.held || t in s.posted || t in s.maybe ==> Traced(s, t);
    }
  }

  /** A token leaves the held ones for the posted ones, or goes back to the log. */
  lemma SpendStaysGenuine(s: State, i: nat, seen: Log, posted: bool, maybe: bool)
    requires Genuine(s) && i < |s.held|
    requires seen == s.seen || seen == s.seen[s.held[i].key := s.held[i].at]
    ensures Genuine(State(seen, Drop(s.held, i), s.posted + When(posted, s.held[i]),
                          s.maybe + When(maybe, s.held[i]), s.recorded))
  {
    assert s.held[i] in s.held && Traced(s, s.held[i]);
    var n := State(seen, Drop(s.held, i), s.posted + When(posted, s.held[i]),
                   s.maybe + When(maybe, s.held[i]), s.recorded);
    forall t | t in n.held || t in n.posted || t in n.maybe ensures Traced(n, t) {
      assert Traced(s, t);
    }
  }

  lemma StepStaysGenuine(s: State, step: Step)
    requires Genuine(s)
    ensures Genuine(Next(s, step))
  {
    match step
    case Refused(key, now) =>
      TrimmingAddsNothing(s.seen, now);
      NoteStaysGenuine(s, Trimmed(s.seen, now), key, now);
    case Taken(key, now) => TakeStaysGenuine(s, key, now);
    case Commented(i, a) =>
      if i < |s.held| {
        SpendStaysGenuine(s, i, Comment(s, i, a).seen, Takes(a), !KnownUnwritten(a));
      }
    case Died(i, a) =>
      if i < |s.held| {
        SpendStaysGenuine(s, i, s.seen, Takes(a), Leaves(a));
      }
  }

  /** Over every interleaving of calls, of a GitHub whose 4xx answers wrote nothing: for each pull request,
      head and cause, the comments posted, or possibly posted, with the refusals held and the stored entry
      never exceed the refusals GitHub gave; and each comment's refusal was taken within the hour of a
      recording really made. */
  lemma {:induction false} RefusalsAreSpentOnce(steps: seq<Step>)
    requires forall n :: 0 <= n < |steps| && steps[n].Commented? ==> Trusted(steps[n].a)
    ensures Conserved(After(steps)) && Genuine(After(steps))
    ensures forall k :: var s := After(steps);
              TokensOf(k, s.posted) + TokensOf(k, s.held) + One(k in s.seen) <= RecordingsOf(k, s.recorded)
  {
    if steps != [] {
      var n := |steps| - 1;
      RefusalsAreSpentOnce(steps[..n]);
      StepConserves(After(steps[..n]), steps[n]);
      StepStaysGenuine(After(steps[..n]), steps[n]);
    }
    forall k ensures var s := After(steps);
      TokensOf(k, s.posted) + TokensOf(k, s.held) + One(k in s.seen) <= RecordingsOf(k, s.recorded)
    {
      assert Balanced(After(steps), k);
    }
  }

  /** That trust is needed: one 4xx over an applied comment, and one recording proves two comments. */
  lemma UntrustedAnswerDoublesAComment(s: State, k: Key)
    requires s.held == [] && k in s.seen && s.seen[k] == 1
    ensures var lied := Attempt(true, true, true, true, true, Status(400, None));
      var fine := Attempt(true, true, true, true, true, Status(201, Some(CommentAnswer(1))));
      var first := Next(Next(s, Taken(k, 2)), Commented(0, lied));
      var second := Next(Next(first, Taken(k, 3)), Commented(0, fine));
      |second.posted| == |s.posted| + 2 && second.recorded == s.recorded
  {
    var lied := Attempt(true, true, true, true, true, Status(400, None));
    var taken := Next(s, Taken(k, 2));
    assert taken.held == [Token(k, 1, 2)];
    var first := Next(taken, Commented(0, lied));
    assert first.held == [] && first.seen[k] == 1;
    assert Next(first, Taken(k, 3)).held == [Token(k, 1, 3)];
  }
}
