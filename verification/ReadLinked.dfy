/** Reading a snapshot: every target's timeline, page by page, then every item those link to.
    The repository read is fixed while it is read; a page's cursor is its number. */
module ReadLinked {
  import opened Common
  import opened Timeline

  /** A reference to an issue or pull request, in this repository or in another one. */
  datatype Ref = Ref(number: nat, ours: bool)

  /** An issue or pull request as it is served: its timeline and its links, each in pages. */
  datatype Remote = Remote(isPR: bool, created: int, pages: seq<seq<Event>>, links: seq<seq<Ref>>)

  type Repository = map<nat, Remote>

  /** A timeline, or a list of links, still to read from this page on. */
  datatype Target = Target(number: nat, isPR: bool, page: nat)

  /** A connection always has a first page, empty or not. */
  ghost predicate WellServed(repo: Repository) {
    forall n :: n in repo ==> |repo[n].pages| > 0 && |repo[n].links| > 0
  }

  predicate Readable(repo: Repository, t: Target) {
    t.number in repo && repo[t.number].isPR == t.isPR
  }

  function Flat(pages: seq<seq<Event>>, k: nat): seq<Event>
    requires k <= |pages|
  {
    if k == 0 then [] else Flat(pages, k - 1) + pages[k - 1]
  }

  /** Foreign references are dropped and repeats ignored. */
  function AddRefs(refs: seq<Ref>, k: nat, linked: seq<nat>): seq<nat>
    requires k <= |refs|
  {
    if k == 0 then linked
    else
      var before := AddRefs(refs, k - 1, linked);
      if refs[k - 1].ours && refs[k - 1].number !in before then before + [refs[k - 1].number] else before
  }

  function LinkedAfter(links: seq<seq<Ref>>, k: nat): seq<nat>
    requires k <= |links|
  {
    if k == 0 then [] else AddRefs(links[k - 1], |links[k - 1]|, LinkedAfter(links, k - 1))
  }

  /** The item once this many pages of its timeline and of its links were read. */
  function Partly(repo: Repository, n: nat, events: nat, links: nat): Item
    requires n in repo && events <= |repo[n].pages| && links <= |repo[n].links|
  {
    var r := repo[n];
    Item(n, r.isPR, false, r.created, LinkedAfter(r.links, links), Flat(r.pages, events))
  }

  function Whole(repo: Repository, n: nat): Item
    requires n in repo
  {
    Partly(repo, n, |repo[n].pages|, |repo[n].links|)
  }

  method AddLinks(linked: seq<nat>, refs: seq<Ref>) returns (out: seq<nat>)
    ensures out == AddRefs(refs, |refs|, linked)
  {
    out := linked;
    for k := 0 to |refs|
      invariant out == AddRefs(refs, k, linked)
    {
      if refs[k].ours && refs[k].number !in out {
        out := out + [refs[k].number];
      }
    }
  }

  predicate HasTarget(ts: seq<Target>, n: nat) {
    exists i :: 0 <= i < |ts| && ts[i].number == n
  }

  ghost predicate DistinctNumbers(ts: seq<Target>) {
    forall i, j :: 0 <= i < j < |ts| ==> ts[i].number != ts[j].number
  }

  function Get(items: map<nat, Item>, n: nat): Option<Item> {
    if n in items then Some(items[n]) else None
  }

  /** The item t names was read up to t's page: not started at page 0. */
  ghost predicate TimelineAt(repo: Repository, it: Option<Item>, t: Target) {
    && Readable(repo, t) && t.page <= |repo[t.number].pages| && |repo[t.number].links| > 0
    && it == if t.page == 0 then None else Some(Partly(repo, t.number, t.page, 1))
  }

  function Turned(t: Target): Target {
    t.(page := t.page + 1)
  }

  /** A timeline page still to read; only the first may turn out unreadable. */
  ghost predicate Pending(repo: Repository, it: Option<Item>, t: Target) {
    if Readable(repo, t) then TimelineAt(repo, it, t) && t.page < |repo[t.number].pages|
    else t.page == 0 && it == None
  }

  /** The item t names has its whole timeline and its links up to t's page. */
  ghost predicate LinksAt(repo: Repository, it: Option<Item>, t: Target) {
    && Readable(repo, t) && 0 < t.page <= |repo[t.number].links|
    && it == Some(Partly(repo, t.number, |repo[t.number].pages|, t.page))
  }

  ghost predicate IsWhole(repo: Repository, it: Option<Item>, n: nat) {
    n in repo && it == Some(Whole(repo, n))
  }

  ghost predicate LinksPending(repo: Repository, it: Option<Item>, t: Target) {
    LinksAt(repo, it, t) && t.page < |repo[t.number].links|
  }

  /** How many pages t's connection has; one that is not served counts as the page asked for. */
  function PagesOf(repo: Repository, t: Target, links: bool): nat {
    if t.number !in repo then t.page + 1
    else if links then |repo[t.number].links| else |repo[t.number].pages|
  }

  /** The pages still to read for these targets. */
  ghost function Left(repo: Repository, ts: seq<Target>, links: bool): int {
    if ts == [] then 0 else PagesOf(repo, ts[0], links) - ts[0].page + Left(repo, ts[1..], links)
  }

  lemma {:induction false} LeftOfAppend(repo: Repository, ts: seq<Target>, links: bool, t: Target)
    ensures Left(repo, ts + [t], links) == Left(repo, ts, links) + PagesOf(repo, t, links) - t.page
  {
    if ts == [] {
      assert ts + [t] == [t];
      assert [t][1..] == [];
    } else {
      LeftOfAppend(repo, ts[1..], links, t);
      assert (ts + [t])[1..] == ts[1..] + [t];
    }
  }

  /** The queue once a page of its first target was read: the rest of that target goes last. */
  function Next(repo: Repository, queue: seq<Target>, links: bool): seq<Target>
    requires queue != []
  {
    queue[1..] + if queue[0].page + 1 < PagesOf(repo, queue[0], links) then [Turned(queue[0])] else []
  }

  ghost predicate Fresh(repo: Repository, queue: seq<Target>, links: bool) {
    DistinctNumbers(queue) && forall i :: 0 <= i < |queue| ==> queue[i].page < PagesOf(repo, queue[i], links)
  }

  lemma NextQueue(repo: Repository, queue: seq<Target>, links: bool)
    requires queue != [] && Fresh(repo, queue, links)
    ensures Fresh(repo, Next(repo, queue, links), links)
    ensures Left(repo, Next(repo, queue, links), links) == Left(repo, queue, links) - 1
    ensures forall n :: n != queue[0].number ==> HasTarget(queue, n) == HasTarget(Next(repo, queue, links), n)
    ensures HasTarget(Next(repo, queue, links), queue[0].number) == (queue[0].page + 1 < PagesOf(repo, queue[0], links))
  {
    var head, next := queue[0], Next(repo, queue, links);
    if head.page + 1 < PagesOf(repo, head, links) {
      LeftOfAppend(repo, queue[1..], links, Turned(head));
      assert next[|queue| - 1] == Turned(head);
    } else {
      assert next == queue[1..];
    }
    forall n | n != head.number ensures HasTarget(queue, n) == HasTarget(next, n) {
      if i :| 0 <= i < |queue| && queue[i].number == n {
        assert next[i - 1] == queue[i];
      }
      if i :| 0 <= i < |next| && next[i].number == n {
        assert queue[i + 1] == next[i];
      }
    }
  }

  lemma {:induction false} LeftIsNotNegative(repo: Repository, queue: seq<Target>, links: bool)
    requires forall i :: 0 <= i < |queue| ==> queue[i].page < PagesOf(repo, queue[i], links)
    ensures Left(repo, queue, links) >= 0
  {
    if queue != [] {
      LeftIsNotNegative(repo, queue[1..], links);
    }
  }

  /** Each target continues the links of an item it names. */
  ghost predicate LinkQueue(repo: Repository, items: map<nat, Item>, queue: seq<Target>) {
    Fresh(repo, queue, true) && forall i :: 0 <= i < |queue| ==> LinksAt(repo, Get(items, queue[i].number), queue[i])
  }

  /** The targets off the queue are wholly read; nothing else changed. */
  ghost predicate LinksReading(repo: Repository, before: map<nat, Item>, items: map<nat, Item>,
                               targets: seq<Target>, queue: seq<Target>) {
    && (forall n :: HasTarget(queue, n) ==> HasTarget(targets, n))
    && (forall n :: HasTarget(targets, n) && !HasTarget(queue, n) ==> IsWhole(repo, Get(items, n), n))
    && (forall n :: !HasTarget(targets, n) ==> Get(items, n) == Get(before, n))
  }

  lemma LinkStep(repo: Repository, before: map<nat, Item>, items: map<nat, Item>, items': map<nat, Item>,
                 targets: seq<Target>, queue: seq<Target>)
    requires queue != [] && LinkQueue(repo, items, queue) && LinksReading(repo, before, items, targets, queue)
    requires LinksAt(repo, Get(items', queue[0].number), Turned(queue[0]))
    requires forall n :: n != queue[0].number ==> Get(items', n) == Get(items, n)
    ensures LinkQueue(repo, items', Next(repo, queue, true))
    ensures LinksReading(repo, before, items', targets, Next(repo, queue, true))
    ensures 0 <= Left(repo, Next(repo, queue, true), true) < Left(repo, queue, true)
  {
    var next := Next(repo, queue, true);
    NextQueue(repo, queue, true);
    LeftIsNotNegative(repo, next, true);
    assert HasTarget(queue, queue[0].number);
    forall i | 0 <= i < |next| ensures LinksAt(repo, Get(items', next[i].number), next[i]) {
      if i < |queue| - 1 {
        assert next[i] == queue[i + 1] && queue[0].number != queue[i + 1].number;
      }
    }
  }

  /** Each target continues, or starts, the timeline of the item it names. */
  ghost predicate TimelineQueue(repo: Repository, items: map<nat, Item>, queue: seq<Target>) {
    Fresh(repo, queue, false) && forall i :: 0 <= i < |queue| ==> Pending(repo, Get(items, queue[i].number), queue[i])
  }

  /** The item has its whole timeline and the first page of its links. */
  ghost predicate TimelineRead(repo: Repository, it: Option<Item>, n: nat) {
    n in repo && |repo[n].links| > 0 && it == Some(Partly(repo, n, |repo[n].pages|, 1))
  }

  /** The targets off the queue have their timeline; the others are as they were. */
  ghost predicate TimelinesReading(repo: Repository, before: map<nat, Item>, items: map<nat, Item>,
                                   wanted: seq<Target>, queue: seq<Target>) {
    && (forall i :: 0 <= i < |queue| ==> queue[i].(page := 0) in wanted)
    && (forall n :: HasTarget(wanted, n) && !HasTarget(queue, n) ==> TimelineRead(repo, Get(items, n), n))
    && (forall n :: !HasTarget(wanted, n) ==> Get(items, n) == Get(before, n))
  }

  /** The second page of a started target's links. */
  ghost predicate LinkToRead(repo: Repository, items: map<nat, Item>, wanted: seq<Target>, link: Target) {
    && link.page == 1 && link.(page := 0) in wanted
    && Readable(repo, link) && PagesOf(repo, link, true) > 1 && Get(items, link.number) != None
  }

  /** The links still to read are those of the started targets that have more than one page. */
  ghost predicate LinksToRead(repo: Repository, items: map<nat, Item>, wanted: seq<Target>, links: seq<Target>) {
    && DistinctNumbers(links)
    && (forall i :: 0 <= i < |links| ==> LinkToRead(repo, items, wanted, links[i]))
    && (forall n :: HasTarget(wanted, n) && Get(items, n) != None && n in repo && |repo[n].links| > 1 ==>
          HasTarget(links, n))
  }

  lemma TimelineStep(repo: Repository, before: map<nat, Item>, items: map<nat, Item>, items': map<nat, Item>,
                     wanted: seq<Target>, queue: seq<Target>)
    requires queue != [] && TimelineQueue(repo, items, queue) && TimelinesReading(repo, before, items, wanted, queue)
    requires TimelineAt(repo, Get(items', queue[0].number), Turned(queue[0]))
    requires forall n :: n != queue[0].number ==> Get(items', n) == Get(items, n)
    ensures TimelineQueue(repo, items', Next(repo, queue, false))
    ensures TimelinesReading(repo, before, items', wanted, Next(repo, queue, false))
    ensures 0 <= Left(repo, Next(repo, queue, false), false) < Left(repo, queue, false)
  {
    var next := Next(repo, queue, false);
    NextQueue(repo, queue, false);
    LeftIsNotNegative(repo, next, false);
    assert HasTarget(queue, queue[0].number);
    forall i | 0 <= i < |next|
      ensures Pending(repo, Get(items', next[i].number), next[i]) && next[i].(page := 0) in wanted
    {
      if i < |queue| - 1 {
        assert next[i] == queue[i + 1] && queue[0].number != queue[i + 1].number;
      } else {
        assert next[i] == Turned(queue[0]) && queue[0].(page := 0) in wanted;
      }
    }
  }

  lemma LinksStep(repo: Repository, items: map<nat, Item>, items': map<nat, Item>,
                  wanted: seq<Target>, links: seq<Target>, t: Target, link: seq<Target>)
    requires DistinctNumbers(wanted) && t.(page := 0) in wanted && LinksToRead(repo, items, wanted, links)
    requires Pending(repo, Get(items, t.number), t) && TimelineAt(repo, Get(items', t.number), Turned(t))
    requires forall n :: n != t.number ==> Get(items', n) == Get(items, n)
    requires link == if t.page == 0 && |repo[t.number].links| > 1 then [t.(page := 1)] else []
    ensures LinksToRead(repo, items', wanted, links + link)
  {
    var all := links + link;
    forall i | 0 <= i < |links|
      ensures LinkToRead(repo, items', wanted, all[i]) && (link != [] ==> all[i].number != t.number)
    {
      assert all[i] == links[i] && LinkToRead(repo, items, wanted, links[i]);
    }
    assert link != [] ==> all[|links|] == t.(page := 1);
    forall n | HasTarget(wanted, n) && Get(items', n) != None && n in repo && |repo[n].links| > 1
      ensures HasTarget(all, n)
    {
      if HasTarget(links, n) {
        var j :| 0 <= j < |links| && links[j].number == n;
        assert all[j] == links[j];
      } else {
        assert n == t.number && t.page == 0;
        assert all[|links|] == t.(page := 1);
      }
    }
  }

  ghost predicate AllReadable(repo: Repository, ts: seq<Target>) {
    forall i :: 0 <= i < |ts| ==> Readable(repo, ts[i])
  }

  /** Where the reading of timelines stands: what is queued, what is in, and the links that turned up. */
  ghost predicate Working(repo: Repository, before: map<nat, Item>, items: map<nat, Item>,
                          wanted: seq<Target>, queue: seq<Target>, links: seq<Target>) {
    && DistinctNumbers(wanted) && TimelineQueue(repo, items, queue)
    && TimelinesReading(repo, before, items, wanted, queue) && LinksToRead(repo, items, wanted, links)
  }

  lemma StartWorking(repo: Repository, items: map<nat, Item>, wanted: seq<Target>)
    requires TimelineQueue(repo, items, wanted) && forall i :: 0 <= i < |wanted| ==> wanted[i].page == 0
    ensures Working(repo, items, items, wanted, wanted, [])
  {
    forall i | 0 <= i < |wanted| ensures Get(items, wanted[i].number) == None && wanted[i].(page := 0) in wanted {
      assert Pending(repo, Get(items, wanted[i].number), wanted[i]) && wanted[i].(page := 0) == wanted[i];
    }
  }

  lemma UnreadIsWanted(repo: Repository, before: map<nat, Item>, items: map<nat, Item>,
                       wanted: seq<Target>, queue: seq<Target>, links: seq<Target>)
    requires Working(repo, before, items, wanted, queue, links) && queue != [] && !Readable(repo, queue[0])
    ensures !AllReadable(repo, wanted)
  {
    var i :| 0 <= i < |wanted| && wanted[i] == queue[0].(page := 0);
    assert !Readable(repo, wanted[i]);
  }

  lemma LinksAreQueued(repo: Repository, before: map<nat, Item>, items: map<nat, Item>, wanted: seq<Target>,
                       links: seq<Target>)
    requires Working(repo, before, items, wanted, [], links)
    ensures LinkQueue(repo, items, links)
    ensures forall n :: HasTarget(links, n) ==> HasTarget(wanted, n)
    ensures forall n :: HasTarget(wanted, n) && !HasTarget(links, n) ==> IsWhole(repo, Get(items, n), n)
  {
  }

  // ------------------------------------------------------- what is linked

  function LinksOf(repo: Repository, n: nat): seq<nat>
    requires n in repo
  {
    LinkedAfter(repo[n].links, |repo[n].links|)
  }

  /** n is a target, or d links away from one. */
  ghost predicate ReachedIn(repo: Repository, targets: seq<Target>, n: nat, d: nat)
    decreases d
  {
    if d == 0 then HasTarget(targets, n)
    else exists m: nat :: m in repo && ReachedIn(repo, targets, m, d - 1) && n in LinksOf(repo, m)
  }

  ghost predicate Reachable(repo: Repository, targets: seq<Target>, n: nat) {
    exists d: nat :: ReachedIn(repo, targets, n, d)
  }

  /** t is asked for: a target, or the other end of a link of a reachable item. */
  ghost predicate Pursued(repo: Repository, targets: seq<Target>, t: Target) {
    || t in targets
    || (exists m: nat ::
          m in repo && Reachable(repo, targets, m) && t.number in LinksOf(repo, m) && t.isPR == !repo[m].isPR)
  }

  lemma LinkIsReachable(repo: Repository, targets: seq<Target>, m: nat, n: nat)
    requires m in repo && Reachable(repo, targets, m) && n in LinksOf(repo, m)
    ensures Reachable(repo, targets, n)
  {
    var d: nat :| ReachedIn(repo, targets, m, d);
    assert ReachedIn(repo, targets, n, d + 1);
  }

  /** A set of read items that holds the targets and the links of its own items holds everything reachable. */
  lemma {:induction false} ClosedHoldsReachable(repo: Repository, targets: seq<Target>, items: map<nat, Item>, n: nat,
                                                d: nat)
    requires forall i :: 0 <= i < |targets| ==> targets[i].number in items
    requires forall m, k :: m in items && m in repo && k in LinksOf(repo, m) ==> k in items
    requires ReachedIn(repo, targets, n, d)
    ensures n in items
    decreases d
  {
    if d > 0 {
      var m: nat :| m in repo && ReachedIn(repo, targets, m, d - 1) && n in LinksOf(repo, m);
      ClosedHoldsReachable(repo, targets, items, m, d - 1);
    }
  }

  /** What is read so far, and what is asked for next. */
  ghost predicate Exploring(repo: Repository, targets: seq<Target>, items: map<nat, Item>, frontier: seq<Target>) {
    && (forall n :: n in items ==> IsWhole(repo, Some(items[n]), n) && Reachable(repo, targets, n))
    && (forall i :: 0 <= i < |frontier| ==>
          frontier[i].page == 0 && Pursued(repo, targets, frontier[i]) && Reachable(repo, targets, frontier[i].number))
    && (forall i :: 0 <= i < |targets| ==> targets[i].number in items || HasTarget(frontier, targets[i].number))
    && (forall m, k :: m in items && m in repo && k in LinksOf(repo, m) ==> k in items || HasTarget(frontier, k))
  }

  /** The wanted targets are the frontier's unread items, each once. */
  ghost predicate IsWanted(items: map<nat, Item>, frontier: seq<Target>, wanted: seq<Target>) {
    && DistinctNumbers(wanted)
    && (forall i :: 0 <= i < |wanted| ==> wanted[i] in frontier && wanted[i].number !in items)
    && (forall i :: 0 <= i < |frontier| ==> frontier[i].number in items || HasTarget(wanted, frontier[i].number))
  }

  method Unread(items: map<nat, Item>, frontier: seq<Target>) returns (wanted: seq<Target>)
    ensures IsWanted(items, frontier, wanted)
  {
    wanted := [];
    for k := 0 to |frontier|
      invariant IsWanted(items, frontier[..k], wanted)
    {
      var t := frontier[k];
      ghost var before := wanted;
      if t.number !in items && !HasTarget(wanted, t.number) {
        wanted := wanted + [t];
        assert wanted[|before|] == t;
      }
      forall i | 0 <= i < k + 1 ensures frontier[i].number in items || HasTarget(wanted, frontier[i].number) {
        if i < k {
          assert frontier[..k][i] == frontier[i];
        }
        if HasTarget(before, frontier[i].number) {
          var j :| 0 <= j < |before| && before[j].number == frontier[i].number;
          assert wanted[j] == before[j];
        }
      }
      assert forall i :: 0 <= i < k + 1 ==> frontier[..k + 1][i] == frontier[i];
    }
    assert frontier[..|frontier|] == frontier;
  }

  /** t is the other end of a link of the item w names. */
  ghost predicate Follows(items: map<nat, Item>, w: Target, t: Target) {
    && w.number in items && t.page == 0
    && t.number in items[w.number].linked && t.isPR == !items[w.number].isPR
  }

  /** The other ends of the links of the first k items just read. */
  ghost predicate IsFollowed(items: map<nat, Item>, wanted: seq<Target>, k: nat, next: seq<Target>)
    requires k <= |wanted|
  {
    && (forall i :: 0 <= i < |next| ==> exists j :: 0 <= j < k && Follows(items, wanted[j], next[i]))
    && (forall j, t :: 0 <= j < k && Follows(items, wanted[j], t) ==> t in next)
  }

  function TargetsOf(it: Item, k: nat): seq<Target>
    requires k <= |it.linked|
  {
    if k == 0 then [] else TargetsOf(it, k - 1) + [Target(it.linked[k - 1], !it.isPR, 0)]
  }

  lemma {:induction false} TargetsOfItem(it: Item, k: nat)
    requires k <= |it.linked|
    ensures |TargetsOf(it, k)| == k
    ensures forall i :: 0 <= i < k ==> TargetsOf(it, k)[i] == Target(it.linked[i], !it.isPR, 0)
  {
    if k > 0 {
      TargetsOfItem(it, k - 1);
    }
  }

  lemma FollowOne(items: map<nat, Item>, wanted: seq<Target>, k: nat, next: seq<Target>)
    requires k < |wanted| && wanted[k].number in items && IsFollowed(items, wanted, k, next)
    ensures IsFollowed(items, wanted, k + 1,
                       next + TargetsOf(items[wanted[k].number], |items[wanted[k].number].linked|))
  {
    var it := items[wanted[k].number];
    var more := TargetsOf(it, |it.linked|);
    var all := next + more;
    TargetsOfItem(it, |it.linked|);
    forall i | 0 <= i < |all| ensures exists j :: 0 <= j < k + 1 && Follows(items, wanted[j], all[i]) {
      if i < |next| {
        assert all[i] == next[i];
      } else {
        assert Follows(items, wanted[k], all[i]);
      }
    }
    forall j, t | 0 <= j < k + 1 && Follows(items, wanted[j], t) ensures t in all {
      if j == k {
        var i :| 0 <= i < |it.linked| && it.linked[i] == t.number;
        assert more[i] == t;
      }
    }
  }

  lemma ExploreStep(repo: Repository, targets: seq<Target>, items: map<nat, Item>, items': map<nat, Item>,
                    frontier: seq<Target>, wanted: seq<Target>, next: seq<Target>)
    requires Exploring(repo, targets, items, frontier) && IsWanted(items, frontier, wanted)
    requires forall n :: HasTarget(wanted, n) ==> IsWhole(repo, Get(items', n), n)
    requires forall n :: !HasTarget(wanted, n) ==> Get(items', n) == Get(items, n)
    requires IsFollowed(items', wanted, |wanted|, next)
    ensures Exploring(repo, targets, items', next)
  {
    forall n | n in items' ensures IsWhole(repo, Some(items'[n]), n) && Reachable(repo, targets, n) {
      if HasTarget(wanted, n) {
        var i :| 0 <= i < |wanted| && wanted[i].number == n;
        assert wanted[i] in frontier;
      } else {
        assert Get(items', n) == Get(items, n);
      }
    }
    forall i | 0 <= i < |next| ensures Pursued(repo, targets, next[i]) && Reachable(repo, targets, next[i].number) {
      var j :| 0 <= j < |wanted| && Follows(items', wanted[j], next[i]);
      assert HasTarget(wanted, wanted[j].number) && wanted[j] in frontier;
      LinkIsReachable(repo, targets, wanted[j].number, next[i].number);
    }
    forall n | n in items || HasTarget(frontier, n) ensures n in items' {
      if n in items {
        assert Get(items', n) == Get(items, n) || HasTarget(wanted, n);
      } else {
        var i :| 0 <= i < |frontier| && frontier[i].number == n;
        assert HasTarget(wanted, n);
      }
    }
    forall m, k | m in items' && m in repo && k in LinksOf(repo, m) ensures k in items' || HasTarget(next, k) {
      if HasTarget(wanted, m) {
        var j :| 0 <= j < |wanted| && wanted[j].number == m;
        var t := Target(k, !items'[m].isPR, 0);
        assert Follows(items', wanted[j], t) && t in next;
      } else {
        assert Get(items', m) == Get(items, m);
      }
    }
  }

  lemma StartExploring(repo: Repository, targets: seq<Target>)
    requires forall i :: 0 <= i < |targets| ==> targets[i].page == 0
    ensures Exploring(repo, targets, map[], targets)
  {
    forall i | 0 <= i < |targets|
      ensures Reachable(repo, targets, targets[i].number) && HasTarget(targets, targets[i].number)
    {
      assert HasTarget(targets, targets[i].number);
      assert ReachedIn(repo, targets, targets[i].number, 0);
    }
  }

  lemma WantedArePending(repo: Repository, items: map<nat, Item>, frontier: seq<Target>, wanted: seq<Target>)
    requires WellServed(repo) && IsWanted(items, frontier, wanted)
    requires forall i :: 0 <= i < |frontier| ==> frontier[i].page == 0
    ensures TimelineQueue(repo, items, wanted) && forall i :: 0 <= i < |wanted| ==> wanted[i].page == 0
  {
  }

  /** A round either reads an item of the repository for the first time or asks for nothing more. */
  lemma Progress(repo: Repository, before: map<nat, Item>, items: map<nat, Item>, wanted: seq<Target>,
                 next: seq<Target>)
    requires forall i :: 0 <= i < |wanted| ==> wanted[i].number !in before
    requires forall n :: HasTarget(wanted, n) ==> IsWhole(repo, Get(items, n), n)
    requires forall n :: !HasTarget(wanted, n) ==> Get(items, n) == Get(before, n)
    requires IsFollowed(items, wanted, |wanted|, next)
    ensures repo.Keys - items.Keys <= repo.Keys - before.Keys
    ensures wanted != [] ==> wanted[0].number in (repo.Keys - before.Keys) - (repo.Keys - items.Keys)
    ensures wanted == [] ==> next == []
  {
    forall n | n in before ensures n in items {
      assert Get(items, n) == Get(before, n) || HasTarget(wanted, n);
    }
    var first := if next == [] then None else Some(next[0]);
    if wanted != [] {
      assert HasTarget(wanted, wanted[0].number);
    }
  }

  /** None of the queries asked between these two counts failed. */
  ghost predicate Answered(failing: set<nat>, from: nat, to: nat) {
    forall n :: from <= n < to ==> n !in failing
  }

  lemma OneQueryMore(failing: set<nat>, from: nat, to: nat)
    requires from <= to && Answered(failing, from, to)
    ensures Answered(failing, from, to + 1) <==> to !in failing
  {
  }

  class Reader {
    const repo: Repository
    /** The queries that fail, each by how many were asked before it. */
    const failing: set<nat>
    var asked: nat
    var items: map<nat, Item>
    /** The items whose timeline was started, in order. */
    ghost var started: seq<nat>

    ghost predicate Valid()
      reads this
    {
      && WellServed(repo)
      && (forall n :: n in items <==> n in started)
      && (forall i, j :: 0 <= i < j < |started| ==> started[i] != started[j])
    }

    constructor (repo: Repository, failing: set<nat>)
      requires WellServed(repo)
      ensures Valid() && this.repo == repo && this.failing == failing
      ensures asked == 0 && items == map[] && started == []
    {
      this.repo := repo;
      this.failing := failing;
      asked := 0;
      items := map[];
      started := [];
    }

    /** Takes in the page t points at. With page zero the item comes into being together with its first
        links, and link points at further ones, if any. */
    method Absorb(t: Target) returns (link: seq<Target>)
      requires Valid() && TimelineAt(repo, Get(items, t.number), t) && t.page < |repo[t.number].pages|
      modifies this`items, this`started
      ensures Valid() && TimelineAt(repo, Get(items, t.number), Turned(t))
      ensures forall n :: n != t.number ==> Get(items, n) == Get(old(items), n)
      ensures link == if t.page == 0 && |repo[t.number].links| > 1 then [t.(page := 1)] else []
    {
      var n, raw := t.number, repo[t.number];
      link := [];
      var it: Item;
      if n !in items {
        var linked := AddLinks([], raw.links[0]);
        it := Item(n, t.isPR, false, raw.created, linked, []);
        started := started + [n];
        if |raw.links| > 1 {
          link := [t.(page := 1)];
        }
      } else {
        it := items[n];
      }
      assert t.page == 0 ==> LinkedAfter(raw.links, 1) == AddRefs(raw.links[0], |raw.links[0]|, []);
      assert Flat(raw.pages, t.page + 1) == Flat(raw.pages, t.page) + raw.pages[t.page];
      items := items[n := it.(events := it.events + raw.pages[t.page])];
    }

    /** Reads the next page of t's links. */
    method LinkPage(t: Target)
      requires Valid() && LinksPending(repo, Get(items, t.number), t)
      modifies this`items
      ensures Valid() && LinksAt(repo, Get(items, t.number), Turned(t))
      ensures forall n :: n != t.number ==> Get(items, n) == Get(old(items), n)
    {
      var linked := AddLinks(items[t.number].linked, repo[t.number].links[t.page]);
      items := items[t.number := items[t.number].(linked := linked)];
    }

    /** Sends one query more. */
    method Ask() returns (ok: bool)
      modifies this`asked
      ensures asked == old(asked) + 1 && ok == (old(asked) !in failing)
    {
      ok := asked !in failing;
      asked := asked + 1;
    }

    /** Works off a queue of link pages until all of them are in. */
    method LinkPages(targets: seq<Target>) returns (ok: bool)
      requires Valid() && LinkQueue(repo, items, targets)
      modifies this`items, this`asked
      ensures Valid() && old(asked) <= asked && (ok <==> Answered(failing, old(asked), asked))
      ensures ok ==> forall n :: HasTarget(targets, n) ==> IsWhole(repo, Get(items, n), n)
      ensures forall n :: !HasTarget(targets, n) ==> Get(items, n) == Get(old(items), n)
    {
      var queue := targets;
      while |queue| > 0
        invariant Valid() && LinkQueue(repo, items, queue) && LinksReading(repo, old(items), items, targets, queue)
        invariant old(asked) <= asked && Answered(failing, old(asked), asked)
        decreases Left(repo, queue, true)
      {
        ok := Ask();
        if !ok {
          return;
        }
        ghost var before := items;
        LinkPage(queue[0]);
        LinkStep(repo, old(items), before, items, targets, queue);
        queue := Next(repo, queue, true);
      }
      ok := true;
    }

    /** Asks for the first page of the queue and takes it in; link is the page of links that turned up. */
    method TimelinePage(ghost was: map<nat, Item>, ghost wanted: seq<Target>, queue: seq<Target>,
                        ghost links: seq<Target>)
      returns (ok: bool, link: seq<Target>)
      requires Valid() && queue != [] && Working(repo, was, items, wanted, queue, links)
      modifies this
      ensures Valid() && asked == old(asked) + 1 && (ok ==> old(asked) !in failing)
      ensures !ok && old(asked) !in failing ==> !AllReadable(repo, wanted)
      ensures ok ==> Working(repo, was, items, wanted, Next(repo, queue, false), links + link)
      ensures ok ==> 0 <= Left(repo, Next(repo, queue, false), false) < Left(repo, queue, false)
    {
      link := [];
      ok := Ask();
      if ok && !Readable(repo, queue[0]) {
        UnreadIsWanted(repo, was, items, wanted, queue, links);
        ok := false;
      } else if ok {
        ghost var before := items;
        link := Absorb(queue[0]);
        TimelineStep(repo, was, before, items, wanted, queue);
        LinksStep(repo, before, items, wanted, links, queue[0], link);
      }
    }

    /** Works off a queue of timeline pages, collecting the link pages that turn up. */
    method TimelinePages(wanted: seq<Target>) returns (ok: bool, links: seq<Target>)
      requires Valid() && TimelineQueue(repo, items, wanted)
      requires forall i :: 0 <= i < |wanted| ==> wanted[i].page == 0
      modifies this
      ensures Valid() && old(asked) <= asked && (ok ==> Answered(failing, old(asked), asked))
      ensures !ok && Answered(failing, old(asked), asked) ==> !AllReadable(repo, wanted)
      ensures ok ==> Working(repo, old(items), items, wanted, [], links)
    {
      var queue;
      ok, queue, links := true, wanted, [];
      StartWorking(repo, items, wanted);
      while ok && queue != []
        invariant Valid() && old(asked) <= asked && (ok ==> Answered(failing, old(asked), asked))
        invariant !ok && Answered(failing, old(asked), asked) ==> !AllReadable(repo, wanted)
        invariant ok ==> Working(repo, old(items), items, wanted, queue, links)
        decreases ok, Left(repo, queue, false)
      {
        var link;
        ghost var before := asked;
        ok, link := TimelinePage(old(items), wanted, queue, links);
        OneQueryMore(failing, old(asked), before);
        queue, links := Next(repo, queue, false), links + link;
      }
    }

    /** Works off a queue of timeline pages, and after it the link pages that turned up. */
    method Timelines(wanted: seq<Target>) returns (ok: bool)
      requires Valid() && TimelineQueue(repo, items, wanted)
      requires forall i :: 0 <= i < |wanted| ==> wanted[i].page == 0
      modifies this
      ensures Valid() && old(asked) <= asked && (ok ==> Answered(failing, old(asked), asked))
      ensures !ok && Answered(failing, old(asked), asked) ==> !AllReadable(repo, wanted)
      ensures ok ==> forall n :: HasTarget(wanted, n) ==> IsWhole(repo, Get(items, n), n)
      ensures ok ==> forall n :: !HasTarget(wanted, n) ==> Get(items, n) == Get(old(items), n)
    {
      var links;
      ok, links := TimelinePages(wanted);
      if ok {
        LinksAreQueued(repo, old(items), items, wanted, links);
        ok := LinkPages(links);
      }
    }

    method Follow(wanted: seq<Target>) returns (next: seq<Target>)
      requires forall i :: 0 <= i < |wanted| ==> wanted[i].number in items
      ensures IsFollowed(items, wanted, |wanted|, next)
    {
      next := [];
      for k := 0 to |wanted|
        invariant IsFollowed(items, wanted, k, next)
      {
        var it := items[wanted[k].number];
        FollowOne(items, wanted, k, next);
        ghost var before := next;
        for i := 0 to |it.linked|
          invariant next == before + TargetsOf(it, i)
        {
          next := next + [Target(it.linked[i], !it.isPR, 0)];
        }
      }
    }

    /** One round of the worklist: the unread targets are read whole, and the next round is what they link to. */
    method Round(ghost targets: seq<Target>, frontier: seq<Target>) returns (ok: bool, next: seq<Target>)
      requires Valid() && Exploring(repo, targets, items, frontier) && |frontier| > 0
      modifies this
      ensures Valid() && old(asked) <= asked
      ensures ok ==> Answered(failing, old(asked), asked) && Exploring(repo, targets, items, next)
      ensures ok ==> repo.Keys - items.Keys <= repo.Keys - old(items).Keys
      ensures ok ==> next == [] || repo.Keys - items.Keys < repo.Keys - old(items).Keys
      ensures !ok && Answered(failing, old(asked), asked) ==>
              exists t :: Pursued(repo, targets, t) && !Readable(repo, t)
    {
      next := [];
      ghost var before := items;
      var wanted := Unread(items, frontier);
      WantedArePending(repo, items, frontier, wanted);
      ok := Timelines(wanted);
      if !ok {
        if Answered(failing, old(asked), asked) {
          ghost var i :| 0 <= i < |wanted| && !Readable(repo, wanted[i]);
          assert wanted[i] in frontier;
        }
        return;
      }
      forall i | 0 <= i < |wanted| ensures wanted[i].number in items {
        assert HasTarget(wanted, wanted[i].number);
      }
      next := Follow(wanted);
      ExploreStep(repo, targets, before, items, frontier, wanted, next);
      Progress(repo, before, items, wanted, next);
    }

    /** The worklist: rounds of unread targets, each round giving the next. */
    method ReadAll(targets: seq<Target>) returns (ok: bool)
      requires Valid() && items == map[] && forall i :: 0 <= i < |targets| ==> targets[i].page == 0
      modifies this
      ensures Valid() && old(asked) <= asked
      ensures ok ==> Answered(failing, old(asked), asked)
      ensures ok ==> forall n :: n in items <==> Reachable(repo, targets, n)
      ensures ok ==> forall n :: n in items ==> n in repo && items[n] == Whole(repo, n)
      ensures !ok && Answered(failing, old(asked), asked) ==>
              exists t :: Pursued(repo, targets, t) && !Readable(repo, t)
    {
      var frontier := targets;
      StartExploring(repo, targets);
      while |frontier| > 0
        invariant Valid() && Exploring(repo, targets, items, frontier)
        invariant old(asked) <= asked && Answered(failing, old(asked), asked)
        decreases repo.Keys - items.Keys, |frontier|
      {
        ok, frontier := Round(targets, frontier);
        if !ok {
          return;
        }
      }
      forall n | Reachable(repo, targets, n) ensures n in items {
        var d: nat :| ReachedIn(repo, targets, n, d);
        ClosedHoldsReachable(repo, targets, items, n, d);
      }
      ok := true;
    }
  }
}
