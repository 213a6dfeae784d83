/** Closing out merged pull requests: first the card, and only then the label, with every call free to
    stop after any write. A call cut off after a write is one whose answer is Lost; a call cut off before
    its next write is one whose next request never leaves. */
module CloseOut {
  import opened Common
  import opened Guard
  import opened Wire
  import opened Board
  import R = Readiness
  import SendingBack

  datatype ItemRef = ItemRef(id: string, archived: bool, project: string)
  datatype NodeState = StillOpen | NowMerged

  /** An entry of the listing, with the board items attached to it directly and through issues. */
  datatype ReadyNode = ReadyNode(
    number: nat, head: string, state: NodeState, items: seq<ItemRef>, closing: seq<seq<ItemRef>>)

  // ---- a pull request's cards ----

  predicate Counts(cfg: Config, ref: ItemRef) {
    ref.project == cfg.project && !ref.archived && ValidItemID(ref.id)
  }

  ghost predicate Among(cfg: Config, refs: seq<ItemRef>, id: string) {
    exists ref :: ref in refs && Counts(cfg, ref) && ref.id == id
  }

  ghost predicate IsCard(cfg: Config, n: ReadyNode, id: string) {
    Among(cfg, n.items, id) || exists k :: 0 <= k < |n.closing| && Among(cfg, n.closing[k], id)
  }

  ghost predicate NoCard(cfg: Config, n: ReadyNode) {
    forall id :: !IsCard(cfg, n, id)
  }

  ghost predicate OneCard(cfg: Config, n: ReadyNode, id: string) {
    forall x :: IsCard(cfg, n, x) <==> x == id
  }

  method AddCards(cfg: Config, refs: seq<ItemRef>, was: seq<string>) returns (cards: seq<string>)
    requires NoRepeats(was)
    ensures NoRepeats(cards)
    ensures forall id :: id in cards <==> id in was || Among(cfg, refs, id)
  {
    cards := was;
    for i := 0 to |refs|
      invariant NoRepeats(cards)
      invariant forall id :: id in cards <==> id in was || Among(cfg, refs[..i], id)
    {
      assert refs[..i + 1] == refs[..i] + [refs[i]];
      if Counts(cfg, refs[i]) && refs[i].id !in cards {
        cards := cards + [refs[i].id];
      }
    }
    assert refs[..|refs|] == refs;
  }

  /** Collects the board's items from all those references without repeats. */
  method CardsOf(cfg: Config, n: ReadyNode) returns (cards: seq<string>)
    ensures NoRepeats(cards)
    ensures forall id :: id in cards <==> IsCard(cfg, n, id)
  {
    cards := AddCards(cfg, n.items, []);
    for k := 0 to |n.closing|
      invariant NoRepeats(cards)
      invariant forall id :: id in cards <==>
        Among(cfg, n.items, id) || exists j :: 0 <= j < k && Among(cfg, n.closing[j], id)
    {
      cards := AddCards(cfg, n.closing[k], cards);
    }
  }

  lemma CardsCount(cfg: Config, n: ReadyNode, cards: seq<string>)
    requires NoRepeats(cards) && forall id :: id in cards <==> IsCard(cfg, n, id)
    ensures |cards| == 0 <==> NoCard(cfg, n)
    ensures |cards| == 1 ==> OneCard(cfg, n, cards[0])
    ensures |cards| != 1 ==> forall id :: !OneCard(cfg, n, id)
  {
    assert |cards| > 1 ==> cards[0] != cards[1];
    forall id | OneCard(cfg, n, id) ensures |cards| == 1 {
      assert IsCard(cfg, n, id) && id in cards;
      forall i | 0 <= i < |cards| ensures cards[i] == id {
        assert cards[i] in cards && IsCard(cfg, n, cards[i]);
      }
    }
    if |cards| > 0 {
      assert IsCard(cfg, n, cards[0]);
    }
  }

  // ---- what close_merged may finish ----

  /** Reads of single cards, as GitHub answers them. */
  type CardReads = string -> Read<ProjectItem>

  /** How a merged pull request stands on the board when a call may finish it. */
  datatype Closable = Bare | WithCard(card: string, lane: Lane)

  ghost predicate IsClosable(cfg: Config, n: ReadyNode, read: CardReads, c: Closable) {
    match c
    case Bare => NoCard(cfg, n)
    case WithCard(card, lane) =>
      && OneCard(cfg, n, card) && (lane == Doing || lane == Done)
      && read(card).Got? && InLane(cfg, read(card).value, lane)
  }

  /** The one card could not be read. */
  ghost predicate CardUnread(cfg: Config, n: ReadyNode, read: CardReads) {
    exists card :: OneCard(cfg, n, card) && read(card).Unread?
  }

  method JudgeClosable(cfg: Config, n: ReadyNode, read: CardReads) returns (r: Read<Option<Closable>>)
    requires Faithful(cfg.lanes)
    ensures r.Unread? <==> CardUnread(cfg, n, read)
    ensures r.Got? && r.value.Some? ==> IsClosable(cfg, n, read, r.value.value)
    ensures r.Got? && r.value.None? ==> forall c :: !IsClosable(cfg, n, read, c)
  {
    var cards := CardsOf(cfg, n);
    CardsCount(cfg, n, cards);
    if |cards| == 0 {
      return Got(Some(Bare));
    }
    if |cards| > 1 {
      return Got(None);
    }
    TheOneCard(cfg, n, cards[0]);
    var item := read(cards[0]);
    if item.Unread? {
      return Unread;
    }
    var lane, reason := JudgeItem(cfg, item.value);
    OnlyCard(cfg, n, read, cards[0], lane);
    if reason != Passed || (lane.value != Doing && lane.value != Done) {
      return Got(None);
    }
    return Got(Some(WithCard(cards[0], lane.value)));
  }

  lemma TheOneCard(cfg: Config, n: ReadyNode, card: string)
    requires OneCard(cfg, n, card)
    ensures forall other :: OneCard(cfg, n, other) ==> other == card
  {
    assert IsCard(cfg, n, card);
  }

  lemma OnlyCard(cfg: Config, n: ReadyNode, read: CardReads, card: string, lane: Option<Lane>)
    requires Faithful(cfg.lanes) && OneCard(cfg, n, card) && read(card).Got?
    requires lane.Some? ==> InLane(cfg, read(card).value, lane.value)
    requires lane.None? ==> forall l :: !InLane(cfg, read(card).value, l)
    ensures forall c :: IsClosable(cfg, n, read, c) ==> lane.Some? && c == WithCard(card, lane.value)
  {
    assert IsCard(cfg, n, card);
    forall c | IsClosable(cfg, n, read, c) ensures lane.Some? && c == WithCard(card, lane.value) {
      if c.WithCard? {
        assert IsCard(cfg, n, c.card);
        OneLaneAtATime(cfg, read(card).value, c.lane, lane.value);
      }
    }
  }

  // ---- the listing the Merger reads first ----

  datatype ReadyPR = ReadyPR(number: nat, head: string, card: string, ready: bool, reason: Reason, check: string)
  datatype Skipped = Skipped(noCard: nat, manyCards: nat, notInDoing: nat, mergedHeld: nat)
  datatype ReadyList = ReadyList(prs: seq<ReadyPR>, merged: seq<nat>, skipped: Skipped)

  /** What GitHub answers about single cards and pull requests while the listing is judged. */
  datatype Sight = Sight(
    m: R.Settings, card: CardReads, pull: ReadyNode -> Read<PullRequest>, signals: ReadyNode -> Read<R.Signals>)

  /** An open pull request's entry: it stands in Doing by its only card, and the verdict is the one a merge
      of its head would get now. */
  ghost predicate Lists(cfg: Config, n: ReadyNode, see: Sight, e: ReadyPR) {
    && n.state == StillOpen && e.number == n.number && e.head == n.head && OneCard(cfg, n, e.card)
    && see.card(e.card).Got? && InLane(cfg, see.card(e.card).value, Doing)
    && see.pull(n).Got? && R.Prejudged(see.m, see.pull(n).value, see.signals(n), n.head, e.reason, e.check)
    && (e.ready <==> e.reason == Passed)
  }

  /** An entry marked ready is ready by the readiness condition, and the other way round. */
  lemma ListedReadyIsReady(cfg: Config, n: ReadyNode, see: Sight, e: ReadyPR)
    requires Lists(cfg, n, see, e) && see.signals(n).Got? && R.DistinctIDs(see.signals(n).value)
    ensures e.ready <==> R.Ready(see.m, see.pull(n).value, see.signals(n).value, n.head)
  {
    if CheckPullRequest(see.m.target, see.pull(n).value, n.head) == Passed {
      R.PassesExactlyWhenReady(see.m, see.pull(n).value, see.signals(n).value, n.head, e.reason, e.check);
    }
  }

  ghost predicate Closes(cfg: Config, n: ReadyNode, read: CardReads) {
    n.state == NowMerged && exists c :: IsClosable(cfg, n, read, c)
  }

  /** Where each listed pull request is filed. */
  datatype Slot = InPRs | InMerged | CountNoCard | CountManyCards | CountNotInDoing | CountMergedHeld

  ghost function SlotOf(cfg: Config, n: ReadyNode, read: CardReads): Slot {
    if n.state == NowMerged then (if Closes(cfg, n, read) then InMerged else CountMergedHeld)
    else if NoCard(cfg, n) then CountNoCard
    else if InDoing(cfg, n, read) then InPRs
    else if exists card :: OneCard(cfg, n, card) then CountNotInDoing
    else CountManyCards
  }

  ghost predicate InDoing(cfg: Config, n: ReadyNode, read: CardReads) {
    exists card :: OneCard(cfg, n, card) && read(card).Got? && InLane(cfg, read(card).value, Doing)
  }

  ghost function Tally(cfg: Config, nodes: seq<ReadyNode>, read: CardReads, slot: Slot): nat {
    if nodes == [] then 0
    else Tally(cfg, nodes[..|nodes| - 1], read, slot) + if SlotOf(cfg, nodes[|nodes| - 1], read) == slot then 1 else 0
  }

  function Filed(l: ReadyList, slot: Slot): nat {
    match slot
    case InPRs => |l.prs|
    case InMerged => |l.merged|
    case CountNoCard => l.skipped.noCard
    case CountManyCards => l.skipped.manyCards
    case CountNotInDoing => l.skipped.notInDoing
    case CountMergedHeld => l.skipped.mergedHeld
  }

  /** Nothing listed is left out: the slots' sizes add up to the listing's. */
  lemma {:induction false} EveryNodeIsFiled(cfg: Config, nodes: seq<ReadyNode>, read: CardReads)
    ensures Tally(cfg, nodes, read, InPRs) + Tally(cfg, nodes, read, InMerged) + Tally(cfg, nodes, read, CountNoCard)
            + Tally(cfg, nodes, read, CountManyCards) + Tally(cfg, nodes, read, CountNotInDoing)
            + Tally(cfg, nodes, read, CountMergedHeld) == |nodes|
  {
    if nodes != [] {
      EveryNodeIsFiled(cfg, nodes[..|nodes| - 1], read);
    }
  }

  /** Each of these nodes is filed once, in the slot it belongs to, and the lists hold exactly the open
      ones whose card is in Doing and the merged ones that may be closed. */
  ghost predicate IsList(cfg: Config, nodes: seq<ReadyNode>, see: Sight, l: ReadyList) {
    && (forall slot :: Filed(l, slot) == Tally(cfg, nodes, see.card, slot))
    && ListsOpen(cfg, nodes, see, l.prs)
    && ListsMerged(cfg, nodes, see.card, l.merged)
  }

  ghost predicate ListsOpen(cfg: Config, nodes: seq<ReadyNode>, see: Sight, prs: seq<ReadyPR>) {
    && (forall e :: e in prs ==> exists n :: n in nodes && Lists(cfg, n, see, e))
    && (forall n :: n in nodes && n.state == StillOpen && InDoing(cfg, n, see.card) ==>
          exists e :: e in prs && Lists(cfg, n, see, e))
  }

  ghost predicate ListsMerged(cfg: Config, nodes: seq<ReadyNode>, read: CardReads, merged: seq<nat>) {
    && (forall p :: p in merged ==> exists n :: n in nodes && n.number == p && Closes(cfg, n, read))
    && (forall n :: n in nodes && Closes(cfg, n, read) ==> n.number in merged)
  }

  /** A read this pull request's filing needs did not come. */
  ghost predicate Unseen(cfg: Config, n: ReadyNode, see: Sight) {
    CardUnread(cfg, n, see.card) || (n.state == StillOpen && InDoing(cfg, n, see.card) && VerdictUnread(n, see))
  }

  ghost predicate VerdictUnread(n: ReadyNode, see: Sight) {
    || see.pull(n).Unread?
    || (CheckPullRequest(see.m.target, see.pull(n).value, n.head) == Passed && see.signals(n).Unread?)
  }

  method List(cfg: Config, nodes: seq<ReadyNode>, see: Sight) returns (r: Read<ReadyList>)
    requires Faithful(cfg.lanes)
    ensures r.Got? ==> IsList(cfg, nodes, see, r.value)
    ensures r.Unread? <==> exists n :: n in nodes && Unseen(cfg, n, see)
  {
    var l := ReadyList([], [], Skipped(0, 0, 0, 0));
    for i := 0 to |nodes|
      invariant IsList(cfg, nodes[..i], see, l)
      invariant forall n :: n in nodes[..i] ==> !Unseen(cfg, n, see)
    {
      assert nodes[..i + 1] == nodes[..i] + [nodes[i]];
      r := FileNode(cfg, nodes[..i], nodes[i], see, l);
      if r.Unread? {
        assert nodes[i] in nodes && Unseen(cfg, nodes[i], see);
        return;
      }
      l := r.value;
    }
    assert nodes[..|nodes|] == nodes;
    return Got(l);
  }

  /** Files one pull request more. */
  method FileNode(cfg: Config, ghost nodes: seq<ReadyNode>, n: ReadyNode, see: Sight, was: ReadyList)
    returns (r: Read<ReadyList>)
    requires Faithful(cfg.lanes) && IsList(cfg, nodes, see, was)
    ensures r.Unread? <==> Unseen(cfg, n, see)
    ensures r.Got? ==> IsList(cfg, nodes + [n], see, r.value)
  {
    if n.state == NowMerged {
      var c := JudgeClosable(cfg, n, see.card);
      if c.Unread? {
        return Unread;
      }
      var l := if c.value.Some? then was.(merged := was.merged + [n.number])
               else was.(skipped := was.skipped.(mergedHeld := was.skipped.mergedHeld + 1));
      AddMerged(cfg, nodes, n, see, was, l);
      return Got(l);
    }
    var e := JudgeOpen(cfg, n, see);
    if e.Failed? {
      return Unread;
    }
    var l := match e {
      case Entry(pr) => was.(prs := was.prs + [pr])
      case Without => was.(skipped := was.skipped.(noCard := was.skipped.noCard + 1))
      case Many => was.(skipped := was.skipped.(manyCards := was.skipped.manyCards + 1))
      case Elsewhere => was.(skipped := was.skipped.(notInDoing := was.skipped.notInDoing + 1))
    };
    AddOpen(cfg, nodes, n, see, was, l, e);
    return Got(l);
  }

  datatype OpenVerdict = Failed | Without | Many | Elsewhere | Entry(pr: ReadyPR)

  function VerdictSlot(e: OpenVerdict): Slot {
    match e
    case Entry(_) => InPRs
    case Without => CountNoCard
    case Many => CountManyCards
    case _ => CountNotInDoing
  }

  /** The one card, where it was read in Doing; otherwise where the pull request is filed. */
  method FindInDoing(cfg: Config, n: ReadyNode, read: CardReads) returns (v: Option<OpenVerdict>, card: string)
    requires Faithful(cfg.lanes) && n.state == StillOpen
    ensures v.None? ==>
              && OneCard(cfg, n, card) && read(card).Got? && InLane(cfg, read(card).value, Doing)
              && SlotOf(cfg, n, read) == InPRs
    ensures v.Some? ==> !v.value.Entry? && (!v.value.Failed? ==> VerdictSlot(v.value) == SlotOf(cfg, n, read))
    ensures v.Some? && v.value.Failed? <==> CardUnread(cfg, n, read)
    ensures v.Some? ==> !InDoing(cfg, n, read)
  {
    var cards := CardsOf(cfg, n);
    CardsCount(cfg, n, cards);
    if |cards| == 0 {
      return Some(Without), "";
    }
    if |cards| > 1 {
      return Some(Many), "";
    }
    TheOneCard(cfg, n, cards[0]);
    var item := read(cards[0]);
    if item.Unread? {
      return Some(OpenVerdict.Failed), "";
    }
    var lane, reason := JudgeItem(cfg, item.value);
    assert InLane(cfg, item.value, Doing) ==> lane == Some(Doing) by {
      if InLane(cfg, item.value, Doing) {
        OneLaneAtATime(cfg, item.value, Doing, lane.value);
      }
    }
    return if lane == Some(Doing) then None else Some(Elsewhere), cards[0];
  }

  method JudgeOpen(cfg: Config, n: ReadyNode, see: Sight) returns (e: OpenVerdict)
    requires Faithful(cfg.lanes) && n.state == StillOpen
    ensures e.Entry? ==> Lists(cfg, n, see, e.pr)
    ensures !e.Failed? ==> VerdictSlot(e) == SlotOf(cfg, n, see.card)
    ensures e.Failed? <==> Unseen(cfg, n, see)
  {
    var v, card := FindInDoing(cfg, n, see.card);
    if v.Some? {
      return v.value;
    }
    var verdict := R.Prejudge(see.m, see.pull(n), see.signals(n), n.head);
    if verdict.Unread? {
      return OpenVerdict.Failed;
    }
    var reason, check := verdict.value.0, verdict.value.1;
    return Entry(ReadyPR(n.number, n.head, card, reason == Passed, reason, check));
  }

  lemma AddMerged(cfg: Config, nodes: seq<ReadyNode>, n: ReadyNode, see: Sight, was: ReadyList, l: ReadyList)
    requires IsList(cfg, nodes, see, was) && n.state == NowMerged
    requires l.prs == was.prs
    requires forall slot :: Filed(l, slot) == Filed(was, slot) + if SlotOf(cfg, n, see.card) == slot then 1 else 0
    requires l.merged == if Closes(cfg, n, see.card) then was.merged + [n.number] else was.merged
    ensures IsList(cfg, nodes + [n], see, l)
  {
    TallyAppend(cfg, nodes, n, see.card);
  }

  lemma AddOpen(cfg: Config, nodes: seq<ReadyNode>, n: ReadyNode, see: Sight, was: ReadyList, l: ReadyList,
                v: OpenVerdict)
    requires IsList(cfg, nodes, see, was) && n.state == StillOpen
    requires v.Entry? ==> Lists(cfg, n, see, v.pr)
    requires !v.Failed? && VerdictSlot(v) == SlotOf(cfg, n, see.card)
    requires l.merged == was.merged
    requires forall slot :: Filed(l, slot) == Filed(was, slot) + if SlotOf(cfg, n, see.card) == slot then 1 else 0
    requires l.prs == if v.Entry? then was.prs + [v.pr] else was.prs
    ensures IsList(cfg, nodes + [n], see, l)
  {
    TallyAppend(cfg, nodes, n, see.card);
    if InDoing(cfg, n, see.card) {
      var card :| OneCard(cfg, n, card);
      assert IsCard(cfg, n, card);
    }
    OneMoreOpen(cfg, nodes, n, see, was.prs, v);
  }

  lemma OneMoreOpen(cfg: Config, nodes: seq<ReadyNode>, n: ReadyNode, see: Sight, prs: seq<ReadyPR>, v: OpenVerdict)
    requires ListsOpen(cfg, nodes, see, prs) && n.state == StillOpen
    requires v.Entry? ==> Lists(cfg, n, see, v.pr)
    requires InDoing(cfg, n, see.card) ==> v.Entry?
    ensures ListsOpen(cfg, nodes + [n], see, if v.Entry? then prs + [v.pr] else prs)
  {
    var all := if v.Entry? then prs + [v.pr] else prs;
    forall e | e in all ensures exists m :: m in nodes + [n] && Lists(cfg, m, see, e) {
      if e in prs {
        var m :| m in nodes && Lists(cfg, m, see, e);
        assert m in nodes + [n];
      } else {
        assert n in nodes + [n];
      }
    }
    forall m | m in nodes + [n] && m.state == StillOpen && InDoing(cfg, m, see.card)
      ensures exists e :: e in all && Lists(cfg, m, see, e)
    {
      var e := EntryOf(cfg, nodes, n, see, prs, v, m);
    }
  }

  lemma EntryOf(cfg: Config, nodes: seq<ReadyNode>, n: ReadyNode, see: Sight, prs: seq<ReadyPR>, v: OpenVerdict,
                m: ReadyNode)
    returns (e: ReadyPR)
    requires ListsOpen(cfg, nodes, see, prs) && (v.Entry? ==> Lists(cfg, n, see, v.pr))
    requires InDoing(cfg, n, see.card) ==> v.Entry?
    requires m in nodes + [n] && m.state == StillOpen && InDoing(cfg, m, see.card)
    ensures e in (if v.Entry? then prs + [v.pr] else prs) && Lists(cfg, m, see, e)
  {
    if m in nodes {
      e :| e in prs && Lists(cfg, m, see, e);
    } else {
      e := v.pr;
    }
  }

  lemma TallyAppend(cfg: Config, nodes: seq<ReadyNode>, n: ReadyNode, read: CardReads)
    ensures forall slot :: Tally(cfg, nodes + [n], read, slot) ==
              Tally(cfg, nodes, read, slot) + if SlotOf(cfg, n, read) == slot then 1 else 0
  {
    assert (nodes + [n])[..|nodes|] == nodes;
  }

  // ---- the world the calls act on ----

  /** The cards, the pull requests on the base, and which of them carry the ready-to-merge label. */
  datatype World = World(cards: Cards, nodes: seq<ReadyNode>, ready: set<nat>)

  ghost predicate WellNumbered(w: World) {
    forall a, b :: a in w.nodes && b in w.nodes && a.number == b.number ==> a == b
  }

  function Moved(cfg: Config, w: World, id: string, option: string): World {
    w.(cards := w.cards[id := WithStatus(cfg, At(w.cards, id), option)])
  }

  function Unlabelled(w: World, number: nat): World {
    w.(ready := w.ready - {number})
  }

  function Apply(cfg: Config, w: World, write: Write): World {
    match write
    case SetStatus(id, option) => Moved(cfg, w, id, option)
    case DropReady(pr) => if pr >= 0 then Unlabelled(w, pr) else w
    case _ => w
  }

  function Replay(cfg: Config, w: World, writes: seq<Write>): World {
    if writes == [] then w else Apply(cfg, Replay(cfg, w, writes[..|writes| - 1]), writes[|writes| - 1])
  }

  /** Every answer one call gets. */
  datatype Script = Script(
    listing: Read<seq<ReadyNode>>, read: CardReads, done: Attempt<UpdateAnswer>, drop: Attempt<()>)

  /** Reads show the world, and an update GitHub confirms was made. */
  ghost predicate Truthful(w: World, s: Script) {
    && (s.listing.Got? ==> forall n :: n in s.listing.value <==> n in w.nodes && n.number in w.ready)
    && (forall id :: s.read(id).Got? ==> s.read(id).value == At(w.cards, id))
    && (forall id :: Confirms(s.done, id) ==> s.done.applies)
  }

  /** Nothing fails: the reads come, and both writes are made and answered. */
  ghost predicate Uninterrupted(cfg: Config, n: ReadyNode, s: Script) {
    && s.listing.Got? && (forall id :: s.read(id).Got?)
    && (forall card :: OneCard(cfg, n, card) ==> Confirms(s.done, card))
    && SendingBack.Deleted(s.drop) && s.drop.applies
  }

  /** Merged, and still labelled ready to merge. */
  ghost predicate Pending(w: World, n: ReadyNode) {
    n in w.nodes && n.state == NowMerged && n.number in w.ready
  }

  ghost predicate InWorld(cfg: Config, w: World, n: ReadyNode, c: Closable) {
    match c
    case Bare => NoCard(cfg, n)
    case WithCard(card, lane) =>
      OneCard(cfg, n, card) && (lane == Doing || lane == Done) && InLane(cfg, At(w.cards, card), lane)
  }

  /** A call may finish it, as the world stands. */
  ghost predicate Closing(cfg: Config, w: World, n: ReadyNode) {
    exists c :: InWorld(cfg, w, n, c)
  }

  /** The board needs nothing more. */
  ghost predicate Finished(cfg: Config, w: World, n: ReadyNode) {
    NoCard(cfg, n) || exists card :: OneCard(cfg, n, card) && InLane(cfg, At(w.cards, card), Done)
  }

  ghost predicate ClosedOff(cfg: Config, w: World, n: ReadyNode) {
    n.number !in w.ready && Finished(cfg, w, n)
  }

  function ToDone(cfg: Config, w: World, card: string): World
    requires Done in cfg.lanes
  {
    Moved(cfg, w, card, cfg.lanes[Done])
  }

  /** What one call on a labelled, merged pull request may do to the world, wherever it stops. */
  ghost predicate CloseEffect(cfg: Config, w: World, n: ReadyNode, c: Closable, w': World)
    requires Done in cfg.lanes
  {
    || w' == w
    || (if c.WithCard? && c.lane == Doing
        then w' == ToDone(cfg, w, c.card) || w' == Unlabelled(ToDone(cfg, w, c.card), n.number)
        else w' == Unlabelled(w, n.number))
  }

  ghost predicate CloseStep(cfg: Config, w: World, n: ReadyNode, w': World)
    requires Done in cfg.lanes
  {
    || w' == w
    || (Pending(w, n)
        && exists c :: InWorld(cfg, w, n, c) && CloseEffect(cfg, w, n, c, w'))
  }

  ghost predicate Labelled(w: World, number: int) {
    exists n :: n in w.nodes && n.number in w.ready && n.number == number
  }

  ghost predicate Awaits(w: World, number: int) {
    exists n: ReadyNode :: n.number == number && Pending(w, n)
  }

  /** What a call decides before it writes. */
  datatype Choice = CannotRead | Refuse(reason: Reason) | Proceed(node: ReadyNode, how: Closable)

  datatype CloseResult = CloseResult(closed: bool, reason: Reason, item: string, moved: bool, httpStatus: nat)

  class Closer {
    const cfg: Config
    const gh: GitHub

    constructor (cfg: Config, gh: GitHub)
      ensures this.cfg == cfg && this.gh == gh
    {
      this.cfg, this.gh := cfg, gh;
    }

    method FindLabelled(number: int, nodes: seq<ReadyNode>) returns (r: Option<ReadyNode>)
      ensures r.Some? ==> r.value in nodes && r.value.number == number
      ensures r.None? ==> forall n :: n in nodes ==> n.number != number
    {
      for i := 0 to |nodes|
        invariant forall n :: n in nodes[..i] ==> n.number != number
      {
        if nodes[i].number == number {
          return Some(nodes[i]);
        }
      }
      return None;
    }

    /** Whatever answers come, the world takes a close step for that pull request; a call on one that is
        not listed as merged and labelled writes nothing; an uninterrupted call finishes. */
    method CloseMerged(number: int, s: Script, ghost w: World) returns (r: Read<CloseResult>, ghost writes: seq<Write>)
      requires Faithful(cfg.lanes) && WellNumbered(w) && Truthful(w, s)
      modifies gh
      ensures gh.applied == old(gh.applied) + writes
      ensures gh.tried == old(gh.tried) ==> writes == []
      ensures gh.tried != old(gh.tried) ==>
                exists n: ReadyNode :: n.number == number && Pending(w, n)
                  && CloseStep(cfg, w, n, Replay(cfg, w, writes))
      ensures forall n: ReadyNode ::
                n.number == number > 0 && Pending(w, n) && Closing(cfg, w, n) && Uninterrupted(cfg, n, s) ==>
                r.Got? && r.value.closed && ClosedOff(cfg, Replay(cfg, w, writes), n)
      ensures r.Got? ==> (r.value.closed <==> r.value.reason == ClosedOut)
      ensures number > 0 && s.listing.Got? ==>
                && (r.Got? && r.value.reason == NotReadyToMerge <==> !Labelled(w, number))
                && (r.Got? && r.value.reason == PRNotMerged <==> Labelled(w, number) && !Awaits(w, number))
    {
      writes := [];
      var v := Choose(number, s, w);
      if v.CannotRead? {
        return Unread, [];
      }
      if v.Refuse? {
        return Got(CloseResult(false, v.reason, "", false, 0)), [];
      }
      FinishTakesACloseStep(cfg, w, v.node, v.how, s);
      if Uninterrupted(cfg, v.node, s) {
        UninterruptedCloses(cfg, w, v.node, v.how, s);
      }
      FinishIsLogged(gh.applied, cfg, v.node, v.how, s);
      var res := Finish(v.node, v.how, s);
      return Got(res), FinishWrites(cfg, v.node, v.how, s);
    }

    /** Judges from a fresh listing whether there is something to finish. */
    method Choose(number: int, s: Script, ghost w: World) returns (v: Choice)
      requires Faithful(cfg.lanes) && WellNumbered(w) && Truthful(w, s)
      ensures v.Proceed? ==> v.node.number == number && Pending(w, v.node) && InWorld(cfg, w, v.node, v.how)
      ensures v.Refuse? ==> v.reason != ClosedOut
      ensures number > 0 && s.listing.Got? ==>
                && (v == Refuse(NotReadyToMerge) <==> !Labelled(w, number))
                && (v == Refuse(PRNotMerged) <==> Labelled(w, number) && !Awaits(w, number))
      ensures forall n: ReadyNode ::
                n.number == number > 0 && Pending(w, n) && Closing(cfg, w, n) && Uninterrupted(cfg, n, s) ==>
                v.Proceed? && v.node == n
    {
      if number <= 0 {
        return Refuse(InvalidInput);
      }
      if s.listing.Unread? {
        return CannotRead;
      }
      var found := FindLabelled(number, s.listing.value);
      if found.None? {
        return Refuse(NotReadyToMerge);
      }
      if found.value.state != NowMerged {
        return Refuse(PRNotMerged);
      }
      var c := JudgeClosable(cfg, found.value, s.read);
      ReadsShowTheWorld(cfg, w, found.value, s);
      if c.Unread? {
        return CannotRead;
      }
      if c.value.None? {
        return Refuse(CardNotClosable);
      }
      return Proceed(found.value, c.value.value);
    }

    /** The card first, then the label. */
    method Finish(n: ReadyNode, c: Closable, s: Script) returns (res: CloseResult)
      requires Faithful(cfg.lanes)
      modifies gh
      ensures gh.tried != old(gh.tried) && gh.applied == FinishLogged(old(gh.applied), cfg, n, c, s)
      ensures res.closed <==> Goes(c, s) && SendingBack.Deleted(s.drop)
      ensures res.closed <==> res.reason == ClosedOut
      ensures res.moved <==> Moves(c) && Confirms(s.done, c.card)
      ensures res.reason != NotReadyToMerge && res.reason != PRNotMerged
    {
      res := CloseResult(false, Passed, if c.WithCard? then c.card else "", false, 0);
      if Moves(c) {
        var outcome, code := UpdateField(gh, c.card, cfg.lanes[Done], s.done);
        if outcome != WriteDone {
          return res.(reason := MoveReason(outcome), httpStatus := code);
        }
        res := res.(moved := true);
      }
      var reason, code := SendingBack.DropReadyLabel(gh, n.number, s.drop);
      if reason != Passed {
        return res.(reason := reason, httpStatus := code);
      }
      return res.(closed := true, reason := ClosedOut);
    }
  }

  lemma ReadsShowTheWorld(cfg: Config, w: World, n: ReadyNode, s: Script)
    requires Truthful(w, s)
    ensures forall c :: IsClosable(cfg, n, s.read, c) ==> InWorld(cfg, w, n, c)
    ensures Uninterrupted(cfg, n, s) ==> forall c :: InWorld(cfg, w, n, c) ==> IsClosable(cfg, n, s.read, c)
  {
  }

  predicate Moves(c: Closable) {
    c.WithCard? && c.lane == Doing
  }

  /** The card needs no move, or its move was confirmed: the label is next. */
  predicate Goes(c: Closable, s: Script) {
    Moves(c) ==> Confirms(s.done, c.card)
  }

  /** GitHub's log after a call. */
  function FinishLogged(log: seq<Write>, cfg: Config, n: ReadyNode, c: Closable, s: Script): seq<Write>
    requires Done in cfg.lanes
  {
    var moved := if Moves(c) then Logged(log, Takes(s.done), SetStatus(c.card, cfg.lanes[Done])) else log;
    Logged(moved, Goes(c, s) && Takes(s.drop), DropReady(n.number))
  }

  lemma FinishIsLogged(log: seq<Write>, cfg: Config, n: ReadyNode, c: Closable, s: Script)
    requires Done in cfg.lanes
    ensures FinishLogged(log, cfg, n, c, s) == log + FinishWrites(cfg, n, c, s)
  {
  }

  function MoveWrites(cfg: Config, c: Closable, s: Script): seq<Write>
    requires Done in cfg.lanes
  {
    if Moves(c) then When(Takes(s.done), SetStatus(c.card, cfg.lanes[Done])) else []
  }

  /** The writes GitHub applies for one call. */
  function FinishWrites(cfg: Config, n: ReadyNode, c: Closable, s: Script): seq<Write>
    requires Done in cfg.lanes
  {
    MoveWrites(cfg, c, s) + When(Goes(c, s) && Takes(s.drop), DropReady(n.number))
  }

  lemma ReplayWhen(cfg: Config, w: World, first: seq<Write>, b: bool, write: Write)
    ensures Replay(cfg, w, first + When(b, write)) ==
            if b then Apply(cfg, Replay(cfg, w, first), write) else Replay(cfg, w, first)
  {
    assert (first + [write])[..|first|] == first && first + [] == first;
  }

  /** The world after the card's move, applied or not. */
  function MovedWorld(cfg: Config, w: World, c: Closable, s: Script): World
    requires Done in cfg.lanes
  {
    if Moves(c) && Takes(s.done) then ToDone(cfg, w, c.card) else w
  }

  lemma MoveIsReplayed(cfg: Config, w: World, c: Closable, s: Script)
    requires Done in cfg.lanes
    ensures Replay(cfg, w, MoveWrites(cfg, c, s)) == MovedWorld(cfg, w, c, s)
  {
    if Moves(c) && Takes(s.done) {
      var move := SetStatus(c.card, cfg.lanes[Done]);
      ReplayWhen(cfg, w, [], true, move);
      assert [] + [move] == [move];
    }
  }

  lemma FinishedWorld(cfg: Config, w: World, n: ReadyNode, c: Closable, s: Script)
    requires Done in cfg.lanes
    ensures Replay(cfg, w, FinishWrites(cfg, n, c, s)) ==
            if Goes(c, s) && Takes(s.drop) then Unlabelled(MovedWorld(cfg, w, c, s), n.number)
            else MovedWorld(cfg, w, c, s)
  {
    MoveIsReplayed(cfg, w, c, s);
    ReplayWhen(cfg, w, MoveWrites(cfg, c, s), Goes(c, s) && Takes(s.drop), DropReady(n.number));
  }

  lemma FinishTakesACloseStep(cfg: Config, w: World, n: ReadyNode, c: Closable, s: Script)
    requires Faithful(cfg.lanes) && Truthful(w, s) && InWorld(cfg, w, n, c)
    ensures CloseEffect(cfg, w, n, c, Replay(cfg, w, FinishWrites(cfg, n, c, s)))
  {
    FinishedWorld(cfg, w, n, c, s);
  }

  lemma UninterruptedCloses(cfg: Config, w: World, n: ReadyNode, c: Closable, s: Script)
    requires Faithful(cfg.lanes) && Truthful(w, s) && InWorld(cfg, w, n, c) && Uninterrupted(cfg, n, s)
    ensures Goes(c, s) && SendingBack.Deleted(s.drop) && ClosedOff(cfg, Replay(cfg, w, FinishWrites(cfg, n, c, s)), n)
  {
    FinishedWorld(cfg, w, n, c, s);
    if c.WithCard? {
      assert OneCard(cfg, n, c.card);
    }
  }

  // ---- any run of calls, each stopping anywhere, among people and agents at the board ----

  /** A call on some pull request, or an event at the board. */
  datatype Act = Call(node: ReadyNode) | OnBoard(e: Event)

  ghost predicate ActStep(cfg: Config, w: World, act: Act, w': World)
    requires Faithful(cfg.lanes)
  {
    match act
    case Call(n) => CloseStep(cfg, w, n, w')
    case OnBoard(e) => w' == w.(cards := Board.Next(cfg, w.cards, e))
  }

  ghost predicate IsRun(cfg: Config, worlds: seq<World>, acts: seq<Act>)
    requires Faithful(cfg.lanes)
  {
    |worlds| == |acts| + 1 && forall i :: 0 <= i < |acts| ==> ActStep(cfg, worlds[i], acts[i], worlds[i + 1])
  }

  /** A person's act at a card of the pull request. */
  ghost predicate ByPerson(cfg: Config, n: ReadyNode, act: Act) {
    act.OnBoard? && act.e.Person? && IsCard(cfg, n, act.e.id)
  }

  /** An agent's move_card of a card of the pull request. */
  ghost predicate ByAgent(cfg: Config, n: ReadyNode, act: Act) {
    act.OnBoard? && act.e.AgentMove? && IsCard(cfg, n, act.e.id)
  }

  /** A close step leaves every card as it was, or takes one from Doing to Done. */
  lemma StepMovesOnlyToDone(cfg: Config, w: World, n: ReadyNode, w': World, id: string)
    requires Faithful(cfg.lanes) && CloseStep(cfg, w, n, w')
    ensures || At(w'.cards, id) == At(w.cards, id)
            || (InLane(cfg, At(w.cards, id), Doing) && InLane(cfg, At(w'.cards, id), Done))
  {
  }

  /** A card in Done stays there but for people; one in Doing goes to Done but for people and agents. */
  lemma ActOnCard(cfg: Config, w: World, act: Act, w': World, n: ReadyNode, id: string)
    requires Faithful(cfg.lanes) && ActStep(cfg, w, act, w') && OneCard(cfg, n, id) && !ByPerson(cfg, n, act)
    ensures InLane(cfg, At(w.cards, id), Done) ==> InLane(cfg, At(w'.cards, id), Done)
    ensures InLane(cfg, At(w.cards, id), Doing) && !ByAgent(cfg, n, act) ==>
              InLane(cfg, At(w'.cards, id), Doing) || InLane(cfg, At(w'.cards, id), Done)
  {
    assert IsCard(cfg, n, id);
    match act
    case Call(call) =>
      StepMovesOnlyToDone(cfg, w, call, w', id);
      if InLane(cfg, At(w.cards, id), Done) && InLane(cfg, At(w.cards, id), Doing) {
        OneLaneAtATime(cfg, At(w.cards, id), Done, Doing);
      }
    case OnBoard(e) =>
      if InLane(cfg, At(w.cards, id), Done) {
        SettledStays(cfg, w.cards, e, id);
      }
  }

  /** The label goes only after the board needs nothing more. */
  lemma LabelGoesLast(cfg: Config, w: World, act: Act, w': World, n: ReadyNode)
    requires Faithful(cfg.lanes) && WellNumbered(w) && ActStep(cfg, w, act, w')
    requires n in w.nodes && n.number in w.ready && n.number !in w'.ready
    ensures n.state == NowMerged && Finished(cfg, w', n)
  {
  }

  lemma StepKeepsFinished(cfg: Config, w: World, act: Act, w': World, n: ReadyNode)
    requires Faithful(cfg.lanes) && ActStep(cfg, w, act, w') && Finished(cfg, w, n) && !ByPerson(cfg, n, act)
    ensures Finished(cfg, w', n)
  {
    if card :| OneCard(cfg, n, card) && InLane(cfg, At(w.cards, card), Done) {
      ActOnCard(cfg, w, act, w', n, card);
    }
  }

  lemma StepKeepsClosing(cfg: Config, w: World, act: Act, w': World, n: ReadyNode)
    requires Faithful(cfg.lanes) && ActStep(cfg, w, act, w') && Closing(cfg, w, n)
    requires !ByPerson(cfg, n, act) && !ByAgent(cfg, n, act)
    ensures Closing(cfg, w', n)
  {
    var c :| InWorld(cfg, w, n, c);
    if c.WithCard? {
      ActOnCard(cfg, w, act, w', n, c.card);
      assert InWorld(cfg, w', n, WithCard(c.card, Doing)) || InWorld(cfg, w', n, WithCard(c.card, Done));
    } else {
      assert InWorld(cfg, w', n, c);
    }
  }

  lemma StepKeepsListing(cfg: Config, w: World, act: Act, w': World)
    requires Faithful(cfg.lanes) && ActStep(cfg, w, act, w')
    ensures w'.nodes == w.nodes && w'.ready <= w.ready
  {
  }

  /** The k-th act took the label, and the board needed nothing more then, nor does it since unless a person
      touched the card. */
  ghost predicate GoneSince(cfg: Config, worlds: seq<World>, acts: seq<Act>, n: ReadyNode, k: nat, end: nat)
    requires |worlds| == |acts| + 1 && k < end <= |acts|
  {
    && n.number in worlds[k].ready && n.number !in worlds[k + 1].ready && Finished(cfg, worlds[k + 1], n)
    && ((forall i :: k < i < end ==> !ByPerson(cfg, n, acts[i])) ==> Finished(cfg, worlds[end], n))
  }

  /** Over any run of calls cut off anywhere, with people and agents at the board in between: a pull request
      that lost its label is merged; when it did, its one card was in Done or it had none; and so it is until
      a person touches that card. */
  lemma {:induction false} UnlabelledIsFinished(cfg: Config, worlds: seq<World>, acts: seq<Act>, n: ReadyNode, end: nat)
    requires Faithful(cfg.lanes) && IsRun(cfg, worlds, acts) && WellNumbered(worlds[0]) && end <= |acts|
    requires n in worlds[0].nodes && n.number in worlds[0].ready
    ensures worlds[end].nodes == worlds[0].nodes
    ensures n.number !in worlds[end].ready ==>
            n.state == NowMerged && exists k :: 0 <= k < end && GoneSince(cfg, worlds, acts, n, k, end)
  {
    if end > 0 {
      var e := end - 1;
      UnlabelledIsFinished(cfg, worlds, acts, n, e);
      StepKeepsListing(cfg, worlds[e], acts[e], worlds[end]);
      if n.number in worlds[e].ready && n.number !in worlds[end].ready {
        LabelGoesLast(cfg, worlds[e], acts[e], worlds[end], n);
        assert GoneSince(cfg, worlds, acts, n, e, end);
      } else if n.number !in worlds[e].ready {
        var k :| 0 <= k < e && GoneSince(cfg, worlds, acts, n, k, e);
        GoneForLonger(cfg, worlds, acts, n, k, e);
      }
    }
  }

  lemma GoneForLonger(cfg: Config, worlds: seq<World>, acts: seq<Act>, n: ReadyNode, k: nat, e: nat)
    requires Faithful(cfg.lanes) && IsRun(cfg, worlds, acts) && k < e < |acts| && GoneSince(cfg, worlds, acts, n, k, e)
    ensures GoneSince(cfg, worlds, acts, n, k, e + 1)
  {
    if forall i :: k < i < e + 1 ==> !ByPerson(cfg, n, acts[i]) {
      StepKeepsFinished(cfg, worlds[e], acts[e], worlds[e + 1], n);
    }
  }

  /** Whatever interrupted calls left behind, a pull request that could be closed still can be while neither
      a person nor an agent moves its card, so the next uninterrupted call finishes it. */
  lemma {:induction false} InterruptedStaysClosable(cfg: Config, worlds: seq<World>, acts: seq<Act>, n: ReadyNode,
                                                    end: nat)
    requires Faithful(cfg.lanes) && IsRun(cfg, worlds, acts) && Closing(cfg, worlds[0], n) && end <= |acts|
    requires forall i :: 0 <= i < end ==> !ByPerson(cfg, n, acts[i]) && !ByAgent(cfg, n, acts[i])
    ensures Closing(cfg, worlds[end], n)
  {
    if end > 0 {
      InterruptedStaysClosable(cfg, worlds, acts, n, end - 1);
      StepKeepsClosing(cfg, worlds[end - 1], acts[end - 1], worlds[end], n);
    }
  }

  /** A close-out moves a card only as the board's close-out event does, for a merged pull request. */
  lemma CloseStepIsABoardEvent(cfg: Config, w: World, n: ReadyNode, w': World) returns (e: Option<Event>)
    requires Faithful(cfg.lanes) && CloseStep(cfg, w, n, w')
    ensures e.None? ==> w'.cards == w.cards
    ensures e.Some? ==>
            e.value.CloseOut? && e.value.merged && n.state == NowMerged && w'.cards == Board.Next(cfg, w.cards, e.value)
  {
    e := None;
    if w'.cards != w.cards {
      var c :| InWorld(cfg, w, n, c) && CloseEffect(cfg, w, n, c, w');
      e := Some(Event.CloseOut(c.card, true, true));
    }
  }
}
