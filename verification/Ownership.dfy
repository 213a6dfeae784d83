/** Numbered items with their timelines, the raw material of a report. Time is an integer
    counted from the zero time, 1 January of year 1 at 00:00 UTC, which is a Monday. */
module Timeline {
  import Sorting

  datatype Kind =
    | Status | Comment | Reopened | Closed | Merged | Labeled | Unlabeled | Review | Commit | Dismissed

  datatype Event = Event(kind: Kind, at: int, project: int, to: string, tag: string)

  /** created is 0, the zero time, when a pull request's opening was not read. */
  datatype Item = Item(
    number: nat, isPR: bool, onBoard: bool, created: int, linked: seq<nat>, events: seq<Event>)

  type Snapshot = map<nat, Item>

  datatype Owner =
    | Triage | Architect | Developer | Reviewer | QA | Merger | Person | Unattributed | Unmapped

  function SortedEvents(es: seq<Event>): seq<Event> {
    Sorting.SortStable(es, (e: Event) => e.at)
  }

  function SortedNumbers(s: Snapshot): (ns: seq<nat>)
    ensures Sorting.Ascending(ns)
    ensures forall n :: n in ns <==> n in s
  {
    AscendingElements(s.Keys)
  }

  function AscendingElements(ns: set<nat>): (out: seq<nat>)
    ensures Sorting.Ascending(out)
    ensures forall n :: n in out <==> n in ns
  {
    if ns == {} then [] else
      LargestExists(ns);
      var top :| top in ns && forall n :: n in ns ==> n <= top;
      AscendingElements(ns - {top}) + [top]
  }

  lemma LargestExists(ns: set<nat>)
    requires ns != {}
    ensures exists top :: top in ns && forall n :: n in ns ==> n <= top
  {
    var top := Largest(ns);
  }

  lemma {:induction false} Largest(ns: set<nat>) returns (top: nat)
    requires ns != {}
    ensures top in ns && forall n :: n in ns ==> n <= top
  {
    var x :| x in ns;
    top := x;
    assert forall n :: n in ns ==> n == x || n in ns - {x};
    if ns - {x} != {} {
      var rest := Largest(ns - {x});
      top := if x < rest then rest else x;
    }
  }
}

/** Who has to move a card at an instant. The ghost functions state the rules; the methods
    compute them by replaying timelines, as the report does. */
module Ownership {
  import opened Common
  import opened Timeline
  import opened Sorting

  const LANE_TRIAGEM := "Triagem"
  const LANE_PREPARADO := "Preparado"
  const LANE_DOING := "Doing"
  const LANE_TRAVADO := "Travado"
  const LANE_DONE := "Done"

  const NEEDS_DESIGN := "factory:needs-design"
  const NEEDS_REVIEW := "factory:needs-review"
  const NEEDS_QA := "factory:needs-qa"
  const CHANGES_REQUESTED := "factory:changes-requested"
  const READY_TO_MERGE := "factory:ready-to-merge"
  const NEEDS_RUNTIME := "factory:needs-runtime"

  function SubStateOwner(tag: string): Option<Owner> {
    if tag == NEEDS_REVIEW then Some(Reviewer)
    else if tag == NEEDS_QA then Some(QA)
    else if tag == CHANGES_REQUESTED then Some(Developer)
    else if tag == READY_TO_MERGE then Some(Merger)
    else None
  }

  // ---------------------------------------------------------------- labels

  /** The rank of a label application: earlier times first, and at one time earlier events first. */
  datatype Mark = Mark(at: int, place: int) {
    predicate Before(o: Mark) {
      at < o.at || (at == o.at && place < o.place)
    }
  }

  predicate TouchesLabel(e: Event, tag: string) {
    (e.kind.Labeled? || e.kind.Unlabeled?) && e.tag == tag
  }

  /** Event i put the label on by t, and no later entry of the timeline touched it by t. */
  ghost predicate CarriedSince(es: seq<Event>, tag: string, t: int, i: nat) {
    && i < |es| && es[i].kind.Labeled? && es[i].tag == tag && es[i].at <= t
    && forall j :: i < j < |es| && TouchesLabel(es[j], tag) ==> es[j].at > t
  }

  ghost predicate Carries(it: Item, tag: string, t: int) {
    exists i: nat :: CarriedSince(it.events, tag, t, i)
  }

  /** on holds exactly the labels carried at t, each marked with the event that last applied it. */
  ghost predicate IsLabelsAt(es: seq<Event>, t: int, on: map<string, Mark>) {
    && (forall tag :: tag in on ==>
          && 1 <= on[tag].place <= |es|
          && CarriedSince(es, tag, t, on[tag].place - 1)
          && on[tag].at == es[on[tag].place - 1].at)
    && (forall tag, i: nat :: CarriedSince(es, tag, t, i) ==> tag in on && on[tag].place == i + 1)
  }

  /** What one entry does to the labels, replayed up to t. */
  function Replay(es: seq<Event>, k: nat, t: int, on: map<string, Mark>): map<string, Mark>
    requires k < |es|
  {
    if es[k].at > t then on
    else if es[k].kind.Labeled? then on[es[k].tag := Mark(es[k].at, k + 1)]
    else if es[k].kind.Unlabeled? then on - {es[k].tag}
    else on
  }

  lemma CarriedOverOneMore(es: seq<Event>, k: nat, t: int, tag: string, i: nat)
    requires k < |es| && i < k
    ensures CarriedSince(es[..k + 1], tag, t, i) <==>
            CarriedSince(es[..k], tag, t, i) && !(TouchesLabel(es[k], tag) && es[k].at <= t)
  {
  }

  lemma ReplayIsCarried(es: seq<Event>, k: nat, t: int, on: map<string, Mark>, tag: string)
    requires k < |es| && IsLabelsAt(es[..k], t, on) && tag in Replay(es, k, t, on)
    ensures var m := Replay(es, k, t, on)[tag];
            1 <= m.place <= k + 1 && CarriedSince(es[..k + 1], tag, t, m.place - 1) && m.at == es[m.place - 1].at
  {
  }

  lemma CarriedIsReplayed(es: seq<Event>, k: nat, t: int, on: map<string, Mark>, tag: string, i: nat)
    requires k < |es| && IsLabelsAt(es[..k], t, on) && CarriedSince(es[..k + 1], tag, t, i)
    ensures tag in Replay(es, k, t, on) && Replay(es, k, t, on)[tag].place == i + 1
  {
    if i < k {
      CarriedOverOneMore(es, k, t, tag, i);
    }
  }

  lemma LabelsAtExtend(es: seq<Event>, k: nat, t: int, on: map<string, Mark>)
    requires k < |es| && IsLabelsAt(es[..k], t, on)
    ensures IsLabelsAt(es[..k + 1], t, Replay(es, k, t, on))
  {
    var post, on' := es[..k + 1], Replay(es, k, t, on);
    forall tag | tag in on'
      ensures 1 <= on'[tag].place <= |post| && CarriedSince(post, tag, t, on'[tag].place - 1)
      ensures on'[tag].at == post[on'[tag].place - 1].at
    {
      ReplayIsCarried(es, k, t, on, tag);
    }
    forall tag, i: nat | CarriedSince(post, tag, t, i) ensures tag in on' && on'[tag].place == i + 1 {
      CarriedIsReplayed(es, k, t, on, tag, i);
    }
  }

  lemma OnWhenCarried(it: Item, t: int, on: map<string, Mark>)
    requires IsLabelsAt(it.events, t, on)
    ensures forall tag :: tag in on <==> Carries(it, tag, t)
  {
  }

  method LabelsAt(it: Item, t: int) returns (on: map<string, Mark>)
    ensures IsLabelsAt(it.events, t, on)
  {
    on := map[];
    for k := 0 to |it.events|
      invariant IsLabelsAt(it.events[..k], t, on)
    {
      var e := it.events[k];
      LabelsAtExtend(it.events, k, t, on);
      if e.at > t {
      } else if e.kind.Labeled? {
        on := on[e.tag := Mark(e.at, k + 1)];
      } else if e.kind.Unlabeled? {
        on := on - {e.tag};
      }
    }
    assert it.events[..|it.events|] == it.events;
  }

  // ------------------------------------------------- linked pull requests

  predicate IsLinkedPR(s: Snapshot, n: nat) {
    n in s && s[n].isPR
  }

  function AddPR(s: Snapshot, n: nat, out: seq<nat>): seq<nat> {
    if IsLinkedPR(s, n) && n !in out then out + [n] else out
  }

  /** Appends the pull requests among the first k of ns that are not listed yet. */
  function AddNamed(s: Snapshot, ns: seq<nat>, k: nat, out: seq<nat>): seq<nat>
    requires k <= |ns|
  {
    if k == 0 then out else AddPR(s, ns[k - 1], AddNamed(s, ns, k - 1, out))
  }

  /** Appends the pull requests among the first k of ns whose own links name c. */
  function AddNaming(s: Snapshot, c: nat, ns: seq<nat>, k: nat, out: seq<nat>): seq<nat>
    requires k <= |ns|
  {
    if k == 0 then out
    else
      var before := AddNaming(s, c, ns, k - 1, out);
      if ns[k - 1] in s && c in s[ns[k - 1]].linked then AddPR(s, ns[k - 1], before) else before
  }

  /** Linked either way: first in the order the card lists them, then in number order. */
  function LinkedPRs(s: Snapshot, c: nat): seq<nat>
    requires c in s
  {
    var all := SortedNumbers(s);
    AddNaming(s, c, all, |all|, AddNamed(s, s[c].linked, |s[c].linked|, []))
  }

  lemma {:induction false} AddNamedMembers(s: Snapshot, ns: seq<nat>, k: nat, out: seq<nat>)
    requires k <= |ns| && NoRepeats(out)
    ensures NoRepeats(AddNamed(s, ns, k, out))
    ensures forall n :: n in AddNamed(s, ns, k, out) <==> n in out || (n in ns[..k] && IsLinkedPR(s, n))
  {
    if k > 0 {
      AddNamedMembers(s, ns, k - 1, out);
      assert ns[..k] == ns[..k - 1] + [ns[k - 1]];
    }
  }

  lemma {:induction false} AddNamingMembers(s: Snapshot, c: nat, ns: seq<nat>, k: nat, out: seq<nat>)
    requires k <= |ns| && NoRepeats(out)
    ensures NoRepeats(AddNaming(s, c, ns, k, out))
    ensures forall n :: n in AddNaming(s, c, ns, k, out) <==>
                          n in out || (n in ns[..k] && IsLinkedPR(s, n) && c in s[n].linked)
  {
    if k > 0 {
      AddNamingMembers(s, c, ns, k - 1, out);
      assert ns[..k] == ns[..k - 1] + [ns[k - 1]];
    }
  }

  /** Each linked pull request is listed once, whichever side holds the link. */
  lemma LinkedPRsMembers(s: Snapshot, c: nat)
    requires c in s
    ensures forall n :: n in LinkedPRs(s, c) <==> IsLinkedPR(s, n) && (n in s[c].linked || c in s[n].linked)
    ensures NoRepeats(LinkedPRs(s, c))
  {
    var named, all := s[c].linked, SortedNumbers(s);
    assert named[..|named|] == named && all[..|all|] == all;
    AddNamedMembers(s, named, |named|, []);
    AddNamingMembers(s, c, all, |all|, AddNamed(s, named, |named|, []));
  }

  /** The list under construction and the set of numbers it already holds. */
  method AddOnce(s: Snapshot, n: nat, out: seq<nat>, seen: set<nat>) returns (out': seq<nat>, seen': set<nat>)
    requires forall m :: m in seen <==> m in out
    ensures out' == AddPR(s, n, out)
    ensures forall m :: m in seen' <==> m in out'
  {
    out', seen' := out, seen;
    if n in s && s[n].isPR && n !in seen {
      seen' := seen + {n};
      out' := out + [n];
    }
  }

  method ListLinkedPRs(s: Snapshot, c: nat) returns (out: seq<nat>)
    requires c in s
    ensures out == LinkedPRs(s, c)
  {
    var seen;
    out, seen := ListNamed(s, s[c].linked);
    out := ListNaming(s, c, SortedNumbers(s), out, seen);
  }

  method ListNamed(s: Snapshot, named: seq<nat>) returns (out: seq<nat>, seen: set<nat>)
    ensures out == AddNamed(s, named, |named|, [])
    ensures forall n :: n in seen <==> n in out
  {
    out, seen := [], {};
    for k := 0 to |named|
      invariant out == AddNamed(s, named, k, [])
      invariant forall n :: n in seen <==> n in out
    {
      out, seen := AddOnce(s, named[k], out, seen);
    }
  }

  method ListNaming(s: Snapshot, c: nat, all: seq<nat>, first: seq<nat>, already: set<nat>) returns (out: seq<nat>)
    requires forall n :: n in already <==> n in first
    requires forall k :: 0 <= k < |all| ==> all[k] in s
    ensures out == AddNaming(s, c, all, |all|, first)
  {
    var seen := already;
    out := first;
    for k := 0 to |all|
      invariant out == AddNaming(s, c, all, k, first)
      invariant forall n :: n in seen <==> n in out
    {
      if c in s[all[k]].linked {
        out, seen := AddOnce(s, all[k], out, seen);
      }
    }
  }

  // -------------------------------------------------- pull request state

  predicate Closes(e: Event) {
    e.kind.Closed? || e.kind.Merged?
  }

  /** Every close or merge by t was followed by t, in time order with ties in timeline order,
      by a reopening. */
  ghost predicate IsOpenAt(it: Item, t: int) {
    var es := it.events;
    forall i :: 0 <= i < |es| && Closes(es[i]) && es[i].at <= t ==>
                  exists j :: 0 <= j < |es| && es[j].kind.Reopened? && es[j].at <= t
                    && Precedes(es, (e: Event) => e.at, i, j)
  }

  method OpenFlag(it: Item, t: int) returns (open: bool)
    ensures open == IsOpenAt(it, t)
  {
    var es := SortedEvents(it.events);
    open := true;
    ghost var last := 0;
    for k := 0 to |es|
      invariant 0 <= last <= k
      invariant open ==> forall a :: 0 <= a < k && Closes(es[a]) && es[a].at <= t ==>
                                       exists b :: a < b < k && es[b].kind.Reopened? && es[b].at <= t
      invariant !open ==> last < k && Closes(es[last]) && es[last].at <= t
      invariant !open ==> forall b :: last < b < k && es[b].at <= t ==> !es[b].kind.Reopened?
    {
      if es[k].at > t {
      } else if Closes(es[k]) {
        open := false;
        last := k;
      } else if es[k].kind.Reopened? {
        open := true;
      }
    }
    SortedReplayDecidesOpen(it, t, open, last);
  }

  /** What the replay of the sorted timeline found is what the unsorted timeline says. */
  lemma SortedReplayDecidesOpen(it: Item, t: int, open: bool, last: nat)
    requires var es := SortedEvents(it.events);
             open ==> forall a :: 0 <= a < |es| && Closes(es[a]) && es[a].at <= t ==>
                                    exists b :: a < b < |es| && es[b].kind.Reopened? && es[b].at <= t
    requires var es := SortedEvents(it.events);
             !open ==>
               && last < |es| && Closes(es[last]) && es[last].at <= t
               && forall b :: last < b < |es| && es[b].at <= t ==> !es[b].kind.Reopened?
    ensures open == IsOpenAt(it, t)
  {
    var raw, es := it.events, SortedEvents(it.events);
    var key := (e: Event) => e.at;
    var idx := SortStableIsStable(raw, key);
    if open {
      forall i | 0 <= i < |raw| && Closes(raw[i]) && raw[i].at <= t
        ensures exists j :: 0 <= j < |raw| && raw[j].kind.Reopened? && raw[j].at <= t && Precedes(raw, key, i, j)
      {
        assert i as nat in idx;
        var a :| 0 <= a < |idx| && idx[a] == i;
        assert es[a] == raw[i];
        var b :| a < b < |es| && es[b].kind.Reopened? && es[b].at <= t;
        assert es[b] == raw[idx[b]] && Precedes(raw, key, idx[a], idx[b]);
      }
    } else {
      var i := idx[last];
      assert es[last] == raw[i];
      forall j | 0 <= j < |raw| && raw[j].kind.Reopened? && raw[j].at <= t
        ensures !Precedes(raw, key, i, j)
      {
        assert j as nat in idx;
        var b :| 0 <= b < |idx| && idx[b] == j;
        assert es[b] == raw[j];
        assert b <= last;
        if b < last {
          assert Precedes(raw, key, idx[b], idx[last]);
        }
      }
    }
  }

  ghost predicate MergedBy(it: Item, t: int) {
    exists i :: 0 <= i < |it.events| && it.events[i].kind.Merged? && it.events[i].at <= t
  }

  method MergedFlag(it: Item, t: int) returns (merged: bool)
    ensures merged == MergedBy(it, t)
  {
    for k := 0 to |it.events|
      invariant forall i :: 0 <= i < k ==> !(it.events[i].kind.Merged? && it.events[i].at <= t)
    {
      if it.events[k].kind.Merged? && it.events[k].at <= t {
        return true;
      }
    }
    return false;
  }

  ghost predicate MergedStillReady(it: Item, t: int) {
    Carries(it, READY_TO_MERGE, t) && MergedBy(it, t)
  }

  // ------------------------------------------------------ sub-state labels

  /** Entry i of the p-th pull request is a recognised sub-state label it carries at t. */
  ghost predicate Names(s: Snapshot, prs: seq<nat>, t: int, p: nat, i: nat) {
    && p < |prs| && prs[p] in s && i < |s[prs[p]].events|
    && SubStateOwner(s[prs[p]].events[i].tag).Some?
    && CarriedSince(s[prs[p]].events, s[prs[p]].events[i].tag, t, i)
  }

  ghost function MarkOf(s: Snapshot, prs: seq<nat>, p: nat, i: nat): Mark
    requires p < |prs| && prs[p] in s && i < |s[prs[p]].events|
  {
    Mark(s[prs[p]].events[i].at, i + 1)
  }

  /** Application i on pull request p outranks every other sub-state label in force; at equal marks
      the earlier pull request wins. Marks at or before the zero mark never win. */
  ghost predicate AppliedLast(s: Snapshot, prs: seq<nat>, t: int, p: nat, i: nat) {
    && Names(s, prs, t, p, i)
    && Mark(0, 0).Before(MarkOf(s, prs, p, i))
    && forall q: nat, j: nat :: Names(s, prs, t, q, j) ==>
                                  MarkOf(s, prs, q, j).Before(MarkOf(s, prs, p, i))
                                    || (MarkOf(s, prs, q, j) == MarkOf(s, prs, p, i) && p <= q)
  }

  ghost function SubState(s: Snapshot, prs: seq<nat>, t: int): Owner {
    if exists p: nat, i: nat :: AppliedLast(s, prs, t, p, i) then
      var p: nat, i: nat :| AppliedLast(s, prs, t, p, i);
      SubStateOwner(s[prs[p]].events[i].tag).value
    else Unattributed
  }

  lemma AppliedLastIsUnique(s: Snapshot, prs: seq<nat>, t: int, p: nat, i: nat, q: nat, j: nat)
    requires AppliedLast(s, prs, t, p, i) && AppliedLast(s, prs, t, q, j)
    ensures p == q && i == j
  {
  }

  lemma AppliedLastDecides(s: Snapshot, prs: seq<nat>, t: int, p: nat, i: nat)
    requires AppliedLast(s, prs, t, p, i)
    ensures SubState(s, prs, t) == SubStateOwner(s[prs[p]].events[i].tag).value
  {
  }

  /** The best mark found among the first pull requests, and the labels of the next one already seen. */
  ghost predicate BestSoFar(s: Snapshot, prs: seq<nat>, t: int, done: nat, seen: set<string>,
                            owner: Owner, latest: Mark, p: nat, i: nat) {
    && (latest == Mark(0, 0) ==> owner == Unattributed)
    && (latest != Mark(0, 0) ==>
          && Mark(0, 0).Before(latest)
          && Names(s, prs, t, p, i) && MarkOf(s, prs, p, i) == latest
          && owner == SubStateOwner(s[prs[p]].events[i].tag).value
          && p <= done)
    && (forall q: nat, j: nat ::
          Names(s, prs, t, q, j) && (q < done || (q == done && s[prs[q]].events[j].tag in seen)) ==>
                                   MarkOf(s, prs, q, j).Before(latest) || (MarkOf(s, prs, q, j) == latest && p <= q))
  }

  lemma BestSoFarStep(s: Snapshot, prs: seq<nat>, t: int, k: nat, on: map<string, Mark>, seen: set<string>,
                      owner: Owner, latest: Mark, p: nat, i: nat, name: string)
    requires k < |prs| && prs[k] in s && IsLabelsAt(s[prs[k]].events, t, on) && name in on
    requires BestSoFar(s, prs, t, k, seen, owner, latest, p, i)
    ensures if SubStateOwner(name).Some? && latest.Before(on[name])
            then BestSoFar(s, prs, t, k, seen + {name}, SubStateOwner(name).value, on[name], k, on[name].place - 1)
            else BestSoFar(s, prs, t, k, seen + {name}, owner, latest, p, i)
  {
    var mark := on[name];
    assert CarriedSince(s[prs[k]].events, name, t, mark.place - 1);
    forall j: nat | Names(s, prs, t, k, j) && s[prs[k]].events[j].tag == name ensures j == mark.place - 1 {
    }
  }

  lemma NextPullRequest(s: Snapshot, prs: seq<nat>, t: int, k: nat, on: map<string, Mark>,
                        owner: Owner, latest: Mark, p: nat, i: nat)
    requires k < |prs| && prs[k] in s && IsLabelsAt(s[prs[k]].events, t, on)
    requires BestSoFar(s, prs, t, k, on.Keys, owner, latest, p, i)
    ensures BestSoFar(s, prs, t, k + 1, {}, owner, latest, p, i)
  {
  }

  lemma BestOfAllIsSubState(s: Snapshot, prs: seq<nat>, t: int, owner: Owner, latest: Mark, p: nat, i: nat)
    requires BestSoFar(s, prs, t, |prs|, {}, owner, latest, p, i)
    ensures owner == SubState(s, prs, t)
  {
    if latest != Mark(0, 0) {
      assert AppliedLast(s, prs, t, p, i);
      AppliedLastDecides(s, prs, t, p, i);
    } else {
      forall q: nat, j: nat ensures !AppliedLast(s, prs, t, q, j) {
      }
    }
  }

  /** Takes the labels of the k-th pull request into account. The map may be walked in any order:
      the choice of the next name is left open. */
  method BestWithLabels(s: Snapshot, prs: seq<nat>, t: int, k: nat, owner0: Owner, latest0: Mark, ghost p0: nat,
                        ghost i0: nat)
    returns (owner: Owner, latest: Mark, ghost p: nat, ghost i: nat)
    requires k < |prs| && prs[k] in s
    requires BestSoFar(s, prs, t, k, {}, owner0, latest0, p0, i0)
    ensures BestSoFar(s, prs, t, k + 1, {}, owner, latest, p, i)
  {
    owner, latest, p, i := owner0, latest0, p0, i0;
    var on := LabelsAt(s[prs[k]], t);
    var left := on.Keys;
    ghost var seen: set<string> := {};
    while left != {}
      invariant left <= on.Keys && seen == on.Keys - left
      invariant BestSoFar(s, prs, t, k, seen, owner, latest, p, i)
      decreases left
    {
      var name :| name in left;
      var mark := on[name];
      BestSoFarStep(s, prs, t, k, on, seen, owner, latest, p, i, name);
      if SubStateOwner(name).Some? && latest.Before(mark) {
        owner, latest := SubStateOwner(name).value, mark;
        p, i := k, mark.place - 1;
      }
      left := left - {name};
      seen := seen + {name};
    }
    assert seen == on.Keys;
    NextPullRequest(s, prs, t, k, on, owner, latest, p, i);
  }

  method SubStateAt(s: Snapshot, prs: seq<nat>, t: int) returns (owner: Owner)
    requires forall n :: n in prs ==> n in s
    ensures owner == SubState(s, prs, t)
  {
    owner := Unattributed;
    var latest := Mark(0, 0);
    ghost var p: nat, i: nat := 0, 0;
    for k := 0 to |prs|
      invariant BestSoFar(s, prs, t, k, {}, owner, latest, p, i)
    {
      owner, latest, p, i := BestWithLabels(s, prs, t, k, owner, latest, p, i);
    }
    BestOfAllIsSubState(s, prs, t, owner, latest, p, i);
  }

  // ---------------------------------------------------------------- owner

  ghost function Keep(ns: seq<nat>, p: nat -> bool): seq<nat> {
    if ns == [] then []
    else Keep(ns[..|ns| - 1], p) + if p(ns[|ns| - 1]) then [ns[|ns| - 1]] else []
  }

  lemma {:induction false} KeepMembers(ns: seq<nat>, p: nat -> bool)
    ensures forall n :: n in Keep(ns, p) <==> n in ns && p(n)
  {
    if ns != [] {
      KeepMembers(ns[..|ns| - 1], p);
      assert ns == ns[..|ns| - 1] + [ns[|ns| - 1]];
    }
  }

  lemma {:induction false} KeepAgrees(ns: seq<nat>, p: nat -> bool, q: nat -> bool)
    requires forall n :: n in ns ==> p(n) == q(n)
    ensures Keep(ns, p) == Keep(ns, q)
  {
    if ns != [] {
      assert ns[|ns| - 1] in ns;
      KeepAgrees(ns[..|ns| - 1], p, q);
    }
  }

  ghost function OpenedBy(s: Snapshot, prs: seq<nat>, t: int): seq<nat> {
    Keep(prs, n => n in s && s[n].created <= t)
  }

  ghost function OpenAt(s: Snapshot, prs: seq<nat>, t: int): seq<nat> {
    Keep(prs, n => n in s && IsOpenAt(s[n], t))
  }

  /** What may decide a Doing card at t: a pull request card itself, otherwise its linked ones by then. */
  ghost function Attempts(s: Snapshot, c: nat, t: int): seq<nat>
    requires c in s
  {
    if s[c].isPR then [c] else OpenedBy(s, LinkedPRs(s, c), t)
  }

  ghost predicate AnyStillReady(s: Snapshot, prs: seq<nat>, t: int) {
    exists n :: n in prs && n in s && MergedStillReady(s[n], t)
  }

  ghost function DoingOwner(s: Snapshot, c: nat, t: int): Owner
    requires c in s
  {
    var prs := Attempts(s, c, t);
    if AnyStillReady(s, prs, t) then Merger
    else if !s[c].isPR && Carries(s[c], NEEDS_RUNTIME, t) then Person
    else if !s[c].isPR && prs == [] then Developer
    else if OpenAt(s, prs, t) == [] then Person
    else SubState(s, OpenAt(s, prs, t), t)
  }

  /** Who had to move card c at t while it was in lane. */
  ghost function OwnerAt(s: Snapshot, c: nat, lane: string, t: int): Owner
    requires c in s
  {
    if lane == LANE_TRIAGEM then (if Carries(s[c], NEEDS_DESIGN, t) then Architect else Triage)
    else if lane == LANE_DOING then DoingOwner(s, c, t)
    else if lane == LANE_PREPARADO || lane == LANE_TRAVADO then Person
    else Unattributed
  }

  method ListOpenedBy(s: Snapshot, prs: seq<nat>, t: int) returns (out: seq<nat>)
    requires forall n :: n in prs ==> n in s
    ensures out == OpenedBy(s, prs, t)
    ensures forall n :: n in out <==> n in prs && s[n].created <= t
  {
    out := [];
    for k := 0 to |prs|
      invariant out == OpenedBy(s, prs[..k], t)
    {
      assert prs[..k + 1][..k] == prs[..k];
      if !(s[prs[k]].created > t) {
        out := out + [prs[k]];
      }
    }
    assert prs[..|prs|] == prs;
    KeepMembers(prs, n => n in s && s[n].created <= t);
  }

  method ListOpenAt(s: Snapshot, prs: seq<nat>, t: int) returns (out: seq<nat>)
    requires forall n :: n in prs ==> n in s
    ensures out == OpenAt(s, prs, t)
    ensures forall n :: n in out <==> n in prs && IsOpenAt(s[n], t)
  {
    out := [];
    for k := 0 to |prs|
      invariant out == OpenAt(s, prs[..k], t)
    {
      assert prs[..k + 1][..k] == prs[..k];
      var open := OpenFlag(s[prs[k]], t);
      if open {
        out := out + [prs[k]];
      }
    }
    assert prs[..|prs|] == prs;
    KeepMembers(prs, n => n in s && IsOpenAt(s[n], t));
  }

  method AnyMergedStillReady(s: Snapshot, prs: seq<nat>, t: int) returns (any: bool)
    requires forall n :: n in prs ==> n in s
    ensures any == AnyStillReady(s, prs, t)
  {
    for k := 0 to |prs|
      invariant forall j :: 0 <= j < k ==> !MergedStillReady(s[prs[j]], t)
    {
      var on := LabelsAt(s[prs[k]], t);
      OnWhenCarried(s[prs[k]], t, on);
      var merged := MergedFlag(s[prs[k]], t);
      if READY_TO_MERGE in on && merged {
        assert prs[k] in prs && MergedStillReady(s[prs[k]], t);
        return true;
      }
    }
    return false;
  }

  method ComputeDoingOwner(s: Snapshot, c: nat, t: int) returns (owner: Owner)
    requires c in s
    ensures owner == DoingOwner(s, c, t)
  {
    var prs := [c];
    if !s[c].isPR {
      var linked := ListLinkedPRs(s, c);
      LinkedPRsMembers(s, c);
      prs := ListOpenedBy(s, linked, t);
    }
    var ready := AnyMergedStillReady(s, prs, t);
    if ready {
      return Merger;
    }
    if !s[c].isPR {
      var on := LabelsAt(s[c], t);
      OnWhenCarried(s[c], t, on);
      if NEEDS_RUNTIME in on {
        return Person;
      }
      if |prs| == 0 {
        return Developer;
      }
    }
    var open := ListOpenAt(s, prs, t);
    if |open| == 0 {
      return Person;
    }
    owner := SubStateAt(s, open, t);
  }

  method ComputeOwner(s: Snapshot, c: nat, lane: string, t: int) returns (owner: Owner)
    requires c in s
    ensures owner == OwnerAt(s, c, lane, t)
  {
    if lane == LANE_TRIAGEM {
      var on := LabelsAt(s[c], t);
      OnWhenCarried(s[c], t, on);
      return if NEEDS_DESIGN in on then Architect else Triage;
    } else if lane == LANE_DOING {
      owner := ComputeDoingOwner(s, c, t);
    } else if lane == LANE_PREPARADO || lane == LANE_TRAVADO {
      return Person;
    } else {
      return Unattributed;
    }
  }

  // ------------------------------------------------- ownership over time

  predicate ChangesHands(e: Event) {
    e.kind.Labeled? || e.kind.Unlabeled? || e.kind.Closed? || e.kind.Merged? || e.kind.Reopened?
  }

  /** Nothing on the item that can change hands happened in (t, u]. */
  ghost predicate Quiet(it: Item, t: int, u: int) {
    forall i :: 0 <= i < |it.events| && ChangesHands(it.events[i]) ==> !(t < it.events[i].at <= u)
  }

  /** Nothing on card c or on any of these pull requests that decides who owns c happened in (t, u]. */
  ghost predicate Settled(s: Snapshot, c: nat, prs: seq<nat>, t: int, u: int)
    requires c in s
  {
    && Quiet(s[c], t, u)
    && forall n :: n in prs && n in s && n != c ==> Quiet(s[n], t, u) && !(t < s[n].created <= u)
  }

  lemma QuietKeepsItem(it: Item, t: int, u: int)
    requires t <= u && Quiet(it, t, u)
    ensures forall tag, i: nat :: CarriedSince(it.events, tag, t, i) <==> CarriedSince(it.events, tag, u, i)
    ensures forall tag :: Carries(it, tag, t) <==> Carries(it, tag, u)
    ensures IsOpenAt(it, t) <==> IsOpenAt(it, u)
    ensures MergedBy(it, t) <==> MergedBy(it, u)
  {
  }

  lemma SubStateSettled(s: Snapshot, prs: seq<nat>, t: int, u: int)
    requires t <= u && forall n :: n in prs ==> n in s && Quiet(s[n], t, u)
    ensures SubState(s, prs, t) == SubState(s, prs, u)
  {
    forall p: nat, i: nat ensures Names(s, prs, t, p, i) <==> Names(s, prs, u, p, i) {
      if p < |prs| {
        assert prs[p] in prs;
        QuietKeepsItem(s[prs[p]], t, u);
      }
    }
    forall p: nat, i: nat ensures AppliedLast(s, prs, t, p, i) <==> AppliedLast(s, prs, u, p, i) {
    }
    if p: nat, i: nat :| AppliedLast(s, prs, t, p, i) {
      AppliedLastDecides(s, prs, t, p, i);
      AppliedLastDecides(s, prs, u, p, i);
    }
  }

  lemma AttemptsSettled(s: Snapshot, c: nat, t: int, u: int)
    requires c in s && t <= u && Settled(s, c, LinkedPRs(s, c), t, u)
    ensures Attempts(s, c, t) == Attempts(s, c, u)
    ensures forall n :: n in Attempts(s, c, t) ==> n in s && Quiet(s[n], t, u)
  {
    LinkedPRsMembers(s, c);
    if !s[c].isPR {
      KeepAgrees(LinkedPRs(s, c), n => n in s && s[n].created <= t, n => n in s && s[n].created <= u);
      KeepMembers(LinkedPRs(s, c), n => n in s && s[n].created <= t);
    }
  }

  lemma PullRequestsSettled(s: Snapshot, prs: seq<nat>, t: int, u: int)
    requires t <= u && forall n :: n in prs ==> n in s && Quiet(s[n], t, u)
    ensures AnyStillReady(s, prs, t) == AnyStillReady(s, prs, u)
    ensures OpenAt(s, prs, t) == OpenAt(s, prs, u)
    ensures SubState(s, OpenAt(s, prs, t), t) == SubState(s, OpenAt(s, prs, u), u)
  {
    forall n | n in prs
      ensures MergedStillReady(s[n], t) <==> MergedStillReady(s[n], u)
      ensures IsOpenAt(s[n], t) <==> IsOpenAt(s[n], u)
    {
      QuietKeepsItem(s[n], t, u);
    }
    KeepAgrees(prs, n => n in s && IsOpenAt(s[n], t), n => n in s && IsOpenAt(s[n], u));
    KeepMembers(prs, n => n in s && IsOpenAt(s[n], t));
    SubStateSettled(s, OpenAt(s, prs, t), t, u);
  }

  lemma DoingSettled(s: Snapshot, c: nat, t: int, u: int)
    requires c in s && t <= u && Settled(s, c, LinkedPRs(s, c), t, u)
    requires Carries(s[c], NEEDS_RUNTIME, t) == Carries(s[c], NEEDS_RUNTIME, u)
    ensures DoingOwner(s, c, t) == DoingOwner(s, c, u)
  {
    AttemptsSettled(s, c, t, u);
    PullRequestsSettled(s, Attempts(s, c, t), t, u);
  }

  /** While nothing that decides ownership happens, the owner does not change. */
  lemma OwnerSettled(s: Snapshot, c: nat, lane: string, t: int, u: int)
    requires c in s && t <= u && Settled(s, c, LinkedPRs(s, c), t, u)
    ensures OwnerAt(s, c, lane, t) == OwnerAt(s, c, lane, u)
  {
    QuietKeepsItem(s[c], t, u);
    DoingSettled(s, c, t, u);
  }

  /** No rule names an owner outside the report's rows. */
  lemma OwnerIsReported(s: Snapshot, c: nat, lane: string, t: int)
    requires c in s
    ensures OwnerAt(s, c, lane, t) != Unmapped
  {
  }
}
