/** Stretches of time with one owner each, laid end to end. */
module Tiling {
  import opened Timeline

  datatype Segment = Segment(owner: Owner, dur: int)

  /** The time the first k segments cover. */
  function Covered(segs: seq<Segment>, k: nat): int
    requires k <= |segs|
  {
    if k == 0 then 0 else Covered(segs, k - 1) + segs[k - 1].dur
  }

  /** The k-th segment, laid from start, holds t. */
  predicate Holds(segs: seq<Segment>, start: int, k: nat, t: int)
    requires k < |segs|
  {
    start + Covered(segs, k) <= t < start + Covered(segs, k) + segs[k].dur
  }

  /** The segments tile [start, end) without gap or overlap, each instant belongs to a segment
      carrying the owner of that instant, and neighbours have different owners. */
  ghost predicate Tiles(owner: int -> Owner, start: int, end: int, segs: seq<Segment>) {
    && start + Covered(segs, |segs|) == end
    && (forall k :: 0 <= k < |segs| ==> segs[k].dur > 0)
    && (forall k: nat, t :: k < |segs| && Holds(segs, start, k, t) ==> segs[k].owner == owner(t))
    && (forall k :: 0 < k < |segs| ==> segs[k - 1].owner != segs[k].owner)
  }

  lemma {:induction false} CoveredOfPrefix(a: seq<Segment>, b: seq<Segment>, k: nat)
    requires k <= |a| && k <= |b| && forall j :: 0 <= j < k ==> a[j] == b[j]
    ensures Covered(a, k) == Covered(b, k)
  {
    if k > 0 {
      CoveredOfPrefix(a, b, k - 1);
    }
  }

  lemma {:induction false} CoveredGrows(segs: seq<Segment>, j: nat, k: nat)
    requires j <= k <= |segs| && forall i :: 0 <= i < |segs| ==> segs[i].dur > 0
    ensures Covered(segs, j) + (k - j) <= Covered(segs, k)
  {
    if j < k {
      CoveredGrows(segs, j, k - 1);
    }
  }

  /** Every instant of a tiled stay is in exactly one segment, and that segment names its owner. */
  lemma EveryInstantHasItsOwner(owner: int -> Owner, start: int, end: int, segs: seq<Segment>, t: int)
    returns (k: nat)
    requires Tiles(owner, start, end, segs) && start <= t < end
    ensures k < |segs| && Holds(segs, start, k, t) && segs[k].owner == owner(t)
    ensures forall j: nat :: j < |segs| && Holds(segs, start, j, t) ==> j == k
  {
    k := 0;
    while !(t < start + Covered(segs, k + 1))
      invariant k < |segs| && start + Covered(segs, k) <= t
      decreases |segs| - k
    {
      k := k + 1;
    }
    assert Holds(segs, start, k, t);
    forall j: nat | j < |segs| && Holds(segs, start, j, t) ensures j == k {
      if j < k {
        CoveredGrows(segs, j + 1, k);
      } else if k < j {
        CoveredGrows(segs, k + 1, j);
      }
    }
  }

  /** A tiling is determined by the owner at each instant: there is only one. */
  lemma TilingIsUnique(owner: int -> Owner, start: int, end: int, a: seq<Segment>, b: seq<Segment>)
    requires Tiles(owner, start, end, a) && Tiles(owner, start, end, b)
    ensures a == b
  {
    if |a| <= |b| {
      SamePrefix(owner, start, end, a, b, |a|);
      CoveredOfPrefix(a, b, |a|);
      CoveredGrows(b, |a|, |b|);
    } else {
      SamePrefix(owner, start, end, b, a, |b|);
      CoveredOfPrefix(b, a, |b|);
      CoveredGrows(a, |b|, |a|);
    }
  }

  lemma {:induction false} SamePrefix(owner: int -> Owner, start: int, end: int, a: seq<Segment>, b: seq<Segment>,
                                      k: nat)
    requires Tiles(owner, start, end, a) && Tiles(owner, start, end, b) && k <= |a| <= |b|
    ensures forall j :: 0 <= j < k ==> a[j] == b[j]
  {
    if k > 0 {
      SamePrefix(owner, start, end, a, b, k - 1);
      CoveredOfPrefix(a, b, k - 1);
      var at := start + Covered(a, k - 1);
      assert Holds(a, start, k - 1, at) && Holds(b, start, k - 1, at);
      if a[k - 1].dur < b[k - 1].dur {
        NeverLonger(owner, start, end, a, b, k - 1);
      } else if b[k - 1].dur < a[k - 1].dur {
        NeverLonger(owner, start, end, b, a, k - 1);
      }
    }
  }

  lemma NeverLonger(owner: int -> Owner, start: int, end: int, a: seq<Segment>, b: seq<Segment>, k: nat)
    requires Tiles(owner, start, end, a) && Tiles(owner, start, end, b)
    requires k < |a| && k < |b| && Covered(a, k) == Covered(b, k) && a[k].owner == b[k].owner
    ensures a[k].dur >= b[k].dur
  {
    if a[k].dur < b[k].dur {
      CoveredGrows(b, k + 1, |b|);
      var at := start + Covered(a, k + 1);
      assert Holds(a, start, k + 1, at) && Holds(b, start, k, at);
    }
  }

  /** Adds a stretch of one owner, extending the last segment when it is the same owner's. */
  function Extend(segs: seq<Segment>, owner: Owner, d: int): seq<Segment> {
    var n := |segs|;
    if n > 0 && segs[n - 1].owner == owner then segs[n - 1 := Segment(owner, segs[n - 1].dur + d)]
    else segs + [Segment(owner, d)]
  }

  ghost predicate OneOwner(owner: int -> Owner, a: int, b: int) {
    forall t :: a <= t < b ==> owner(t) == owner(a)
  }

  lemma ExtendTiles(owner: int -> Owner, start: int, a: int, b: int, segs: seq<Segment>)
    requires Tiles(owner, start, a, segs) && a < b && OneOwner(owner, a, b)
    ensures Tiles(owner, start, b, Extend(segs, owner(a), b - a))
  {
    var more := Extend(segs, owner(a), b - a);
    var last := |more| - 1;
    forall k: nat | k <= last ensures Covered(more, k) == Covered(segs, k) {
      CoveredOfPrefix(more, segs, k);
    }
    assert Covered(more, |more|) == Covered(more, last) + more[last].dur;
    forall k: nat, t | k < |more| && Holds(more, start, k, t) ensures more[k].owner == owner(t) {
      HeldBefore(owner, start, a, b, segs, more, k, t);
    }
  }

  lemma HeldBefore(owner: int -> Owner, start: int, a: int, b: int, segs: seq<Segment>, more: seq<Segment>, k: nat,
                   t: int)
    requires Tiles(owner, start, a, segs) && a < b
    requires OneOwner(owner, a, b)
    requires more == Extend(segs, owner(a), b - a)
    requires k < |more| && Holds(more, start, k, t) && Covered(more, k) == Covered(segs, k)
    ensures more[k].owner == owner(t)
  {
    if k < |segs| && Holds(segs, start, k, t) {
      assert more[k].owner == segs[k].owner;
    } else {
      assert k == |more| - 1;
      assert a <= t < b;
    }
  }
}

/** Lane stays read from a card's status moves, and each closed stay cut into stretches
    with one owner each. */
module Stays {
  import opened Timeline
  import opened Tiling
  import opened Ownership
  import opened Sorting

  /** A stay without a next move is open, ends at zero and is not segmented. */
  datatype Stay = Stay(card: nat, lane: string, start: int, end: int, open: bool, segments: seq<Segment>)

  ghost function OwnerOver(s: Snapshot, c: nat, lane: string): int -> Owner
    requires c in s
  {
    t => OwnerAt(s, c, lane, t)
  }

  // ------------------------------------------------------------- segments

  predicate Inside(start: int, end: int, t: int) {
    start < t < end
  }

  /** The cuts hold the ends of the stay and every instant inside it at which the item can change hands. */
  ghost predicate CutsItem(s: Snapshot, c: nat, n: nat, start: int, end: int, cuts: seq<int>, events: nat)
    requires n in s && events <= |s[n].events|
  {
    && (n != c && Inside(start, end, s[n].created) ==> s[n].created in cuts)
    && forall i :: 0 <= i < events && ChangesHands(s[n].events[i]) && Inside(start, end, s[n].events[i].at) ==>
                     s[n].events[i].at in cuts
  }

  ghost predicate Bounded(cuts: seq<int>, start: int, end: int) {
    start in cuts && end in cuts && forall k :: 0 <= k < |cuts| ==> start <= cuts[k] <= end
  }

  method CutItem(s: Snapshot, c: nat, n: nat, start: int, end: int, cuts0: seq<int>) returns (cuts: seq<int>)
    requires n in s && Bounded(cuts0, start, end)
    ensures Bounded(cuts, start, end) && CutsItem(s, c, n, start, end, cuts, |s[n].events|)
    ensures forall x :: x in cuts0 ==> x in cuts
  {
    cuts := cuts0;
    if n != c && Inside(start, end, s[n].created) {
      cuts := cuts + [s[n].created];
    }
    for k := 0 to |s[n].events|
      invariant Bounded(cuts, start, end) && CutsItem(s, c, n, start, end, cuts, k)
      invariant forall x :: x in cuts0 ==> x in cuts
    {
      var e := s[n].events[k];
      if ChangesHands(e) && Inside(start, end, e.at) {
        cuts := cuts + [e.at];
      }
    }
  }

  ghost predicate CutsAll(s: Snapshot, c: nat, prs: seq<nat>, start: int, end: int, cuts: seq<int>) {
    && Bounded(cuts, start, end) && Ascending(cuts)
    && forall n :: n in s && (n == c || n in prs) ==> CutsItem(s, c, n, start, end, cuts, |s[n].events|)
  }

  method Cuts(s: Snapshot, c: nat, prs: seq<nat>, start: int, end: int) returns (cuts: seq<int>)
    requires c in s && start <= end && forall n :: n in prs ==> n in s
    ensures CutsAll(s, c, prs, start, end, cuts)
  {
    cuts := [start, end];
    var items := [c] + prs;
    assert forall n :: n in items <==> n == c || n in prs;
    for k := 0 to |items|
      invariant Bounded(cuts, start, end)
      invariant forall j :: 0 <= j < k ==>
                items[j] in s && CutsItem(s, c, items[j], start, end, cuts, |s[items[j]].events|)
    {
      assert items[k] in items;
      cuts := CutItem(s, c, items[k], start, end, cuts);
    }
    ghost var raw := cuts;
    SortedOnceIsTheSet(cuts);
    cuts := SortedOnce(cuts);
    forall k | 0 <= k < |cuts| ensures start <= cuts[k] <= end {
      var x := cuts[k];
      assert x in cuts && x in raw;
    }
    forall n | n in items ensures CutsItem(s, c, n, start, end, cuts, |s[n].events|) {
      var j :| 0 <= j < |items| && items[j] == n;
    }
  }

  /** Between two neighbouring cuts nothing that decides ownership happens. */
  lemma SettledBetweenCuts(s: Snapshot, c: nat, prs: seq<nat>, start: int, end: int, cuts: seq<int>, k: nat, t: int)
    requires c in s && CutsAll(s, c, prs, start, end, cuts) && k + 1 < |cuts|
    requires cuts[k] <= t < cuts[k + 1]
    ensures Settled(s, c, prs, cuts[k], t)
  {
    forall x | cuts[k] < x <= t ensures x !in cuts && Inside(start, end, x) {
    }
    forall n | n in s && (n == c || n in prs)
      ensures Quiet(s[n], cuts[k], t) && (n != c ==> !(cuts[k] < s[n].created <= t))
    {
      assert CutsItem(s, c, n, start, end, cuts, |s[n].events|);
    }
  }

  lemma OneOwnerBetweenCuts(s: Snapshot, c: nat, lane: string, start: int, end: int, cuts: seq<int>)
    requires c in s && CutsAll(s, c, LinkedPRs(s, c), start, end, cuts)
    ensures forall k :: 0 <= k < |cuts| - 1 ==> OneOwner(OwnerOver(s, c, lane), cuts[k], cuts[k + 1])
  {
    forall k, t | 0 <= k < |cuts| - 1 && cuts[k] <= t < cuts[k + 1]
      ensures OwnerAt(s, c, lane, t) == OwnerAt(s, c, lane, cuts[k])
    {
      SettledBetweenCuts(s, c, LinkedPRs(s, c), start, end, cuts, k, t);
      OwnerSettled(s, c, lane, cuts[k], t);
    }
  }

  lemma CutsRunFromStartToEnd(cuts: seq<int>, start: int, end: int)
    requires Bounded(cuts, start, end) && Ascending(cuts)
    ensures |cuts| > 0 && cuts[0] == start && cuts[|cuts| - 1] == end
  {
  }

  method OwnerFrom(s: Snapshot, c: nat, lane: string, t: int) returns (owner: Owner)
    requires c in s
    ensures owner == OwnerOver(s, c, lane)(t)
  {
    owner := ComputeOwner(s, c, lane, t);
  }

  /** One segment per piece, or one longer segment where the owner stays the same. */
  method SegmentsBetween(s: Snapshot, c: nat, lane: string, start: int, end: int, cuts: seq<int>)
    returns (out: seq<Segment>)
    requires c in s && |cuts| > 0 && cuts[0] == start && cuts[|cuts| - 1] == end && Ascending(cuts)
    requires forall k :: 0 <= k < |cuts| - 1 ==> OneOwner(OwnerOver(s, c, lane), cuts[k], cuts[k + 1])
    ensures Tiles(OwnerOver(s, c, lane), start, end, out)
  {
    out := [];
    var i := 0;
    while i + 1 < |cuts|
      invariant 0 <= i < |cuts| && Tiles(OwnerOver(s, c, lane), start, cuts[i], out)
    {
      var owner := OwnerFrom(s, c, lane, cuts[i]);
      var d := cuts[i + 1] - cuts[i];
      ExtendTiles(OwnerOver(s, c, lane), start, cuts[i], cuts[i + 1], out);
      out := Extend(out, owner, d);
      i := i + 1;
    }
  }

  /** Cuts a stay up and merges neighbours of one owner. */
  method Segments(s: Snapshot, c: nat, lane: string, start: int, end: int) returns (out: seq<Segment>)
    requires c in s && start <= end
    ensures Tiles(OwnerOver(s, c, lane), start, end, out)
  {
    var prs := ListLinkedPRs(s, c);
    LinkedPRsMembers(s, c);
    var cuts := Cuts(s, c, prs, start, end);
    CutsRunFromStartToEnd(cuts, start, end);
    OneOwnerBetweenCuts(s, c, lane, start, end, cuts);
    out := SegmentsBetween(s, c, lane, start, end, cuts);
  }

  // ---------------------------------------------------------------- stays

  predicate IsMove(e: Event, project: int) {
    e.kind.Status? && e.project == project
  }

  function Moves(es: seq<Event>, project: int): seq<Event> {
    if es == [] then []
    else Moves(es[..|es| - 1], project) + if IsMove(es[|es| - 1], project) then [es[|es| - 1]] else []
  }

  method StatusMoves(it: Item, project: int) returns (out: seq<Event>)
    ensures out == SortedEvents(Moves(it.events, project))
    ensures forall a, b :: 0 <= a < b < |out| ==> out[a].at <= out[b].at
  {
    out := [];
    for k := 0 to |it.events|
      invariant out == Moves(it.events[..k], project)
    {
      assert it.events[..k + 1][..k] == it.events[..k];
      if it.events[k].kind.Status? && it.events[k].project == project {
        out := out + [it.events[k]];
      }
    }
    assert it.events[..|it.events|] == it.events;
    ghost var idx := SortStableIsStable(out, (e: Event) => e.at);
    out := SortedEvents(out);
  }

  predicate Counts(m: Event) {
    m.to != "" && m.to != LANE_DONE
  }

  /** What the first k sorted moves say of the card's stays, before they are cut into segments:
      each lane other than Done from the move into it to the next move. */
  function Visits(c: nat, moves: seq<Event>, k: nat): seq<Stay>
    requires k <= |moves|
  {
    if k == 0 then []
    else
      var m := moves[k - 1];
      Visits(c, moves, k - 1) +
      if !Counts(m) then []
      else if k == |moves| then [Stay(c, m.to, m.at, 0, true, [])]
      else [Stay(c, m.to, m.at, moves[k].at, false, [])]
  }

  /** A stay as the moves give it, with the segments the owners give it. */
  ghost predicate Segmented(s: Snapshot, visit: Stay, st: Stay)
    requires visit.card in s
  {
    && st == visit.(segments := st.segments)
    && (st.open ==> st.segments == [])
    && (!st.open ==> st.start <= st.end && Tiles(OwnerOver(s, st.card, st.lane), st.start, st.end, st.segments))
  }

  ghost predicate AllSegmented(s: Snapshot, visits: seq<Stay>, stays: seq<Stay>) {
    |visits| == |stays| && forall k :: 0 <= k < |stays| ==> visits[k].card in s && Segmented(s, visits[k], stays[k])
  }

  lemma SegmentedAppend(s: Snapshot, visits: seq<Stay>, stays: seq<Stay>, moreVisits: seq<Stay>, more: seq<Stay>)
    requires AllSegmented(s, visits, stays) && AllSegmented(s, moreVisits, more)
    ensures AllSegmented(s, visits + moreVisits, stays + more)
  {
  }

  method CardStays(s: Snapshot, c: nat, project: int) returns (out: seq<Stay>)
    requires c in s
    ensures var moves := SortedEvents(Moves(s[c].events, project));
            AllSegmented(s, Visits(c, moves, |moves|), out)
  {
    var moves := StatusMoves(s[c], project);
    out := [];
    for i := 0 to |moves|
      invariant AllSegmented(s, Visits(c, moves, i), out)
    {
      var m := moves[i];
      if m.to == "" || m.to == LANE_DONE {
        continue;
      }
      var st := Stay(c, m.to, m.at, 0, i == |moves| - 1, []);
      ghost var visit := if st.open then st else st.(end := moves[i + 1].at);
      if !st.open {
        var segs := Segments(s, c, st.lane, m.at, moves[i + 1].at);
        st := st.(end := moves[i + 1].at, segments := segs);
      }
      assert Segmented(s, visit, st);
      SegmentedAppend(s, Visits(c, moves, i), out, [visit], [st]);
      out := out + [st];
    }
  }

  /** Every board card's visits, cards in number order. */
  function BoardVisits(s: Snapshot, project: int, ns: seq<nat>): seq<Stay> {
    if ns == [] then []
    else
      var n := ns[|ns| - 1];
      BoardVisits(s, project, ns[..|ns| - 1]) +
      if n in s && s[n].onBoard then
        var moves := SortedEvents(Moves(s[n].events, project));
        Visits(n, moves, |moves|)
      else []
  }

  /** A stay correctly cut, whatever its segments. */
  ghost predicate GoodStay(s: Snapshot, st: Stay) {
    st.card in s && Segmented(s, st.(segments := []), st)
  }

  lemma SegmentedIsGood(s: Snapshot, visits: seq<Stay>, stays: seq<Stay>)
    requires AllSegmented(s, visits, stays)
    ensures forall k :: 0 <= k < |stays| ==> GoodStay(s, stays[k])
  {
  }

  method LaneStays(s: Snapshot, project: int) returns (out: seq<Stay>)
    ensures AllSegmented(s, BoardVisits(s, project, SortedNumbers(s)), out)
    ensures forall k :: 0 <= k < |out| ==> GoodStay(s, out[k])
  {
    var ns := SortedNumbers(s);
    out := [];
    for i := 0 to |ns|
      invariant AllSegmented(s, BoardVisits(s, project, ns[..i]), out)
    {
      assert ns[i] in ns;
      assert ns[..i + 1][..i] == ns[..i];
      if s[ns[i]].onBoard {
        var more := CardStays(s, ns[i], project);
        ghost var moves := SortedEvents(Moves(s[ns[i]].events, project));
        SegmentedAppend(s, BoardVisits(s, project, ns[..i]), out, Visits(ns[i], moves, |moves|), more);
        out := out + more;
      }
    }
    assert ns[..|ns|] == ns;
    SegmentedIsGood(s, BoardVisits(s, project, ns), out);
  }
}
