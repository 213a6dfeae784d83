/** Weeks as multiples of a number of seconds, counted from the zero time, a Monday. */
module Weeks {
  const DAY := 86_400
  const WEEK := 7 * DAY

  /** The Monday on or before a day, days counted from the zero time's. */
  function MondayOf(day: int): (monday: int)
    ensures monday % 7 == 0 && monday <= day < monday + 7
  {
    var weekday := (day + 1) % 7; // Sunday 0
    var back := (weekday + 6) % 7;
    day - back
  }

  /** The Monday 00:00 that opens t's week. */
  function WeekStart(t: int): (monday: int)
    ensures monday % WEEK == 0 && monday <= t < monday + WEEK
  {
    MondayOf(t / DAY) * DAY
  }

  lemma WeekStartIsTheOnlyMonday(t: int, monday: int)
    requires monday % WEEK == 0 && monday <= t < monday + WEEK
    ensures monday == WeekStart(t)
  {
  }

  datatype Window = Window(start: int, end: int) {
    ghost predicate Aligned() {
      start % WEEK == 0 && end % WEEK == 0
    }
    predicate Contains(t: int) {
      start <= t < end
    }
  }

  /** A positive count fixes how many weeks there are; otherwise the current week is the last. */
  function NewWindow(since: int, weeks: int, now: int): (w: Window)
    ensures w.Aligned() && w.start <= since < w.start + WEEK
  {
    var start := WeekStart(since);
    WholeWeeks(start, weeks);
    WholeWeeks(WeekStart(now), 1);
    Window(start, if weeks > 0 then start + weeks * WEEK else WeekStart(now) + WEEK)
  }

  lemma WholeWeeks(start: int, weeks: int)
    requires start % WEEK == 0
    ensures (start + weeks * WEEK) % WEEK == 0
  {
  }

  /** All Mondays of the window in falling order. */
  ghost predicate IsWeeks(w: Window, weeks: seq<int>) {
    && (forall k :: 0 <= k < |weeks| ==> weeks[k] == w.end - (k + 1) * WEEK && weeks[k] >= w.start)
    && w.end - (|weeks| + 1) * WEEK < w.start
  }

  method ListWeeks(w: Window) returns (out: seq<int>)
    ensures IsWeeks(w, out)
  {
    out := [];
    var s := w.end - WEEK;
    while s >= w.start
      invariant s == w.end - (|out| + 1) * WEEK
      invariant forall k :: 0 <= k < |out| ==> out[k] == w.end - (k + 1) * WEEK && out[k] >= w.start
      decreases s - w.start + WEEK
    {
      out := out + [s];
      s := s - WEEK;
    }
  }

  /** A Monday of the window is listed, and only once. */
  lemma WeekIsListed(w: Window, weeks: seq<int>, monday: int) returns (k: nat)
    requires w.Aligned() && IsWeeks(w, weeks) && monday % WEEK == 0 && w.Contains(monday)
    ensures k < |weeks| && weeks[k] == monday
  {
    var n := w.end / WEEK - monday / WEEK;
    assert w.end == w.end / WEEK * WEEK && monday == monday / WEEK * WEEK;
    k := n - 1;
  }

  /** The week an instant of the window falls in is one of the window's. */
  lemma WeekStaysInWindow(w: Window, t: int)
    requires w.Aligned() && w.Contains(t)
    ensures w.Contains(WeekStart(t))
  {
  }
}

/** The report's lane and role rows. */
module Report {
  import opened Common
  import opened Timeline
  import opened Tiling
  import opened Ownership
  import opened Stays
  import opened Sorting
  import opened Weeks

  // ----------------------------------------------------------- percentile

  ghost function AtMost(d: seq<int>, v: int): nat {
    if d == [] then 0 else AtMost(d[..|d| - 1], v) + if d[|d| - 1] <= v then 1 else 0
  }

  /** v occurs, p percent of d do not exceed it, and no smaller element does as much. */
  ghost predicate IsNearestRank(d: seq<int>, p: int, v: int) {
    && (exists k :: 0 <= k < |d| && d[k] == v)
    && AtMost(d, v) * 100 >= p * |d|
    && forall k :: 0 <= k < |d| && d[k] < v ==> AtMost(d, d[k]) * 100 < p * |d|
  }

  lemma {:induction false} InsertCounts(x: int, sorted: seq<int>, v: int)
    ensures AtMost(Insert(x, (y: int) => y, sorted), v) == AtMost(sorted, v) + if x <= v then 1 else 0
  {
    var n := |sorted| - 1;
    if sorted == [] || sorted[n] <= x {
      assert (sorted + [x])[..|sorted|] == sorted;
    } else {
      InsertCounts(x, sorted[..n], v);
      var rest := Insert(x, (y: int) => y, sorted[..n]);
      assert (rest + [sorted[n]])[..|rest|] == rest;
    }
  }

  lemma {:induction false} SortCounts(d: seq<int>, v: int)
    ensures AtMost(SortStable(d, (y: int) => y), v) == AtMost(d, v)
  {
    if d != [] {
      SortCounts(d[..|d| - 1], v);
      InsertCounts(d[|d| - 1], SortStable(d[..|d| - 1], (y: int) => y), v);
    }
  }

  lemma {:induction false} SortedCountsSplit(s: seq<int>, k: nat, v: int)
    requires k <= |s| && forall a, b :: 0 <= a < b < |s| ==> s[a] <= s[b]
    ensures k > 0 && s[k - 1] <= v ==> AtMost(s, v) >= k
    ensures k < |s| && v < s[k] ==> AtMost(s, v) <= k
  {
    if s != [] {
      var n := |s| - 1;
      SortedCountsSplit(s[..n], if k <= n then k else n, v);
      if k == |s| && n > 0 && s[n] <= v {
        assert s[n - 1] <= v;
      }
      AtMostIsBounded(s[..n], v);
    }
  }

  lemma {:induction false} AtMostIsBounded(d: seq<int>, v: int)
    ensures AtMost(d, v) <= |d|
  {
    if d != [] {
      AtMostIsBounded(d[..|d| - 1], v);
    }
  }

  /** None stands for the index out of range a percentage over 100 runs into. A negative percentage has a
      rank below one whichever way the division rounds. */
  method Percentile(d: seq<int>, p: int) returns (v: Option<int>)
    ensures v.None? <==> d != [] && p > 100
    ensures d == [] ==> v == Some(0)
    ensures d != [] && v.Some? ==> IsNearestRank(d, p, v.value)
  {
    if |d| == 0 {
      return Some(0);
    }
    var sorted := SortStable(d, (y: int) => y);
    ghost var idx := SortStableIsStable(d, (y: int) => y);
    var rank := (p * |sorted| + 99) / 100;
    var at := if rank > 1 then rank - 1 else 0;
    RankOutOfRange(p, |sorted|);
    if at >= |sorted| {
      return None;
    }
    RankIsNearest(d, p, sorted, idx, at);
    v := Some(sorted[at]);
  }

  lemma RankOutOfRange(p: int, n: nat)
    requires n > 0
    ensures (p * n + 99) / 100 > n <==> p > 100
  {
    if p > 100 {
      assert p * n >= 101 * n;
    } else {
      assert p * n <= 100 * n;
    }
  }

  lemma RankInRange(p: int, n: nat)
    requires p <= 100 && n > 0
    ensures (p * n + 99) / 100 <= n && (p * n + 99) / 100 * 100 >= p * n && ((p * n + 99) / 100 - 1) * 100 < p * n
  {
  }

  lemma SortedFromLeast(d: seq<int>, sorted: seq<int>, idx: seq<nat>)
    requires IsStableSort(d, (y: int) => y, sorted, idx)
    ensures forall a, b :: 0 <= a < b < |sorted| ==> sorted[a] <= sorted[b]
    ensures forall k :: 0 <= k < |d| ==> sorted[0] <= d[k]
  {
    forall a, b | 0 <= a < b < |sorted| ensures sorted[a] <= sorted[b] {
      assert Precedes(d, (y: int) => y, idx[a], idx[b]);
    }
    forall k | 0 <= k < |d| ensures sorted[0] <= d[k] {
      assert k as nat in idx;
      var j :| 0 <= j < |idx| && idx[j] == k;
      assert sorted[j] == d[k];
    }
  }

  lemma RankIsNearest(d: seq<int>, p: int, sorted: seq<int>, idx: seq<nat>, at: nat)
    requires p <= 100 && d != []
    requires sorted == SortStable(d, (y: int) => y) && IsStableSort(d, (y: int) => y, sorted, idx)
    requires at == if (p * |d| + 99) / 100 > 1 then (p * |d| + 99) / 100 - 1 else 0
    ensures at < |sorted| && IsNearestRank(d, p, sorted[at])
  {
    RankInRange(p, |d|);
    SortedFromLeast(d, sorted, idx);
    var v := sorted[at];
    assert d[idx[at]] == v;
    SortCounts(d, v);
    SortedCountsSplit(sorted, at + 1, v);
    forall k | 0 <= k < |d| && d[k] < v ensures AtMost(d, d[k]) * 100 < p * |d| {
      SortCounts(d, d[k]);
      SortedCountsSplit(sorted, at, d[k]);
    }
  }

  // ------------------------------------------------------------ lane rows

  datatype LaneRow = LaneRow(week: int, lane: string, stays: nat, median: int, p90: int)

  predicate Ended(st: Stay, wk: int) {
    !st.open && WeekStart(st.end) == wk
  }

  /** Lengths of the first k stays that fall into one week and lane, in order. */
  function ClosedUpTo(stays: seq<Stay>, k: nat, lane: string, wk: int): seq<int>
    requires k <= |stays|
  {
    if k == 0 then []
    else
      var st := stays[k - 1];
      ClosedUpTo(stays, k - 1, lane, wk) + if Ended(st, wk) && st.lane == lane then [st.end - st.start] else []
  }

  function ClosedIn(stays: seq<Stay>, lane: string, wk: int): seq<int> {
    ClosedUpTo(stays, |stays|, lane, wk)
  }

  method ListClosedIn(stays: seq<Stay>, lane: string, wk: int) returns (d: seq<int>)
    ensures d == ClosedIn(stays, lane, wk)
  {
    d := [];
    for k := 0 to |stays|
      invariant d == ClosedUpTo(stays, k, lane, wk)
    {
      var st := stays[k];
      if !st.open && st.lane == lane && WeekStart(st.end) == wk {
        d := d + [st.end - st.start];
      }
    }
  }

  const BOARD_LANES := [LANE_TRIAGEM, LANE_PREPARADO, LANE_DOING, LANE_TRAVADO]

  /** The board's lanes, then any other lane the first k stays name, in the order met. */
  function LanesMet(stays: seq<Stay>, k: nat): seq<string>
    requires k <= |stays|
  {
    if k == 0 then BOARD_LANES
    else
      var before := LanesMet(stays, k - 1);
      if stays[k - 1].lane in before then before else before + [stays[k - 1].lane]
  }

  lemma {:induction false} LanesMetAreDistinct(stays: seq<Stay>, k: nat)
    requires k <= |stays|
    ensures NoRepeats(LanesMet(stays, k)) && BOARD_LANES <= LanesMet(stays, k)
    ensures forall j :: 0 <= j < k ==> stays[j].lane in LanesMet(stays, k)
  {
    if k > 0 {
      LanesMetAreDistinct(stays, k - 1);
    }
  }

  method LaneOrder(stays: seq<Stay>) returns (out: seq<string>)
    ensures out == LanesMet(stays, |stays|)
  {
    out := BOARD_LANES;
    for k := 0 to |stays|
      invariant out == LanesMet(stays, k)
    {
      if stays[k].lane !in out {
        out := out + [stays[k].lane];
      }
    }
  }

  /** A week and a lane that have a row. */
  datatype Cell = Cell(week: int, lane: string)

  /** The occupied cells of week wk among the first j lanes. */
  function WeekCells(occupied: Cell -> bool, lanes: seq<string>, j: nat, wk: int): seq<Cell>
    requires j <= |lanes|
  {
    if j == 0 then []
    else
      WeekCells(occupied, lanes, j - 1, wk) + if occupied(Cell(wk, lanes[j - 1])) then [Cell(wk, lanes[j - 1])] else []
  }

  /** The occupied cells of the first k weeks listed. */
  function Cells(occupied: Cell -> bool, lanes: seq<string>, weeks: seq<int>, k: nat): seq<Cell>
    requires k <= |weeks|
  {
    if k == 0 then [] else Cells(occupied, lanes, weeks, k - 1) + WeekCells(occupied, lanes, |lanes|, weeks[k - 1])
  }

  /** A cell is occupied when some closed stay of its lane ended in its week. */
  function Occupied(stays: seq<Stay>): Cell -> bool {
    (c: Cell) => ClosedIn(stays, c.lane, c.week) != []
  }

  function AllCells(stays: seq<Stay>, weeks: seq<int>): seq<Cell> {
    Cells(Occupied(stays), LanesMet(stays, |stays|), weeks, |weeks|)
  }

  lemma {:induction false} WeekCellsAreDistinct(occupied: Cell -> bool, lanes: seq<string>, j: nat, wk: int)
    requires j <= |lanes| && NoRepeats(lanes)
    ensures forall c :: c in WeekCells(occupied, lanes, j, wk) ==>
            c.week == wk && exists i :: 0 <= i < j && lanes[i] == c.lane
    ensures NoRepeats(WeekCells(occupied, lanes, j, wk))
  {
    if j > 0 {
      WeekCellsAreDistinct(occupied, lanes, j - 1, wk);
    }
  }

  lemma {:induction false} WeekCellIsListed(occupied: Cell -> bool, lanes: seq<string>, j: nat, wk: int, i: nat)
    requires i < j <= |lanes| && occupied(Cell(wk, lanes[i]))
    ensures Cell(wk, lanes[i]) in WeekCells(occupied, lanes, j, wk)
  {
    if i < j - 1 {
      WeekCellIsListed(occupied, lanes, j - 1, wk, i);
    }
  }

  lemma {:induction false} CellIsListed(occupied: Cell -> bool, lanes: seq<string>, weeks: seq<int>, k: nat, i: nat,
                                        cell: Cell)
    requires i < k <= |weeks| && weeks[i] == cell.week && cell in WeekCells(occupied, lanes, |lanes|, cell.week)
    ensures cell in Cells(occupied, lanes, weeks, k)
  {
    if i < k - 1 {
      CellIsListed(occupied, lanes, weeks, k - 1, i, cell);
    }
    InEither(Cells(occupied, lanes, weeks, k - 1), WeekCells(occupied, lanes, |lanes|, weeks[k - 1]), cell);
  }

  lemma InEither(a: seq<Cell>, b: seq<Cell>, cell: Cell)
    ensures cell in a + b <==> cell in a || cell in b
  {
  }

  ghost predicate Descending(weeks: seq<int>) {
    forall i, j :: 0 <= i < j < |weeks| ==> weeks[i] > weeks[j]
  }

  lemma {:induction false} CellsAreDistinct(occupied: Cell -> bool, lanes: seq<string>, weeks: seq<int>, k: nat)
    requires k <= |weeks| && NoRepeats(lanes) && Descending(weeks)
    ensures forall c :: c in Cells(occupied, lanes, weeks, k) ==> exists i :: 0 <= i < k && weeks[i] == c.week
    ensures NoRepeats(Cells(occupied, lanes, weeks, k))
  {
    if k > 0 {
      CellsAreDistinct(occupied, lanes, weeks, k - 1);
      WeekCellsAreDistinct(occupied, lanes, |lanes|, weeks[k - 1]);
      ConcatDistinct(Cells(occupied, lanes, weeks, k - 1), WeekCells(occupied, lanes, |lanes|, weeks[k - 1]));
    }
  }

  lemma ConcatDistinct(a: seq<Cell>, b: seq<Cell>)
    requires NoRepeats(a) && NoRepeats(b) && forall c :: c in a ==> c !in b
    ensures NoRepeats(a + b)
  {
    forall i, j | 0 <= i < j < |a + b| ensures (a + b)[i] != (a + b)[j] {
      if i < |a| {
        assert (a + b)[i] in a;
      }
    }
  }

  /** A row says how many closed stays of its lane ended in its week, and their nearest-rank percentiles. */
  ghost predicate RowIs(stays: seq<Stay>, c: Cell, r: LaneRow) {
    var d := ClosedIn(stays, c.lane, c.week);
    && r.week == c.week && r.lane == c.lane && r.stays == |d| && r.stays > 0
    && IsNearestRank(d, 50, r.median) && IsNearestRank(d, 90, r.p90)
  }

  ghost predicate RowsAre(stays: seq<Stay>, cells: seq<Cell>, rows: seq<LaneRow>) {
    |rows| == |cells| && forall k :: 0 <= k < |rows| ==> RowIs(stays, cells[k], rows[k])
  }

  lemma RowsAppend(stays: seq<Stay>, cells: seq<Cell>, rows: seq<LaneRow>, moreCells: seq<Cell>, more: seq<LaneRow>)
    requires RowsAre(stays, cells, rows) && RowsAre(stays, moreCells, more)
    ensures RowsAre(stays, cells + moreCells, rows + more)
  {
  }

  method LaneRowOf(stays: seq<Stay>, lane: string, wk: int, d: seq<int>) returns (row: LaneRow)
    requires d == ClosedIn(stays, lane, wk) && d != []
    ensures RowIs(stays, Cell(wk, lane), row)
  {
    var median := Percentile(d, 50);
    var p90 := Percentile(d, 90);
    row := LaneRow(wk, lane, |d|, median.value, p90.value);
  }

  /** One week's rows, lane by lane. */
  method WeekLaneRows(stays: seq<Stay>, lanes: seq<string>, wk: int) returns (rows: seq<LaneRow>)
    ensures RowsAre(stays, WeekCells(Occupied(stays), lanes, |lanes|, wk), rows)
  {
    rows := [];
    for j := 0 to |lanes|
      invariant RowsAre(stays, WeekCells(Occupied(stays), lanes, j, wk), rows)
    {
      var d := ListClosedIn(stays, lanes[j], wk);
      if |d| > 0 {
        var row := LaneRowOf(stays, lanes[j], wk, d);
        RowsAppend(stays, WeekCells(Occupied(stays), lanes, j, wk), rows, [Cell(wk, lanes[j])], [row]);
        rows := rows + [row];
      }
    }
  }

  method LaneRows(stays: seq<Stay>, w: Window) returns (rows: seq<LaneRow>, weeks: seq<int>)
    ensures IsWeeks(w, weeks) && RowsAre(stays, AllCells(stays, weeks), rows)
  {
    rows := [];
    weeks := ListWeeks(w);
    var lanes := LaneOrder(stays);
    for i := 0 to |weeks|
      invariant RowsAre(stays, Cells(Occupied(stays), lanes, weeks, i), rows)
    {
      var more := WeekLaneRows(stays, lanes, weeks[i]);
      RowsAppend(stays, Cells(Occupied(stays), lanes, weeks, i), rows,
                 WeekCells(Occupied(stays), lanes, |lanes|, weeks[i]), more);
      rows := rows + more;
    }
  }

  lemma {:induction false} StayIsListed(stays: seq<Stay>, k: nat, i: nat, wk: int)
    requires i < k <= |stays| && Ended(stays[i], wk)
    ensures ClosedUpTo(stays, k, stays[i].lane, wk) != []
  {
    if i < k - 1 {
      StayIsListed(stays, k - 1, i, wk);
    }
  }

  lemma StayHasACell(stays: seq<Stay>, w: Window, weeks: seq<int>, st: nat)
    requires w.Aligned() && IsWeeks(w, weeks)
    requires st < |stays| && !stays[st].open && w.Contains(stays[st].end)
    ensures Cell(WeekStart(stays[st].end), stays[st].lane) in AllCells(stays, weeks)
  {
    var wk, lanes := WeekStart(stays[st].end), LanesMet(stays, |stays|);
    LanesMetAreDistinct(stays, |stays|);
    WeekStaysInWindow(w, stays[st].end);
    var i := WeekIsListed(w, weeks, wk);
    StayIsListed(stays, |stays|, st, wk);
    var j :| 0 <= j < |lanes| && lanes[j] == stays[st].lane;
    WeekCellIsListed(Occupied(stays), lanes, |lanes|, wk, j);
    CellIsListed(Occupied(stays), lanes, weeks, |weeks|, i, Cell(wk, stays[st].lane));
  }

  lemma AllCellsAreDistinct(stays: seq<Stay>, w: Window, weeks: seq<int>)
    requires IsWeeks(w, weeks)
    ensures NoRepeats(AllCells(stays, weeks))
  {
    LanesMetAreDistinct(stays, |stays|);
    CellsAreDistinct(Occupied(stays), LanesMet(stays, |stays|), weeks, |weeks|);
  }

  lemma RowOfCellIsUnique(stays: seq<Stay>, cells: seq<Cell>, rows: seq<LaneRow>, cell: Cell) returns (k: nat)
    requires RowsAre(stays, cells, rows) && NoRepeats(cells) && cell in cells
    ensures k < |rows| && rows[k].week == cell.week && rows[k].lane == cell.lane
    ensures forall j :: 0 <= j < |rows| && rows[j].week == cell.week && rows[j].lane == cell.lane ==> j == k
  {
    k :| 0 <= k < |cells| && cells[k] == cell;
    assert RowIs(stays, cells[k], rows[k]);
    forall j | 0 <= j < |rows| && rows[j].week == cell.week && rows[j].lane == cell.lane ensures j == k {
      assert RowIs(stays, cells[j], rows[j]) && cells[j] == cell;
    }
  }

  /** Each closed stay that ended inside the window is in exactly one lane row: that of its lane
      and of the week it ended in. */
  lemma StayCountedOnce(stays: seq<Stay>, w: Window, weeks: seq<int>, rows: seq<LaneRow>, st: nat) returns (k: nat)
    requires w.Aligned() && IsWeeks(w, weeks) && RowsAre(stays, AllCells(stays, weeks), rows)
    requires st < |stays| && !stays[st].open && w.Contains(stays[st].end)
    ensures k < |rows| && rows[k].week == WeekStart(stays[st].end) && rows[k].lane == stays[st].lane
    ensures forall j ::
              0 <= j < |rows| && rows[j].week == WeekStart(stays[st].end) && rows[j].lane == stays[st].lane ==> j == k
    ensures rows[k].stays == |ClosedIn(stays, stays[st].lane, WeekStart(stays[st].end))| > 0
  {
    StayHasACell(stays, w, weeks, st);
    AllCellsAreDistinct(stays, w, weeks);
    k := RowOfCellIsUnique(stays, AllCells(stays, weeks), rows, Cell(WeekStart(stays[st].end), stays[st].lane));
  }

  /** The stays the first n rows count. */
  function RowStays(rows: seq<LaneRow>, n: nat): nat
    requires n <= |rows|
  {
    if n == 0 then 0 else RowStays(rows, n - 1) + rows[n - 1].stays
  }

  predicate ClosedInside(st: Stay, w: Window) {
    !st.open && w.Contains(st.end)
  }

  /** The closed stays among the first k that ended in the window. */
  function EndedInside(stays: seq<Stay>, w: Window, k: nat): nat
    requires k <= |stays|
  {
    if k == 0 then 0
    else EndedInside(stays, w, k - 1) + if ClosedInside(stays[k - 1], w) then 1 else 0
  }

  /** What the first n cells count of the first k stays. */
  function CellStays(stays: seq<Stay>, k: nat, cells: seq<Cell>, n: nat): nat
    requires k <= |stays| && n <= |cells|
  {
    if n == 0 then 0
    else CellStays(stays, k, cells, n - 1) + |ClosedUpTo(stays, k, cells[n - 1].lane, cells[n - 1].week)|
  }

  predicate FallsInto(st: Stay, c: Cell) {
    Ended(st, c.week) && st.lane == c.lane
  }

  /** The stay falls into one of the first n cells. */
  ghost predicate FallsAmong(st: Stay, cells: seq<Cell>, n: nat)
    requires n <= |cells|
  {
    exists i :: 0 <= i < n && FallsInto(st, cells[i])
  }

  /** A stay falls into one cell at most. */
  lemma OneCellMore(st: Stay, cells: seq<Cell>, n: nat)
    requires 0 < n <= |cells| && NoRepeats(cells)
    ensures FallsAmong(st, cells, n) <==> FallsAmong(st, cells, n - 1) || FallsInto(st, cells[n - 1])
    ensures !(FallsAmong(st, cells, n - 1) && FallsInto(st, cells[n - 1]))
  {
    if i :| 0 <= i < n - 1 && FallsInto(st, cells[i]) {
      assert cells[i] != cells[n - 1];
    }
  }

  /** One stay more counts in the cell it falls into, if that is one of these, and in no other. */
  lemma {:induction false} OneStayMore(stays: seq<Stay>, k: nat, cells: seq<Cell>, n: nat)
    requires 0 < k <= |stays| && n <= |cells| && NoRepeats(cells)
    ensures CellStays(stays, k, cells, n) ==
            CellStays(stays, k - 1, cells, n) + if FallsAmong(stays[k - 1], cells, n) then 1 else 0
  {
    if n > 0 {
      OneStayMore(stays, k, cells, n - 1);
      OneCellMore(stays[k - 1], cells, n);
    }
  }

  lemma OneStayInside(stays: seq<Stay>, w: Window, k: nat, cells: seq<Cell>)
    requires 0 < k <= |stays| && NoRepeats(cells) && (HasCell(stays[k - 1], cells) <==> ClosedInside(stays[k - 1], w))
    ensures CellStays(stays, k, cells, |cells|) - CellStays(stays, k - 1, cells, |cells|)
            == EndedInside(stays, w, k) - EndedInside(stays, w, k - 1)
  {
    OneStayMore(stays, k, cells, |cells|);
  }

  lemma NoStayNoCount(stays: seq<Stay>, cells: seq<Cell>, n: nat)
    requires n <= |cells|
    ensures CellStays(stays, 0, cells, n) == 0
  {
  }

  lemma {:induction false} CellsCountStays(stays: seq<Stay>, w: Window, cells: seq<Cell>, k: nat)
    requires k <= |stays| && NoRepeats(cells)
    requires forall i :: 0 <= i < |stays| ==> (HasCell(stays[i], cells) <==> ClosedInside(stays[i], w))
    ensures CellStays(stays, k, cells, |cells|) == EndedInside(stays, w, k)
  {
    if k == 0 {
      NoStayNoCount(stays, cells, |cells|);
    } else {
      CellsCountStays(stays, w, cells, k - 1);
      OneStayInside(stays, w, k, cells);
    }
  }

  ghost predicate HasCell(st: Stay, cells: seq<Cell>) {
    FallsAmong(st, cells, |cells|)
  }

  ghost predicate Counts(stays: seq<Stay>, cells: seq<Cell>, rows: seq<LaneRow>) {
    && |rows| == |cells|
    && forall k :: 0 <= k < |rows| ==> rows[k].stays == |ClosedIn(stays, cells[k].lane, cells[k].week)|
  }

  lemma RowsCount(stays: seq<Stay>, cells: seq<Cell>, rows: seq<LaneRow>)
    requires RowsAre(stays, cells, rows)
    ensures Counts(stays, cells, rows)
  {
    forall k | 0 <= k < |rows| ensures rows[k].stays == |ClosedIn(stays, cells[k].lane, cells[k].week)| {
      assert RowIs(stays, cells[k], rows[k]);
    }
  }

  lemma {:induction false} RowsCountCells(stays: seq<Stay>, cells: seq<Cell>, rows: seq<LaneRow>, n: nat)
    requires Counts(stays, cells, rows) && n <= |rows|
    ensures RowStays(rows, n) == CellStays(stays, |stays|, cells, n)
  {
    if n > 0 {
      RowsCountCells(stays, cells, rows, n - 1);
    }
  }

  /** A stay falls into a cell of the report exactly when it is closed and ended in the window. */
  lemma CellsAreOfTheWindow(stays: seq<Stay>, w: Window, weeks: seq<int>, st: nat)
    requires w.Aligned() && IsWeeks(w, weeks) && st < |stays|
    ensures HasCell(stays[st], AllCells(stays, weeks)) <==> !stays[st].open && w.Contains(stays[st].end)
  {
    var cells := AllCells(stays, weeks);
    if HasCell(stays[st], cells) {
      var i :| 0 <= i < |cells| && FallsInto(stays[st], cells[i]);
      CellEndsInside(stays, w, weeks, st, i);
    }
    if !stays[st].open && w.Contains(stays[st].end) {
      InsideFallsIntoACell(stays, w, weeks, st);
    }
  }

  lemma InsideFallsIntoACell(stays: seq<Stay>, w: Window, weeks: seq<int>, st: nat)
    requires w.Aligned() && IsWeeks(w, weeks) && st < |stays| && !stays[st].open && w.Contains(stays[st].end)
    ensures HasCell(stays[st], AllCells(stays, weeks))
  {
    var cells := AllCells(stays, weeks);
    StayHasACell(stays, w, weeks, st);
    var i :| 0 <= i < |cells| && cells[i] == Cell(WeekStart(stays[st].end), stays[st].lane);
    assert FallsInto(stays[st], cells[i]);
  }

  lemma CellEndsInside(stays: seq<Stay>, w: Window, weeks: seq<int>, st: nat, i: nat)
    requires w.Aligned() && IsWeeks(w, weeks) && st < |stays|
    requires i < |AllCells(stays, weeks)| && FallsInto(stays[st], AllCells(stays, weeks)[i])
    ensures w.Contains(stays[st].end)
  {
    var cell := AllCells(stays, weeks)[i];
    LanesMetAreDistinct(stays, |stays|);
    CellsAreDistinct(Occupied(stays), LanesMet(stays, |stays|), weeks, |weeks|);
    assert cell in AllCells(stays, weeks);
    var j :| 0 <= j < |weeks| && weeks[j] == cell.week;
    WeekInsideEndsInside(w, weeks[j], stays[st].end);
  }

  lemma WeekInsideEndsInside(w: Window, monday: int, t: int)
    requires w.Aligned() && monday == WeekStart(t) && w.start <= monday && monday + WEEK <= w.end
    ensures w.Contains(t)
  {
  }

  /** The lane rows count every closed stay that ended in the window, each once, and no other. */
  lemma LaneRowsCountEveryStay(stays: seq<Stay>, w: Window, weeks: seq<int>, rows: seq<LaneRow>)
    requires w.Aligned() && IsWeeks(w, weeks) && RowsAre(stays, AllCells(stays, weeks), rows)
    ensures RowStays(rows, |rows|) == EndedInside(stays, w, |stays|)
  {
    var cells := AllCells(stays, weeks);
    AllCellsAreDistinct(stays, w, weeks);
    forall i | 0 <= i < |stays| ensures HasCell(stays[i], cells) <==> ClosedInside(stays[i], w) {
      CellsAreOfTheWindow(stays, w, weeks, i);
    }
    CellsCountStays(stays, w, cells, |stays|);
    RowsCount(stays, cells, rows);
    RowsCountCells(stays, cells, rows, |rows|);
  }

  // ------------------------------------------------------------ role rows

  const OWNERS := [Triage, Architect, Developer, Reviewer, QA, Merger, Person, Unattributed]

  predicate IsRole(o: Owner) {
    o.Triage? || o.Architect? || o.Developer? || o.Reviewer? || o.QA? || o.Merger?
  }

  datatype RoleRow = RoleRow(week: int, owner: Owner, owned: int, moves: nat, caught: nat)

  /** The time o owns in the first k segments. */
  function OwnedSegments(segs: seq<Segment>, o: Owner, k: nat): int
    requires k <= |segs|
  {
    if k == 0 then 0 else OwnedSegments(segs, o, k - 1) + if segs[k - 1].owner == o then segs[k - 1].dur else 0
  }

  /** The time o owns in those of the first k stays that count. */
  function OwnedUpTo(stays: seq<Stay>, k: nat, o: Owner, counts: Stay -> bool): int
    requires k <= |stays|
  {
    if k == 0 then 0
    else
      var st := stays[k - 1];
      OwnedUpTo(stays, k - 1, o, counts) + if counts(st) then OwnedSegments(st.segments, o, |st.segments|) else 0
  }

  /** The total length of those of the first k stays that count. */
  function TimeUpTo(stays: seq<Stay>, k: nat, counts: Stay -> bool): int
    requires k <= |stays|
  {
    if k == 0 then 0
    else
      var st := stays[k - 1];
      TimeUpTo(stays, k - 1, counts) + if counts(st) then st.end - st.start else 0
  }

  function EndedIn(wk: int): Stay -> bool {
    (st: Stay) => Ended(st, wk)
  }

  /** One owner's share of one week. */
  function OwnedIn(stays: seq<Stay>, o: Owner, wk: int): int {
    OwnedUpTo(stays, |stays|, o, EndedIn(wk))
  }

  /** What the shares of one week must add up to. */
  function ClosedTime(stays: seq<Stay>, wk: int): int {
    TimeUpTo(stays, |stays|, EndedIn(wk))
  }

  method SumOwned(st: Stay, o: Owner) returns (d: int)
    ensures d == OwnedSegments(st.segments, o, |st.segments|)
  {
    d := 0;
    for k := 0 to |st.segments|
      invariant d == OwnedSegments(st.segments, o, k)
    {
      if st.segments[k].owner == o {
        d := d + st.segments[k].dur;
      }
    }
  }

  method SumOwnedIn(stays: seq<Stay>, o: Owner, wk: int) returns (d: int)
    ensures d == OwnedIn(stays, o, wk)
  {
    d := 0;
    for k := 0 to |stays|
      invariant d == OwnedUpTo(stays, k, o, EndedIn(wk))
    {
      if !stays[k].open && WeekStart(stays[k].end) == wk {
        var owned := SumOwned(stays[k], o);
        d := d + owned;
      }
    }
  }

  /** The sum of f over the first k report owners. */
  function SumOver(f: Owner -> int, k: nat): int
    requires k <= |OWNERS|
  {
    if k == 0 then 0 else SumOver(f, k - 1) + f(OWNERS[k - 1])
  }

  lemma {:induction false} SumOverAdds(f: Owner -> int, g: Owner -> int, h: Owner -> int, k: nat)
    requires k <= |OWNERS| && forall o :: h(o) == f(o) + g(o)
    ensures SumOver(h, k) == SumOver(f, k) + SumOver(g, k)
  {
    if k > 0 {
      SumOverAdds(f, g, h, k - 1);
    }
  }

  /** One owner's stretch is counted under that owner and under no other. */
  lemma {:induction false} OneOwnerCounts(o: Owner, d: int, k: nat, f: Owner -> int)
    requires k <= |OWNERS| && forall x :: f(x) == if x == o then d else 0
    ensures SumOver(f, k) == if o in OWNERS[..k] then d else 0
  {
    if k > 0 {
      OneOwnerCounts(o, d, k - 1, f);
      assert OWNERS[..k] == OWNERS[..k - 1] + [OWNERS[k - 1]];
      assert NoRepeats(OWNERS);
    }
  }

  lemma {:induction false} SumOfZeros(f: Owner -> int, k: nat)
    requires k <= |OWNERS| && forall o :: f(o) == 0
    ensures SumOver(f, k) == 0
  {
    if k > 0 {
      SumOfZeros(f, k - 1);
    }
  }

  lemma {:induction false} OwnersShareSegments(segs: seq<Segment>, k: nat)
    requires k <= |segs| && forall j :: 0 <= j < |segs| ==> segs[j].owner in OWNERS
    ensures SumOver(o => OwnedSegments(segs, o, k), |OWNERS|) == Covered(segs, k)
  {
    var now := o => OwnedSegments(segs, o, k);
    if k == 0 {
      SumOfZeros(now, |OWNERS|);
    } else {
      OwnersShareSegments(segs, k - 1);
      var last := segs[k - 1];
      var one := (x: Owner) => if x == last.owner then last.dur else 0;
      OneOwnerCounts(last.owner, last.dur, |OWNERS|, one);
      assert OWNERS[..|OWNERS|] == OWNERS;
      SumOverAdds(o => OwnedSegments(segs, o, k - 1), one, now, |OWNERS|);
    }
  }

  lemma SegmentsAreReported(s: Snapshot, st: Stay)
    requires GoodStay(s, st)
    ensures forall j :: 0 <= j < |st.segments| ==> st.segments[j].owner in OWNERS
  {
    forall j | 0 <= j < |st.segments| ensures st.segments[j].owner in OWNERS {
      var t := st.start + Covered(st.segments, j);
      assert Holds(st.segments, st.start, j, t);
      OwnerIsReported(s, st.card, st.lane, t);
    }
  }

  lemma OwnersShareStay(s: Snapshot, st: Stay)
    requires GoodStay(s, st) && !st.open
    ensures SumOver(o => OwnedSegments(st.segments, o, |st.segments|), |OWNERS|) == st.end - st.start
  {
    SegmentsAreReported(s, st);
    OwnersShareSegments(st.segments, |st.segments|);
  }

  /** The owners of the stays that count own, together, exactly the time of those stays. */
  lemma {:induction false} OwnersShareStays(s: Snapshot, stays: seq<Stay>, k: nat, counts: Stay -> bool)
    requires k <= |stays| && forall j :: 0 <= j < |stays| ==> GoodStay(s, stays[j])
    requires forall st :: counts(st) ==> !st.open
    ensures SumOver(o => OwnedUpTo(stays, k, o, counts), |OWNERS|) == TimeUpTo(stays, k, counts)
  {
    var now := o => OwnedUpTo(stays, k, o, counts);
    if k == 0 {
      SumOfZeros(now, |OWNERS|);
    } else {
      OwnersShareStays(s, stays, k - 1, counts);
      var before := o => OwnedUpTo(stays, k - 1, o, counts);
      var st := stays[k - 1];
      if counts(st) {
        OwnersShareStay(s, st);
        SumOverAdds(before, o => OwnedSegments(st.segments, o, |st.segments|), now, |OWNERS|);
      } else {
        SumOfZeros((o: Owner) => 0, |OWNERS|);
        SumOverAdds(before, o => 0, now, |OWNERS|);
      }
    }
  }

  lemma {:induction false} OwnedIsNotNegative(s: Snapshot, stays: seq<Stay>, k: nat, o: Owner, counts: Stay -> bool)
    requires k <= |stays| && forall j :: 0 <= j < |stays| ==> GoodStay(s, stays[j])
    ensures OwnedUpTo(stays, k, o, counts) >= 0
  {
    if k > 0 {
      OwnedIsNotNegative(s, stays, k - 1, o, counts);
      var segs := stays[k - 1].segments;
      OwnedSegmentsIsNotNegative(segs, o, |segs|);
    }
  }

  lemma {:induction false} OwnedSegmentsIsNotNegative(segs: seq<Segment>, o: Owner, k: nat)
    requires k <= |segs| && forall j :: 0 <= j < |segs| ==> segs[j].dur > 0
    ensures OwnedSegments(segs, o, k) >= 0
  {
    if k > 0 {
      OwnedSegmentsIsNotNegative(segs, o, k - 1);
    }
  }

  /** The owned time the first k rows give a week. */
  function RowsOwned(rows: seq<RoleRow>, k: nat, wk: int): int
    requires k <= |rows|
  {
    if k == 0 then 0 else RowsOwned(rows, k - 1, wk) + if rows[k - 1].week == wk then rows[k - 1].owned else 0
  }

  lemma RowsOwnedMore(rows: seq<RoleRow>, r: RoleRow, wk: int)
    requires r.week == wk
    ensures RowsOwned(rows + [r], |rows| + 1, wk) == RowsOwned(rows, |rows|, wk) + r.owned
  {
    RowsOwnedPrefix(rows, rows + [r], |rows|, wk);
  }

  lemma {:induction false} RowsOwnedPrefix(a: seq<RoleRow>, b: seq<RoleRow>, k: nat, wk: int)
    requires k <= |a| && a <= b
    ensures RowsOwned(a, k, wk) == RowsOwned(b, k, wk)
  {
    if k > 0 {
      RowsOwnedPrefix(a, b, k - 1, wk);
    }
  }

  lemma {:induction false} RowsOwnedConcat(a: seq<RoleRow>, b: seq<RoleRow>, k: nat, wk: int)
    requires k <= |b|
    ensures RowsOwned(a + b, |a| + k, wk) == RowsOwned(a, |a|, wk) + RowsOwned(b, k, wk)
  {
    if k == 0 {
      RowsOwnedPrefix(a, a + b, |a|, wk);
    } else {
      RowsOwnedConcat(a, b, k - 1, wk);
    }
  }

  lemma {:induction false} RowsOwnedElsewhere(rows: seq<RoleRow>, k: nat, wk: int)
    requires k <= |rows| && forall j :: 0 <= j < |rows| ==> rows[j].week != wk
    ensures RowsOwned(rows, k, wk) == 0
  {
    if k > 0 {
      RowsOwnedElsewhere(rows, k - 1, wk);
    }
  }

  /** A row of the week: what its owner owned, and the board moves and signals the caller counted. */
  ghost predicate RoleRowIs(stays: seq<Stay>, wk: int, moves: (int, Owner) -> nat, caught: (int, Owner) -> nat,
                            r: RoleRow) {
    && r.week == wk && r.owned == OwnedIn(stays, r.owner, wk)
    && r.moves == moves(wk, r.owner) && r.caught == caught(wk, r.owner)
  }

  /** What the first i owners own of one week. */
  ghost function OwnersTime(stays: seq<Stay>, wk: int, i: nat): int
    requires i <= |OWNERS|
  {
    SumOver(o => OwnedUpTo(stays, |stays|, o, EndedIn(wk)), i)
  }

  lemma OneOwnerMore(stays: seq<Stay>, wk: int, i: nat)
    requires i < |OWNERS|
    ensures OwnersTime(stays, wk, i + 1) == OwnersTime(stays, wk, i) + OwnedUpTo(stays, |stays|, OWNERS[i], EndedIn(wk))
  {
  }

  method RoleRowOf(ghost s: Snapshot, stays: seq<Stay>, wk: int, o: Owner, moves: (int, Owner) -> nat,
                   caught: (int, Owner) -> nat)
    returns (r: RoleRow)
    requires forall k :: 0 <= k < |stays| ==> GoodStay(s, stays[k])
    ensures RoleRowIs(stays, wk, moves, caught, r) && r.owner == o
    ensures r.owned == OwnedUpTo(stays, |stays|, o, EndedIn(wk)) >= 0
  {
    var d := SumOwnedIn(stays, o, wk);
    OwnedIsNotNegative(s, stays, |stays|, o, EndedIn(wk));
    r := RoleRow(wk, o, d, moves(wk, o), caught(wk, o));
  }

  /** One week's rows: a role always has one, anybody else only with something to show. */
  method WeekRows(ghost s: Snapshot, stays: seq<Stay>, wk: int, moves: (int, Owner) -> nat, caught: (int, Owner) -> nat)
    returns (rows: seq<RoleRow>)
    requires forall k :: 0 <= k < |stays| ==> GoodStay(s, stays[k])
    ensures forall k :: 0 <= k < |rows| ==> RoleRowIs(stays, wk, moves, caught, rows[k])
    ensures RowsOwned(rows, |rows|, wk) == ClosedTime(stays, wk)
  {
    rows := [];
    for i := 0 to |OWNERS|
      invariant forall k :: 0 <= k < |rows| ==> RoleRowIs(stays, wk, moves, caught, rows[k])
      invariant RowsOwned(rows, |rows|, wk) == OwnersTime(stays, wk, i)
    {
      var r := RoleRowOf(s, stays, wk, OWNERS[i], moves, caught);
      RowsOwnedMore(rows, r, wk);
      OneOwnerMore(stays, wk, i);
      if IsRole(r.owner) || r.owned > 0 || r.moves > 0 || r.caught > 0 {
        rows := rows + [r];
      }
    }
    OwnersShareStays(s, stays, |stays|, EndedIn(wk));
  }

  ghost predicate WeekAddsUp(stays: seq<Stay>, rows: seq<RoleRow>, wk: int) {
    RowsOwned(rows, |rows|, wk) == ClosedTime(stays, wk)
  }

  lemma AppendWeek(stays: seq<Stay>, rows: seq<RoleRow>, more: seq<RoleRow>, wk: int, other: int)
    requires forall k :: 0 <= k < |more| ==> more[k].week == wk
    requires forall k :: 0 <= k < |rows| ==> rows[k].week != wk
    requires WeekAddsUp(stays, more, wk) && (other == wk || WeekAddsUp(stays, rows, other))
    ensures WeekAddsUp(stays, rows + more, other)
  {
    RowsOwnedConcat(rows, more, |more|, other);
    if other == wk {
      RowsOwnedElsewhere(rows, |rows|, wk);
    } else {
      RowsOwnedElsewhere(more, |more|, other);
    }
  }

  method RoleRows(ghost s: Snapshot, stays: seq<Stay>, w: Window, moves: (int, Owner) -> nat,
                  caught: (int, Owner) -> nat)
    returns (rows: seq<RoleRow>)
    requires forall k :: 0 <= k < |stays| ==> GoodStay(s, stays[k])
    requires w.Aligned()
    ensures forall k :: 0 <= k < |rows| ==> RoleRowIs(stays, rows[k].week, moves, caught, rows[k])
    ensures forall wk :: wk % WEEK == 0 && w.Contains(wk) ==> WeekAddsUp(stays, rows, wk)
  {
    rows := [];
    var weeks := ListWeeks(w);
    for i := 0 to |weeks|
      invariant forall k :: 0 <= k < |rows| ==> RoleRowIs(stays, rows[k].week, moves, caught, rows[k])
      invariant forall k :: 0 <= k < |rows| ==> rows[k].week >= w.end - i * WEEK
      invariant forall j :: 0 <= j < i ==> WeekAddsUp(stays, rows, weeks[j])
    {
      var more := WeekRows(s, stays, weeks[i], moves, caught);
      forall j | 0 <= j <= i ensures WeekAddsUp(stays, rows + more, weeks[j]) {
        AppendWeek(stays, rows, more, weeks[i], weeks[j]);
      }
      rows := rows + more;
    }
    forall wk | wk % WEEK == 0 && w.Contains(wk) ensures WeekAddsUp(stays, rows, wk) {
      var k := WeekIsListed(w, weeks, wk);
    }
  }

  /** From a snapshot to the report's time rows: in every covered week the owners' rows add up to
      the closed stays that ended in it, and every such stay is in one lane row. */
  method Measure(s: Snapshot, project: int, since: int, weeks: int, now: int,
                 moves: (int, Owner) -> nat, caught: (int, Owner) -> nat)
    returns (stays: seq<Stay>, covered: seq<int>, lanes: seq<LaneRow>, roles: seq<RoleRow>)
    ensures AllSegmented(s, BoardVisits(s, project, SortedNumbers(s)), stays)
    ensures IsWeeks(NewWindow(since, weeks, now), covered) && RowsAre(stays, AllCells(stays, covered), lanes)
    ensures RowStays(lanes, |lanes|) == EndedInside(stays, NewWindow(since, weeks, now), |stays|)
    ensures forall wk :: wk % WEEK == 0 && NewWindow(since, weeks, now).Contains(wk) ==> WeekAddsUp(stays, roles, wk)
  {
    var w := NewWindow(since, weeks, now);
    stays := LaneStays(s, project);
    lanes, covered := LaneRows(stays, w);
    LaneRowsCountEveryStay(stays, w, covered, lanes);
    roles := RoleRows(s, stays, w, moves, caught);
  }
}
