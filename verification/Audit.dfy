/** The order of text, character by character, and the zero-padded numbers the trail's marks hold. */
module Text {

  predicate Less(a: string, b: string) {
    b != [] && (a == [] || a[0] < b[0] || (a[0] == b[0] && Less(a[1..], b[1..])))
  }

  lemma {:induction false} LessIsStrict(a: string, b: string)
    ensures !(Less(a, b) && Less(b, a)) && !Less(a, a)
  {
    if a != [] {
      LessIsStrict(a[1..], if b == [] then [] else b[1..]);
    }
  }

  lemma {:induction false} LessIsTotal(a: string, b: string)
    ensures a == b || Less(a, b) || Less(b, a)
  {
    if a != [] && b != [] {
      LessIsTotal(a[1..], b[1..]);
      assert a == [a[0]] + a[1..] && b == [b[0]] + b[1..];
    }
  }

  lemma {:induction false} LessIsTransitive(a: string, b: string, c: string)
    requires Less(a, b) && Less(b, c)
    ensures Less(a, c)
  {
    if a != [] && a[0] == b[0] == c[0] {
      LessIsTransitive(a[1..], b[1..], c[1..]);
    }
  }

  /** Text that differs before either ends keeps its order whatever follows. */
  lemma {:induction false} LessWhateverFollows(a: string, b: string, x: string, y: string)
    requires Less(a, b) && !(a <= b)
    ensures Less(a + x, b + y)
  {
    assert (a + x)[0] == a[0] && (b + y)[0] == b[0];
    if a[0] == b[0] {
      assert a == [a[0]] + a[1..] && b == [b[0]] + b[1..];
      LessWhateverFollows(a[1..], b[1..], x, y);
      assert (a + x)[1..] == a[1..] + x && (b + y)[1..] == b[1..] + y;
    }
  }

  lemma {:induction false} LessAfterTheSame(a: string, x: string, y: string)
    ensures Less(a + x, a + y) == Less(x, y)
  {
    if a == [] {
      assert a + x == x && a + y == y;
    } else {
      LessAfterTheSame(a[1..], x, y);
      assert (a + x)[1..] == a[1..] + x && (a + y)[1..] == a[1..] + y;
    }
  }

  function Pow10(w: nat): nat {
    if w == 0 then 1 else 10 * Pow10(w - 1)
  }

  function Digit(d: nat): char
    requires d < 10
  {
    '0' + d as char
  }

  function Digits(n: nat): string {
    if n < 10 then [Digit(n)] else Digits(n / 10) + [Digit(n % 10)]
  }

  /** lpad(n::text, w, '0'): padded on the left, and cut on the right when longer than w. */
  function LPad(n: nat, w: nat): string {
    var text := Digits(n);
    if |text| >= w then text[..w] else seq(w - |text|, _ => '0') + text
  }

  /** n written with exactly w digits. */
  function Fixed(n: nat, w: nat): string {
    if w == 0 then "" else Fixed(n / 10, w - 1) + [Digit(n % 10)]
  }

  lemma {:induction false} FixedOfZero(w: nat)
    ensures Fixed(0, w) == seq(w, _ => '0')
  {
    if w > 0 {
      FixedOfZero(w - 1);
      assert seq(w, _ => '0') == seq(w - 1, _ => '0') + ['0'];
    }
  }

  lemma {:induction false} FixedIsPaddedDigits(n: nat, w: nat)
    requires w > 0 && n < Pow10(w)
    ensures |Digits(n)| <= w && Fixed(n, w) == seq(w - |Digits(n)|, _ => '0') + Digits(n)
  {
    if n < 10 {
      FixedOfZero(w - 1);
    } else {
      assert w > 1;
      FixedIsPaddedDigits(n / 10, w - 1);
    }
  }

  lemma LPadIsFixed(n: nat, w: nat)
    requires w > 0 && n < Pow10(w)
    ensures LPad(n, w) == Fixed(n, w)
  {
    FixedIsPaddedDigits(n, w);
    assert |Digits(n)| == w ==> seq(0, _ => '0') + Digits(n) == Digits(n)[..w];
  }

  lemma {:induction false} FixedHasWidth(n: nat, w: nat)
    ensures |Fixed(n, w)| == w
  {
    if w > 0 {
      FixedHasWidth(n / 10, w - 1);
    }
  }

  lemma {:induction false} FixedIsAllDigits(n: nat, w: nat)
    ensures forall i :: 0 <= i < |Fixed(n, w)| ==> Fixed(n, w)[i] <= '9'
  {
    if w > 0 {
      FixedIsAllDigits(n / 10, w - 1);
    }
  }

  lemma TwentyDigitsHoldABigint()
    ensures 0x8000_0000_0000_0000 < Pow10(20)
  {
    assert Pow10(4) == 10_000;
    assert Pow10(8) == 10_000 * Pow10(4);
    assert Pow10(12) == 10_000 * Pow10(8);
    assert Pow10(16) == 10_000 * Pow10(12);
    assert Pow10(20) == 10_000 * Pow10(16);
  }

  /** Numbers of the same width are in the order of their digits. */
  lemma {:induction false} FixedIsOrdered(a: nat, b: nat, w: nat)
    requires a < b < Pow10(w)
    ensures Less(Fixed(a, w), Fixed(b, w))
  {
    FixedHasWidth(a / 10, w - 1);
    FixedHasWidth(b / 10, w - 1);
    if a / 10 < b / 10 {
      FixedIsOrdered(a / 10, b / 10, w - 1);
      var x, y := Fixed(a / 10, w - 1), Fixed(b / 10, w - 1);
      LessIsStrict(x, y);
      assert x <= y ==> x == y;
      LessWhateverFollows(x, y, [Digit(a % 10)], [Digit(b % 10)]);
    } else {
      LessAfterTheSame(Fixed(a / 10, w - 1), [Digit(a % 10)], [Digit(b % 10)]);
    }
  }
}

/** Two append-only records read as one trail, a page at a time. */
module Audit {
  import opened Common
  import Text

  /** A row's place: a run's step, or an administrative event. */
  datatype Row =
    | Ledger(at: int, run: string, num: nat)
    | Admin(at: int, id: nat)

  /** The mark the outer query orders by within an instant. */
  function Mark(r: Row): string {
    match r
    case Ledger(_, run, num) => run + ":" + Text.LPad(num, 12)
    case Admin(_, id) => Text.LPad(id, 20)
  }

  /** a is listed before b inside a branch: newest first, by the record's own key. */
  predicate BranchBefore(a: Row, b: Row) {
    b.at < a.at
    || (a.at == b.at &&
        match (a, b)
        case (Ledger(_, ra, na), Ledger(_, rb, nb)) => Text.Less(rb, ra) || (ra == rb && nb < na)
        case (Admin(_, ia), Admin(_, ib)) => ib < ia
        case _ => false)
  }

  /** a must be listed before b by the outer query: newest first, then by mark. */
  predicate OuterBefore(a: Row, b: Row) {
    b.at < a.at || (a.at == b.at && Text.Less(Mark(b), Mark(a)))
  }

  /** out is an answer to "order by ... limit n" over rows: rows the order does not tell apart may
      come either way. */
  ghost predicate IsTop(rows: set<Row>, before: (Row, Row) -> bool, n: nat, out: seq<Row>) {
    && (forall i, j :: 0 <= i < j < |out| ==> out[i] != out[j] && !before(out[j], out[i]))
    && (forall r :: r in out ==> r in rows)
    && |out| == (if |rows| < n then |rows| else n)
    && (forall r, o :: r in rows && r !in out && o in out ==> !before(r, o))
  }

  /** One position per record: the last row of it the pages so far carried. */
  datatype Cursor = Cursor(ledger: Option<Row>, admin: Option<Row>) {
    predicate Empty() {
      ledger.None? && admin.None?
    }
  }

  const START := Cursor(None, None)

  datatype Trail = Trail(ledger: set<Row>, admin: set<Row>)

  /** Row keys are unique, ids fit the column, and the rows could be numbered by one. */
  ghost predicate ValidTrail(t: Trail) {
    && (forall r :: r in t.ledger ==> r.Ledger?)
    && (forall r :: r in t.admin ==> r.Admin? && r.id < 0x8000_0000_0000_0000)
    && (forall a, b :: a in t.admin && b in t.admin && a.id == b.id ==> a == b)
  }

  function Past(rows: set<Row>, mark: Option<Row>): set<Row> {
    match mark
    case None => rows
    case Some(m) => set r | r in rows && BranchBefore(m, r)
  }

  ghost function Rest(t: Trail, c: Cursor): set<Row> {
    Past(t.ledger, c.ledger) + Past(t.admin, c.admin)
  }

  /** An answer to the page query: each branch ordered and limited on its own, then both merged. */
  ghost predicate IsPage(t: Trail, c: Cursor, limit: nat, page: seq<Row>) {
    exists l, a :: IsPageOf(t, c, limit, page, l, a)
  }

  ghost predicate IsPageOf(t: Trail, c: Cursor, limit: nat, page: seq<Row>, l: seq<Row>, a: seq<Row>) {
    && IsTop(Past(t.ledger, c.ledger), BranchBefore, limit, l)
    && IsTop(Past(t.admin, c.admin), BranchBefore, limit, a)
    && IsTop((set r | r in l) + (set r | r in a), OuterBefore, limit, page)
  }

  // ------------------------------------------------------------- the cursor

  function Moved(c: Cursor, r: Row): Cursor {
    if r.Admin? then c.(admin := Some(r)) else c.(ledger := Some(r))
  }

  function Advance(c: Cursor, page: seq<Row>, k: nat): Cursor
    requires k <= |page|
  {
    if k == 0 then c else Moved(Advance(c, page, k - 1), page[k - 1])
  }

  /** Short of the limit the trail ended, and there is nowhere to resume from. */
  function NextCursor(c: Cursor, page: seq<Row>, limit: nat): Cursor {
    if |page| < limit then START else Advance(c, page, |page|)
  }

  /** A filter may leave one of the two records out; whatever else it asks is asked of single rows. */
  datatype Filter = Filter(ledger: bool, admin: bool, matches: Row -> bool)

  ghost function Narrow(t: Trail, f: Filter): Trail {
    Trail(if f.ledger then set r | r in t.ledger && f.matches(r) else {},
          if f.admin then set r | r in t.admin && f.matches(r) else {})
  }

  /** A page and the cursor of the one after it. Nothing outside the filter is on the page, from
      whatever cursor it was asked for. */
  method Read(ghost t: Trail, f: Filter, c: Cursor, limit: nat, rows: seq<Row>) returns (out: seq<Row>, next: Cursor)
    requires IsPage(Narrow(t, f), c, limit, rows)
    ensures out == rows && next == NextCursor(c, out, limit)
    ensures forall r :: r in out ==>
                          f.matches(r) && ((r in t.ledger && f.ledger) || (r in t.admin && f.admin))
  {
    PageRespectsFilter(t, f, c, limit, rows);
    out, next := Scan(c, rows);
    if |out| < limit {
      next := START;
    }
  }

  /** Row by row, each moving the position of its own record. */
  method Scan(c: Cursor, rows: seq<Row>) returns (out: seq<Row>, next: Cursor)
    ensures out == rows && next == Advance(c, rows, |rows|)
  {
    next := c;
    out := [];
    for k := 0 to |rows|
      invariant out == rows[..k] && next == Advance(c, rows, k)
    {
      var entry := rows[k];
      if entry.Admin? {
        next := next.(admin := Some(entry));
      } else {
        next := next.(ledger := Some(entry));
      }
      out := out + [entry];
    }
  }

  lemma PageRespectsFilter(t: Trail, f: Filter, c: Cursor, limit: nat, page: seq<Row>)
    requires IsPage(Narrow(t, f), c, limit, page)
    ensures forall r :: r in page ==> f.matches(r) && ((r in t.ledger && f.ledger) || (r in t.admin && f.admin))
  {
  }

  lemma PageIsOfTheTrail(t: Trail, c: Cursor, limit: nat, page: seq<Row>)
    requires IsPage(t, c, limit, page)
    ensures forall r :: r in page ==> r in Rest(t, c)
  {
    var l, a :| IsPageOf(t, c, limit, page, l, a);
  }

  /** Where the cursor stands after k rows: at the last ledger row and the last admin row among them. */
  ghost predicate StandsAt(mark: Option<Row>, was: Option<Row>, page: seq<Row>, k: nat, admin: bool)
    requires k <= |page|
  {
    || (mark == was && forall i :: 0 <= i < k ==> page[i].Admin? != admin)
    || (exists i ::
          && 0 <= i < k && page[i].Admin? == admin && mark == Some(page[i])
          && forall j :: i < j < k ==> page[j].Admin? != admin)
  }

  lemma {:induction false} AdvanceStands(c: Cursor, page: seq<Row>, k: nat)
    requires k <= |page|
    ensures StandsAt(Advance(c, page, k).ledger, c.ledger, page, k, false)
    ensures StandsAt(Advance(c, page, k).admin, c.admin, page, k, true)
  {
    if k > 0 {
      AdvanceStands(c, page, k - 1);
      StandsOn(Advance(c, page, k - 1).ledger, c.ledger, page, k, false);
      StandsOn(Advance(c, page, k - 1).admin, c.admin, page, k, true);
    }
  }

  lemma StandsOn(mark: Option<Row>, was: Option<Row>, page: seq<Row>, k: nat, admin: bool)
    requires 0 < k <= |page| && StandsAt(mark, was, page, k - 1, admin)
    ensures StandsAt(if page[k - 1].Admin? == admin then Some(page[k - 1]) else mark, was, page, k, admin)
  {
  }

  // ------------------------------------------------------------- the orders

  lemma OuterIsStrict(a: Row, b: Row)
    ensures !(OuterBefore(a, b) && OuterBefore(b, a)) && !OuterBefore(a, a)
  {
    Text.LessIsStrict(Mark(a), Mark(b));
  }

  lemma OuterIsTransitive(a: Row, b: Row, c: Row)
    requires OuterBefore(a, b) && OuterBefore(b, c)
    ensures OuterBefore(a, c)
  {
    if a.at == b.at == c.at {
      Text.LessIsTransitive(Mark(c), Mark(b), Mark(a));
    }
  }

  lemma BranchIsStrict(a: Row, b: Row)
    ensures !(BranchBefore(a, b) && BranchBefore(b, a)) && !BranchBefore(a, a)
  {
    if a.Ledger? && b.Ledger? {
      Text.LessIsStrict(a.run, b.run);
    }
    if a.Ledger? {
      Text.LessIsStrict(a.run, a.run);
    }
  }

  lemma BranchIsTotal(a: Row, b: Row)
    requires a.Ledger? == b.Ledger?
    ensures a == b || BranchBefore(a, b) || BranchBefore(b, a)
  {
    if a.Ledger? {
      Text.LessIsTotal(a.run, b.run);
    }
  }

  lemma BranchIsTransitive(a: Row, b: Row, c: Row)
    requires BranchBefore(a, b) && BranchBefore(b, c)
    requires a.Ledger? == b.Ledger? == c.Ledger?
    ensures BranchBefore(a, c)
  {
    if a.Ledger? && a.at == b.at == c.at && Text.Less(c.run, b.run) && Text.Less(b.run, a.run) {
      Text.LessIsTransitive(c.run, b.run, a.run);
    }
  }

  /** Within an instant, the marks of the ledger's rows are in the order of their run and step. */
  ghost predicate Agrees(ledger: set<Row>) {
    forall a, b :: a in ledger && b in ledger && a.at == b.at && BranchBefore(a, b) ==> OuterBefore(a, b)
  }

  lemma LedgerOrdersAgree(ledger: set<Row>, a: Row, b: Row)
    requires Agrees(ledger) && a in ledger && b in ledger && a.Ledger? && b.Ledger?
    ensures BranchBefore(a, b) <==> OuterBefore(a, b)
  {
    BranchIsTotal(a, b);
    OuterIsStrict(a, b);
  }

  lemma AdminOrdersAgree(a: Row, b: Row)
    requires a.Admin? && b.Admin? && a.id < 0x8000_0000_0000_0000 && b.id < 0x8000_0000_0000_0000
    ensures BranchBefore(a, b) <==> OuterBefore(a, b)
  {
    Text.TwentyDigitsHoldABigint();
    Text.LPadIsFixed(a.id, 20);
    Text.LPadIsFixed(b.id, 20);
    if a.id < b.id {
      Text.FixedIsOrdered(a.id, b.id, 20);
    } else if b.id < a.id {
      Text.FixedIsOrdered(b.id, a.id, 20);
    }
    Text.LessIsStrict(Mark(a), Mark(b));
  }

  lemma MarksOfTwoRecordsDiffer(l: Row, a: Row)
    requires l.Ledger? && a.Admin? && a.id < 0x8000_0000_0000_0000
    ensures Mark(l) != Mark(a)
  {
    Text.TwentyDigitsHoldABigint();
    Text.LPadIsFixed(a.id, 20);
    Text.FixedIsAllDigits(a.id, 20);
    assert Mark(l)[|l.run|] == ':';
  }

  /** Two rows of the trail are always told apart by the outer order. */
  lemma OuterIsTotal(t: Trail, a: Row, b: Row)
    requires ValidTrail(t) && Agrees(t.ledger)
    requires a in t.ledger + t.admin && b in t.ledger + t.admin && a != b
    ensures OuterBefore(a, b) || OuterBefore(b, a)
  {
    if a in t.ledger && b in t.ledger {
      BranchIsTotal(a, b);
      LedgerOrdersAgree(t.ledger, a, b);
      LedgerOrdersAgree(t.ledger, b, a);
    } else if a in t.admin && b in t.admin {
      BranchIsTotal(a, b);
      AdminOrdersAgree(a, b);
      AdminOrdersAgree(b, a);
    } else {
      if a.Ledger? {
        MarksOfTwoRecordsDiffer(a, b);
      } else {
        MarksOfTwoRecordsDiffer(b, a);
      }
      Text.LessIsTotal(Mark(a), Mark(b));
    }
  }

  lemma BranchAgrees(t: Trail, a: Row, b: Row)
    requires ValidTrail(t) && Agrees(t.ledger)
    requires (a in t.ledger && b in t.ledger) || (a in t.admin && b in t.admin)
    ensures BranchBefore(a, b) <==> OuterBefore(a, b)
  {
    if a in t.ledger && b in t.ledger {
      LedgerOrdersAgree(t.ledger, a, b);
    } else {
      AdminOrdersAgree(a, b);
    }
  }

  // ------------------------------------------- top of a union of two tops

  ghost function Elements(rows: seq<Row>): set<Row> {
    set r | r in rows
  }

  lemma {:induction false} DistinctCount(rows: seq<Row>)
    requires forall i, j :: 0 <= i < j < |rows| ==> rows[i] != rows[j]
    ensures |Elements(rows)| == |rows|
  {
    if rows != [] {
      var n := |rows| - 1;
      DistinctCount(rows[..n]);
      assert Elements(rows) == Elements(rows[..n]) + {rows[n]};
    }
  }

  lemma {:induction false} SubsetIsSmaller(a: set<Row>, b: set<Row>)
    requires a <= b
    ensures |a| <= |b| && (|a| == |b| ==> a == b)
  {
    assert |b - a| == |b| - |a|;
  }

  lemma TopCount(rows: set<Row>, before: (Row, Row) -> bool, n: nat, out: seq<Row>)
    requires IsTop(rows, before, n, out)
    ensures |Elements(out)| == |out| && Elements(out) <= rows
    ensures |out| < n ==> Elements(out) == rows
  {
    DistinctCount(out);
    SubsetIsSmaller(Elements(out), rows);
  }

  /** A row its own branch left out cannot belong in the page: the whole limit stands before it. */
  lemma LeftOutStaysOut(rows: set<Row>, mine: seq<Row>, both: set<Row>, n: nat, page: seq<Row>, r: Row, o: Row)
    requires IsTop(rows, BranchBefore, n, mine) && IsTop(both, OuterBefore, n, page) && Elements(mine) <= both
    requires r in rows && r !in mine && o in page
    requires forall b :: b in mine ==> OuterBefore(b, r)
    ensures !OuterBefore(r, o)
  {
    if OuterBefore(r, o) {
      TopCount(rows, BranchBefore, n, mine);
      TopCount(both, OuterBefore, n, page);
      OuterIsStrict(r, o);
      forall b | b in mine ensures b in page {
        OuterIsTransitive(b, r, o);
        assert b in Elements(mine);
      }
      assert Elements(mine) + {o} <= Elements(page);
      assert o !in Elements(mine);
      SubsetIsSmaller(Elements(mine) + {o}, Elements(page));
    }
  }

  lemma LeftOutIsLater(t: Trail, rows: set<Row>, n: nat, mine: seq<Row>, r: Row)
    requires ValidTrail(t) && Agrees(t.ledger) && (rows <= t.ledger || rows <= t.admin)
    requires IsTop(rows, BranchBefore, n, mine) && r in rows && r !in mine
    ensures forall b :: b in mine ==> OuterBefore(b, r)
  {
    forall b | b in mine ensures OuterBefore(b, r) {
      BranchIsTotal(b, r);
      BranchAgrees(t, b, r);
    }
  }

  lemma PageRows(t: Trail, c: Cursor, limit: nat, page: seq<Row>, l: seq<Row>, a: seq<Row>)
    requires ValidTrail(t) && IsPageOf(t, c, limit, page, l, a)
    ensures forall r :: r in page ==> r in Rest(t, c)
    ensures |page| == if |Rest(t, c)| < limit then |Rest(t, c)| else limit
  {
    var X, Y := Past(t.ledger, c.ledger), Past(t.admin, c.admin);
    TopCount(X, BranchBefore, limit, l);
    TopCount(Y, BranchBefore, limit, a);
    assert X !! Y && Elements(l) !! Elements(a);
    assert |X + Y| == |X| + |Y| && |Elements(l) + Elements(a)| == |l| + |a|;
  }

  /** The page the two limited branches give is the page the whole trail would give. */
  lemma PageIsTopOfRest(t: Trail, c: Cursor, limit: nat, page: seq<Row>)
    requires ValidTrail(t) && Agrees(t.ledger) && IsPage(t, c, limit, page)
    ensures IsTop(Rest(t, c), OuterBefore, limit, page)
  {
    var l, a :| IsPageOf(t, c, limit, page, l, a);
    PageRows(t, c, limit, page, l, a);
    var X, Y, both := Past(t.ledger, c.ledger), Past(t.admin, c.admin), Elements(l) + Elements(a);
    forall r, o | r in Rest(t, c) && r !in page && o in page ensures !OuterBefore(r, o) {
      if r in X && r !in l {
        LeftOutIsLater(t, X, limit, l, r);
        LeftOutStaysOut(X, l, both, limit, page, r, o);
      } else if r in Y && r !in a {
        LeftOutIsLater(t, Y, limit, a, r);
        LeftOutStaysOut(Y, a, both, limit, page, r, o);
      }
    }
  }

  // --------------------------------------------------------- walking pages

  ghost predicate ValidCursor(c: Cursor) {
    (c.ledger.Some? ==> c.ledger.value.Ledger?) && (c.admin.Some? ==> c.admin.value.Admin?)
  }

  lemma {:induction false} AdvanceIsValid(c: Cursor, page: seq<Row>, k: nat)
    requires k <= |page| && ValidCursor(c)
    ensures ValidCursor(Advance(c, page, k)) && (k > 0 ==> !Advance(c, page, k).Empty())
  {
    if k > 0 {
      AdvanceIsValid(c, page, k - 1);
    }
  }

  /** Of one record, the next page starts after exactly what this page carried. */
  lemma RecordResumes(t: Trail, c: Cursor, n: nat, page: seq<Row>, admin: bool, rows: set<Row>, was: Option<Row>,
                      mark: Option<Row>)
    requires ValidTrail(t) && Agrees(t.ledger) && IsTop(Rest(t, c), OuterBefore, n, page)
    requires rows == if admin then t.admin else t.ledger
    requires was == if admin then c.admin else c.ledger
    requires was.Some? ==> was.value.Admin? == admin
    requires StandsAt(mark, was, page, |page|, admin)
    ensures Past(rows, mark) == Past(rows, was) - Elements(page)
  {
    forall r | r in rows ensures r in Past(rows, mark) <==> r in Past(rows, was) && r !in page {
      if !(mark == was && forall i :: 0 <= i < |page| ==> page[i].Admin? != admin) {
        var i :| 0 <= i < |page| && page[i].Admin? == admin && mark == Some(page[i])
                 && forall j :: i < j < |page| ==> page[j].Admin? != admin;
        LastOfRecord(t, c, n, page, admin, rows, was, i, r);
        ResumesPast(t, rows, was, page[i], r, r in page);
      }
    }
  }

  /** How a row of the record stands to the last one the page carried. */
  lemma LastOfRecord(t: Trail, c: Cursor, n: nat, page: seq<Row>, admin: bool, rows: set<Row>, was: Option<Row>,
                     i: nat, r: Row)
    requires ValidTrail(t) && IsTop(Rest(t, c), OuterBefore, n, page)
    requires rows == if admin then t.admin else t.ledger
    requires was == if admin then c.admin else c.ledger
    requires i < |page| && page[i].Admin? == admin && forall j :: i < j < |page| ==> page[j].Admin? != admin
    requires r in rows
    ensures page[i] in Past(rows, was)
    ensures r in page ==> r in Past(rows, was) && !OuterBefore(page[i], r)
    ensures r !in page && r in Past(rows, was) ==> r != page[i] && !OuterBefore(r, page[i])
  {
    assert page[i] in page && page[i] in Rest(t, c);
    if r in page {
      var j :| 0 <= j < |page| && page[j] == r;
      OuterIsStrict(r, r);
    }
  }

  lemma ResumesPast(t: Trail, rows: set<Row>, was: Option<Row>, m: Row, r: Row, carried: bool)
    requires ValidTrail(t) && Agrees(t.ledger) && (rows == t.ledger || rows == t.admin) && r in rows
    requires was.Some? ==> was.value.Admin? == r.Admin?
    requires m in Past(rows, was)
    requires carried ==> r in Past(rows, was) && !OuterBefore(m, r)
    requires !carried && r in Past(rows, was) ==> r != m && !OuterBefore(r, m)
    ensures BranchBefore(m, r) <==> r in Past(rows, was) && !carried
  {
    BranchAgrees(t, m, r);
    if !carried && r in Past(rows, was) {
      OuterIsTotal(t, m, r);
    } else if BranchBefore(m, r) && was.Some? {
      BranchIsTransitive(was.value, m, r);
    }
  }

  lemma NextStartsAfter(t: Trail, c: Cursor, n: nat, page: seq<Row>)
    requires ValidTrail(t) && Agrees(t.ledger) && ValidCursor(c) && IsTop(Rest(t, c), OuterBefore, n, page)
    ensures Rest(t, Advance(c, page, |page|)) == Rest(t, c) - Elements(page)
  {
    var next := Advance(c, page, |page|);
    AdvanceStands(c, page, |page|);
    RecordResumes(t, c, n, page, false, t.ledger, c.ledger, next.ledger);
    RecordResumes(t, c, n, page, true, t.admin, c.admin, next.admin);
    UnionWithout(Past(t.ledger, c.ledger), Past(t.admin, c.admin), Elements(page));
  }

  lemma UnionWithout(a: set<Row>, b: set<Row>, gone: set<Row>)
    ensures (a - gone) + (b - gone) == (a + b) - gone
  {
  }

  /** Following cursors from c until one comes back empty. */
  ghost predicate IsWalk(t: Trail, limit: nat, c: Cursor, pages: seq<seq<Row>>)
    decreases |pages|
  {
    && pages != [] && IsPage(t, c, limit, pages[0])
    && var next := NextCursor(c, pages[0], limit);
       if next.Empty() then |pages| == 1 else IsWalk(t, limit, next, pages[1..])
  }

  function Flatten(pages: seq<seq<Row>>): seq<Row> {
    if pages == [] then [] else pages[0] + Flatten(pages[1..])
  }

  /** The rows in merged order, each once. */
  ghost predicate IsMerged(rows: set<Row>, out: seq<Row>) {
    && (forall r :: r in out <==> r in rows)
    && (forall i, j :: 0 <= i < j < |out| ==> OuterBefore(out[i], out[j]))
  }

  lemma PageIsMerged(t: Trail, c: Cursor, n: nat, page: seq<Row>)
    requires ValidTrail(t) && Agrees(t.ledger) && IsTop(Rest(t, c), OuterBefore, n, page)
    ensures IsMerged(Elements(page), page)
  {
    forall i, j | 0 <= i < j < |page| ensures OuterBefore(page[i], page[j]) {
      assert page[i] in page && page[j] in page;
      OuterIsTotal(t, page[i], page[j]);
    }
  }

  lemma MergedConcat(t: Trail, c: Cursor, n: nat, page: seq<Row>, rest: seq<Row>)
    requires ValidTrail(t) && Agrees(t.ledger) && IsTop(Rest(t, c), OuterBefore, n, page)
    requires IsMerged(Rest(t, c) - Elements(page), rest)
    ensures IsMerged(Rest(t, c), page + rest)
  {
    PageIsMerged(t, c, n, page);
    forall i, j | 0 <= i < |page| && 0 <= j < |rest| ensures OuterBefore(page[i], rest[j]) {
      assert page[i] in page && rest[j] in rest;
      OuterIsTotal(t, page[i], rest[j]);
    }
  }

  /** Walking the pages yields what lies past the cursor: every row once, in the merged order. */
  lemma {:induction false} WalkIsRest(t: Trail, limit: nat, c: Cursor, pages: seq<seq<Row>>)
    requires ValidTrail(t) && Agrees(t.ledger) && ValidCursor(c) && limit > 0
    requires IsWalk(t, limit, c, pages)
    ensures IsMerged(Rest(t, c), Flatten(pages))
    decreases |pages|
  {
    var page := pages[0];
    PageIsTopOfRest(t, c, limit, page);
    if |page| < limit {
      TopCount(Rest(t, c), OuterBefore, limit, page);
      PageIsMerged(t, c, limit, page);
      assert Flatten(pages) == page + Flatten(pages[1..]) == page;
    } else {
      var next := Advance(c, page, |page|);
      AdvanceIsValid(c, page, |page|);
      NextStartsAfter(t, c, limit, page);
      WalkIsRest(t, limit, next, pages[1..]);
      MergedConcat(t, c, limit, page, Flatten(pages[1..]));
    }
  }

  /** From the empty cursor, any page size: the pages are the whole trail in merged order, each entry once. */
  lemma WalkIsTheTrail(t: Trail, limit: nat, pages: seq<seq<Row>>)
    requires ValidTrail(t) && Agrees(t.ledger) && limit > 0 && IsWalk(t, limit, START, pages)
    ensures IsMerged(t.ledger + t.admin, Flatten(pages))
  {
    WalkIsRest(t, limit, START, pages);
  }

  /** There is only one merged order. */
  lemma {:induction false} MergedIsUnique(rows: set<Row>, a: seq<Row>, b: seq<Row>)
    requires IsMerged(rows, a) && IsMerged(rows, b)
    ensures a == b
  {
    EmptyWhenNothing(rows, a);
    EmptyWhenNothing(rows, b);
    if a != [] {
      SameFirst(rows, a, b);
      var rest := rows - {a[0]};
      MergedTail(rows, a);
      MergedTail(rows, b);
      MergedIsUnique(rest, a[1..], b[1..]);
      assert a == [a[0]] + a[1..] && b == [b[0]] + b[1..];
    }
  }

  lemma EmptyWhenNothing(rows: set<Row>, a: seq<Row>)
    requires IsMerged(rows, a)
    ensures a == [] <==> rows == {}
  {
    if a != [] {
      assert a[0] in rows;
    }
  }

  lemma SameFirst(rows: set<Row>, a: seq<Row>, b: seq<Row>)
    requires IsMerged(rows, a) && IsMerged(rows, b) && a != [] && b != []
    ensures a[0] == b[0]
  {
    assert a[0] in b && b[0] in a;
    var i :| 0 <= i < |b| && b[i] == a[0];
    var j :| 0 <= j < |a| && a[j] == b[0];
    OuterIsStrict(a[0], b[0]);
  }

  lemma MergedTail(rows: set<Row>, a: seq<Row>)
    requires IsMerged(rows, a) && a != []
    ensures IsMerged(rows - {a[0]}, a[1..])
  {
    forall r ensures r in a[1..] <==> r in rows && r != a[0] {
      OuterIsStrict(a[0], a[0]);
      if r in a[1..] {
        var i :| 0 <= i < |a[1..]| && a[1..][i] == r;
        assert a[i + 1] == r;
      }
      assert a == [a[0]] + a[1..];
    }
  }

  // ------------------------------------------------ every walk is finite

  lemma RecordShrinks(rows: set<Row>, was: Option<Row>, page: seq<Row>, mark: Option<Row>, admin: bool)
    requires forall r :: r in rows ==> r.Admin? == admin
    requires was.Some? ==> was.value.Admin? == admin
    requires forall r :: r in page && r.Admin? == admin ==> r in Past(rows, was)
    requires StandsAt(mark, was, page, |page|, admin)
    ensures Past(rows, mark) <= Past(rows, was)
    ensures mark != was ==> mark.Some? && mark.value in page
    ensures mark.Some? ==> mark.value !in Past(rows, mark)
  {
    if mark.Some? {
      BranchIsStrict(mark.value, mark.value);
      forall r | r in Past(rows, mark) ensures r in Past(rows, was) {
        if was.Some? && mark != was {
          BranchIsTransitive(was.value, mark.value, r);
        }
      }
    }
  }

  /** Whatever the marks, a full page leaves less to read. */
  lemma RestShrinks(t: Trail, c: Cursor, limit: nat, page: seq<Row>)
    requires ValidTrail(t) && ValidCursor(c) && IsPage(t, c, limit, page) && page != []
    ensures Rest(t, Advance(c, page, |page|)) < Rest(t, c)
  {
    PageIsOfTheTrail(t, c, limit, page);
    AdvanceStands(c, page, |page|);
    var next := Advance(c, page, |page|);
    RecordShrinks(t.ledger, c.ledger, page, next.ledger, false);
    RecordShrinks(t.admin, c.admin, page, next.admin, true);
    var last := page[|page| - 1];
    assert last in page && last in Rest(t, c);
    assert last !in Rest(t, next) by {
      assert next == Moved(Advance(c, page, |page| - 1), last);
    }
  }

  /** Following the cursors ends, after at most one page more than there are rows. */
  lemma {:induction false} WalkIsShort(t: Trail, limit: nat, c: Cursor, pages: seq<seq<Row>>)
    requires ValidTrail(t) && ValidCursor(c) && limit > 0 && IsWalk(t, limit, c, pages)
    ensures |pages| <= |Rest(t, c)| + 1
    ensures forall r :: r in Flatten(pages) ==> r in Rest(t, c)
    decreases |pages|
  {
    PageIsOfTheTrail(t, c, limit, pages[0]);
    if |pages[0]| >= limit {
      AdvanceIsValid(c, pages[0], |pages[0]|);
      RestShrinks(t, c, limit, pages[0]);
      var next := Advance(c, pages[0], |pages[0]|);
      WalkIsShort(t, limit, next, pages[1..]);
      SubsetIsSmaller(Rest(t, next), Rest(t, c));
    } else {
      assert Flatten(pages[1..]) == [];
    }
  }

  ghost predicate Orders(rows: set<Row>, before: (Row, Row) -> bool) {
    && (forall a :: a in rows ==> !before(a, a))
    && (forall a, b, c :: a in rows && b in rows && c in rows && before(a, b) && before(b, c) ==> before(a, c))
  }

  lemma {:induction false} FirstExists(rows: set<Row>, before: (Row, Row) -> bool) returns (m: Row)
    requires rows != {} && Orders(rows, before)
    ensures m in rows && forall r :: r in rows ==> !before(r, m)
  {
    var x :| x in rows;
    m := x;
    if rows - {x} != {} {
      var other := FirstExists(rows - {x}, before);
      m := if before(x, other) then x else other;
    }
    forall r | r in rows ensures !before(r, m) {
      if r != x {
        assert r in rows - {x};
      }
    }
  }

  lemma {:induction false} TopExists(rows: set<Row>, before: (Row, Row) -> bool, n: nat) returns (out: seq<Row>)
    requires Orders(rows, before)
    ensures IsTop(rows, before, n, out)
  {
    if n == 0 || rows == {} {
      out := [];
    } else {
      var m := FirstExists(rows, before);
      var rest := TopExists(rows - {m}, before, n - 1);
      out := [m] + rest;
    }
  }

  lemma RecordsAreOrdered(t: Trail)
    requires ValidTrail(t)
    ensures Orders(t.ledger, BranchBefore) && Orders(t.admin, BranchBefore)
  {
    forall a, b, c | BranchBefore(a, b) && BranchBefore(b, c) && a.Ledger? == b.Ledger? == c.Ledger?
      ensures BranchBefore(a, c)
    {
      BranchIsTransitive(a, b, c);
    }
    forall a | true ensures !BranchBefore(a, a) {
      BranchIsStrict(a, a);
    }
  }

  lemma AllIsOuterOrdered(rows: set<Row>)
    ensures Orders(rows, OuterBefore)
  {
    forall a, b, c | OuterBefore(a, b) && OuterBefore(b, c) ensures OuterBefore(a, c) {
      OuterIsTransitive(a, b, c);
    }
    forall a | true ensures !OuterBefore(a, a) {
      OuterIsStrict(a, a);
    }
  }

  lemma PageExists(t: Trail, c: Cursor, limit: nat) returns (page: seq<Row>)
    requires ValidTrail(t)
    ensures IsPage(t, c, limit, page)
  {
    RecordsAreOrdered(t);
    var l := TopExists(Past(t.ledger, c.ledger), BranchBefore, limit);
    var a := TopExists(Past(t.admin, c.admin), BranchBefore, limit);
    AllIsOuterOrdered(Elements(l) + Elements(a));
    page := TopExists(Elements(l) + Elements(a), OuterBefore, limit);
    assert IsPageOf(t, c, limit, page, l, a);
  }

  lemma {:induction false} WalkExists(t: Trail, limit: nat, c: Cursor) returns (pages: seq<seq<Row>>)
    requires ValidTrail(t) && ValidCursor(c) && limit > 0
    ensures IsWalk(t, limit, c, pages)
    decreases |Rest(t, c)|
  {
    var page := PageExists(t, c, limit);
    pages := [page];
    if |page| >= limit {
      AdvanceIsValid(c, page, |page|);
      RestShrinks(t, c, limit, page);
      var next := Advance(c, page, |page|);
      SubsetIsSmaller(Rest(t, next), Rest(t, c));
      var more := WalkExists(t, limit, next);
      pages := [page] + more;
      assert pages[1..] == more;
    }
  }

  // --------------------------------------- when the marks do not agree

  lemma {:induction false} LaterThanAll(rows: set<Row>) returns (at: int)
    ensures forall r :: r in rows ==> r.at < at
  {
    if rows == {} {
      at := 0;
    } else {
      var x :| x in rows;
      var rest := LaterThanAll(rows - {x});
      at := if x.at < rest then rest else x.at + 1;
      assert forall r :: r in rows ==> r == x || r in rows - {x};
    }
  }

  /** n administrative rows at one instant, newest first. */
  function AdminRows(at: int, n: nat): seq<Row> {
    seq(n, i requires 0 <= i < n => Admin(at, n - 1 - i))
  }

  lemma AdminRowsAreATop(at: int, n: nat, limit: nat)
    requires n <= limit && n < 0x8000_0000_0000_0000
    ensures IsTop(Elements(AdminRows(at, n)), BranchBefore, limit, AdminRows(at, n))
    ensures |Elements(AdminRows(at, n))| == n
    ensures forall i, j :: 0 <= i < j < n ==> !OuterBefore(AdminRows(at, n)[j], AdminRows(at, n)[i])
  {
    var rows := AdminRows(at, n);
    DistinctCount(rows);
    forall i, j | 0 <= i < j < n ensures !OuterBefore(rows[j], rows[i]) {
      AdminOrdersAgree(rows[j], rows[i]);
    }
  }

  /** The rows that must come before p by mark. */
  ghost function Ahead(ledger: set<Row>, p: Row): set<Row> {
    set r | r in ledger && OuterBefore(r, p)
  }

  lemma NothingLeftOutIsAhead(ledger: set<Row>, p: Row, hi: int, admins: seq<Row>, ahead: seq<Row>, r: Row, o: Row)
    requires p in ledger && (forall x :: x in ledger ==> x.at < hi) && (forall x :: x in admins ==> x.at == hi)
    requires Elements(ahead) == Ahead(ledger, p)
    requires r in ledger && r !in admins + ahead + [p] && o in admins + ahead + [p]
    ensures !OuterBefore(r, o)
  {
    assert r !in ahead && r !in Elements(ahead);
    if o in ahead && OuterBefore(r, o) {
      assert o in Elements(ahead);
      OuterIsTransitive(r, o, p);
    }
  }

  /** A page that ends with p: newer administrative rows, then everything the marks put before p, then p. */
  lemma PageEndingWith(ledger: set<Row>, p: Row, hi: int, admins: seq<Row>, ahead: seq<Row>, limit: nat)
    requires ValidTrail(Trail(ledger, Elements(admins))) && p in ledger && (forall r :: r in ledger ==> r.at < hi)
    requires IsTop(Elements(admins), BranchBefore, limit, admins) && (forall r :: r in admins ==> r.at == hi)
    requires forall i, j :: 0 <= i < j < |admins| ==> !OuterBefore(admins[j], admins[i])
    requires IsTop(Ahead(ledger, p), OuterBefore, |Ahead(ledger, p)|, ahead)
    requires limit == |ledger| + 1 == |admins| + |ahead| + 1 && |admins| > 0
    ensures IsTop(ledger + Elements(admins), OuterBefore, limit, admins + ahead + [p])
  {
    var page := admins + ahead + [p];
    DistinctCount(admins);
    DistinctCount(ahead);
    SubsetIsSmaller(Elements(ahead), Ahead(ledger, p));
    assert ledger !! Elements(admins);
    assert |ledger + Elements(admins)| == |ledger| + |admins|;
    PageIsSorted(ledger, p, hi, admins, ahead);
    PageHoldsAhead(ledger, p, admins, ahead);
    forall r, o | r in ledger + Elements(admins) && r !in page && o in page ensures !OuterBefore(r, o) {
      assert r in Elements(admins) ==> r in page;
      NothingLeftOutIsAhead(ledger, p, hi, admins, ahead, r, o);
    }
  }

  lemma PageHoldsAhead(ledger: set<Row>, p: Row, admins: seq<Row>, ahead: seq<Row>)
    requires p in ledger && Elements(ahead) == Ahead(ledger, p)
    ensures forall r :: r in admins + ahead + [p] ==> r in ledger + Elements(admins)
  {
    forall r | r in admins + ahead + [p] ensures r in ledger + Elements(admins) {
      assert r in ahead ==> r in Elements(ahead);
    }
  }

  lemma PageIsSorted(ledger: set<Row>, p: Row, hi: int, admins: seq<Row>, ahead: seq<Row>)
    requires ValidTrail(Trail(ledger, Elements(admins))) && p in ledger && (forall r :: r in ledger ==> r.at < hi)
    requires forall r :: r in admins ==> r.at == hi
    requires forall i, j :: 0 <= i < j < |admins| ==> admins[i] != admins[j] && !OuterBefore(admins[j], admins[i])
    requires forall i, j :: 0 <= i < j < |ahead| ==> ahead[i] != ahead[j] && !OuterBefore(ahead[j], ahead[i])
    requires forall r :: r in ahead ==> r in Ahead(ledger, p)
    ensures var page := admins + ahead + [p];
            forall i, j :: 0 <= i < j < |page| ==> page[i] != page[j] && !OuterBefore(page[j], page[i])
  {
    var page := admins + ahead + [p];
    OuterIsStrict(p, p);
    forall i, j | 0 <= i < j < |page| ensures page[i] != page[j] && !OuterBefore(page[j], page[i]) {
      if i < |admins| {
        assert page[i] in admins;
        if j < |admins| + |ahead| && |admins| <= j {
          assert page[j] in ahead;
        }
      } else if j == |page| - 1 {
        assert page[i] in ahead;
        OuterIsStrict(page[i], p);
      }
    }
  }

  lemma PageFromWholeRecords(t: Trail, limit: nat, page: seq<Row>, admins: seq<Row>)
    requires ValidTrail(t) && |t.ledger| < limit && t.admin == Elements(admins)
    requires IsTop(t.admin, BranchBefore, limit, admins) && IsTop(t.ledger + t.admin, OuterBefore, limit, page)
    ensures IsPage(t, START, limit, page)
  {
    RecordsAreOrdered(t);
    var l := TopExists(t.ledger, BranchBefore, limit);
    TopCount(t.ledger, BranchBefore, limit, l);
    assert Elements(l) == t.ledger;
    assert IsPageOf(t, START, limit, page, l, admins);
  }

  lemma AheadInOrder(ledger: set<Row>, p: Row) returns (ahead: seq<Row>)
    requires p in ledger
    ensures IsTop(Ahead(ledger, p), OuterBefore, |Ahead(ledger, p)|, ahead) && |ahead| < |ledger|
    ensures forall r :: r in ahead ==> OuterBefore(r, p)
  {
    AllIsOuterOrdered(Ahead(ledger, p));
    ahead := TopExists(Ahead(ledger, p), OuterBefore, |Ahead(ledger, p)|);
    OuterIsStrict(p, p);
    SubsetIsSmaller(Ahead(ledger, p), ledger - {p});
  }

  /** An administrative record and a page size for which p can end the first page. */
  lemma FirstPageEndingWith(ledger: set<Row>, p: Row) returns (admin: set<Row>, limit: nat, before: seq<Row>)
    requires (forall r :: r in ledger ==> r.Ledger?) && |ledger| < 0x8000_0000_0000_0000 && p in ledger
    ensures ValidTrail(Trail(ledger, admin)) && limit == |before| + 1
    ensures IsPage(Trail(ledger, admin), START, limit, before + [p])
    ensures forall r :: r in before && r in ledger ==> OuterBefore(r, p)
  {
    var hi := LaterThanAll(ledger);
    var ahead := AheadInOrder(ledger, p);
    limit := |ledger| + 1;
    var admins := AdminRows(hi, |ledger| - |ahead|);
    AdminRowsAreATop(hi, |ledger| - |ahead|, limit);
    admin := Elements(admins);
    before := admins + ahead;
    PageEndingWith(ledger, p, hi, admins, ahead, limit);
    PageFromWholeRecords(Trail(ledger, admin), limit, before + [p], admins);
  }

  /** Two rows of one instant the marks put the wrong way round: some administrative record and some
      page size make a walk that never shows one of them. */
  lemma DisagreementLosesARow(ledger: set<Row>, p: Row, q: Row)
    returns (admin: set<Row>, limit: nat, pages: seq<seq<Row>>)
    requires (forall r :: r in ledger ==> r.Ledger?) && |ledger| < 0x8000_0000_0000_0000
    requires p in ledger && q in ledger && p.at == q.at && BranchBefore(q, p) && !OuterBefore(q, p)
    ensures ValidTrail(Trail(ledger, admin)) && limit > 0
    ensures IsWalk(Trail(ledger, admin), limit, START, pages) && q !in Flatten(pages)
  {
    var before;
    admin, limit, before := FirstPageEndingWith(ledger, p);
    var page := before + [p];
    var more := NeverComesBack(Trail(ledger, admin), limit, page, p, q);
    pages := [page] + more;
    OnePageMore(Trail(ledger, admin), limit, page, more);
    BranchIsStrict(p, q);
  }

  lemma OnePageMore(t: Trail, limit: nat, page: seq<Row>, more: seq<seq<Row>>)
    requires IsPage(t, START, limit, page) && |page| >= limit && !Advance(START, page, |page|).Empty()
    requires IsWalk(t, limit, Advance(START, page, |page|), more)
    ensures IsWalk(t, limit, START, [page] + more) && Flatten([page] + more) == page + Flatten(more)
  {
    assert ([page] + more)[1..] == more;
  }

  /** Past a ledger position, the rows before it are out of every later page. */
  lemma NeverComesBack(t: Trail, limit: nat, page: seq<Row>, p: Row, q: Row) returns (more: seq<seq<Row>>)
    requires ValidTrail(t) && limit > 0 && |page| >= limit && page[|page| - 1] == p
    requires p in t.ledger && q in t.ledger && BranchBefore(q, p)
    ensures IsWalk(t, limit, Advance(START, page, |page|), more) && q !in Flatten(more)
    ensures !Advance(START, page, |page|).Empty()
  {
    AdvanceIsValid(START, page, |page|);
    var next := Advance(START, page, |page|);
    assert next.ledger == Some(p);
    more := WalkExists(t, limit, next);
    WalkIsShort(t, limit, next, more);
    BranchIsStrict(q, p);
  }

  /** Every walk, over any administrative record and with any page size, is the whole trail. */
  ghost predicate AlwaysComplete(ledger: set<Row>) {
    forall admin, limit: nat, pages ::
      ValidTrail(Trail(ledger, admin)) && limit > 0 && IsWalk(Trail(ledger, admin), limit, START, pages) ==>
        IsMerged(ledger + admin, Flatten(pages))
  }

  /** Paging rebuilds the trail exactly when the marks agree with the ledger's own order. */
  lemma CompleteExactlyWhenMarksAgree(ledger: set<Row>)
    requires (forall r :: r in ledger ==> r.Ledger?) && |ledger| < 0x8000_0000_0000_0000
    ensures AlwaysComplete(ledger) <==> Agrees(ledger)
  {
    if Agrees(ledger) {
      forall admin, limit: nat, pages |
        ValidTrail(Trail(ledger, admin)) && limit > 0 && IsWalk(Trail(ledger, admin), limit, START, pages)
        ensures IsMerged(ledger + admin, Flatten(pages))
      {
        WalkIsTheTrail(Trail(ledger, admin), limit, pages);
      }
    } else {
      var q, p :| p in ledger && q in ledger && q.at == p.at && BranchBefore(q, p) && !OuterBefore(q, p);
      var admin, limit, pages := DisagreementLosesARow(ledger, p, q);
      assert !IsMerged(ledger + admin, Flatten(pages));
    }
  }

  /** What makes the marks agree: steps of at most twelve digits, and within an instant no run
      identifier that extends another. */
  ghost predicate PlainRuns(ledger: set<Row>) {
    && (forall r :: r in ledger ==> r.Ledger? && r.num < Text.Pow10(12))
    && (forall a, b :: a in ledger && b in ledger && a.at == b.at && a.run <= b.run ==> a.run == b.run)
  }

  lemma PlainRunsAgree(ledger: set<Row>)
    requires PlainRuns(ledger)
    ensures Agrees(ledger)
  {
    forall a, b | a in ledger && b in ledger && a.at == b.at && BranchBefore(a, b) ensures OuterBefore(a, b) {
      if a.run == b.run {
        SameRunAgrees(a, b);
      } else {
        OtherRunAgrees(a, b);
      }
    }
  }

  lemma SameRunAgrees(a: Row, b: Row)
    requires a.Ledger? && b.Ledger? && a.run == b.run && a.at == b.at && BranchBefore(a, b) && a.num < Text.Pow10(12)
    ensures OuterBefore(a, b)
  {
    var x, y := ":" + Text.LPad(a.num, 12), ":" + Text.LPad(b.num, 12);
    assert Mark(a) == a.run + x && Mark(b) == b.run + y;
    Text.LessIsStrict(a.run, b.run);
    PaddedInOrder(b.num, a.num);
    Text.LessAfterTheSame(a.run, y, x);
  }

  lemma PaddedInOrder(a: nat, b: nat)
    requires a < b < Text.Pow10(12)
    ensures Text.Less(":" + Text.LPad(a, 12), ":" + Text.LPad(b, 12))
  {
    Text.LPadIsFixed(a, 12);
    Text.LPadIsFixed(b, 12);
    Text.FixedIsOrdered(a, b, 12);
    Text.LessAfterTheSame(":", Text.LPad(a, 12), Text.LPad(b, 12));
  }

  lemma OtherRunAgrees(a: Row, b: Row)
    requires a.Ledger? && b.Ledger? && a.run != b.run && a.at == b.at && BranchBefore(a, b) && !(b.run <= a.run)
    ensures OuterBefore(a, b)
  {
    var x, y := ":" + Text.LPad(a.num, 12), ":" + Text.LPad(b.num, 12);
    assert Mark(a) == a.run + x && Mark(b) == b.run + y;
    Text.LessWhateverFollows(b.run, a.run, y, x);
  }

  /** Run "run-10" extends run "run-1": at one instant their marks are the wrong way round. */
  lemma ExtendingRunsDisagree(at: int)
    ensures !Agrees({Ledger(at, "run-1", 1), Ledger(at, "run-10", 1)})
    ensures !AlwaysComplete({Ledger(at, "run-1", 1), Ledger(at, "run-10", 1)})
  {
    var p, q := Ledger(at, "run-1", 1), Ledger(at, "run-10", 1);
    ExtendedRunIsMarkedLater(at);
    OuterIsStrict(p, q);
    CompleteExactlyWhenMarksAgree({p, q});
  }

  lemma ExtendedRunIsMarkedLater(at: int)
    ensures BranchBefore(Ledger(at, "run-10", 1), Ledger(at, "run-1", 1))
    ensures OuterBefore(Ledger(at, "run-1", 1), Ledger(at, "run-10", 1))
  {
    var p, q := Ledger(at, "run-1", 1), Ledger(at, "run-10", 1);
    var x, y := ":" + Text.LPad(1, 12), "0:" + Text.LPad(1, 12);
    assert Mark(p) == "run-1" + x && Mark(q) == "run-1" + y;
    Text.LessAfterTheSame("run-1", y, x);
    Text.LessAfterTheSame("run-1", "", "0");
    assert "run-1" + "" == "run-1" && "run-1" + "0" == "run-10";
  }
}
