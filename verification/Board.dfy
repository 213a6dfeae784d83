/** The lane table as the environment gives it: a list of name=value pairs that refuses repeats. */
module Pairs {

  predicate Blank(c: char) {
    c == ' ' || c == '\t' || c == '\n' || c == '\r'
  }

  function TrimSpace(s: string): string {
    if s != [] && Blank(s[0]) then TrimSpace(s[1..])
    else if s != [] && Blank(s[|s| - 1]) then TrimSpace(s[..|s| - 1])
    else s
  }

  /** Where c first stands in s, or |s|. */
  function IndexOf(s: string, c: char): (i: nat)
    ensures i <= |s|
  {
    if s == [] || s[0] == c then 0 else 1 + IndexOf(s[1..], c)
  }

  function Split(s: string, c: char): (parts: seq<string>)
    ensures parts != []
    decreases |s|
  {
    var i := IndexOf(s, c);
    if i == |s| then [s] else [s[..i]] + Split(s[i + 1..], c)
  }

  /** One entry of the list: its name, its value, and whether it held a separator. */
  datatype Entry = Entry(name: string, value: string, split: bool)

  function ParseEntry(item: string): Entry {
    var text := TrimSpace(item);
    var i := IndexOf(text, '=');
    if i == |text| then Entry(TrimSpace(text), "", false)
    else Entry(TrimSpace(text[..i]), TrimSpace(text[i + 1..]), true)
  }

  function Parse(raw: string): seq<Entry> {
    var items := Split(TrimSpace(raw), ',');
    seq(|items|, i requires 0 <= i < |items| => ParseEntry(items[i]))
  }

  datatype Fault = NoFault | Required | Malformed | UnknownName | Repeats | Incomplete

  predicate Fine(e: Entry, names: seq<string>, check: string -> bool) {
    e.split && check(e.value) && e.name in names
  }

  /** The later of two entries repeats nothing: another value, and a name not yet given one. */
  predicate Apart(a: Entry, b: Entry) {
    a.value != b.value && (a.name == b.name ==> a.value == "")
  }

  /** The first n entries of a list the reader takes. */
  ghost predicate Taken(entries: seq<Entry>, n: nat, names: seq<string>, check: string -> bool)
    requires n <= |entries|
  {
    && (forall i :: 0 <= i < n ==> Fine(entries[i], names, check))
    && (forall i, j :: 0 <= i < j < n ==> Apart(entries[i], entries[j]))
  }

  /** Each name with the last value given for it. */
  function Table(entries: seq<Entry>, n: nat): map<string, string>
    requires n <= |entries|
  {
    if n == 0 then map[] else Table(entries, n - 1)[entries[n - 1].name := entries[n - 1].value]
  }

  function ValuesIn(entries: seq<Entry>, n: nat): set<string>
    requires n <= |entries|
  {
    set i | 0 <= i < n :: entries[i].value
  }

  /** The table reads back what was written: no two names share a value. */
  ghost predicate Injective<K(!new), V>(table: map<K, V>) {
    forall a, b :: a in table && b in table && table[a] == table[b] ==> a == b
  }

  lemma {:induction false} TableHolds(entries: seq<Entry>, n: nat, k: string) returns (i: nat)
    requires n <= |entries| && k in Table(entries, n)
    ensures i < n && entries[i].name == k && Table(entries, n)[k] == entries[i].value
    ensures forall j :: i < j < n ==> entries[j].name != k
  {
    if entries[n - 1].name == k {
      i := n - 1;
    } else {
      i := TableHolds(entries, n - 1, k);
    }
  }

  lemma {:induction false} TableHas(entries: seq<Entry>, n: nat, i: nat)
    requires i < n <= |entries|
    ensures entries[i].name in Table(entries, n)
  {
    if i < n - 1 {
      TableHas(entries, n - 1, i);
    }
  }

  /** A taken list gives no two names one value, every value passes the check, and every name is known. */
  lemma TakenIsInjective(entries: seq<Entry>, names: seq<string>, check: string -> bool)
    requires Taken(entries, |entries|, names, check)
    ensures Injective(Table(entries, |entries|))
    ensures forall k :: k in Table(entries, |entries|) ==> k in names && check(Table(entries, |entries|)[k])
  {
    var table := Table(entries, |entries|);
    forall a, b | a in table && b in table && table[a] == table[b] ensures a == b {
      var i := TableHolds(entries, |entries|, a);
      var j := TableHolds(entries, |entries|, b);
      assert i < j ==> Apart(entries[i], entries[j]);
      assert j < i ==> Apart(entries[j], entries[i]);
    }
    forall k | k in table ensures k in names && check(table[k]) {
      var i := TableHolds(entries, |entries|, k);
      assert Fine(entries[i], names, check);
    }
  }

  /** Where no value may be empty, a taken list names each name once, and the table holds it entry by entry. */
  lemma TakenIsHeld(entries: seq<Entry>, names: seq<string>, check: string -> bool, i: nat)
    requires Taken(entries, |entries|, names, check) && !check("") && i < |entries|
    ensures entries[i].name in Table(entries, |entries|)
            && Table(entries, |entries|)[entries[i].name] == entries[i].value
  {
    TableHas(entries, |entries|, i);
    var j := TableHolds(entries, |entries|, entries[i].name);
    assert Fine(entries[i], names, check);
  }

  /** What the reader compares an entry with decides whether the list is still taken with it. */
  lemma TakenWithOneMore(entries: seq<Entry>, n: nat, names: seq<string>, check: string -> bool)
    requires n < |entries| && Taken(entries, n, names, check)
    ensures var e, table := entries[n], Table(entries, n);
      Taken(entries, n + 1, names, check) <==>
      Fine(e, names, check) && !(e.name in table && table[e.name] != "") && e.value !in ValuesIn(entries, n)
  {
    var e, table := entries[n], Table(entries, n);
    if e.name in table && table[e.name] != "" {
      var i := TableHolds(entries, n, e.name);
      assert !Apart(entries[i], e);
    } else if e.value !in ValuesIn(entries, n) {
      forall i | 0 <= i < n ensures Apart(entries[i], e) {
        NameIsEmpty(entries, n, names, check, i, e);
      }
    } else {
      var i :| 0 <= i < n && entries[i].value == e.value;
      assert !Apart(entries[i], e);
    }
  }

  lemma NameIsEmpty(entries: seq<Entry>, n: nat, names: seq<string>, check: string -> bool, i: nat, e: Entry)
    requires i < n <= |entries| && Taken(entries, n, names, check)
    requires e.value !in ValuesIn(entries, n) && !(e.name in Table(entries, n) && Table(entries, n)[e.name] != "")
    ensures Apart(entries[i], e)
  {
    assert entries[i].value in ValuesIn(entries, n);
    if entries[i].name == e.name {
      TableHas(entries, n, i);
      var j := TableHolds(entries, n, e.name);
      assert i < j ==> Apart(entries[i], entries[j]);
    }
  }

  /** The configuration reader: it keeps the first fault. */
  class Reader {
    var fault: Fault

    constructor ()
      ensures fault == NoFault
    {
      fault := NoFault;
    }

    method Fail(why: Fault)
      requires why != NoFault
      modifies this
      ensures fault == if old(fault) == NoFault then why else old(fault)
    {
      if fault == NoFault {
        fault := why;
      }
    }

    /** A reader without a fault stays so exactly on a list it takes, complete where that is asked; a fault
        there was stays the one there is. */
    method ReadPairs(raw: string, names: seq<string>, complete: bool, check: string -> bool)
      returns (out: map<string, string>)
      modifies this
      ensures out == Table(Parse(raw), |Parse(raw)|)
      ensures old(fault) != NoFault ==> fault == old(fault)
      ensures old(fault) == NoFault ==>
                (fault == NoFault <==>
                  && TrimSpace(raw) != ""
                  && Taken(Parse(raw), |Parse(raw)|, names, check)
                  && (complete ==> |out| == |names|))
    {
      if TrimSpace(raw) == "" {
        Fail(Required);
      }
      out := ReadEntries(Parse(raw), names, check);
      if complete && |out| != |names| {
        Fail(Incomplete);
      }
    }

    method ReadEntries(entries: seq<Entry>, names: seq<string>, check: string -> bool)
      returns (out: map<string, string>)
      modifies this
      ensures out == Table(entries, |entries|)
      ensures old(fault) != NoFault ==> fault == old(fault)
      ensures old(fault) == NoFault ==> (fault == NoFault <==> Taken(entries, |entries|, names, check))
    {
      out := map[];
      var seen: set<string> := {};
      for n := 0 to |entries|
        invariant out == Table(entries, n) && seen == ValuesIn(entries, n)
        invariant old(fault) != NoFault ==> fault == old(fault)
        invariant old(fault) == NoFault ==> (fault == NoFault <==> Taken(entries, n, names, check))
      {
        var e := entries[n];
        if Taken(entries, n, names, check) {
          TakenWithOneMore(entries, n, names, check);
        }
        if !e.split || !check(e.value) {
          Fail(Malformed);
        } else if e.name !in names {
          Fail(UnknownName);
        } else if (e.name in out && out[e.name] != "") || e.value in seen {
          Fail(Repeats);
        }
        out := out[e.name := e.value];
        seen := seen + {e.value};
      }
    }
  }
}

/** The board: who may move a card where, and what any run of agents and people does to a card's lane. */
module Board {
  import opened Common
  import opened Guard
  import opened Wire
  import opened Pairs

  datatype Lane = Triagem | Preparado | Doing | Travado | Done

  /** NoRole is a caller whose role the factory does not know. */
  datatype Role = Triage | Architect | Developer | Reviewer | QA | MergerRole | NoRole

  function LaneName(lane: Lane): string {
    match lane
    case Triagem => "Triagem"
    case Preparado => "Preparado"
    case Doing => "Doing"
    case Travado => "Travado"
    case Done => "Done"
  }

  const LANES: seq<Lane> := [Triagem, Preparado, Doing, Travado, Done]
  const LANE_NAMES: seq<string> := ["Triagem", "Preparado", "Doing", "Travado", "Done"]

  // ---- the transition table ----

  predicate RoleMoves(role: Role, from: Lane, to: Lane) {
    match role
    case Triage => from == Triagem && (to == Preparado || to == Travado)
    case Architect => from == Triagem && (to == Preparado || to == Travado)
    case Developer => from == Doing && to == Travado
    case Reviewer => from == Doing && to == Travado
    case QA => from == Doing && to == Travado
    case MergerRole => from == Doing && to == Travado
    case NoRole => false
  }

  function JudgeMove(role: Role, from: Lane, to: Lane): Reason {
    if from == to then AlreadyInLane
    else if from == Travado then TravadoIsHuman
    else if from == Done then DoneIsFinal
    else if RoleMoves(role, from, to) then Passed
    else TransitionRefused
  }

  /** Where an agent leaves a card, no agent takes it up: whatever the roles, no two agent moves follow
      one another. */
  lemma NoMoveFollowsAMove(r1: Role, r2: Role, a: Lane, b: Lane, c: Lane)
    requires JudgeMove(r1, a, b) == Passed
    ensures JudgeMove(r2, b, c) != Passed
    ensures a in {Triagem, Doing} && b in {Preparado, Travado}
  {
  }

  // ---- the lane table ----

  /** An option id: one to sixty-four letters, digits, underscores or hyphens. */
  predicate ValidOption(v: string) {
    1 <= |v| <= 64 && forall i :: 0 <= i < |v| ==>
      'A' <= v[i] <= 'Z' || 'a' <= v[i] <= 'z' || '0' <= v[i] <= '9' || v[i] == '_' || v[i] == '-'
  }

  predicate ValidItemID(s: string) {
    |s| > 5 && s[..5] == "PVTI_" && ValidOption(s[5..])
  }

  datatype Config = Config(project: string, statusField: string, lanes: map<Lane, string>)

  /** A complete table whose option ids are distinct and not empty. */
  ghost predicate Faithful(lanes: map<Lane, string>) {
    && (forall l: Lane :: l in lanes && lanes[l] != "")
    && Injective(lanes)
  }

  /** The option id stands for this lane. */
  predicate Stands(lanes: map<Lane, string>, option: string, lane: Lane) {
    option != "" && lane in lanes && lanes[lane] == option
  }

  /** Any lane the table gives for the option, in whatever order the map is walked. */
  method LaneOf(lanes: map<Lane, string>, option: string) returns (r: Option<Lane>)
    ensures r.Some? ==> Stands(lanes, option, r.value)
    ensures r.None? ==> forall l :: !Stands(lanes, option, l)
  {
    var left := lanes.Keys;
    while left != {}
      invariant left <= lanes.Keys
      invariant forall l :: l in lanes.Keys - left ==> !Stands(lanes, option, l)
      decreases left
    {
      var l :| l in left;
      if option != "" && lanes[l] == option {
        return Some(l);
      }
      left := left - {l};
    }
    return None;
  }

  /** The table reads back what was written. */
  lemma ReadsBackWhatWasWritten(lanes: map<Lane, string>, a: Lane, b: Lane)
    requires Faithful(lanes)
    ensures Stands(lanes, lanes[a], b) <==> a == b
  {
  }

  /** Reads the five lanes; without a fault the table is complete and reads back. */
  method ReadLanes(env: Reader, raw: string) returns (lanes: map<Lane, string>)
    modifies env
    ensures old(env.fault) != NoFault ==> env.fault == old(env.fault)
    ensures env.fault == NoFault ==> Faithful(lanes)
    ensures env.fault == NoFault ==>
            forall e :: e in Parse(raw) ==> exists l :: LaneName(l) == e.name && Stands(lanes, e.value, l)
  {
    var table := env.ReadPairs(raw, LANE_NAMES, true, ValidOption);
    if env.fault == NoFault {
      TableIsComplete(Parse(raw));
    }
    lanes := map[];
    for i := 0 to |LANES|
      invariant forall l :: l in lanes <==> l in LANES[..i] && LaneName(l) in table
      invariant forall l :: l in lanes ==> lanes[l] == table[LaneName(l)]
    {
      if LaneName(LANES[i]) in table {
        lanes := lanes[LANES[i] := table[LaneName(LANES[i])]];
      }
    }
    if env.fault == NoFault {
      forall l: Lane ensures l in lanes {
        EveryLaneIsListed(l);
      }
      LanesAreFaithful(Parse(raw), lanes);
    }
  }

  lemma EveryLaneIsListed(l: Lane)
    ensures l in LANES && LaneName(l) in LANE_NAMES
  {
  }

  lemma EveryNameIsALane(name: string) returns (l: Lane)
    requires name in LANE_NAMES
    ensures LaneName(l) == name
  {
    var k :| 0 <= k < 5 && LANE_NAMES[k] == name;
    l := LANES[k];
  }

  lemma NamesAreDistinct(a: Lane, b: Lane)
    requires LaneName(a) == LaneName(b)
    ensures a == b
  {
  }

  lemma TableIsComplete(entries: seq<Entry>)
    requires Taken(entries, |entries|, LANE_NAMES, ValidOption) && |Table(entries, |entries|)| == |LANE_NAMES|
    ensures forall l: Lane :: LaneName(l) in Table(entries, |entries|)
  {
    var table := Table(entries, |entries|);
    TakenIsInjective(entries, LANE_NAMES, ValidOption);
    forall k | k in table.Keys ensures exists l :: LaneName(l) == k {
      var l := EveryNameIsALane(k);
    }
    FiveNamesCoverFive(table.Keys, LaneName);
  }

  /** Five names among those of the five lanes are all of them. */
  lemma FiveNamesCoverFive(keys: set<string>, name: Lane -> string)
    requires |keys| == 5 && forall k :: k in keys ==> exists l :: name(l) == k
    ensures forall l :: name(l) in keys
  {
    var a, b, c, d, e := name(Triagem), name(Preparado), name(Doing), name(Travado), name(Done);
    var some := {a, b, c};
    assert |some| <= 3;
    var all := some + {d} + {e};
    assert |all| <= 5;
    forall l: Lane ensures name(l) in all {
      match l {
        case Triagem => case Preparado => case Doing => case Travado => case Done =>
      }
    }
    SubsetOfSameSize(keys, all);
  }

  lemma {:induction false} SubsetOfSameSize(a: set<string>, b: set<string>)
    requires a <= b && |a| >= |b|
    ensures a == b
  {
    if x :| x in a {
      SubsetOfSameSize(a - {x}, b - {x});
    }
  }

  lemma LanesAreFaithful(entries: seq<Entry>, lanes: map<Lane, string>)
    requires Taken(entries, |entries|, LANE_NAMES, ValidOption)
    requires Reads(Table(entries, |entries|), lanes)
    ensures Faithful(lanes)
    ensures forall e :: e in entries ==> exists l :: LaneName(l) == e.name && Stands(lanes, e.value, l)
  {
    var table := Table(entries, |entries|);
    TakenIsInjective(entries, LANE_NAMES, ValidOption);
    InjectiveIsFaithful(table, lanes);
    forall e | e in entries ensures exists l :: LaneName(l) == e.name && Stands(lanes, e.value, l) {
      var i :| 0 <= i < |entries| && entries[i] == e;
      EntryStands(entries, lanes, i);
    }
  }

  /** The lanes are the table's, name by name, and all of them. */
  ghost predicate Reads(table: map<string, string>, lanes: map<Lane, string>) {
    forall l: Lane :: l in lanes && LaneName(l) in table && lanes[l] == table[LaneName(l)]
  }

  lemma InjectiveIsFaithful(table: map<string, string>, lanes: map<Lane, string>)
    requires Reads(table, lanes) && Injective(table) && forall k :: k in table ==> table[k] != ""
    ensures Faithful(lanes)
  {
    forall a, b | a in lanes && b in lanes && lanes[a] == lanes[b] ensures a == b {
      NamesAreDistinct(a, b);
    }
  }

  lemma EntryStands(entries: seq<Entry>, lanes: map<Lane, string>, i: nat)
    requires Taken(entries, |entries|, LANE_NAMES, ValidOption) && i < |entries|
    requires Reads(Table(entries, |entries|), lanes)
    ensures exists l :: LaneName(l) == entries[i].name && Stands(lanes, entries[i].value, l)
  {
    TakenIsHeld(entries, LANE_NAMES, ValidOption, i);
    assert Fine(entries[i], LANE_NAMES, ValidOption);
    var l := EveryNameIsALane(entries[i].name);
    assert Stands(lanes, entries[i].value, l);
  }

  // ---- cards ----

  /** One item as read: which board it is on, and what each of its select fields is set to. */
  datatype ProjectItem = ProjectItem(found: bool, project: string, archived: bool, options: map<string, string>)

  function StatusOf(cfg: Config, item: ProjectItem): string {
    if cfg.statusField in item.options then item.options[cfg.statusField] else ""
  }

  predicate InLane(cfg: Config, item: ProjectItem, lane: Lane) {
    item.found && item.project == cfg.project && !item.archived && Stands(cfg.lanes, StatusOf(cfg, item), lane)
  }

  lemma OneLaneAtATime(cfg: Config, item: ProjectItem, a: Lane, b: Lane)
    requires Faithful(cfg.lanes) && InLane(cfg, item, a) && InLane(cfg, item, b)
    ensures a == b
  {
  }

  /** The card's lane, or why it is no card of this board. */
  method JudgeItem(cfg: Config, item: ProjectItem) returns (lane: Option<Lane>, reason: Reason)
    ensures lane.Some? ==> reason == Passed && InLane(cfg, item, lane.value)
    ensures lane.None? ==> forall l :: !InLane(cfg, item, l)
    ensures lane.None? ==> reason in {ItemNotFound, WrongProject, ItemArchived, LaneUnknown}
    ensures reason == ItemNotFound <==> !item.found
    ensures reason == WrongProject <==> item.found && item.project != cfg.project
    ensures reason == ItemArchived <==> item.found && item.project == cfg.project && item.archived
  {
    if !item.found {
      return None, ItemNotFound;
    }
    if item.project != cfg.project {
      return None, WrongProject;
    }
    if item.archived {
      return None, ItemArchived;
    }
    lane := LaneOf(cfg.lanes, StatusOf(cfg, item));
    return lane, if lane.Some? then Passed else LaneUnknown;
  }

  datatype UpdateAnswer = UpdateAnswer(errors: nat, item: Option<string>)
  datatype Outcome = WriteDone | WriteRefused | WriteNotSent | WriteUnknown

  /** GitHub answered the update without an error and named the item back. */
  predicate Confirms(a: Attempt<UpdateAnswer>, id: string) {
    && Leaves(a) && a.reply.Status? && a.reply.code == 200 && a.reply.body.Some?
    && a.reply.body.value.errors == 0 && a.reply.body.value.item == Some(id)
  }

  method UpdateField(gh: GitHub, id: string, option: string, a: Attempt<UpdateAnswer>) returns (o: Outcome, code: nat)
    modifies gh
    ensures gh.tried == old(gh.tried) + [SetStatus(id, option)]
    ensures gh.handed == Logged(old(gh.handed), Leaves(a), SetStatus(id, option))
    ensures gh.applied == Logged(old(gh.applied), Takes(a), SetStatus(id, option))
    ensures o == WriteDone <==> Confirms(a, id)
    ensures o == WriteNotSent <==> !Leaves(a)
  {
    var sent := gh.Send(SetStatus(id, option), a, true);
    match sent
    case NotSent => return WriteNotSent, 0;
    case Failed => return WriteUnknown, 0;
    case Answered(status, out) =>
      if status != 200 {
        return WriteRefused, status;
      }
      if out.None? || out.value.errors > 0 || out.value.item != Some(id) {
        return WriteRefused, 0;
      }
      return WriteDone, 0;
  }

  function MoveReason(o: Outcome): Reason {
    match o
    case WriteDone => Moved
    case WriteNotSent => MoveNotSent
    case WriteUnknown => OutcomeUnknown
    case WriteRefused => MoveRefused
  }

  /** The card stands in a lane the role may take it out of, to this one. */
  ghost predicate MayMove(cfg: Config, role: Role, item: ProjectItem, to: Lane) {
    exists from :: InLane(cfg, item, from) && JudgeMove(role, from, to) == Passed
  }

  datatype MoveResult = MoveResult(moved: bool, reason: Reason, from: Option<Lane>, httpStatus: nat)

  function LaneNamed(name: string): Option<Lane> {
    if name == LaneName(Triagem) then Some(Triagem)
    else if name == LaneName(Preparado) then Some(Preparado)
    else if name == LaneName(Doing) then Some(Doing)
    else if name == LaneName(Travado) then Some(Travado)
    else if name == LaneName(Done) then Some(Done)
    else None
  }

  class Mover {
    const cfg: Config
    const role: Role
    const gh: GitHub

    constructor (cfg: Config, role: Role, gh: GitHub)
      ensures this.cfg == cfg && this.role == role && this.gh == gh
    {
      this.cfg, this.role, this.gh := cfg, role, gh;
    }

    /** One mutation, and only along the role's row of the table. */
    method Move(id: string, name: string, read: Read<ProjectItem>, a: Attempt<UpdateAnswer>)
      returns (r: Read<MoveResult>)
      requires Faithful(cfg.lanes)
      modifies gh
      ensures r.Unread? ==> read.Unread? && gh.tried == old(gh.tried)
      ensures var to := LaneNamed(name);
        var moves := to.Some? && ValidItemID(id) && read.Got? && MayMove(cfg, role, read.value, to.value);
        && gh.tried == old(gh.tried) + (if moves then [SetStatus(id, cfg.lanes[to.value])] else [])
        && gh.applied == old(gh.applied) + (if moves && Takes(a) then [SetStatus(id, cfg.lanes[to.value])] else [])
        && (r.Got? && r.value.moved <==> moves && Confirms(a, id))
      ensures r.Got? && r.value.from.Some? ==>
                && LaneNamed(name).Some? && read.Got? && InLane(cfg, read.value, r.value.from.value)
                && var judged := JudgeMove(role, r.value.from.value, LaneNamed(name).value);
                   if judged != Passed then r.value.reason == judged
                   else r.value.reason in {Moved, MoveNotSent, OutcomeUnknown, MoveRefused}
      ensures r.Got? && r.value.from.None? ==>
                LaneNamed(name).None? || !ValidItemID(id) || (read.Got? && forall l :: !InLane(cfg, read.value, l))
    {
      var res := MoveResult(false, Passed, None, 0);
      var to := LaneNamed(name);
      if to.None? || !ValidItemID(id) {
        return Got(res.(reason := InvalidInput));
      }
      if read.Unread? {
        return Unread;
      }
      var from, reason := JudgeItem(cfg, read.value);
      if reason != Passed {
        return Got(res.(reason := reason));
      }
      reason := JudgeMove(role, from.value, to.value);
      LaneDecidesMove(cfg, role, read.value, from.value, to.value);
      if reason != Passed {
        return Got(res.(reason := reason, from := from));
      }
      var outcome, code := UpdateField(gh, id, cfg.lanes[to.value], a);
      return Got(MoveResult(outcome == WriteDone, MoveReason(outcome), from, code));
    }
  }

  lemma LaneDecidesMove(cfg: Config, role: Role, item: ProjectItem, from: Lane, to: Lane)
    requires Faithful(cfg.lanes) && InLane(cfg, item, from)
    ensures MayMove(cfg, role, item, to) <==> JudgeMove(role, from, to) == Passed
  {
  }

  // ---- any run of agents and people ----

  type Cards = map<string, ProjectItem>

  const NOT_FOUND := ProjectItem(false, "", false, map[])

  function At(cards: Cards, id: string): ProjectItem {
    if id in cards then cards[id] else NOT_FOUND
  }

  function WithStatus(cfg: Config, item: ProjectItem, option: string): ProjectItem {
    item.(options := item.options[cfg.statusField := option])
  }

  /** A person may do anything to a card. An agent's call reads and writes it as one step: its move, or
      the close-out of a pull request, applied by GitHub or not. */
  datatype Event =
    | Person(id: string, becomes: ProjectItem)
    | AgentMove(role: Role, id: string, to: Lane, applied: bool)
    | CloseOut(id: string, merged: bool, applied: bool)

  ghost function Next(cfg: Config, cards: Cards, e: Event): Cards
    requires Faithful(cfg.lanes)
  {
    match e
    case Person(id, becomes) => cards[id := becomes]
    case AgentMove(role, id, to, applied) =>
      if applied && MayMove(cfg, role, At(cards, id), to)
      then cards[id := WithStatus(cfg, At(cards, id), cfg.lanes[to])] else cards
    case CloseOut(id, merged, applied) =>
      if applied && merged && InLane(cfg, At(cards, id), Doing)
      then cards[id := WithStatus(cfg, At(cards, id), cfg.lanes[Done])] else cards
  }

  /** The boards a run of events goes through. */
  ghost predicate IsRun(cfg: Config, boards: seq<Cards>, events: seq<Event>)
    requires Faithful(cfg.lanes)
  {
    |boards| == |events| + 1 && forall n :: 0 <= n < |events| ==> Follows(cfg, boards, events, n)
  }

  ghost predicate Follows(cfg: Config, boards: seq<Cards>, events: seq<Event>, n: nat)
    requires Faithful(cfg.lanes) && n < |events| && |boards| == |events| + 1
  {
    boards[n + 1] == Next(cfg, boards[n], events[n])
  }

  /** The n-th event is an agent's and changes the card. */
  ghost predicate AgentChanges(boards: seq<Cards>, events: seq<Event>, n: nat, id: string)
    requires n < |events| && |boards| == |events| + 1
  {
    !events[n].Person? && At(boards[n + 1], id) != At(boards[n], id)
  }

  /** Where agents leave cards, and never take them from. */
  ghost predicate Settled(cfg: Config, item: ProjectItem) {
    InLane(cfg, item, Preparado) || InLane(cfg, item, Travado) || InLane(cfg, item, Done)
  }

  /** An agent changes a card only out of Triagem or Doing, only into Preparado, Travado or Done, and
      into Done only by closing out a merged pull request from Doing. */
  lemma AgentsKeepTheTable(cfg: Config, cards: Cards, e: Event, id: string)
    requires Faithful(cfg.lanes) && !e.Person?
    requires At(Next(cfg, cards, e), id) != At(cards, id)
    ensures InLane(cfg, At(cards, id), Triagem) || InLane(cfg, At(cards, id), Doing)
    ensures Settled(cfg, At(Next(cfg, cards, e), id))
    ensures InLane(cfg, At(Next(cfg, cards, e), id), Done) ==>
              e.CloseOut? && e.merged && InLane(cfg, At(cards, id), Doing)
  {
  }

  lemma SettledStays(cfg: Config, cards: Cards, e: Event, id: string)
    requires Faithful(cfg.lanes) && Settled(cfg, At(cards, id))
    requires e.Person? ==> e.id != id
    ensures At(Next(cfg, cards, e), id) == At(cards, id)
  {
  }

  /** A person's event on the card stands at one of the places from i up to j. */
  ghost predicate Touched(events: seq<Event>, i: nat, j: nat, id: string)
    requires j <= |events|
  {
    exists k :: i <= k < j && events[k].Person? && events[k].id == id
  }

  lemma {:induction false} SettledUntilAPerson(cfg: Config, boards: seq<Cards>, events: seq<Event>, i: nat, j: nat,
                                               id: string)
    requires Faithful(cfg.lanes) && IsRun(cfg, boards, events) && i <= j <= |events|
    requires Settled(cfg, At(boards[i], id)) && !Touched(events, i, j, id)
    ensures At(boards[j], id) == At(boards[i], id)
    decreases j - i
  {
    if i < j {
      SettledUntilAPerson(cfg, boards, events, i, j - 1, id);
      assert Follows(cfg, boards, events, j - 1);
      SettledStays(cfg, boards[j - 1], events[j - 1], id);
    }
  }

  /** In any run, between two agent changes of one card lies a person's. */
  lemma AgentsMoveOnceBetweenPeople(cfg: Config, boards: seq<Cards>, events: seq<Event>, i: nat, j: nat, id: string)
    requires Faithful(cfg.lanes) && IsRun(cfg, boards, events) && i < j < |events|
    requires AgentChanges(boards, events, i, id) && AgentChanges(boards, events, j, id)
    ensures Touched(events, i + 1, j, id)
  {
    ChangeSettles(cfg, boards, events, i, id);
    if !Touched(events, i + 1, j, id) {
      SettledUntilAPerson(cfg, boards, events, i + 1, j, id);
      SettledIsNotChanged(cfg, boards, events, j, id);
    }
  }

  lemma ChangeSettles(cfg: Config, boards: seq<Cards>, events: seq<Event>, n: nat, id: string)
    requires Faithful(cfg.lanes) && IsRun(cfg, boards, events) && n < |events| && AgentChanges(boards, events, n, id)
    ensures Settled(cfg, At(boards[n + 1], id))
  {
    assert Follows(cfg, boards, events, n);
    AgentsKeepTheTable(cfg, boards[n], events[n], id);
  }

  lemma SettledIsNotChanged(cfg: Config, boards: seq<Cards>, events: seq<Event>, n: nat, id: string)
    requires Faithful(cfg.lanes) && IsRun(cfg, boards, events) && n < |events| && Settled(cfg, At(boards[n], id))
    ensures !AgentChanges(boards, events, n, id)
  {
    if !events[n].Person? {
      assert Follows(cfg, boards, events, n);
      SettledStays(cfg, boards[n], events[n], id);
    }
  }
}
