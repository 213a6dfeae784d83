/** The tool catalogue: what workers publish about the servers they run, judged against the
    configuration, the workers' leases and the grace given to workers from before leases. Each
    transaction that holds the catalogue's lock, and each single lease statement with the clock
    it was given, is one step on the four tables. */
module Catalogue {
  import opened Common

  const LEASE := 120
  const GRACE := 86_400

  /** A catalogue row: a tool as last published. about is its description, digest and surface. */
  datatype Row = Row(server: string, unmanaged: bool, leased: bool, about: string)

  /** A server's configuration; every change of it is another generation. */
  datatype Config = Config(enabled: bool, generation: int)

  /** Who holds what. */
  datatype Hold = Hold(server: string, holder: string)

  datatype State = State(
    rows: map<string, Row>, config: map<string, Config>, leases: map<Hold, int>, graces: map<string, int>)

  datatype Published = Published(name: string, generation: int, unmanaged: bool)
  datatype Entry = Entry(id: string, server: string, about: string)
  datatype Publication = Publication(servers: seq<Published>, entries: seq<Entry>, holder: string)

  // --------------------------------------------------------- configuration

  function Configured(config: map<string, Config>): map<string, int> {
    map name | name in config && config[name].enabled :: config[name].generation
  }

  // ----------------------------------------------------------------- leases

  predicate LiveHold(leases: map<Hold, int>, h: Hold, now: int) {
    h in leases && leases[h] > now
  }

  predicate Live(leases: map<Hold, int>, server: string, now: int) {
    exists h :: h in leases && h.server == server && leases[h] > now
  }

  function Later(a: int, b: int): int {
    if a < b then b else a
  }

  /** The holder's leases on these servers, extended to a lease from now on; never moved back. */
  function Renewed(leases: map<Hold, int>, holder: string, servers: set<string>, now: int): map<Hold, int> {
    leases + map s | s in servers :: Hold(s, holder) :=
      if Hold(s, holder) in leases then Later(leases[Hold(s, holder)], now + LEASE) else now + LEASE
  }

  /** What a renewal does for its caller. */
  ghost predicate Extends(was: map<Hold, int>, leases: map<Hold, int>, holder: string, servers: set<string>, now: int) {
    && (forall s :: s in servers ==> Hold(s, holder) in leases && leases[Hold(s, holder)] >= now + LEASE)
    && (forall h :: h in was ==> h in leases && leases[h] >= was[h])
    && (forall h :: h in leases && !(h.holder == holder && h.server in servers) ==> h in was && leases[h] == was[h])
  }

  lemma RenewedExtends(leases: map<Hold, int>, holder: string, servers: set<string>, now: int)
    ensures Extends(leases, Renewed(leases, holder, servers, now), holder, servers, now)
  {
  }

  lemma RenewedOneMore(leases: map<Hold, int>, holder: string, done: set<string>, s: string, now: int)
    requires s !in done
    ensures var was, h := Renewed(leases, holder, done, now), Hold(s, holder);
      && (h in was <==> h in leases) && (h in was ==> was[h] == leases[h])
      && Renewed(leases, holder, done + {s}, now) ==
        was[h := if h in was then Later(was[h], now + LEASE) else now + LEASE]
  {
  }

  /** Some server of these is not held by this holder at the moment. */
  predicate Lapsed(leases: map<Hold, int>, holder: string, servers: set<string>, now: int) {
    exists s :: s in servers && !LiveHold(leases, Hold(s, holder), now)
  }

  /** The leases that still hold something. */
  function Unexpired(leases: map<Hold, int>, now: int): map<Hold, int> {
    map h | h in leases && leases[h] > now :: leases[h]
  }

  // ------------------------------------------------------------------ sweep

  predicate Legacy(r: Row) {
    r.unmanaged && !r.leased
  }

  function LegacyServers(rows: map<string, Row>): set<string> {
    set id | id in rows && Legacy(rows[id]) :: rows[id].server
  }

  /** A first sight is noted for each server with a legacy row that has none. */
  function GraceBegun(graces: map<string, int>, rows: map<string, Row>, now: int): map<string, int> {
    (map s | s in LegacyServers(rows) :: now) + graces
  }

  /** A first sight is kept only while a legacy row is there to need it. */
  function GraceSettled(graces: map<string, int>, rows: map<string, Row>): map<string, int> {
    map s | s in graces && s in LegacyServers(rows) :: graces[s]
  }

  /** What a sweep takes: a managed row without its configuration, an unmanaged one without holder or grace. */
  predicate Due(config: map<string, Config>, leases: map<Hold, int>, graces: map<string, int>, now: int, r: Row) {
    if !r.unmanaged then r.server !in Configured(config)
    else
      && !Live(leases, r.server, now)
      && (r.leased || (r.server in graces && graces[r.server] <= now - GRACE))
  }

  function Kept(st: State, graces: map<string, int>, now: int): map<string, Row> {
    map id | id in st.rows && !Due(st.config, st.leases, graces, now, st.rows[id]) :: st.rows[id]
  }

  function Swept(st: State, now: int): State {
    var begun := GraceBegun(st.graces, st.rows, now);
    var rows := Kept(st, begun, now);
    st.(rows := rows, graces := GraceSettled(begun, rows))
  }

  // ---------------------------------------------------------------- publish

  function UnmanagedNames(pub: Publication): set<string> {
    set i | 0 <= i < |pub.servers| && pub.servers[i].unmanaged :: pub.servers[i].name
  }

  /** The publication decides about p: as unmanaged where no configuration names it, as managed where
      the configuration is still of the generation it was discovered under. */
  predicate Accepted(configured: map<string, int>, p: Published) {
    if p.unmanaged then p.name !in configured
    else p.name in configured && configured[p.name] == p.generation
  }

  /** The servers the publication is the authority on. */
  function Authority(pub: Publication, configured: map<string, int>): set<string> {
    set i | 0 <= i < |pub.servers| && Accepted(configured, pub.servers[i]) :: pub.servers[i].name
  }

  /** The unmanaged ones among them. */
  function HeldUnmanaged(pub: Publication, configured: map<string, int>): set<string> {
    set i | 0 <= i < |pub.servers| && pub.servers[i].unmanaged && Accepted(configured, pub.servers[i])
      :: pub.servers[i].name
  }

  /** The rows the first k entries write; of two entries for one id the last is kept. */
  function Values(entries: seq<Entry>, k: nat, authority: set<string>, unmanaged: set<string>): map<string, Row>
    requires k <= |entries|
  {
    if k == 0 then map[]
    else
      var before := Values(entries, k - 1, authority, unmanaged);
      var e := entries[k - 1];
      if e.server in authority
      then before[e.id := Row(e.server, e.server in unmanaged, e.server in unmanaged, e.about)]
      else before
  }

  /** Of the servers decided about, only the tools listed stay. */
  function Offered(rows: map<string, Row>, authority: set<string>, kept: set<string>): map<string, Row> {
    map id | id in rows && !(rows[id].server in authority && id !in kept) :: rows[id]
  }

  function Recorded(st: State, pub: Publication): State {
    var configured := Configured(st.config);
    var authority := Authority(pub, configured);
    var values := Values(pub.entries, |pub.entries|, authority, HeldUnmanaged(pub, configured));
    var rows := Offered(st.rows, authority, values.Keys) + values;
    st.(rows := rows, graces := GraceSettled(st.graces, rows))
  }

  /** An unmanaged server with no holder to lease it is refused. */
  predicate Refused(pub: Publication) {
    UnmanagedNames(pub) != {} && pub.holder == ""
  }

  function Leased(st: State, pub: Publication, now: int): State {
    st.(leases := Renewed(st.leases, pub.holder, UnmanagedNames(pub), now))
  }

  function Publish(st: State, pub: Publication, now: int): State {
    if Refused(pub) then st else Recorded(Swept(Leased(st, pub, now), now), pub)
  }

  // ---------------------------------------------------------- administration

  function DropServer(rows: map<string, Row>, server: string): map<string, Row> {
    map id | id in rows && rows[id].server != server :: rows[id]
  }

  /** Switching a server off and dropping its tools are one step. */
  function Save(st: State, name: string, enabled: bool, generation: int): State {
    var rows := if enabled then st.rows else DropServer(st.rows, name);
    st.(rows := rows, config := st.config[name := Config(enabled, generation)])
  }

  function Remove(st: State, name: string): State {
    st.(rows := DropServer(st.rows, name), config := st.config - {name})
  }

  // ------------------------------------------------------------------- runs

  datatype Step =
    | DoPublish(pub: Publication, now: int)
    | DoRenew(holder: string, servers: set<string>, now: int)
    | DoForget(now: int)
    | DoSweep(now: int)
    | DoSave(name: string, enabled: bool, generation: int)
    | DoRemove(name: string)
    | OldWorker(written: map<string, Row>)  // rows a worker from before leases writes

  function Next(st: State, step: Step): State {
    match step
    case DoPublish(pub, now) => Publish(st, pub, now)
    case DoRenew(holder, servers, now) => st.(leases := Renewed(st.leases, holder, servers, now))
    case DoForget(now) => st.(leases := Unexpired(st.leases, now))
    case DoSweep(now) => Swept(st, now)
    case DoSave(name, enabled, generation) => Save(st, name, enabled, generation)
    case DoRemove(name) => Remove(st, name)
    case OldWorker(written) => st.(rows := st.rows + written)
  }

  /** The states a run of steps goes through. */
  ghost predicate IsRun(tr: seq<State>, steps: seq<Step>) {
    |tr| == |steps| + 1 && forall k :: 0 <= k < |steps| ==> Follows(tr, steps, k)
  }

  ghost predicate Follows(tr: seq<State>, steps: seq<Step>, k: nat)
    requires |tr| == |steps| + 1 && k < |steps|
  {
    tr[k + 1] == Next(tr[k], steps[k])
  }

  /** Every sequence of steps runs from every state. */
  lemma {:induction false} RunFrom(st: State, steps: seq<Step>) returns (tr: seq<State>)
    ensures IsRun(tr, steps) && tr[0] == st
  {
    if steps == [] {
      tr := [st];
    } else {
      var n := |steps| - 1;
      var before := RunFrom(st, steps[..n]);
      tr := before + [Next(before[n], steps[n])];
      forall k | 0 <= k < |steps| ensures Follows(tr, steps, k) {
        assert k < n ==> Follows(before, steps[..n], k);
      }
    }
  }

  /** A tool id belongs to one server; an old worker marks its rows unmanaged and nothing else. */
  ghost predicate StepFits(owner: string -> string, step: Step) {
    match step
    case DoPublish(pub, _) => forall i :: 0 <= i < |pub.entries| ==> pub.entries[i].server == owner(pub.entries[i].id)
    case OldWorker(written) => forall id :: id in written ==> Legacy(written[id]) && written[id].server == owner(id)
    case _ => true
  }

  ghost predicate Keyed(owner: string -> string, st: State) {
    forall id :: id in st.rows ==> st.rows[id].server == owner(id)
  }

  /** Each managed tool names a server that is configured and switched on. */
  ghost predicate ManagedIsConfigured(st: State) {
    forall id :: id in st.rows && !st.rows[id].unmanaged ==> st.rows[id].server in Configured(st.config)
  }

  // --------------------------------------------- what a publication decides

  /** Entry i is the last of the first k that lists this tool. */
  ghost predicate LastListing(entries: seq<Entry>, k: nat, id: string, i: nat) {
    && i < k <= |entries| && entries[i].id == id
    && forall j :: i < j < k ==> entries[j].id != id
  }

  lemma {:induction false} ValuesAreLastListings(owner: string -> string, entries: seq<Entry>, k: nat,
                                                 authority: set<string>, unmanaged: set<string>)
    requires k <= |entries| && forall i :: 0 <= i < |entries| ==> entries[i].server == owner(entries[i].id)
    ensures var values := Values(entries, k, authority, unmanaged);
            && (forall id :: id in values ==> owner(id) in authority && exists i: nat :: LastListing(entries, k, id, i))
            && (forall id, i: nat :: LastListing(entries, k, id, i) && owner(id) in authority ==>
                  id in values
                    && values[id] == Row(owner(id), owner(id) in unmanaged, owner(id) in unmanaged, entries[i].about))
  {
    if k > 0 {
      ValuesAreLastListings(owner, entries, k - 1, authority, unmanaged);
      var before, values := Values(entries, k - 1, authority, unmanaged), Values(entries, k, authority, unmanaged);
      var last := entries[k - 1];
      assert LastListing(entries, k, last.id, k - 1);
      forall id | id in values ensures owner(id) in authority && exists i: nat :: LastListing(entries, k, id, i) {
        if id != last.id {
          var i: nat :| LastListing(entries, k - 1, id, i);
          assert LastListing(entries, k, id, i);
        }
      }
      forall id, i: nat | LastListing(entries, k, id, i) && owner(id) in authority
        ensures id in values
                && values[id] == Row(owner(id), owner(id) in unmanaged, owner(id) in unmanaged, entries[i].about)
      {
        if id != last.id {
          assert LastListing(entries, k - 1, id, i);
        }
      }
    }
  }

  /** The catalogue after a publication: a server it is the authority on has exactly the tools it lists,
      as last listed; any other server's rows are as the sweep left them. */
  lemma PublicationDecides(owner: string -> string, st: State, pub: Publication, now: int, id: string)
    requires Keyed(owner, st) && StepFits(owner, DoPublish(pub, now)) && !Refused(pub)
    ensures var swept := Swept(Leased(st, pub, now), now);
            var out := Publish(st, pub, now);
            var authority := Authority(pub, Configured(st.config));
            && (owner(id) !in authority ==>
                  (id in out.rows <==> id in swept.rows) && (id in out.rows ==> out.rows[id] == swept.rows[id]))
            && (owner(id) in authority ==>
                  (id in out.rows <==> exists i: nat :: LastListing(pub.entries, |pub.entries|, id, i)))
            && (forall i: nat :: owner(id) in authority && LastListing(pub.entries, |pub.entries|, id, i) ==>
                  var free := owner(id) !in Configured(st.config);
                  id in out.rows && out.rows[id] == Row(owner(id), free, free, pub.entries[i].about))
  {
    var configured := Configured(st.config);
    ValuesAreLastListings(owner, pub.entries, |pub.entries|, Authority(pub, configured),
      HeldUnmanaged(pub, configured));
  }

  /** A discovery made under another generation, or of a server not configured or switched off, is not recorded. */
  lemma StalePublicationIsDropped(st: State, pub: Publication, server: string)
    requires forall i :: 0 <= i < |pub.servers| && pub.servers[i].name == server ==>
                           !pub.servers[i].unmanaged
                           && !(server in Configured(st.config)
                                && Configured(st.config)[server] == pub.servers[i].generation)
    ensures server !in Authority(pub, Configured(st.config))
  {
  }

  // ------------------------------------------ managed rows stay configured

  lemma SweepConfigures(st: State, now: int)
    ensures ManagedIsConfigured(Swept(st, now))
    ensures forall owner :: Keyed(owner, st) ==> Keyed(owner, Swept(st, now))
  {
  }

  lemma RecordKeepsConfigured(owner: string -> string, st: State, pub: Publication)
    requires Keyed(owner, st) && ManagedIsConfigured(st)
    requires forall i :: 0 <= i < |pub.entries| ==> pub.entries[i].server == owner(pub.entries[i].id)
    ensures Keyed(owner, Recorded(st, pub)) && ManagedIsConfigured(Recorded(st, pub))
  {
    var configured := Configured(st.config);
    var authority, free := Authority(pub, configured), HeldUnmanaged(pub, configured);
    ValuesAreLastListings(owner, pub.entries, |pub.entries|, authority, free);
    var values := Values(pub.entries, |pub.entries|, authority, free);
    forall id | id in values
      ensures values[id].server == owner(id) && (!values[id].unmanaged ==> owner(id) in configured)
    {
      var i: nat :| LastListing(pub.entries, |pub.entries|, id, i);
    }
  }

  lemma StepKeepsConfigured(owner: string -> string, st: State, step: Step)
    requires Keyed(owner, st) && ManagedIsConfigured(st) && StepFits(owner, step)
    ensures Keyed(owner, Next(st, step)) && ManagedIsConfigured(Next(st, step))
  {
    match step
    case DoPublish(pub, now) =>
      if !Refused(pub) {
        SweepConfigures(Leased(st, pub, now), now);
        RecordKeepsConfigured(owner, Swept(Leased(st, pub, now), now), pub);
      }
    case DoSweep(now) =>
      SweepConfigures(st, now);
    case DoSave(name, enabled, generation) =>
    case _ =>
  }

  /** In every state of every run each managed tool's server is configured and switched on. */
  lemma {:induction false} RunKeepsConfigured(owner: string -> string, tr: seq<State>, steps: seq<Step>, k: nat)
    requires IsRun(tr, steps)
    requires k <= |steps| && Keyed(owner, tr[0]) && ManagedIsConfigured(tr[0])
    requires forall i :: 0 <= i < |steps| ==> StepFits(owner, steps[i])
    ensures Keyed(owner, tr[k]) && ManagedIsConfigured(tr[k])
  {
    if k > 0 {
      RunKeepsConfigured(owner, tr, steps, k - 1);
      assert Follows(tr, steps, k - 1);
      StepKeepsConfigured(owner, tr[k - 1], steps[k - 1]);
    }
  }

  // ------------------------------------------- the grace of an old worker

  /** After a sweep the grace table holds exactly the servers with an old worker's row left; an earlier
      grace goes on and a new one starts now; an old worker's row leaves only when its server
      was first seen a whole grace ago and nobody holds it. */
  lemma SweepAndGrace(st: State, now: int)
    ensures Swept(st, now).graces.Keys == LegacyServers(Swept(st, now).rows)
    ensures forall s :: s in Swept(st, now).graces ==>
                          Swept(st, now).graces[s] == if s in st.graces then st.graces[s] else now
    ensures forall id :: id in st.rows && Legacy(st.rows[id]) && id !in Swept(st, now).rows ==>
                           && st.rows[id].server in st.graces && st.graces[st.rows[id].server] + GRACE <= now
                           && !Live(st.leases, st.rows[id].server, now)
  {
  }

  /** A publication leaves the grace table as exact as a sweep does, and never starts a grace over. */
  lemma PublicationAndGrace(st: State, pub: Publication, now: int)
    requires !Refused(pub)
    ensures Publish(st, pub, now).graces.Keys <= LegacyServers(Publish(st, pub, now).rows)
    ensures forall s :: s in Publish(st, pub, now).graces ==>
                          Publish(st, pub, now).graces[s] == if s in st.graces then st.graces[s] else now
    ensures forall s :: s in LegacyServers(Publish(st, pub, now).rows) ==> s in Publish(st, pub, now).graces
  {
    var swept := Swept(Leased(st, pub, now), now);
    SweepAndGrace(Leased(st, pub, now), now);
    var out := Publish(st, pub, now);
    forall s | s in LegacyServers(out.rows) ensures s in swept.graces {
      var id :| id in out.rows && Legacy(out.rows[id]) && out.rows[id].server == s;
      RecordedLegacyIsOld(swept, pub, id);
      assert s in LegacyServers(swept.rows);
    }
  }

  /** A publication writes no row without the lease marker on an unmanaged one. */
  lemma RecordedLegacyIsOld(st: State, pub: Publication, id: string)
    requires id in Recorded(st, pub).rows && Legacy(Recorded(st, pub).rows[id])
    ensures id in st.rows && st.rows[id] == Recorded(st, pub).rows[id]
  {
    var configured := Configured(st.config);
    ValuesAreMarked(pub.entries, |pub.entries|, Authority(pub, configured), HeldUnmanaged(pub, configured));
  }

  lemma {:induction false} ValuesAreMarked(entries: seq<Entry>, k: nat, authority: set<string>, unmanaged: set<string>)
    requires k <= |entries|
    ensures forall id :: id in Values(entries, k, authority, unmanaged) ==>
            !Legacy(Values(entries, k, authority, unmanaged)[id])
  {
    if k > 0 {
      ValuesAreMarked(entries, k - 1, authority, unmanaged);
    }
  }

  /** Step m judged the catalogue at t and saw an old worker's row of the server. */
  ghost predicate SeenAt(tr: seq<State>, steps: seq<Step>, m: nat, server: string, t: int)
    requires |tr| == |steps| + 1
  {
    && m < |steps| && server in LegacyServers(tr[m].rows)
    && (steps[m] == DoSweep(t) || (steps[m].DoPublish? && steps[m].now == t && !Refused(steps[m].pub)))
  }

  lemma StepAndGrace(tr: seq<State>, steps: seq<Step>, k: nat, server: string)
    requires IsRun(tr, steps)
    requires k < |steps| && server in tr[k + 1].graces
    ensures var was, now := tr[k], tr[k + 1];
            (server in was.graces && now.graces[server] == was.graces[server])
              || SeenAt(tr, steps, k, server, now.graces[server])
  {
    assert Follows(tr, steps, k);
    var was := tr[k];
    match steps[k]
    case DoPublish(pub, now) =>
      if !Refused(pub) {
        PublicationAndGrace(was, pub, now);
        GraceIsOfALegacyRow(Leased(was, pub, now), now, server);
      }
    case DoSweep(now) =>
      SweepAndGrace(was, now);
      GraceIsOfALegacyRow(was, now, server);
    case _ =>
  }

  lemma GraceIsOfALegacyRow(st: State, now: int, server: string)
    requires server in Swept(st, now).graces
    ensures server in LegacyServers(st.rows)
  {
  }

  /** Over any run from an empty grace table, every grace counts from a sweep or publication that saw
      the old worker's row. */
  lemma {:induction false} GraceCountsFromFirstSight(tr: seq<State>, steps: seq<Step>, k: nat, server: string)
    requires IsRun(tr, steps)
    requires k <= |steps| && tr[0].graces == map[] && server in tr[k].graces
    ensures exists m: nat :: m < k && SeenAt(tr, steps, m, server, tr[k].graces[server])
  {
    if k > 0 {
      StepAndGrace(tr, steps, k - 1, server);
      if !SeenAt(tr, steps, k - 1, server, tr[k].graces[server]) {
        GraceCountsFromFirstSight(tr, steps, k - 1, server);
      }
    }
  }

  ghost predicate HasOldRow(tr: seq<State>, steps: seq<Step>, i: nat, server: string)
    requires |tr| == |steps| + 1
  {
    i <= |steps| && server in LegacyServers(tr[i].rows)
  }

  /** While an old worker's row of the server survives in every state, its grace is not started over. */
  lemma {:induction false} GraceIsKept(tr: seq<State>, steps: seq<Step>, j: nat, k: nat, server: string)
    requires IsRun(tr, steps)
    requires j <= k <= |steps| && server in tr[j].graces
    requires forall i: nat :: j <= i <= k ==> HasOldRow(tr, steps, i, server)
    ensures server in tr[k].graces
    ensures tr[k].graces[server] == tr[j].graces[server]
    decreases k - j
  {
    if j < k {
      GraceIsKept(tr, steps, j, k - 1, server);
      assert HasOldRow(tr, steps, k, server) && Follows(tr, steps, k - 1);
      GraceKeptByStep(tr[k - 1], steps[k - 1], server);
    }
  }

  lemma GraceKeptByStep(st: State, step: Step, server: string)
    requires server in st.graces && server in LegacyServers(Next(st, step).rows)
    ensures server in Next(st, step).graces && Next(st, step).graces[server] == st.graces[server]
  {
    match step
    case DoPublish(pub, now) =>
      if !Refused(pub) {
        PublicationAndGrace(st, pub, now);
      }
    case DoSweep(now) =>
      SweepAndGrace(st, now);
    case _ =>
  }

  // --------------------------------------------------- leases over a run

  /** No step moves a lease back; only forgetting one that ran out removes it. */
  lemma LeaseNeverMovesBack(st: State, step: Step, h: Hold)
    requires h in st.leases
    ensures h in Next(st, step).leases ==> Next(st, step).leases[h] >= st.leases[h]
    ensures h !in Next(st, step).leases ==> step.DoForget? && st.leases[h] <= step.now
  {
  }

  /** No clock that renews this lease is a whole lease behind one that forgot leases before. */
  ghost predicate KeepsUp(steps: seq<Step>, h: Hold) {
    forall f, r :: 0 <= f < r < |steps| && steps[f].DoForget? && Renews(steps[r], h) ==>
      steps[f].now <= steps[r].now + LEASE
  }

  /** Held until at least then, or forgotten by a clock that had reached it. */
  ghost predicate NotBefore(tr: seq<State>, steps: seq<Step>, h: Hold, expiry: int, i: nat, j: nat)
    requires |tr| == |steps| + 1
    requires i <= j <= |steps|
  {
    if h in tr[j].leases then tr[j].leases[h] >= expiry
    else exists f :: i <= f < j && steps[f].DoForget? && expiry <= steps[f].now
  }

  /** Over a run a lease's expiry never goes back, forgotten and taken again or not, where clocks keep up. */
  lemma {:induction false} ExpiryNeverGoesBack(tr: seq<State>, steps: seq<Step>, h: Hold, i: nat, j: nat)
    requires IsRun(tr, steps)
    requires i <= j <= |steps| && KeepsUp(steps, h) && h in tr[i].leases
    ensures NotBefore(tr, steps, h, tr[i].leases[h], i, j)
    decreases j - i
  {
    if i < j {
      ExpiryNeverGoesBack(tr, steps, h, i, j - 1);
      ExpiryThroughStep(tr, steps, h, tr[i].leases[h], i, j - 1);
    }
  }

  lemma ExpiryThroughStep(tr: seq<State>, steps: seq<Step>, h: Hold, expiry: int, i: nat, k: nat)
    requires IsRun(tr, steps)
    requires i <= k < |steps| && KeepsUp(steps, h) && NotBefore(tr, steps, h, expiry, i, k)
    ensures NotBefore(tr, steps, h, expiry, i, k + 1)
  {
    var was := tr[k];
    assert Follows(tr, steps, k);
    if h in was.leases {
      LeaseNeverMovesBack(was, steps[k], h);
    } else if h in Next(was, steps[k]).leases {
      OnlyRenewalsHold(was, steps[k], h);
      RenewalTakes(was, steps[k], h);
    }
  }

  lemma OnlyRenewalsHold(st: State, step: Step, h: Hold)
    requires h !in st.leases && h in Next(st, step).leases
    ensures Renews(step, h)
  {
  }

  /** And where they do not it can: forgotten by a fast clock and renewed by a slow one, the expiry goes
      back exactly when the slow clock is more than a lease behind. */
  lemma SlowClockMovesExpiryBack(tr: seq<State>, h: Hold, fast: int, slow: int)
    requires IsRun(tr, [DoForget(fast), DoRenew(h.holder, {h.server}, slow)])
    requires h in tr[0].leases && tr[0].leases[h] == fast
    ensures h in tr[2].leases
    ensures tr[2].leases[h] < tr[0].leases[h] <==> !KeepsUp([DoForget(fast), DoRenew(h.holder, {h.server}, slow)], h)
  {
    var steps := [DoForget(fast), DoRenew(h.holder, {h.server}, slow)];
    assert Follows(tr, steps, 0) && Follows(tr, steps, 1);
    assert h == Hold(h.server, h.holder) && h !in tr[1].leases;
    assert Renews(steps[1], h) && steps[0].DoForget?;
  }

  predicate ReadsClock(step: Step) {
    step.DoPublish? || step.DoRenew? || step.DoForget? || step.DoSweep?
  }

  /** The step extends this worker's lease on this server. */
  predicate Renews(step: Step, h: Hold) {
    || (step.DoRenew? && step.holder == h.holder && h.server in step.servers)
    || (step.DoPublish? && step.pub.holder == h.holder && h.server in UnmanagedNames(step.pub) && !Refused(step.pub))
  }

  lemma RenewalTakes(st: State, step: Step, h: Hold)
    requires Renews(step, h)
    ensures h in Next(st, step).leases && Next(st, step).leases[h] >= step.now + LEASE
  {
  }

  /** The step drops what the clock it was given says ran out. */
  predicate Judges(step: Step) {
    step.DoForget? || step.DoSweep? || (step.DoPublish? && !Refused(step.pub))
  }

  /** Between two steps no clock gains more than skew on the time that passed; a sweep may be given an
      earlier reading. */
  ghost predicate SkewWithin(steps: seq<Step>, when: seq<int>, skew: int) {
    && |when| == |steps|
    && forall i, j :: 0 <= i < j < |steps| && ReadsClock(steps[i]) && ReadsClock(steps[j]) ==>
                        steps[j].now - steps[i].now <= when[j] - when[i] + skew
  }

  /** From its first renewal on, the worker never lets more than gap pass without renewing. */
  ghost predicate RenewsWithin(steps: seq<Step>, when: seq<int>, h: Hold, first: nat, gap: int)
    requires |when| == |steps|
  {
    && first < |steps| && Renews(steps[first], h)
    && forall j :: first < j < |steps| && Judges(steps[j]) ==>
                     exists i :: first <= i < j && Renews(steps[i], h) && when[j] - when[i] <= gap
  }

  /** Every renewal so far still counts. */
  ghost predicate RenewalsCount(tr: seq<State>, steps: seq<Step>, h: Hold, first: nat, k: nat)
    requires |tr| == |steps| + 1
    requires k <= |steps|
  {
    forall i :: first <= i < k && Renews(steps[i], h) ==>
                  h in tr[k].leases && tr[k].leases[h] >= steps[i].now + LEASE
  }

  /** At a step that judges, some renewal is younger than a lease by the clock judging it. */
  lemma SomeRenewalIsYoung(steps: seq<Step>, when: seq<int>, h: Hold, first: nat, gap: int, skew: int, j: nat)
    returns (i: nat)
    requires SkewWithin(steps, when, skew) && RenewsWithin(steps, when, h, first, gap) && gap + skew < LEASE
    requires first < j < |steps| && Judges(steps[j])
    ensures first <= i < j && Renews(steps[i], h) && steps[j].now < steps[i].now + LEASE
  {
    i :| first <= i < j && Renews(steps[i], h) && when[j] - when[i] <= gap;
  }

  lemma {:induction false} RenewalsCountThroughout(tr: seq<State>, steps: seq<Step>, when: seq<int>, h: Hold,
                                                   first: nat, gap: int, skew: int, k: nat)
    requires IsRun(tr, steps)
    requires SkewWithin(steps, when, skew) && RenewsWithin(steps, when, h, first, gap) && gap + skew < LEASE
    requires k <= |steps|
    ensures RenewalsCount(tr, steps, h, first, k)
  {
    if k > first {
      RenewalsCountThroughout(tr, steps, when, h, first, gap, skew, k - 1);
      var was, step := tr[k - 1], steps[k - 1];
      assert Follows(tr, steps, k - 1);
      forall i | first <= i < k && Renews(steps[i], h)
        ensures h in Next(was, step).leases && Next(was, step).leases[h] >= steps[i].now + LEASE
      {
        if i < k - 1 {
          LeaseNeverMovesBack(was, step, h);
          if step.DoForget? {
            var young := SomeRenewalIsYoung(steps, when, h, first, gap, skew, k - 1);
          }
        } else {
          RenewalTakes(was, step, h);
        }
      }
    }
  }

  /** The sweep a step runs, if it runs one. */
  function SweepOf(st: State, step: Step): State {
    match step
    case DoSweep(now) => Swept(st, now)
    case DoPublish(pub, now) => if Refused(pub) then st else Swept(Leased(st, pub, now), now)
    case _ => st
  }

  /** A worker that renews often enough, clock skew included, never loses its server's unmanaged rows
      to a sweep: not to its own, nor to any other worker's. */
  lemma HeldServerIsNeverSwept(tr: seq<State>, steps: seq<Step>, when: seq<int>, h: Hold, first: nat, gap: int,
                               skew: int, k: nat, id: string)
    requires IsRun(tr, steps)
    requires SkewWithin(steps, when, skew) && RenewsWithin(steps, when, h, first, gap) && gap + skew < LEASE
    requires first < k < |steps|
    requires var was := tr[k].rows;
             id in was && was[id].unmanaged && was[id].server == h.server
    ensures id in SweepOf(tr[k], steps[k]).rows
  {
    RenewalsCountThroughout(tr, steps, when, h, first, gap, skew, k);
    var was := tr[k];
    if steps[k].DoSweep? || (steps[k].DoPublish? && !Refused(steps[k].pub)) {
      var i := SomeRenewalIsYoung(steps, when, h, first, gap, skew, k);
      assert h in was.leases && was.leases[h] > steps[k].now;
      LeaseNeverMovesBack(was, steps[k], h);
    }
  }

  // -------------------------------------------------- no loss unreported

  /** One shared clock: whoever reads it at a step reads no less than any reading used before. */
  ghost predicate SharedClock(steps: seq<Step>) {
    forall i, j :: 0 <= i < j < |steps| && ReadsClock(steps[i]) && (steps[j].DoRenew? || steps[j].DoPublish?) ==>
                     steps[i].now <= steps[j].now
  }

  /** The sweep of step j took away this leased tool. */
  ghost predicate Lost(tr: seq<State>, steps: seq<Step>, j: nat, id: string)
    requires |tr| == |steps| + 1
    requires j < |steps|
  {
    var was := tr[j];
    id in was.rows && was.rows[id].unmanaged && was.rows[id].leased && id !in SweepOf(was, steps[j]).rows
  }

  lemma LostWasNotHeld(tr: seq<State>, steps: seq<Step>, j: nat, id: string, h: Hold)
    requires IsRun(tr, steps)
    requires j < |steps| && Lost(tr, steps, j, id) && tr[j].rows[id].server == h.server
    ensures ReadsClock(steps[j]) && !LiveHold(tr[j + 1].leases, h, steps[j].now)
  {
    assert Follows(tr, steps, j);
  }

  /** A lease that was not live stays so until its worker renews it. */
  lemma {:induction false} StaysLapsed(tr: seq<State>, steps: seq<Step>, j: nat, k: nat, h: Hold, now: int)
    requires IsRun(tr, steps)
    requires j <= k <= |steps| && !LiveHold(tr[j].leases, h, now)
    requires forall i :: j <= i < k ==> !Renews(steps[i], h)
    ensures !LiveHold(tr[k].leases, h, now)
    decreases k - j
  {
    if j < k {
      StaysLapsed(tr, steps, j, k - 1, h, now);
      assert Follows(tr, steps, k - 1);
      LapsedThroughStep(tr[k - 1], steps[k - 1], h, now);
    }
  }

  lemma LapsedThroughStep(st: State, step: Step, h: Hold, now: int)
    requires !LiveHold(st.leases, h, now) && !Renews(step, h)
    ensures !LiveHold(Next(st, step).leases, h, now)
  {
  }

  lemma StillLapsed(tr: seq<State>, steps: seq<Step>, j: nat, k: nat, id: string, h: Hold)
    requires IsRun(tr, steps)
    requires j < k < |steps| && SharedClock(steps) && Lost(tr, steps, j, id)
    requires tr[j].rows[id].server == h.server
    requires Renews(steps[k], h) && forall i :: j < i < k ==> !Renews(steps[i], h)
    ensures !LiveHold(tr[k].leases, h, steps[k].now)
  {
    LostWasNotHeld(tr, steps, j, id, h);
    StaysLapsed(tr, steps, j + 1, k, h, steps[j].now);
  }

  lemma PublishingIsAuthority(pub: Publication, configured: map<string, int>, server: string)
    requires server in UnmanagedNames(pub) && server !in configured
    ensures server in Authority(pub, configured)
  {
  }

  /** After a sweep takes a leased server's tools, the next renewal of any worker running it answers
      lapsed, and the next publication of it by that worker holds it again. */
  lemma LossIsReported(tr: seq<State>, steps: seq<Step>, j: nat, k: nat, id: string, h: Hold)
    requires IsRun(tr, steps)
    requires j < k < |steps| && SharedClock(steps) && Lost(tr, steps, j, id)
    requires tr[j].rows[id].server == h.server
    requires Renews(steps[k], h) && forall i :: j < i < k ==> !Renews(steps[i], h)
    ensures steps[k].DoRenew? ==> Lapsed(tr[k].leases, h.holder, steps[k].servers, steps[k].now)
    ensures LiveHold(tr[k + 1].leases, h, steps[k].now)
    ensures steps[k].DoPublish? && h.server !in Configured(tr[k].config) ==>
              h.server in Authority(steps[k].pub, Configured(tr[k].config))
  {
    var was := tr[k];
    StillLapsed(tr, steps, j, k, id, h);
    RenewalTakes(was, steps[k], h);
    assert Follows(tr, steps, k);
    assert h == Hold(h.server, h.holder);
    if steps[k].DoPublish? && h.server !in Configured(was.config) {
      PublishingIsAuthority(steps[k].pub, Configured(was.config), h.server);
    }
  }

  /** That publication puts back what the worker offers: the server's rows are then exactly its entries,
      marked as held under a lease. */
  lemma LossIsRestored(owner: string -> string, st: State, pub: Publication, now: int, server: string, id: string)
    requires Keyed(owner, st) && StepFits(owner, DoPublish(pub, now)) && !Refused(pub)
    requires server in UnmanagedNames(pub) && server !in Configured(st.config) && owner(id) == server
    ensures id in Publish(st, pub, now).rows <==> exists i :: 0 <= i < |pub.entries| && pub.entries[i].id == id
    ensures id in Publish(st, pub, now).rows ==>
            Publish(st, pub, now).rows[id].unmanaged && Publish(st, pub, now).rows[id].leased
  {
    PublishingIsAuthority(pub, Configured(st.config), server);
    PublicationDecides(owner, st, pub, now, id);
    if i :| 0 <= i < |pub.entries| && pub.entries[i].id == id {
      var last := LastListingExists(pub.entries, id, i);
    }
  }

  lemma LastListingExists(entries: seq<Entry>, id: string, i: nat) returns (last: nat)
    requires i < |entries| && entries[i].id == id
    ensures LastListing(entries, |entries|, id, last)
  {
    last := i;
    for j := i + 1 to |entries|
      invariant last < j && LastListing(entries, j, id, last)
    {
      if entries[j].id == id {
        last := j;
      }
    }
  }

  // ------------------------------------------------------ a worker's pass

  /** What a worker's call to hold its servers comes back with. */
  datatype Answer = Answered(lapsed: bool) | Failed

  /** The renewal and the forgetting are statements of their own: what fails after the renewal leaves
      the leases renewed and the answer lost. */
  datatype Fault = NoFault | RenewFails | ForgetFails | SweepFails

  predicate NoHolder(holder: string, servers: set<string>) {
    servers != {} && holder == ""
  }

  /** Some row is due to leave, or an old worker's server was not seen yet. */
  predicate WorthSweeping(st: State, now: int) {
    exists id :: id in st.rows && st.rows[id].unmanaged &&
                 (Due(st.config, st.leases, st.graces, now, st.rows[id])
                   || (Legacy(st.rows[id]) && st.rows[id].server !in st.graces))
  }

  /** Looks before it locks. */
  function SweptIfWorth(st: State, now: int): State {
    if WorthSweeping(st, now) then Swept(st, now) else st
  }

  function HoldState(st: State, holder: string, servers: set<string>, now: int, fault: Fault): State {
    if fault == RenewFails || NoHolder(holder, servers) then st
    else
      var renewed := st.(leases := Renewed(st.leases, holder, servers, now));
      if fault == ForgetFails then renewed
      else
        var unexpired := renewed.(leases := Unexpired(renewed.leases, now));
        if fault == SweepFails then unexpired else SweptIfWorth(unexpired, now)
  }

  /** Looking first loses nothing: when there is nothing worth locking for, a sweep would keep every row
      and every grace in use. */
  lemma LookingFirstIsEnough(st: State, now: int)
    requires ManagedIsConfigured(st) && !WorthSweeping(st, now)
    ensures Swept(st, now).rows == st.rows
    ensures forall s :: s in LegacyServers(st.rows) ==>
                          s in st.graces && s in Swept(st, now).graces && Swept(st, now).graces[s] == st.graces[s]
  {
  }

  /** Forgetting leases that ran out does not change who is held. */
  lemma ForgettingChangesNoHold(leases: map<Hold, int>, server: string, now: int)
    ensures Live(Unexpired(leases, now), server, now) == Live(leases, server, now)
  {
  }

  /** The statements of a hold call, each a step of its own. */
  function HoldRun(holder: string, servers: set<string>, now: int): seq<Step> {
    [DoRenew(holder, servers, now), DoForget(now), DoSweep(now)]
  }

  /** How many of them a call gets through. */
  function HoldReach(st: State, holder: string, servers: set<string>, now: int, fault: Fault): (n: nat)
    ensures n <= 3
  {
    if fault == RenewFails || NoHolder(holder, servers) then 0
    else if fault == ForgetFails then 1
    else
      var unexpired := st.(leases := Unexpired(Renewed(st.leases, holder, servers, now), now));
      if fault == SweepFails || !WorthSweeping(unexpired, now) then 2 else 3
  }

  /** A hold call is a run of steps, so what holds over runs holds of hold calls, stopped anywhere. */
  lemma HoldIsARun(tr: seq<State>, holder: string, servers: set<string>, now: int, fault: Fault)
    requires IsRun(tr, HoldRun(holder, servers, now))
    ensures HoldState(tr[0], holder, servers, now, fault) == tr[HoldReach(tr[0], holder, servers, now, fault)]
  {
    var run := HoldRun(holder, servers, now);
    assert Follows(tr, run, 0) && Follows(tr, run, 1) && Follows(tr, run, 2);
  }

  // ------------------------------------------- whether a loss is repaired

  /** The step may put rows of the server into the catalogue. */
  ghost predicate Restores(st: State, step: Step, server: string) {
    || (step.DoPublish? && !Refused(step.pub) && server in Authority(step.pub, Configured(st.config)))
    || (step.OldWorker? && exists id :: id in step.written && step.written[id].server == server)
  }

  ghost predicate RestoredAt(tr: seq<State>, steps: seq<Step>, i: nat, server: string)
    requires |tr| == |steps| + 1
    requires i < |steps|
  {
    Restores(tr[i], steps[i], server)
  }

  lemma StepLeavesAbsent(owner: string -> string, st: State, step: Step, id: string)
    requires Keyed(owner, st) && StepFits(owner, step) && id !in st.rows && !Restores(st, step, owner(id))
    ensures id !in Next(st, step).rows
  {
    if step.DoPublish? && !Refused(step.pub) {
      PublicationDecides(owner, st, step.pub, step.now, id);
    }
  }

  /** A pass of a worker: where in the run its renewal stands, whether the hold call came back without an
      error, whether a publication would commit, and where the publication stands if there is one. */
  datatype Pass = Pass(renewal: nat, answered: bool, commits: bool, publication: Option<nat>)

  /** The renewal finds a lapse. */
  ghost predicate LapsedAt(tr: seq<State>, steps: seq<Step>, k: nat)
    requires |tr| == |steps| + 1
    requires k < |steps| && steps[k].DoRenew?
  {
    Lapsed(tr[k].leases, steps[k].holder, steps[k].servers, steps[k].now)
  }

  /** The worker publishes exactly on a lapse it was told of; the publication is in the run exactly when it
      commits, and then lists the tool under the worker's name. */
  ghost predicate IsPass(owner: string -> string, tr: seq<State>, steps: seq<Step>, h: Hold, id: string, pass: Pass)
    requires |tr| == |steps| + 1
  {
    && pass.renewal < |steps| && steps[pass.renewal].DoRenew? && Renews(steps[pass.renewal], h)
    && (pass.publication.Some? <==> pass.answered && pass.commits && LapsedAt(tr, steps, pass.renewal))
    && (pass.publication.Some? ==> Offers(tr, steps, h, id, pass.renewal, pass.publication.value))
  }

  ghost predicate Offers(tr: seq<State>, steps: seq<Step>, h: Hold, id: string, renewal: nat, p: nat)
    requires |tr| == |steps| + 1
    requires renewal < |steps|
  {
    && renewal < p < |steps| && steps[p].DoPublish? && !Refused(steps[p].pub)
    && h.server in UnmanagedNames(steps[p].pub) && h.server !in Configured(tr[p].config)
    && exists i :: 0 <= i < |steps[p].pub.entries| && steps[p].pub.entries[i].id == id
  }

  /** After the loss nothing but this pass's publication may put rows of the server back. */
  ghost predicate OnlyThisPass(tr: seq<State>, steps: seq<Step>, j: nat, server: string, pass: Pass)
    requires |tr| == |steps| + 1
  {
    forall i: nat :: j < i < |steps| && RestoredAt(tr, steps, i, server) ==> pass.publication == Some(i)
  }

  /** The tool is in the catalogue again at some point after the loss. */
  ghost predicate Back(tr: seq<State>, steps: seq<Step>, j: nat, id: string)
    requires |tr| == |steps| + 1
  {
    exists n: nat :: j < n <= |steps| && id in tr[n].rows
  }

  lemma LostIsAbsent(owner: string -> string, tr: seq<State>, steps: seq<Step>, j: nat, id: string)
    requires IsRun(tr, steps)
    requires j < |steps| && Lost(tr, steps, j, id) && Keyed(owner, tr[j]) && StepFits(owner, steps[j])
    requires !RestoredAt(tr, steps, j, owner(id))
    ensures id !in tr[j + 1].rows
  {
    assert Follows(tr, steps, j);
    var was := tr[j];
    if steps[j].DoPublish? && !Refused(steps[j].pub) {
      PublicationDecides(owner, was, steps[j].pub, steps[j].now, id);
    }
  }

  lemma AbsentThroughStep(owner: string -> string, tr: seq<State>, steps: seq<Step>, k: nat, id: string)
    requires IsRun(tr, steps)
    requires k < |steps| && Keyed(owner, tr[k]) && StepFits(owner, steps[k])
    requires !RestoredAt(tr, steps, k, owner(id)) && id !in tr[k].rows
    ensures id !in tr[k + 1].rows
  {
    StepLeavesAbsent(owner, tr[k], steps[k], id);
    assert Follows(tr, steps, k);
  }

  /** The steps belong to tools of these owners, and so does every state. */
  ghost predicate Fits(owner: string -> string, tr: seq<State>, steps: seq<Step>)
    requires |tr| == |steps| + 1
  {
    Keyed(owner, tr[0]) && ManagedIsConfigured(tr[0]) && forall i :: 0 <= i < |steps| ==> StepFits(owner, steps[i])
  }

  lemma {:induction false} StaysAbsent(owner: string -> string, tr: seq<State>, steps: seq<Step>, k: nat, n: nat,
                                       id: string)
    requires IsRun(tr, steps)
    requires k <= n <= |steps| && Fits(owner, tr, steps) && id !in tr[k].rows
    requires forall i: nat :: k <= i < n ==> !RestoredAt(tr, steps, i, owner(id))
    ensures id !in tr[n].rows
    decreases n - k
  {
    if k < n {
      StaysAbsent(owner, tr, steps, k, n - 1, id);
      RunKeepsConfigured(owner, tr, steps, n - 1);
      AbsentThroughStep(owner, tr, steps, n - 1, id);
    }
  }

  /** A publication of the pass puts the tool back. */
  lemma PublicationRepairs(owner: string -> string, tr: seq<State>, steps: seq<Step>, id: string, h: Hold,
                           renewal: nat, p: nat)
    requires IsRun(tr, steps)
    requires Fits(owner, tr, steps) && owner(id) == h.server && renewal < |steps|
             && Offers(tr, steps, h, id, renewal, p)
    ensures id in tr[p + 1].rows
  {
    RunKeepsConfigured(owner, tr, steps, p);
    LossIsRestored(owner, tr[p], steps[p].pub, steps[p].now, h.server, id);
    assert Follows(tr, steps, p);
  }

  /** Nothing else does. */
  lemma UnpublishedStaysGone(owner: string -> string, tr: seq<State>, steps: seq<Step>, j: nat, id: string, pass: Pass)
    requires IsRun(tr, steps)
    requires Fits(owner, tr, steps) && j < |steps| && Lost(tr, steps, j, id) && !RestoredAt(tr, steps, j, owner(id))
    requires OnlyThisPass(tr, steps, j, owner(id), pass) && pass.publication.None?
    ensures !Back(tr, steps, j, id)
  {
    RunKeepsConfigured(owner, tr, steps, j);
    LostIsAbsent(owner, tr, steps, j, id);
    forall n: nat | j < n <= |steps| ensures id !in tr[n].rows {
      StaysAbsent(owner, tr, steps, j + 1, n, id);
    }
  }

  lemma LapseIsFound(tr: seq<State>, steps: seq<Step>, j: nat, k: nat, id: string, h: Hold)
    requires IsRun(tr, steps)
    requires j < k < |steps| && SharedClock(steps) && Lost(tr, steps, j, id) && tr[j].rows[id].server == h.server
    requires steps[k].DoRenew? && Renews(steps[k], h) && forall i :: j < i < k ==> !Renews(steps[i], h)
    ensures LapsedAt(tr, steps, k)
  {
    LossIsReported(tr, steps, j, k, id, h);
  }

  /** Over every run on one shared clock: after a sweep took a leased tool away, the worker's next pass puts
      it back if and only if its hold call comes back after the renewal and its publication commits. */
  lemma LossIsRepairedExactly(owner: string -> string, tr: seq<State>, steps: seq<Step>, j: nat, id: string, h: Hold,
                              pass: Pass)
    requires IsRun(tr, steps)
    requires Fits(owner, tr, steps) && SharedClock(steps) && owner(id) == h.server
    requires j < |steps| && Lost(tr, steps, j, id) && !RestoredAt(tr, steps, j, h.server)
    requires IsPass(owner, tr, steps, h, id, pass) && j < pass.renewal
    requires forall i :: j < i < pass.renewal ==> !Renews(steps[i], h)
    requires OnlyThisPass(tr, steps, j, h.server, pass)
    ensures Back(tr, steps, j, id) <==> pass.answered && pass.commits
  {
    RunKeepsConfigured(owner, tr, steps, j);
    LapseIsFound(tr, steps, j, pass.renewal, id, h);
    if pass.publication.Some? {
      PublicationRepairs(owner, tr, steps, id, h, pass.renewal, pass.publication.value);
    } else {
      UnpublishedStaysGone(owner, tr, steps, j, id, pass);
    }
  }

  /** From this renewal on, the worker renews the same servers with no more than gap between. */
  ghost predicate WorkerRenews(steps: seq<Step>, when: seq<int>, holder: string, servers: set<string>, first: nat,
                               gap: int)
    requires |when| == |steps|
  {
    && first < |steps| && IsRenewal(steps[first], holder, servers)
    && forall j :: first < j < |steps| && ReadsClock(steps[j]) ==>
                     exists i :: first <= i < j && IsRenewal(steps[i], holder, servers) && when[j] - when[i] <= gap
  }

  predicate IsRenewal(step: Step, holder: string, servers: set<string>) {
    step.DoRenew? && step.holder == holder && step.servers == servers
  }

  lemma WorkerHolds(steps: seq<Step>, when: seq<int>, holder: string, servers: set<string>, first: nat, gap: int,
                    s: string)
    requires |when| == |steps| && WorkerRenews(steps, when, holder, servers, first, gap) && s in servers
    ensures RenewsWithin(steps, when, Hold(s, holder), first, gap)
  {
    forall j | first < j < |steps| && Judges(steps[j])
      ensures exists i :: first <= i < j && Renews(steps[i], Hold(s, holder)) && when[j] - when[i] <= gap
    {
      var i :| first <= i < j && IsRenewal(steps[i], holder, servers) && when[j] - when[i] <= gap;
      assert Renews(steps[i], Hold(s, holder));
    }
  }

  /** A loss its pass did not repair is never reported again: while the worker goes on renewing within a
      lease, clock skew included, no later call of it answers lapsed. */
  lemma UnrepairedLossIsSilent(tr: seq<State>, steps: seq<Step>, when: seq<int>, holder: string, servers: set<string>,
                               first: nat, gap: int, skew: int, m: nat)
    requires IsRun(tr, steps)
    requires SkewWithin(steps, when, skew) && WorkerRenews(steps, when, holder, servers, first, gap)
             && gap + skew < LEASE
    requires first < m < |steps| && IsRenewal(steps[m], holder, servers)
    ensures !Lapsed(tr[m].leases, holder, servers, steps[m].now)
  {
    var i :| first <= i < m && IsRenewal(steps[i], holder, servers) && when[m] - when[i] <= gap;
    forall s | s in servers ensures LiveHold(tr[m].leases, Hold(s, holder), steps[m].now) {
      WorkerHolds(steps, when, holder, servers, first, gap, s);
      RenewalsCountThroughout(tr, steps, when, Hold(s, holder), first, gap, skew, m);
      assert Renews(steps[i], Hold(s, holder));
    }
  }

  /** So a loss its worker's pass did not repair goes unnoticed: the tool stays gone, and no call says so. */
  lemma UnrepairedLossGoesUnnoticed(owner: string -> string, tr: seq<State>, steps: seq<Step>, when: seq<int>, j: nat,
                                    id: string, h: Hold, pass: Pass, gap: int, skew: int)
    requires IsRun(tr, steps) && Fits(owner, tr, steps) && SharedClock(steps) && owner(id) == h.server
    requires j < |steps| && Lost(tr, steps, j, id) && !RestoredAt(tr, steps, j, h.server)
    requires IsPass(owner, tr, steps, h, id, pass) && j < pass.renewal
    requires forall i :: j < i < pass.renewal ==> !Renews(steps[i], h)
    requires OnlyThisPass(tr, steps, j, h.server, pass) && !(pass.answered && pass.commits)
    requires SkewWithin(steps, when, skew) && gap + skew < LEASE
    requires WorkerRenews(steps, when, h.holder, steps[pass.renewal].servers, pass.renewal, gap)
    ensures forall n: nat :: j < n <= |steps| ==> id !in tr[n].rows
    ensures forall m: nat ::
              pass.renewal < m < |steps| && IsRenewal(steps[m], h.holder, steps[pass.renewal].servers) ==>
              !LapsedAt(tr, steps, m)
  {
    LossIsRepairedExactly(owner, tr, steps, j, id, h, pass);
    forall m: nat | pass.renewal < m < |steps| && IsRenewal(steps[m], h.holder, steps[pass.renewal].servers)
      ensures !LapsedAt(tr, steps, m)
    {
      UnrepairedLossIsSilent(tr, steps, when, h.holder, steps[pass.renewal].servers, pass.renewal, gap, skew, m);
    }
  }

  /** One such run: the lease ran out at 100, a sweep at 200 takes the tool, the worker renews at 210 and its
      call fails after that or its publication does, and at 240 it is told of no lapse while the tool stays gone. */
  lemma SilentLoss(tr: seq<State>)
    requires IsRun(tr, SILENT_STEPS)
    requires tr[0] == State(map["t" := Row("s", true, true, "")], map[], map[Hold("s", "w") := 100], map[])
    ensures Lost(tr, SILENT_STEPS, 0, "t") && LapsedAt(tr, SILENT_STEPS, 1) && !LapsedAt(tr, SILENT_STEPS, 2)
    ensures "t" !in tr[3].rows
  {
    assert Follows(tr, SILENT_STEPS, 0) && Follows(tr, SILENT_STEPS, 1) && Follows(tr, SILENT_STEPS, 2);
    assert Due(tr[0].config, tr[0].leases, GraceBegun(tr[0].graces, tr[0].rows, 200), 200, tr[0].rows["t"]);
    assert !LiveHold(tr[1].leases, Hold("s", "w"), 210);
  }

  const SILENT_STEPS: seq<Step> := [DoSweep(200), DoRenew("w", {"s"}, 210), DoRenew("w", {"s"}, 240)]

  // ----------------------------------------------------- the tables' owner

  /** The entries of the first k the publication may record. */
  function HeldEntries(entries: seq<Entry>, k: nat, authority: set<string>): seq<Entry>
    requires k <= |entries|
  {
    if k == 0 then []
    else HeldEntries(entries, k - 1, authority) + if entries[k - 1].server in authority then [entries[k - 1]] else []
  }

  function ValuesOf(held: seq<Entry>, k: nat, unmanaged: set<string>): map<string, Row>
    requires k <= |held|
  {
    if k == 0 then map[]
    else
      var e := held[k - 1];
      ValuesOf(held, k - 1, unmanaged)[e.id := Row(e.server, e.server in unmanaged, e.server in unmanaged, e.about)]
  }

  lemma {:induction false} ValuesOfPrefix(a: seq<Entry>, b: seq<Entry>, k: nat, unmanaged: set<string>)
    requires k <= |a| && a <= b
    ensures ValuesOf(a, k, unmanaged) == ValuesOf(b, k, unmanaged)
  {
    if k > 0 {
      ValuesOfPrefix(a, b, k - 1, unmanaged);
    }
  }

  lemma {:induction false} HeldEntriesGiveValues(entries: seq<Entry>, k: nat, authority: set<string>,
                                                 unmanaged: set<string>)
    requires k <= |entries|
    ensures var held := HeldEntries(entries, k, authority);
            ValuesOf(held, |held|, unmanaged) == Values(entries, k, authority, unmanaged)
  {
    if k > 0 {
      HeldEntriesGiveValues(entries, k - 1, authority, unmanaged);
      var before := HeldEntries(entries, k - 1, authority);
      ValuesOfPrefix(before, HeldEntries(entries, k, authority), |before|, unmanaged);
    }
  }

  /** Sorts a publication into the servers it decides about, their entries, and the unmanaged ones. */
  method Judge(pub: Publication, configured: map<string, int>)
    returns (servers: set<string>, entries: seq<Entry>, unmanaged: set<string>)
    ensures servers == Authority(pub, configured) && unmanaged == HeldUnmanaged(pub, configured)
    ensures entries == HeldEntries(pub.entries, |pub.entries|, servers)
  {
    servers, unmanaged := {}, {};
    for k := 0 to |pub.servers|
      invariant servers == set i | 0 <= i < k && Accepted(configured, pub.servers[i]) :: pub.servers[i].name
      invariant unmanaged ==
                set i | 0 <= i < k && pub.servers[i].unmanaged && Accepted(configured, pub.servers[i])
                  :: pub.servers[i].name
    {
      var server := pub.servers[k];
      var managed := server.name in configured;
      if server.unmanaged && !managed {
        unmanaged := unmanaged + {server.name};
      } else if server.unmanaged || !managed || configured[server.name] != server.generation {
        continue;
      }
      servers := servers + {server.name};
    }
    entries := [];
    for k := 0 to |pub.entries|
      invariant entries == HeldEntries(pub.entries, k, servers)
    {
      if pub.entries[k].server in servers {
        entries := entries + [pub.entries[k]];
      }
    }
  }

  method EncodeTools(held: seq<Entry>, unmanaged: set<string>) returns (values: map<string, Row>)
    ensures values == ValuesOf(held, |held|, unmanaged)
  {
    values := map[];
    for k := 0 to |held|
      invariant values == ValuesOf(held, k, unmanaged)
    {
      var e := held[k];
      values := values[e.id := Row(e.server, e.server in unmanaged, e.server in unmanaged, e.about)];
    }
  }

  method Unmanaged(pub: Publication) returns (servers: set<string>)
    ensures servers == UnmanagedNames(pub)
  {
    servers := {};
    for k := 0 to |pub.servers|
      invariant servers == set i | 0 <= i < k && pub.servers[i].unmanaged :: pub.servers[i].name
    {
      if pub.servers[k].unmanaged {
        servers := servers + {pub.servers[k].name};
      }
    }
  }

  class Curator {
    var rows: map<string, Row>
    var config: map<string, Config>
    var leases: map<Hold, int>
    var graces: map<string, int>

    function Tables(): State
      reads this
    {
      State(rows, config, leases, graces)
    }

    constructor ()
      ensures Tables() == State(map[], map[], map[], map[])
    {
      rows, config, leases, graces := map[], map[], map[], map[];
    }

    /** Afterwards every named lease runs for a lease from now, none moved back, and nobody else's changed;
        the answer says whether one of them had not been live. */
    method RenewLeases(holder: string, servers: set<string>, now: int) returns (answer: Answer)
      modifies this`leases
      ensures answer.Failed? <==> NoHolder(holder, servers)
      ensures answer.Answered? ==>
              (answer.lapsed <==> exists s :: s in servers && !LiveHold(old(leases), Hold(s, holder), now))
      ensures answer.Failed? ==> leases == old(leases)
      ensures answer.Answered? ==>
              leases == Renewed(old(leases), holder, servers, now) && Extends(old(leases), leases, holder, servers, now)
    {
      if servers == {} {
        assert Renewed(leases, holder, servers, now) == leases;
        RenewedExtends(leases, holder, servers, now);
        return Answered(false);
      }
      if holder == "" {
        return Failed;
      }
      var lapsed := false;
      var left := servers;
      while left != {}
        invariant left <= servers
        invariant leases == Renewed(old(leases), holder, servers - left, now)
        invariant lapsed <==> exists s :: s in servers - left && !LiveHold(old(leases), Hold(s, holder), now)
        decreases left
      {
        var s :| s in left;
        var h := Hold(s, holder);
        if !(h in leases && leases[h] > now) {
          lapsed := true;
        }
        ghost var done := servers - left;
        RenewedOneMore(old(leases), holder, done, s, now);
        leases := leases[h := if h in leases then Later(leases[h], now + LEASE) else now + LEASE];
        left := left - {s};
        assert servers - left == done + {s};
      }
      assert servers - {} == servers;
      RenewedExtends(old(leases), holder, servers, now);
      return Answered(lapsed);
    }

    method SweepCatalogue(now: int)
      modifies this`rows, this`graces
      ensures Tables() == Swept(old(Tables()), now)
      ensures ManagedIsConfigured(Tables())
    {
      graces := GraceBegun(graces, rows, now);
      rows := map id | id in rows && !Due(config, leases, graces, now, rows[id]) :: rows[id];
      graces := GraceSettled(graces, rows);
    }

    /** Drops the tools no longer offered and writes the ones that are. */
    method RecordTools(pub: Publication)
      modifies this`rows, this`graces
      ensures Tables() == Recorded(old(Tables()), pub)
    {
      var servers, held, unmanaged := Judge(pub, Configured(config));
      HeldEntriesGiveValues(pub.entries, |pub.entries|, servers, unmanaged);
      var values := EncodeTools(held, unmanaged);
      rows := Offered(rows, servers, values.Keys) + values;
      graces := GraceSettled(graces, rows);
    }

    /** Lease, sweep and record as one step; without a holder to lease to, nothing. */
    method PublishTools(pub: Publication, now: int) returns (ok: bool)
      modifies this
      ensures ok == !Refused(pub) && Tables() == Publish(old(Tables()), pub, now)
    {
      var free := Unmanaged(pub);
      var answer := RenewLeases(pub.holder, free, now);
      if answer.Failed? {
        return false;
      }
      assert Tables() == Leased(old(Tables()), pub, now);
      SweepCatalogue(now);
      RecordTools(pub);
      ok := true;
    }

    /** The call is the run of its statements as far as it gets, whose last state is the tables'; it answers
        exactly when nothing failed, with whether a named lease had not been live; past the renewal every
        named server is held, and an unmanaged row then goes only if nobody holds its server. */
    method HoldToolServers(holder: string, servers: set<string>, now: int, fault: Fault) returns (answer: Answer)
      modifies this
      ensures Tables() == HoldState(old(Tables()), holder, servers, now, fault)
      ensures forall tr :: IsRun(tr, HoldRun(holder, servers, now)) && tr[0] == old(Tables()) ==>
                Tables() == tr[HoldReach(old(Tables()), holder, servers, now, fault)]
      ensures answer.Answered? <==> fault == NoFault && !NoHolder(holder, servers)
      ensures answer.Answered? ==>
              (answer.lapsed <==> exists s :: s in servers && !LiveHold(old(leases), Hold(s, holder), now))
      ensures fault != RenewFails && !NoHolder(holder, servers) ==>
              forall s :: s in servers ==> LiveHold(leases, Hold(s, holder), now)
      ensures forall id :: id in old(rows) && old(rows)[id].unmanaged && Live(leases, old(rows)[id].server, now) ==>
                id in rows && rows[id] == old(rows)[id]
      ensures config == old(config) && forall id :: id in rows ==> id in old(rows) && rows[id] == old(rows)[id]
    {
      forall tr | IsRun(tr, HoldRun(holder, servers, now)) && tr[0] == old(Tables())
        ensures HoldState(old(Tables()), holder, servers, now, fault) ==
                tr[HoldReach(old(Tables()), holder, servers, now, fault)]
      {
        HoldIsARun(tr, holder, servers, now, fault);
      }
      if fault == RenewFails {
        return Failed;
      }
      var lapsed := RenewLeases(holder, servers, now);
      if lapsed.Failed? || fault == ForgetFails {
        return Failed;
      }
      leases := Unexpired(leases, now);
      if fault == SweepFails {
        return Failed;
      }
      if WorthSweeping(Tables(), now) {
        SweepCatalogue(now);
      }
      answer := lapsed;
    }

    /** Takes every row of the server away, and says how many there were. */
    method DropServerTools(server: string) returns (removed: nat)
      modifies this`rows
      ensures rows == DropServer(old(rows), server) && |rows| + removed == |old(rows)|
    {
      removed := 0;
      var left := rows.Keys;
      while left != {}
        invariant left <= old(rows).Keys
        invariant rows == map id | id in old(rows) && (old(rows)[id].server != server || id in left) :: old(rows)[id]
        invariant |rows| + removed == |old(rows)|
        decreases left
      {
        var id :| id in left;
        if rows[id].server == server {
          assert rows.Keys == (rows - {id}).Keys + {id};
          rows := rows - {id};
          removed := removed + 1;
        }
        left := left - {id};
      }
    }

    /** A server switched off has no tools left; another's are untouched, and managed tools stay configured. */
    method PutServer(name: string, enabled: bool, generation: int) returns (removed: nat)
      modifies this`rows, this`config
      ensures Tables() == Save(old(Tables()), name, enabled, generation)
      ensures |rows| + removed == |old(rows)|
      ensures !enabled ==> forall id :: id in rows ==> rows[id].server != name
      ensures forall id :: id in old(rows) && (enabled || old(rows)[id].server != name) ==>
              id in rows && rows[id] == old(rows)[id]
      ensures old(ManagedIsConfigured(Tables())) ==> ManagedIsConfigured(Tables())
    {
      removed := 0;
      if !enabled {
        removed := DropServerTools(name);
      }
      config := config[name := Config(enabled, generation)];
    }

    /** A server removed has no tools left and is configured no more; another's are untouched. */
    method DeleteServer(name: string) returns (removed: nat)
      modifies this`rows, this`config
      ensures Tables() == Remove(old(Tables()), name)
      ensures |rows| + removed == |old(rows)| && name !in Configured(config)
      ensures forall id :: id in rows ==> rows[id].server != name
      ensures forall id :: id in old(rows) && old(rows)[id].server != name ==> id in rows && rows[id] == old(rows)[id]
      ensures old(ManagedIsConfigured(Tables())) ==> ManagedIsConfigured(Tables())
    {
      removed := DropServerTools(name);
      config := config - {name};
    }
  }

  const FLAG_MARK := "flag"

  /** One worker's view: connections with their marks, generations, command-line servers, live sessions. */
  class Reconciler {
    const holder: string
    var connected: map<string, string>
    var generations: map<string, int>
    var flags: set<string>
    var live: set<string>

    constructor (holder: string)
      ensures this.holder == holder && connected == map[] && generations == map[] && flags == {} && live == {}
    {
      this.holder := holder;
      connected, generations, flags, live := map[], map[], {}, {};
    }

    /** What the worker asks to hold: command-line servers among its connections that are live. */
    function Served(): set<string>
      reads this
    {
      set name | name in connected && connected[name] == FLAG_MARK && name in live
    }

    method FlagServers() returns (out: set<string>)
      ensures out == Served()
    {
      out := {};
      var left := connected.Keys;
      while left != {}
        invariant left <= connected.Keys
        invariant out == set name | name in connected.Keys - left && connected[name] == FLAG_MARK && name in live
        decreases left
      {
        var name :| name in left;
        if connected[name] == FLAG_MARK && name in live {
          out := out + {name};
        }
        left := left - {name};
      }
    }

    /** Every command-line server that is not live gets one attempt to come up. */
    method ReviveFlagServers(comesUp: string -> bool) returns (revived: bool)
      modifies this`live
      ensures live == old(live) + (set name | name in flags && comesUp(name))
      ensures revived <==> exists name :: name in flags && name !in old(live) && comesUp(name)
    {
      revived := false;
      var left := flags;
      while left != {}
        invariant left <= flags
        invariant live == old(live) + (set name | name in flags - left && comesUp(name))
        invariant revived <==> exists name :: name in flags - left && name !in old(live) && comesUp(name)
        decreases left
      {
        var name :| name in left;
        assert name in live ==> name in old(live);
        if name !in live && comesUp(name) {
          live := live + {name};
          revived := true;
        }
        left := left - {name};
      }
    }

    /** What the worker publishes: every live session it can place, as unmanaged or under the generation it
        was discovered with. */
    ghost predicate Publishes(entries: seq<Entry>, pub: Publication)
      reads this
    {
      && pub.holder == holder && pub.entries == entries && UnmanagedNames(pub) == Served()
      && (forall i :: 0 <= i < |pub.servers| && !pub.servers[i].unmanaged ==>
            pub.servers[i].name in live && pub.servers[i].name in generations
            && pub.servers[i].generation == generations[pub.servers[i].name])
      && (forall name :: name in live && name in generations && name !in Served() ==>
            exists i :: 0 <= i < |pub.servers| && pub.servers[i] == Published(name, generations[name], false))
    }

    method ListPublication(entries: seq<Entry>) returns (pub: Publication)
      ensures Publishes(entries, pub)
    {
      var servers: seq<Published> := [];
      var left := live;
      while left != {}
        invariant left <= live
        invariant forall i :: 0 <= i < |servers| && servers[i].unmanaged ==> servers[i].name in Served()
        invariant forall i :: 0 <= i < |servers| && !servers[i].unmanaged ==>
          servers[i].name in live && servers[i].name in generations
            && servers[i].generation == generations[servers[i].name]
        invariant forall name :: name in Served() && name !in left ==>
                  exists i :: 0 <= i < |servers| && servers[i].unmanaged && servers[i].name == name
        invariant forall name :: name in live && name !in left && name in generations && name !in Served() ==>
          Published(name, generations[name], false) in servers
        decreases left
      {
        var name :| name in left;
        ghost var was := servers;
        if name in connected && connected[name] == FLAG_MARK {
          servers := servers + [Published(name, 0, true)];
          assert servers[|was|].unmanaged && servers[|was|].name == name;
        } else if name in generations {
          servers := servers + [Published(name, generations[name], false)];
        }
        assert forall i :: 0 <= i < |was| ==> servers[i] == was[i];
        left := left - {name};
      }
      pub := Publication(servers, entries, holder);
    }

    /** The lease part of a reconcile pass: the hold call, then a publication exactly when something changed
        or the call reported a lapse. A publication that does not commit is not tried again. */
    method Pass(c: Curator, now: int, fault: Fault, comesUp: string -> bool, otherwise: bool, entries: seq<Entry>,
                later: int, commits: bool)
      returns (publish: bool)
      modifies this`live, c
      ensures publish <==> || otherwise
                           || (exists name :: name in flags && name !in old(live) && comesUp(name))
                           || (fault == NoFault && holder != "" && Lapsed(old(c.leases), holder, Served(), now))
      ensures exists pub :: Publishes(entries, pub) &&
                c.Tables() == Passed(old(c.Tables()), holder, Served(), now, fault, publish && commits, pub, later)
    {
      var changed := ReviveFlagServers(comesUp);
      var servers := FlagServers();
      var answer := c.HoldToolServers(holder, servers, now, fault);
      publish := changed || (answer.Answered? && answer.lapsed) || otherwise;
      var pub := ListPublication(entries);
      if publish && commits {
        var ok := c.PublishTools(pub, later);
      }
      assert Publishes(entries, pub);
    }
  }

  /** The tables after a pass. */
  function Passed(st: State, holder: string, servers: set<string>, now: int, fault: Fault, published: bool,
                  pub: Publication, later: int): State {
    var held := HoldState(st, holder, servers, now, fault);
    if published then Publish(held, pub, later) else held
  }
}
