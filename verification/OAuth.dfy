/** OAuth grants that workers refresh: a refreshed grant is stored by compare-and-set before its token is
    handed out. */
module OAuth {
  import opened Common

  datatype Grant = Grant(
    access: string, refresh: string, tokenURL: string, clientID: string, clientSecret: string,
    tokenType: string, expiresAt: nat, scopes: seq<string>)

  predicate Empty(g: Grant) {
    && g.access == "" && g.refresh == "" && g.tokenURL == "" && g.clientID == "" && g.clientSecret == ""
    && g.tokenType == "" && g.expiresAt == 0 && g.scopes == []
  }

  const NO_GRANT := Grant("", "", "", "", "", "", 0, [])

  predicate CanRefresh(g: Grant) {
    g.refresh != "" && g.tokenURL != ""
  }

  /** A grant is spent a minute before it expires; no expiry means it never is. */
  predicate Expired(g: Grant, now: nat) {
    g.expiresAt != 0 && now + 60 >= g.expiresAt
  }

  /** A token that can be sent as it is. */
  predicate Current(g: Grant, now: nat) {
    g.access != "" && !Expired(g, now)
  }

  /** What a provider answers a refresh with. */
  datatype Answer = Answer(access: string, refresh: string, tokenType: string, expiresIn: nat, scopes: seq<string>)

  /** The grant a refresh gives, where the provider answers with a token: what it leaves out is kept, except
      the expiry. */
  function Refreshed(g: Grant, answer: Option<Answer>, now: nat): Option<Grant> {
    if !CanRefresh(g) || answer.None? || answer.value.access == "" then None
    else
      var a := answer.value;
      Some(g.(access := a.access,
              refresh := if a.refresh != "" then a.refresh else g.refresh,
              tokenType := if a.tokenType != "" then a.tokenType else g.tokenType,
              expiresAt := if a.expiresIn > 0 then now + a.expiresIn else 0,
              scopes := if a.scopes != [] then a.scopes else g.scopes))
  }

  // ---- the stored rows ----

  /** The credential row of one server, or of one person on it: absent, not HTTP, or with a grant or none. */
  datatype Row = Absent | OtherTransport | Http(oauth: Option<Grant>)

  type Rows = map<string, Row>

  /** The row of one owner, the installation's under the empty name. */
  function RowOf(rows: Rows, owner: string): Row {
    if owner in rows then rows[owner] else Absent
  }

  /** The compare-and-set: the row still holds what the refresh started from, and there is something to store. */
  predicate Accepts(row: Row, was: Grant, next: Grant) {
    !Empty(next) && row == Http(Some(was))
  }

  /** How a write ends: failed before it committed, committed and answered, or committed with its answer lost. */
  datatype Fate = Answered | FailsBefore | AnswerLost

  /** The rows after a refresh was tried. */
  function Put(rows: Rows, owner: string, was: Grant, next: Grant, fate: Fate): Rows {
    if Accepts(RowOf(rows, owner), was, next) && fate != FailsBefore then rows[owner := Http(Some(next))] else rows
  }

  datatype Acceptance = Acceptance(owner: string, was: Grant, next: Grant)

  /** The store accepted this grant for this owner. */
  ghost predicate Stored(accepted: seq<Acceptance>, owner: string, g: Grant) {
    exists k :: 0 <= k < |accepted| && accepted[k].owner == owner && accepted[k].next == g
  }

  class Store {
    var rows: Rows
    /** Every refresh accepted, in order. */
    ghost var accepted: seq<Acceptance>

    constructor (rows: Rows)
      ensures this.rows == rows && accepted == []
    {
      this.rows := rows;
      accepted := [];
    }

    /** Whatever the answer says, a refresh changes its own row only, and only by the compare-and-set. */
    method Refresh(owner: string, was: Grant, next: Grant, fate: Fate) returns (ok: bool)
      modifies this
      ensures ok <==> Accepts(RowOf(old(rows), owner), was, next) && fate == Answered
      ensures rows == Put(old(rows), owner, was, next, fate)
      ensures old(accepted) <= accepted && (ok ==> Stored(accepted, owner, next))
    {
      if Empty(next) || owner !in rows {
        return false;
      }
      var row := rows[owner];
      if row.Absent? || row.OtherTransport? || row.oauth.None? || row.oauth.value != was || fate == FailsBefore {
        return false;
      }
      rows := rows[owner := Http(Some(next))];
      accepted := accepted + [Acceptance(owner, was, next)];
      assert accepted[|accepted| - 1].next == next;
      return fate == Answered;
    }
  }

  // ---- a transport ----

  class Transport {
    const owner: string
    const store: Store?
    var grant: Grant
    var dirty: bool
    var dirtyFrom: Grant
    ghost const loaded: Grant

    constructor (owner: string, grant: Grant, store: Store?)
      ensures this.owner == owner && this.grant == grant && !dirty && this.store == store && loaded == grant
      ensures Valid()
    {
      this.owner, this.grant, this.store, dirty, dirtyFrom, loaded := owner, grant, store, false, NO_GRANT, grant;
    }

    /** A clean transport holds the grant it was loaded with, or one the store accepted. */
    ghost predicate Valid()
      reads this, store
    {
      store != null && !dirty ==> grant == loaded || Stored(store.accepted, owner, grant)
    }

    predicate DerivedFrom(g: Grant)
      reads this
    {
      grant == g || (dirty && dirtyFrom == g)
    }

    /** What a refresh waiting to be stored needs. */
    ghost predicate CanPersist(fate: Fate)
      reads this, store
    {
      !dirty || store == null || (Accepts(RowOf(store.rows, owner), dirtyFrom, grant) && fate == Answered)
    }

    /** With a store, a transport stops being dirty only by an accepted write. */
    method Persist(fate: Fate) returns (ok: bool)
      requires Valid()
      modifies this, store
      ensures Valid() && grant == old(grant)
      ensures ok <==> !dirty
      ensures ok <==> old(CanPersist(fate))
      ensures !ok ==> dirtyFrom == old(dirtyFrom)
      ensures store != null ==> old(store.accepted) <= store.accepted
      ensures store != null ==>
                store.rows ==
                if old(dirty) then Put(old(store.rows), owner, old(dirtyFrom), grant, fate) else old(store.rows)
    {
      if !dirty {
        return true;
      }
      if store == null {
        dirty, dirtyFrom := false, NO_GRANT;
        return true;
      }
      ok := store.Refresh(owner, dirtyFrom, grant, fate);
      if ok {
        dirty, dirtyFrom := false, NO_GRANT;
      }
    }

    /** What a token needs once nothing waits to be stored: a current grant, or a refresh of it that the row
        accepts. pending says that a grant was stored just now, so that the row holds it. */
    ghost predicate CanToken(now: nat, answer: Option<Answer>, second: Fate, pending: bool)
      reads this, store
    {
      || Current(grant, now)
      || (Refreshed(grant, answer, now).Some?
          && (store == null || ((pending || RowOf(store.rows, owner) == Http(Some(grant))) && second == Answered)))
    }

    /** A token is handed out exactly when nothing is left to store, or could be stored, and the grant is
        current or its refresh accepted; and only of the grant that was loaded or of one the store accepted. */
    method Token(now: nat, answer: Option<Answer>, first: Fate, second: Fate) returns (token: Option<string>)
      requires Valid()
      modifies this, store
      ensures Valid()
      ensures token.Some? <==> old(CanPersist(first)) && old(CanToken(now, answer, second, dirty))
      ensures token.Some? ==> !dirty && token.value == grant.access
      ensures token.Some? && store != null ==> grant == loaded || Stored(store.accepted, owner, grant)
      ensures token.Some? ==>
              Some(grant) == if Current(old(grant), now) then Some(old(grant)) else Refreshed(old(grant), answer, now)
      ensures token.Some? ==> (DerivedFrom(old(grant)) <==> grant == old(grant))
      ensures token.Some? && store != null && !Current(old(grant), now) ==>
              RowOf(store.rows, owner) == Http(Some(grant))
      ensures !old(CanPersist(first)) ==> dirty && dirtyFrom == old(dirtyFrom) && grant == old(grant)
      ensures store != null ==> old(store.accepted) <= store.accepted
      ensures store != null ==> forall o :: o != owner ==> RowOf(store.rows, o) == RowOf(old(store.rows), o)
    {
      var ok := Persist(first);
      if !ok {
        return None;
      }
      if Current(grant, now) {
        return Some(grant.access);
      }
      var next := Refreshed(grant, answer, now);
      if next.None? {
        return None;
      }
      dirtyFrom, grant, dirty := grant, next.value, true;
      ok := Persist(second);
      return if ok then Some(grant.access) else None;
    }
  }

  /** The transports of one server, by whose credential they carry. */
  class Auth {
    const store: Store?
    var grants: map<string, Transport>

    constructor (store: Store?)
      ensures this.store == store && grants == map[] && Valid()
    {
      this.store, grants := store, map[];
    }

    ghost predicate Valid()
      reads this, grants.Values, store
    {
      forall o :: o in grants ==> grants[o].owner == o && grants[o].store == store && grants[o].Valid()
    }

    /** A transport of this owner that derives from the credential in hand. */
    ghost predicate Keeps(owner: string, grant: Grant)
      reads this, grants.Values
    {
      owner in grants && grants[owner].DerivedFrom(grant)
    }

    /** A transport is kept exactly while it derives from the credential in hand; otherwise a new, clean one
        starts from that credential. */
    method TransportFor(owner: string, grant: Grant) returns (t: Transport)
      requires Valid()
      modifies this
      ensures Valid() && owner in grants && grants[owner] == t && t.DerivedFrom(grant)
      ensures old(Keeps(owner, grant)) ==> t == old(grants[owner]) && grants == old(grants)
      ensures !old(Keeps(owner, grant)) ==> fresh(t) && t.loaded == t.grant == grant && !t.dirty
      ensures grants == old(grants)[owner := t]
    {
      if owner in grants && grants[owner].DerivedFrom(grant) {
        return grants[owner];
      }
      t := new Transport(owner, grant, store);
      grants := grants[owner := t];
    }

    /** One request with the credential in hand. With no transport that derives from it, a token is handed
        out exactly when the credential is current, or can be refreshed while the row still holds it. */
    method RoundTrip(owner: string, grant: Grant, now: nat, answer: Option<Answer>, first: Fate, second: Fate)
      returns (token: Option<string>)
      requires Valid()
      modifies this, store, grants.Values
      ensures Valid() && owner in grants && grants == old(grants)[owner := grants[owner]]
      ensures !old(Keeps(owner, grant)) ==> fresh(grants[owner])
      ensures !old(Keeps(owner, grant)) ==>
                (token.Some? <==>
                  || Current(grant, now)
                  || (Refreshed(grant, answer, now).Some?
                      && (store == null || (RowOf(old(store.rows), owner) == Http(Some(grant)) && second == Answered))))
      ensures old(Keeps(owner, grant)) ==>
                (token.Some? <==>
                  old(grants[owner].CanPersist(first))
                    && old(grants[owner].CanToken(now, answer, second, grants[owner].dirty)))
      ensures token.Some? ==> !grants[owner].dirty && token.value == grants[owner].grant.access
      ensures token.Some? && !old(Keeps(owner, grant)) ==>
                Some(grants[owner].grant) == if Current(grant, now) then Some(grant) else Refreshed(grant, answer, now)
      ensures token.Some? && !old(Keeps(owner, grant)) && store != null && !Current(grant, now) ==>
                RowOf(store.rows, owner) == Http(Some(grants[owner].grant))
    {
      var t := TransportFor(owner, grant);
      token := t.Token(now, answer, first, second);
    }
  }

  /** The credential read when a server was connected stops working once it was refreshed: the next request
      with it starts from it again, and the row has moved on. */
  method RefreshedSnapshotIsRefused(auth: Auth, g: Grant, now: nat, answer: Answer, later: nat, again: Option<Answer>)
    returns (x: Option<string>, y: Option<string>)
    requires auth.Valid() && auth.store != null && auth.grants == map[]
    requires RowOf(auth.store.rows, "") == Http(Some(g)) && CanRefresh(g) && !Current(g, now) && now <= later
    requires answer.access != "" && Refreshed(g, Some(answer), now) != Some(g)
    modifies auth, auth.store
    ensures x == Some(answer.access) && y == None
  {
    x := auth.RoundTrip("", g, now, Some(answer), Answered, Answered);
    assert auth.grants.Values == {auth.grants[""]};
    y := auth.RoundTrip("", g, later, again, Answered, Answered);
  }

  // ---- one row, any number of workers and operators ----

  /** A worker's refresh from the grant it holds, or an operator's save of the row. */
  datatype Write = WorkerRefresh(was: Grant, next: Grant, fate: Fate) | OperatorSave(row: Row)

  predicate Takes(row: Row, w: Write) {
    w.OperatorSave? || (Accepts(row, w.was, w.next) && w.fate != FailsBefore)
  }

  function Next(row: Row, w: Write): Row {
    if !Takes(row, w) then row
    else match w
      case WorkerRefresh(_, next, _) => Http(Some(next))
      case OperatorSave(to) => to
  }

  function After(start: Row, writes: seq<Write>, n: nat): Row
    requires n <= |writes|
  {
    if n == 0 then start else Next(After(start, writes, n - 1), writes[n - 1])
  }

  /** The n-th write is a refresh the row took. */
  predicate Refreshes(start: Row, writes: seq<Write>, n: nat)
    requires n < |writes|
  {
    writes[n].WorkerRefresh? && Takes(After(start, writes, n), writes[n])
  }

  predicate Changes(start: Row, writes: seq<Write>, n: nat)
    requires n < |writes|
  {
    Takes(After(start, writes, n), writes[n])
  }

  lemma {:induction false} UnchangedBetween(start: Row, writes: seq<Write>, i: nat, j: nat)
    requires i <= j <= |writes|
    requires forall k :: i <= k < j ==> !Changes(start, writes, k)
    ensures After(start, writes, j) == After(start, writes, i)
    decreases j - i
  {
    if i < j {
      UnchangedBetween(start, writes, i, j - 1);
      assert !Changes(start, writes, j - 1);
    }
  }

  /** Accepted refreshes form one chain: with no write of the row between two of them, the second starts
      from what the first stored. */
  lemma RefreshesFormAChain(start: Row, writes: seq<Write>, i: nat, j: nat)
    requires i < j < |writes| && Refreshes(start, writes, i) && Refreshes(start, writes, j)
    requires forall k :: i < k < j ==> !Changes(start, writes, k)
    ensures writes[j].was == writes[i].next
  {
    UnchangedBetween(start, writes, i + 1, j);
  }

  /** The row is put back to a grant only by a write that stores that grant. */
  lemma {:induction false} SomeWritePutItBack(start: Row, writes: seq<Write>, i: nat, j: nat, g: Grant)
    requires i <= j <= |writes|
    requires After(start, writes, i) != Http(Some(g)) && After(start, writes, j) == Http(Some(g))
    ensures exists k :: i <= k < j && PutsBack(start, writes, k, g)
    decreases j - i
  {
    if After(start, writes, j - 1) != Http(Some(g)) {
      assert PutsBack(start, writes, j - 1, g);
    } else {
      SomeWritePutItBack(start, writes, i, j - 1, g);
    }
  }

  ghost predicate PutsBack(start: Row, writes: seq<Write>, k: nat, g: Grant)
    requires k < |writes|
  {
    Changes(start, writes, k) && After(start, writes, k + 1) == Http(Some(g))
  }

  /** Two refreshes from the same grant are both stored only if a write put that grant back in between:
      the first itself, a provider handing the old grant out again, or an operator saving it. */
  lemma TwoRefreshesOfOneGrant(start: Row, writes: seq<Write>, i: nat, j: nat)
    requires i < j < |writes| && Refreshes(start, writes, i) && Refreshes(start, writes, j)
    requires writes[i].was == writes[j].was
    ensures exists k :: i <= k < j && PutsBack(start, writes, k, writes[i].was)
  {
    var g := writes[i].was;
    if After(start, writes, i + 1) == Http(Some(g)) {
      assert PutsBack(start, writes, i, g);
    } else {
      SomeWritePutItBack(start, writes, i + 1, j, g);
    }
  }

  /** Among workers alone, with a provider that never hands out a grant twice, of the refreshes from one
      grant at most one is stored. */
  lemma OneRefreshOfAGrantIsStored(start: Row, writes: seq<Write>, i: nat, j: nat)
    requires i < j < |writes| && writes[i].WorkerRefresh? && writes[j].WorkerRefresh? && writes[i].was == writes[j].was
    requires forall k :: 0 <= k < |writes| ==> writes[k].WorkerRefresh? && writes[k].next != writes[i].was
    ensures !(Refreshes(start, writes, i) && Refreshes(start, writes, j))
  {
    if Refreshes(start, writes, i) && Refreshes(start, writes, j) {
      TwoRefreshesOfOneGrant(start, writes, i, j);
    }
  }

  /** A refresh stored while its answer was lost is refused on every retry until some write puts the old
      grant back. Its transport stays dirty all that while, and hands no token out. */
  lemma LostAnswerIsNotRepeated(start: Row, writes: seq<Write>, i: nat, j: nat)
    requires i < j < |writes| && Refreshes(start, writes, i) && writes[i].fate == AnswerLost
    requires writes[j].WorkerRefresh? && writes[j].was == writes[i].was && writes[j].next == writes[i].next
    requires forall k :: i <= k < j ==> !PutsBack(start, writes, k, writes[i].was)
    ensures !Accepts(After(start, writes, j), writes[j].was, writes[j].next)
  {
    var g := writes[i].was;
    assert !PutsBack(start, writes, i, g);
    if After(start, writes, j) == Http(Some(g)) {
      SomeWritePutItBack(start, writes, i + 1, j, g);
    }
  }
}
