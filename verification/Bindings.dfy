/** Channel accounts and the people they speak for: bindings written and withdrawn under locks, against
    the removal of the connection they stand on. */
module Bindings {
  import Pairs

  // ---- keys ----

  function IdentityKey(channel: string, account: string): string {
    channel + "/" + account
  }

  /** How many characters stand before the last slash, if there is one. */
  datatype Place = Nowhere | Before(at: nat)

  function LastSlash(s: string): (p: Place)
    ensures p.Before? ==> p.at < |s|
  {
    if s == [] then Nowhere
    else if s[|s| - 1] == '/' then Before(|s| - 1)
    else LastSlash(s[..|s| - 1])
  }

  function KeyChannel(key: string): string {
    match LastSlash(key)
    case Nowhere => key
    case Before(at) => key[..at]
  }

  function KeyAccount(key: string): string {
    match LastSlash(key)
    case Nowhere => ""
    case Before(at) => key[at + 1..]
  }

  lemma {:induction false} LastSlashIsLast(s: string)
    ensures LastSlash(s).Nowhere? <==> '/' !in s
    ensures LastSlash(s).Before? ==> s[LastSlash(s).at] == '/' && '/' !in s[LastSlash(s).at + 1..]
  {
    if s != [] && s[|s| - 1] != '/' {
      var n := |s| - 1;
      LastSlashIsLast(s[..n]);
      assert s == s[..n] + [s[n]];
      if LastSlash(s).Before? {
        var at := LastSlash(s).at;
        assert s[at + 1..] == s[..n][at + 1..] + [s[n]];
      }
    }
  }

  /** A key reads back as its two halves exactly when the account holds no slash, whatever slashes the
      connection's name holds. */
  lemma KeyReadsBack(channel: string, account: string)
    ensures KeyChannel(IdentityKey(channel, account)) == channel <==> '/' !in account
    ensures '/' !in account ==> KeyAccount(IdentityKey(channel, account)) == account
  {
    var key := IdentityKey(channel, account);
    LastSlashIsLast(key);
    assert key[|channel|] == '/' && key[|channel| + 1..] == account && key[..|channel|] == channel;
    var at := LastSlash(key).at;
    if at > |channel| {
      assert account[at - |channel| - 1] == '/';
    }
  }

  /** No two bindings share a key, even of connections whose names extend one another. */
  lemma KeysAreDistinct(c1: string, a1: string, c2: string, a2: string)
    requires '/' !in a1 && '/' !in a2 && IdentityKey(c1, a1) == IdentityKey(c2, a2)
    ensures c1 == c2 && a1 == a2
  {
    KeyReadsBack(c1, a1);
    KeyReadsBack(c2, a2);
  }

  // ---- the stored rows ----

  /** Where a row is stored: the installation, where a binding belongs, or anywhere else. */
  datatype Scope = Installation | Elsewhere(name: string)
  datatype Slot = Slot(scope: Scope, key: string)
  datatype Binding = Binding(principal: string, enabled: bool)

  type Rows = map<Slot, Binding>

  datatype Reading = Nobody | SpeaksFor(principal: string) | Unreadable

  /** A lookup of one slot only: the binding's own key at the installation, and only if it is enabled. */
  function PrincipalFor(rows: Rows, channel: string, account: string): Reading {
    var slot := Slot(Installation, IdentityKey(channel, account));
    if slot !in rows || !rows[slot].enabled then Nobody
    else if rows[slot].principal == "" then Unreadable
    else SpeaksFor(rows[slot].principal)
  }

  /** Every binding's connection, read by the last slash of its key, exists. */
  ghost predicate Anchored(connections: set<string>, rows: Rows) {
    forall slot :: slot in rows ==> KeyChannel(slot.key) in connections
  }

  function Withdrawn(rows: Rows, name: string): Rows {
    map slot | slot in rows && KeyChannel(slot.key) != name :: rows[slot]
  }

  function Without(rows: Rows, key: string): Rows {
    map slot | slot in rows && slot.key != key :: rows[slot]
  }

  datatype Change = Bound(key: string, principal: string) | Unbound(key: string) | Removed(name: string)

  /** log records the slots listed, each once and each a binding of this connection. */
  ghost predicate Logs(rows: Rows, name: string, gone: seq<Slot>, log: seq<Change>) {
    && |log| == |gone|
    && (forall i :: 0 <= i < |gone| ==>
          gone[i] in rows && KeyChannel(gone[i].key) == name && log[i] == Unbound(gone[i].key))
    && (forall i, j :: 0 <= i < j < |gone| ==> gone[i] != gone[j])
  }

  /** One record for each row withdrawn with the connection. */
  ghost predicate Withdrawals(rows: Rows, name: string, log: seq<Change>) {
    exists gone ::
      && Logs(rows, name, gone, log)
      && forall slot :: slot in rows && KeyChannel(slot.key) == name ==> slot in gone
  }

  datatype Fault = NoFault | NoAccount | NoPrincipal | AccountSeparator | NoConnection | Refused | Rolled

  class Channels {
    var connections: set<string>
    var rows: Rows
    var trail: seq<Change>

    constructor ()
      ensures connections == {} && rows == map[] && trail == []
    {
      connections, rows, trail := {}, map[], [];
    }

    ghost predicate Valid()
      reads this
    {
      Anchored(connections, rows)
    }

    method SaveChannel(name: string)
      requires Valid()
      modifies this`connections
      ensures Valid() && connections == old(connections) + {name}
    {
      connections := connections + {name};
    }

    /** A binding is stored only on a connection that exists, and the write and its record are one act:
        a fault, or a transaction that does not commit, leaves both as they were. */
    method BindIdentity(channel: string, account: string, principal: string, commits: bool) returns (fault: Fault)
      requires Valid()
      modifies this`rows, this`trail
      ensures Valid()
      ensures fault == NoFault <==>
                && Pairs.TrimSpace(account) != "" && Pairs.TrimSpace(principal) != "" && '/' !in account
                && channel in connections && commits
      ensures fault == NoFault ==>
                && PrincipalFor(rows, channel, account) == SpeaksFor(principal)
                && trail == old(trail) + [Bound(IdentityKey(channel, account), principal)]
                && rows == old(rows)[Slot(Installation, IdentityKey(channel, account)) := Binding(principal, true)]
      ensures fault != NoFault ==> rows == old(rows) && trail == old(trail)
    {
      if Pairs.TrimSpace(account) == "" {
        return NoAccount;
      }
      if Pairs.TrimSpace(principal) == "" {
        return NoPrincipal;
      }
      if '/' in account {
        return AccountSeparator;
      }
      if channel !in connections {
        return NoConnection;
      }
      if !commits {
        return Rolled;
      }
      var key := IdentityKey(channel, account);
      KeyReadsBack(channel, account);
      rows := rows[Slot(Installation, key) := Binding(principal, true)];
      trail := trail + [Bound(key, principal)];
      return NoFault;
    }

    /** After it commits the account speaks for nobody: every position the key is stored in is emptied. */
    method UnbindIdentity(channel: string, account: string, commits: bool) returns (fault: Fault)
      requires Valid()
      modifies this`rows, this`trail
      ensures Valid()
      ensures fault == NoFault <==> commits
      ensures fault == NoFault ==>
                && rows == Without(old(rows), IdentityKey(channel, account))
                && PrincipalFor(rows, channel, account) == Nobody
                && trail == old(trail) + [Unbound(IdentityKey(channel, account))]
      ensures fault != NoFault ==> rows == old(rows) && trail == old(trail)
    {
      var key := IdentityKey(channel, account);
      var kept := rows;
      var stored := rows.Keys;
      while stored != {}
        invariant stored <= rows.Keys
        invariant kept == map slot | slot in rows && (slot.key != key || slot in stored) :: rows[slot]
        decreases stored
      {
        var one :| one in stored;
        if one.key == key {
          kept := kept - {one};
        }
        stored := stored - {one};
      }
      if !commits {
        return Rolled;
      }
      rows := kept;
      trail := trail + [Unbound(key)];
      return NoFault;
    }

    /** Removing a connection withdraws its own bindings, wherever each is stored, and no other's. */
    method DeleteChannel(name: string, allowed: bool, commits: bool) returns (fault: Fault)
      requires Valid()
      modifies this
      ensures Valid()
      ensures fault == NoFault <==> allowed && commits
      ensures fault == NoFault ==> connections == old(connections) - {name} && rows == Withdrawn(old(rows), name)
      ensures fault == NoFault ==>
                exists log :: Withdrawals(old(rows), name, log) && trail == old(trail) + log + [Removed(name)]
      ensures fault != NoFault ==> connections == old(connections) && rows == old(rows) && trail == old(trail)
    {
      if !allowed {
        return Refused;
      }
      if !commits {
        return Rolled;
      }
      var log := WithdrawBindings(name);
      connections := connections - {name};
      trail := trail + log + [Removed(name)];
      return NoFault;
    }

    method WithdrawBindings(name: string) returns (log: seq<Change>)
      modifies this`rows
      ensures rows == Withdrawn(old(rows), name) && Withdrawals(old(rows), name, log)
    {
      log := [];
      ghost var gone: seq<Slot> := [];
      var left := rows.Keys;
      var kept := rows;
      while left != {}
        invariant left <= rows.Keys
        invariant kept == map slot | slot in rows && (KeyChannel(slot.key) != name || slot in left) :: rows[slot]
        invariant Logs(rows, name, gone, log)
        invariant forall slot :: slot in gone ==> slot !in left
        invariant forall slot :: slot in rows && KeyChannel(slot.key) == name && slot !in left ==> slot in gone
        decreases left
      {
        var one :| one in left;
        if KeyChannel(one.key) == name {
          kept := kept - {one};
          log := log + [Unbound(one.key)];
          gone := gone + [one];
        }
        left := left - {one};
      }
      rows := kept;
    }
  }

  // ---- transactions interleaved under their locks ----

  /** A transaction under way, by what it holds and what it has read: a bind holds the connection's lock
      once it saw the connection, and later the binding's; an unbind holds the binding's lock and its
      inventory of rows; a removal holds the connection's lock. */
  datatype Tx =
    | BindTx(channel: string, account: string, principal: string, locked: bool)
    | UnbindTx(key: string, inventory: set<Slot>)
    | DeleteTx(name: string)

  datatype State = State(connections: set<string>, rows: Rows, txs: map<nat, Tx>)

  predicate HoldsChannel(tx: Tx, name: string) {
    (tx.BindTx? && tx.channel == name) || (tx.DeleteTx? && tx.name == name)
  }

  predicate HoldsKey(tx: Tx, key: string) {
    (tx.BindTx? && tx.locked && IdentityKey(tx.channel, tx.account) == key) || (tx.UnbindTx? && tx.key == key)
  }

  predicate ChannelFree(s: State, name: string) {
    forall id :: id in s.txs ==> !HoldsChannel(s.txs[id], name)
  }

  predicate KeyFree(s: State, key: string) {
    forall id :: id in s.txs ==> !HoldsKey(s.txs[id], key)
  }

  /** One moment of one transaction. A step whose lock is taken waits: it changes nothing. */
  datatype Step =
    | Save(name: string)
    | CheckBind(id: nat, channel: string, account: string, principal: string)
    | LockBind(id: nat)
    | CommitBind(id: nat)
    | StartUnbind(id: nat, key: string)
    | CommitUnbind(id: nat)
    | StartDelete(id: nat, name: string)
    | CommitDelete(id: nat)
    | Abort(id: nat)

  function Next(s: State, step: Step): State {
    match step
    case Save(name) => s.(connections := s.connections + {name})
    case CheckBind(id, c, a, p) =>
      if id !in s.txs && '/' !in a && c in s.connections && ChannelFree(s, c)
      then s.(txs := s.txs[id := BindTx(c, a, p, false)]) else s
    case LockBind(id) =>
      if id in s.txs && s.txs[id].BindTx? && KeyFree(s, IdentityKey(s.txs[id].channel, s.txs[id].account))
      then s.(txs := s.txs[id := s.txs[id].(locked := true)]) else s
    case CommitBind(id) =>
      if id in s.txs && s.txs[id].BindTx? && s.txs[id].locked then
        var tx := s.txs[id];
        s.(rows := s.rows[Slot(Installation, IdentityKey(tx.channel, tx.account)) := Binding(tx.principal, true)],
           txs := s.txs - {id})
      else s
    case StartUnbind(id, key) =>
      if id !in s.txs && KeyFree(s, key)
      then s.(txs := s.txs[id := UnbindTx(key, set slot | slot in s.rows && slot.key == key)]) else s
    case CommitUnbind(id) =>
      if id in s.txs && s.txs[id].UnbindTx?
      then s.(rows := s.rows - s.txs[id].inventory, txs := s.txs - {id}) else s
    case StartDelete(id, name) =>
      if id !in s.txs && ChannelFree(s, name) then s.(txs := s.txs[id := DeleteTx(name)]) else s
    case CommitDelete(id) =>
      if id in s.txs && s.txs[id].DeleteTx?
      then State(s.connections - {s.txs[id].name}, Withdrawn(s.rows, s.txs[id].name), s.txs - {id}) else s
    case Abort(id) => s.(txs := s.txs - {id})
  }

  /** What a transaction may rely on while it waits to commit. */
  ghost predicate Secured(s: State, tx: Tx) {
    match tx
    case BindTx(c, a, _, _) => c in s.connections && '/' !in a
    case UnbindTx(key, inventory) => forall slot :: slot in s.rows && slot.key == key ==> slot in inventory
    case DeleteTx(_) => true
  }

  ghost predicate Exclusive(s: State) {
    && (forall a, b, name ::
          a in s.txs && b in s.txs && HoldsChannel(s.txs[a], name) && HoldsChannel(s.txs[b], name) ==> a == b)
    && (forall a, b, key :: a in s.txs && b in s.txs && HoldsKey(s.txs[a], key) && HoldsKey(s.txs[b], key) ==> a == b)
  }

  ghost predicate Sound(s: State) {
    && Anchored(s.connections, s.rows)
    && Exclusive(s)
    && forall id :: id in s.txs ==> Secured(s, s.txs[id])
  }

  lemma StepStaysExclusive(s: State, step: Step)
    requires Exclusive(s)
    ensures Exclusive(Next(s, step))
  {
  }

  lemma StepStaysAnchored(s: State, step: Step)
    requires Sound(s)
    ensures Anchored(Next(s, step).connections, Next(s, step).rows)
  {
    if step.CommitBind? && step.id in s.txs && s.txs[step.id].BindTx? {
      assert Secured(s, s.txs[step.id]);
      KeyReadsBack(s.txs[step.id].channel, s.txs[step.id].account);
    }
  }

  lemma StepStaysSecured(s: State, step: Step, id: nat)
    requires Sound(s) && id in Next(s, step).txs
    ensures Secured(Next(s, step), Next(s, step).txs[id])
  {
    assert id in s.txs ==> Secured(s, s.txs[id]);
    if id in s.txs && step.CommitDelete? && step.id in s.txs && s.txs[step.id].DeleteTx? {
      var name := s.txs[step.id].name;
      assert HoldsChannel(s.txs[step.id], name);
      assert id != step.id ==> !HoldsChannel(s.txs[id], name);
    }
    if id in s.txs && step.CommitBind? && step.id in s.txs && s.txs[step.id].BindTx? && s.txs[step.id].locked {
      var key := IdentityKey(s.txs[step.id].channel, s.txs[step.id].account);
      assert HoldsKey(s.txs[step.id], key);
      assert id != step.id ==> !HoldsKey(s.txs[id], key);
    }
  }

  lemma StepStaysSound(s: State, step: Step)
    requires Sound(s)
    ensures Sound(Next(s, step))
  {
    StepStaysExclusive(s, step);
    StepStaysAnchored(s, step);
    forall id | id in Next(s, step).txs ensures Secured(Next(s, step), Next(s, step).txs[id]) {
      StepStaysSecured(s, step, id);
    }
  }

  function After(start: State, steps: seq<Step>, n: nat): State
    requires n <= |steps|
  {
    if n == 0 then start else Next(After(start, steps, n - 1), steps[n - 1])
  }

  /** However the transactions interleave, every binding stands on a connection that exists. */
  lemma {:induction false} EveryBindingIsAnchored(start: State, steps: seq<Step>, n: nat)
    requires Sound(start) && n <= |steps|
    ensures Sound(After(start, steps, n))
  {
    if n > 0 {
      EveryBindingIsAnchored(start, steps, n - 1);
      StepStaysSound(After(start, steps, n - 1), steps[n - 1]);
    }
  }

  ghost predicate Silent(rows: Rows, key: string) {
    forall slot :: slot in rows ==> slot.key != key
  }

  /** The step is the commit of a bind of this key. */
  ghost predicate Binds(s: State, step: Step, key: string) {
    && step.CommitBind? && step.id in s.txs && s.txs[step.id].BindTx? && s.txs[step.id].locked
    && IdentityKey(s.txs[step.id].channel, s.txs[step.id].account) == key
  }

  lemma StepStaysSilent(s: State, step: Step, key: string)
    requires Silent(s.rows, key) && !Binds(s, step, key)
    ensures Silent(Next(s, step).rows, key)
  {
  }

  lemma UnbindSilences(s: State, id: nat)
    requires Sound(s) && id in s.txs && s.txs[id].UnbindTx?
    ensures Silent(Next(s, CommitUnbind(id)).rows, s.txs[id].key)
  {
  }

  /** No commit of a bind of this key stands among the steps from i up to j. */
  ghost predicate Unbidden(start: State, steps: seq<Step>, i: nat, j: nat, key: string)
    requires j <= |steps|
  {
    forall k :: i <= k < j ==> !Binds(After(start, steps, k), steps[k], key)
  }

  lemma {:induction false} StaysSilent(start: State, steps: seq<Step>, i: nat, j: nat, key: string)
    requires i <= j <= |steps| && Unbidden(start, steps, i, j, key)
    requires Silent(After(start, steps, i).rows, key)
    ensures Silent(After(start, steps, j).rows, key)
    decreases j - i
  {
    if i < j {
      StaysSilent(start, steps, i, j - 1, key);
      assert !Binds(After(start, steps, j - 1), steps[j - 1], key);
      StepStaysSilent(After(start, steps, j - 1), steps[j - 1], key);
    }
  }

  /** Once an unbind commits, the account speaks for nobody until a later bind of it commits. */
  lemma UnboundSpeaksForNobody(start: State, steps: seq<Step>, i: nat, j: nat, channel: string, account: string)
    requires Sound(start) && i < j <= |steps| && steps[i].CommitUnbind?
    requires var s := After(start, steps, i);
      steps[i].id in s.txs && s.txs[steps[i].id].UnbindTx? && s.txs[steps[i].id].key == IdentityKey(channel, account)
    requires Unbidden(start, steps, i + 1, j, IdentityKey(channel, account))
    ensures PrincipalFor(After(start, steps, j).rows, channel, account) == Nobody
  {
    EveryBindingIsAnchored(start, steps, i);
    UnbindSilences(After(start, steps, i), steps[i].id);
    assert After(start, steps, i + 1) == Next(After(start, steps, i), steps[i]);
    StaysSilent(start, steps, i + 1, j, IdentityKey(channel, account));
  }
}
