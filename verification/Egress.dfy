/** Denied connections of local servers, buffered per key and flushed to a store that may refuse them. */
module Egress {

  const CODE_OTHER := "other"

  predicate Known(code: string) {
    code in {"stdio_egress_unauthorized", "stdio_egress_bad_request", "stdio_egress_destination_denied",
             "stdio_egress_metadata_refused", "stdio_egress_destination_unavailable"}
  }

  /** A code is bounded to the vocabulary, and bounding it again changes nothing. */
  function Code(code: string): (r: string)
    ensures r == CODE_OTHER || Known(r)
  {
    if Known(code) then code else CODE_OTHER
  }

  lemma CodeIsIdempotent(code: string)
    ensures Code(Code(code)) == Code(code)
  {
  }

  datatype Key = Key(server: string, host: string, port: int, code: string)
  datatype Denial = Denial(key: Key, attempts: nat, first: nat, last: nat)

  // ---- what a set of observations amounts to ----

  /** How many were seen, and the first and the last moment. */
  datatype Sum = Nothing | Seen(count: nat, first: nat, last: nat)

  function Min(a: nat, b: nat): nat {
    if a < b then a else b
  }

  function Max(a: nat, b: nat): nat {
    if a < b then b else a
  }

  function Merge(a: Sum, b: Sum): Sum {
    if a.Nothing? then b
    else if b.Nothing? then a
    else Seen(a.count + b.count, Min(a.first, b.first), Max(a.last, b.last))
  }

  lemma MergeIsAssociative(a: Sum, b: Sum, c: Sum)
    ensures Merge(Merge(a, b), c) == Merge(a, Merge(b, c))
    ensures Merge(a, b) == Merge(b, a)
  {
  }

  function SumOf(d: Denial, key: Key): Sum {
    if d.key == key then Seen(d.attempts, d.first, d.last) else Nothing
  }

  /** What the first n denials of a list hold for one key. */
  function SumIn(ds: seq<Denial>, n: nat, key: Key): Sum
    requires n <= |ds|
  {
    if n == 0 then Nothing else Merge(SumIn(ds, n - 1, key), SumOf(ds[n - 1], key))
  }

  function Total(ds: seq<Denial>, key: Key): Sum {
    SumIn(ds, |ds|, key)
  }

  function Buffered(pending: map<Key, Denial>, key: Key): Sum {
    if key in pending then SumOf(pending[key], key) else Nothing
  }

  lemma {:induction false} SumInAppend(a: seq<Denial>, b: seq<Denial>, n: nat, key: Key)
    requires n <= |b|
    ensures SumIn(a + b, |a| + n, key) == Merge(Total(a, key), SumIn(b, n, key))
  {
    if n == 0 {
      SumInPrefix(a, b, |a|, key);
    } else {
      SumInAppend(a, b, n - 1, key);
      MergeIsAssociative(Total(a, key), SumIn(b, n - 1, key), SumOf(b[n - 1], key));
    }
  }

  lemma {:induction false} SumInPrefix(a: seq<Denial>, b: seq<Denial>, n: nat, key: Key)
    requires n <= |a|
    ensures SumIn(a + b, n, key) == SumIn(a, n, key)
  {
    if n > 0 {
      SumInPrefix(a, b, n - 1, key);
    }
  }

  lemma TotalAppend(a: seq<Denial>, b: seq<Denial>, key: Key)
    ensures Total(a + b, key) == Merge(Total(a, key), Total(b, key))
  {
    SumInAppend(a, b, |b|, key);
  }

  // ---- the buffer ----

  predicate Filed(pending: map<Key, Denial>) {
    forall k :: k in pending ==> Proper(pending[k]) && pending[k].key == k
  }

  /** A denial that stands for at least one attempt, under a bounded code. */
  predicate Proper(d: Denial) {
    d.attempts > 0 && d.first <= d.last && Code(d.key.code) == d.key.code
  }

  /** Two denials of one key as one. */
  method Joined(current: Denial, d: Denial) returns (joined: Denial)
    requires current.key == d.key && Proper(current) && Proper(d)
    ensures Proper(joined) && joined.key == d.key
    ensures SumOf(joined, d.key) == Merge(SumOf(current, d.key), SumOf(d, d.key))
  {
    joined := current.(attempts := current.attempts + d.attempts);
    if d.first < joined.first {
      joined := joined.(first := d.first);
    }
    if d.last > joined.last {
      joined := joined.(last := d.last);
    }
  }

  class Reporting {
    var pending: map<Key, Denial>
    /** What the store holds. */
    ghost var stored: seq<Denial>

    constructor ()
      ensures pending == map[] && stored == []
    {
      pending, stored := map[], [];
    }

    ghost predicate Valid()
      reads this
    {
      Filed(pending)
    }

    /** One more attempt under the bounded code, at its moment. */
    method Denied(server: string, host: string, port: int, code: string, now: nat)
      requires Valid()
      modifies this`pending
      ensures Valid()
      ensures forall k :: Buffered(pending, k) ==
                if k == Key(server, host, port, Code(code)) then Merge(old(Buffered(pending, k)), Seen(1, now, now))
                else old(Buffered(pending, k))
    {
      CodeIsIdempotent(code);
      var key := Key(server, host, port, Code(code));
      var d := if key in pending then pending[key] else Denial(key, 0, now, now);
      d := d.(attempts := d.attempts + 1);
      if now < d.first {
        d := d.(first := now);
      }
      if now > d.last {
        d := d.(last := now);
      }
      pending := pending[key := d];
    }

    /** Takes everything out: the batch holds, key by key, what the buffer held. */
    method Drain() returns (batch: seq<Denial>)
      requires Valid()
      modifies this`pending
      ensures Valid() && pending == map[]
      ensures forall d :: d in batch ==> Proper(d)
      ensures forall k :: Total(batch, k) == old(Buffered(pending, k))
    {
      batch := [];
      var left := pending.Keys;
      while left != {}
        invariant left <= pending.Keys
        invariant forall d :: d in batch ==> Proper(d)
        invariant forall k :: Total(batch, k) == if k in left then Nothing else Buffered(pending, k)
        decreases left
      {
        var key :| key in left;
        ghost var was := batch;
        batch := batch + [pending[key]];
        forall k ensures Total(batch, k) == Merge(Total(was, k), SumOf(pending[key], k)) {
          TotalAppend(was, [pending[key]], k);
          assert SumIn([pending[key]], 1, k) == Merge(SumIn([pending[key]], 0, k), SumOf(pending[key], k));
        }
        left := left - {key};
      }
      pending := map[];
    }

    /** Puts a batch back beside whatever was denied meanwhile. */
    method Requeue(batch: seq<Denial>)
      requires Valid() && forall d :: d in batch ==> Proper(d)
      modifies this`pending
      ensures Valid()
      ensures forall k :: Buffered(pending, k) == Merge(old(Buffered(pending, k)), Total(batch, k))
    {
      for i := 0 to |batch|
        invariant Valid()
        invariant forall k :: Buffered(pending, k) == Merge(old(Buffered(pending, k)), SumIn(batch, i, k))
      {
        ghost var was := pending;
        PutBack(batch[i]);
        forall k ensures Buffered(pending, k) == Merge(old(Buffered(pending, k)), SumIn(batch, i + 1, k)) {
          MergeIsAssociative(old(Buffered(pending, k)), SumIn(batch, i, k), SumOf(batch[i], k));
          assert Buffered(was, k) == Merge(old(Buffered(pending, k)), SumIn(batch, i, k));
        }
      }
    }

    method PutBack(d: Denial)
      requires Valid() && Proper(d)
      modifies this`pending
      ensures Valid()
      ensures forall k :: Buffered(pending, k) == Merge(old(Buffered(pending, k)), SumOf(d, k))
    {
      var key := d.key.(code := Code(d.key.code));
      if key !in pending {
        pending := pending[key := d];
        return;
      }
      var joined := Joined(pending[key], d);
      pending := pending[key := joined];
    }

    /** Undisturbed, a flush moves everything into the store, or leaves both as they were. */
    method Flush(writes: bool)
      requires Valid()
      modifies this
      ensures Valid()
      ensures forall k ::
                Merge(Total(stored, k), Buffered(pending, k)) == old(Merge(Total(stored, k), Buffered(pending, k)))
      ensures writes ==> pending == map[]
      ensures !writes ==> stored == old(stored)
    {
      var batch := Drain();
      if batch == [] {
        return;
      }
      if writes {
        stored := stored + batch;
        forall k ensures Total(stored, k) == Merge(old(Total(stored, k)), Total(batch, k)) {
          TotalAppend(old(stored), batch, k);
        }
      } else {
        Requeue(batch);
      }
    }
  }

  // ---- any interleaving of adds, drains and writes ----

  /** A denial observed: its key, under a bounded code, and its moment. */
  datatype Observation = Observation(key: Key, at: nat)

  /** The buffer, the batches drained and not yet settled, the store, and everything ever observed. */
  datatype State = State(
    pending: map<Key, Denial>, flying: seq<seq<Denial>>, stored: seq<Denial>, observed: seq<Observation>)

  function SumObserved(obs: seq<Observation>, n: nat, key: Key): Sum
    requires n <= |obs|
  {
    if n == 0 then Nothing
    else
      var o := obs[n - 1];
      Merge(SumObserved(obs, n - 1, key), if o.key == key then Seen(1, o.at, o.at) else Nothing)
  }

  function Flying(flying: seq<seq<Denial>>, n: nat, key: Key): Sum
    requires n <= |flying|
  {
    if n == 0 then Nothing else Merge(Flying(flying, n - 1, key), Total(flying[n - 1], key))
  }

  function Without<T>(xs: seq<T>, i: nat): seq<T>
    requires i < |xs|
  {
    xs[..i] + xs[i + 1..]
  }

  /** The steps between locks. The buffer's new content is any the methods' contracts allow. */
  ghost predicate Step(s: State, t: State) {
    || Adds(s, t)
    || Drains(s, t)
    || Writes(s, t)
    || Requeues(s, t)
  }

  ghost predicate Adds(s: State, t: State) {
    && t.flying == s.flying && t.stored == s.stored && |t.observed| == |s.observed| + 1 && s.observed <= t.observed
    && var o := t.observed[|s.observed|];
       forall k :: Buffered(t.pending, k) ==
         if k == o.key then Merge(Buffered(s.pending, k), Seen(1, o.at, o.at)) else Buffered(s.pending, k)
  }

  ghost predicate Drains(s: State, t: State) {
    && t.stored == s.stored && t.observed == s.observed && t.pending == map[]
    && exists batch :: t.flying == s.flying + [batch] && forall k :: Total(batch, k) == Buffered(s.pending, k)
  }

  ghost predicate Writes(s: State, t: State) {
    && t.pending == s.pending && t.observed == s.observed
    && exists i :: 0 <= i < |s.flying| && t.flying == Without(s.flying, i) && t.stored == s.stored + s.flying[i]
  }

  ghost predicate Requeues(s: State, t: State) {
    && t.stored == s.stored && t.observed == s.observed
    && exists i :: 0 <= i < |s.flying| && t.flying == Without(s.flying, i)
         && forall k :: Buffered(t.pending, k) == Merge(Buffered(s.pending, k), Total(s.flying[i], k))
  }

  function Held(s: State, key: Key): Sum {
    Merge(Merge(Total(s.stored, key), Flying(s.flying, |s.flying|, key)), Buffered(s.pending, key))
  }

  function Observed(s: State, key: Key): Sum {
    SumObserved(s.observed, |s.observed|, key)
  }

  /** Stored, in flight and buffered together are what was observed: the same count, and the true first
      and last moment. */
  ghost predicate Conserved(s: State) {
    forall k :: Held(s, k) == Observed(s, k)
  }

  lemma {:induction false} FlyingPrefix(a: seq<seq<Denial>>, b: seq<seq<Denial>>, n: nat, key: Key)
    requires n <= |a|
    ensures Flying(a + b, n, key) == Flying(a, n, key)
  {
    if n > 0 {
      FlyingPrefix(a, b, n - 1, key);
    }
  }

  lemma FlyingAppend(flying: seq<seq<Denial>>, batch: seq<Denial>, key: Key)
    ensures Flying(flying + [batch], |flying| + 1, key) == Merge(Flying(flying, |flying|, key), Total(batch, key))
  {
    FlyingPrefix(flying, [batch], |flying|, key);
  }

  lemma {:induction false} FlyingWithout(flying: seq<seq<Denial>>, i: nat, key: Key)
    requires i < |flying|
    ensures Merge(Flying(Without(flying, i), |flying| - 1, key), Total(flying[i], key)) == Flying(flying, |flying|, key)
  {
    var n := |flying| - 1;
    var front := flying[..n];
    assert front + [flying[n]] == flying;
    FlyingAppend(front, flying[n], key);
    if i == n {
      assert Without(flying, i) == front;
    } else {
      FlyingWithout(front, i, key);
      assert Without(flying, i) == Without(front, i) + [flying[n]];
      FlyingAppend(Without(front, i), flying[n], key);
      Swap(Flying(Without(front, i), n - 1, key), Total(flying[n], key), Total(flying[i], key));
    }
  }

  lemma Swap(a: Sum, b: Sum, c: Sum)
    ensures Merge(Merge(a, b), c) == Merge(Merge(a, c), b)
  {
  }

  lemma {:induction false} SumObservedPrefix(a: seq<Observation>, b: seq<Observation>, n: nat, key: Key)
    requires n <= |a| && a <= b
    ensures SumObserved(b, n, key) == SumObserved(a, n, key)
  {
    if n > 0 {
      SumObservedPrefix(a, b, n - 1, key);
    }
  }

  lemma AddConserves(s: State, t: State, key: Key)
    requires Conserved(s) && Adds(s, t)
    ensures Held(t, key) == Observed(t, key)
  {
    assert Held(s, key) == Observed(s, key);
    var o := t.observed[|s.observed|];
    SumObservedPrefix(s.observed, t.observed, |s.observed|, key);
    MergeIsAssociative(Merge(Total(s.stored, key), Flying(s.flying, |s.flying|, key)),
                       Buffered(s.pending, key), Seen(1, o.at, o.at));
  }

  lemma DrainConserves(s: State, t: State, key: Key)
    requires Conserved(s) && Drains(s, t)
    ensures Held(t, key) == Observed(t, key)
  {
    assert Held(s, key) == Observed(s, key);
    var batch :| t.flying == s.flying + [batch] && forall k :: Total(batch, k) == Buffered(s.pending, k);
    FlyingAppend(s.flying, batch, key);
    MergeIsAssociative(Total(s.stored, key), Flying(s.flying, |s.flying|, key), Total(batch, key));
  }

  lemma WriteConserves(s: State, t: State, key: Key)
    requires Conserved(s) && Writes(s, t)
    ensures Held(t, key) == Observed(t, key)
  {
    assert Held(s, key) == Observed(s, key);
    var i :| 0 <= i < |s.flying| && t.flying == Without(s.flying, i) && t.stored == s.stored + s.flying[i];
    BatchIsStored(s, t, i, key);
  }

  lemma BatchIsStored(s: State, t: State, i: nat, key: Key)
    requires i < |s.flying| && t.flying == Without(s.flying, i) && t.stored == s.stored + s.flying[i]
             && t.pending == s.pending
    ensures Held(t, key) == Held(s, key)
  {
    FlyingWithout(s.flying, i, key);
    TotalAppend(s.stored, s.flying[i], key);
    var stored, batch, rest := Total(s.stored, key), Total(s.flying[i], key), Flying(t.flying, |t.flying|, key);
    Swap(stored, batch, rest);
    MergeIsAssociative(stored, rest, batch);
  }

  lemma RequeueConserves(s: State, t: State, key: Key)
    requires Conserved(s) && Requeues(s, t)
    ensures Held(t, key) == Observed(t, key)
  {
    assert Held(s, key) == Observed(s, key);
    var i :| 0 <= i < |s.flying| && t.flying == Without(s.flying, i)
      && forall k :: Buffered(t.pending, k) == Merge(Buffered(s.pending, k), Total(s.flying[i], k));
    BatchComesBack(s, t, i, key);
  }

  lemma BatchComesBack(s: State, t: State, i: nat, key: Key)
    requires i < |s.flying| && t.flying == Without(s.flying, i) && t.stored == s.stored
    requires Buffered(t.pending, key) == Merge(Buffered(s.pending, key), Total(s.flying[i], key))
    ensures Held(t, key) == Held(s, key)
  {
    FlyingWithout(s.flying, i, key);
    BackFromFlight(Total(s.stored, key), Flying(t.flying, |t.flying|, key), Total(s.flying[i], key),
                   Buffered(s.pending, key));
  }

  lemma BackFromFlight(stored: Sum, rest: Sum, back: Sum, held: Sum)
    ensures Merge(Merge(stored, rest), Merge(held, back)) == Merge(Merge(stored, Merge(rest, back)), held)
  {
  }

  lemma StepConserves(s: State, t: State)
    requires Conserved(s) && Step(s, t)
    ensures Conserved(t)
  {
    forall k ensures Held(t, k) == Observed(t, k) {
      if Adds(s, t) {
        AddConserves(s, t, k);
      } else if Drains(s, t) {
        DrainConserves(s, t, k);
      } else if Writes(s, t) {
        WriteConserves(s, t, k);
      } else {
        RequeueConserves(s, t, k);
      }
    }
  }

  /** Over every interleaving of adds, drains, successful writes and failed ones. */
  lemma {:induction false} NoDenialIsLost(states: seq<State>)
    requires |states| > 0 && states[0] == State(map[], [], [], [])
    requires forall i :: 0 <= i < |states| - 1 ==> Step(states[i], states[i + 1])
    ensures Conserved(states[|states| - 1])
  {
    var n := |states| - 1;
    if n > 0 {
      NoDenialIsLost(states[..n]);
      StepConserves(states[n - 1], states[n]);
    }
  }

  /** The places where a key was observed. */
  function Places(obs: seq<Observation>, n: nat, key: Key): set<nat>
    requires n <= |obs|
  {
    set i: nat | i < n && obs[i].key == key
  }

  ghost predicate Bounds(obs: seq<Observation>, places: set<nat>, sum: Sum)
    requires forall i :: i in places ==> i < |obs|
  {
    if sum.Nothing? then places == {}
    else
      && (forall i :: i in places ==> sum.first <= obs[i].at <= sum.last)
      && (exists i :: i in places && obs[i].at == sum.first)
      && (exists i :: i in places && obs[i].at == sum.last)
  }

  /** What a sum over observations means: the least and greatest of their moments, */
  lemma {:induction false} ObservedIsTrue(obs: seq<Observation>, n: nat, key: Key)
    requires n <= |obs|
    ensures Bounds(obs, Places(obs, n, key), SumObserved(obs, n, key))
  {
    if n == 0 {
      assert Places(obs, n, key) == {};
    } else {
      ObservedIsTrue(obs, n - 1, key);
      OnePlaceMore(obs, n, key);
      if obs[n - 1].key == key {
        OneMore(obs, Places(obs, n - 1, key), n - 1, SumObserved(obs, n - 1, key));
      }
    }
  }

  /** and their number. */
  lemma {:induction false} ObservedIsCounted(obs: seq<Observation>, n: nat, key: Key)
    requires n <= |obs|
    ensures |Places(obs, n, key)| == Count(SumObserved(obs, n, key))
  {
    if n == 0 {
      assert Places(obs, n, key) == {};
    } else {
      ObservedIsCounted(obs, n - 1, key);
      OnePlaceMore(obs, n, key);
    }
  }

  function Count(sum: Sum): nat {
    if sum.Nothing? then 0 else sum.count
  }

  lemma OnePlaceMore(obs: seq<Observation>, n: nat, key: Key)
    requires 0 < n <= |obs|
    ensures Places(obs, n, key) == Places(obs, n - 1, key) + if obs[n - 1].key == key then {n - 1} else {}
    ensures n - 1 !in Places(obs, n - 1, key)
  {
  }

  lemma OneMore(obs: seq<Observation>, places: set<nat>, i: nat, sum: Sum)
    requires i < |obs| && (forall j :: j in places ==> j < |obs|) && Bounds(obs, places, sum)
    ensures Bounds(obs, places + {i}, Merge(sum, Seen(1, obs[i].at, obs[i].at)))
  {
  }
}
