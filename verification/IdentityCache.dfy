/** The short-lived identity cache, on a clock that never goes back: cache.rs. */
module IdentityCache {
  import opened Text

  datatype Identity = Identity(
    id: string, displayName: string, email: Option<string>, source: string,
    roles: seq<string>, groups: seq<string>, attrs: map<string, string>)

  datatype CachedIdentity = CachedIdentity(identity: Identity, provenance: string, insertedAt: nat)

  type Entries = map<string, CachedIdentity>

  function Elapsed(at: nat, now: nat): nat {
    if now >= at then now - at else 0
  }

  predicate Fresh(entry: CachedIdentity, now: nat, ttl: nat) {
    Elapsed(entry.insertedAt, now) <= ttl
  }

  function Find(entries: Entries, key: string, now: nat, ttl: nat): Option<CachedIdentity> {
    if key in entries && Fresh(entries[key], now, ttl) then Some(entries[key]) else None
  }

  // ----- operations in the order the lock lets them in -----

  datatype Op =
    | Put(key: string, entry: CachedIdentity)
    | Invalidate(key: string)
    | ClearExpired(now: nat)

  function OpTime(op: Op, clock: nat): nat {
    match op
    case Put(_, entry) => entry.insertedAt
    case Invalidate(_) => clock
    case ClearExpired(now) => now
  }

  /** The time of the last timed operation. */
  function Clock(ops: seq<Op>): nat {
    if ops == [] then 0 else OpTime(ops[|ops| - 1], Clock(ops[..|ops| - 1]))
  }

  predicate Monotone(ops: seq<Op>) {
    ops != [] ==> Monotone(ops[..|ops| - 1]) && Clock(ops[..|ops| - 1]) <= Clock(ops)
  }

  function Apply(entries: Entries, op: Op, ttl: nat): Entries {
    match op
    case Put(key, entry) => entries[key := entry]
    case Invalidate(key) => entries - {key}
    case ClearExpired(now) => map k | k in entries && Fresh(entries[k], now, ttl) :: entries[k]
  }

  function Contents(ops: seq<Op>, ttl: nat): Entries {
    if ops == [] then map[] else Apply(Contents(ops[..|ops| - 1], ttl), ops[|ops| - 1], ttl)
  }

  /** What was last put under a key, unless it was invalidated since. */
  function LastPut(ops: seq<Op>, key: string): Option<CachedIdentity> {
    if ops == [] then None
    else
      match ops[|ops| - 1]
      case Put(k, entry) => if k == key then Some(entry) else LastPut(ops[..|ops| - 1], key)
      case Invalidate(k) => if k == key then None else LastPut(ops[..|ops| - 1], key)
      case ClearExpired(_) => LastPut(ops[..|ops| - 1], key)
  }

  /** A lookup as it should be: the last put, while it is within its time to live. */
  function Lookup(ops: seq<Op>, key: string, now: nat, ttl: nat): Option<CachedIdentity> {
    match LastPut(ops, key)
    case None => None
    case Some(entry) => if Fresh(entry, now, ttl) then Some(entry) else None
  }

  /** After every run, a lookup is the last un-invalidated put within its time to live. */
  lemma {:induction false} FindIsLookup(ops: seq<Op>, key: string, now: nat, ttl: nat)
    requires Monotone(ops) && Clock(ops) <= now
    ensures Find(Contents(ops, ttl), key, now, ttl) == Lookup(ops, key, now, ttl)
    decreases ops
  {
    if ops != [] {
      FindIsLookup(ops[..|ops| - 1], key, now, ttl);
    }
  }

  /** A lookup finds the last put of the key that nothing invalidated since, unless its time to live has passed. */
  lemma {:induction false} LookupIs(ops: seq<Op>, key: string, now: nat, ttl: nat, entry: CachedIdentity)
    ensures Lookup(ops, key, now, ttl) == Some(entry) <==>
      && (now < entry.insertedAt || now - entry.insertedAt <= ttl)
      && IsLastPut(ops, key, entry)
  {
    LastPutIs(ops, key, entry);
  }

  ghost predicate IsLastPut(ops: seq<Op>, key: string, entry: CachedIdentity) {
    exists i :: 0 <= i < |ops| && ops[i] == Put(key, entry) && forall j | i < j < |ops| :: LeavesAlone(ops[j], key)
  }

  predicate LeavesAlone(op: Op, key: string) {
    match op
    case Put(k, _) => k != key
    case Invalidate(k) => k != key
    case ClearExpired(_) => true
  }

  lemma {:induction false} LastPutIs(ops: seq<Op>, key: string, entry: CachedIdentity)
    ensures LastPut(ops, key) == Some(entry) <==> IsLastPut(ops, key, entry)
    decreases |ops|
  {
    if ops != [] {
      var n := |ops| - 1;
      LastPutIs(ops[..n], key, entry);
      if ops[n] == Put(key, entry) { assert IsLastPut(ops, key, entry); }
      if LeavesAlone(ops[n], key) {
        if IsLastPut(ops[..n], key, entry) {
          var i :| 0 <= i < n && ops[..n][i] == Put(key, entry) && forall j | i < j < n :: LeavesAlone(ops[..n][j], key);
          assert ops[i] == Put(key, entry);
          assert forall j | i < j < n :: ops[j] == ops[..n][j];
        }
        if IsLastPut(ops, key, entry) {
          var i :| 0 <= i < |ops| && ops[i] == Put(key, entry) && forall j | i < j < |ops| :: LeavesAlone(ops[j], key);
          assert i != n;
          assert ops[..n][i] == Put(key, entry);
        }
      } else if IsLastPut(ops, key, entry) {
        var i :| 0 <= i < |ops| && ops[i] == Put(key, entry) && forall j | i < j < |ops| :: LeavesAlone(ops[j], key);
        assert i == n;
      }
    }
  }

  function WithoutClears(ops: seq<Op>): seq<Op> {
    if ops == [] then []
    else WithoutClears(ops[..|ops| - 1]) + (if ops[|ops| - 1].ClearExpired? then [] else [ops[|ops| - 1]])
  }

  lemma OneMore(ops: seq<Op>, op: Op, key: string)
    ensures Clock(ops + [op]) == OpTime(op, Clock(ops))
    ensures Monotone(ops + [op]) <==> Monotone(ops) && Clock(ops) <= OpTime(op, Clock(ops))
    ensures op.Put? && op.key == key ==> LastPut(ops + [op], key) == Some(op.entry)
    ensures op.Invalidate? && op.key == key ==> LastPut(ops + [op], key) == None
    ensures op.ClearExpired? || op.key != key ==> LastPut(ops + [op], key) == LastPut(ops, key)
  {
    assert (ops + [op])[..|ops + [op]| - 1] == ops;
  }

  lemma {:induction false} ClearsDoNotMatter(ops: seq<Op>, key: string)
    requires Monotone(ops)
    ensures LastPut(WithoutClears(ops), key) == LastPut(ops, key)
    ensures Monotone(WithoutClears(ops)) && Clock(WithoutClears(ops)) <= Clock(ops)
    decreases ops
  {
    hide LastPut, Monotone, Clock;
    if ops == [] {
      assert WithoutClears(ops) == ops;
    } else {
      var init, op := ops[..|ops| - 1], ops[|ops| - 1];
      assert init + [op] == ops;
      OneMore(init, op, key);
      ClearsDoNotMatter(init, key);
      OneMore(WithoutClears(init), op, key);
      assert WithoutClears(init) + [] == WithoutClears(init);
    }
  }

  /** Clearing expired entries is never observable: no later lookup can tell whether it happened. */
  lemma {:induction false} ClearingIsUnobservable(ops: seq<Op>, key: string, now: nat, ttl: nat)
    requires Monotone(ops) && Clock(ops) <= now
    ensures Find(Contents(ops, ttl), key, now, ttl) == Find(Contents(WithoutClears(ops), ttl), key, now, ttl)
  {
    hide Contents, LastPut, WithoutClears;
    ClearsDoNotMatter(ops, key);
    FindIsLookup(ops, key, now, ttl);
    FindIsLookup(WithoutClears(ops), key, now, ttl);
  }

  // ----- the cache as written -----

  /** The history holds puts and invalidations only: clearing leaves no trace in it. */
  class Cache {
    const ttl: nat
    var inner: Entries
    ghost var history: seq<Op>
    ghost var clock: nat

    ghost predicate Valid()
      reads this
    {
      forall key, now: nat | clock <= now :: Find(inner, key, now, ttl) == Lookup(history, key, now, ttl)
    }

    constructor (ttl: nat)
      ensures Valid() && this.ttl == ttl && history == [] && clock == 0
    {
      this.ttl := ttl;
      inner, history, clock := map[], [], 0;
    }

    method GetWithProvenance(key: string, now: nat) returns (r: Option<CachedIdentity>)
      requires Valid() && clock <= now
      ensures r == Lookup(history, key, now, ttl)
    {
      r := None;
      if key in inner {
        if Elapsed(inner[key].insertedAt, now) <= ttl {
          r := Some(inner[key]);
        }
      }
      assert r == Find(inner, key, now, ttl);
    }

    method Get(key: string, now: nat) returns (r: Option<Identity>)
      requires Valid() && clock <= now
      ensures r == match Lookup(history, key, now, ttl)
                   case None => None
                   case Some(entry) => Some(entry.identity)
    {
      assert Find(inner, key, now, ttl) == Lookup(history, key, now, ttl);
      if key !in inner {
        return None;
      }
      if Elapsed(inner[key].insertedAt, now) > ttl {
        return None;
      }
      return Some(inner[key].identity);
    }

    method PutEntry(key: string, identity: Identity, provenance: string, now: nat)
      requires Valid() && clock <= now
      modifies this
      ensures Valid() && clock == now
      ensures history == old(history) + [Put(key, CachedIdentity(identity, provenance, now))]
    {
      var entry := CachedIdentity(identity, provenance, now);
      inner := inner[key := entry];
      history, clock := history + [Put(key, entry)], now;
      assert history[..|history| - 1] == old(history);
      forall k, t: nat | clock <= t
        ensures Find(inner, k, t, ttl) == Lookup(history, k, t, ttl)
      {
        assert Find(old(inner), k, t, ttl) == Lookup(old(history), k, t, ttl);
      }
    }

    method InvalidateKey(key: string)
      requires Valid()
      modifies this
      ensures Valid() && clock == old(clock) && history == old(history) + [Invalidate(key)]
    {
      inner := inner - {key};
      history := history + [Invalidate(key)];
      assert history[..|history| - 1] == old(history);
      forall k, t: nat | clock <= t
        ensures Find(inner, k, t, ttl) == Lookup(history, k, t, ttl)
      {
        assert Find(old(inner), k, t, ttl) == Lookup(old(history), k, t, ttl);
      }
    }

    method RetainFresh(now: nat)
      requires Valid() && clock <= now
      modifies this
      ensures Valid() && clock == now && history == old(history)
      ensures forall k | k in inner :: Fresh(inner[k], now, ttl)
    {
      var was := inner;
      var kept: Entries := map[];
      var keys := was.Keys;
      while keys != {}
        invariant keys <= was.Keys
        invariant kept == map k | k in was && k !in keys && Fresh(was[k], now, ttl) :: was[k]
        decreases |keys|
      {
        var k :| k in keys;
        keys := keys - {k};
        if Elapsed(was[k].insertedAt, now) <= ttl {
          kept := kept[k := was[k]];
        }
      }
      inner, clock := kept, now;
      forall k, t: nat | clock <= t
        ensures Find(inner, k, t, ttl) == Lookup(history, k, t, ttl)
      {
        assert Find(old(inner), k, t, ttl) == Lookup(old(history), k, t, ttl);
      }
    }
  }
}
