/** What the trim of the operation cache keeps, and what it drops. */
module OperationCache {
  import opened OrderedDicts
  import opened Operations

  /** How many of the keys have no claim. */
  function UnclaimedCount(keys: seq<OpId>, active: set<OpId>): nat {
    if keys == [] then 0 else (if keys[0] in active then 0 else 1) + UnclaimedCount(keys[1..], active)
  }

  /** The claimed keys and the newest `limit` unclaimed ones, in their order. */
  function Survivors(keys: seq<OpId>, active: set<OpId>, limit: nat): seq<OpId> {
    if keys == [] then []
    else (if keys[0] in active || UnclaimedCount(keys[1..], active) < limit then [keys[0]] else [])
         + Survivors(keys[1..], active, limit)
  }

  ghost predicate Pinned(s: Store) { s.cache.Valid() && s.active <= s.cache.vals.Keys }

  lemma {:induction false} CountUnclaimed(keys: seq<OpId>, active: set<OpId>)
    requires Distinct(keys) && forall id | id in active :: id in keys
    ensures UnclaimedCount(keys, active) == |keys| - |active|
  {
    if keys == [] {
      assert active == {};
    } else {
      assert forall i | 0 <= i < |keys| - 1 :: keys[1..][i] == keys[i + 1];
      assert keys == [keys[0]] + keys[1..];
      assert keys[0] !in keys[1..];
      CountUnclaimed(keys[1..], active - {keys[0]});
      CountIgnores(keys[1..], active, keys[0]);
    }
  }

  lemma {:induction false} CountIgnores(keys: seq<OpId>, active: set<OpId>, id: OpId)
    requires id !in keys
    ensures UnclaimedCount(keys, active - {id}) == UnclaimedCount(keys, active)
  {
    if keys != [] { CountIgnores(keys[1..], active, id); }
  }

  lemma {:induction false} AllSurvive(keys: seq<OpId>, active: set<OpId>, limit: nat)
    requires UnclaimedCount(keys, active) <= limit
    ensures Survivors(keys, active, limit) == keys
  {
    if keys != [] { AllSurvive(keys[1..], active, limit); }
  }

  lemma {:induction false} OldestGoesFirst(keys: seq<OpId>, active: set<OpId>, limit: nat)
    requires Distinct(keys) && limit < UnclaimedCount(keys, active)
    ensures var first := FirstUnclaimed(keys, active);
      first.Some? && Survivors(keys, active, limit) == Survivors(Without(keys, first.value), active, limit)
      && UnclaimedCount(Without(keys, first.value), active) == UnclaimedCount(keys, active) - 1
  {
    assert forall i | 0 <= i < |keys| - 1 :: keys[1..][i] == keys[i + 1];
    if keys[0] in active {
      OldestGoesFirst(keys[1..], active, limit);
      var first := FirstUnclaimed(keys, active).value;
      FirstUnclaimedFound(keys[1..], active);
      assert Without(keys, first) == [keys[0]] + Without(keys[1..], first);
      assert Without(keys, first)[1..] == Without(keys[1..], first);
    } else {
      assert keys[0] !in keys[1..];
      WithoutDistinct(keys[1..], keys[0]);
      assert Without(keys, keys[0]) == keys[1..];
    }
  }

  /** t is s without some unclaimed operations, of which no trace is left. */
  ghost predicate Shed(s: Store, t: Store) {
    var gone := s.cache.vals.Keys - t.cache.vals.Keys;
    && gone !! s.active
    && t.active == s.active && t.disk == s.disk && t.history == s.history
    && t.cache.vals == s.cache.vals - gone && t.local == s.local - gone
    && t.durable == s.durable - gone && t.events == s.events - gone
  }

  lemma ShedOneMore(s: Store, id: OpId, t: Store)
    requires Pinned(s) && id in s.cache.vals && id !in s.active
    requires Shed(Evict(s, id), t)
    ensures Shed(s, t)
  {
    var u := Evict(s, id);
    var gone := s.cache.vals.Keys - t.cache.vals.Keys;
    var rest := u.cache.vals.Keys - t.cache.vals.Keys;
    assert u.cache.vals.Keys == s.cache.vals.Keys - {id};
    assert id !in t.cache.vals.Keys;
    assert gone == rest + {id};
    assert t.local == s.local - gone;
    assert t.durable == s.durable - gone;
    assert t.cache.vals == s.cache.vals - gone;
    assert t.events == s.events - gone;
  }

  lemma ShedNothing(s: Store)
    ensures Shed(s, s)
  {
    assert s.cache.vals.Keys - s.cache.vals.Keys == {};
    assert s.cache.vals - {} == s.cache.vals && s.events - {} == s.events;
  }

  lemma EvictPinned(s: Store, limit: nat)
    requires Pinned(s) && limit < |s.cache.keys| - |s.active|
    ensures var first := FirstUnclaimed(s.cache.keys, s.active);
      && first.Some? && first.value in s.cache.vals && first.value !in s.active
      && Pinned(Evict(s, first.value))
      && |Evict(s, first.value).cache.keys| < |s.cache.keys|
      && Survivors(s.cache.keys, s.active, limit) == Survivors(Evict(s, first.value).cache.keys, s.active, limit)
  {
    CountUnclaimed(s.cache.keys, s.active);
    OldestGoesFirst(s.cache.keys, s.active, limit);
    FirstUnclaimedFound(s.cache.keys, s.active);
    RemoveValid(s.cache, FirstUnclaimed(s.cache.keys, s.active).value);
  }

  /** The trim loop stops with exactly the survivors cached, takes nothing that is
      claimed, and clears every trace of what it takes. */
  lemma {:induction false} TrimKeepsSurvivors(s: Store, limit: nat)
    requires Pinned(s)
    ensures Pinned(Trim(s, limit)) && Shed(s, Trim(s, limit))
    ensures Trim(s, limit).cache.keys == Survivors(s.cache.keys, s.active, limit)
    ensures |Trim(s, limit).cache.keys| - |s.active| <= limit
    decreases |s.cache.keys|
  {
    if |s.cache.keys| - |s.active| > limit {
      EvictPinned(s, limit);
      var id := FirstUnclaimed(s.cache.keys, s.active).value;
      TrimKeepsSurvivors(Evict(s, id), limit);
      assert Trim(s, limit) == Trim(Evict(s, id), limit);
      ShedOneMore(s, id, Trim(s, limit));
    } else {
      CountUnclaimed(s.cache.keys, s.active);
      AllSurvive(s.cache.keys, s.active, limit);
      ShedNothing(s);
    }
  }

  lemma {:induction false} NewestSurvives(keys: seq<OpId>, active: set<OpId>, limit: nat)
    requires keys != [] && 1 <= limit
    ensures keys[|keys| - 1] in Survivors(keys, active, limit)
  {
    if |keys| > 1 {
      NewestSurvives(keys[1..], active, limit);
    }
  }

  lemma TouchedFacts(s: Store, op: Operation)
    requires s.cache.Valid()
    ensures var t := Touched(s, op);
      && t == s.(cache := t.cache) && t.cache.Valid() && t.cache.vals == s.cache.vals[op.id := op]
      && t.cache.keys != [] && t.cache.keys[|t.cache.keys| - 1] == op.id
  {
    PutValid(s.cache, op.id, op);
    MoveToEndValid(s.cache.Put(op.id, op), op.id);
  }

  /** Storing an operation keeps that very operation cached, whatever the trim takes,
      and leaves at most `limit` operations without a claim. */
  lemma StoredOperationStays(s: Store, op: Operation, limit: nat)
    requires s.cache.Valid() && s.active <= s.cache.vals.Keys + {op.id} && 1 <= limit
    ensures var t := Cached(s, op, limit);
      && op.id in t.cache.vals && t.cache.vals[op.id] == op
      && Pinned(t) && Shed(Touched(s, op), t)
      && |t.cache.keys| - |t.active| <= limit
  {
    TouchedFacts(s, op);
    var u := Touched(s, op);
    TrimKeepsSurvivors(u, limit);
    NewestSurvives(u.cache.keys, u.active, limit);
    assert op.id in Trim(u, limit).cache.keys;
  }
}
