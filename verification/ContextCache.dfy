/** The caches of job contexts: what each locked region of the context provider does. */
module ContextCaches {
  import opened OrderedDicts

  /** A loaded context; `serial` numbers the snapshots in the order they were stored. */
  datatype Snapshot = Snapshot(serial: nat, loadedAt: int)

  datatype Base = Base(loadedAt: int, fingerprint: string)

  datatype Failure = NotFound | NotReachable | AnyOther

  /** `refreshes` maps a job to the number of its refresh in progress. */
  datatype Caches = Caches(base: OrderedDict<string, Base>, contexts: OrderedDict<string, Snapshot>,
                           errors: map<string, Failure>, refreshes: map<string, nat>)

  const Nothing: Caches := Caches(Empty(), Empty(), map[], map[])

  // ---- the locked regions -----------------------------------------------------------------

  /** _trim_cache: the oldest entries go, and with them the errors of their jobs. */
  function Trimmed<V>(d: OrderedDict<string, V>, errors: map<string, Failure>, maximum: nat): (OrderedDict<string, V>, map<string, Failure>)
    decreases |d.keys|
  {
    if |d.keys| <= maximum then (d, errors)
    else
      HeadShrinks(d.keys);
      Trimmed(d.Remove(d.keys[0]), errors - {d.keys[0]}, maximum)
  }

  /** d[k] = v and d.move_to_end(k). */
  function PutLast<V>(d: OrderedDict<string, V>, k: string, v: V): OrderedDict<string, V> { d.Put(k, v).MoveToEnd(k) }

  function StoredContext(c: Caches, job: string, snapshot: Snapshot, maximum: nat): Caches {
    var (contexts, errors) := Trimmed(PutLast(c.contexts, job, snapshot), c.errors - {job}, maximum);
    c.(contexts := contexts, errors := errors)
  }

  /** A base of another fingerprint makes the job's context obsolete. */
  function StoredBase(c: Caches, job: string, base: Base, maximum: nat): Caches {
    var changed := job in c.base.vals && c.base.vals[job].fingerprint != base.fingerprint;
    var d := if changed then c.(contexts := c.contexts.Remove(job), errors := c.errors - {job}) else c;
    var (bases, errors) := Trimmed(PutLast(d.base, job, base), d.errors, maximum);
    d.(base := bases, errors := errors)
  }

  function Invalidated(c: Caches, job: string): Caches {
    c.(base := c.base.Remove(job), contexts := c.contexts.Remove(job), errors := c.errors - {job})
  }

  /** A refresh failed: the error is remembered, and a job that is gone is dropped. */
  function Failed(c: Caches, job: string, failure: Failure): Caches {
    var d := c.(errors := c.errors[job := failure]);
    if failure == NotFound then d.(base := d.base.Remove(job), contexts := d.contexts.Remove(job)) else d
  }

  /** The first look of a request: a fresh context is used and moved to the end. */
  function Looked(c: Caches, job: string, now: int, freshFor: nat): (Caches, Option<Snapshot>) {
    if job !in c.contexts.vals then (c, None)
    else
      var cached := c.contexts.vals[job];
      (if now - cached.loadedAt <= freshFor then c.(contexts := c.contexts.MoveToEnd(job)) else c, Some(cached))
  }

  /** The refresh in progress, or a new one numbered `next`. */
  function Begun(c: Caches, job: string, next: nat): (Caches, nat) {
    if job in c.refreshes then (c, c.refreshes[job]) else (c.(refreshes := c.refreshes[job := next]), next)
  }

  function Ended(c: Caches, job: string): Caches { c.(refreshes := c.refreshes - {job}) }

  // ---- what they keep ------------------------------------------------------------------------

  lemma {:induction false} TrimmedIsShortened<V>(d: OrderedDict<string, V>, errors: map<string, Failure>, maximum: nat)
    ensures Trimmed(d, errors, maximum).0 == Shortened(d, maximum)
    ensures Trimmed(d, errors, maximum).1.Keys <= errors.Keys
    decreases |d.keys|
  {
    if |d.keys| > maximum {
      HeadShrinks(d.keys);
      TrimmedIsShortened(d.Remove(d.keys[0]), errors - {d.keys[0]}, maximum);
    }
  }

  lemma PutLastValid<V>(d: OrderedDict<string, V>, k: string, v: V)
    requires d.Valid()
    ensures var e := PutLast(d, k, v); e.Valid() && e.vals == d.vals[k := v] && |e.keys| > 0 && e.keys[|e.keys| - 1] == k
  {
    PutValid(d, k, v);
    MoveToEndValid(d.Put(k, v), k);
  }

  /** Storing trims to the limit, keeps what it stored, and changes no other entry. */
  lemma TrimmedPut<V>(d: OrderedDict<string, V>, errors: map<string, Failure>, k: string, v: V, maximum: nat)
    requires d.Valid() && 1 <= maximum
    ensures var e := Trimmed(PutLast(d, k, v), errors, maximum).0;
      && e.Valid() && |e.keys| <= maximum
      && k in e.vals && e.vals[k] == v
      && forall j | j in e.vals && j != k :: j in d.vals && e.vals[j] == d.vals[j]
  {
    hide Shortened, Without, Distinct;
    PutLastValid(d, k, v);
    TrimmedIsShortened(PutLast(d, k, v), errors, maximum);
    ShortenedKeepsNewest(PutLast(d, k, v), maximum);
    var e := Shortened(PutLast(d, k, v), maximum);
    assert e.keys[|e.keys| - 1] == k;
  }

  /** Both caches are in order and within the limit. */
  ghost predicate Within(c: Caches, maximum: nat) {
    c.base.Valid() && c.contexts.Valid() && |c.base.keys| <= maximum && |c.contexts.keys| <= maximum
  }

  /** No context is new: each was there before, for the same job. */
  ghost predicate NoNewContext(c: Caches, d: Caches) {
    forall j | j in d.contexts.vals :: j in c.contexts.vals && d.contexts.vals[j] == c.contexts.vals[j]
  }

  lemma RemoveShrinks<V>(d: OrderedDict<string, V>, k: string)
    requires d.Valid()
    ensures d.Remove(k).Valid() && |d.Remove(k).keys| <= |d.keys|
    ensures forall j | j in d.Remove(k).vals :: j in d.vals && d.Remove(k).vals[j] == d.vals[j]
  {
    RemoveValid(d, k);
  }

  lemma StoredContextKeeps(c: Caches, job: string, snapshot: Snapshot, maximum: nat)
    requires Within(c, maximum) && 1 <= maximum
    ensures var d := StoredContext(c, job, snapshot, maximum);
      && Within(d, maximum) && d.refreshes == c.refreshes
      && job in d.contexts.vals && d.contexts.vals[job] == snapshot
      && forall j | j in d.contexts.vals && j != job :: j in c.contexts.vals && d.contexts.vals[j] == c.contexts.vals[j]
  {
    TrimmedPut(c.contexts, c.errors - {job}, job, snapshot, maximum);
    hide Trimmed, PutLast;
  }

  /** Limits kept, no context added, the refreshes left alone. */
  ghost predicate OnlyDrops(c: Caches, d: Caches, maximum: nat) {
    Within(d, maximum) && NoNewContext(c, d) && d.refreshes == c.refreshes
  }

  lemma StoredBaseDrops(c: Caches, job: string, base: Base, maximum: nat)
    requires Within(c, maximum) && 1 <= maximum
    ensures OnlyDrops(c, StoredBase(c, job, base, maximum), maximum)
    ensures var d := StoredBase(c, job, base, maximum);
      && job in d.base.vals && d.base.vals[job] == base
      && d.contexts.vals == if job in c.base.vals && c.base.vals[job].fingerprint != base.fingerprint then c.contexts.vals - {job} else c.contexts.vals
  {
    RemoveShrinks(c.contexts, job);
    TrimmedPut(c.base, c.errors, job, base, maximum);
    TrimmedPut(c.base, c.errors - {job}, job, base, maximum);
    hide Trimmed, PutLast, Without, Distinct;
  }

  /** Invalidating forgets all about the job, and nothing else. */
  lemma InvalidatedDrops(c: Caches, job: string, maximum: nat)
    requires Within(c, maximum)
    ensures OnlyDrops(c, Invalidated(c, job), maximum)
    ensures var d := Invalidated(c, job);
      && job !in d.base.vals && job !in d.contexts.vals && job !in d.errors
      && forall j | j != job ::
           && (j in d.base.vals <==> j in c.base.vals) && (j in d.base.vals ==> d.base.vals[j] == c.base.vals[j])
           && (j in d.contexts.vals <==> j in c.contexts.vals) && (j in d.errors <==> j in c.errors)
  {
    RemoveShrinks(c.contexts, job);
    RemoveShrinks(c.base, job);
    hide Without, Distinct;
  }

  /** A failure is remembered; only that the job is gone costs it its context and its base. */
  lemma FailedDrops(c: Caches, job: string, failure: Failure, maximum: nat)
    requires Within(c, maximum)
    ensures OnlyDrops(c, Failed(c, job, failure), maximum)
    ensures var d := Failed(c, job, failure);
      && job in d.errors && d.errors[job] == failure
      && d.contexts.vals == (if failure == NotFound then c.contexts.vals - {job} else c.contexts.vals)
      && d.base.vals == (if failure == NotFound then c.base.vals - {job} else c.base.vals)
  {
    RemoveShrinks(c.contexts, job);
    RemoveShrinks(c.base, job);
    hide Without, Distinct;
  }

  lemma LookedDrops(c: Caches, job: string, now: int, freshFor: nat, maximum: nat)
    requires Within(c, maximum)
    ensures OnlyDrops(c, Looked(c, job, now, freshFor).0, maximum)
    ensures var (d, x) := Looked(c, job, now, freshFor);
      d.contexts.vals == c.contexts.vals && x == if job in c.contexts.vals then Some(c.contexts.vals[job]) else None
  {
    if job in c.contexts.vals { MoveToEndValid(c.contexts, job); }
    hide Without, Distinct;
  }

  /** A fresh context that was just used is not the next to be pushed out. */
  lemma UsedContextSurvives(c: Caches, job: string, now: int, freshFor: nat, other: string, snapshot: Snapshot, maximum: nat)
    requires Within(c, maximum) && 2 <= maximum && other != job
    requires job in c.contexts.vals && now - c.contexts.vals[job].loadedAt <= freshFor
    ensures var d := StoredContext(Looked(c, job, now, freshFor).0, other, snapshot, maximum);
      job in d.contexts.vals && d.contexts.vals[job] == c.contexts.vals[job]
  {
    hide Without, Distinct, Trimmed, Shortened;
    var m := c.contexts.MoveToEnd(job);
    MoveToEndValid(c.contexts, job);
    PutLastValid(m, other, snapshot);
    var e := PutLast(m, other, snapshot);
    TrimmedIsShortened(e, c.errors - {other}, maximum);
    ShortenedKeepsNewest(e, maximum);
    PutLastOrder(m, other, snapshot, job);
    NewestTwo(e, Shortened(e, maximum), job, maximum);
  }

  lemma PutLastOrder<V>(d: OrderedDict<string, V>, k: string, v: V, last: string)
    requires d.Valid() && IsLast(d.keys, last) && k != last
    ensures var e := PutLast(d, k, v); |e.keys| >= 2 && e.keys[|e.keys| - 2] == last
  {
    hide Without;
    if k in d.vals {
      WithoutKeepsLast(d.keys, last, k);
    } else {
      WithoutAppended(d.keys, k);
    }
  }

  // ---- the provider ------------------------------------------------------------------------------

  class JobContextProvider {
    const freshFor: nat
    const knownGoodFor: nat
    const maximum: nat
    var base: OrderedDict<string, Base>
    var contexts: OrderedDict<string, Snapshot>
    var errors: map<string, Failure>
    var refreshes: map<string, nat>

    constructor (freshFor: int, knownGoodFor: int, maximum: int)
      ensures View() == Nothing && this.maximum >= 1 && this.freshFor <= this.knownGoodFor
      ensures Within(View(), this.maximum)
    {
      this.freshFor := if freshFor < 0 then 0 else freshFor;
      this.knownGoodFor := if knownGoodFor < (if freshFor < 0 then 0 else freshFor) then (if freshFor < 0 then 0 else freshFor) else knownGoodFor;
      this.maximum := if maximum < 1 then 1 else maximum;
      base, contexts, errors, refreshes := Empty(), Empty(), map[], map[];
    }

    ghost function View(): Caches
      reads this
    {
      Caches(base, contexts, errors, refreshes)
    }

    method TrimCache<V>(cache: OrderedDict<string, V>) returns (trimmed: OrderedDict<string, V>)
      requires cache.Valid()
      modifies this`errors
      ensures (trimmed, errors) == Trimmed(cache, old(errors), maximum) && trimmed.Valid()
    {
      trimmed := cache;
      while |trimmed.keys| > maximum
        invariant trimmed.Valid() && Trimmed(trimmed, errors, maximum) == Trimmed(cache, old(errors), maximum)
        decreases |trimmed.keys|
      {
        var evicted := trimmed.keys[0];
        HeadShrinks(trimmed.keys);
        RemoveValid(trimmed, evicted);
        trimmed := trimmed.Remove(evicted);
        errors := errors - {evicted};
      }
    }

    method StoreContext(job: string, snapshot: Snapshot)
      requires contexts.Valid()
      modifies this
      ensures View() == StoredContext(old(View()), job, snapshot, maximum)
    {
      PutLastValid(contexts, job, snapshot);
      errors := errors - {job};
      contexts := TrimCache(contexts.Put(job, snapshot).MoveToEnd(job));
    }

    method StoreBase(job: string, snapshot: Base)
      requires base.Valid()
      modifies this
      ensures View() == StoredBase(old(View()), job, snapshot, maximum)
    {
      if job in base.vals && base.vals[job].fingerprint != snapshot.fingerprint {
        contexts := contexts.Remove(job);
        errors := errors - {job};
      }
      PutLastValid(base, job, snapshot);
      base := TrimCache(base.Put(job, snapshot).MoveToEnd(job));
    }

    method Invalidate(job: string)
      modifies this
      ensures View() == Invalidated(old(View()), job)
    {
      base := base.Remove(job);
      contexts := contexts.Remove(job);
      errors := errors - {job};
    }

    method FailRefresh(job: string, failure: Failure)
      modifies this
      ensures View() == Failed(old(View()), job, failure)
    {
      errors := errors[job := failure];
      if failure == NotFound {
        base := base.Remove(job);
        contexts := contexts.Remove(job);
      }
    }

    method Look(job: string, now: int) returns (cached: Option<Snapshot>)
      modifies this`contexts
      ensures (View(), cached) == Looked(old(View()), job, now, freshFor)
    {
      if job !in contexts.vals { return None; }
      cached := Some(contexts.vals[job]);
      if now - cached.value.loadedAt <= freshFor { contexts := contexts.MoveToEnd(job); }
    }

    method BeginRefresh(job: string, next: nat) returns (refresh: nat)
      modifies this`refreshes
      ensures (View(), refresh) == Begun(old(View()), job, next)
    {
      if job in refreshes { return refreshes[job]; }
      refreshes := refreshes[job := next];
      return next;
    }

    method EndRefresh(job: string)
      modifies this`refreshes
      ensures View() == Ended(old(View()), job)
    {
      refreshes := refreshes - {job};
    }
  }
}
