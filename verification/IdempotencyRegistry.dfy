/** The in-process idempotency registry: records of completed responses, with an expiry
    and a bound, and the requests in flight. */
module IdempotencyRegistries {
  import opened OrderedDicts

  datatype Identity = Identity(principal: string, route: string, key: string)

  /** A completed response; `call` numbers the call that produced it. */
  datatype Replay = Replay(fingerprint: string, call: nat, expiresAt: int)

  /** A request in flight, with the future its followers wait on. */
  datatype InFlight = InFlight(fingerprint: string, future: nat)

  datatype Registry = Registry(records: OrderedDict<Identity, Replay>, inflight: map<Identity, InFlight>)

  /** What the first locked region of execute decides. */
  datatype Admission = Conflict | Replayed(replay: Replay) | Follow(future: nat) | Own

  // ---- the locked regions as functions -------------------------------------------------

  function ExpiredAt(now: int): Replay -> bool { (r: Replay) => r.expiresAt <= now }

  /** _prune */
  function Pruned(d: OrderedDict<Identity, Replay>, now: int): OrderedDict<Identity, Replay> { PrunedOf(d, ExpiredAt(now)) }

  function Admit(r: Registry, id: Identity, fingerprint: string, now: int, future: nat): (Registry, Admission) {
    var records := Pruned(r.records, now);
    var pruned := r.(records := records);
    if id in records.vals then
      if records.vals[id].fingerprint != fingerprint then (pruned, Conflict)
      else (r.(records := records.MoveToEnd(id)), Replayed(records.vals[id]))
    else if id in r.inflight then
      if r.inflight[id].fingerprint != fingerprint then (pruned, Conflict) else (pruned, Follow(r.inflight[id].future))
    else (pruned.(inflight := r.inflight[id := InFlight(fingerprint, future)]), Own)
  }

  function Stored(r: Registry, id: Identity, replay: Replay, now: int, maximum: nat): Registry {
    r.(records := Shortened(Pruned(r.records, now).Put(id, replay), maximum))
  }

  function Settled(r: Registry, id: Identity): Registry { r.(inflight := r.inflight - {id}) }

  // ---- what they do --------------------------------------------------------------------

  /** Pruning drops the expired records and no others. */
  lemma PruneIsExact(d: OrderedDict<Identity, Replay>, now: int)
    requires d.Valid()
    ensures var e := Pruned(d, now);
      && Part(e, d) && |e.keys| <= |d.keys|
      && forall k | k in d.vals :: k in e.vals <==> now < d.vals[k].expiresAt
  {
    PrunedOfExact(d, ExpiredAt(now));
  }

  /** Storing adds one record; the others that are left are unchanged. */
  lemma StoredEffect(r: Registry, id: Identity, replay: Replay, now: int, maximum: nat)
    requires r.records.Valid()
    ensures var t := Stored(r, id, replay, now, maximum);
      && t.inflight == r.inflight && t.records.Valid() && |t.records.keys| <= maximum
      && forall k | k in t.records.vals ::
           (k == id && t.records.vals[k] == replay) || (k in r.records.vals && t.records.vals[k] == r.records.vals[k])
  {
    hide Pruned, Without;
    PruneIsExact(r.records, now);
    var d := Pruned(r.records, now);
    PutValid(d, id, replay);
    ShortenedKeepsNewest(d.Put(id, replay), maximum);
  }

  /** Storing drops another record only when it has expired or when, with the new one,
      more than `maximum` unexpired records would be left. */
  lemma StoringDropsOnly(r: Registry, id: Identity, replay: Replay, now: int, maximum: nat, k: Identity)
    requires r.records.Valid() && k in r.records.vals && k != id
    ensures var e := Stored(r, id, replay, now, maximum).records;
      || (k in e.vals && e.vals[k] == r.records.vals[k])
      || r.records.vals[k].expiresAt <= now
      || |Pruned(r.records, now).keys| + 1 > maximum
  {
    hide Pruned, Without;
    PruneIsExact(r.records, now);
    PutValid(Pruned(r.records, now), id, replay);
    ShortenedKeepsNewest(Pruned(r.records, now).Put(id, replay), maximum);
  }

  /** A new record survives its own overflow, and at most `maximum` are left. */
  lemma StoredRecordSurvives(r: Registry, id: Identity, replay: Replay, now: int, maximum: nat)
    requires r.records.Valid() && 1 <= maximum && id !in r.records.vals
    ensures var e := Stored(r, id, replay, now, maximum).records;
      && e.Valid() && |e.keys| <= maximum
      && id in e.vals && e.vals[id] == replay
      && forall k | k in e.vals && k != id :: k in r.records.vals && e.vals[k] == r.records.vals[k]
  {
    hide Pruned, Shortened, Without;
    PruneIsExact(r.records, now);
    NewestSurvivesShortening(Pruned(r.records, now), id, replay, maximum);
  }

  /** A request is refused exactly when its key is in use for another request: by an
      unexpired record, or failing that by a request in flight. It owns the key exactly
      when there is neither. */
  lemma AdmissionIsExact(r: Registry, id: Identity, fingerprint: string, now: int, future: nat)
    requires r.records.Valid()
    ensures var a := Admit(r, id, fingerprint, now, future).1;
      var recorded := id in r.records.vals && now < r.records.vals[id].expiresAt;
      && (a == Own <==> !recorded && id !in r.inflight)
      && (a == Conflict <==>
            if recorded then r.records.vals[id].fingerprint != fingerprint
            else id in r.inflight && r.inflight[id].fingerprint != fingerprint)
      && (a.Replayed? ==> recorded && a.replay == r.records.vals[id] && a.replay.fingerprint == fingerprint)
      && (a.Follow? ==> !recorded && id in r.inflight && r.inflight[id] == InFlight(fingerprint, a.future))
  {
    PruneIsExact(r.records, now);
  }

  /** A record that was just replayed is not the next to be pushed out. */
  lemma ReplayedSurvives(r: Registry, id: Identity, fingerprint: string, now: int, future: nat,
                         other: Identity, replay: Replay, later: int, maximum: nat)
    requires r.records.Valid() && 2 <= maximum && other != id && id in r.records.vals
    requires Admit(r, id, fingerprint, now, future).1.Replayed? && later < r.records.vals[id].expiresAt
    ensures var s := Stored(Admit(r, id, fingerprint, now, future).0, other, replay, later, maximum);
      id in s.records.vals && s.records.vals[id] == r.records.vals[id]
  {
    hide PrunedOf, Shortened, Without, Distinct;
    AdmissionIsExact(r, id, fingerprint, now, future);
    PruneIsExact(r.records, now);
    UsedSurvives(Pruned(r.records, now), id, ExpiredAt(later), other, replay, maximum);
  }

  lemma AdmissionEffect(r: Registry, id: Identity, fingerprint: string, now: int, future: nat)
    requires r.records.Valid()
    ensures var (t, a) := Admit(r, id, fingerprint, now, future);
      && Part(t.records, r.records) && |t.records.keys| <= |r.records.keys|
      && t.inflight == (if a == Own then r.inflight[id := InFlight(fingerprint, future)] else r.inflight)
      && (a == Own ==> id !in t.records.vals)
  {
    hide Pruned, Without;
    PruneIsExact(r.records, now);
    var records := Pruned(r.records, now);
    if id in records.vals { MoveToEndValid(records, id); }
  }

  // ---- the registry --------------------------------------------------------------------

  class IdempotencyRegistry {
    const ttl: int
    const maximum: nat
    var records: OrderedDict<Identity, Replay>
    var inflight: map<Identity, InFlight>

    constructor (ttl: int, maximum: nat)
      ensures View() == Registry(Empty(), map[]) && this.ttl == ttl && this.maximum == maximum
    {
      this.ttl, this.maximum := ttl, maximum;
      records, inflight := Empty(), map[];
    }

    ghost function View(): Registry
      reads this
    {
      Registry(records, inflight)
    }

    method Prune(now: int)
      requires records.Valid()
      modifies this`records
      ensures records == Pruned(old(records), now) && records.Valid()
    {
      PruneIsExact(records, now);
      var expired := KeysWhere(records, records.keys, ExpiredAt(now));
      var i := 0;
      while i < |expired|
        invariant 0 <= i <= |expired|
        invariant RemoveAll(records, expired[i..]) == Pruned(old(records), now)
      {
        assert expired[i..][1..] == expired[i + 1..];
        records := records.Remove(expired[i]);
        i := i + 1;
      }
    }

    /** The first region of execute: conflict, replay, follow or own. */
    method AdmitRequest(id: Identity, fingerprint: string, now: int, future: nat) returns (a: Admission)
      requires records.Valid()
      modifies this
      ensures records.Valid()
      ensures (View(), a) == Admit(old(View()), id, fingerprint, now, future)
    {
      AdmissionEffect(View(), id, fingerprint, now, future);
      Prune(now);
      if id in records.vals {
        var replay := records.vals[id];
        if replay.fingerprint != fingerprint { return Conflict; }
        records := records.MoveToEnd(id);
        return Replayed(replay);
      }
      if id in inflight {
        if inflight[id].fingerprint != fingerprint { return Conflict; }
        return Follow(inflight[id].future);
      }
      inflight := inflight[id := InFlight(fingerprint, future)];
      return Own;
    }

    method StoreResponse(id: Identity, fingerprint: string, call: nat, now: int)
      requires records.Valid()
      modifies this`records
      ensures records.Valid()
      ensures View() == Stored(old(View()), id, Replay(fingerprint, call, now + ttl), now, maximum)
    {
      Prune(now);
      PutValid(records, id, Replay(fingerprint, call, now + ttl));
      records := records.Put(id, Replay(fingerprint, call, now + ttl));
      while |records.keys| > maximum
        invariant records.Valid()
        invariant Shortened(records, maximum) == Stored(old(View()), id, Replay(fingerprint, call, now + ttl), now, maximum).records
        decreases |records.keys|
      {
        RemoveValid(records, records.keys[0]);
        HeadShrinks(records.keys);
        records := records.Remove(records.keys[0]);
      }
    }

    /** The last region of execute. */
    method Settle(id: Identity)
      modifies this`inflight
      ensures View() == Settled(old(View()), id)
    {
      inflight := inflight - {id};
    }
  }
}
