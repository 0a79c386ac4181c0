/** All runs of the operation store: submissions, worker threads, readers, disk
    failures, evictions and crashes, in any order. */
module OperationRuns {
  import opened OrderedDicts
  import opened Operations
  import opened OperationCache
  import opened OperationHistory

  /** Where a worker thread is: its claim is pinned but the thread not started; started
      but not yet reported; inside the work; or about to give its claim up. */
  datatype Phase = Spawning | Starting | Working | Releasing

  /** `claims` is the log of all claims ever granted; the k-th claim belongs to worker k. */
  datatype World = World(store: Store, workers: map<nat, Phase>, claims: seq<OpId>)

  /** How the work ended. */
  datatype WorkResult = Returned(value: string) | Raised(problem: Problem)

  datatype Step =
    | Submit(req: Request, now: nat, io: DiskFaults)
    | SpawnFails(worker: nat)
    | Spawn(worker: nat)
    | Begin(worker: nat, now: nat, writeFails: bool)
    | Report(worker: nat, patch: Patch, now: nat, writeFails: bool)
    | Finish(worker: nat, outcome: WorkResult, now: nat, writeFails: bool)
    | Release(worker: nat)
    | Read(id: OpId, io: DiskFaults)
    | CompleteLocal(op: Operation)
    | Register(op: Operation)
    | Crash

  const NOTHING: Patch := Patch(None, None, "", "", "", None, None)
  const BEGINNING: Patch :=
    Patch(Some(Running), Some(1.0), "starting", "Starting", "The local API host started the operation.", None, None)

  /** report_progress: always running, and only progress members. */
  function ReportPatch(patch: Patch): Patch { patch.(status := Some(Running), result := None, error := None) }

  function FinalPatch(outcome: WorkResult): Patch {
    match outcome
    case Returned(value) =>
      Patch(Some(Completed), Some(100.0), "completed", "Completed", "The operation completed successfully.", Some(value), None)
    case Raised(problem) => NOTHING.(status := Some(Failed), error := Some(problem))
  }

  function AfterCrash(s: Store): Store {
    Store(Empty(), {}, {}, {}, map[], s.disk, s.history)
  }

  /** One atomic step; a step that is not enabled changes nothing. */
  function Next(w: World, step: Step, limit: nat): World {
    match step
    case Submit(req, now, io) =>
      var r := Start(w.store, req, now, limit, io);
      if req.id.Remote? then w
      else if r.claimed then World(r.store, w.workers[|w.claims| := Spawning], w.claims + [req.id])
      else w.(store := r.store)
    case SpawnFails(k) =>
      if At(w, k, Spawning) then World(Unclaimed(w.store, w.claims[k]), w.workers - {k}, w.claims) else w
    case Spawn(k) =>
      if At(w, k, Spawning) then w.(workers := w.workers[k := Starting]) else w
    case Begin(k, now, fails) =>
      if At(w, k, Starting) then
        var r := Update(w.store, w.claims[k], BEGINNING, now, limit, fails);
        World(r.store, w.workers[k := if r.result.Ok? then Working else Releasing], w.claims)
      else w
    case Report(k, patch, now, fails) =>
      if At(w, k, Working) then
        w.(store := Update(w.store, w.claims[k], ReportPatch(patch), now, limit, fails).store)
      else w
    case Finish(k, outcome, now, fails) =>
      if At(w, k, Working) then
        World(Update(w.store, w.claims[k], FinalPatch(outcome), now, limit, fails).store, w.workers[k := Releasing], w.claims)
      else w
    case Release(k) =>
      if At(w, k, Releasing) then World(Trim(Unclaimed(w.store, w.claims[k]), limit), w.workers - {k}, w.claims) else w
    case Read(id, io) => w.(store := Load(w.store, id, limit, io).store)
    case CompleteLocal(op) =>
      if op.id.Transient? && op.id !in w.store.cache.vals then
        w.(store := Publish(w.store, op, CompletedEvent, false, limit, false).store)
      else w
    case Register(op) => if op.id.Remote? then w.(store := Cached(w.store, op, limit)) else w
    case Crash => World(AfterCrash(w.store), map[], w.claims)
  }

  predicate At(w: World, k: nat, phase: Phase) { k in w.workers && w.workers[k] == phase && k < |w.claims| }

  const Initial: World := World(Store(Empty(), {}, {}, {}, map[], map[], map[]), map[], [])

  function Run(w: World, steps: seq<Step>, limit: nat): World
    decreases |steps|
  {
    if steps == [] then w else Run(Next(w, steps[0], limit), steps[1..], limit)
  }

  // ---- the invariant ------------------------------------------------------------------

  /** Memory agrees with the journal wherever it holds a durable operation. */
  ghost predicate Mirrors(s: Store) {
    && (forall id | id in s.durable :: id in s.cache.vals && id in s.local && id in s.disk && id in s.events
          && s.cache.vals[id] == s.disk[id].operation && s.events[id] == s.disk[id].events)
    && (forall id | id in s.cache.vals && id.Durable? :: id in s.durable)
    && (forall id | id in s.local || id in s.events :: id in s.cache.vals)
    && (forall id | id in s.cache.vals :: s.cache.vals[id].id == id)
  }

  ghost predicate Journaled(s: Store) {
    && s.disk.Keys == s.history.Keys
    && (forall id | id in s.disk :: id.Durable? && Reflects(s.disk[id], s.history[id], id))
  }

  ghost predicate StoreInv(s: Store) {
    Pinned(s) && s.active <= s.local && Mirrors(s) && Journaled(s)
  }

  /** What a worker's phase says about the receipt of its durable operation. */
  ghost predicate InPhase(s: Store, id: OpId, phase: Phase) {
    id in s.disk ==>
      match phase
      case Spawning => s.disk[id].operation.status == Pending
      case Starting => s.disk[id].operation.status == Pending
      case Working => s.disk[id].operation.status == Running
      case Releasing => true
  }

  /** The claim set is exactly what the live workers hold, one worker each. */
  ghost predicate WorkersInv(w: World) {
    && (forall k | k in w.workers :: k < |w.claims| && !w.claims[k].Remote? && InPhase(w.store, w.claims[k], w.workers[k]))
    && (forall j, k | j in w.workers && k in w.workers && j != k :: w.claims[j] != w.claims[k])
    && (forall k | k in w.workers :: w.claims[k] in w.store.active)
    && (forall id | id in w.store.active :: exists k :: k in w.workers && w.claims[k] == id)
  }

  /** Every claim ever granted to a durable operation has its own acceptance in the history. */
  ghost predicate ClaimsInv(w: World) {
    forall id: OpId | id.Durable? :: Acceptances(Lookup(w.store.history, id)) == multiset(w.claims)[id]
  }

  ghost predicate Inv(w: World) { StoreInv(w.store) && WorkersInv(w) && ClaimsInv(w) }

  // ---- the store's own regions keep it ------------------------------------------------

  lemma TrimKeepsInv(s: Store, limit: nat)
    requires StoreInv(s)
    ensures StoreInv(Trim(s, limit)) && Shed(s, Trim(s, limit))
  {
    TrimKeepsSurvivors(s, limit);
  }

  lemma CachingKeepsInv(s: Store, op: Operation, limit: nat)
    requires 1 <= limit && s.cache.Valid() && StoreInv(Touched(s, op))
    ensures StoreInv(Cached(s, op, limit)) && Shed(Touched(s, op), Cached(s, op, limit))
    ensures op.id in Cached(s, op, limit).cache.vals && Cached(s, op, limit).cache.vals[op.id] == op
  {
    TouchedFacts(s, op);
    StoredOperationStays(s, op, limit);
    TrimKeepsInv(Touched(s, op), limit);
  }

  // ---- writing one event of a durable operation ---------------------------------------

  lemma JournalingKeepsInv(s: Store, op: Operation, kind: EventKind)
    requires Journaled(s) && op.id.Durable?
    requires if op.id in s.disk then Follows(s.disk[op.id].operation, Event(|s.history[op.id]| + 1, kind, op))
             else kind == Accepted && op.status == Pending && op.progress.percent == 0
    ensures var events := NextEvents(if op.id in s.disk then s.disk[op.id].events else [], kind, op);
      var t := Written(s, Receipt(op, events));
      && Journaled(t)
      && t.history[op.id] == Lookup(s.history, op.id) + [Event(|Lookup(s.history, op.id)| + 1, kind, op)]
  {
    hide Legal, NextEvents, Follows;
    if op.id in s.disk {
      NextReflects(s.disk[op.id], s.history[op.id], op.id, kind, op);
    } else {
      FirstReflects(op.id, op);
      assert [] + [Event(1, kind, op)] == [Event(1, kind, op)];
    }
  }

  lemma InvParts(s: Store, id: OpId)
    requires StoreInv(s.(active := s.active - {id}))
    ensures s.cache.Valid() && Journaled(s) && Mirrors(s)
    ensures id in s.disk && id in s.durable ==> Lookup(s.events, id) == s.disk[id].events
    ensures id !in s.disk && id.Durable? ==> Lookup(s.events, id) == []
  {
    hide Reflects;
  }

  lemma PublicationReflects(s: Store, op: Operation, kind: EventKind)
    requires Publishable(s, op, kind)
    ensures var events := NextEvents(Lookup(s.events, op.id), kind, op);
      Reflects(Receipt(op, events), Lookup(s.history, op.id) + [events[|events| - 1]], op.id)
  {
    hide Legal, NextEvents, Follows, LastN, Reflects, StoreInv;
    InvParts(s, op.id);
    JournalingKeepsInv(s, op, kind);
  }

  lemma RecoveryReflects(s: Store, id: OpId)
    requires StoreInv(s) && NeedsRecovery(s, id)
    ensures var receipt := Recovered(s.disk[id], false);
      Reflects(receipt, Lookup(s.history, id) + [receipt.events[|receipt.events| - 1]], id)
  {
    hide Legal, NextEvents, Follows, LastN, Reflects, StoreInv;
    SavedParts(s, id);
    InterruptionFollows(s, id);
    JournalingKeepsInv(s, InterruptedCopy(s.disk[id].operation), InterruptedEvent);
  }

  lemma PublicationMirrors(s: Store, op: Operation, events: seq<Event>)
    requires events != [] && StoreInv(s.(active := s.active - {op.id})) && op.id.Durable?
    requires Journaled(Written(s, Receipt(op, events)))
    ensures var s1 := Written(s, Receipt(op, events)).(durable := s.durable + {op.id});
      StoreInv(Touched(s1.(local := s1.local + {op.id}, events := s1.events[op.id := events]), op))
  {
    hide Reflects, Distinct, Without, Touched, Lookup, Pinned, Mirrors, Journaled;
    var s1 := Written(s, Receipt(op, events)).(durable := s.durable + {op.id});
    var s2 := s1.(local := s1.local + {op.id}, events := s1.events[op.id := events]);
    SameJournal(Written(s, Receipt(op, events)), s2);
    TouchedMirrors(s.(active := s.active - {op.id}), s2, op, events);
  }

  /** One durable operation is saved, remembered and cached; everything else stays. */
  lemma TouchedMirrors(s: Store, s2: Store, op: Operation, events: seq<Event>)
    requires StoreInv(s) && op.id.Durable? && events != [] && s2.cache == s.cache
    requires s2.durable == s.durable + {op.id} && s2.local == s.local + {op.id} && s2.active <= s.active + {op.id}
    requires s2.disk == s.disk[op.id := Receipt(op, events)] && s2.events == s.events[op.id := events]
    requires Journaled(s2)
    ensures StoreInv(Touched(s2, op))
  {
    hide Reflects, Distinct, Without, Touched, Journaled;
    TouchedFacts(s2, op);
    var t := Touched(s2, op);
    SameJournal(s2, t);
    assert Pinned(t);
    assert t.active <= t.local;
    assert Mirrors(t);
  }

  lemma SameJournal(s: Store, t: Store)
    requires Journaled(s) && t.disk == s.disk && t.history == s.history
    ensures Journaled(t)
  {
    hide Reflects;
  }

  /** A publication that carries the history of a durable operation on, or begins it. */
  ghost predicate Publishable(s: Store, op: Operation, kind: EventKind) {
    && StoreInv(s.(active := s.active - {op.id})) && op.id.Durable?
    && (op.id in s.disk ==> op.id in s.durable)
    && if op.id in s.disk then Follows(s.disk[op.id].operation, Event(|s.history[op.id]| + 1, kind, op))
       else kind == Accepted && op.status == Pending && op.progress.percent == 0
  }

  /** _publish_locked on a durable operation: the event is appended to the history, the
      journal keeps its newest part, and memory mirrors the journal. */
  lemma PublishKeepsInv(s: Store, op: Operation, kind: EventKind, limit: nat)
    requires 1 <= limit && Publishable(s, op, kind)
    ensures var t := Publish(s, op, kind, true, limit, false).store;
      && StoreInv(t) && t.active == s.active
      && op.id in t.disk && t.disk == s.disk[op.id := t.disk[op.id]] && t.disk[op.id].operation == op
      && t.history == s.history[op.id := Lookup(s.history, op.id) + [Event(|Lookup(s.history, op.id)| + 1, kind, op)]]
  {
    hide Legal, NextEvents, Follows, Trim, LastN, Reflects, StoreInv, Cached;
    InvParts(s, op.id);
    JournalingKeepsInv(s, op, kind);
    var events := NextEvents(Lookup(s.events, op.id), kind, op);
    PublicationMirrors(s, op, events);
    var s1 := Written(s, Receipt(op, events)).(durable := s.durable + {op.id});
    var s2 := s1.(local := s1.local + {op.id}, events := s1.events[op.id := events]);
    CachingKeepsInv(s2, op, limit);
  }

  // ---- reading ------------------------------------------------------------------------

  ghost predicate NeedsRecovery(s: Store, id: OpId) {
    id in s.disk && Unfinished(s.disk[id].operation.status) && id !in s.active
  }

  /** The journal after a read of id that met no fault: if the saved work had lost its
      claim, one interruption was appended; otherwise nothing changed. */
  ghost predicate ReadEffect(s: Store, t: Store, id: OpId) {
    && t.active == s.active
    && if NeedsRecovery(s, id) then
         var op := InterruptedCopy(s.disk[id].operation);
         && id in t.disk && t.disk == s.disk[id := t.disk[id]] && t.disk[id].operation == op
         && t.history == s.history[id := Lookup(s.history, id) + [Event(|Lookup(s.history, id)| + 1, InterruptedEvent, op)]]
       else t.disk == s.disk && t.history == s.history
  }

  lemma LoadingMirrors(s: Store, id: OpId, receipt: Receipt)
    requires StoreInv(s) && id in s.disk && id.Durable? && receipt.operation.id == id && receipt.events != []
    requires receipt == s.disk[id] || Journaled(Written(s, receipt))
    ensures var s1 := if receipt == s.disk[id] then s else Written(s, receipt);
      var s2 := s1.(local := s1.local + {id}, durable := s1.durable + {id}, events := s1.events[id := receipt.events]);
      StoreInv(Touched(s2, receipt.operation))
  {
    hide Reflects, Distinct, Without, Touched, Lookup, Pinned, Mirrors;
    var s1 := if receipt == s.disk[id] then s else Written(s, receipt);
    var s2 := s1.(local := s1.local + {id}, durable := s1.durable + {id}, events := s1.events[id := receipt.events]);
    SameJournal(s1, s2);
    hide Journaled;
    TouchedMirrors(s, s2, receipt.operation, receipt.events);
  }

  /** The result and the effect of a read of a durable operation that meets no fault. */
  lemma LoadOfSaved(s: Store, id: OpId, limit: nat, io: DiskFaults)
    requires 1 <= limit && StoreInv(s) && id in s.disk && !io.readFails && !io.recoveryWriteFails
    ensures var r := Load(s, id, limit, io);
      && StoreInv(r.store) && ReadEffect(s, r.store, id)
      && id in r.store.durable && r.result == Ok(Some(r.store.disk[id].operation))
      && r.store.disk[id] == Recovered(s.disk[id], id in s.active)
  {
    hide Legal, NextEvents, Follows, Trim, Reflects, StoreInv, Cached, Touched, Journaled, Mirrors;
    SavedParts(s, id);
    var receipt := Recovered(s.disk[id], id in s.active);
    if NeedsRecovery(s, id) {
      InterruptionFollows(s, id);
      JournalingKeepsInv(s, receipt.operation, InterruptedEvent);
    }
    LoadingMirrors(s, id, receipt);
    var s1 := if NeedsRecovery(s, id) then Written(s, receipt) else s;
    var s2 := s1.(local := s1.local + {id}, durable := s1.durable + {id}, events := s1.events[id := receipt.events]);
    CachingKeepsInv(s2, receipt.operation, limit);
    assert Receipt(s.disk[id].operation, LastN(s.disk[id].events, EVENT_CAP)) == s.disk[id];
    var t := Cached(s2, receipt.operation, limit);
    assert Load(s, id, limit, io) == Loaded(t, Ok(Some(receipt.operation)));
    assert s1.disk[id] == receipt;
    TouchedFacts(s2, receipt.operation);
  }

  /** Exactly one event was added to the history of id, and its file was replaced. */
  ghost predicate Appended(s: Store, t: Store, id: OpId) {
    && id in t.disk && t.disk == s.disk[id := t.disk[id]]
    && id in t.history && |t.history[id]| == |Lookup(s.history, id)| + 1 && Lookup(s.history, id) < t.history[id]
    && t.history == s.history[id := t.history[id]]
  }

  lemma LastPercent(s: Store, id: OpId)
    requires Journaled(s) && id in s.disk
    ensures 0 <= s.disk[id].operation.progress.percent <= 100
  {
    var h := s.history[id];
    PercentAdvances(h, |h| - 1, |h| - 1);
  }

  lemma InvWithoutClaim(s: Store, id: OpId)
    requires StoreInv(s)
    ensures StoreInv(s.(active := s.active - {id}))
  {
    hide Reflects;
  }

  /** A read of a saved operation, unfolded. */
  lemma LoadUnfolds(s: Store, id: OpId, limit: nat, io: DiskFaults)
    requires StoreInv(s) && id in s.disk && !io.readFails
    ensures !(id in s.cache.vals && id !in s.durable) && !id.Remote?
    ensures var receipt := Recovered(s.disk[id], id in s.active);
      var s1 := if NeedsRecovery(s, id) then Written(s, receipt) else s;
      var s2 := s1.(local := s1.local + {id}, durable := s1.durable + {id}, events := s1.events[id := receipt.events]);
      Load(s, id, limit, io) ==
        if NeedsRecovery(s, id) && io.recoveryWriteFails then Loaded(s, Err(StoreUnavailable))
        else Loaded(Cached(s2, receipt.operation, limit), Ok(Some(receipt.operation)))
  {
    hide Legal, NextEvents, Follows, Trim, Reflects, StoreInv, Cached;
    SavedParts(s, id);
    assert Receipt(s.disk[id].operation, LastN(s.disk[id].events, EVENT_CAP)) == s.disk[id];
  }

  lemma SavedParts(s: Store, id: OpId)
    requires StoreInv(s) && id in s.disk
    ensures s.cache.Valid() && Journaled(s) && id.Durable? && s.disk[id].operation.id == id && s.disk[id].events != []
    ensures LastN(s.disk[id].events, EVENT_CAP) == s.disk[id].events
    ensures id in s.cache.vals ==> id in s.durable
  {
    assert Reflects(s.disk[id], s.history[id], id);
  }

  lemma InterruptionFollows(s: Store, id: OpId)
    requires Journaled(s) && id in s.disk && Unfinished(s.disk[id].operation.status)
    ensures Follows(s.disk[id].operation, Event(|s.history[id]| + 1, InterruptedEvent, InterruptedCopy(s.disk[id].operation)))
  {}

  /** A read never breaks the invariant; what it returns for a durable identifier is what
      the journal then says, and a fault or a miss leaves everything as it was. */
  lemma LoadKeepsInv(s: Store, id: OpId, limit: nat, io: DiskFaults)
    requires 1 <= limit && StoreInv(s)
    ensures var r := Load(s, id, limit, io);
      && StoreInv(r.store)
      && (r.result.Err? || r.result == Ok(None) || !id.Durable? ==> r.store == s)
      && (r.result == Ok(None) && id.Durable? ==> id !in s.disk)
      && (r.result.Ok? && r.result.value.Some? && id.Durable? ==>
            id in s.disk && ReadEffect(s, r.store, id) && id in r.store.durable
            && r.result.value.value == r.store.disk[id].operation)
  {
    hide Reflects, Trim, NextEvents, Touched, Cached, ReadEffect, Recovered;
    if id in s.disk {
      SavedParts(s, id);
      if !io.readFails && !(NeedsRecovery(s, id) && io.recoveryWriteFails) {
        LoadOfSaved(s, id, limit, DiskFaults(false, false, false));
      }
    }
  }

  lemma LooseCachingKeepsInv(s: Store, op: Operation, events: map<OpId, seq<Event>>, limit: nat)
    requires 1 <= limit && StoreInv(s.(active := s.active - {op.id})) && !op.id.Durable?
    requires op.id !in s.disk && events.Keys <= s.events.Keys + {op.id}
    requires forall id | id in s.events && id.Durable? :: id in events && events[id] == s.events[id]
    ensures var t := Cached(s.(local := s.local + {op.id}, events := events), op, limit);
      StoreInv(t) && t.active == s.active && t.disk == s.disk && t.history == s.history
  {
    hide Reflects, Distinct, Without, Touched, Trim;
    var s2 := s.(local := s.local + {op.id}, events := events);
    TouchedFacts(s2, op);
    var t := Touched(s2, op);
    assert Pinned(t);
    assert Journaled(t);
    assert Mirrors(t);
    CachingKeepsInv(s2, op, limit);
  }

  lemma RegisterKeepsInv(s: Store, op: Operation, limit: nat)
    requires 1 <= limit && StoreInv(s) && op.id.Remote?
    ensures var t := Cached(s, op, limit);
      StoreInv(t) && t.active == s.active && t.disk == s.disk && t.history == s.history
  {
    hide Reflects, Distinct, Without, Touched, Trim;
    TouchedFacts(s, op);
    CachingKeepsInv(s, op, limit);
  }

  lemma TransientPublishKeepsInv(s: Store, op: Operation, kind: EventKind, limit: nat)
    requires 1 <= limit && StoreInv(s.(active := s.active - {op.id})) && op.id.Transient?
    ensures forall fails :: var r := Publish(s, op, kind, false, limit, fails); var t := r.store;
      && StoreInv(t) && t.active == s.active && t.disk == s.disk && t.history == s.history
      && r.result == Ok(op)
  {
    hide Reflects, Trim, NextEvents;
    assert op.id !in s.disk;
    LooseCachingKeepsInv(s, op, s.events[op.id := NextEvents(Lookup(s.events, op.id), kind, op)], limit);
  }

  // ---- progress -----------------------------------------------------------------------

  /** The patches workers make: running while unfinished, then one final status. */
  ghost predicate WorkerPatch(op: Operation, patch: Patch) {
    && patch.status.Some?
    && match patch.status.value
       case Running => Unfinished(op.status)
       case Completed => op.status == Running && patch.percent == Some(100.0)
       case Failed => op.status == Running
       case _ => false
  }

  lemma PatchFollows(op: Operation, patch: Patch, now: nat, sequence: int)
    requires WorkerPatch(op, patch) && 0 <= op.progress.percent <= 100
    ensures var next := Patched(op, patch, now); Follows(op, Event(sequence, UpdateKind(next), next))
  {}

  /** update_local_operation by the worker that holds the claim: it never misses, it only
      fails when the journal cannot be written, and then it changes nothing. */
  lemma UpdateKeepsInv(s: Store, id: OpId, patch: Patch, now: nat, limit: nat, writeFails: bool)
    requires 1 <= limit && StoreInv(s) && id in s.active && !id.Remote?
    requires id.Durable? ==> id in s.disk && WorkerPatch(s.disk[id].operation, patch)
    ensures var r := Update(s, id, patch, now, limit, writeFails);
      && StoreInv(r.store) && r.store.active == s.active
      && (r.result.Err? <==> id.Durable? && writeFails)
      && (r.result.Err? ==> r.store == s)
      && (r.result.Ok? && id.Durable? ==>
            Appended(s, r.store, id) && r.store.disk[id].operation.status == patch.status.value)
      && (!id.Durable? ==> r.store.disk == s.disk && r.store.history == s.history)
  {
    hide Legal, NextEvents, Follows, Trim, LastN, Reflects, Cached, Round, PatchedProgress, UpdateKind;
    assert id in s.cache.vals && id in s.local;
    var op := Patched(s.cache.vals[id], patch, now);
    if id.Durable? {
      SavedParts(s, id);
      LastPercent(s, id);
      PatchFollows(s.disk[id].operation, patch, now, |s.history[id]| + 1);
      InvWithoutClaim(s, id);
      if !writeFails { PublishKeepsInv(s, op, UpdateKind(op), limit); }
    } else {
      InvWithoutClaim(s, id);
      TransientPublishKeepsInv(s, op, UpdateKind(op), limit);
    }
  }

  // ---- submission ---------------------------------------------------------------------

  /** The journal and the history of id are the same in both states. */
  ghost predicate Untouched(s: Store, t: Store, id: OpId) {
    && (id in t.disk <==> id in s.disk)
    && (id in s.disk ==> t.disk[id] == s.disk[id])
    && Lookup(t.history, id) == Lookup(s.history, id)
  }

  /** The history of id went on by some events, of which `accepted` are acceptances. */
  ghost predicate WentOn(s: Store, t: Store, id: OpId, accepted: nat) {
    && (id in s.disk ==> id in t.disk)
    && Lookup(s.history, id) <= Lookup(t.history, id)
    && Acceptances(Lookup(t.history, id)) == Acceptances(Lookup(s.history, id)) + accepted
  }

  lemma ReadGoesOn(s: Store, t: Store, id: OpId)
    requires ReadEffect(s, t, id)
    ensures WentOn(s, t, id, 0)
    ensures forall other | other != id || other in s.active :: Untouched(s, t, other)
    ensures !NeedsRecovery(t, id)
  {
    hide InterruptedCopy, Acceptances;
    if NeedsRecovery(s, id) {
      var op := InterruptedCopy(s.disk[id].operation);
      AcceptancesAppend(Lookup(s.history, id), Event(|Lookup(s.history, id)| + 1, InterruptedEvent, op));
      InterruptedIsFinished(s.disk[id].operation);
      assert Lookup(t.history, id) == Lookup(s.history, id) + [Event(|Lookup(s.history, id)| + 1, InterruptedEvent, op)];
    }
  }

  lemma InterruptedIsFinished(op: Operation)
    ensures InterruptedCopy(op).status == Interrupted && InterruptedCopy(op).id == op.id
  {}

  /** A new attempt: queued from zero, and if there was an operation before, with its
      options and creation time, for the same body if it names one, and only when that
      one was not completed. */
  ghost predicate NewAttempt(existing: Option<Operation>, op: Operation) {
    && op.status == Pending && op.progress.percent == 0
    && (existing.Some? ==>
          && op.options == existing.value.options && op.createdAt == existing.value.createdAt && existing.value.status != Completed
          && (op.fingerprint.Some? ==> op.fingerprint == existing.value.fingerprint))
  }

  function Saved(s: Store, id: OpId): Option<Operation> {
    if id in s.disk then Some(s.disk[id].operation) else None
  }

  lemma AcceptKeepsInv(s: Store, op: Operation, limit: nat)
    requires 1 <= limit && StoreInv(s) && op.id.Durable? && op.id !in s.active
    requires op.id in s.disk ==> op.id in s.durable && !NeedsRecovery(s, op.id)
    requires NewAttempt(Saved(s, op.id), op)
    ensures var t := Publish(s.(active := s.active + {op.id}), op, Accepted, true, limit, false).store;
      && StoreInv(t) && t.active == s.active + {op.id}
      && WentOn(s, t, op.id, 1) && op.id in t.disk && t.disk[op.id].operation == op
      && (forall other | other != op.id :: Untouched(s, t, other))
  {
    hide Legal, NextEvents, Trim, LastN, Cached, StoreInv, Publish;
    var pinned := s.(active := s.active + {op.id});
    assert pinned.(active := pinned.active - {op.id}) == s;
    InvParts(pinned, op.id);
    if op.id in s.disk { SavedParts(s, op.id); }
    PublishKeepsInv(pinned, op, Accepted, limit);
    AcceptancesAppend(Lookup(s.history, op.id), Event(|Lookup(s.history, op.id)| + 1, Accepted, op));
  }

  ghost predicate StartEffect(s: Store, req: Request, r: Submission) {
    && StoreInv(r.store)
    && r.store.active == (if r.claimed then s.active + {req.id} else s.active)
    && (r.claimed ==> r.result.Ok? && req.id !in s.active && NewAttempt(Saved(s, req.id), r.result.value))
    && (r.claimed && req.id.Durable? ==> Saved(r.store, req.id) == Some(r.result.value))
    && (r.claimed && req.id.Durable? && req.id !in s.disk ==> r.result.value.options == req.options)
    && (!r.claimed ==> r.store == s || ReadEffect(s, r.store, req.id))
    && WentOn(s, r.store, req.id, if r.claimed && req.id.Durable? then 1 else 0)
    && (forall other | other != req.id || other in s.active :: Untouched(s, r.store, other))
  }

  lemma ClaimedIsKnown(s: Store, id: OpId)
    requires StoreInv(s)
    ensures id in s.active ==> id in s.cache.vals && (id.Durable? ==> id in s.disk && id in s.durable)
    ensures !id.Durable? ==> id !in s.disk && id !in s.history
    ensures Lookup(s.history, id) <= Lookup(s.history, id)
  {}

  lemma NothingStarted(s: Store, req: Request, result: Outcome<Operation>)
    requires StoreInv(s)
    ensures StartEffect(s, req, Submission(s, result, false))
  {
    hide StoreInv, ReadEffect, Reflects, Legal;
  }

  lemma DurableAdmitKeepsInv(s: Store, req: Request, now: nat, limit: nat, writeFails: bool)
    requires 1 <= limit && StoreInv(s) && req.id.Durable?
    requires req.id in s.disk ==> req.id in s.durable && !NeedsRecovery(s, req.id)
    ensures StartEffect(s, req, Admit(s, Saved(s, req.id), req, now, limit, writeFails))
    ensures var r := Admit(s, Saved(s, req.id), req, now, limit, writeFails); !r.claimed ==> r.store == s
  {
    hide Legal, NextEvents, Trim, LastN, Cached, StoreInv, Reflects, Acceptances, Publish, ReadEffect, StartEffect;
    var r := Admit(s, Saved(s, req.id), req, now, limit, writeFails);
    if r.claimed {
      DurableAcceptance(s, req, now, limit, writeFails);
    } else {
      assert r.store == s;
      NothingStarted(s, req, r.result);
    }
  }

  lemma DurableAcceptance(s: Store, req: Request, now: nat, limit: nat, writeFails: bool)
    requires 1 <= limit && StoreInv(s) && req.id.Durable?
    requires req.id in s.disk ==> req.id in s.durable && !NeedsRecovery(s, req.id)
    requires Admit(s, Saved(s, req.id), req, now, limit, writeFails).claimed
    ensures StartEffect(s, req, Admit(s, Saved(s, req.id), req, now, limit, writeFails))
  {
    hide Legal, NextEvents, Trim, LastN, Cached, StoreInv, Reflects, Acceptances, Publish, ReadEffect;
    ClaimedIsKnown(s, req.id);
    var op := Attempt(Saved(s, req.id), req, now);
    PublishFails(s.(active := s.active + {req.id}), op, Accepted, limit);
    AcceptKeepsInv(s, op, limit);
  }

  lemma PublishFails(s: Store, op: Operation, kind: EventKind, limit: nat)
    ensures Publish(s, op, kind, true, limit, true) == Published(s, Err(StoreUnavailable))
    ensures Publish(s, op, kind, true, limit, false).result == Ok(op) == Publish(s, op, kind, false, limit, false).result
    ensures forall fails :: Publish(s, op, kind, false, limit, fails) == Publish(s, op, kind, false, limit, false)
  {}

  lemma AttemptIsPending(existing: Option<Operation>, req: Request, now: nat)
    ensures var op := Attempt(existing, req, now); op.id == req.id && NewAttempt(None, op)
  {}

  lemma TransientAdmitKeepsInv(s: Store, req: Request, now: nat, limit: nat, writeFails: bool)
    requires 1 <= limit && StoreInv(s) && req.id.Transient?
    ensures StartEffect(s, req, Admit(s, if req.id in s.cache.vals then Some(s.cache.vals[req.id]) else None, req, now, limit, writeFails))
  {
    hide Legal, NextEvents, Trim, LastN, Cached, StoreInv, Reflects, Acceptances, Publish, Attempt, NewAttempt, NeedsRecovery, ReadEffect;
    ClaimedIsKnown(s, req.id);
    var existing := if req.id in s.cache.vals then Some(s.cache.vals[req.id]) else None;
    var pinned := s.(active := s.active + {req.id});
    AttemptIsPending(existing, req, now);
    if req.id !in s.active {
      assert pinned.(active := pinned.active - {req.id}) == s;
      TransientPublishKeepsInv(pinned, Attempt(existing, req, now), Accepted, limit);
    }
  }

  lemma WentOnFurther(s: Store, t: Store, u: Store, id: OpId)
    ensures WentOn(s, t, id, 0) ==> forall n: nat :: WentOn(t, u, id, n) ==> WentOn(s, u, id, n)
    ensures s == t ==> WentOn(s, t, id, 0)
  {}

  lemma RereadKeepsIdentity(s: Store, t: Store, id: OpId)
    requires ReadEffect(s, t, id) && id in s.disk
    ensures id in t.disk && t.active == s.active
    ensures forall op :: NewAttempt(Saved(t, id), op) ==> NewAttempt(Saved(s, id), op)
  {}

  /** start_local_operation: no disk fault, conflict or live claim ever leaves a claim
      behind; a granted claim comes with its own acceptance in the journal. */
  lemma StartKeepsInv(s: Store, req: Request, now: nat, limit: nat, io: DiskFaults)
    requires 1 <= limit && StoreInv(s) && !req.id.Remote?
    ensures StartEffect(s, req, Start(s, req, now, limit, io))
  {
    hide Legal, NextEvents, Trim, LastN, Cached, StoreInv, Load, ReadEffect, Reflects, Acceptances, InterruptedCopy, NewAttempt;
    ClaimedIsKnown(s, req.id);
    if req.id.Durable? {
      LoadKeepsInv(s, req.id, limit, io);
      var found := Load(s, req.id, limit, io);
      if found.result.Ok? {
        if found.result.value.Some? {
          ReadGoesOn(s, found.store, req.id);
          RereadKeepsIdentity(s, found.store, req.id);
        }
        assert Saved(found.store, req.id) == found.result.value;
        DurableAdmitKeepsInv(found.store, req, now, limit, io.publicationWriteFails);
      }
      var r := Start(s, req, now, limit, io);
      WentOnFurther(s, found.store, r.store, req.id);
      forall other | other != req.id || other in s.active ensures Untouched(s, r.store, other) {
        assert Untouched(s, found.store, other);
        assert Untouched(found.store, r.store, other);
      }
    } else {
      TransientAdmitKeepsInv(s, req, now, limit, io.publicationWriteFails);
    }
  }

  // ---- every step keeps the whole invariant -------------------------------------------

  ghost predicate SameAcceptances(s: Store, t: Store) {
    forall id: OpId | id.Durable? :: Acceptances(Lookup(t.history, id)) == Acceptances(Lookup(s.history, id))
  }

  lemma SameWorkersKeepInv(w: World, store: Store, workers: map<nat, Phase>)
    requires Inv(w) && StoreInv(store) && store.active == w.store.active && SameAcceptances(w.store, store)
    requires workers.Keys == w.workers.Keys
    requires forall k | k in workers :: k < |w.claims| && InPhase(store, w.claims[k], workers[k])
    ensures Inv(World(store, workers, w.claims))
  {
    hide StoreInv, Acceptances, InPhase;
    assert forall k :: k in workers <==> k in w.workers;
  }

  lemma DroppedWorkerKeepsInv(w: World, store: Store, k: nat)
    requires Inv(w) && StoreInv(store) && k in w.workers && k < |w.claims|
    requires store.active == w.store.active - {w.claims[k]}
    requires store.disk == w.store.disk && store.history == w.store.history
    ensures Inv(World(store, w.workers - {k}, w.claims))
  {
    hide StoreInv, Acceptances, InPhase;
    var u := World(store, w.workers - {k}, w.claims);
    WorkersStayInPhase(w, store);
    forall id | id in u.store.active ensures exists j :: j in u.workers && u.claims[j] == id {
      var j :| j in w.workers && w.claims[j] == id;
      assert j in u.workers;
    }
  }

  lemma NewWorkerKeepsInv(w: World, store: Store, id: OpId)
    requires Inv(w) && StoreInv(store) && id !in w.store.active && store.active == w.store.active + {id} && !id.Remote?
    requires InPhase(store, id, Spawning)
    requires forall other | other in w.store.active :: Untouched(w.store, store, other)
    requires forall other: OpId | other.Durable? ::
      Acceptances(Lookup(store.history, other)) == Acceptances(Lookup(w.store.history, other)) + (if other == id then 1 else 0)
    ensures Inv(World(store, w.workers[|w.claims| := Spawning], w.claims + [id]))
  {
    hide StoreInv, Acceptances, ClaimsInv, InPhase, Untouched;
    var u := World(store, w.workers[|w.claims| := Spawning], w.claims + [id]);
    WorkersStayInPhase(w, store);
    forall other | other in store.active ensures exists k :: k in u.workers && u.claims[k] == other {
      if other == id {
        assert u.claims[|w.claims|] == id;
      } else {
        var k :| k in w.workers && w.claims[k] == other;
        assert k in u.workers && u.claims[k] == other;
      }
    }
    assert ClaimsInv(u) by { NewClaimCounts(w, store, id); }
  }

  lemma NewClaimCounts(w: World, store: Store, id: OpId)
    requires ClaimsInv(w)
    requires forall other: OpId | other.Durable? ::
      Acceptances(Lookup(store.history, other)) == Acceptances(Lookup(w.store.history, other)) + (if other == id then 1 else 0)
    ensures ClaimsInv(World(store, w.workers[|w.claims| := Spawning], w.claims + [id]))
  {
    hide Acceptances;
  }

  lemma SubmitKeepsInv(w: World, req: Request, now: nat, limit: nat, io: DiskFaults)
    requires 1 <= limit && Inv(w)
    ensures Inv(Next(w, Submit(req, now, io), limit))
  {
    hide StoreInv, Start, Acceptances, WorkersInv, ClaimsInv;
    if !req.id.Remote? {
      StartKeepsInv(w.store, req, now, limit, io);
      var r := Start(w.store, req, now, limit, io);
      ClaimedIsKnown(r.store, req.id);
      ClaimedIsKnown(w.store, req.id);
      forall other: OpId | other.Durable? && other != req.id
        ensures Acceptances(Lookup(r.store.history, other)) == Acceptances(Lookup(w.store.history, other)) {
        assert Untouched(w.store, r.store, other);
      }
      if r.claimed {
        NewWorkerKeepsInv(w, r.store, req.id);
      } else {
        WorkersStayInPhase(w, r.store);
        SameWorkersKeepInv(w, r.store, w.workers);
      }
    }
  }

  lemma WorkersStayInPhase(w: World, store: Store)
    requires WorkersInv(w)
    requires forall id | id in w.store.active :: Untouched(w.store, store, id)
    ensures forall k | k in w.workers :: k < |w.claims| && InPhase(store, w.claims[k], w.workers[k])
  {
    forall k | k in w.workers ensures InPhase(store, w.claims[k], w.workers[k]) {
      assert Untouched(w.store, store, w.claims[k]);
    }
  }

  lemma UpdateAccepts(s: Store, id: OpId, patch: Patch, now: nat, limit: nat, writeFails: bool)
    requires 1 <= limit && StoreInv(s) && id in s.active && !id.Remote?
    requires id.Durable? ==> id in s.disk && WorkerPatch(s.disk[id].operation, patch)
    ensures SameAcceptances(s, Update(s, id, patch, now, limit, writeFails).store)
  {
    hide StoreInv, Reflects, Acceptances, Cached, LastN, NextEvents;
    UpdateKeepsInv(s, id, patch, now, limit, writeFails);
    var t := Update(s, id, patch, now, limit, writeFails).store;
    if id.Durable? && !writeFails {
      var h := t.history[id];
      LastIsNoAcceptance(s, t, id, patch);
      AcceptancesAppend(h[..|h| - 1], h[|h| - 1]);
      assert h == h[..|h| - 1] + [h[|h| - 1]];
      assert h[..|h| - 1] == Lookup(s.history, id);
    }
  }

  lemma LastIsNoAcceptance(s: Store, t: Store, id: OpId, patch: Patch)
    requires StoreInv(s) && id in s.disk && WorkerPatch(s.disk[id].operation, patch)
    requires StoreInv(t) && Appended(s, t, id) && t.disk[id].operation.status == patch.status.value
    ensures t.history[id] != [] && t.history[id][|t.history[id]| - 1].kind != Accepted
  {
    var h := t.history[id];
    assert Reflects(t.disk[id], h, id);
    assert Reflects(s.disk[id], s.history[id], id);
    assert |h| >= 2;
    assert Follows(h[|h| - 2].data, h[|h| - 1]);
  }

  /** Any update by a worker: the claims stay, and only its own receipt moves on. */
  lemma WorkerUpdateKeepsInv(w: World, k: nat, patch: Patch, now: nat, limit: nat, writeFails: bool, phase: Phase)
    requires 1 <= limit && Inv(w) && k in w.workers && k < |w.claims|
    requires w.claims[k] in w.store.disk ==> WorkerPatch(w.store.disk[w.claims[k]].operation, patch)
    requires phase == Releasing
      || (phase == Working && patch.status == Some(Running)
          && (w.workers[k] == Working || Update(w.store, w.claims[k], patch, now, limit, writeFails).result.Ok?))
    ensures Inv(World(Update(w.store, w.claims[k], patch, now, limit, writeFails).store, w.workers[k := phase], w.claims))
  {
    hide StoreInv, Update, Acceptances, WorkerPatch;
    var id := w.claims[k];
    ClaimedIsKnown(w.store, id);
    UpdateKeepsInv(w.store, id, patch, now, limit, writeFails);
    UpdateAccepts(w.store, id, patch, now, limit, writeFails);
    var t := Update(w.store, id, patch, now, limit, writeFails).store;
    forall j | j in w.workers[k := phase] ensures InPhase(t, w.claims[j], w.workers[k := phase][j]) {
      ClaimedIsKnown(t, id);
    }
    SameWorkersKeepInv(w, t, w.workers[k := phase]);
  }

  lemma ReadKeepsInv(w: World, id: OpId, limit: nat, io: DiskFaults)
    requires 1 <= limit && Inv(w)
    ensures Inv(Next(w, Read(id, io), limit))
  {
    hide StoreInv, Load, Acceptances, ReadEffect, WorkersInv, ClaimsInv;
    LoadKeepsInv(w.store, id, limit, io);
    var t := Load(w.store, id, limit, io).store;
    if t != w.store {
      ReadGoesOn(w.store, t, id);
      RereadKeepsIdentity(w.store, t, id);
      forall other: OpId | other.Durable?
        ensures Acceptances(Lookup(t.history, other)) == Acceptances(Lookup(w.store.history, other)) {
        if other != id { assert Untouched(w.store, t, other); }
      }
      WorkersStayInPhase(w, t);
      SameWorkersKeepInv(w, t, w.workers);
    }
  }

  lemma LooseStepKeepsInv(w: World, op: Operation, limit: nat, step: Step)
    requires 1 <= limit && Inv(w) && (step == CompleteLocal(op) || step == Register(op))
    ensures Inv(Next(w, step, limit))
  {
    hide StoreInv, Acceptances, Cached, Publish;
    if step.CompleteLocal? && op.id.Transient? {
      InvWithoutClaim(w.store, op.id);
      TransientPublishKeepsInv(w.store, op, CompletedEvent, limit);
    } else if step.Register? && op.id.Remote? {
      RegisterKeepsInv(w.store, op, limit);
    }
    var u := Next(w, step, limit);
    assert u.store.disk == w.store.disk && u.store.history == w.store.history;
    WorkersStayInPhase(w, u.store);
    SameWorkersKeepInv(w, u.store, w.workers);
  }

  lemma ReleaseKeepsInv(w: World, k: nat, limit: nat)
    requires Inv(w) && k in w.workers && k < |w.claims|
    ensures Inv(World(Unclaimed(w.store, w.claims[k]), w.workers - {k}, w.claims))
    ensures Inv(World(Trim(Unclaimed(w.store, w.claims[k]), limit), w.workers - {k}, w.claims))
  {
    hide Trim, Reflects;
    InvWithoutClaim(w.store, w.claims[k]);
    var s := Unclaimed(w.store, w.claims[k]);
    DroppedWorkerKeepsInv(w, s, k);
    TrimKeepsInv(s, limit);
    DroppedWorkerKeepsInv(w, Trim(s, limit), k);
  }

  lemma CrashKeepsInv(w: World, limit: nat)
    requires Inv(w)
    ensures Inv(Next(w, Crash, limit))
  {
    hide Reflects, Acceptances;
  }

  lemma WorkerStepKeepsInv(w: World, step: Step, limit: nat)
    requires 1 <= limit && Inv(w) && (step.Begin? || step.Report? || step.Finish?)
    ensures Inv(Next(w, step, limit))
  {
    hide StoreInv, WorkersInv, ClaimsInv, Update, WorkerPatch;
    match step
    case Begin(k, now, fails) =>
      if At(w, k, Starting) {
        WorkerMay(w, k, BEGINNING);
        var ok := Update(w.store, w.claims[k], BEGINNING, now, limit, fails).result.Ok?;
        WorkerUpdateKeepsInv(w, k, BEGINNING, now, limit, fails, if ok then Working else Releasing);
      }
    case Report(k, patch, now, fails) =>
      if At(w, k, Working) {
        WorkerMay(w, k, ReportPatch(patch));
        WorkerUpdateKeepsInv(w, k, ReportPatch(patch), now, limit, fails, Working);
        assert w.workers[k := Working] == w.workers;
      }
    case Finish(k, outcome, now, fails) =>
      if At(w, k, Working) {
        WorkerMay(w, k, FinalPatch(outcome));
        WorkerUpdateKeepsInv(w, k, FinalPatch(outcome), now, limit, fails, Releasing);
      }
  }

  lemma StepKeepsInv(w: World, step: Step, limit: nat)
    requires 1 <= limit && Inv(w)
    ensures Inv(Next(w, step, limit))
  {
    hide StoreInv, WorkersInv, ClaimsInv, Update, Start, Load, Publish, Trim;
    if step.Begin? || step.Report? || step.Finish? { WorkerStepKeepsInv(w, step, limit); }
    match step
    case Submit(req, now, io) => SubmitKeepsInv(w, req, now, limit, io);
    case SpawnFails(k) => if At(w, k, Spawning) { ReleaseKeepsInv(w, k, limit); }
    case Spawn(k) => if At(w, k, Spawning) { SpawnKeepsInv(w, k); }
    case Release(k) => if At(w, k, Releasing) { ReleaseKeepsInv(w, k, limit); }
    case Read(id, io) => ReadKeepsInv(w, id, limit, io);
    case CompleteLocal(op) => LooseStepKeepsInv(w, op, limit, step);
    case Register(op) => LooseStepKeepsInv(w, op, limit, step);
    case Crash => CrashKeepsInv(w, limit);
    case _ =>
  }

  lemma SpawnKeepsInv(w: World, k: nat)
    requires Inv(w) && At(w, k, Spawning)
    ensures Inv(w.(workers := w.workers[k := Starting]))
  {
    hide StoreInv, Acceptances;
    SameWorkersKeepInv(w, w.store, w.workers[k := Starting]);
  }

  lemma WorkerMay(w: World, k: nat, patch: Patch)
    requires WorkersInv(w) && k in w.workers && patch.status.Some? && k < |w.claims|
    requires match w.workers[k]
      case Spawning => false
      case Starting => patch.status.value == Running
      case Working => patch.status.value == Running || patch.status.value == Failed
                      || (patch.status.value == Completed && patch.percent == Some(100.0))
      case Releasing => false
    ensures w.claims[k] in w.store.disk ==> WorkerPatch(w.store.disk[w.claims[k]].operation, patch)
  {}

  /** The invariant holds after every run, from any state in which it holds. */
  lemma {:induction false} RunKeepsInv(w: World, steps: seq<Step>, limit: nat)
    requires 1 <= limit && Inv(w)
    ensures Inv(Run(w, steps, limit))
    decreases |steps|
  {
    if steps != [] {
      StepKeepsInv(w, steps[0], limit);
      RunKeepsInv(Next(w, steps[0], limit), steps[1..], limit);
    }
  }

  lemma InitialInv()
    ensures Inv(Initial)
  {}
}
