/** What a submission of a durable operation gets: a refusal, the receipt there is, or a
    claim for a new attempt, as the journal, the claims and the disk decide. */
module OperationAdmissions {
  import opened OrderedDicts
  import opened Operations
  import opened OperationHistory
  import opened OperationRuns
  import opened OperationTheorems
  import opened OperationCache

  /** The key was used for a request with another body. */
  predicate OtherBody(saved: Operation, req: Request) { req.fingerprint.Some? && req.fingerprint != saved.fingerprint }

  /** The receipt stands: completed, failed for good, or under way. */
  predicate Stands(saved: Operation, req: Request, claimed: bool) {
    || claimed
    || saved.status == Completed
    || (saved.status == Failed && !req.retryFailed && (saved.error == None || !saved.error.value.retryable))
  }

  /** The file of the operation can be read, and brought up to date if its work was lost. */
  ghost predicate Readable(s: Store, id: OpId, io: DiskFaults) {
    !io.readFails && (NeedsRecovery(s, id) ==> !io.recoveryWriteFails)
  }

  /** The attempt a claim is granted for: queued from zero, with the options and creation
      time of the first acceptance. */
  ghost predicate IsAttempt(op: Operation, req: Request, now: nat, options: map<string, string>, createdAt: nat) {
    && op.id == req.id && op.kind == req.kind && op.fingerprint == req.fingerprint
    && op.status == Pending && op.progress.percent == 0 && op.result == None && op.error == None
    && op.options == options && op.createdAt == createdAt && op.updatedAt == now
  }

  /** From s to t the attempt was accepted and claimed: the newest event of the history, and
      what the file says. */
  ghost predicate AcceptedIn(s: Store, t: Store, op: Operation) {
    && t.active == s.active + {op.id} && op.id !in s.active
    && op.id in t.disk && t.disk[op.id].operation == op
    && op.id in t.history && |t.history[op.id]| > |Lookup(s.history, op.id)| && Lookup(s.history, op.id) <= t.history[op.id]
    && var n := |t.history[op.id]|; t.history[op.id][n - 1] == Event(n, Accepted, op)
  }

  lemma LoadSucceedsIff(s: Store, id: OpId, limit: nat, io: DiskFaults)
    requires 1 <= limit && StoreInv(s) && id in s.disk
    ensures var r := Load(s, id, limit, io);
      && (r.result.Ok? <==> Readable(s, id, io))
      && (r.result.Ok? ==>
            && StoreInv(r.store) && ReadEffect(s, r.store, id) && id in r.store.disk && id in r.store.durable
            && r.result == Ok(Some(r.store.disk[id].operation)))
      && (r.result.Err? ==> r == Loaded(s, Err(StoreUnavailable)))
  {
    hide Reflects, Cached, ReadEffect, Recovered, StoreInv;
    SavedParts(s, id);
    LoadKeepsInv(s, id, limit, io);
    if io.readFails { ReadFaultStops(s, id, limit, io); } else { LoadUnfolds(s, id, limit, io); }
    if Load(s, id, limit, io).result.Ok? { ReadKeepsBody(s, Load(s, id, limit, io).store, id); }
  }

  lemma ReadFaultStops(s: Store, id: OpId, limit: nat, io: DiskFaults)
    requires StoreInv(s) && id.Durable? && io.readFails
    ensures Load(s, id, limit, io) == Loaded(s, Err(StoreUnavailable))
  {
    hide Reflects;
  }

  /** A submission under a key that was used before, with the file readable. It is refused
      exactly if it is for another body; otherwise it gets the receipt exactly if that
      stands, and else a claim exactly if the acceptance can be written. Without a claim
      nothing is accepted: at most the lost work is marked interrupted. */
  lemma SubmissionIsExact(s: Store, req: Request, now: nat, limit: nat, io: DiskFaults)
    requires 1 <= limit && StoreInv(s) && req.id in s.disk && Readable(s, req.id, io)
    ensures var r := Start(s, req, now, limit, io); var saved := s.disk[req.id].operation;
      var stands := Stands(saved, req, req.id in s.active);
      && (r.result == Err(KeyReused) <==> OtherBody(saved, req))
      && (r.result.Ok? && !r.claimed <==> !OtherBody(saved, req) && stands)
      && (r.claimed <==> !OtherBody(saved, req) && !stands && !io.publicationWriteFails)
      && (r.result == Err(StoreUnavailable) <==> !OtherBody(saved, req) && !stands && io.publicationWriteFails)
      && (!r.claimed ==> ReadEffect(s, r.store, req.id) && (r.result.Ok? ==> r.result.value == saved))
      && (r.claimed ==>
            r.result.Ok? && IsAttempt(r.result.value, req, now, saved.options, saved.createdAt) && AcceptedIn(s, r.store, r.result.value))
  {
    hide Reflects, Cached, ReadEffect, StoreInv, Load, Publish, Legal;
    SavedParts(s, req.id);
    LoadSucceedsIff(s, req.id, limit, io);
    var found := Load(s, req.id, limit, io).store;
    ReadKeepsBody(s, found, req.id);
    var op := Attempt(Some(found.disk[req.id].operation), req, now);
    PublishFails(found.(active := found.active + {req.id}), op, Accepted, limit);
    var saved := s.disk[req.id].operation;
    if !OtherBody(saved, req) && !Stands(saved, req, req.id in s.active) && !io.publicationWriteFails {
      AttemptIsAccepted(found, op, limit);
      ReadGoesOn(s, found, req.id);
    }
  }

  lemma ReadKeepsBody(s: Store, t: Store, id: OpId)
    requires ReadEffect(s, t, id) && id in s.disk
    ensures t.active == s.active && id in t.disk
    ensures var a := s.disk[id].operation; var b := t.disk[id].operation;
      && b.fingerprint == a.fingerprint && b.options == a.options && b.createdAt == a.createdAt
      && (b == a || (NeedsRecovery(s, id) && b.status == Interrupted))
    ensures !NeedsRecovery(t, id)
  {
  }

  lemma AttemptIsAccepted(s: Store, op: Operation, limit: nat)
    requires 1 <= limit && StoreInv(s) && op.id.Durable? && op.id !in s.active
    requires op.id in s.disk ==> op.id in s.durable && !NeedsRecovery(s, op.id)
    requires NewAttempt(Saved(s, op.id), op)
    ensures var t := Publish(s.(active := s.active + {op.id}), op, Accepted, true, limit, false).store; AcceptedIn(s, t, op)
  {
    hide Legal, Trim, Cached, StoreInv, Publish, Acceptances;
    AcceptKeepsInv(s, op, limit);
    var pinned := s.(active := s.active + {op.id});
    assert pinned.(active := pinned.active - {op.id}) == s;
    if op.id in s.disk { SavedParts(s, op.id); }
    PublishKeepsInv(pinned, op, Accepted, limit);
  }

  /** The first submission under a key: claimed exactly if nothing fails, with its own options. */
  lemma FirstSubmission(s: Store, req: Request, now: nat, limit: nat, io: DiskFaults)
    requires 1 <= limit && StoreInv(s) && req.id.Durable? && req.id !in s.disk
    ensures var r := Start(s, req, now, limit, io);
      && (r.claimed <==> !io.readFails && !io.publicationWriteFails)
      && (!r.claimed ==> r == Submission(s, Err(StoreUnavailable), false))
      && (r.claimed ==> r.result.Ok? && IsAttempt(r.result.value, req, now, req.options, now) && AcceptedIn(s, r.store, r.result.value))
  {
    hide Reflects, Cached, StoreInv, Load, Publish, Legal;
    MissingFile(s, req.id, limit, io);
    ClaimedIsKnown(s, req.id);
    var op := Attempt(None, req, now);
    PublishFails(s.(active := s.active + {req.id}), op, Accepted, limit);
    if !io.readFails && !io.publicationWriteFails { AttemptIsAccepted(s, op, limit); }
  }

  lemma MissingFile(s: Store, id: OpId, limit: nat, io: DiskFaults)
    requires StoreInv(s) && id.Durable? && id !in s.disk
    ensures Load(s, id, limit, io) == Loaded(s, if io.readFails then Err(StoreUnavailable) else Ok(None))
  {
    hide Reflects;
  }

  /** When the file cannot be read or brought up to date, nothing happens at all. */
  lemma UnreadableSubmission(s: Store, req: Request, now: nat, limit: nat, io: DiskFaults)
    requires 1 <= limit && StoreInv(s) && req.id in s.disk && !Readable(s, req.id, io)
    ensures Start(s, req, now, limit, io) == Submission(s, Err(StoreUnavailable), false)
  {
    hide StoreInv, Load, Publish, Legal;
    SavedParts(s, req.id);
    LoadSucceedsIff(s, req.id, limit, io);
  }

  /** So in every run no two bodies share a receipt: among submissions that carry their
      fingerprint, all attempts under one key are for the body of the first. */
  lemma OneBodyPerKey(steps: seq<Step>, limit: nat, id: OpId, i: nat)
    requires 1 <= limit && i < |Lookup(Run(Initial, steps, limit).store.history, id)|
    requires var h := Lookup(Run(Initial, steps, limit).store.history, id);
      forall k | 0 <= k <= i && h[k].kind == Accepted :: h[k].data.fingerprint.Some?
    ensures var h := Lookup(Run(Initial, steps, limit).store.history, id); h[i].data.fingerprint == h[0].data.fingerprint
  {
    hide Run, Next, WorkersInv, ClaimsInv, Follows, Legal;
    InitialInv();
    RunKeepsInv(Initial, steps, limit);
    var s := Run(Initial, steps, limit).store;
    assert Reflects(s.disk[id], s.history[id], id);
    BodyNeverChanges(s.history[id], i);
  }

  // ---- from submission to result ------------------------------------------------------------

  /** A worker that is started and finishes leaves its outcome in the file and gives its claim up. */
  lemma ClaimedWorkIsDone(w: World, k: nat, outcome: WorkResult, now: nat, limit: nat)
    requires 1 <= limit && Inv(w) && At(w, k, Spawning) && w.claims[k].Durable?
    ensures var id := w.claims[k];
      var u := Next(Next(Next(Next(w, Spawn(k), limit), Begin(k, now, false), limit), Finish(k, outcome, now, false), limit), Release(k), limit);
      && Inv(u) && id in u.store.disk && id !in u.store.active && k !in u.workers
      && match outcome
         case Returned(value) => u.store.disk[id].operation.status == Completed && u.store.disk[id].operation.result == Some(value)
         case Raised(problem) => u.store.disk[id].operation.status == Failed && u.store.disk[id].operation.error == Some(problem)
  {
    hide Inv, Update, Trim;
    var a := Next(w, Spawn(k), limit);
    StepKeepsInv(w, Spawn(k), limit);
    BeginWorks(a, k, now, limit);
    var b := Next(a, Begin(k, now, false), limit);
    StepKeepsInv(a, Begin(k, now, false), limit);
    WorkIsJournaled(b, k, outcome, NOTHING, now, limit);
    var c := Next(b, Finish(k, outcome, now, false), limit);
    StepKeepsInv(b, Finish(k, outcome, now, false), limit);
    assert At(c, k, Releasing);
    ReleaseHistory(c, k, limit);
    StepKeepsInv(c, Release(k), limit);
    hide Next;
    ReleaseUnclaims(c, k, limit);
  }

  lemma BeginWorks(w: World, k: nat, now: nat, limit: nat)
    requires 1 <= limit && Inv(w) && At(w, k, Starting)
    ensures var u := Next(w, Begin(k, now, false), limit); At(u, k, Working) && u.claims == w.claims
  {
    hide StoreInv, ClaimsInv, Update, WorkerPatch;
    ClaimedIsKnown(w.store, w.claims[k]);
    WorkerMay(w, k, BEGINNING);
    UpdateKeepsInv(w.store, w.claims[k], BEGINNING, now, limit, false);
  }

  lemma ReleaseUnclaims(w: World, k: nat, limit: nat)
    requires 1 <= limit && Inv(w) && At(w, k, Releasing)
    ensures var u := Next(w, Release(k), limit); w.claims[k] !in u.store.active && k !in u.workers
  {
    hide Reflects, Trim, WorkersInv, ClaimsInv;
    InvWithoutClaim(w.store, w.claims[k]);
    TrimKeepsInv(Unclaimed(w.store, w.claims[k]), limit);
  }

  /** The first submission under a key, a worker that starts and finishes: the file has the
      outcome, and a read returns it. */
  lemma SubmittedWorkIsDone(w: World, req: Request, outcome: WorkResult, now: nat, limit: nat, io: DiskFaults)
    requires 1 <= limit && Inv(w) && req.id.Durable? && req.id !in w.store.disk && !io.readFails && !io.publicationWriteFails
    ensures var k := |w.claims|; var a := Next(w, Submit(req, now, io), limit);
      && Inv(a) && At(a, k, Spawning) && a.claims[k] == req.id
      && var u := Next(Next(Next(Next(a, Spawn(k), limit), Begin(k, now, false), limit), Finish(k, outcome, now, false), limit), Release(k), limit);
         && req.id in u.store.disk && req.id !in u.store.active
         && Load(u.store, req.id, limit, DiskFaults(false, false, false)).result == Ok(Some(u.store.disk[req.id].operation))
         && (outcome.Returned? ==> u.store.disk[req.id].operation.result == Some(outcome.value))
  {
    hide Inv, Load, Start, AcceptedIn, IsAttempt, StoreInv;
    var k := |w.claims|;
    StoreOf(w);
    FirstSubmission(w.store, req, now, limit, io);
    StepKeepsInv(w, Submit(req, now, io), limit);
    var a := Next(w, Submit(req, now, io), limit);
    assert At(a, k, Spawning) && a.claims[k] == req.id;
    hide Next;
    ClaimedWorkIsDone(a, k, outcome, now, limit);
    var u := Next(Next(Next(Next(a, Spawn(k), limit), Begin(k, now, false), limit), Finish(k, outcome, now, false), limit), Release(k), limit);
    StoreOf(u);
    FinishedIsRead(u.store, req.id, limit);
  }

  lemma StoreOf(w: World)
    requires Inv(w)
    ensures StoreInv(w.store)
  {
    hide StoreInv, WorkersInv, ClaimsInv;
  }

  lemma FinishedIsRead(s: Store, id: OpId, limit: nat)
    requires 1 <= limit && StoreInv(s) && id in s.disk && !Unfinished(s.disk[id].operation.status)
    ensures Load(s, id, limit, DiskFaults(false, false, false)).result == Ok(Some(s.disk[id].operation))
  {
    hide StoreInv, Load;
    LoadSucceedsIff(s, id, limit, DiskFaults(false, false, false));
  }

  /** An operation that is not durable is shown as soon as it is completed or registered. */
  lemma LooseIsShown(w: World, op: Operation, limit: nat, io: DiskFaults)
    requires 1 <= limit && Inv(w)
    ensures op.id.Transient? && op.id !in w.store.cache.vals ==>
              Load(Next(w, CompleteLocal(op), limit).store, op.id, limit, io).result == Ok(Some(op))
    ensures op.id.Remote? ==> Load(Next(w, Register(op), limit).store, op.id, limit, io).result == Ok(Some(op))
  {
    hide WorkersInv, ClaimsInv, NextEvents, Trim, Reflects;
    InvWithoutClaim(w.store, op.id);
    if op.id.Transient? && op.id !in w.store.cache.vals {
      LooseIsCached(w.store, op, w.store.events[op.id := NextEvents(Lookup(w.store.events, op.id), CompletedEvent, op)], w.store.local + {op.id}, limit);
    }
    if op.id.Remote? {
      LooseIsCached(w.store, op, w.store.events, w.store.local, limit);
      assert w.store.(local := w.store.local, events := w.store.events) == w.store;
    }
  }

  lemma LooseIsCached(s: Store, op: Operation, events: map<OpId, seq<Event>>, local: set<OpId>, limit: nat)
    requires 1 <= limit && StoreInv(s) && !op.id.Durable?
    ensures var t := Cached(s.(local := local, events := events), op, limit);
      op.id in t.cache.vals && t.cache.vals[op.id] == op && op.id !in t.durable
  {
    hide Reflects, Trim;
    var s2 := s.(local := local, events := events);
    TouchedFacts(s2, op);
    StoredOperationStays(s2, op, limit);
    TrimKeepsSurvivors(Touched(s2, op), limit);
  }
}
