/** What holds of durable operations in every run. */
module OperationTheorems {
  import opened OrderedDicts
  import opened Operations
  import opened OperationCache
  import opened OperationHistory
  import opened OperationRuns

  // ---- one worker, and work that is done stays done -----------------------------------

  /** At any moment of any run, two live workers never work on the same operation, and
      every live worker's operation is claimed. */
  lemma OneWorkerPerOperation(steps: seq<Step>, limit: nat, j: nat, k: nat)
    requires 1 <= limit
    requires j in Run(Initial, steps, limit).workers && k in Run(Initial, steps, limit).workers && j != k
    ensures var w := Run(Initial, steps, limit);
      j < |w.claims| && k < |w.claims| && w.claims[j] != w.claims[k] && w.claims[j] in w.store.active
  {
    hide StoreInv, Run, Next;
    InitialInv();
    RunKeepsInv(Initial, steps, limit);
  }

  /** Histories only grow. */
  ghost predicate Grew(s: Store, t: Store) {
    forall id :: Lookup(s.history, id) <= Lookup(t.history, id)
  }

  lemma StepGrows(w: World, step: Step, limit: nat)
    requires 1 <= limit && Inv(w)
    ensures Grew(w.store, Next(w, step, limit).store)
  {
    hide StoreInv, WorkersInv, ClaimsInv, ReadEffect, Load, Update, Start, Publish, Cached, Trim;
    var u := Next(w, step, limit);
    match step
    case Submit(req, now, io) =>
      if !req.id.Remote? { SubmissionGrows(w.store, req, now, limit, io); }
    case Read(id, io) =>
      LoadKeepsInv(w.store, id, limit, io);
      if u.store != w.store { ReadGrows(w.store, u.store, id); }
    case Begin(k, now, fails) => if At(w, k, Starting) { UpdateGrows(w, k, BEGINNING, now, limit, fails); }
    case Report(k, patch, now, fails) =>
      if At(w, k, Working) {
        UpdateGrows(w, k, ReportPatch(patch), now, limit, fails);
      }
    case Finish(k, outcome, now, fails) => if At(w, k, Working) { UpdateGrows(w, k, FinalPatch(outcome), now, limit, fails); }
    case Release(k) => if At(w, k, Releasing) { ReleaseHistory(w, k, limit); }
    case CompleteLocal(op) => LooseHistory(w, op, limit);
    case Register(op) => LooseHistory(w, op, limit);
    case _ =>
  }

  lemma SubmissionGrows(s: Store, req: Request, now: nat, limit: nat, io: DiskFaults)
    requires 1 <= limit && StoreInv(s) && !req.id.Remote?
    ensures Grew(s, Start(s, req, now, limit, io).store)
  {
    hide StoreInv, Start, Acceptances;
    StartKeepsInv(s, req, now, limit, io);
    var t := Start(s, req, now, limit, io).store;
    forall id ensures Lookup(s.history, id) <= Lookup(t.history, id) {
      if id != req.id { assert Untouched(s, t, id); }
    }
  }

  lemma ReadGrows(s: Store, t: Store, id: OpId)
    requires ReadEffect(s, t, id)
    ensures Grew(s, t)
  {
    hide Acceptances;
    ReadGoesOn(s, t, id);
    forall other ensures Lookup(s.history, other) <= Lookup(t.history, other) {
      if other != id { assert Untouched(s, t, other); }
    }
  }

  lemma UpdateGrows(w: World, k: nat, patch: Patch, now: nat, limit: nat, fails: bool)
    requires 1 <= limit && Inv(w) && k in w.workers && k < |w.claims| && patch.status.Some?
    requires w.workers[k] == Starting || w.workers[k] == Working
    requires w.workers[k] == Starting ==> patch.status == Some(Running)
    requires patch.status.value == Running || patch.status.value == Failed
      || (patch.status.value == Completed && patch.percent == Some(100.0))
    ensures Grew(w.store, Update(w.store, w.claims[k], patch, now, limit, fails).store)
  {
    hide StoreInv, WorkerPatch, Acceptances, Update;
    WorkerMay(w, k, patch);
    ClaimedIsKnown(w.store, w.claims[k]);
    UpdateKeepsInv(w.store, w.claims[k], patch, now, limit, fails);
  }

  lemma ReleaseHistory(w: World, k: nat, limit: nat)
    requires Inv(w) && k in w.workers && k < |w.claims|
    ensures Trim(Unclaimed(w.store, w.claims[k]), limit).history == w.store.history
    ensures Trim(Unclaimed(w.store, w.claims[k]), limit).disk == w.store.disk
  {
    hide Trim, Reflects;
    InvWithoutClaim(w.store, w.claims[k]);
    TrimKeepsInv(Unclaimed(w.store, w.claims[k]), limit);
  }

  lemma LooseHistory(w: World, op: Operation, limit: nat)
    requires 1 <= limit && Inv(w)
    ensures Next(w, CompleteLocal(op), limit).store.history == w.store.history
    ensures Next(w, Register(op), limit).store.history == w.store.history
    ensures Next(w, CompleteLocal(op), limit).store.disk == w.store.disk
    ensures Next(w, Register(op), limit).store.disk == w.store.disk
  {
    hide StoreInv, Cached, Publish, Acceptances;
    InvWithoutClaim(w.store, op.id);
    if op.id.Transient? { TransientPublishKeepsInv(w.store, op, CompletedEvent, limit); }
    if op.id.Remote? { RegisterKeepsInv(w.store, op, limit); }
  }

  lemma {:induction false} RunGrows(w: World, steps: seq<Step>, limit: nat)
    requires 1 <= limit && Inv(w)
    ensures Grew(w.store, Run(w, steps, limit).store)
    decreases |steps|
  {
    hide Inv, Next;
    if steps != [] {
      var u := Next(w, steps[0], limit);
      StepKeepsInv(w, steps[0], limit);
      StepGrows(w, steps[0], limit);
      RunGrows(u, steps[1..], limit);
      forall id ensures Lookup(w.store.history, id) <= Lookup(Run(w, steps, limit).store.history, id) {
        assert Lookup(w.store.history, id) <= Lookup(u.store.history, id) <= Lookup(Run(u, steps[1..], limit).store.history, id);
      }
    }
  }

  /** Once the journal says that an operation completed, no run changes its receipt or
      its history again, and no run grants another claim to it. */
  lemma CompletedForever(w: World, id: OpId, steps: seq<Step>, limit: nat)
    requires 1 <= limit && Inv(w) && id in w.store.disk && w.store.disk[id].operation.status == Completed
    ensures var u := Run(w, steps, limit);
      && id in u.store.disk && u.store.disk[id] == w.store.disk[id]
      && Lookup(u.store.history, id) == Lookup(w.store.history, id)
      && multiset(u.claims)[id] == multiset(w.claims)[id]
  {
    hide Acceptances, Run, WorkersInv, NextEvents;
    RunKeepsInv(w, steps, limit);
    RunGrows(w, steps, limit);
    var u := Run(w, steps, limit);
    var h, g := w.store.history[id], Lookup(u.store.history, id);
    assert Reflects(w.store.disk[id], h, id);
    assert h <= g;
    assert Reflects(u.store.disk[id], g, id);
    assert h[|h| - 1] == g[|h| - 1];
    if |h| < |g| { CompletionIsLast(g, |h| - 1); }
    assert h == g;
  }

  // ---- what work ends with ----------------------------------------------------------------

  /** The percent after a report of `value`: never back, up to the nearest whole percent of the
      value, and within 0..100. */
  ghost predicate IsAdvance(before: int, value: real, after: int) {
    && before <= after
    && (value <= 100.0 ==> value - 0.5 <= after as real) && (value > 100.0 ==> 100 <= after)
    && (after == before || after == 0 || (after as real <= value + 0.5 && after <= 100))
  }

  lemma PercentIsAdvance(p: Progress, patch: Patch)
    requires patch.percent.Some?
    ensures IsAdvance(p.percent, patch.percent.value, PatchedProgress(p, patch).percent)
  {
  }

  /** What an update of a worker leaves in the file: what it reports, and all else unchanged. */
  lemma UpdateIsJournaled(s: Store, id: OpId, patch: Patch, now: nat, limit: nat)
    requires 1 <= limit && StoreInv(s) && id in s.active && id.Durable? && id in s.disk && WorkerPatch(s.disk[id].operation, patch)
    ensures var t := Update(s, id, patch, now, limit, false).store; var a := s.disk[id].operation;
      && id in t.disk && var b := t.disk[id].operation;
         && b.status == patch.status.value && b.updatedAt == now
         && b.result == (if patch.result == None then a.result else patch.result)
         && b.error == (if patch.error == None then a.error else patch.error)
         && b.kind == a.kind && b.options == a.options && b.createdAt == a.createdAt && b.fingerprint == a.fingerprint
         && (patch.percent.None? ==> b.progress.percent == a.progress.percent)
         && (patch.percent.Some? ==> IsAdvance(a.progress.percent, patch.percent.value, b.progress.percent))
         && (patch.stage != "" ==> b.progress.stage == patch.stage)
  {
    hide Legal, NextEvents, Follows, Trim, LastN, Reflects, Cached, Round, UpdateKind;
    var op := Patched(s.cache.vals[id], patch, now);
    SavedParts(s, id);
    LastPercent(s, id);
    PatchFollows(s.disk[id].operation, patch, now, |s.history[id]| + 1);
    InvWithoutClaim(s, id);
    if patch.percent.Some? { PercentIsAdvance(s.disk[id].operation.progress, patch); }
    hide IsAdvance;
    PublishKeepsInv(s, op, UpdateKind(op), limit);
  }

  /** The end of the work is in the file: its result under Completed, its problem under
      Failed; a report before the end changes neither. */
  lemma WorkIsJournaled(w: World, k: nat, outcome: WorkResult, patch: Patch, now: nat, limit: nat)
    requires 1 <= limit && Inv(w) && At(w, k, Working) && w.claims[k].Durable?
    ensures var id := w.claims[k]; id in w.store.disk
    ensures var id := w.claims[k]; var a := w.store.disk[id].operation;
      var t := Next(w, Finish(k, outcome, now, false), limit).store; var u := Next(w, Report(k, patch, now, false), limit).store;
      && id in t.disk && id in u.disk
      && (match outcome
          case Returned(value) =>
            t.disk[id].operation.status == Completed && t.disk[id].operation.result == Some(value) && t.disk[id].operation.error == a.error
          case Raised(problem) =>
            t.disk[id].operation.status == Failed && t.disk[id].operation.error == Some(problem) && t.disk[id].operation.result == a.result)
      && u.disk[id].operation.status == Running
      && u.disk[id].operation.result == a.result && u.disk[id].operation.error == a.error
  {
    hide StoreInv, ClaimsInv, Update, WorkerPatch;
    var id := w.claims[k];
    ClaimedIsKnown(w.store, id);
    WorkerMay(w, k, FinalPatch(outcome));
    UpdateIsJournaled(w.store, id, FinalPatch(outcome), now, limit);
    WorkerMay(w, k, ReportPatch(patch));
    UpdateIsJournaled(w.store, id, ReportPatch(patch), now, limit);
  }

  /** A result that was journaled is there after every run. */
  lemma ResultIsForever(w: World, k: nat, value: string, now: nat, steps: seq<Step>, limit: nat)
    requires 1 <= limit && Inv(w) && At(w, k, Working) && w.claims[k].Durable?
    ensures var u := Run(Next(w, Finish(k, Returned(value), now, false), limit), steps, limit).store; var id := w.claims[k];
      id in u.disk && u.disk[id].operation.status == Completed && u.disk[id].operation.result == Some(value)
  {
    hide Inv, Next, Run;
    WorkIsJournaled(w, k, Returned(value), NOTHING, now, limit);
    StepKeepsInv(w, Finish(k, Returned(value), now, false), limit);
    CompletedForever(Next(w, Finish(k, Returned(value), now, false), limit), w.claims[k], steps, limit);
  }

  // ---- what the journal keeps ---------------------------------------------------------

  /** After any run the receipt of a durable operation shows exactly the newest
      min(n, 200) of the n events ever published for it, numbered n - min(n, 200) + 1 .. n,
      and the state the last of them carries; the history obeys the order of statuses. */
  lemma JournalKeepsNewestEvents(steps: seq<Step>, limit: nat, id: OpId)
    requires 1 <= limit && id in Run(Initial, steps, limit).store.disk
    ensures var s := Run(Initial, steps, limit).store; var h := Lookup(s.history, id);
      && Legal(h)
      && s.disk[id].operation == h[|h| - 1].data
      && |s.disk[id].events| == Min(|h|, EVENT_CAP)
      && forall i | 0 <= i < |s.disk[id].events| ::
           var n := |h| - |s.disk[id].events| + i; s.disk[id].events[i] == h[n] && h[n].sequence == n + 1
  {
    hide Run, Next, WorkersInv, ClaimsInv, Follows;
    InitialInv();
    RunKeepsInv(Initial, steps, limit);
    var s := Run(Initial, steps, limit).store;
    assert Reflects(s.disk[id], s.history[id], id);
  }

  /** Whatever is cached of a durable operation is what its file says, whoever evicted or
      reloaded it before; and what is claimed is always cached. */
  lemma CacheMirrorsJournal(steps: seq<Step>, limit: nat, id: OpId)
    requires 1 <= limit && id.Durable?
    ensures var s := Run(Initial, steps, limit).store;
      && (id in s.cache.vals ==>
            id in s.disk && s.cache.vals[id] == s.disk[id].operation && Lookup(s.events, id) == s.disk[id].events)
      && (id in s.active ==> id in s.cache.vals && id in s.local)
  {
    hide Run, Next, WorkersInv, ClaimsInv, Reflects;
    InitialInv();
    RunKeepsInv(Initial, steps, limit);
  }

  // ---- reading ------------------------------------------------------------------------

  /** The file after a read: the same, or with the one recovery event. */
  lemma ReadLeavesFile(s: Store, id: OpId, limit: nat, io: DiskFaults)
    requires 1 <= limit && StoreInv(s) && id in s.disk
    ensures var t := Load(s, id, limit, io).store;
      id in t.disk && t.disk[id] == if Load(s, id, limit, io).result.Ok? then Recovered(s.disk[id], id in s.active) else s.disk[id]
  {
    hide StoreInv, Recovered, Cached, Legal, Reflects;
    LoadKeepsInv(s, id, limit, io);
    if !io.readFails {
      LoadUnfolds(s, id, limit, io);
      if !(NeedsRecovery(s, id) && io.recoveryWriteFails) {
        LoadUnfolds(s, id, limit, DiskFaults(false, false, false));
        LoadOfSaved(s, id, limit, DiskFaults(false, false, false));
      }
    } else {
      ReadFaultIsError(s, id, limit, io);
    }
  }

  lemma ReadFaultIsError(s: Store, id: OpId, limit: nat, io: DiskFaults)
    requires StoreInv(s) && id in s.disk && io.readFails
    ensures Load(s, id, limit, io) == Loaded(s, Err(StoreUnavailable))
  {
    hide Reflects;
  }

  /** The cache is transparent: two stores that agree on the file of a durable operation
      and on whether it is claimed answer a read alike, and leave the same file. */
  lemma ReadDependsOnJournalAndClaims(s: Store, t: Store, id: OpId, limit: nat, limit': nat, io: DiskFaults)
    requires 1 <= limit && 1 <= limit' && StoreInv(s) && StoreInv(t) && id.Durable?
    requires (id in s.disk <==> id in t.disk) && (id in s.disk ==> s.disk[id] == t.disk[id])
    requires id in s.active <==> id in t.active
    ensures var a := Load(s, id, limit, io); var b := Load(t, id, limit', io);
      && a.result == b.result
      && (id in a.store.disk <==> id in b.store.disk)
      && (id in a.store.disk ==> a.store.disk[id] == b.store.disk[id])
  {
    hide Reflects, Cached, NextEvents, LastN, Trim;
    LoadKeepsInv(s, id, limit, io);
    LoadKeepsInv(t, id, limit', io);
    if id in s.disk {
      SavedParts(s, id);
      SavedParts(t, id);
      ReadLeavesFile(s, id, limit, io);
      ReadLeavesFile(t, id, limit', io);
    }
  }

  /** No reader is shown work in progress that nobody is doing: a pending or running
      durable operation comes back only while a worker holds its claim. */
  lemma UnfinishedMeansClaimed(s: Store, id: OpId, limit: nat, io: DiskFaults)
    requires 1 <= limit && StoreInv(s) && id.Durable?
    requires Load(s, id, limit, io).result.Ok? && Load(s, id, limit, io).result.value.Some?
    ensures Unfinished(Load(s, id, limit, io).result.value.value.status) ==> id in s.active
  {
    hide Reflects, Trim, NextEvents, Cached, Load, Mirrors, Pinned, Journaled;
    LoadKeepsInv(s, id, limit, io);
    ReadGoesOn(s, Load(s, id, limit, io).store, id);
  }

  /** Recovery happens once: a second read of the same operation, however it goes, finds
      nothing more to write. */
  lemma RecoveryHappensOnce(s: Store, id: OpId, limit: nat, io: DiskFaults, again: DiskFaults)
    requires 1 <= limit && StoreInv(s) && id.Durable?
    requires Load(s, id, limit, io).result.Ok?
    ensures var t := Load(s, id, limit, io).store; var u := Load(t, id, limit, again).store;
      u.disk == t.disk && u.history == t.history
  {
    hide StoreInv, Load, InterruptedCopy, Reflects;
    LoadKeepsInv(s, id, limit, io);
    var r := Load(s, id, limit, io);
    LoadKeepsInv(r.store, id, limit, again);
    if r.result.value.Some? { ReadGoesOn(s, r.store, id); }
  }

  /** An operation turns interrupted only when a read or a submission of that very
      operation finds it unfinished and unclaimed. */
  lemma InterruptedOnlyByRecovery(w: World, step: Step, limit: nat, id: OpId)
    requires 1 <= limit && Inv(w)
    requires var op := Saved(Next(w, step, limit).store, id); op.Some? && op.value.status == Interrupted
    requires Saved(w.store, id).Some? ==> Saved(w.store, id).value.status != Interrupted
    ensures NeedsRecovery(w.store, id)
    ensures (step.Read? && step.id == id) || (step.Submit? && step.req.id == id)
  {
    hide StoreInv, WorkersInv, ClaimsInv, NeedsRecovery, Load, Update, Start, Publish, Cached, Trim;
    match step
    case Submit(req, now, io) => if !req.id.Remote? { SubmissionInterrupts(w.store, req, now, limit, io, id); }
    case Read(other, io) => ReadInterrupts(w.store, other, limit, io, id);
    case Begin(k, now, fails) => if At(w, k, Starting) { UpdateNeverInterrupts(w, k, BEGINNING, now, limit, fails, id); }
    case Report(k, patch, now, fails) =>
      if At(w, k, Working) {
        UpdateNeverInterrupts(w, k, ReportPatch(patch), now, limit, fails, id);
      }
    case Finish(k, outcome, now, fails) =>
      if At(w, k, Working) { UpdateNeverInterrupts(w, k, FinalPatch(outcome), now, limit, fails, id); }
    case Release(k) => if At(w, k, Releasing) { ReleaseHistory(w, k, limit); }
    case CompleteLocal(op) => LooseHistory(w, op, limit);
    case Register(op) => LooseHistory(w, op, limit);
    case _ =>
  }

  lemma SubmissionInterrupts(s: Store, req: Request, now: nat, limit: nat, io: DiskFaults, id: OpId)
    requires 1 <= limit && StoreInv(s) && !req.id.Remote?
    ensures var t := Start(s, req, now, limit, io).store;
      Saved(t, id).Some? && Saved(t, id).value.status == Interrupted ==>
        Saved(t, id) == Saved(s, id) || (id == req.id && NeedsRecovery(s, id))
  {
    hide StoreInv, Acceptances, Start, Lookup;
    StartKeepsInv(s, req, now, limit, io);
    var r := Start(s, req, now, limit, io);
    ClaimedIsKnown(r.store, req.id);
    if id != req.id {
      assert Untouched(s, r.store, id);
    }
  }

  lemma ReadInterrupts(s: Store, other: OpId, limit: nat, io: DiskFaults, id: OpId)
    requires 1 <= limit && StoreInv(s)
    ensures var t := Load(s, other, limit, io).store;
      Saved(t, id).Some? && Saved(t, id).value.status == Interrupted ==>
        Saved(t, id) == Saved(s, id) || (id == other && NeedsRecovery(s, id))
  {
    hide StoreInv, Load, Lookup;
    LoadKeepsInv(s, other, limit, io);
  }

  lemma UpdateNeverInterrupts(w: World, k: nat, patch: Patch, now: nat, limit: nat, fails: bool, id: OpId)
    requires 1 <= limit && Inv(w) && k in w.workers && k < |w.claims| && patch.status.Some?
    requires w.workers[k] == Starting || w.workers[k] == Working
    requires w.workers[k] == Starting ==> patch.status == Some(Running)
    requires patch.status.value == Running || patch.status.value == Failed
      || (patch.status.value == Completed && patch.percent == Some(100.0))
    ensures var t := Update(w.store, w.claims[k], patch, now, limit, fails).store;
      (Saved(t, id).Some? && Saved(t, id).value.status == Interrupted ==> Saved(t, id) == Saved(w.store, id))
  {
    hide StoreInv, WorkerPatch, Acceptances, Update;
    WorkerMay(w, k, patch);
    ClaimedIsKnown(w.store, w.claims[k]);
    UpdateKeepsInv(w.store, w.claims[k], patch, now, limit, fails);
  }

  /** A worker that reports on the claim it holds is always heard: the store knows its
      operation, and only a journal that cannot be written stops the report, whole. */
  lemma WorkerIsAlwaysHeard(w: World, k: nat, patch: Patch, now: nat, limit: nat, writeFails: bool)
    requires 1 <= limit && Inv(w) && At(w, k, Working) && patch.status == Some(Running)
    ensures var r := Update(w.store, w.claims[k], patch, now, limit, writeFails);
      && (r.result.Err? <==> w.claims[k].Durable? && writeFails)
      && (r.result.Err? ==> r.result.fault == StoreUnavailable && r.store == w.store)
      && (r.result.Ok? ==>
            r.result.value.status == Running
            && r.result.value.progress.percent >= w.store.cache.vals[w.claims[k]].progress.percent)
  {
    hide WorkerPatch, Acceptances, Reflects, Cached, NextEvents, Round;
    WorkerMay(w, k, patch);
    ClaimedIsKnown(w.store, w.claims[k]);
    UpdateKeepsInv(w.store, w.claims[k], patch, now, limit, writeFails);
  }
}
