/** The journal and the operation store as the program has them: objects whose methods
    update dictionaries, sets and files in place. Each method is one locked region, and
    does to the store what its specification function does to the store's value. */
module OperationStore {
  import opened OrderedDicts
  import opened Operations
  import opened OperationCache
  import opened OperationHistory
  import opened OperationRuns
  import opened OperationAdmissions
  import opened OperationJournal

  /** What a read of a file yields. */
  datatype ReadResult = Absent | Found(operation: map<Name, Json>, events: seq<Json>) | Unreadable(fault: Fault)

  /** operation_journal.read */
  ghost function Reading(files: map<OpId, Option<Json>>, id: OpId, readFails: bool): ReadResult {
    if readFails then Unreadable(StoreUnavailable)
    else if id !in files then Absent
    else if files[id].Some? && GoodRecord(files[id].value, id) then
      Found(files[id].value.members[OperationName].members, LastN(files[id].value.members[EventsName].items, EVENT_CAP))
    else Unreadable(CorruptReceipt)
  }

  /** Every file is readable. */
  ghost predicate Intact(files: map<OpId, Option<Json>>) {
    forall id | id in files :: files[id].Some? && GoodRecord(files[id].value, id)
  }

  /** The saved receipts, for files a publisher wrote. */
  ghost function Receipts(files: map<OpId, Option<Json>>): map<OpId, Receipt> {
    map id | id in files && files[id].Some? && GoodRecord(files[id].value, id) ::
      Receipt(DecodeOperation(files[id].value.members[OperationName].members),
              DecodeEvents(LastN(files[id].value.members[EventsName].items, EVENT_CAP)))
  }

  /** Writing a receipt that reflects some history changes the saved receipts by just that one. */
  lemma WroteReceipt(files: map<OpId, Option<Json>>, receipt: Receipt, h: seq<Event>)
    requires Intact(files) && Reflects(receipt, h, receipt.operation.id)
    ensures var written := files[receipt.operation.id := Some(EncodeReceipt(receipt))];
      Intact(written) && Receipts(written) == Receipts(files)[receipt.operation.id := receipt]
  {
    hide GoodRecord, DecodeOperation, DecodeEvents, EncodeReceipt, Reflects, LastN;
    ReceiptReadsBack(receipt, h, receipt.operation.id);
  }

  /** What a read of intact files yields is the saved receipt, unless the disk fails. */
  lemma ReadingOfIntact(files: map<OpId, Option<Json>>, id: OpId, readFails: bool)
    requires Intact(files)
    ensures match Reading(files, id, readFails)
      case Unreadable(fault) => readFails && fault == StoreUnavailable
      case Absent => !readFails && id !in Receipts(files)
      case Found(o, e) => !readFails && id in Receipts(files) && Receipts(files)[id] == Receipt(DecodeOperation(o), DecodeEvents(e))
  {
    hide GoodRecord, DecodeOperation, DecodeEvents;
  }

  class Journal {
    /** The files by operation; None stands for content that is no JSON. */
    var files: map<OpId, Option<Json>>

    constructor ()
      ensures files == map[]
    {
      files := map[];
    }

    /** Validates the record and keeps the newest events. */
    method Read(id: OpId, readFails: bool) returns (r: ReadResult)
      ensures r == Reading(files, id, readFails)
    {
      if readFails { return Unreadable(StoreUnavailable); }
      if id !in files { return Absent; }
      if files[id].None? { return Unreadable(CorruptReceipt); }
      var record := files[id].value;
      if !(record.JObj? && OperationName in record.members && record.members[OperationName].JObj?
           && GoodOperation(record.members[OperationName].members, id)
           && EventsName in record.members && record.members[EventsName].JArr?) {
        return Unreadable(CorruptReceipt);
      }
      var events := record.members[EventsName].items;
      var previous := 0;
      var i := 0;
      while i < |events|
        invariant 0 <= i <= |events|
        invariant GoodEvents(events[..i])
        invariant previous == if i == 0 then 0 else events[i - 1].members[SequenceName].n
      {
        var event := events[i];
        assert GoodEvents(events) ==> GoodEvent(event) && previous < event.members[SequenceName].n;
        if !GoodEvent(event) || event.members[SequenceName].n <= previous {
          return Unreadable(CorruptReceipt);
        }
        previous := event.members[SequenceName].n;
        i := i + 1;
      }
      assert events[..i] == events;
      return Found(record.members[OperationName].members, LastN(events, EVENT_CAP));
    }

    /** Replaces the file, or fails and leaves it as it was. */
    method Write(receipt: Receipt, writeFails: bool) returns (ok: bool)
      modifies this
      ensures ok == !writeFails
      ensures files == if writeFails then old(files) else old(files)[receipt.operation.id := Some(EncodeReceipt(receipt))]
    {
      if writeFails { return false; }
      files := files[receipt.operation.id := Some(EncodeReceipt(receipt))];
      return true;
    }
  }

  /** The module-level state of operations.py, over one journal. */
  class LocalOperations {
    const limit: nat
    const journal: Journal
    var cache: OrderedDict<OpId, Operation>
    var local: set<OpId>
    var durable: set<OpId>
    var active: set<OpId>
    var events: map<OpId, seq<Event>>
    /** Every event ever written; for the proofs only. */
    ghost var history: map<OpId, seq<Event>>

    ghost function View(): Store
      reads this, journal
    {
      Store(cache, local, durable, active, events, Receipts(journal.files), history)
    }

    ghost predicate Valid()
      reads this, journal
    {
      1 <= limit && Intact(journal.files) && StoreInv(View())
    }

    constructor (limit: nat)
      requires 1 <= limit
      ensures Valid() && fresh(journal) && View() == Initial.store
    {
      this.limit := limit;
      journal := new Journal();
      cache, local, durable, active, events := Empty(), {}, {}, {}, map[];
      history := map[];
    }

    /** _trim_cache_locked */
    method TrimCache()
      modifies this`cache, this`local, this`durable, this`events
      ensures View() == Trim(old(View()), limit)
    {
      while |cache.keys| - |active| > limit
        invariant Trim(View(), limit) == Trim(old(View()), limit)
        decreases |cache.keys|
      {
        var removed := FirstUnclaimed(cache.keys, active);
        FirstUnclaimedFound(cache.keys, active);
        if removed.None? { break; }
        Shrinks(cache.keys, removed.value);
        cache := cache.Remove(removed.value);
        durable := durable - {removed.value};
        local := local - {removed.value};
        events := events - {removed.value};
      }
    }

    /** _store_operation_locked */
    method StoreOperation(op: Operation)
      modifies this`cache, this`local, this`durable, this`events
      ensures View() == Cached(old(View()), op, limit)
    {
      cache := cache.Put(op.id, op).MoveToEnd(op.id);
      TrimCache();
    }

    /** A write to the journal, as the value of the store sees it. */
    method WriteReceipt(receipt: Receipt, writeFails: bool) returns (ok: bool)
      requires Intact(journal.files) && receipt.events != []
      requires Reflects(receipt, Lookup(history, receipt.operation.id) + [receipt.events[|receipt.events| - 1]], receipt.operation.id)
      modifies this`history, journal
      ensures Intact(journal.files) && ok == !writeFails
      ensures View() == if ok then Written(old(View()), receipt) else old(View())
    {
      ok := journal.Write(receipt, writeFails);
      if ok {
        ghost var longer := Lookup(history, receipt.operation.id) + [receipt.events[|receipt.events| - 1]];
        WroteReceipt(old(journal.files), receipt, longer);
        history := history[receipt.operation.id := longer];
      }
    }

    /** _publish_locked: a durable operation is on disk before memory shows it. */
    method PublishOperation(op: Operation, kind: EventKind, toDisk: bool, writeFails: bool) returns (r: Outcome<Operation>)
      requires Intact(journal.files)
      requires toDisk ==> Publishable(View(), op, kind)
      modifies this`cache, this`local, this`durable, this`events, this`history, journal
      ensures Intact(journal.files)
      ensures View() == Publish(old(View()), op, kind, toDisk, limit, writeFails).store
      ensures r == Publish(old(View()), op, kind, toDisk, limit, writeFails).result
    {
      hide NextEvents, Reflects, Trim, StoreInv, Publishable, Receipts;
      var next := NextEvents(Lookup(events, op.id), kind, op);
      if toDisk {
        PublicationReflects(View(), op, kind);
        var ok := WriteReceipt(Receipt(op, next), writeFails);
        if !ok { return Err(StoreUnavailable); }
        durable := durable + {op.id};
      }
      local := local + {op.id};
      events := events[op.id := next];
      StoreOperation(op);
      return Ok(op);
    }

    /** _load_durable_operation_locked */
    method LoadOperation(id: OpId, io: DiskFaults) returns (r: Outcome<Option<Operation>>)
      requires Valid()
      modifies this`cache, this`local, this`durable, this`events, this`history, journal
      ensures Valid()
      ensures View() == Load(old(View()), id, limit, io).store
      ensures r == Load(old(View()), id, limit, io).result
    {
      hide NextEvents, Reflects, Trim, StoreInv, Legal, Intact, Receipts, Load, Cached, DecodeOperation, DecodeEvents, Reading, InterruptedCopy;
      ghost var s := View();
      LoadKeepsInv(s, id, limit, io);
      LoadMisses(s, id, limit, io);
      if id in cache.vals && id !in durable { return Ok(Some(cache.vals[id])); }
      if id.Remote? { return Ok(None); }
      ReadingOfIntact(journal.files, id, io.readFails);
      var record := journal.Read(id, io.readFails);
      match record {
        case Unreadable(fault) =>
          return Err(fault);
        case Absent =>
          return if id in durable then Err(ReceiptUnavailable) else Ok(None);
        case Found(operation, saved) =>
          LoadUnfolds(s, id, limit, io);
          SavedParts(s, id);
          var op, newest := DecodeOperation(operation), DecodeEvents(saved);
          if Unfinished(op.status) && id !in active {
            RecoveryReflects(s, id);
            InterruptedIsFinished(op);
            op := InterruptedCopy(op);
            newest := NextEvents(newest, InterruptedEvent, op);
            var ok := WriteReceipt(Receipt(op, newest), io.recoveryWriteFails);
            if !ok { return Err(StoreUnavailable); }
          }
          local := local + {id};
          durable := durable + {id};
          events := events[id := newest];
          StoreOperation(op);
          return Ok(Some(op));
      }
    }

    /** update_local_operation: an operation that is not known here is refused; one that is
        known is updated by whoever holds its claim. */
    method UpdateOperation(id: OpId, patch: Patch, now: nat, writeFails: bool) returns (r: Outcome<Operation>)
      requires Valid()
      requires id in cache.vals && id in local ==>
                 && id in active && !id.Remote?
                 && (id.Durable? ==> id in View().disk && WorkerPatch(View().disk[id].operation, patch))
      modifies this`cache, this`local, this`durable, this`events, this`history, journal
      ensures Valid()
      ensures View() == Update(old(View()), id, patch, now, limit, writeFails).store
      ensures r == Update(old(View()), id, patch, now, limit, writeFails).result
      ensures old(id !in cache.vals || id !in local) ==> r == Err(UnknownOperation) && View() == old(View())
    {
      hide NextEvents, Reflects, Trim, StoreInv, Legal, Intact, Receipts, Cached, WorkerPatch, Publishable, Patched, UpdateKind, Publish;
      ghost var s := View();
      if id !in cache.vals || id !in local { return Err(UnknownOperation); }
      UpdateKeepsInv(s, id, patch, now, limit, writeFails);
      UpdateIsPublishable(s, id, patch, now);
      var updated := Patched(cache.vals[id], patch, now);
      r := PublishOperation(updated, UpdateKind(updated), id in durable, writeFails);
    }

    /** start_local_operation once the existing operation is known: refuse, return it, or
        pin the claim and publish the acceptance, giving the pin up if that fails. */
    method AdmitOperation(existing: Option<Operation>, req: Request, now: nat, writeFails: bool)
      returns (r: Outcome<Operation>, claimed: bool)
      requires Valid() && !req.id.Remote?
      requires req.id.Transient? ==> existing == if req.id in cache.vals then Some(cache.vals[req.id]) else None
      requires req.id.Durable? ==>
        existing == Saved(View(), req.id) && (req.id in View().disk ==> req.id in durable && !NeedsRecovery(View(), req.id))
      modifies this, journal
      ensures Intact(journal.files)
      ensures View() == Admit(old(View()), existing, req, now, limit, writeFails).store
      ensures r == Admit(old(View()), existing, req, now, limit, writeFails).result
      ensures claimed == Admit(old(View()), existing, req, now, limit, writeFails).claimed
      ensures r == Err(KeyReused) <==> existing.Some? && OtherBody(existing.value, req)
      ensures r == Err(KeyReused) ==> !claimed && View() == old(View())
      ensures claimed ==> existing.Some? ==> !OtherBody(existing.value, req) && !Stands(existing.value, req, old(req.id in active))
    {
      hide NextEvents, Reflects, Trim, StoreInv, Legal, Intact, Receipts, Cached, Publish, Publishable, Attempt;
      if existing.Some? {
        if req.fingerprint.Some? && existing.value.fingerprint != req.fingerprint { return Err(KeyReused), false; }
        if Settled(existing.value, req.retryFailed, req.id in active) { return Ok(existing.value), false; }
      }
      AdmissionIsPublishable(View(), existing, req, now);
      ghost var s := View();
      PublishFails(s.(active := active + {req.id}), Attempt(existing, req, now), Accepted, limit);
      active := active + {req.id};
      r := PublishOperation(Attempt(existing, req, now), Accepted, req.id.Durable?, writeFails);
      claimed := r.Ok?;
      if !claimed {
        active := active - {req.id};
        assert active == s.active;
      }
    }

    /** The locked region of start_local_operation; `claimed` tells whether a worker must be started. */
    method StartOperation(req: Request, now: nat, io: DiskFaults) returns (r: Outcome<Operation>, claimed: bool)
      requires Valid() && !req.id.Remote?
      modifies this, journal
      ensures Valid()
      ensures View() == Start(old(View()), req, now, limit, io).store
      ensures r == Start(old(View()), req, now, limit, io).result
      ensures claimed == Start(old(View()), req, now, limit, io).claimed
      ensures old(req.id in View().disk && Readable(View(), req.id, io)) ==>
                var saved := old(View()).disk[req.id].operation; var stands := Stands(saved, req, old(req.id in active));
                && (r == Err(KeyReused) <==> OtherBody(saved, req))
                && (r.Ok? && !claimed <==> !OtherBody(saved, req) && stands)
                && (claimed <==> !OtherBody(saved, req) && !stands && !io.publicationWriteFails)
    {
      hide NextEvents, Reflects, Trim, StoreInv, Legal, Intact, Receipts, Cached, Load, Admit, OtherBody, Stands, AcceptedIn, IsAttempt;
      ghost var s := View();
      if req.id in s.disk && Readable(s, req.id, io) { SubmissionIsExact(s, req, now, limit, io); }
      StartKeepsInv(s, req, now, limit, io);
      var existing := if req.id in cache.vals then Some(cache.vals[req.id]) else None;
      if req.id.Durable? {
        var loaded := LoadOperation(req.id, io);
        if loaded.Err? { return Err(loaded.fault), false; }
        AfterLoad(s, req.id, limit, io);
        existing := loaded.value;
      }
      r, claimed := AdmitOperation(existing, req, now, io.publicationWriteFails);
    }

    /** A worker's last act, or (without the trim) the answer to a thread that did not start. */
    method ReleaseClaim(id: OpId, trim: bool)
      requires Valid()
      modifies this`cache, this`local, this`durable, this`events, this`active
      ensures Valid()
      ensures View() == if trim then Trim(Unclaimed(old(View()), id), limit) else Unclaimed(old(View()), id)
    {
      hide Reflects, Trim;
      InvWithoutClaim(View(), id);
      active := active - {id};
      TrimKeepsInv(View(), limit);
      if trim { TrimCache(); }
    }
  }

  lemma UpdateIsPublishable(s: Store, id: OpId, patch: Patch, now: nat)
    requires StoreInv(s) && id in s.active && !id.Remote?
    requires id.Durable? ==> id in s.disk && WorkerPatch(s.disk[id].operation, patch)
    ensures id in s.cache.vals && id in s.local && (id in s.durable <==> id.Durable?)
    ensures var op := Patched(s.cache.vals[id], patch, now); id.Durable? ==> Publishable(s, op, UpdateKind(op))
  {
    hide Legal, Follows, LastN, Reflects, PatchedProgress, UpdateKind;
    InvWithoutClaim(s, id);
    if id.Durable? {
      SavedParts(s, id);
      LastPercent(s, id);
      PatchFollows(s.disk[id].operation, patch, now, |s.history[id]| + 1);
    }
  }

  lemma AfterLoad(s: Store, id: OpId, limit: nat, io: DiskFaults)
    requires 1 <= limit && StoreInv(s) && id.Durable? && Load(s, id, limit, io).result.Ok?
    ensures var t := Load(s, id, limit, io).store;
      && StoreInv(t) && Load(s, id, limit, io).result.value == Saved(t, id)
      && (id in t.disk ==> id in t.durable && !NeedsRecovery(t, id))
  {
    hide StoreInv, Load, InterruptedCopy;
    LoadKeepsInv(s, id, limit, io);
    if Load(s, id, limit, io).result.value.Some? { ReadGoesOn(s, Load(s, id, limit, io).store, id); }
  }

  /** A submission that is neither refused nor settled may publish its acceptance. */
  lemma AdmissionIsPublishable(s: Store, existing: Option<Operation>, req: Request, now: nat)
    requires StoreInv(s) && !req.id.Remote?
    requires existing.Some? ==> !Settled(existing.value, req.retryFailed, req.id in s.active)
    requires existing.Some? && req.fingerprint.Some? ==> existing.value.fingerprint == req.fingerprint
    requires req.id.Transient? ==> existing == if req.id in s.cache.vals then Some(s.cache.vals[req.id]) else None
    requires req.id.Durable? ==>
      existing == Saved(s, req.id) && (req.id in s.disk ==> req.id in s.durable && !NeedsRecovery(s, req.id))
    ensures req.id !in s.active
    ensures req.id.Durable? ==> Publishable(s.(active := s.active + {req.id}), Attempt(existing, req, now), Accepted)
  {
    hide StoreInv, Legal, LastN;
    ClaimedIsKnown(s, req.id);
    var pinned := s.(active := s.active + {req.id});
    assert req.id !in s.active;
    assert pinned.(active := pinned.active - {req.id}) == s;
    if req.id in s.disk { SavedParts(s, req.id); }
  }

  lemma LoadMisses(s: Store, id: OpId, limit: nat, io: DiskFaults)
    ensures id in s.cache.vals && id !in s.durable ==> Load(s, id, limit, io) == Loaded(s, Ok(Some(s.cache.vals[id])))
    ensures !(id in s.cache.vals && id !in s.durable) ==>
      && (id.Remote? ==> Load(s, id, limit, io) == Loaded(s, Ok(None)))
      && (!id.Remote? && io.readFails ==> Load(s, id, limit, io) == Loaded(s, Err(StoreUnavailable)))
      && (!id.Remote? && !io.readFails && id !in s.disk ==>
            Load(s, id, limit, io) == Loaded(s, if id in s.durable then Err(ReceiptUnavailable) else Ok(None)))
  {}
}
