/** Local operations: the values they are made of, and every locked region of
    operations.py as a function from one state of the store to the next. */
module Operations {
  import opened OrderedDicts

  /** The identifiers of operations. A durable one is the hash of the caller, the
      route and the Idempotency-Key (the hash is taken to be injective, so the three
      texts stand for it); a transient one is a fresh random identifier; a remote
      one belongs to Core and is no valid local path. */
  datatype OpId = Durable(principal: string, route: Route, key: string) | Transient(n: nat) | Remote(name: string)

  datatype Route = Preparation | CorrectedPreparation(fingerprint: string) | OtherRoute(path: string)

  datatype Status = Pending | Running | Interrupted | Completed | Failed | Cancelled | Canceled

  datatype Progress = Progress(percent: int, stage: string, caption: string, detail: string)

  datatype Problem = Problem(code: string, retryable: bool)

  datatype Operation = Operation(
    id: OpId, kind: string, status: Status, createdAt: nat, updatedAt: nat, options: map<string, string>,
    fingerprint: Option<string>, progress: Progress, result: Option<string>, error: Option<Problem>)

  datatype EventKind = Accepted | Progressed | CompletedEvent | FailedEvent | InterruptedEvent

  datatype Event = Event(sequence: int, kind: EventKind, data: Operation)

  /** One file of the journal. */
  datatype Receipt = Receipt(operation: Operation, events: seq<Event>)

  datatype Fault = StoreUnavailable | CorruptReceipt | ReceiptUnavailable | KeyReused | UnknownOperation | WorkerUnavailable

  datatype Outcome<+T> = Ok(value: T) | Err(fault: Fault)

  /** Which of the disk accesses of one locked region fail. */
  datatype DiskFaults = DiskFaults(readFails: bool, recoveryWriteFails: bool, publicationWriteFails: bool)

  /** The module-level dictionaries and sets, the journal on disk, and (a history
      variable, no part of the program) every event ever written for each identifier. */
  datatype Store = Store(
    cache: OrderedDict<OpId, Operation>, local: set<OpId>, durable: set<OpId>, active: set<OpId>,
    events: map<OpId, seq<Event>>, disk: map<OpId, Receipt>, history: map<OpId, seq<Event>>)

  /** How many events a receipt keeps. */
  const EVENT_CAP: nat := 200

  function LastN<T>(s: seq<T>, n: nat): seq<T> { if |s| <= n then s else s[|s| - n..] }

  function Lookup<T>(m: map<OpId, seq<T>>, id: OpId): seq<T> { if id in m then m[id] else [] }

  function Unfinished(status: Status): bool { status == Pending || status == Running }

  /** _next_events */
  function NextEvents(events: seq<Event>, kind: EventKind, data: Operation): (r: seq<Event>)
    ensures 0 < |r| <= EVENT_CAP && r[|r| - 1].kind == kind && r[|r| - 1].data == data
  {
    var sequence := if events == [] then 1 else events[|events| - 1].sequence + 1;
    LastN(events, EVENT_CAP - 1) + [Event(sequence, kind, data)]
  }

  // ---- the bounded cache -------------------------------------------------------------

  function FirstUnclaimed(keys: seq<OpId>, active: set<OpId>): Option<OpId> {
    if keys == [] then None else if keys[0] !in active then Some(keys[0]) else FirstUnclaimed(keys[1..], active)
  }

  function Evict(s: Store, id: OpId): Store {
    s.(cache := s.cache.Remove(id), durable := s.durable - {id}, local := s.local - {id}, events := s.events - {id})
  }

  /** _trim_cache_locked */
  function Trim(s: Store, limit: nat): Store
    decreases |s.cache.keys|
  {
    if |s.cache.keys| - |s.active| > limit then
      match FirstUnclaimed(s.cache.keys, s.active)
      case None => s
      case Some(id) =>
        FirstUnclaimedFound(s.cache.keys, s.active);
        Shrinks(s.cache.keys, id);
        Trim(Evict(s, id), limit)
    else s
  }

  lemma {:induction false} FirstUnclaimedFound(keys: seq<OpId>, active: set<OpId>)
    ensures match FirstUnclaimed(keys, active)
      case None => forall id | id in keys :: id in active
      case Some(id) => id in keys && id !in active
  {
    if keys != [] && keys[0] in active {
      FirstUnclaimedFound(keys[1..], active);
      assert keys == [keys[0]] + keys[1..];
    }
  }

  lemma {:induction false} Shrinks(keys: seq<OpId>, id: OpId)
    requires id in keys
    ensures |Without(keys, id)| < |keys|
  {
    if keys[0] != id { Shrinks(keys[1..], id); }
  }

  function Touched(s: Store, op: Operation): Store { s.(cache := s.cache.Put(op.id, op).MoveToEnd(op.id)) }

  /** _store_operation_locked */
  function Cached(s: Store, op: Operation, limit: nat): Store { Trim(Touched(s, op), limit) }

  // ---- the journal --------------------------------------------------------------------

  /** A successful operation_journal.write: the file is replaced, and the newest event
      joins the history. */
  function Written(s: Store, receipt: Receipt): Store
    requires receipt.events != []
  {
    var id := receipt.operation.id;
    s.(disk := s.disk[id := receipt],
       history := s.history[id := Lookup(s.history, id) + [receipt.events[|receipt.events| - 1]]])
  }

  /** What a read finds when the saved work has no live claim. */
  function InterruptedCopy(op: Operation): Operation {
    op.(status := Interrupted,
        progress := Progress(op.progress.percent, "reconcile", "Reconnect work",
                             "The API restarted. Resubmit the same request to reconcile its result."))
  }

  function Recovered(receipt: Receipt, claimed: bool): Receipt {
    if Unfinished(receipt.operation.status) && !claimed then
      var op := InterruptedCopy(receipt.operation);
      Receipt(op, NextEvents(receipt.events, InterruptedEvent, op))
    else receipt
  }

  datatype Loaded = Loaded(store: Store, result: Outcome<Option<Operation>>)

  /** _load_durable_operation_locked */
  function Load(s: Store, id: OpId, limit: nat, io: DiskFaults): Loaded {
    if id in s.cache.vals && id !in s.durable then Loaded(s, Ok(Some(s.cache.vals[id])))
    else if id.Remote? then Loaded(s, Ok(None))
    else if io.readFails then Loaded(s, Err(StoreUnavailable))
    else if id !in s.disk then Loaded(s, if id in s.durable then Err(ReceiptUnavailable) else Ok(None))
    else
      var saved := Receipt(s.disk[id].operation, LastN(s.disk[id].events, EVENT_CAP));
      var recover := Unfinished(saved.operation.status) && id !in s.active;
      var receipt := Recovered(saved, id in s.active);
      if recover && io.recoveryWriteFails then Loaded(s, Err(StoreUnavailable))
      else
        var s1 := if recover then Written(s, receipt) else s;
        var s2 := s1.(local := s1.local + {id}, durable := s1.durable + {id}, events := s1.events[id := receipt.events]);
        Loaded(Cached(s2, receipt.operation, limit), Ok(Some(receipt.operation)))
  }

  // ---- publication --------------------------------------------------------------------

  datatype Published = Published(store: Store, result: Outcome<Operation>)

  /** _publish_locked: the journal first, memory only after it. */
  function Publish(s: Store, op: Operation, kind: EventKind, durable: bool, limit: nat, writeFails: bool): Published {
    var events := NextEvents(Lookup(s.events, op.id), kind, op);
    if durable && writeFails then Published(s, Err(StoreUnavailable))
    else
      var s1 := if durable then Written(s, Receipt(op, events)).(durable := s.durable + {op.id}) else s;
      var s2 := s1.(local := s1.local + {op.id}, events := s1.events[op.id := events]);
      Published(Cached(s2, op, limit), Ok(op))
  }

  // ---- progress -----------------------------------------------------------------------

  /** Python's round: to the nearest integer, halves to the even one. */
  function Round(x: real): int {
    var f := x.Floor;
    var d := x - f as real;
    if d < 0.5 then f else if d > 0.5 then f + 1 else if f % 2 == 0 then f else f + 1
  }

  function Max(a: int, b: int): int { if a < b then b else a }
  function Min(a: int, b: int): int { if a < b then a else b }

  /** The arguments of update_local_operation; an empty text stands for one not given. */
  datatype Patch = Patch(status: Option<Status>, percent: Option<real>, stage: string, caption: string, detail: string,
                         result: Option<string>, error: Option<Problem>)

  function PatchedProgress(p: Progress, patch: Patch): Progress {
    Progress(
      if patch.percent.Some? then Max(p.percent, Max(0, Min(100, Round(patch.percent.value)))) else p.percent,
      if patch.stage != "" then patch.stage else p.stage,
      if patch.caption != "" then patch.caption else p.caption,
      if patch.detail != "" then patch.detail else p.detail)
  }

  function Patched(op: Operation, patch: Patch, now: nat): Operation {
    op.(status := if patch.status.Some? then patch.status.value else op.status,
        progress := PatchedProgress(op.progress, patch),
        result := if patch.result.Some? then patch.result else op.result,
        error := if patch.error.Some? then patch.error else op.error,
        updatedAt := now)
  }

  function UpdateKind(op: Operation): EventKind {
    if op.status == Completed then CompletedEvent else if op.status == Failed then FailedEvent else Progressed
  }

  /** update_local_operation */
  function Update(s: Store, id: OpId, patch: Patch, now: nat, limit: nat, writeFails: bool): Published {
    if id !in s.cache.vals || id !in s.local then Published(s, Err(UnknownOperation))
    else
      var op := Patched(s.cache.vals[id], patch, now);
      Publish(s, op, UpdateKind(op), id in s.durable, limit, writeFails)
  }

  // ---- submission ---------------------------------------------------------------------

  datatype Request = Request(id: OpId, kind: string, options: map<string, string>, fingerprint: Option<string>, retryFailed: bool)

  function Fresh(req: Request, now: nat): Operation {
    Operation(req.id, req.kind, Pending, now, now, req.options, req.fingerprint,
              Progress(0, "queued", "Queued", "The operation is queued on the local API host."), None, None)
  }

  /** An existing operation is returned as it is: done, failed for good, or under way. */
  function Settled(op: Operation, retryFailed: bool, claimed: bool): bool {
    || op.status == Completed
    || (op.status == Failed && !(op.error.Some? && op.error.value.retryable) && !retryFailed)
    || claimed
  }

  datatype Submission = Submission(store: Store, result: Outcome<Operation>, claimed: bool)

  /** The operation a new attempt publishes; it keeps what the first acceptance fixed. */
  function Attempt(existing: Option<Operation>, req: Request, now: nat): Operation {
    if existing.None? then Fresh(req, now)
    else Fresh(req, now).(createdAt := existing.value.createdAt, options := existing.value.options)
  }

  /** start_local_operation once the existing operation is known. */
  function Admit(s: Store, existing: Option<Operation>, req: Request, now: nat, limit: nat, writeFails: bool): Submission {
    if existing.Some? && req.fingerprint.Some? && existing.value.fingerprint != req.fingerprint then
      Submission(s, Err(KeyReused), false)
    else if existing.Some? && Settled(existing.value, req.retryFailed, req.id in s.active) then
      Submission(s, Ok(existing.value), false)
    else
      var pinned := s.(active := s.active + {req.id});
      var published := Publish(pinned, Attempt(existing, req, now), Accepted, req.id.Durable?, limit, writeFails);
      if published.result.Ok? then Submission(published.store, published.result, true)
      else Submission(s, published.result, false)
  }

  /** The locked region of start_local_operation. Durable identifiers, and only they,
      are submitted with durable=True. */
  function Start(s: Store, req: Request, now: nat, limit: nat, io: DiskFaults): Submission {
    var found :=
      if req.id.Durable? then Load(s, req.id, limit, io)
      else Loaded(s, Ok(if req.id in s.cache.vals then Some(s.cache.vals[req.id]) else None));
    match found.result
    case Err(fault) => Submission(found.store, Err(fault), false)
    case Ok(existing) => Admit(found.store, existing, req, now, limit, io.publicationWriteFails)
  }

  /** Giving a claim up: the worker's last act, or a thread that could not start. */
  function Unclaimed(s: Store, id: OpId): Store { s.(active := s.active - {id}) }
}
