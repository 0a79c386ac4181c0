/** Asynchronous Job preparation on top of the operation store: the Job identity that
    the first accepted request of a key reserves is the one every later request, every
    corrected retry and every worker uses. */
module JobPreparations {
  import opened OrderedDicts
  import opened Operations
  import opened OperationHistory
  import opened OperationRuns
  import opened OperationTheorems
  import opened OperationAdmissions

  /** A JobCreate request as the route sees it. */
  datatype JobRequest = JobRequest(
    principal: string, key: string, fingerprint: string, definition: string, jobId: Option<string>, generated: string)

  /** A request between its look at the previous operation and its submission. */
  datatype InFlight = InFlight(target: OpId, fingerprint: string, definition: string, job: string)

  datatype Api = Api(world: World, inFlight: seq<InFlight>)

  datatype ApiStep =
    | System(step: Step)
    | LookUp(request: JobRequest, io: DiskFaults)          // prepare_job up to the choice of the Job identity
    | Accept(index: nat, now: nat, io: DiskFaults)         // its start_local_operation

  /** _identity for the two routes of preparations. */
  function PreparationId(principal: string, key: string): OpId { Durable(principal, Preparation, key) }
  function CorrectionId(principal: string, key: string, fingerprint: string): OpId {
    Durable(principal, CorrectedPreparation(fingerprint), key)
  }

  predicate IsPreparation(id: OpId) { id.Durable? && !id.route.OtherRoute? }

  /** The operations of one caller's key: the original and all its corrections. */
  predicate BelongsTo(id: OpId, principal: string, key: string) {
    IsPreparation(id) && id.principal == principal && id.key == key
  }

  function Get(options: map<string, string>, name: string): string { if name in options then options[name] else "" }

  function Reserved(options: map<string, string>): string { Get(options, "job_id") }

  function Options(job: string, definition: string): map<string, string> {
    map["job_id" := job, "definition_fingerprint" := definition]
  }

  /** prepare_job after its look at the previous operation; None is a 409. */
  function Choose(request: JobRequest, previous: Option<Operation>): Option<InFlight> {
    var proposal := if request.jobId.Some? && request.jobId.value != "" then request.jobId.value else request.generated;
    var id := PreparationId(request.principal, request.key);
    if previous.None? then Some(InFlight(id, request.fingerprint, request.definition, proposal))
    else
      var saved := Reserved(previous.value.options);
      var job := if saved != "" then saved else proposal;
      if previous.value.fingerprint == Some(request.fingerprint) then
        Some(InFlight(id, request.fingerprint, request.definition, job))
      else if previous.value.status == Failed && Get(previous.value.options, "definition_fingerprint") == request.definition then
        Some(InFlight(CorrectionId(request.principal, request.key, request.fingerprint), request.fingerprint, request.definition, job))
      else None
  }

  function SubmissionOf(f: InFlight): Request {
    Request(f.target, "prepare_job", Options(f.job, f.definition), Some(f.fingerprint), true)
  }

  function ApiNext(a: Api, step: ApiStep, limit: nat): Api {
    match step
    case System(s) => if s.Submit? && IsPreparation(s.req.id) then a else a.(world := Next(a.world, s, limit))
    case LookUp(request, io) =>
      var id := PreparationId(request.principal, request.key);
      var found := Load(a.world.store, id, limit, io).result;
      var chosen := if found.Ok? then Choose(request, found.value) else None;
      Api(Next(a.world, Read(id, io), limit), if chosen.Some? then a.inFlight + [chosen.value] else a.inFlight)
    case Accept(i, now, io) =>
      if i < |a.inFlight| then a.(world := Next(a.world, Submit(SubmissionOf(a.inFlight[i]), now, io), limit)) else a
  }

  function ApiRun(a: Api, steps: seq<ApiStep>, limit: nat): Api
    decreases |steps|
  {
    if steps == [] then a else ApiRun(ApiNext(a, steps[0], limit), steps[1..], limit)
  }

  // ---- the invariant ------------------------------------------------------------------

  /** The options of a preparation: they name a Job and a definition, and nothing else. */
  ghost predicate Names(options: map<string, string>) {
    Reserved(options) != "" && options == Options(Reserved(options), Get(options, "definition_fingerprint"))
  }

  /** A corrected operation, accepted or about to be, has the options of its original: the
      Job it reserved and the definition it was for. */
  ghost predicate AgreesWithOriginal(s: Store, id: OpId, options: map<string, string>)
    requires IsPreparation(id)
  {
    var original := PreparationId(id.principal, id.key);
    original in s.disk && s.disk[original].operation.options == options
  }

  ghost predicate Agreement(s: Store) {
    && (forall id | id in s.disk && IsPreparation(id) :: Names(s.disk[id].operation.options))
    && (forall id | id in s.disk && IsPreparation(id) && id.route.CorrectedPreparation? ::
          AgreesWithOriginal(s, id, s.disk[id].operation.options))
  }

  ghost predicate ProposalsAgree(a: Api) {
    forall i | 0 <= i < |a.inFlight| ::
      var f := a.inFlight[i];
      && IsPreparation(f.target) && f.job != ""
      && (f.target.route.CorrectedPreparation? ==> AgreesWithOriginal(a.world.store, f.target, Options(f.job, f.definition)))
  }

  ghost predicate ApiInv(a: Api) { Inv(a.world) && Agreement(a.world.store) && ProposalsAgree(a) }

  // ---- options are frozen by the first acceptance --------------------------------------

  ghost predicate OptionsFrozen(s: Store, t: Store) {
    forall id | id in s.disk :: id in t.disk && t.disk[id].operation.options == s.disk[id].operation.options
  }

  lemma GrowthFreezesOptions(s: Store, t: Store)
    requires Journaled(s) && Journaled(t) && Grew(s, t)
    ensures OptionsFrozen(s, t)
  {
    hide Legal;
    forall id | id in s.disk ensures id in t.disk && t.disk[id].operation.options == s.disk[id].operation.options {
      var h, g := s.history[id], Lookup(t.history, id);
      assert Reflects(s.disk[id], h, id);
      assert h <= g;
      LegalNumbers(h);
      assert Reflects(t.disk[id], g, id);
      IdentityNeverChanges(h, |h| - 1);
      IdentityNeverChanges(g, |g| - 1);
    }
  }

  /** A file appears only when its own submission is accepted, with the options proposed. */
  lemma NewFilesAreAccepted(w: World, step: Step, limit: nat, id: OpId)
    requires 1 <= limit && Inv(w) && id !in w.store.disk && id in Next(w, step, limit).store.disk
    ensures step.Submit? && step.req.id == id
    ensures Next(w, step, limit).store.disk[id].operation.options == step.req.options
  {
    hide StoreInv, WorkersInv, ClaimsInv, Load, Update, Start, Publish, Cached, Trim, Acceptances, NewAttempt, WorkerPatch;
    match step
    case Submit(req, now, io) => if !req.id.Remote? { SubmissionFiles(w.store, req, now, limit, io, id); }
    case Read(other, io) => LoadKeepsInv(w.store, other, limit, io);
    case Begin(k, now, fails) => if At(w, k, Starting) { UpdateFiles(w, k, BEGINNING, now, limit, fails); }
    case Report(k, patch, now, fails) => if At(w, k, Working) { UpdateFiles(w, k, ReportPatch(patch), now, limit, fails); }
    case Finish(k, outcome, now, fails) => if At(w, k, Working) { UpdateFiles(w, k, FinalPatch(outcome), now, limit, fails); }
    case Release(k) => if At(w, k, Releasing) { ReleaseHistory(w, k, limit); }
    case CompleteLocal(op) => LooseHistory(w, op, limit);
    case Register(op) => LooseHistory(w, op, limit);
    case _ =>
  }

  lemma SubmissionFiles(s: Store, req: Request, now: nat, limit: nat, io: DiskFaults, id: OpId)
    requires 1 <= limit && StoreInv(s) && !req.id.Remote? && id !in s.disk && id in Start(s, req, now, limit, io).store.disk
    ensures req.id == id && Start(s, req, now, limit, io).store.disk[id].operation.options == req.options
  {
    hide StoreInv, Start, Acceptances, NewAttempt;
    StartKeepsInv(s, req, now, limit, io);
    var r := Start(s, req, now, limit, io);
    ClaimedIsKnown(r.store, id);
    assert !Untouched(s, r.store, id);
  }

  lemma UpdateFiles(w: World, k: nat, patch: Patch, now: nat, limit: nat, fails: bool)
    requires 1 <= limit && Inv(w) && k in w.workers && k < |w.claims| && patch.status.Some?
    requires w.workers[k] == Starting || w.workers[k] == Working
    requires w.workers[k] == Starting ==> patch.status == Some(Running)
    requires patch.status.value == Running || patch.status.value == Failed
      || (patch.status.value == Completed && patch.percent == Some(100.0))
    ensures Update(w.store, w.claims[k], patch, now, limit, fails).store.disk.Keys == w.store.disk.Keys
  {
    hide StoreInv, WorkerPatch, Acceptances, Update;
    WorkerMay(w, k, patch);
    ClaimedIsKnown(w.store, w.claims[k]);
    UpdateKeepsInv(w.store, w.claims[k], patch, now, limit, fails);
  }

  // ---- every step and every run --------------------------------------------------------

  /** Whatever files appear, they are preparations that agree with their original. */
  ghost predicate NewFilesAgree(s: Store, t: Store) {
    forall id | id in t.disk && id !in s.disk && IsPreparation(id) ::
      var options := t.disk[id].operation.options;
      Names(options) && (id.route.CorrectedPreparation? ==> AgreesWithOriginal(s, id, options))
  }

  lemma AgreementPersists(s: Store, t: Store)
    requires OptionsFrozen(s, t) && Agreement(s) && NewFilesAgree(s, t)
    ensures Agreement(t)
    ensures forall id, options | IsPreparation(id) && AgreesWithOriginal(s, id, options) :: AgreesWithOriginal(t, id, options)
  {
    hide Names;
  }

  /** What a submitted preparation must propose. */
  ghost predicate SubmissionAgrees(s: Store, step: Step) {
    step.Submit? && IsPreparation(step.req.id) ==>
      && Names(step.req.options)
      && (step.req.id.route.CorrectedPreparation? ==> AgreesWithOriginal(s, step.req.id, step.req.options))
  }

  lemma WorldStepKeepsAgreement(a: Api, step: Step, limit: nat)
    requires 1 <= limit && ApiInv(a) && SubmissionAgrees(a.world.store, step)
    ensures ApiInv(a.(world := Next(a.world, step, limit)))
    ensures OptionsFrozen(a.world.store, Next(a.world, step, limit).store)
  {
    hide Inv, Next, Names, IsPreparation, Journaled, OptionsFrozen, AgreesWithOriginal;
    var s, t := a.world.store, Next(a.world, step, limit).store;
    StepKeepsInv(a.world, step, limit);
    StepGrows(a.world, step, limit);
    JournaledInv(a.world);
    JournaledInv(Next(a.world, step, limit));
    GrowthFreezesOptions(s, t);
    forall id | id in t.disk && id !in s.disk
      ensures step.Submit? && step.req.id == id && t.disk[id].operation.options == step.req.options {
      NewFilesAreAccepted(a.world, step, limit, id);
    }
    AgreementPersists(s, t);
  }

  lemma JournaledInv(w: World)
    requires Inv(w)
    ensures Journaled(w.store) && StoreInv(w.store)
  {}

  lemma ChoiceAgrees(a: Api, request: JobRequest, limit: nat, io: DiskFaults)
    requires 1 <= limit && ApiInv(a) && request.generated != ""
    requires var id := PreparationId(request.principal, request.key);
      Load(a.world.store, id, limit, io).result.Ok? && Choose(request, Load(a.world.store, id, limit, io).result.value).Some?
    ensures var id := PreparationId(request.principal, request.key);
      var f := Choose(request, Load(a.world.store, id, limit, io).result.value).value;
      && BelongsTo(f.target, request.principal, request.key) && f.job != ""
      && (f.target.route.CorrectedPreparation? ==> AgreesWithOriginal(a.world.store, f.target, Options(f.job, f.definition)))
  {
    hide StoreInv, WorkersInv, ClaimsInv, Load, ReadEffect;
    var id := PreparationId(request.principal, request.key);
    LoadKeepsInv(a.world.store, id, limit, io);
    var found := Load(a.world.store, id, limit, io);
    if found.result.value.Some? { RereadKeepsOptions(a.world.store, found.store, id); }
  }

  /** A changed request is corrected exactly while the journal shows that the original failed
      with the same definition; while it shows anything else, the request is refused. */
  lemma CorrectionOnlyAfterFailure(a: Api, request: JobRequest, limit: nat, io: DiskFaults)
    requires 1 <= limit && ApiInv(a)
    requires Load(a.world.store, PreparationId(request.principal, request.key), limit, io).result.Ok?
    ensures var id := PreparationId(request.principal, request.key);
      var found := Load(a.world.store, id, limit, io); var disk := found.store.disk;
      var chosen := Choose(request, found.result.value);
      && (id !in disk || disk[id].operation.fingerprint == Some(request.fingerprint) ==> chosen.Some? && chosen.value.target == id)
      && (id in disk && disk[id].operation.fingerprint != Some(request.fingerprint) ==>
            && (chosen.Some? <==> disk[id].operation.status == Failed
                                  && Get(disk[id].operation.options, "definition_fingerprint") == request.definition)
            && (chosen.Some? ==> chosen.value.target == CorrectionId(request.principal, request.key, request.fingerprint)))
  {
    hide WorkersInv, ClaimsInv, Load, ReadEffect, Reserved, Reflects, Agreement, ProposalsAgree;
    LoadKeepsInv(a.world.store, PreparationId(request.principal, request.key), limit, io);
  }

  lemma RereadKeepsOptions(s: Store, t: Store, id: OpId)
    requires ReadEffect(s, t, id) && id in s.disk
    ensures id in t.disk && t.disk[id].operation.options == s.disk[id].operation.options
  {}

  lemma ApiStepKeepsInv(a: Api, step: ApiStep, limit: nat)
    requires 1 <= limit && ApiInv(a)
    requires step.LookUp? ==> step.request.generated != ""
    ensures ApiInv(ApiNext(a, step, limit))
    ensures OptionsFrozen(a.world.store, ApiNext(a, step, limit).world.store)
  {
    hide Inv, Next, Load, Choose, AgreesWithOriginal, Agreement;
    match step
    case System(s) => if !(s.Submit? && IsPreparation(s.req.id)) { WorldStepKeepsAgreement(a, s, limit); }
    case LookUp(request, io) =>
      var id := PreparationId(request.principal, request.key);
      WorldStepKeepsAgreement(a, Read(id, io), limit);
      if Load(a.world.store, id, limit, io).result.Ok? && Choose(request, Load(a.world.store, id, limit, io).result.value).Some? {
        ChoiceAgrees(a, request, limit, io);
        var f := Choose(request, Load(a.world.store, id, limit, io).result.value).value;
        StillAgrees(a.world.store, Next(a.world, Read(id, io), limit).store, f.target, Options(f.job, f.definition));
      }
    case Accept(i, now, io) =>
      if i < |a.inFlight| { WorldStepKeepsAgreement(a, Submit(SubmissionOf(a.inFlight[i]), now, io), limit); }
  }

  lemma StillAgrees(s: Store, t: Store, id: OpId, options: map<string, string>)
    requires OptionsFrozen(s, t) && IsPreparation(id)
    ensures AgreesWithOriginal(s, id, options) ==> AgreesWithOriginal(t, id, options)
  {}

  lemma {:induction false} ApiRunKeepsInv(a: Api, steps: seq<ApiStep>, limit: nat)
    requires 1 <= limit && ApiInv(a)
    requires forall step | step in steps && step.LookUp? :: step.request.generated != ""
    ensures ApiInv(ApiRun(a, steps, limit))
    ensures OptionsFrozen(a.world.store, ApiRun(a, steps, limit).world.store)
    decreases |steps|
  {
    hide ApiInv, ApiNext;
    if steps != [] {
      ApiStepKeepsInv(a, steps[0], limit);
      ApiRunKeepsInv(ApiNext(a, steps[0], limit), steps[1..], limit);
    }
  }

  /** Every event ever published for any operation of one caller's key, the original or a
      corrected retry, whenever it was accepted and whatever identity its own request
      proposed, names the same Job, and the same definition. */
  lemma OneJobPerKey(steps: seq<ApiStep>, limit: nat, principal: string, key: string, x: OpId, y: OpId, i: nat, j: nat)
    requires 1 <= limit && forall step | step in steps && step.LookUp? :: step.request.generated != ""
    requires BelongsTo(x, principal, key) && BelongsTo(y, principal, key)
    requires var h := ApiRun(Api(Initial, []), steps, limit).world.store.history; i < |Lookup(h, x)| && j < |Lookup(h, y)|
    ensures var h := ApiRun(Api(Initial, []), steps, limit).world.store.history;
      && Lookup(h, x)[i].data.options == Lookup(h, y)[j].data.options
      && Reserved(Lookup(h, x)[i].data.options) != ""
  {
    hide ApiRun, WorkersInv, ClaimsInv, Legal, LastN;
    InitialInv();
    ApiRunKeepsInv(Api(Initial, []), steps, limit);
    var s := ApiRun(Api(Initial, []), steps, limit).world.store;
    FirstAndLastOptions(s, x, i);
    FirstAndLastOptions(s, y, j);
  }

  lemma FirstAndLastOptions(s: Store, id: OpId, i: nat)
    requires Journaled(s) && i < |Lookup(s.history, id)|
    ensures id in s.disk && s.history[id][i].data.options == s.disk[id].operation.options
  {
    hide Legal;
    var h := s.history[id];
    assert Reflects(s.disk[id], h, id);
    IdentityNeverChanges(h, i);
    IdentityNeverChanges(h, |h| - 1);
  }

  // ---- what a request reserves --------------------------------------------------------------

  /** The Job a request is for: its own, or one generated for it. */
  function Wanted(request: JobRequest): string {
    if request.jobId.Some? && request.jobId.value != "" then request.jobId.value else request.generated
  }

  lemma {:induction false} InFlightStays(a: Api, steps: seq<ApiStep>, limit: nat)
    ensures a.inFlight <= ApiRun(a, steps, limit).inFlight
    decreases |steps|
  {
    hide Next, Load, Choose;
    if steps != [] {
      InFlightStays(ApiNext(a, steps[0], limit), steps[1..], limit);
      assert a.inFlight <= ApiNext(a, steps[0], limit).inFlight;
    }
  }

  /** A request that found nothing under its key and is the first to be accepted, whatever
      happens between, has its own Job and definition in the receipt, and a claim. */
  lemma FirstRequestReserves(a: Api, request: JobRequest, steps: seq<ApiStep>, now: nat, limit: nat, io: DiskFaults, io': DiskFaults)
    requires 1 <= limit && ApiInv(a) && request.generated != "" && !io.readFails && !io'.readFails && !io'.publicationWriteFails
    requires forall step | step in steps && step.LookUp? :: step.request.generated != ""
    requires var id := PreparationId(request.principal, request.key);
      id !in a.world.store.disk && id !in ApiRun(ApiNext(a, LookUp(request, io), limit), steps, limit).world.store.disk
    ensures var id := PreparationId(request.principal, request.key);
      var b := ApiRun(ApiNext(a, LookUp(request, io), limit), steps, limit);
      var c := ApiNext(b, Accept(|a.inFlight|, now, io'), limit);
      && id in c.world.store.disk && id in c.world.store.active
      && Get(c.world.store.disk[id].operation.options, "job_id") == Wanted(request)
      && Get(c.world.store.disk[id].operation.options, "definition_fingerprint") == request.definition
      && c.world.store.disk[id].operation.fingerprint == Some(request.fingerprint)
  {
    hide ApiInv, ApiRun, Next, Load, Start, IsAttempt, AcceptedIn;
    var id := PreparationId(request.principal, request.key);
    StoreOfApi(a);
    MissingFile(a.world.store, id, limit, io);
    ApiStepKeepsInv(a, LookUp(request, io), limit);
    var b0 := ApiNext(a, LookUp(request, io), limit);
    assert b0.inFlight[|a.inFlight|] == InFlight(id, request.fingerprint, request.definition, Wanted(request));
    hide Choose;
    InFlightStays(b0, steps, limit);
    ApiRunKeepsInv(b0, steps, limit);
    var b := ApiRun(b0, steps, limit);
    StoreOfApi(b);
    FirstIsAccepted(b.world, SubmissionOf(b.inFlight[|a.inFlight|]), now, limit, io');
  }

  /** A preparation that failed and is asked for again is attempted again, for the same Job. */
  lemma FailedPreparationIsRetried(a: Api, i: nat, now: nat, limit: nat, io: DiskFaults)
    requires 1 <= limit && ApiInv(a) && i < |a.inFlight| && !io.readFails && !io.publicationWriteFails
    requires var f := a.inFlight[i]; var s := a.world.store;
      && f.target in s.disk && f.target !in s.active
      && s.disk[f.target].operation.status == Failed && s.disk[f.target].operation.fingerprint == Some(f.fingerprint)
    ensures var f := a.inFlight[i]; var t := ApiNext(a, Accept(i, now, io), limit).world.store;
      && f.target in t.active && f.target in t.disk && t.disk[f.target].operation.status == Pending
      && t.disk[f.target].operation.options == a.world.store.disk[f.target].operation.options
  {
    hide ApiInv, Start, AcceptedIn, IsAttempt;
    StoreOfApi(a);
    var f := a.inFlight[i];
    FailedIsRetried(a.world, SubmissionOf(f), now, limit, io);
  }

  lemma FailedIsRetried(w: World, req: Request, now: nat, limit: nat, io: DiskFaults)
    requires 1 <= limit && StoreInv(w.store) && req.id in w.store.disk && req.id !in w.store.active && req.retryFailed
    requires !io.readFails && !io.publicationWriteFails
    requires w.store.disk[req.id].operation.status == Failed && w.store.disk[req.id].operation.fingerprint == req.fingerprint
    ensures var t := Next(w, Submit(req, now, io), limit).store;
      && req.id in t.active && req.id in t.disk && t.disk[req.id].operation.status == Pending
      && t.disk[req.id].operation.options == w.store.disk[req.id].operation.options
  {
    hide StoreInv, Start;
    SavedParts(w.store, req.id);
    SubmissionIsExact(w.store, req, now, limit, io);
  }

  lemma StoreOfApi(a: Api)
    requires ApiInv(a)
    ensures StoreInv(a.world.store)
  {
    hide StoreInv, WorkersInv, ClaimsInv, Agreement, ProposalsAgree;
  }

  lemma FirstIsAccepted(w: World, req: Request, now: nat, limit: nat, io: DiskFaults)
    requires 1 <= limit && StoreInv(w.store) && req.id.Durable? && req.id !in w.store.disk && !io.readFails && !io.publicationWriteFails
    ensures var t := Next(w, Submit(req, now, io), limit).store;
      && req.id in t.disk && req.id in t.active
      && t.disk[req.id].operation.options == req.options && t.disk[req.id].operation.fingerprint == req.fingerprint
  {
    hide StoreInv, Start;
    FirstSubmission(w.store, req, now, limit, io);
  }

  /** The options a worker reads before it acts are those of its receipt, so the Job it
      prepares is the reserved one. */
  lemma WorkerActsOnReservedJob(a: Api, k: nat, limit: nat, io: DiskFaults)
    requires 1 <= limit && ApiInv(a) && k in a.world.workers && k < |a.world.claims| && IsPreparation(a.world.claims[k])
    ensures var id := a.world.claims[k]; var r := Load(a.world.store, id, limit, io).result;
      && (r.Ok? ==> r.value.Some?)
      && id in a.world.store.disk
      && (r.Ok? ==> r.value.value.options == a.world.store.disk[id].operation.options)
  {
    hide StoreInv, ClaimsInv, Load, ReadEffect, Agreement, ProposalsAgree;
    var id := a.world.claims[k];
    ClaimedIsKnown(a.world.store, id);
    LoadKeepsInv(a.world.store, id, limit, io);
    var found := Load(a.world.store, id, limit, io);
    if found.result.Ok? && found.result.value.Some? { RereadKeepsOptions(a.world.store, found.store, id); }
  }

  /** Whatever runs, crashes or retries follow, an accepted receipt keeps its options: the
      reserved Job of a preparation, and the conditional fence (expected_etag) of an update. */
  lemma AcceptedOptionsNeverChange(w: World, steps: seq<Step>, limit: nat)
    requires 1 <= limit && Inv(w)
    ensures OptionsFrozen(w.store, Run(w, steps, limit).store)
  {
    hide Run, WorkersInv, ClaimsInv, Mirrors, Reflects;
    RunKeepsInv(w, steps, limit);
    RunGrows(w, steps, limit);
    hide Grew, Journaled;
    GrowthFreezesOptions(w.store, Run(w, steps, limit).store);
  }

  // ---- corrections follow failures -------------------------------------------------------

  predicate IsCorrection(id: OpId) { id.Durable? && id.route.CorrectedPreparation? }

  /** The original of a correction has failed at some time. */
  ghost predicate OriginalFailed(s: Store, id: OpId)
    requires IsCorrection(id)
  {
    var h := Lookup(s.history, PreparationId(id.principal, id.key));
    exists i :: 0 <= i < |h| && h[i].data.status == Failed
  }

  ghost predicate Earned(a: Api) {
    && (forall id | id in a.world.store.disk && IsCorrection(id) :: OriginalFailed(a.world.store, id))
    && (forall i | 0 <= i < |a.inFlight| && IsCorrection(a.inFlight[i].target) :: OriginalFailed(a.world.store, a.inFlight[i].target))
  }

  lemma FailureStays(s: Store, t: Store, id: OpId)
    requires Grew(s, t) && IsCorrection(id) && OriginalFailed(s, id)
    ensures OriginalFailed(t, id)
  {
    var original := PreparationId(id.principal, id.key);
    var h, g := Lookup(s.history, original), Lookup(t.history, original);
    assert h <= g;
    var i :| 0 <= i < |h| && h[i].data.status == Failed;
    assert g[i] == h[i];
  }

  lemma WorldStepKeepsEarned(a: Api, step: Step, limit: nat)
    requires 1 <= limit && Inv(a.world) && Earned(a)
    requires step.Submit? && IsCorrection(step.req.id) ==> OriginalFailed(a.world.store, step.req.id)
    ensures Earned(a.(world := Next(a.world, step, limit)))
    ensures Grew(a.world.store, Next(a.world, step, limit).store)
  {
    hide Inv, Next, Grew, OriginalFailed;
    var s, t := a.world.store, Next(a.world, step, limit).store;
    StepGrows(a.world, step, limit);
    forall id | id in t.disk && IsCorrection(id)
      ensures OriginalFailed(t, id)
    {
      if id !in s.disk { NewFilesAreAccepted(a.world, step, limit, id); }
      FailureStays(s, t, id);
    }
    forall i | 0 <= i < |a.inFlight| && IsCorrection(a.inFlight[i].target)
      ensures OriginalFailed(t, a.inFlight[i].target)
    {
      FailureStays(s, t, a.inFlight[i].target);
    }
  }

  /** A correction is chosen only on a journal that shows the original failed. */
  lemma ChoiceIsEarned(a: Api, request: JobRequest, limit: nat, io: DiskFaults)
    requires 1 <= limit && ApiInv(a)
    requires var id := PreparationId(request.principal, request.key);
      Load(a.world.store, id, limit, io).result.Ok? && Choose(request, Load(a.world.store, id, limit, io).result.value).Some?
    ensures var id := PreparationId(request.principal, request.key); var found := Load(a.world.store, id, limit, io);
      var target := Choose(request, found.result.value).value.target;
      && IsPreparation(target) && (IsCorrection(target) ==> OriginalFailed(Next(a.world, Read(id, io), limit).store, target))
  {
    hide WorkersInv, ClaimsInv, Load, ReadEffect, Reserved, Agreement, ProposalsAgree, Legal;
    var id := PreparationId(request.principal, request.key);
    LoadKeepsInv(a.world.store, id, limit, io);
    CorrectionOnlyAfterFailure(a, request, limit, io);
    var t := Load(a.world.store, id, limit, io).store;
    if id in t.disk {
      assert Reflects(t.disk[id], t.history[id], id);
      var h := Lookup(t.history, id);
      LegalNumbers(h);
      assert h[|h| - 1].data == t.disk[id].operation;
      assert Next(a.world, Read(id, io), limit).store == t;
      var target := Choose(request, Load(a.world.store, id, limit, io).result.value).value.target;
      if IsCorrection(target) {
        assert PreparationId(target.principal, target.key) == id && h[|h| - 1].data.status == Failed;
      }
    }
  }

  lemma ApiStepKeepsEarned(a: Api, step: ApiStep, limit: nat)
    requires 1 <= limit && ApiInv(a) && Earned(a)
    ensures Earned(ApiNext(a, step, limit))
  {
    hide Inv, Next, Load, Choose, Agreement, ProposalsAgree, OriginalFailed, Grew;
    match step
    case System(s) => if !(s.Submit? && IsPreparation(s.req.id)) { WorldStepKeepsEarned(a, s, limit); }
    case LookUp(request, io) =>
      var id := PreparationId(request.principal, request.key);
      WorldStepKeepsEarned(a, Read(id, io), limit);
      if Load(a.world.store, id, limit, io).result.Ok? && Choose(request, Load(a.world.store, id, limit, io).result.value).Some? {
        ChoiceIsEarned(a, request, limit, io);
      }
    case Accept(i, now, io) =>
      if i < |a.inFlight| { WorldStepKeepsEarned(a, Submit(SubmissionOf(a.inFlight[i]), now, io), limit); }
  }

  lemma {:induction false} EarnedInEveryRun(a: Api, steps: seq<ApiStep>, limit: nat)
    requires 1 <= limit && ApiInv(a) && Earned(a)
    requires forall step | step in steps && step.LookUp? :: step.request.generated != ""
    ensures Earned(ApiRun(a, steps, limit))
    decreases |steps|
  {
    hide ApiInv, ApiNext, Earned;
    if steps != [] {
      ApiStepKeepsInv(a, steps[0], limit);
      ApiStepKeepsEarned(a, steps[0], limit);
      EarnedInEveryRun(ApiNext(a, steps[0], limit), steps[1..], limit);
    }
  }

  /** In every run a corrected operation exists only if its original failed before: no other
      changed request under a used key is ever accepted. */
  lemma CorrectionsFollowFailures(steps: seq<ApiStep>, limit: nat, id: OpId)
    requires 1 <= limit && forall step | step in steps && step.LookUp? :: step.request.generated != ""
    requires IsCorrection(id) && id in ApiRun(Api(Initial, []), steps, limit).world.store.disk
    ensures OriginalFailed(ApiRun(Api(Initial, []), steps, limit).world.store, id)
  {
    InitialInv();
    EarnedInEveryRun(Api(Initial, []), steps, limit);
    hide ApiRun;
  }
}
