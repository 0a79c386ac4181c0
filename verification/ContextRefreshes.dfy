/** Requests for a Job's context and the background threads that refresh it, in any
    interleaving of their locked regions. */
module ContextRefreshes {
  import opened OrderedDicts
  import opened ContextCaches

  /** A refresh: its thread about to be started, loading, about to store, about to take its
      entry out, about to set its event, over; or never started, because starting it failed. */
  datatype Phase = Created | Loading | Loaded(loadedAt: int) | Ending | Releasing | Over | Stranded

  datatype Refresh = Refresh(job: string, phase: Phase, error: Option<Failure>)

  datatype Label = FreshCache | KnownGoodCache | Live | Unavailable

  /** What a request got; `at` is the clock it was judged by. */
  datatype Answer = Answer(snapshot: Option<Snapshot>, kind: Label, at: int)

  /** Where a request is. `now` is its clock, `cached` what it found, and `seen` (a history
      variable) how many snapshots had been stored when it looked. */
  datatype Pc =
    | Asking(now: int)
    | Starting(now: int, cached: Option<Snapshot>, seen: nat)
    | Launching(now: int, cached: Option<Snapshot>, seen: nat, refresh: nat)
    | Deciding(now: int, cached: Option<Snapshot>, seen: nat, refresh: nat)
    | Waiting(now: int, seen: nat, refresh: nat)
    | Rechecking(now: int, seen: nat, refresh: nat)
    | Answered(answer: Answer, seen: nat)
    | Raised

  datatype Request = Request(job: string, pc: Pc)

  datatype Limits = Limits(freshFor: nat, knownGoodFor: nat, maximum: nat)

  /** `stored` counts the snapshots ever stored. */
  datatype System = System(caches: Caches, now: int, refreshes: seq<Refresh>, requests: map<nat, Request>, stored: nat)

  datatype Step =
    | Tick(time: nat)
    | Ask(request: nat, job: string)
    | Look(request: nat)
    | Begin(request: nat)
    | Launch(request: nat, started: bool)
    | Decide(request: nat)
    | Wake(request: nat)
    | Recheck(request: nat)
    | Load(refresh: nat)
    | Store(refresh: nat)
    | Fail(refresh: nat, failure: Failure)
    | End(refresh: nat)
    | Release(refresh: nat)
    | LookupBase(job: string, base: Base)
    | Invalidate(job: string)

  function Moved(s: System, r: nat, pc: Pc): map<nat, Request>
    requires r in s.requests
  {
    s.requests[r := s.requests[r].(pc := pc)]
  }

  function Phased(s: System, i: nat, phase: Phase): seq<Refresh>
    requires i < |s.refreshes|
  {
    s.refreshes[i := s.refreshes[i].(phase := phase)]
  }

  predicate Old(cached: Option<Snapshot>, now: int, limit: nat) { cached.None? || now - cached.value.loadedAt > limit }

  function Next(s: System, step: Step, limits: Limits): System {
    match step
    case Tick(time) => s.(now := s.now + time)
    case Ask(r, job) => if r in s.requests then s else s.(requests := s.requests[r := Request(job, Asking(s.now))])
    case Look(r) =>
      if r in s.requests && s.requests[r].pc.Asking? then
        var now := s.requests[r].pc.now;
        var (caches, cached) := Looked(s.caches, s.requests[r].job, now, limits.freshFor);
        s.(caches := caches,
           requests := Moved(s, r, if Old(cached, now, limits.freshFor) then Starting(now, cached, s.stored)
                                   else Answered(Answer(cached, FreshCache, now), s.stored)))
      else s
    case Begin(r) =>
      if r in s.requests && s.requests[r].pc.Starting? then
        var x := s.requests[r];
        var (caches, refresh) := Begun(s.caches, x.job, |s.refreshes|);
        if x.job in s.caches.refreshes then s.(requests := Moved(s, r, Deciding(x.pc.now, x.pc.cached, x.pc.seen, refresh)))
        else s.(caches := caches, refreshes := s.refreshes + [Refresh(x.job, Created, None)],
                requests := Moved(s, r, Launching(x.pc.now, x.pc.cached, x.pc.seen, refresh)))
      else s
    case Launch(r, started) =>
      if r in s.requests && s.requests[r].pc.Launching? && s.requests[r].pc.refresh < |s.refreshes|
         && s.refreshes[s.requests[r].pc.refresh].phase == Created then
        var pc := s.requests[r].pc;
        s.(refreshes := Phased(s, pc.refresh, if started then Loading else Stranded),
           requests := Moved(s, r, if started then Deciding(pc.now, pc.cached, pc.seen, pc.refresh) else Raised))
      else s
    case Decide(r) =>
      if r in s.requests && s.requests[r].pc.Deciding? then
        var pc := s.requests[r].pc;
        s.(requests := Moved(s, r, if Old(pc.cached, pc.now, limits.knownGoodFor) then Waiting(pc.now, pc.seen, pc.refresh)
                                   else Answered(Answer(pc.cached, KnownGoodCache, pc.now), pc.seen)))
      else s
    case Wake(r) =>   // the event is set, or the initial wait is over
      if r in s.requests && s.requests[r].pc.Waiting? then
        var pc := s.requests[r].pc;
        s.(requests := Moved(s, r, Rechecking(pc.now, pc.seen, pc.refresh)))
      else s
    case Recheck(r) =>
      if r in s.requests && s.requests[r].pc.Rechecking? && s.requests[r].pc.refresh < |s.refreshes| then
        var x := s.requests[r];
        var loaded := if x.job in s.caches.contexts.vals then Some(s.caches.contexts.vals[x.job]) else None;
        s.(requests := Moved(s, r,
             if !Old(loaded, s.now, limits.knownGoodFor) then Answered(Answer(loaded, Live, s.now), x.pc.seen)
             else if s.refreshes[x.pc.refresh].error == Some(NotFound) then Raised
             else Answered(Answer(None, Unavailable, s.now), x.pc.seen)))
      else s
    case Load(i) => if i < |s.refreshes| && s.refreshes[i].phase == Loading then s.(refreshes := Phased(s, i, Loaded(s.now))) else s
    case Store(i) =>
      if i < |s.refreshes| && s.refreshes[i].phase.Loaded? then
        var x := s.refreshes[i];
        s.(caches := StoredContext(s.caches, x.job, Snapshot(s.stored, x.phase.loadedAt), limits.maximum),
           refreshes := Phased(s, i, Ending), stored := s.stored + 1)
      else s
    case Fail(i, failure) =>
      if i < |s.refreshes| && s.refreshes[i].phase == Loading then
        s.(caches := Failed(s.caches, s.refreshes[i].job, failure),
           refreshes := s.refreshes[i := Refresh(s.refreshes[i].job, Ending, Some(failure))])
      else s
    case End(i) =>
      if i < |s.refreshes| && s.refreshes[i].phase == Ending then
        s.(caches := Ended(s.caches, s.refreshes[i].job), refreshes := Phased(s, i, Releasing))
      else s
    case Release(i) => if i < |s.refreshes| && s.refreshes[i].phase == Releasing then s.(refreshes := Phased(s, i, Over)) else s
    case LookupBase(job, base) => s.(caches := StoredBase(s.caches, job, base, limits.maximum))
    case Invalidate(job) => s.(caches := Invalidated(s.caches, job))
  }

  function Run(s: System, steps: seq<Step>, limits: Limits): System
    decreases |steps|
  {
    if steps == [] then s else Run(Next(s, steps[0], limits), steps[1..], limits)
  }

  const Initial: System := System(Nothing, 0, [], map[], 0)

  // ---- the invariant -----------------------------------------------------------------------

  /** A refresh whose entry is still in the table. */
  predicate Entered(p: Phase) { !p.Releasing? && !p.Over? }

  /** The table has exactly the entered refreshes, so there is one per job at most. */
  ghost predicate EntriesOk(s: System) {
    && (forall j | j in s.caches.refreshes ::
          var i := s.caches.refreshes[j]; i < |s.refreshes| && s.refreshes[i].job == j && Entered(s.refreshes[i].phase))
    && (forall i | 0 <= i < |s.refreshes| && Entered(s.refreshes[i].phase) ::
          s.refreshes[i].job in s.caches.refreshes && s.caches.refreshes[s.refreshes[i].job] == i)
  }

  /** A refresh that is created has a request about to start its thread. */
  ghost predicate HasLauncher(s: System, i: nat) {
    exists r :: r in s.requests && s.requests[r].pc.Launching? && s.requests[r].pc.refresh == i
  }

  ghost predicate LaunchersOk(s: System) {
    forall i | 0 <= i < |s.refreshes| && s.refreshes[i].phase == Created :: HasLauncher(s, i)
  }

  ghost predicate CachesOk(s: System, limits: Limits) {
    && Within(s.caches, limits.maximum)
    && forall j | j in s.caches.contexts.vals :: s.caches.contexts.vals[j].serial < s.stored
  }

  /** What was in the cache when the request looked, and still is, was too old by its clock. */
  ghost predicate OnlyNewIsGood(s: System, job: string, now: int, seen: nat, limits: Limits) {
    && now <= s.now && seen <= s.stored
    && (job in s.caches.contexts.vals && s.caches.contexts.vals[job].serial < seen ==>
          now - s.caches.contexts.vals[job].loadedAt > limits.knownGoodFor)
  }

  ghost predicate RequestOk(s: System, x: Request, limits: Limits) {
    match x.pc
    case Asking(now) => now <= s.now
    case Starting(now, cached, seen) =>
      now <= s.now && seen <= s.stored && (Old(cached, now, limits.knownGoodFor) ==> OnlyNewIsGood(s, x.job, now, seen, limits))
    case Launching(now, cached, seen, i) =>
      && now <= s.now && seen <= s.stored && (Old(cached, now, limits.knownGoodFor) ==> OnlyNewIsGood(s, x.job, now, seen, limits))
      && i < |s.refreshes| && s.refreshes[i].job == x.job
    case Deciding(now, cached, seen, i) =>
      && now <= s.now && seen <= s.stored && (Old(cached, now, limits.knownGoodFor) ==> OnlyNewIsGood(s, x.job, now, seen, limits))
      && i < |s.refreshes| && s.refreshes[i].job == x.job
    case Waiting(now, seen, i) => OnlyNewIsGood(s, x.job, now, seen, limits) && i < |s.refreshes| && s.refreshes[i].job == x.job
    case Rechecking(now, seen, i) => OnlyNewIsGood(s, x.job, now, seen, limits) && i < |s.refreshes| && s.refreshes[i].job == x.job
    case Answered(answer, seen) => Truthful(answer, seen, limits)
    case Raised => true
  }

  /** The label is right. */
  ghost predicate Truthful(a: Answer, seen: nat, limits: Limits) {
    && (a.kind == Unavailable <==> a.snapshot.None?)
    && (a.kind == FreshCache ==> a.at - a.snapshot.value.loadedAt <= limits.freshFor)
    && (a.kind == KnownGoodCache ==> a.at - a.snapshot.value.loadedAt <= limits.knownGoodFor)
    && (a.kind == Live ==> a.at - a.snapshot.value.loadedAt <= limits.knownGoodFor && a.snapshot.value.serial >= seen)
  }

  ghost predicate RequestsOk(s: System, limits: Limits) { forall r | r in s.requests :: RequestOk(s, s.requests[r], limits) }

  ghost predicate Inv(s: System, limits: Limits) {
    EntriesOk(s) && LaunchersOk(s) && CachesOk(s, limits) && RequestsOk(s, limits)
  }

  // ---- every step keeps it -------------------------------------------------------------------

  /** What happens to the caches in a step: entries are dropped, or one context is stored
      with a new number, or the table of refreshes changes and nothing else. */
  lemma StepOnCaches(s: System, step: Step, limits: Limits)
    requires CachesOk(s, limits) && 1 <= limits.maximum
    ensures var u := Next(s, step, limits);
      && CachesOk(u, limits)
      && (!step.Begin? && !step.End? ==> u.caches.refreshes == s.caches.refreshes)
      && (forall j | j in u.caches.contexts.vals ::
            (j in s.caches.contexts.vals && u.caches.contexts.vals[j] == s.caches.contexts.vals[j])
            || u.caches.contexts.vals[j].serial == s.stored < u.stored)
  {
    hide StoredContext, StoredBase, Invalidated, Failed, Looked;
    match step
    case Look(r) => if r in s.requests && s.requests[r].pc.Asking? {
      LookedDrops(s.caches, s.requests[r].job, s.requests[r].pc.now, limits.freshFor, limits.maximum);
    }
    case Store(i) => if i < |s.refreshes| && s.refreshes[i].phase.Loaded? {
      StoredContextKeeps(s.caches, s.refreshes[i].job, Snapshot(s.stored, s.refreshes[i].phase.loadedAt), limits.maximum);
    }
    case Fail(i, failure) => if i < |s.refreshes| { FailedDrops(s.caches, s.refreshes[i].job, failure, limits.maximum); }
    case LookupBase(job, base) => StoredBaseDrops(s.caches, job, base, limits.maximum);
    case Invalidate(job) => InvalidatedDrops(s.caches, job, limits.maximum);
    case _ =>
  }

  /** What happens to the refreshes: they keep their jobs, and only End takes an entry out. */
  lemma StepOnRefreshes(s: System, step: Step, limits: Limits)
    ensures var u := Next(s, step, limits);
      && |s.refreshes| <= |u.refreshes| && s.now <= u.now && s.stored <= u.stored
      && (forall i | 0 <= i < |s.refreshes| :: u.refreshes[i].job == s.refreshes[i].job)
      && (!step.Begin? ==> |u.refreshes| == |s.refreshes|)
      && (!step.End? ==> forall i | 0 <= i < |s.refreshes| :: Entered(u.refreshes[i].phase) == Entered(s.refreshes[i].phase))
      && (forall i | 0 <= i < |s.refreshes| && u.refreshes[i].phase == Created :: s.refreshes[i].phase == Created)
  {
    hide StoredContext, StoredBase, Invalidated, Failed, Looked, Begun, Ended;
  }

  lemma EntriesStay(s: System, u: System)
    requires EntriesOk(s) && u.caches.refreshes == s.caches.refreshes && |u.refreshes| == |s.refreshes|
    requires forall i | 0 <= i < |s.refreshes| ::
      u.refreshes[i].job == s.refreshes[i].job && Entered(u.refreshes[i].phase) == Entered(s.refreshes[i].phase)
    ensures EntriesOk(u)
  {
    hide Entered;
  }

  lemma EndKeepsEntries(s: System, i: nat, limits: Limits)
    requires EntriesOk(s)
    ensures EntriesOk(Next(s, End(i), limits))
  {
  }

  lemma BeginKeepsEntries(s: System, r: nat, limits: Limits)
    requires EntriesOk(s)
    ensures EntriesOk(Next(s, Begin(r), limits))
  {
  }

  lemma EntriesKept(s: System, step: Step, limits: Limits)
    requires Inv(s, limits) && 1 <= limits.maximum
    ensures EntriesOk(Next(s, step, limits))
  {
    hide Next, RequestsOk, LaunchersOk, CachesOk, EntriesOk;
    if step.Begin? {
      BeginKeepsEntries(s, step.request, limits);
    } else if step.End? {
      EndKeepsEntries(s, step.refresh, limits);
    } else {
      StepOnRefreshes(s, step, limits);
      StepOnCaches(s, step, limits);
      EntriesStay(s, Next(s, step, limits));
    }
  }

  /** Only the step of the request itself changes a request. */
  lemma StepOnRequests(s: System, step: Step, limits: Limits, r: nat)
    requires r in s.requests
    ensures var u := Next(s, step, limits);
      && r in u.requests && u.requests[r].job == s.requests[r].job
      && (s.requests[r].pc.Launching? && u.requests[r].pc != s.requests[r].pc ==>
            var i := s.requests[r].pc.refresh; i < |s.refreshes| && i < |u.refreshes| && u.refreshes[i].phase != Created)
  {
    hide StoredContext, StoredBase, Invalidated, Failed, Looked, Begun, Ended;
  }

  lemma LaunchersKept(s: System, step: Step, limits: Limits)
    requires Inv(s, limits)
    ensures LaunchersOk(Next(s, step, limits))
  {
    var u := Next(s, step, limits);
    StepOnRefreshes(s, step, limits);
    forall i | 0 <= i < |u.refreshes| && u.refreshes[i].phase == Created
      ensures HasLauncher(u, i)
    {
      if i < |s.refreshes| {
        hide Next, RequestsOk, CachesOk, EntriesOk;
        assert HasLauncher(s, i);
        var r :| r in s.requests && s.requests[r].pc.Launching? && s.requests[r].pc.refresh == i;
        StepOnRequests(s, step, limits, r);
      } else {
        hide RequestsOk, CachesOk, EntriesOk, LaunchersOk;
        assert u.requests[step.request].pc.Launching? && u.requests[step.request].pc.refresh == i;
      }
    }
  }

  lemma RequestStays(s: System, u: System, x: Request, limits: Limits)
    requires RequestOk(s, x, limits) && s.now <= u.now && s.stored <= u.stored && |s.refreshes| <= |u.refreshes|
    requires forall i | 0 <= i < |s.refreshes| :: u.refreshes[i].job == s.refreshes[i].job
    requires forall j | j in u.caches.contexts.vals ::
      (j in s.caches.contexts.vals && u.caches.contexts.vals[j] == s.caches.contexts.vals[j])
      || u.caches.contexts.vals[j].serial == s.stored < u.stored
    ensures RequestOk(u, x, limits)
  {
    hide Old, Truthful;
  }

  /** The request whose step it is. */
  function Actor(step: Step): Option<nat> {
    match step
    case Ask(r, _) => Some(r)
    case Look(r) => Some(r)
    case Begin(r) => Some(r)
    case Launch(r, _) => Some(r)
    case Decide(r) => Some(r)
    case Wake(r) => Some(r)
    case Recheck(r) => Some(r)
    case _ => None
  }

  lemma OthersStandStill(s: System, step: Step, limits: Limits)
    ensures forall r | r in Next(s, step, limits).requests && Actor(step) != Some(r) ::
      r in s.requests && Next(s, step, limits).requests[r] == s.requests[r]
  {
    hide StoredContext, StoredBase, Invalidated, Failed, Looked, Begun, Ended;
  }

  lemma LookAnswers(s: System, r: nat, limits: Limits)
    requires Inv(s, limits) && limits.freshFor <= limits.knownGoodFor && r in s.requests && s.requests[r].pc.Asking?
    ensures var u := Next(s, Look(r), limits); RequestOk(u, u.requests[r], limits)
  {
    hide EntriesOk, LaunchersOk, Within;
    assert RequestOk(s, s.requests[r], limits);
  }

  lemma BeginAnswers(s: System, r: nat, limits: Limits)
    requires Inv(s, limits) && r in s.requests && s.requests[r].pc.Starting?
    ensures var u := Next(s, Begin(r), limits); RequestOk(u, u.requests[r], limits)
  {
    hide LaunchersOk, CachesOk;
    assert RequestOk(s, s.requests[r], limits);
  }

  lemma LaunchAnswers(s: System, r: nat, started: bool, limits: Limits)
    requires Inv(s, limits) && r in s.requests
    ensures var u := Next(s, Launch(r, started), limits); RequestOk(u, u.requests[r], limits)
  {
    hide LaunchersOk, CachesOk, EntriesOk;
    assert RequestOk(s, s.requests[r], limits);
    StepOnRefreshes(s, Launch(r, started), limits);
  }

  /** A context found within its time after the wait was stored after the request looked. */
  lemma RestAnswers(s: System, r: nat, step: Step, limits: Limits)
    requires Inv(s, limits) && r in s.requests && (step == Decide(r) || step == Wake(r) || step == Recheck(r))
    ensures var u := Next(s, step, limits); RequestOk(u, u.requests[r], limits)
  {
    hide LaunchersOk, CachesOk, EntriesOk;
    assert RequestOk(s, s.requests[r], limits);
  }

  lemma RequestsKept(s: System, step: Step, limits: Limits)
    requires Inv(s, limits) && 1 <= limits.maximum && limits.freshFor <= limits.knownGoodFor
    ensures RequestsOk(Next(s, step, limits), limits)
  {
    var u := Next(s, step, limits);
    StepOnCaches(s, step, limits);
    StepOnRefreshes(s, step, limits);
    OthersStandStill(s, step, limits);
    forall r | r in u.requests
      ensures RequestOk(u, u.requests[r], limits)
    {
      if Actor(step) != Some(r) || (r in s.requests && u.requests[r] == s.requests[r]) {
        hide Next, EntriesOk, LaunchersOk, CachesOk, Old, Truthful;
        assert RequestOk(s, s.requests[r], limits);
        RequestStays(s, u, s.requests[r], limits);
      } else {
        hide EntriesOk, LaunchersOk, CachesOk, RequestOk, StoredContext, StoredBase, Invalidated, Failed, Looked, Begun, Ended;
        match step
        case Ask(_, job) => JustAsked(u, job, limits);
        case Look(_) => LookAnswers(s, r, limits);
        case Begin(_) => BeginAnswers(s, r, limits);
        case Launch(_, started) => LaunchAnswers(s, r, started, limits);
        case _ => RestAnswers(s, r, step, limits);
      }
    }
  }

  lemma JustAsked(u: System, job: string, limits: Limits)
    ensures RequestOk(u, Request(job, Asking(u.now)), limits)
  {
  }

  /** Every step of every interleaving keeps the invariant. */
  lemma StepKeepsInv(s: System, step: Step, limits: Limits)
    requires Inv(s, limits) && 1 <= limits.maximum && limits.freshFor <= limits.knownGoodFor
    ensures Inv(Next(s, step, limits), limits)
  {
    EntriesKept(s, step, limits);
    LaunchersKept(s, step, limits);
    StepOnCaches(s, step, limits);
    RequestsKept(s, step, limits);
    hide Next, EntriesOk, LaunchersOk, CachesOk, RequestsOk;
  }

  lemma {:induction false} RunKeepsInv(s: System, steps: seq<Step>, limits: Limits)
    requires Inv(s, limits) && 1 <= limits.maximum && limits.freshFor <= limits.knownGoodFor
    ensures Inv(Run(s, steps, limits), limits)
    decreases |steps|
  {
    hide Inv, Next;
    if steps != [] {
      StepKeepsInv(s, steps[0], limits);
      RunKeepsInv(Next(s, steps[0], limits), steps[1..], limits);
    }
  }

  lemma InitialInv(limits: Limits)
    ensures Inv(Initial, limits)
  {
  }

  // ---- what it means for requests -----------------------------------------------------------------

  /** Every context handed out was within the last-known-good age by the clock it was judged
      by, one labelled fresh from the cache was within the fresh age, and one labelled live
      was stored after the request had looked. */
  lemma LabelsAreTrue(steps: seq<Step>, limits: Limits, r: nat)
    requires 1 <= limits.maximum && limits.freshFor <= limits.knownGoodFor
    requires var s := Run(Initial, steps, limits); r in s.requests && s.requests[r].pc.Answered? && s.requests[r].pc.answer.snapshot.Some?
    ensures var pc := Run(Initial, steps, limits).requests[r].pc; var a := pc.answer;
      && a.at - a.snapshot.value.loadedAt <= limits.knownGoodFor
      && (a.kind == FreshCache ==> a.at - a.snapshot.value.loadedAt <= limits.freshFor)
      && (a.kind == Live ==> a.snapshot.value.serial >= pc.seen)
  {
    InitialInv(limits);
    RunKeepsInv(Initial, steps, limits);
    hide Run, EntriesOk, LaunchersOk, CachesOk;
    assert RequestOk(Run(Initial, steps, limits), Run(Initial, steps, limits).requests[r], limits);
  }

  /** The job's cached context, if it is at most `limit` old by the clock `now`. */
  function Recent(s: System, job: string, now: int, limit: nat): Option<Snapshot> {
    if job in s.caches.contexts.vals && now - s.caches.contexts.vals[job].loadedAt <= limit then Some(s.caches.contexts.vals[job]) else None
  }

  /** What a request gets when it first looks, when a refresh is under way, and when it looks
      again after its wait: the cached context exactly if that is recent enough, and in the
      end an error exactly if its refresh found the job gone. */
  lemma AnswersAreExact(s: System, r: nat, limits: Limits)
    requires Inv(s, limits) && r in s.requests
    ensures var job := s.requests[r].job; var pc := s.requests[r].pc;
      pc.Asking? ==>
        var u := Next(s, Look(r), limits);
        && r in u.requests
        && match Recent(s, job, pc.now, limits.freshFor)
           case Some(x) => u.requests[r].pc == Answered(Answer(Some(x), FreshCache, pc.now), s.stored)
           case None =>
             && u.caches == s.caches
             && u.requests[r].pc == Starting(pc.now, if job in s.caches.contexts.vals then Some(s.caches.contexts.vals[job]) else None, s.stored)
    ensures var pc := s.requests[r].pc;
      pc.Deciding? ==>
        var u := Next(s, Decide(r), limits);
        && r in u.requests
        && u.requests[r].pc == if pc.cached.Some? && pc.now - pc.cached.value.loadedAt <= limits.knownGoodFor
                               then Answered(Answer(pc.cached, KnownGoodCache, pc.now), pc.seen) else Waiting(pc.now, pc.seen, pc.refresh)
    ensures var job := s.requests[r].job; var pc := s.requests[r].pc;
      pc.Rechecking? ==>
        var u := Next(s, Recheck(r), limits);
        && r in u.requests && pc.refresh < |s.refreshes|
        && u.requests[r].pc ==
             match Recent(s, job, s.now, limits.knownGoodFor)
             case Some(x) => Answered(Answer(Some(x), Live, s.now), pc.seen)
             case None => if s.refreshes[pc.refresh].error == Some(NotFound) then Raised else Answered(Answer(None, Unavailable, s.now), pc.seen)
  {
    hide EntriesOk, LaunchersOk, CachesOk;
    assert RequestOk(s, s.requests[r], limits);
  }

  /** Nobody has the job's context, and nobody is fetching it. */
  ghost predicate Unknown(s: System, r: nat, job: string, limits: Limits) {
    r !in s.requests && job !in s.caches.refreshes && Recent(s, job, s.now, limits.knownGoodFor).None?
  }

  lemma RunOfTwo(s: System, a: Step, b: Step, limits: Limits)
    ensures Run(s, [a, b], limits) == Next(Next(s, a, limits), b, limits)
  {
    hide Next;
    assert [a, b][1..] == [b] && [b][1..] == [];
    assert Run(Next(Next(s, a, limits), b, limits), [], limits) == Next(Next(s, a, limits), b, limits);
    assert Run(Next(s, a, limits), [b], limits) == Next(Next(s, a, limits), b, limits);
  }

  lemma {:induction false} RunAppend(s: System, a: seq<Step>, b: seq<Step>, limits: Limits)
    ensures Run(s, a + b, limits) == Run(Run(s, a, limits), b, limits)
    decreases |a|
  {
    hide Next;
    if a == [] {
      assert [] + b == b;
    } else {
      assert (a + b)[1..] == a[1..] + b;
      RunAppend(Next(s, a[0], limits), a[1..], b, limits);
    }
  }

  /** A request that finds nothing begins a refresh. */
  lemma AskingBegins(s: System, r: nat, job: string, limits: Limits)
    requires limits.freshFor <= limits.knownGoodFor && Unknown(s, r, job, limits)
    ensures var u := Run(Run(s, [Ask(r, job), Look(r)], limits), [Begin(r), Launch(r, true)], limits); var i := |s.refreshes|;
      && u.refreshes == s.refreshes + [Refresh(job, Loading, None)] && u.now == s.now && u.stored == s.stored
      && u.caches.contexts == s.caches.contexts && u.caches.base == s.caches.base
      && r in u.requests && u.requests[r].job == job && u.requests[r].pc.Deciding?
      && u.requests[r].pc.refresh == i && u.requests[r].pc.now == s.now && u.requests[r].pc.seen == s.stored
      && Old(u.requests[r].pc.cached, s.now, limits.knownGoodFor)
  {
    RunOfTwo(s, Ask(r, job), Look(r), limits);
    var a := Next(s, Ask(r, job), limits);
    var b := Next(a, Look(r), limits);
    assert b.requests[r].pc.Starting? && b.caches == s.caches && b.refreshes == s.refreshes;
    RunOfTwo(b, Begin(r), Launch(r, true), limits);
    var c := Next(b, Begin(r), limits);
    assert c.refreshes == s.refreshes + [Refresh(job, Created, None)];
    var d := Next(c, Launch(r, true), limits);
    assert d.refreshes == s.refreshes + [Refresh(job, Loading, None)];
  }

  lemma LoadingStores(s: System, r: nat, i: nat, limits: Limits)
    requires Inv(s, limits) && 1 <= limits.maximum && i < |s.refreshes| && s.refreshes[i].phase == Loading
    requires r in s.requests && s.requests[r].pc.Deciding? && Old(s.requests[r].pc.cached, s.requests[r].pc.now, limits.knownGoodFor)
    ensures var u := Run(Run(s, [Decide(r), Load(i)], limits), [Store(i), End(i)], limits); var job := s.refreshes[i].job;
      && u.now == s.now && job in u.caches.contexts.vals && u.caches.contexts.vals[job] == Snapshot(s.stored, s.now)
      && i < |u.refreshes| && u.refreshes[i].phase == Releasing
      && r in u.requests && u.requests[r] == Request(s.requests[r].job, Waiting(s.requests[r].pc.now, s.requests[r].pc.seen, s.requests[r].pc.refresh))
  {
    hide EntriesOk, LaunchersOk, RequestsOk, StoredContext;
    RunOfTwo(s, Decide(r), Load(i), limits);
    var b := Next(Next(s, Decide(r), limits), Load(i), limits);
    assert b.refreshes[i].phase == Loaded(s.now) && b.refreshes[i].job == s.refreshes[i].job && b.caches == s.caches;
    StoredContextKeeps(s.caches, s.refreshes[i].job, Snapshot(s.stored, s.now), limits.maximum);
    RunOfTwo(b, Store(i), End(i), limits);
  }

  lemma WaitingIsAnswered(s: System, r: nat, i: nat, seconds: nat, limits: Limits)
    requires i < |s.refreshes| && s.refreshes[i].phase == Releasing && seconds <= limits.knownGoodFor
    requires r in s.requests && s.requests[r].pc.Waiting? && s.requests[r].pc.refresh < |s.refreshes|
    requires s.requests[r].job in s.caches.contexts.vals && s.caches.contexts.vals[s.requests[r].job].loadedAt == s.now
    ensures var u := Run(Run(s, [Release(i), Tick(seconds)], limits), [Wake(r), Recheck(r)], limits);
      && r in u.requests
      && u.requests[r].pc == Answered(Answer(Some(s.caches.contexts.vals[s.requests[r].job]), Live, s.now + seconds), s.requests[r].pc.seen)
  {
    RunOfTwo(s, Release(i), Tick(seconds), limits);
    var b := Next(Next(s, Release(i), limits), Tick(seconds), limits);
    assert b.requests == s.requests && b.caches == s.caches && |b.refreshes| == |s.refreshes|;
    RunOfTwo(b, Wake(r), Recheck(r), limits);
  }

  /** The first request for a job is answered, live, with the context that its refresh loaded,
      when it wakes within the last-known-good age. */
  function Serving(r: nat, job: string, i: nat, seconds: nat): seq<Step> {
    [Ask(r, job), Look(r)] + [Begin(r), Launch(r, true)] + [Decide(r), Load(i)] + [Store(i), End(i)]
    + [Release(i), Tick(seconds)] + [Wake(r), Recheck(r)]
  }

  lemma FirstRequestIsServed(s: System, r: nat, job: string, seconds: nat, limits: Limits)
    requires Inv(s, limits) && 1 <= limits.maximum && limits.freshFor <= limits.knownGoodFor
    requires Unknown(s, r, job, limits) && seconds <= limits.knownGoodFor
    ensures var u := Run(s, Serving(r, job, |s.refreshes|, seconds), limits);
      && r in u.requests
      && u.requests[r].pc == Answered(Answer(Some(Snapshot(s.stored, s.now)), Live, s.now + seconds), s.stored)
  {
    hide Inv, Next, Run, Unknown, Old;
    var i := |s.refreshes|;
    var a, b, c, d, e, f := [Ask(r, job), Look(r)], [Begin(r), Launch(r, true)], [Decide(r), Load(i)], [Store(i), End(i)],
                            [Release(i), Tick(seconds)], [Wake(r), Recheck(r)];
    AskingBegins(s, r, job, limits);
    RunAppend(s, a, b, limits);
    RunKeepsInv(s, a + b, limits);
    var t := Run(s, a + b, limits);
    LoadingStores(t, r, i, limits);
    RunAppend(s, a + b, c, limits);
    RunAppend(s, a + b + c, d, limits);
    var v := Run(s, a + b + c + d, limits);
    WaitingIsAnswered(v, r, i, seconds, limits);
    RunAppend(s, a + b + c + d, e, limits);
    RunAppend(s, a + b + c + d + e, f, limits);
  }

  /** The error of a refresh stays what it was found to be. */
  lemma ErrorStays(s: System, step: Step, limits: Limits, i: nat)
    requires i < |s.refreshes| && s.refreshes[i].error.Some? && !s.refreshes[i].phase.Created? && !s.refreshes[i].phase.Loading?
    ensures var u := Next(s, step, limits);
      i < |u.refreshes| && u.refreshes[i].error == s.refreshes[i].error && !u.refreshes[i].phase.Created? && !u.refreshes[i].phase.Loading?
  {
    hide StoredContext, StoredBase, Invalidated, Failed, Looked, Begun, Ended;
  }

  lemma {:induction false} ErrorStaysInRun(s: System, steps: seq<Step>, limits: Limits, i: nat)
    requires i < |s.refreshes| && s.refreshes[i].error.Some? && !s.refreshes[i].phase.Created? && !s.refreshes[i].phase.Loading?
    ensures var u := Run(s, steps, limits); i < |u.refreshes| && u.refreshes[i].error == s.refreshes[i].error
    decreases |steps|
  {
    hide Next;
    if steps != [] {
      ErrorStays(s, steps[0], limits, i);
      ErrorStaysInRun(Next(s, steps[0], limits), steps[1..], limits, i);
    }
  }

  /** When a refresh finds its job gone, the job's context goes at once, and whoever waited for
      the refresh and finds no recent context gets the error, in every run. */
  lemma JobGoneIsReported(s: System, i: nat, steps: seq<Step>, r: nat, limits: Limits)
    requires Inv(s, limits) && 1 <= limits.maximum && limits.freshFor <= limits.knownGoodFor
    requires i < |s.refreshes| && s.refreshes[i].phase == Loading
    ensures s.refreshes[i].job !in Next(s, Fail(i, NotFound), limits).caches.contexts.vals
    ensures var u := Run(Next(s, Fail(i, NotFound), limits), steps, limits);
      r in u.requests && u.requests[r].pc.Rechecking? && u.requests[r].pc.refresh == i
      && Recent(u, u.requests[r].job, u.now, limits.knownGoodFor).None? ==>
        var z := Next(u, Recheck(r), limits); r in z.requests && z.requests[r].pc == Raised
  {
    hide Inv, Run, Failed;
    var v := Next(s, Fail(i, NotFound), limits);
    CachesAreWithin(s, limits);
    FailedDrops(s.caches, s.refreshes[i].job, NotFound, limits.maximum);
    StepKeepsInv(s, Fail(i, NotFound), limits);
    RunKeepsInv(v, steps, limits);
    ErrorStaysInRun(v, steps, limits, i);
    hide Next;
    var u := Run(v, steps, limits);
    if r in u.requests { AnswersAreExact(u, r, limits); }
  }

  lemma CachesAreWithin(s: System, limits: Limits)
    requires Inv(s, limits)
    ensures Within(s.caches, limits.maximum)
  {
    hide EntriesOk, LaunchersOk, RequestsOk, Within;
  }

  /** After an invalidation, or a base of another fingerprint, no request is answered with the
      context from before. */
  lemma ObsoleteIsNotServed(s: System, job: string, base: Base, r: nat, limits: Limits)
    requires Inv(s, limits) && 1 <= limits.maximum && limits.freshFor <= limits.knownGoodFor
    requires r in s.requests && s.requests[r].job == job && s.requests[r].pc.Asking?
    ensures var u := Next(Next(s, Invalidate(job), limits), Look(r), limits); r in u.requests && u.requests[r].pc.Starting?
    ensures job in s.caches.base.vals && s.caches.base.vals[job].fingerprint != base.fingerprint ==>
              var u := Next(Next(s, LookupBase(job, base), limits), Look(r), limits); r in u.requests && u.requests[r].pc.Starting?
  {
    hide Inv, Invalidated, StoredBase;
    CachesAreWithin(s, limits);
    InvalidatedDrops(s.caches, job, limits.maximum);
    StoredBaseDrops(s.caches, job, base, limits.maximum);
    StepKeepsInv(s, Invalidate(job), limits);
    StepKeepsInv(s, LookupBase(job, base), limits);
    AnswersAreExact(Next(s, Invalidate(job), limits), r, limits);
    AnswersAreExact(Next(s, LookupBase(job, base), limits), r, limits);
  }

  /** One refresh per job is loading at a time, and the caches stay within their limit. */
  lemma OneRefreshPerJob(steps: seq<Step>, limits: Limits)
    requires 1 <= limits.maximum && limits.freshFor <= limits.knownGoodFor
    ensures var s := Run(Initial, steps, limits);
      && Within(s.caches, limits.maximum)
      && (forall i, j | 0 <= i < j < |s.refreshes| && Entered(s.refreshes[i].phase) && Entered(s.refreshes[j].phase) ::
            s.refreshes[i].job != s.refreshes[j].job)
  {
    InitialInv(limits);
    RunKeepsInv(Initial, steps, limits);
    hide Run, LaunchersOk, RequestsOk, Within;
  }

  // ---- refreshes that end, and one that does not ----------------------------------------------------

  /** How many turns of its own a refresh has left at most. */
  function Rank(p: Phase): nat {
    match p
    case Created => 5
    case Loading => 4
    case Loaded(_) => 3
    case Ending => 2
    case Releasing => 1
    case Over => 0
    case Stranded => 0
  }

  /** A turn of refresh i: the start of its thread, or a step of that thread. */
  predicate Acts(s: System, step: Step, i: nat) {
    && i < |s.refreshes|
    && match step
       case Launch(r, _) =>
         r in s.requests && s.requests[r].pc.Launching? && s.requests[r].pc.refresh == i && s.refreshes[i].phase == Created
       case Load(j) => j == i && s.refreshes[i].phase == Loading
       case Fail(j, _) => j == i && s.refreshes[i].phase == Loading
       case Store(j) => j == i && s.refreshes[i].phase.Loaded?
       case End(j) => j == i && s.refreshes[i].phase == Ending
       case Release(j) => j == i && s.refreshes[i].phase == Releasing
       case _ => false
  }

  /** The turns refresh i has in a run. */
  function Turns(s: System, steps: seq<Step>, limits: Limits, i: nat): nat
    decreases |steps|
  {
    if steps == [] then 0
    else (if Acts(s, steps[0], i) then 1 else 0) + Turns(Next(s, steps[0], limits), steps[1..], limits, i)
  }

  /** A turn lowers the rank, whether the load succeeds or fails; no other step of anyone
      changes the phase, and a thread that was started is not stranded any more. */
  lemma TurnLowersRank(s: System, step: Step, limits: Limits, i: nat)
    requires i < |s.refreshes|
    ensures var u := Next(s, step, limits);
      && i < |u.refreshes|
      && (if Acts(s, step, i) then Rank(u.refreshes[i].phase) < Rank(s.refreshes[i].phase)
          else u.refreshes[i].phase == s.refreshes[i].phase)
      && (u.refreshes[i].phase == Stranded ==> s.refreshes[i].phase == Stranded || s.refreshes[i].phase == Created)
      && (u.refreshes[i].phase == Created ==> s.refreshes[i].phase == Created)
  {
    hide StoredContext, StoredBase, Invalidated, Failed, Looked, Begun, Ended;
  }

  /** Until its event is set or its start has failed, a refresh has a turn to take, and
      takes it whichever way the start or the load goes. */
  lemma TurnIsThere(s: System, i: nat, limits: Limits, started: bool, failure: Failure)
    requires Inv(s, limits) && i < |s.refreshes|
    ensures match s.refreshes[i].phase
      case Created => exists r :: Acts(s, Launch(r, started), i)
      case Loading => Acts(s, Load(i), i) && Acts(s, Fail(i, failure), i)
      case Loaded(_) => Acts(s, Store(i), i)
      case Ending => Acts(s, End(i), i)
      case Releasing => Acts(s, Release(i), i)
      case _ => true
  {
    hide RequestsOk, CachesOk, EntriesOk;
    if s.refreshes[i].phase == Created {
      assert HasLauncher(s, i);
      var r :| r in s.requests && s.requests[r].pc.Launching? && s.requests[r].pc.refresh == i;
      assert Acts(s, Launch(r, started), i);
    }
  }

  lemma {:induction false} TurnsLowerRank(s: System, steps: seq<Step>, limits: Limits, i: nat)
    requires i < |s.refreshes|
    ensures var u := Run(s, steps, limits);
      && i < |u.refreshes|
      && Turns(s, steps, limits, i) + Rank(u.refreshes[i].phase) <= Rank(s.refreshes[i].phase)
      && (u.refreshes[i].phase == Stranded ==> s.refreshes[i].phase == Stranded || s.refreshes[i].phase == Created)
      && (u.refreshes[i].phase == Created ==> s.refreshes[i].phase == Created)
    decreases |steps|
  {
    hide Next, Acts, Rank;
    if steps != [] {
      TurnLowersRank(s, steps[0], limits, i);
      TurnsLowerRank(Next(s, steps[0], limits), steps[1..], limits, i);
    }
  }

  /** In every interleaving a refresh whose thread was started has set its event after at
      most four turns of its own, however its load goes and whatever else happens between. */
  lemma RunningRefreshEnds(s: System, steps: seq<Step>, limits: Limits, i: nat)
    requires i < |s.refreshes| && s.refreshes[i].phase != Created && s.refreshes[i].phase != Stranded
    ensures Turns(s, steps, limits, i) <= 4
    ensures Turns(s, steps, limits, i) >= Rank(s.refreshes[i].phase) ==>
              var u := Run(s, steps, limits); i < |u.refreshes| && u.refreshes[i].phase == Over
  {
    TurnsLowerRank(s, steps, limits, i);
    hide Turns, Run;
  }

  lemma RunOfOneMore(s: System, step: Step, steps: seq<Step>, limits: Limits)
    ensures Run(s, [step] + steps, limits) == Run(Next(s, step, limits), steps, limits)
  {
    hide Next;
    assert ([step] + steps)[1..] == steps;
  }

  /** A refresh whose thread could not be started stays in the table, and no new context is
      ever stored for its job. */
  lemma StrandedStays(s: System, step: Step, limits: Limits, i: nat)
    requires Inv(s, limits) && 1 <= limits.maximum && i < |s.refreshes| && s.refreshes[i].phase == Stranded
    ensures var u := Next(s, step, limits); var job := s.refreshes[i].job;
      && i < |u.refreshes| && u.refreshes[i] == s.refreshes[i]
      && (job in u.caches.contexts.vals ==>
            job in s.caches.contexts.vals && u.caches.contexts.vals[job] == s.caches.contexts.vals[job])
  {
    hide RequestsOk, LaunchersOk, StoredContext, StoredBase, Invalidated, Failed, Looked, Begun, Ended;
    StepOnCaches(s, step, limits);
    if step.Store? && step.refresh < |s.refreshes| && s.refreshes[step.refresh].phase.Loaded? {
      StoredContextKeeps(s.caches, s.refreshes[step.refresh].job, Snapshot(s.stored, s.refreshes[step.refresh].phase.loadedAt), limits.maximum);
    }
  }

  lemma {:induction false} StrandedForever(s: System, steps: seq<Step>, limits: Limits, i: nat)
    requires Inv(s, limits) && 1 <= limits.maximum && limits.freshFor <= limits.knownGoodFor
    requires i < |s.refreshes| && s.refreshes[i].phase == Stranded
    ensures var u := Run(s, steps, limits); var job := s.refreshes[i].job;
      && i < |u.refreshes| && u.refreshes[i] == s.refreshes[i]
      && (job in u.caches.contexts.vals ==>
            job in s.caches.contexts.vals && u.caches.contexts.vals[job] == s.caches.contexts.vals[job])
    decreases |steps|
  {
    hide Inv, Next;
    if steps != [] {
      StrandedStays(s, steps[0], limits, i);
      StepKeepsInv(s, steps[0], limits);
      StrandedForever(Next(s, steps[0], limits), steps[1..], limits, i);
    }
  }

  ghost predicate EventSet(s: System, i: nat) { i < |s.refreshes| && s.refreshes[i].phase == Over }

  /** What the start of a refresh's thread decides. If it succeeds, the event is set in every
      run from there that gives the thread its four turns; if it fails, the event is set
      in none, as there is no turn left to take. */
  lemma EventIsSetIffStarted(s: System, r: nat, started: bool, steps: seq<Step>, limits: Limits, i: nat)
    requires Inv(s, limits) && 1 <= limits.maximum && limits.freshFor <= limits.knownGoodFor && Acts(s, Launch(r, started), i)
    ensures var v := Next(s, Launch(r, started), limits);
      if started then Turns(v, steps, limits, i) >= 4 ==> EventSet(Run(v, steps, limits), i)
      else Turns(v, steps, limits, i) == 0 && !EventSet(Run(v, steps, limits), i)
    ensures var v := Next(s, Launch(r, started), limits);
      started <==> exists more :: EventSet(Run(v, more, limits), i)
  {
    var v := Next(s, Launch(r, started), limits);
    StepKeepsInv(s, Launch(r, started), limits);
    assert i < |v.refreshes| && v.refreshes[i].phase == if started then Loading else Stranded;
    hide Inv, Next, Acts, Turns, Run;
    if started {
      RunningRefreshEnds(v, steps, limits, i);
      FailedLoadEnds(v, limits, i);
      assert EventSet(Run(v, [Fail(i, NotFound), End(i), Release(i)], limits), i);
    } else {
      TurnsLowerRank(v, steps, limits, i);
      forall more
        ensures !EventSet(Run(v, more, limits), i)
      {
        StrandedForever(v, more, limits, i);
      }
    }
  }

  lemma FailedLoadEnds(s: System, limits: Limits, i: nat)
    requires i < |s.refreshes| && s.refreshes[i].phase == Loading
    ensures EventSet(Run(s, [Fail(i, NotFound), End(i), Release(i)], limits), i)
  {
    hide Failed, Ended;
    var a := Next(s, Fail(i, NotFound), limits);
    var b := Next(a, End(i), limits);
    assert [Fail(i, NotFound)] + [End(i), Release(i)] == [Fail(i, NotFound), End(i), Release(i)];
    RunOfOneMore(s, Fail(i, NotFound), [End(i), Release(i)], limits);
    assert [End(i)] + [Release(i)] == [End(i), Release(i)];
    RunOfOneMore(a, End(i), [Release(i)], limits);
    assert [Release(i)] + [] == [Release(i)];
    RunOfOneMore(b, Release(i), [], limits);
  }

  /** It happens: the first request for a job, and the system has no thread to give. */
  lemma StrandedExample(limits: Limits)
    ensures var s := Run(Initial, [Ask(0, "job"), Look(0), Begin(0), Launch(0, false)], limits);
      && s.refreshes == [Refresh("job", Stranded, None)] && s.caches.refreshes == map["job" := 0]
  {
    var a := Next(Initial, Ask(0, "job"), limits);
    var b := Next(a, Look(0), limits);
    var c := Next(b, Begin(0), limits);
    assert c.caches.refreshes == map["job" := 0];
    var d := Next(c, Launch(0, false), limits);
    assert [Launch(0, false)] + [] == [Launch(0, false)];
    RunOfOneMore(c, Launch(0, false), [], limits);
    assert [Begin(0)] + [Launch(0, false)] == [Begin(0), Launch(0, false)];
    RunOfOneMore(b, Begin(0), [Launch(0, false)], limits);
    assert [Look(0)] + [Begin(0), Launch(0, false)] == [Look(0), Begin(0), Launch(0, false)];
    RunOfOneMore(a, Look(0), [Begin(0), Launch(0, false)], limits);
    assert [Ask(0, "job")] + [Look(0), Begin(0), Launch(0, false)] == [Ask(0, "job"), Look(0), Begin(0), Launch(0, false)];
    RunOfOneMore(Initial, Ask(0, "job"), [Look(0), Begin(0), Launch(0, false)], limits);
  }
}
