/** All interleavings of requests on the idempotency registry: each locked region, each
    call and each resolution of a future is one step of one thread. */
module IdempotencyThreads {
  import opened OrderedDicts
  import opened IdempotencyRegistries

  /** How an executed call ended: a response, or an exception. The number is the call's. */
  datatype Outcome = Response(call: nat) | Failure(call: nat)

  datatype Pc =
    | Arriving
    | Waiting(future: nat)                          // future.result()
    | Calling(future: nat, call: nat)               // inside call()
    | Storing(future: nat, call: nat, expires: int) // about to store the response
    | Building(future: nat, call: nat)              // stored; about to build the answer from it
    | Resolving(future: nat, outcome: Outcome)      // about to resolve the future
    | Leaving(future: nat, outcome: Outcome)        // about to take the entry out
    | Done(outcome: Outcome, replayed: bool)
    | Refused

  datatype Thread = Thread(id: Identity, fingerprint: string, pc: Pc)

  /** What became of a call: still running, returned (its response to be stored or, for a
      ready-made response, only shared), or raised. */
  datatype Fate = Running | Returned(storable: bool) | Raised

  /** One execution of a request's work. */
  datatype Call = Call(id: Identity, fingerprint: string, fate: Fate)

  /** `calls` is the log of all executions; `futures` holds for each future its outcome
      once resolved, and `purpose` (a history variable) the request it was made for. */
  datatype System = System(
    registry: Registry, now: int, threads: map<nat, Thread>, calls: seq<Call>,
    futures: seq<Option<Outcome>>, purpose: seq<(Identity, string)>)

  datatype Step =
    | Tick(seconds: nat)
    | Arrive(thread: nat, id: Identity, fingerprint: string)
    | Enter(thread: nat)
    | Return(thread: nat, storable: bool)
    | Raise(thread: nat)
    | Store(thread: nat)
    | Build(thread: nat, succeeds: bool)
    | Resolve(thread: nat)
    | Leave(thread: nat)
    | Wake(thread: nat)

  function Moved(s: System, t: nat, pc: Pc): map<nat, Thread>
    requires t in s.threads
  {
    s.threads[t := s.threads[t].(pc := pc)]
  }

  function Next(s: System, step: Step, ttl: int, maximum: nat): System {
    match step
    case Tick(seconds) => s.(now := s.now + seconds)
    case Arrive(t, id, fingerprint) => if t in s.threads then s else s.(threads := s.threads[t := Thread(id, fingerprint, Arriving)])
    case Enter(t) =>
      if t in s.threads && s.threads[t].pc == Arriving then
        var x := s.threads[t];
        var (registry, admission) := Admit(s.registry, x.id, x.fingerprint, s.now, |s.futures|);
        match admission
        case Conflict => s.(registry := registry, threads := Moved(s, t, Refused))
        case Replayed(replay) => s.(registry := registry, threads := Moved(s, t, Done(Response(replay.call), true)))
        case Follow(future) => s.(registry := registry, threads := Moved(s, t, Waiting(future)))
        case Own => s.(registry := registry, threads := Moved(s, t, Calling(|s.futures|, |s.calls|)),
                       calls := s.calls + [Call(x.id, x.fingerprint, Running)],
                       futures := s.futures + [None], purpose := s.purpose + [(x.id, x.fingerprint)])
      else s
    case Return(t, storable) =>
      if t in s.threads && s.threads[t].pc.Calling? && s.threads[t].pc.call < |s.calls| then
        var c := s.threads[t].pc.call; var f := s.threads[t].pc.future;
        s.(calls := s.calls[c := s.calls[c].(fate := Returned(storable))],
           threads := Moved(s, t, if storable then Storing(f, c, s.now + ttl) else Resolving(f, Response(c))))
      else s
    case Raise(t) =>
      if t in s.threads && s.threads[t].pc.Calling? && s.threads[t].pc.call < |s.calls| then
        var c := s.threads[t].pc.call;
        s.(calls := s.calls[c := s.calls[c].(fate := Raised)],
           threads := Moved(s, t, Resolving(s.threads[t].pc.future, Failure(c))))
      else s
    case Store(t) =>
      if t in s.threads && s.threads[t].pc.Storing? then
        var x := s.threads[t];
        s.(registry := Stored(s.registry, x.id, Replay(x.fingerprint, x.pc.call, x.pc.expires), s.now, maximum),
           threads := Moved(s, t, Building(x.pc.future, x.pc.call)))
      else s
    case Build(t, succeeds) =>
      if t in s.threads && s.threads[t].pc.Building? then
        var pc := s.threads[t].pc;
        s.(threads := Moved(s, t, Resolving(pc.future, if succeeds then Response(pc.call) else Failure(pc.call))))
      else s
    case Resolve(t) =>
      if t in s.threads && s.threads[t].pc.Resolving? && s.threads[t].pc.future < |s.futures| then
        var pc := s.threads[t].pc;
        s.(futures := s.futures[pc.future := Some(pc.outcome)], threads := Moved(s, t, Leaving(pc.future, pc.outcome)))
      else s
    case Leave(t) =>
      if t in s.threads && s.threads[t].pc.Leaving? then
        s.(registry := Settled(s.registry, s.threads[t].id), threads := Moved(s, t, Done(s.threads[t].pc.outcome, false)))
      else s
    case Wake(t) =>
      if t in s.threads && s.threads[t].pc.Waiting? && s.threads[t].pc.future < |s.futures| && s.futures[s.threads[t].pc.future].Some? then
        s.(threads := Moved(s, t, Done(s.futures[s.threads[t].pc.future].value, true)))
      else s
  }

  function Run(s: System, steps: seq<Step>, ttl: int, maximum: nat): System
    decreases |steps|
  {
    if steps == [] then s else Run(Next(s, steps[0], ttl, maximum), steps[1..], ttl, maximum)
  }

  const Initial: System := System(Registry(Empty(), map[]), 0, map[], [], [], [])

  // ---- the invariant ------------------------------------------------------------------

  /** A thread that owns its key: from its admission until it takes the entry out. */
  predicate Owning(pc: Pc) { pc.Calling? || pc.Storing? || pc.Building? || pc.Resolving? || pc.Leaving? }

  predicate Unresolved(pc: Pc) { pc.Calling? || pc.Storing? || pc.Building? || pc.Resolving? }

  /** The outcome is that of a call made for this very request: a response it returned, or
      the failure of a call that raised, or whose stored response could not be built. */
  ghost predicate MadeFor(calls: seq<Call>, outcome: Outcome, id: Identity, fingerprint: string) {
    && outcome.call < |calls|
    && calls[outcome.call].id == id && calls[outcome.call].fingerprint == fingerprint
    && if outcome.Response? then calls[outcome.call].fate.Returned? else calls[outcome.call].fate in {Raised, Returned(true)}
  }

  ghost predicate Bound(s: System, x: Thread, f: nat) {
    f < |s.futures| && f < |s.purpose| && s.purpose[f] == (x.id, x.fingerprint)
  }

  ghost predicate Owned(s: System, x: Thread, f: nat) {
    Bound(s, x, f) && x.id in s.registry.inflight && s.registry.inflight[x.id] == InFlight(x.fingerprint, f)
  }

  ghost predicate ThreadOk(s: System, x: Thread) {
    match x.pc
    case Arriving => true
    case Refused => true
    case Waiting(f) => Bound(s, x, f)
    case Calling(f, c) =>
      && Owned(s, x, f) && s.futures[f].None? && x.id !in s.registry.records.vals
      && c < |s.calls| && s.calls[c] == Call(x.id, x.fingerprint, Running)
    case Storing(f, c, _) =>
      && Owned(s, x, f) && s.futures[f].None? && x.id !in s.registry.records.vals
      && c < |s.calls| && s.calls[c] == Call(x.id, x.fingerprint, Returned(true))
    case Building(f, c) =>
      Owned(s, x, f) && s.futures[f].None? && c < |s.calls| && s.calls[c] == Call(x.id, x.fingerprint, Returned(true))
    case Resolving(f, o) => Owned(s, x, f) && s.futures[f].None? && MadeFor(s.calls, o, x.id, x.fingerprint)
    case Leaving(f, o) => Owned(s, x, f) && s.futures[f] == Some(o) && MadeFor(s.calls, o, x.id, x.fingerprint)
    case Done(o, _) => MadeFor(s.calls, o, x.id, x.fingerprint)
  }

  ghost predicate ThreadsOk(s: System) { forall t | t in s.threads :: ThreadOk(s, s.threads[t]) }

  /** A record holds the response of a call for its own request that returned it. */
  ghost predicate RecordsOk(s: System) {
    && s.registry.records.Valid()
    && forall id | id in s.registry.records.vals ::
         var r := s.registry.records.vals[id];
         r.call < |s.calls| && s.calls[r.call] == Call(id, r.fingerprint, Returned(true))
  }

  ghost predicate FuturesOk(s: System) {
    && |s.purpose| == |s.futures|
    && (forall id | id in s.registry.inflight ::
          var e := s.registry.inflight[id]; e.future < |s.futures| && s.purpose[e.future] == (id, e.fingerprint))
    && (forall f | 0 <= f < |s.futures| && s.futures[f].Some? :: MadeFor(s.calls, s.futures[f].value, s.purpose[f].0, s.purpose[f].1))
  }

  /** No two owners share a key. */
  ghost predicate OneOwner(s: System) {
    forall t, u | t in s.threads && u in s.threads && Owning(s.threads[t].pc) && Owning(s.threads[u].pc)
      && s.threads[t].id == s.threads[u].id :: t == u
  }

  ghost predicate HasOwner(s: System, id: Identity) {
    exists t :: t in s.threads && Owning(s.threads[t].pc) && s.threads[t].id == id
  }

  ghost predicate HasResolver(s: System, f: nat) {
    exists t :: t in s.threads && Unresolved(s.threads[t].pc) && s.threads[t].pc.future == f
  }

  ghost predicate HasRunner(s: System, c: nat) {
    exists t :: t in s.threads && s.threads[t].pc.Calling? && s.threads[t].pc.call == c
  }

  /** Entries in flight, unresolved futures and running calls all have a thread at work on them. */
  ghost predicate Attended(s: System) {
    && (forall id | id in s.registry.inflight :: HasOwner(s, id))
    && (forall f | 0 <= f < |s.futures| && s.futures[f].None? :: HasResolver(s, f))
    && (forall c | 0 <= c < |s.calls| && s.calls[c].fate.Running? :: HasRunner(s, c))
  }

  /** A call that has ended, has no record and will get none. */
  ghost predicate Gone(s: System, c: nat) {
    && c < |s.calls| && !s.calls[c].fate.Running?
    && (s.calls[c].id in s.registry.records.vals ==> s.registry.records.vals[s.calls[c].id].call != c)
    && forall t | t in s.threads && s.threads[t].pc.Storing? :: s.threads[t].pc.call != c
  }

  /** Work is done again for a key only once the earlier calls are gone. */
  ghost predicate OneAtATime(s: System) {
    forall c, d | 0 <= c < d < |s.calls| && s.calls[c].id == s.calls[d].id :: Gone(s, c)
  }

  ghost predicate Inv(s: System) {
    RecordsOk(s) && FuturesOk(s) && ThreadsOk(s) && OneOwner(s) && Attended(s) && OneAtATime(s)
  }

  lemma InitialInv()
    ensures Inv(Initial)
  {
  }

  // ---- what one step of one thread may change --------------------------------------------

  /** Calls, futures and their purposes are only added to; a finished call and a resolved
      future stay as they are. */
  ghost predicate Later(s: System, u: System) {
    && |s.calls| <= |u.calls| && |s.futures| <= |u.futures| && |s.purpose| <= |u.purpose|
    && (forall c | 0 <= c < |s.calls| :: u.calls[c].id == s.calls[c].id && u.calls[c].fingerprint == s.calls[c].fingerprint)
    && (forall c | 0 <= c < |s.calls| && !s.calls[c].fate.Running? :: u.calls[c] == s.calls[c])
    && (forall f | 0 <= f < |s.futures| && s.futures[f].Some? :: u.futures[f] == s.futures[f])
    && (forall f | 0 <= f < |s.purpose| :: u.purpose[f] == s.purpose[f])
  }

  /** What belongs to other keys is untouched, except that records may have gone. */
  ghost predicate Elsewhere(s: System, u: System, touched: set<Identity>) {
    && (forall k | k !in touched :: k in u.registry.inflight <==> k in s.registry.inflight)
    && (forall k | k !in touched && k in s.registry.inflight :: u.registry.inflight[k] == s.registry.inflight[k])
    && (forall k | k !in touched && k in u.registry.records.vals :: k in s.registry.records.vals)
    && (forall c | 0 <= c < |s.calls| && c < |u.calls| && s.calls[c].id !in touched :: u.calls[c] == s.calls[c])
    && (forall f | 0 <= f < |s.futures| && f < |u.futures| && f < |s.purpose| && s.purpose[f].0 !in touched :: u.futures[f] == s.futures[f])
  }

  /** Only thread t moves, and it touches a key only as its owner. */
  ghost predicate Moves(s: System, u: System, t: nat, touched: set<Identity>) {
    && t in u.threads && u.threads == s.threads[t := u.threads[t]]
    && (t in s.threads ==> u.threads[t].id == s.threads[t].id && u.threads[t].fingerprint == s.threads[t].fingerprint)
    && (t in s.threads && Owning(s.threads[t].pc) ==> u.threads[t].id in touched)
    && (Owning(u.threads[t].pc) ==> u.threads[t].id in touched)
    && (forall k | k in touched :: k == u.threads[t].id)
    && (forall x | x in s.threads && x != t && Owning(s.threads[x].pc) :: s.threads[x].id !in touched)
  }

  /** Every record was there before, unless t is the thread storing it. */
  ghost predicate RecordsFrom(s: System, u: System, t: nat) {
    && u.registry.records.Valid()
    && forall k | k in u.registry.records.vals ::
         var r := u.registry.records.vals[k];
         || (k in s.registry.records.vals && r == s.registry.records.vals[k])
         || (t in s.threads && s.threads[t].pc.Storing? && k == s.threads[t].id
             && r.call == s.threads[t].pc.call && r.fingerprint == s.threads[t].fingerprint)
  }

  ghost predicate FuturesFrom(s: System, u: System, t: nat, touched: set<Identity>)
    requires t in u.threads
  {
    && |u.purpose| == |u.futures|
    && (forall k | k in touched && k in u.registry.inflight :: Owning(u.threads[t].pc))
    && (forall f | 0 <= f < |u.futures| && u.futures[f].Some? ::
          (f < |s.futures| && s.futures[f].Some?) || (u.threads[t].pc.Leaving? && u.threads[t].pc.future == f))
    && (forall f | 0 <= f < |u.futures| && u.futures[f].None? ::
          || (Unresolved(u.threads[t].pc) && u.threads[t].pc.future == f)
          || (f < |s.futures| && s.futures[f].None?
              && !(t in s.threads && Unresolved(s.threads[t].pc) && s.threads[t].pc.future == f)))
  }

  ghost predicate CallsFrom(s: System, u: System, t: nat, touched: set<Identity>)
    requires t in u.threads
  {
    && (forall c | 0 <= c < |u.calls| && u.calls[c].fate.Running? ::
          || (u.threads[t].pc.Calling? && u.threads[t].pc.call == c)
          || (c < |s.calls| && s.calls[c].fate.Running?
              && !(t in s.threads && s.threads[t].pc.Calling? && s.threads[t].pc.call == c)))
    && (|u.calls| > |s.calls| ==>
          var id := u.threads[t].id;
          && |u.calls| == |s.calls| + 1 && u.calls[|s.calls|].id == id
          && id !in s.registry.inflight && id !in u.registry.records.vals)
    && (u.threads[t].pc.Storing? ==> t in s.threads && s.threads[t].pc.Calling? && s.threads[t].pc.call == u.threads[t].pc.call)
  }

  ghost predicate Allowed(s: System, u: System, t: nat, touched: set<Identity>) {
    && Later(s, u) && Elsewhere(s, u, touched) && Moves(s, u, t, touched)
    && RecordsFrom(s, u, t) && FuturesFrom(s, u, t, touched) && CallsFrom(s, u, t, touched)
    && ThreadOk(u, u.threads[t])
  }

  // ---- allowed steps keep the invariant ---------------------------------------------------

  lemma OtherThreadOk(s: System, u: System, touched: set<Identity>, x: Thread)
    requires |s.purpose| == |s.futures| && Later(s, u) && Elsewhere(s, u, touched)
    requires ThreadOk(s, x) && (Owning(x.pc) ==> x.id !in touched)
    ensures ThreadOk(u, x)
  {
  }

  lemma AllowedThreads(s: System, u: System, t: nat, touched: set<Identity>)
    requires Inv(s) && Allowed(s, u, t, touched)
    ensures ThreadsOk(u) && OneOwner(u)
  {
    hide ThreadOk, RecordsOk, Attended, OneAtATime, RecordsFrom, FuturesFrom, CallsFrom, Later, Elsewhere;
    forall x | x in u.threads
      ensures ThreadOk(u, u.threads[x])
    {
      if x != t {
        FuturesLength(s);
        OtherThreadOk(s, u, touched, s.threads[x]);
      }
    }
  }

  lemma FuturesLength(s: System)
    requires FuturesOk(s)
    ensures |s.purpose| == |s.futures|
  {
  }

  lemma AllowedRecords(s: System, u: System, t: nat, touched: set<Identity>)
    requires Inv(s) && Allowed(s, u, t, touched)
    ensures RecordsOk(u)
  {
    hide Attended, OneAtATime, FuturesFrom, CallsFrom, Elsewhere, FuturesOk, OneOwner;
    forall k | k in u.registry.records.vals
      ensures u.registry.records.vals[k].call < |u.calls|
      ensures u.calls[u.registry.records.vals[k].call] == Call(k, u.registry.records.vals[k].fingerprint, Returned(true))
    {
      if t in s.threads && s.threads[t].pc.Storing? && k == s.threads[t].id {
        assert ThreadOk(s, s.threads[t]);
      }
    }
  }

  lemma AllowedEntries(s: System, u: System, t: nat, touched: set<Identity>)
    requires Inv(s) && Allowed(s, u, t, touched)
    ensures forall id | id in u.registry.inflight ::
      var e := u.registry.inflight[id]; e.future < |u.futures| && u.purpose[e.future] == (id, e.fingerprint)
  {
    hide Attended, OneAtATime, RecordsFrom, CallsFrom, RecordsOk, OneOwner, ThreadsOk, MadeFor;
  }

  lemma AllowedFutures(s: System, u: System, t: nat, touched: set<Identity>)
    requires Inv(s) && Allowed(s, u, t, touched)
    ensures FuturesOk(u)
  {
    hide Attended, OneAtATime, RecordsFrom, CallsFrom, RecordsOk, OneOwner, ThreadsOk;
    AllowedEntries(s, u, t, touched);
    hide Elsewhere, Moves;
  }

  lemma AllowedAttended(s: System, u: System, t: nat, touched: set<Identity>)
    requires Inv(s) && Allowed(s, u, t, touched)
    ensures Attended(u)
  {
    hide OneAtATime, RecordsFrom, RecordsOk, OneOwner, ThreadsOk, ThreadOk, FuturesOk;
    forall k | k in u.registry.inflight
      ensures HasOwner(u, k)
    {
      if k in touched {
        assert u.threads[t].id == k;
      } else {
        var x :| x in s.threads && Owning(s.threads[x].pc) && s.threads[x].id == k;
        assert x != t && x in u.threads && u.threads[x] == s.threads[x];
      }
    }
    forall f | 0 <= f < |u.futures| && u.futures[f].None?
      ensures HasResolver(u, f)
    {
      if !(Unresolved(u.threads[t].pc) && u.threads[t].pc.future == f) {
        var x :| x in s.threads && Unresolved(s.threads[x].pc) && s.threads[x].pc.future == f;
        assert x != t && x in u.threads && u.threads[x] == s.threads[x];
      }
    }
    forall c | 0 <= c < |u.calls| && u.calls[c].fate.Running?
      ensures HasRunner(u, c)
    {
      if !(u.threads[t].pc.Calling? && u.threads[t].pc.call == c) {
        var x :| x in s.threads && s.threads[x].pc.Calling? && s.threads[x].pc.call == c;
        assert x != t && x in u.threads && u.threads[x] == s.threads[x];
      }
    }
  }

  lemma GoneStays(s: System, u: System, t: nat, touched: set<Identity>, c: nat)
    requires Inv(s) && Allowed(s, u, t, touched) && Gone(s, c)
    ensures Gone(u, c)
  {
    hide RecordsOk, FuturesOk, OneOwner, OneAtATime, Elsewhere, FuturesFrom, Attended;
    assert u.threads[t].pc.Storing? ==> ThreadOk(s, s.threads[t]);
  }

  lemma AllowedOneAtATime(s: System, u: System, t: nat, touched: set<Identity>)
    requires Inv(s) && Allowed(s, u, t, touched)
    ensures OneAtATime(u)
  {
    hide Gone, RecordsOk, FuturesOk, OneOwner, Elsewhere, FuturesFrom, Attended, ThreadOk, ThreadsOk, RecordsFrom, Moves;
    forall c, d | 0 <= c < d < |u.calls| && u.calls[c].id == u.calls[d].id
      ensures Gone(u, c)
    {
      if d < |s.calls| {
        assert Gone(s, c);
        GoneStays(s, u, t, touched, c);
      } else {
        IdleKeyIsGoneAfter(s, u, t, touched, c);
      }
    }
  }

  /** When a thread comes to own a key, no earlier call for it is running or waiting to be stored. */
  lemma IdleKeyIsGoneAfter(s: System, u: System, t: nat, touched: set<Identity>, c: nat)
    requires Inv(s) && Allowed(s, u, t, touched) && c < |s.calls| < |u.calls| && u.calls[c].id == u.threads[t].id
    ensures Gone(u, c)
  {
    hide RecordsOk, FuturesOk, OneOwner, OneAtATime, Elsewhere, FuturesFrom;
    forall x | x in s.threads && (s.threads[x].pc.Storing? || s.threads[x].pc.Calling?)
      ensures s.threads[x].pc.call != c
    {
      assert ThreadOk(s, s.threads[x]);
    }
    assert !HasRunner(s, c);
  }

  lemma AllowedKeepsInv(s: System, u: System, t: nat, touched: set<Identity>)
    requires Inv(s) && Allowed(s, u, t, touched)
    ensures Inv(u)
  {
    hide RecordsOk, FuturesOk, OneOwner, OneAtATime, Elsewhere, FuturesFrom, Attended, ThreadOk, ThreadsOk, RecordsFrom, Moves, Later;
    AllowedThreads(s, u, t, touched);
    AllowedRecords(s, u, t, touched);
    AllowedFutures(s, u, t, touched);
    AllowedAttended(s, u, t, touched);
    AllowedOneAtATime(s, u, t, touched);
  }

  // ---- every step is allowed ---------------------------------------------------------------

  /** A request that does not become the owner leaves with an outcome made for it, waits
      on a future made for it, or is refused. */
  lemma EnterAsideThread(s: System, t: nat, ttl: int, maximum: nat)
    requires Inv(s) && t in s.threads && s.threads[t].pc == Arriving
    requires Admit(s.registry, s.threads[t].id, s.threads[t].fingerprint, s.now, |s.futures|).1 != Own
    ensures var u := Next(s, Enter(t), ttl, maximum); ThreadOk(u, u.threads[t])
  {
    hide Admit, Attended, OneOwner, OneAtATime, ThreadsOk;
    var x := s.threads[t];
    AdmissionIsExact(s.registry, x.id, x.fingerprint, s.now, |s.futures|);
  }

  lemma EnterAside(s: System, t: nat, ttl: int, maximum: nat)
    requires Inv(s) && t in s.threads && s.threads[t].pc == Arriving
    requires Admit(s.registry, s.threads[t].id, s.threads[t].fingerprint, s.now, |s.futures|).1 != Own
    ensures Allowed(s, Next(s, Enter(t), ttl, maximum), t, {})
  {
    hide Admit, Attended, OneOwner, OneAtATime, ThreadOk;
    var x := s.threads[t];
    AdmissionEffect(s.registry, x.id, x.fingerprint, s.now, |s.futures|);
    EnterAsideThread(s, t, ttl, maximum);
  }

  lemma OwnersAreInFlight(s: System)
    requires ThreadsOk(s)
    ensures forall y | y in s.threads && Owning(s.threads[y].pc) :: s.threads[y].id in s.registry.inflight
  {
    assert forall y | y in s.threads :: ThreadOk(s, s.threads[y]);
  }

  lemma EnterAsOwnerThread(s: System, t: nat, ttl: int, maximum: nat)
    requires Inv(s) && t in s.threads && s.threads[t].pc == Arriving
    requires Admit(s.registry, s.threads[t].id, s.threads[t].fingerprint, s.now, |s.futures|).1 == Own
    ensures var u := Next(s, Enter(t), ttl, maximum); ThreadOk(u, u.threads[t])
  {
    hide Admit, Attended, OneOwner, OneAtATime, ThreadsOk;
    var x := s.threads[t];
    AdmissionEffect(s.registry, x.id, x.fingerprint, s.now, |s.futures|);
  }

  lemma OwnerOnlyAdds(s: System, t: nat, ttl: int, maximum: nat)
    requires Inv(s) && t in s.threads && s.threads[t].pc == Arriving
    requires Admit(s.registry, s.threads[t].id, s.threads[t].fingerprint, s.now, |s.futures|).1 == Own
    ensures Later(s, Next(s, Enter(t), ttl, maximum)) && Elsewhere(s, Next(s, Enter(t), ttl, maximum), {s.threads[t].id})
  {
    hide Admit, Attended, OneOwner, OneAtATime, ThreadOk, ThreadsOk;
    AdmissionEffect(s.registry, s.threads[t].id, s.threads[t].fingerprint, s.now, |s.futures|);
  }

  lemma OwnerMoves(s: System, t: nat, ttl: int, maximum: nat)
    requires Inv(s) && t in s.threads && s.threads[t].pc == Arriving
    requires Admit(s.registry, s.threads[t].id, s.threads[t].fingerprint, s.now, |s.futures|).1 == Own
    ensures Moves(s, Next(s, Enter(t), ttl, maximum), t, {s.threads[t].id}) && RecordsFrom(s, Next(s, Enter(t), ttl, maximum), t)
  {
    hide Admit, Attended, OneOwner, OneAtATime, ThreadOk;
    OwnersAreInFlight(s);
    hide ThreadsOk;
    var x := s.threads[t];
    AdmissionEffect(s.registry, x.id, x.fingerprint, s.now, |s.futures|);
    AdmissionIsExact(s.registry, x.id, x.fingerprint, s.now, |s.futures|);
  }

  lemma OwnerHasFuture(s: System, t: nat, ttl: int, maximum: nat)
    requires Inv(s) && t in s.threads && s.threads[t].pc == Arriving
    requires Admit(s.registry, s.threads[t].id, s.threads[t].fingerprint, s.now, |s.futures|).1 == Own
    ensures FuturesFrom(s, Next(s, Enter(t), ttl, maximum), t, {s.threads[t].id})
  {
    RecordsAreValid(s);
    FuturesLength(s);
    hide Admit, Attended, OneOwner, OneAtATime, ThreadsOk, RecordsOk, FuturesOk;
    AdmissionEffect(s.registry, s.threads[t].id, s.threads[t].fingerprint, s.now, |s.futures|);
  }

  lemma OwnerHasCall(s: System, t: nat, ttl: int, maximum: nat)
    requires Inv(s) && t in s.threads && s.threads[t].pc == Arriving
    requires Admit(s.registry, s.threads[t].id, s.threads[t].fingerprint, s.now, |s.futures|).1 == Own
    ensures CallsFrom(s, Next(s, Enter(t), ttl, maximum), t, {s.threads[t].id})
  {
    RecordsAreValid(s);
    hide Admit, Attended, OneOwner, OneAtATime, ThreadsOk, RecordsOk, FuturesOk;
    var x := s.threads[t];
    AdmissionEffect(s.registry, x.id, x.fingerprint, s.now, |s.futures|);
    AdmissionIsExact(s.registry, x.id, x.fingerprint, s.now, |s.futures|);
  }

  lemma EnterAsOwner(s: System, t: nat, ttl: int, maximum: nat)
    requires Inv(s) && t in s.threads && s.threads[t].pc == Arriving
    requires Admit(s.registry, s.threads[t].id, s.threads[t].fingerprint, s.now, |s.futures|).1 == Own
    ensures Allowed(s, Next(s, Enter(t), ttl, maximum), t, {s.threads[t].id})
  {
    hide Inv, Admit, ThreadOk, Later, Elsewhere, Moves, RecordsFrom, FuturesFrom, CallsFrom;
    OwnerOnlyAdds(s, t, ttl, maximum);
    OwnerMoves(s, t, ttl, maximum);
    OwnerHasFuture(s, t, ttl, maximum);
    OwnerHasCall(s, t, ttl, maximum);
    EnterAsOwnerThread(s, t, ttl, maximum);
  }

  lemma ReturnAllowed(s: System, t: nat, storable: bool, ttl: int, maximum: nat)
    requires Inv(s) && t in s.threads && s.threads[t].pc.Calling?
    ensures Allowed(s, Next(s, Return(t, storable), ttl, maximum), t, {s.threads[t].id})
  {
    hide Attended, OneAtATime, RecordsOk;
    RecordsAreValid(s);
    assert ThreadOk(s, s.threads[t]);
  }

  lemma RaiseAllowed(s: System, t: nat, ttl: int, maximum: nat)
    requires Inv(s) && t in s.threads && s.threads[t].pc.Calling?
    ensures Allowed(s, Next(s, Raise(t), ttl, maximum), t, {s.threads[t].id})
  {
    hide Attended, OneAtATime, RecordsOk;
    RecordsAreValid(s);
    assert ThreadOk(s, s.threads[t]);
  }

  lemma RecordsAreValid(s: System)
    requires RecordsOk(s)
    ensures s.registry.records.Valid()
  {
  }

  lemma StoreAllowed(s: System, t: nat, ttl: int, maximum: nat)
    requires Inv(s) && t in s.threads && s.threads[t].pc.Storing?
    ensures Allowed(s, Next(s, Store(t), ttl, maximum), t, {s.threads[t].id})
  {
    hide Attended, OneAtATime, Stored;
    assert ThreadOk(s, s.threads[t]);
    var x := s.threads[t];
    StoredEffect(s.registry, x.id, Replay(x.fingerprint, x.pc.call, x.pc.expires), s.now, maximum);
  }

  lemma BuildAllowed(s: System, t: nat, succeeds: bool, ttl: int, maximum: nat)
    requires Inv(s) && t in s.threads && s.threads[t].pc.Building?
    ensures Allowed(s, Next(s, Build(t, succeeds), ttl, maximum), t, {s.threads[t].id})
  {
    hide Attended, OneAtATime;
    assert ThreadOk(s, s.threads[t]);
  }

  lemma ResolveAllowed(s: System, t: nat, ttl: int, maximum: nat)
    requires Inv(s) && t in s.threads && s.threads[t].pc.Resolving?
    ensures Allowed(s, Next(s, Resolve(t), ttl, maximum), t, {s.threads[t].id})
  {
    hide Attended, OneAtATime;
    assert ThreadOk(s, s.threads[t]);
  }

  lemma LeaveAllowed(s: System, t: nat, ttl: int, maximum: nat)
    requires Inv(s) && t in s.threads && s.threads[t].pc.Leaving?
    ensures Allowed(s, Next(s, Leave(t), ttl, maximum), t, {s.threads[t].id})
  {
    hide Attended, OneAtATime;
    assert ThreadOk(s, s.threads[t]);
  }

  lemma WakeAllowed(s: System, t: nat, ttl: int, maximum: nat)
    requires Inv(s) && t in s.threads && s.threads[t].pc.Waiting? && s.threads[t].pc.future < |s.futures|
    requires s.futures[s.threads[t].pc.future].Some?
    ensures Allowed(s, Next(s, Wake(t), ttl, maximum), t, {})
  {
    hide Attended, OneAtATime, OneOwner;
    assert ThreadOk(s, s.threads[t]);
  }

  lemma ArriveAllowed(s: System, t: nat, id: Identity, fingerprint: string, ttl: int, maximum: nat)
    requires Inv(s) && t !in s.threads
    ensures Allowed(s, Next(s, Arrive(t, id, fingerprint), ttl, maximum), t, {})
  {
    hide Attended, OneAtATime, OneOwner;
  }

  lemma TickKeepsThreads(s: System, u: System)
    requires ThreadsOk(s) && u == s.(now := u.now)
    ensures ThreadsOk(u)
  {
    forall t | t in u.threads
      ensures ThreadOk(u, u.threads[t])
    {
      assert ThreadOk(s, s.threads[t]);
    }
  }

  lemma TickKeepsAttended(s: System, u: System)
    requires Attended(s) && u == s.(now := u.now)
    ensures Attended(u)
  {
    forall id | id in u.registry.inflight
      ensures HasOwner(u, id)
    {
      assert HasOwner(s, id);
    }
    forall f | 0 <= f < |u.futures| && u.futures[f].None?
      ensures HasResolver(u, f)
    {
      assert HasResolver(s, f);
    }
    forall c | 0 <= c < |u.calls| && u.calls[c].fate.Running?
      ensures HasRunner(u, c)
    {
      assert HasRunner(s, c);
    }
  }

  lemma TickKeepsInv(s: System, u: System)
    requires Inv(s) && u == s.(now := u.now)
    ensures Inv(u)
  {
    hide ThreadsOk, Attended;
    TickKeepsThreads(s, u);
    TickKeepsAttended(s, u);
    assert forall c | 0 <= c < |s.calls| && Gone(s, c) :: Gone(u, c);
  }

  /** Every step of every interleaving keeps the invariant. */
  lemma StepKeepsInv(s: System, step: Step, ttl: int, maximum: nat)
    requires Inv(s)
    ensures Inv(Next(s, step, ttl, maximum))
  {
    hide Inv, Allowed, Admit, Stored, Settled;
    var u := Next(s, step, ttl, maximum);
    match step
    case Tick(seconds) => TickKeepsInv(s, u);
    case Arrive(t, id, fingerprint) =>
      if t !in s.threads { ArriveAllowed(s, t, id, fingerprint, ttl, maximum); AllowedKeepsInv(s, u, t, {}); }
    case Enter(t) =>
      if t in s.threads && s.threads[t].pc == Arriving {
        if Admit(s.registry, s.threads[t].id, s.threads[t].fingerprint, s.now, |s.futures|).1 == Own {
          EnterAsOwner(s, t, ttl, maximum);
          AllowedKeepsInv(s, u, t, {s.threads[t].id});
        } else {
          EnterAside(s, t, ttl, maximum);
          AllowedKeepsInv(s, u, t, {});
        }
      }
    case Return(t, storable) =>
      if t in s.threads && s.threads[t].pc.Calling? { ReturnAllowed(s, t, storable, ttl, maximum); AllowedKeepsInv(s, u, t, {s.threads[t].id}); }
    case Raise(t) =>
      if t in s.threads && s.threads[t].pc.Calling? { RaiseAllowed(s, t, ttl, maximum); AllowedKeepsInv(s, u, t, {s.threads[t].id}); }
    case Store(t) =>
      if t in s.threads && s.threads[t].pc.Storing? { StoreAllowed(s, t, ttl, maximum); AllowedKeepsInv(s, u, t, {s.threads[t].id}); }
    case Build(t, succeeds) =>
      if t in s.threads && s.threads[t].pc.Building? { BuildAllowed(s, t, succeeds, ttl, maximum); AllowedKeepsInv(s, u, t, {s.threads[t].id}); }
    case Resolve(t) =>
      if t in s.threads && s.threads[t].pc.Resolving? { ResolveAllowed(s, t, ttl, maximum); AllowedKeepsInv(s, u, t, {s.threads[t].id}); }
    case Leave(t) =>
      if t in s.threads && s.threads[t].pc.Leaving? { LeaveAllowed(s, t, ttl, maximum); AllowedKeepsInv(s, u, t, {s.threads[t].id}); }
    case Wake(t) =>
      if t in s.threads && s.threads[t].pc.Waiting? && s.threads[t].pc.future < |s.futures| && s.futures[s.threads[t].pc.future].Some? {
        WakeAllowed(s, t, ttl, maximum);
        AllowedKeepsInv(s, u, t, {});
      }
  }

  lemma {:induction false} RunKeepsInv(s: System, steps: seq<Step>, ttl: int, maximum: nat)
    requires Inv(s)
    ensures Inv(Run(s, steps, ttl, maximum))
    decreases |steps|
  {
    hide Inv, Next;
    if steps != [] {
      StepKeepsInv(s, steps[0], ttl, maximum);
      RunKeepsInv(Next(s, steps[0], ttl, maximum), steps[1..], ttl, maximum);
    }
  }

  // ---- what it means for requests ------------------------------------------------------------

  /** However requests interleave, work for one key runs in one thread at a time: no two
      threads own it, and no two of its calls are running. */
  lemma OneCallAtATime(steps: seq<Step>, ttl: int, maximum: nat)
    ensures var s := Run(Initial, steps, ttl, maximum);
      && (forall t, u | t in s.threads && u in s.threads && t != u && Owning(s.threads[t].pc) && Owning(s.threads[u].pc) ::
            s.threads[t].id != s.threads[u].id)
      && (forall c, d | 0 <= c < d < |s.calls| && s.calls[c].id == s.calls[d].id :: !s.calls[c].fate.Running?)
  {
    RunKeepsInv(Initial, steps, ttl, maximum);
    hide Run, RecordsOk, FuturesOk, ThreadsOk, Attended;
    OneRunning(Run(Initial, steps, ttl, maximum));
  }

  lemma OneRunning(s: System)
    requires OneAtATime(s)
    ensures forall c, d | 0 <= c < d < |s.calls| && s.calls[c].id == s.calls[d].id :: !s.calls[c].fate.Running?
  {
    assert forall c, d | 0 <= c < d < |s.calls| && s.calls[c].id == s.calls[d].id :: Gone(s, c);
  }

  /** Every outcome handed out, fresh, shared or replayed, is that of a call made for the
      same key and the same body. */
  lemma OutcomesAreTheirOwn(steps: seq<Step>, ttl: int, maximum: nat)
    ensures var s := Run(Initial, steps, ttl, maximum);
      forall t | t in s.threads && s.threads[t].pc.Done? ::
        MadeFor(s.calls, s.threads[t].pc.outcome, s.threads[t].id, s.threads[t].fingerprint)
  {
    RunKeepsInv(Initial, steps, ttl, maximum);
    hide Run, RecordsOk, FuturesOk, Attended, OneOwner, OneAtATime;
    var s := Run(Initial, steps, ttl, maximum);
    assert forall t | t in s.threads :: ThreadOk(s, s.threads[t]);
  }

  /** How many turns an owner has left at most until its future is resolved. */
  function Rank(pc: Pc): nat { if pc.Calling? then 4 else if pc.Storing? then 3 else if pc.Building? then 2 else if pc.Resolving? then 1 else 0 }

  /** A turn of owner t on the way to its future: its call ends, with a response to be
      stored, a response only to be shared or an exception; it stores; it builds its answer
      or fails to; it resolves. */
  predicate Acts(s: System, step: Step, t: nat) {
    && t in s.threads
    && match step
       case Return(u, _) => u == t && s.threads[t].pc.Calling? && s.threads[t].pc.call < |s.calls|
       case Raise(u) => u == t && s.threads[t].pc.Calling? && s.threads[t].pc.call < |s.calls|
       case Store(u) => u == t && s.threads[t].pc.Storing?
       case Build(u, _) => u == t && s.threads[t].pc.Building?
       case Resolve(u) => u == t && s.threads[t].pc.Resolving? && s.threads[t].pc.future < |s.futures|
       case _ => false
  }

  /** The turns thread t has in a run. */
  function Turns(s: System, steps: seq<Step>, ttl: int, maximum: nat, t: nat): nat
    decreases |steps|
  {
    if steps == [] then 0
    else (if Acts(s, steps[0], t) then 1 else 0) + Turns(Next(s, steps[0], ttl, maximum), steps[1..], ttl, maximum, t)
  }

  /** A future that thread t still has to resolve, or that is resolved. */
  ghost predicate Owes(s: System, t: nat, f: nat) {
    && f < |s.futures|
    && (s.futures[f].Some? || (t in s.threads && Unresolved(s.threads[t].pc) && s.threads[t].pc.future == f))
  }

  function Debt(s: System, t: nat, f: nat): nat {
    if f < |s.futures| && s.futures[f].None? && t in s.threads then Rank(s.threads[t].pc) else 0
  }

  /** A turn of the owner brings its future closer, however the call ends; no other step of
      any thread moves the owner, or takes an outcome back. */
  lemma TurnPaysDebt(s: System, step: Step, ttl: int, maximum: nat, t: nat, f: nat)
    requires Owes(s, t, f)
    ensures var u := Next(s, step, ttl, maximum);
      && Owes(u, t, f)
      && Debt(u, t, f) + (if Acts(s, step, t) && s.futures[f].None? then 1 else 0) <= Debt(s, t, f)
      && (s.futures[f].Some? ==> u.futures[f].Some?)
  {
    hide Admit, Stored, Settled;
  }

  /** While its future is unresolved the owner has a turn to take, whichever way its call ends
      and its answer is built. */
  lemma TurnIsThere(s: System, t: nat, way: bool)
    requires Inv(s) && t in s.threads && Unresolved(s.threads[t].pc)
    ensures match s.threads[t].pc
      case Calling(_, _) => Acts(s, Return(t, way), t) && Acts(s, Raise(t), t)
      case Storing(_, _, _) => Acts(s, Store(t), t)
      case Building(_, _) => Acts(s, Build(t, way), t)
      case _ => Acts(s, Resolve(t), t)
  {
    hide Inv, HasResolver;
    WaiterHasResolver(s, t);
  }

  lemma {:induction false} TurnsPayDebt(s: System, steps: seq<Step>, ttl: int, maximum: nat, t: nat, f: nat)
    requires Owes(s, t, f)
    ensures var u := Run(s, steps, ttl, maximum);
      && Owes(u, t, f)
      && (u.futures[f].None? ==> Debt(u, t, f) + Turns(s, steps, ttl, maximum, t) <= Debt(s, t, f))
    decreases |steps|
  {
    hide Next, Acts, Rank;
    if steps != [] {
      TurnPaysDebt(s, steps[0], ttl, maximum, t, f);
      var mid := Next(s, steps[0], ttl, maximum);
      TurnsPayDebt(mid, steps[1..], ttl, maximum, t, f);
      if mid.futures[f].Some? { ResolvedStays(mid, steps[1..], ttl, maximum, f); }
    }
  }

  lemma {:induction false} ResolvedStays(s: System, steps: seq<Step>, ttl: int, maximum: nat, f: nat)
    requires f < |s.futures| && s.futures[f].Some?
    ensures var u := Run(s, steps, ttl, maximum); f < |u.futures| && u.futures[f].Some?
    decreases |steps|
  {
    hide Next;
    if steps != [] {
      OutcomeStays(s, steps[0], ttl, maximum, f);
      ResolvedStays(Next(s, steps[0], ttl, maximum), steps[1..], ttl, maximum, f);
    }
  }

  lemma OutcomeStays(s: System, step: Step, ttl: int, maximum: nat, f: nat)
    requires f < |s.futures| && s.futures[f].Some?
    ensures var u := Next(s, step, ttl, maximum); f < |u.futures| && u.futures[f].Some?
  {
    hide Admit, Stored, Settled;
  }

  /** A thread that waits for f goes on waiting for it until it wakes with its outcome. */
  ghost predicate WaitsOrHas(s: System, w: nat, f: nat) {
    w in s.threads && (s.threads[w].pc == Waiting(f) || s.threads[w].pc.Done?)
  }

  lemma WaiterStays(s: System, step: Step, ttl: int, maximum: nat, w: nat, f: nat)
    requires WaitsOrHas(s, w, f)
    ensures var u := Next(s, step, ttl, maximum);
      WaitsOrHas(u, w, f) && u.threads[w].id == s.threads[w].id && u.threads[w].fingerprint == s.threads[w].fingerprint
    ensures step == Wake(w) && f < |s.futures| && s.futures[f].Some? ==> Next(s, step, ttl, maximum).threads[w].pc.Done?
  {
    hide Admit, Stored, Settled;
  }

  lemma {:induction false} WaiterStaysInRun(s: System, steps: seq<Step>, ttl: int, maximum: nat, w: nat, f: nat)
    requires WaitsOrHas(s, w, f)
    ensures var u := Run(s, steps, ttl, maximum);
      WaitsOrHas(u, w, f) && u.threads[w].id == s.threads[w].id && u.threads[w].fingerprint == s.threads[w].fingerprint
    decreases |steps|
  {
    hide Next;
    if steps != [] {
      WaiterStays(s, steps[0], ttl, maximum, w, f);
      WaiterStaysInRun(Next(s, steps[0], ttl, maximum), steps[1..], ttl, maximum, w, f);
    }
  }

  /** No thread waits in vain, in any interleaving: the future it waits for is resolved or
      has an owner; after at most four turns of that owner it is resolved, whether the call
      returns or raises and whatever happens between; and from then on the waiter has its
      outcome as soon as it wakes, an outcome made for its own request. */
  lemma WaiterIsServed(s: System, w: nat, steps: seq<Step>, ttl: int, maximum: nat)
    requires Inv(s) && w in s.threads && s.threads[w].pc.Waiting?
    ensures var f := s.threads[w].pc.future; f < |s.futures| && (s.futures[f].Some? || HasResolver(s, f))
    ensures var f := s.threads[w].pc.future; var u := Run(s, steps, ttl, maximum);
      && f < |u.futures|
      && (forall t | t in s.threads && Unresolved(s.threads[t].pc) && s.threads[t].pc.future == f && Turns(s, steps, ttl, maximum, t) >= 4 ::
            u.futures[f].Some?)
      && w in u.threads && (u.threads[w].pc == Waiting(f) || u.threads[w].pc.Done?)
      && (u.threads[w].pc.Done? ==> MadeFor(u.calls, u.threads[w].pc.outcome, s.threads[w].id, s.threads[w].fingerprint))
      && (u.futures[f].Some? ==> var v := Next(u, Wake(w), ttl, maximum); w in v.threads && v.threads[w].pc.Done?)
  {
    hide Inv, Next, Run, MadeFor, HasResolver;
    var f := s.threads[w].pc.future;
    var u := Run(s, steps, ttl, maximum);
    WaiterHasResolver(s, w);
    FuturesOnlyGrow(s, steps, ttl, maximum);
    forall t | t in s.threads && Unresolved(s.threads[t].pc) && s.threads[t].pc.future == f && Turns(s, steps, ttl, maximum, t) >= 4
      ensures u.futures[f].Some?
    {
      DebtIsPaid(s, steps, ttl, maximum, t, f);
    }
    WaiterStaysInRun(s, steps, ttl, maximum, w, f);
    WaiterStays(u, Wake(w), ttl, maximum, w, f);
    RunKeepsInv(s, steps, ttl, maximum);
    if u.threads[w].pc.Done? { DoneIsMadeFor(u, w); }
  }

  lemma DebtIsPaid(s: System, steps: seq<Step>, ttl: int, maximum: nat, t: nat, f: nat)
    requires Inv(s) && t in s.threads && Unresolved(s.threads[t].pc) && s.threads[t].pc.future == f
    requires Turns(s, steps, ttl, maximum, t) >= 4
    ensures var u := Run(s, steps, ttl, maximum); f < |u.futures| && u.futures[f].Some?
  {
    hide Inv, Run, Turns;
    WaiterHasResolver(s, t);
    TurnsPayDebt(s, steps, ttl, maximum, t, f);
    StillOwingHasDebt(Run(s, steps, ttl, maximum), t, f);
  }

  lemma StillOwingHasDebt(s: System, t: nat, f: nat)
    requires Owes(s, t, f)
    ensures s.futures[f].None? ==> 1 <= Debt(s, t, f) <= 4
  {
  }

  lemma {:induction false} FuturesOnlyGrow(s: System, steps: seq<Step>, ttl: int, maximum: nat)
    ensures |s.futures| <= |Run(s, steps, ttl, maximum).futures|
    decreases |steps|
  {
    hide Admit, Stored, Settled;
    if steps != [] { FuturesOnlyGrow(Next(s, steps[0], ttl, maximum), steps[1..], ttl, maximum); }
  }

  lemma WaiterHasResolver(s: System, w: nat)
    requires Inv(s) && w in s.threads && (s.threads[w].pc.Waiting? || Unresolved(s.threads[w].pc))
    ensures s.threads[w].pc.future < |s.futures|
    ensures s.futures[s.threads[w].pc.future].None? ==> HasResolver(s, s.threads[w].pc.future)
    ensures s.threads[w].pc.Calling? ==> s.threads[w].pc.call < |s.calls|
  {
    hide RecordsOk, FuturesOk, OneOwner, OneAtATime, HasResolver, HasRunner, HasOwner;
    assert ThreadOk(s, s.threads[w]);
  }

  lemma DoneIsMadeFor(s: System, w: nat)
    requires Inv(s) && w in s.threads && s.threads[w].pc.Done?
    ensures MadeFor(s.calls, s.threads[w].pc.outcome, s.threads[w].id, s.threads[w].fingerprint)
  {
    hide RecordsOk, FuturesOk, OneOwner, OneAtATime, Attended;
    assert ThreadOk(s, s.threads[w]);
  }

  /** A request that is answered as it enters gets a response, not a failure: that of an
      earlier call, which returned it to be stored. */
  lemma FailuresAreNotReplayed(s: System, t: nat, ttl: int, maximum: nat)
    requires Inv(s) && t in s.threads && s.threads[t].pc == Arriving
    ensures var u := Next(s, Enter(t), ttl, maximum);
      u.threads[t].pc.Done? ==>
        var o := u.threads[t].pc.outcome;
        o.Response? && o.call < |s.calls| && s.calls[o.call] == Call(s.threads[t].id, s.threads[t].fingerprint, Returned(true))
  {
    hide Admit, Attended, OneOwner, OneAtATime, ThreadsOk;
    AdmissionIsExact(s.registry, s.threads[t].id, s.threads[t].fingerprint, s.now, |s.futures|);
  }

  /** The key's record is there and unexpired in this state and every later one of the run. */
  ghost predicate Remains(s: System, steps: seq<Step>, ttl: int, maximum: nat, id: Identity)
    decreases |steps|
  {
    && id in s.registry.records.vals && s.now < s.registry.records.vals[id].expiresAt
    && (steps != [] ==> Remains(Next(s, steps[0], ttl, maximum), steps[1..], ttl, maximum, id))
  }

  /** While a key's record remains, no further call for it is made. */
  lemma {:induction false} NoCallWhileRecorded(s: System, steps: seq<Step>, ttl: int, maximum: nat, id: Identity)
    requires Inv(s) && Remains(s, steps, ttl, maximum, id)
    ensures var u := Run(s, steps, ttl, maximum);
      |s.calls| <= |u.calls| && forall c | |s.calls| <= c < |u.calls| :: u.calls[c].id != id
    decreases |steps|
  {
    hide Inv;
    if steps != [] {
      StepKeepsInv(s, steps[0], ttl, maximum);
      NoCallInStep(s, steps[0], ttl, maximum, id);
      hide Next;
      NoCallWhileRecorded(Next(s, steps[0], ttl, maximum), steps[1..], ttl, maximum, id);
      CallsKeepIds(Next(s, steps[0], ttl, maximum), steps[1..], ttl, maximum);
    }
  }

  lemma NoCallInStep(s: System, step: Step, ttl: int, maximum: nat, id: Identity)
    requires Inv(s) && id in s.registry.records.vals && s.now < s.registry.records.vals[id].expiresAt
    ensures var u := Next(s, step, ttl, maximum);
      |s.calls| <= |u.calls| && forall c | |s.calls| <= c < |u.calls| :: u.calls[c].id != id
  {
    hide Admit, Stored, Settled, Attended, OneOwner, OneAtATime, ThreadsOk, FuturesOk;
    if step.Enter? && step.thread in s.threads {
      AdmissionIsExact(s.registry, s.threads[step.thread].id, s.threads[step.thread].fingerprint, s.now, |s.futures|);
    }
  }

  lemma {:induction false} CallsKeepIds(s: System, steps: seq<Step>, ttl: int, maximum: nat)
    ensures var u := Run(s, steps, ttl, maximum);
      |s.calls| <= |u.calls| && forall c | 0 <= c < |s.calls| :: u.calls[c].id == s.calls[c].id
    decreases |steps|
  {
    hide Admit, Stored, Settled;
    if steps != [] {
      CallsKeepIds(Next(s, steps[0], ttl, maximum), steps[1..], ttl, maximum);
    }
  }

  lemma RecordKept(s: System, step: Step, ttl: int, maximum: nat, id: Identity)
    requires Inv(s) && id in s.registry.records.vals && id in Next(s, step, ttl, maximum).registry.records.vals
    ensures Next(s, step, ttl, maximum).registry.records.vals[id] == s.registry.records.vals[id]
  {
    hide Admit, Attended, OneOwner, OneAtATime, FuturesOk, Stored, ThreadsOk, ThreadOk;
    if step.Store? && step.thread in s.threads && s.threads[step.thread].pc.Storing? {
      var x := s.threads[step.thread];
      StoringThreadHasNoRecord(s, step.thread);
      StoredEffect(s.registry, x.id, Replay(x.fingerprint, x.pc.call, x.pc.expires), s.now, maximum);
    }
    if step.Enter? && step.thread in s.threads {
      var x := s.threads[step.thread];
      AdmissionEffect(s.registry, x.id, x.fingerprint, s.now, |s.futures|);
    }
  }

  lemma StoringThreadHasNoRecord(s: System, t: nat)
    requires Inv(s) && t in s.threads && s.threads[t].pc.Storing?
    ensures s.threads[t].id !in s.registry.records.vals
  {
    hide Attended, OneOwner, OneAtATime, FuturesOk, RecordsOk;
    assert ThreadOk(s, s.threads[t]);
  }

  lemma {:induction false} RecordKeptInRun(s: System, steps: seq<Step>, ttl: int, maximum: nat, id: Identity)
    requires Inv(s) && Remains(s, steps, ttl, maximum, id)
    ensures var u := Run(s, steps, ttl, maximum);
      Inv(u) && id in u.registry.records.vals && u.registry.records.vals[id] == s.registry.records.vals[id]
      && u.now < u.registry.records.vals[id].expiresAt
    decreases |steps|
  {
    hide Inv, Next;
    if steps != [] {
      StepKeepsInv(s, steps[0], ttl, maximum);
      RecordKept(s, steps[0], ttl, maximum, id);
      RecordKeptInRun(Next(s, steps[0], ttl, maximum), steps[1..], ttl, maximum, id);
    }
  }

  /** Thread t, the owner of f, has failed or is about to, and its future with it. */
  ghost predicate Fails(s: System, t: nat, f: nat, c: nat) {
    && t in s.threads && f < |s.futures|
    && s.threads[t].pc in {Resolving(f, Failure(c)), Leaving(f, Failure(c)), Done(Failure(c), false)}
    && s.futures[f] == if s.threads[t].pc.Resolving? then None else Some(Failure(c))
  }

  lemma FailsStays(s: System, step: Step, ttl: int, maximum: nat, t: nat, f: nat, c: nat)
    requires Inv(s) && Fails(s, t, f, c)
    ensures Fails(Next(s, step, ttl, maximum), t, f, c)
  {
    hide Admit, Stored, Settled, Attended, RecordsOk, FuturesOk, OneAtATime;
    if step.Resolve? && step.thread in s.threads {
      assert ThreadOk(s, s.threads[t]) && ThreadOk(s, s.threads[step.thread]);
    }
  }

  lemma {:induction false} FailsStaysInRun(s: System, steps: seq<Step>, ttl: int, maximum: nat, t: nat, f: nat, c: nat)
    requires Inv(s) && Fails(s, t, f, c)
    ensures Fails(Run(s, steps, ttl, maximum), t, f, c)
    decreases |steps|
  {
    hide Inv, Next, Fails;
    if steps != [] {
      StepKeepsInv(s, steps[0], ttl, maximum);
      FailsStays(s, steps[0], ttl, maximum, t, f, c);
      FailsStaysInRun(Next(s, steps[0], ttl, maximum), steps[1..], ttl, maximum, t, f, c);
    }
  }

  ghost predicate Gets(s: System, w: nat, outcome: Outcome) { w in s.threads && s.threads[w].pc == Done(outcome, true) }

  /** Who waits for the future wakes with the failure of call c, as soon as there is one. */
  ghost predicate WaitersFail(s: System, f: nat, c: nat, ttl: int, maximum: nat) {
    forall w | w in s.threads && s.threads[w].pc == Waiting(f) && f < |s.futures| && s.futures[f].Some? ::
      Gets(Next(s, Wake(w), ttl, maximum), w, Failure(c))
  }

  /** Who arrives with this key and body is given the response of call c. */
  ghost predicate NewcomersAreServed(s: System, id: Identity, fingerprint: string, c: nat, ttl: int, maximum: nat) {
    forall w | w in s.threads && s.threads[w] == Thread(id, fingerprint, Arriving) :: Gets(Next(s, Enter(w), ttl, maximum), w, Response(c))
  }

  /** When the answer cannot be built from a response already stored, the owner fails, and
      who waits for it wakes with that failure; but while the record remains, a later
      request of the same body is given the stored response, and no call is made. */
  lemma StoredThenFailed(s: System, t: nat, steps: seq<Step>, ttl: int, maximum: nat)
    requires Inv(s) && t in s.threads && s.threads[t].pc.Building? && HasStored(s, s.threads[t])
    requires Remains(Next(s, Build(t, false), ttl, maximum), steps, ttl, maximum, s.threads[t].id)
    ensures var x := s.threads[t]; var u := Run(Next(s, Build(t, false), ttl, maximum), steps, ttl, maximum);
      && Fails(u, t, x.pc.future, x.pc.call)
      && WaitersFail(u, x.pc.future, x.pc.call, ttl, maximum)
      && NewcomersAreServed(u, x.id, x.fingerprint, x.pc.call, ttl, maximum)
      && forall c | |s.calls| <= c < |u.calls| :: u.calls[c].id != x.id
  {
    hide Inv, Next, Run, Remains, WaitersFail, NewcomersAreServed, Fails;
    var x := s.threads[t];
    var v := Next(s, Build(t, false), ttl, maximum);
    StepKeepsInv(s, Build(t, false), ttl, maximum);
    BuildFails(s, t, ttl, maximum);
    FailsStaysInRun(v, steps, ttl, maximum, t, x.pc.future, x.pc.call);
    RecordKeptInRun(v, steps, ttl, maximum, x.id);
    NoCallWhileRecorded(v, steps, ttl, maximum, x.id);
    var u := Run(v, steps, ttl, maximum);
    WakesWith(u, t, x.pc.future, x.pc.call, ttl, maximum);
    RecordAnswers(u, x.id, ttl, maximum);
  }

  /** The record of the thread's own call is there. */
  ghost predicate HasStored(s: System, x: Thread)
    requires x.pc.Building?
  {
    x.id in s.registry.records.vals && s.registry.records.vals[x.id].call == x.pc.call
  }

  /** A response just stored is there, if the registry holds any at all. */
  lemma StoreIsThere(s: System, t: nat, ttl: int, maximum: nat)
    requires Inv(s) && t in s.threads && s.threads[t].pc.Storing? && 1 <= maximum
    ensures var u := Next(s, Store(t), ttl, maximum);
      t in u.threads && u.threads[t].pc.Building? && HasStored(u, u.threads[t])
  {
    hide Attended, OneOwner, OneAtATime, FuturesOk, Stored;
    assert ThreadOk(s, s.threads[t]);
    var x := s.threads[t];
    StoredRecordSurvives(s.registry, x.id, Replay(x.fingerprint, x.pc.call, x.pc.expires), s.now, maximum);
  }

  lemma WakesWith(s: System, t: nat, f: nat, c: nat, ttl: int, maximum: nat)
    requires Fails(s, t, f, c)
    ensures WaitersFail(s, f, c, ttl, maximum)
  {
  }

  lemma BuildFails(s: System, t: nat, ttl: int, maximum: nat)
    requires Inv(s) && t in s.threads && s.threads[t].pc.Building?
    ensures var x := s.threads[t]; var v := Next(s, Build(t, false), ttl, maximum);
      && v.registry == s.registry && v.calls == s.calls && Fails(v, t, x.pc.future, x.pc.call)
      && (HasStored(s, x) ==> s.registry.records.vals[x.id].fingerprint == x.fingerprint)
  {
    hide Attended, OneOwner, OneAtATime, FuturesOk;
    assert ThreadOk(s, s.threads[t]);
  }

  /** An unexpired record answers every request of its own body. */
  lemma RecordAnswers(s: System, id: Identity, ttl: int, maximum: nat)
    requires Inv(s) && id in s.registry.records.vals && s.now < s.registry.records.vals[id].expiresAt
    ensures var r := s.registry.records.vals[id]; NewcomersAreServed(s, id, r.fingerprint, r.call, ttl, maximum)
  {
    hide Admit, Attended, OneOwner, OneAtATime, ThreadsOk, FuturesOk;
    AdmissionIsExact(s.registry, id, s.registry.records.vals[id].fingerprint, s.now, |s.futures|);
  }

  /** From the moment a call for a key starts until the response it returned is dropped,
      there is no second one: when work is done again, every earlier call for the key has
      ended and has neither a record nor an owner about to write one. */
  lemma SecondCallOnlyAfterRecordIsGone(steps: seq<Step>, ttl: int, maximum: nat, c: nat, d: nat)
    requires var s := Run(Initial, steps, ttl, maximum); c < d < |s.calls| && s.calls[c].id == s.calls[d].id
    ensures Gone(Run(Initial, steps, ttl, maximum), c)
  {
    RunKeepsInv(Initial, steps, ttl, maximum);
  }

  /** A stored record changes only by being dropped, and only in a step that finds it
      expired or that stores another with more than `maximum` unexpired ones. */
  lemma RecordLeavesOnlyBy(s: System, step: Step, ttl: int, maximum: nat, id: Identity)
    requires Inv(s) && id in s.registry.records.vals
    ensures var u := Next(s, step, ttl, maximum);
      || (id in u.registry.records.vals && u.registry.records.vals[id] == s.registry.records.vals[id])
      || ((step.Enter? || step.Store?) && s.registry.records.vals[id].expiresAt <= s.now)
      || (step.Store? && |Pruned(s.registry.records, s.now).keys| + 1 > maximum)
  {
    hide Attended, OneOwner, OneAtATime, FuturesOk, Stored, Pruned;
    if step.Store? && step.thread in s.threads && s.threads[step.thread].pc.Storing? {
      var x := s.threads[step.thread];
      assert ThreadOk(s, x);
      StoringDropsOnly(s.registry, x.id, Replay(x.fingerprint, x.pc.call, x.pc.expires), s.now, maximum, id);
    }
    if step.Enter? {
      PruneIsExact(s.registry.records, s.now);
    }
  }
}
