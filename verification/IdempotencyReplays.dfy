/** What a returned response leads to: a record that is kept for its time, and answers to
    later requests without another call. */
module IdempotencyReplays {
  import opened OrderedDicts
  import opened IdempotencyRegistries
  import opened IdempotencyThreads

  // ---- a storable response is recorded ------------------------------------------------------

  /** Thread t is about to store the response of call c, or it is recorded until `expires`. */
  ghost predicate Kept(s: System, t: nat, id: Identity, fingerprint: string, f: nat, c: nat, expires: int) {
    || (t in s.threads && s.threads[t] == Thread(id, fingerprint, Storing(f, c, expires)))
    || (id in s.registry.records.vals && s.registry.records.vals[id] == Replay(fingerprint, c, expires))
  }

  /** The step stores a response with which there are more than `maximum`, and pushes out the
      unexpired record of id. */
  ghost predicate Ousts(s: System, step: Step, ttl: int, maximum: nat, id: Identity) {
    && id in s.registry.records.vals && s.now < s.registry.records.vals[id].expiresAt
    && step.Store? && |Pruned(s.registry.records, s.now).keys| + 1 > maximum
    && id !in Next(s, step, ttl, maximum).registry.records.vals
  }

  ghost predicate Ousted(s: System, steps: seq<Step>, ttl: int, maximum: nat, id: Identity)
    decreases |steps|
  {
    steps != [] && (Ousts(s, steps[0], ttl, maximum, id) || Ousted(Next(s, steps[0], ttl, maximum), steps[1..], ttl, maximum, id))
  }

  lemma StoringGoesOn(s: System, step: Step, ttl: int, maximum: nat, t: nat)
    requires Inv(s) && 1 <= maximum && t in s.threads && s.threads[t].pc.Storing?
    ensures var x := s.threads[t]; Kept(Next(s, step, ttl, maximum), t, x.id, x.fingerprint, x.pc.future, x.pc.call, x.pc.expires)
  {
    hide Admit, Attended, OneOwner, OneAtATime, FuturesOk, Settled, Stored;
    if step == Store(t) {
      var x := s.threads[t];
      assert ThreadOk(s, x);
      StoredRecordSurvives(s.registry, x.id, Replay(x.fingerprint, x.pc.call, x.pc.expires), s.now, maximum);
    }
  }

  lemma RecordGoesOn(s: System, step: Step, ttl: int, maximum: nat, id: Identity)
    requires Inv(s) && id in s.registry.records.vals
    ensures var u := Next(s, step, ttl, maximum); var r := s.registry.records.vals[id];
      || (id in u.registry.records.vals && u.registry.records.vals[id] == r)
      || r.expiresAt <= s.now
      || Ousts(s, step, ttl, maximum, id)
  {
    hide Inv, Next, Pruned;
    RecordLeavesOnlyBy(s, step, ttl, maximum, id);
    if id in Next(s, step, ttl, maximum).registry.records.vals { RecordKept(s, step, ttl, maximum, id); }
  }

  lemma TimePasses(s: System, step: Step, ttl: int, maximum: nat)
    ensures s.now <= Next(s, step, ttl, maximum).now
  {
    hide Admit, Stored, Settled;
  }

  lemma {:induction false} TimePassesInRun(s: System, steps: seq<Step>, ttl: int, maximum: nat)
    ensures s.now <= Run(s, steps, ttl, maximum).now
    decreases |steps|
  {
    hide Next;
    if steps != [] {
      TimePasses(s, steps[0], ttl, maximum);
      TimePassesInRun(Next(s, steps[0], ttl, maximum), steps[1..], ttl, maximum);
    }
  }

  lemma {:induction false} KeptInRun(s: System, steps: seq<Step>, ttl: int, maximum: nat, t: nat, id: Identity, fingerprint: string, f: nat, c: nat, expires: int)
    requires Inv(s) && 1 <= maximum && Kept(s, t, id, fingerprint, f, c, expires)
    ensures var u := Run(s, steps, ttl, maximum);
      Inv(u) && (Kept(u, t, id, fingerprint, f, c, expires) || expires <= u.now || Ousted(s, steps, ttl, maximum, id))
    decreases |steps|
  {
    hide Inv, Next, Ousts;
    RunKeepsInv(s, steps, ttl, maximum);
    if steps != [] {
      var v := Next(s, steps[0], ttl, maximum);
      StepKeepsInv(s, steps[0], ttl, maximum);
      TimePassesInRun(s, steps, ttl, maximum);
      if t in s.threads && s.threads[t] == Thread(id, fingerprint, Storing(f, c, expires)) {
        StoringGoesOn(s, steps[0], ttl, maximum, t);
      } else {
        RecordGoesOn(s, steps[0], ttl, maximum, id);
      }
      if Kept(v, t, id, fingerprint, f, c, expires) { KeptInRun(v, steps[1..], ttl, maximum, t, id, fingerprint, f, c, expires); }
    }
  }

  /** A call that returned a response to be stored: in every run from there its owner is still
      about to store it, or it is recorded until exactly `ttl` after the return, unless that
      time is over or a full registry has pushed it out. */
  lemma ReturnedIsKept(s: System, t: nat, steps: seq<Step>, ttl: int, maximum: nat)
    requires Inv(s) && 1 <= maximum && t in s.threads && s.threads[t].pc.Calling?
    ensures var x := s.threads[t]; var v := Next(s, Return(t, true), ttl, maximum); var u := Run(v, steps, ttl, maximum);
      && Inv(u)
      && (Kept(u, t, x.id, x.fingerprint, x.pc.future, x.pc.call, s.now + ttl) || s.now + ttl <= u.now || Ousted(v, steps, ttl, maximum, x.id))
  {
    hide Inv, Run, Ousted;
    var x := s.threads[t];
    StepKeepsInv(s, Return(t, true), ttl, maximum);
    CallIsKnown(s, t);
    assert Kept(Next(s, Return(t, true), ttl, maximum), t, x.id, x.fingerprint, x.pc.future, x.pc.call, s.now + ttl);
    hide Next;
    KeptInRun(Next(s, Return(t, true), ttl, maximum), steps, ttl, maximum, t, x.id, x.fingerprint, x.pc.future, x.pc.call, s.now + ttl);
  }

  lemma CallIsKnown(s: System, t: nat)
    requires Inv(s) && t in s.threads && s.threads[t].pc.Calling?
    ensures s.threads[t].pc.call < |s.calls|
  {
    hide Attended, OneOwner, OneAtATime, FuturesOk, RecordsOk;
    assert ThreadOk(s, s.threads[t]);
  }

  // ---- and answers later requests -------------------------------------------------------------

  /** What becomes of a request as it enters: answered from the unexpired record of its key or
      refused if that is of another body; failing a record, put to wait for the request in
      flight or refused; and failing both, the owner of a call of its own. */
  lemma EntryIsExact(s: System, w: nat, ttl: int, maximum: nat)
    requires Inv(s) && w in s.threads && s.threads[w].pc == Arriving
    ensures var x := s.threads[w]; var u := Next(s, Enter(w), ttl, maximum); var r := s.registry;
      && u.threads.Keys == s.threads.Keys
      && u.threads[w].pc ==
           (if x.id in r.records.vals && s.now < r.records.vals[x.id].expiresAt then
              if r.records.vals[x.id].fingerprint == x.fingerprint then Done(Response(r.records.vals[x.id].call), true) else Refused
            else if x.id in r.inflight then
              if r.inflight[x.id].fingerprint == x.fingerprint then Waiting(r.inflight[x.id].future) else Refused
            else Calling(|s.futures|, |s.calls|))
      && u.calls == if u.threads[w].pc.Calling? then s.calls + [Call(x.id, x.fingerprint, Running)] else s.calls
  {
    hide Admit, Attended, OneOwner, OneAtATime, ThreadsOk, FuturesOk;
    var x := s.threads[w];
    AdmissionIsExact(s.registry, x.id, x.fingerprint, s.now, |s.futures|);
  }

  lemma StoringIsFollowed(s: System, t: nat)
    requires Inv(s) && t in s.threads && s.threads[t].pc.Storing?
    ensures var x := s.threads[t];
      x.id !in s.registry.records.vals && x.id in s.registry.inflight && s.registry.inflight[x.id] == InFlight(x.fingerprint, x.pc.future)
  {
    hide Attended, OneOwner, OneAtATime, FuturesOk, RecordsOk;
    assert ThreadOk(s, s.threads[t]);
  }

  /** A request of the same key and body that comes before the response expires, and before a
      full registry pushed it out, makes no call: it is answered with that response, or waits
      for its owner that is about to store it. */
  lemma ReturnedIsReplayed(s: System, t: nat, steps: seq<Step>, w: nat, ttl: int, maximum: nat)
    requires Inv(s) && 1 <= maximum && t in s.threads && s.threads[t].pc.Calling?
    requires var v := Next(s, Return(t, true), ttl, maximum); var u := Run(v, steps, ttl, maximum);
      && u.now < s.now + ttl && !Ousted(v, steps, ttl, maximum, s.threads[t].id)
      && w in u.threads && u.threads[w] == Thread(s.threads[t].id, s.threads[t].fingerprint, Arriving)
    ensures var x := s.threads[t]; var u := Run(Next(s, Return(t, true), ttl, maximum), steps, ttl, maximum);
      var z := Next(u, Enter(w), ttl, maximum);
      && w in z.threads && z.calls == u.calls
      && (|| z.threads[w].pc == Done(Response(x.pc.call), true)
          || (t in u.threads && u.threads[t].pc == Storing(x.pc.future, x.pc.call, s.now + ttl) && z.threads[w].pc == Waiting(x.pc.future)))
  {
    hide Inv, Next, Run, Ousted;
    ReturnedIsKept(s, t, steps, ttl, maximum);
    var x := s.threads[t];
    var u := Run(Next(s, Return(t, true), ttl, maximum), steps, ttl, maximum);
    EntryIsExact(u, w, ttl, maximum);
    if t in u.threads && u.threads[t] == Thread(x.id, x.fingerprint, Storing(x.pc.future, x.pc.call, s.now + ttl)) {
      StoringIsFollowed(u, t);
    }
  }

  // ---- who waits gets what the owner gets -----------------------------------------------------

  /** Thread t owns the future, or has left with what the future holds. */
  ghost predicate Serves(s: System, t: nat, f: nat) {
    && t in s.threads && f < |s.futures|
    && match s.threads[t].pc
       case Calling(g, _) => g == f && s.futures[f].None?
       case Storing(g, _, _) => g == f && s.futures[f].None?
       case Building(g, _) => g == f && s.futures[f].None?
       case Resolving(g, _) => g == f && s.futures[f].None?
       case Leaving(g, o) => g == f && s.futures[f] == Some(o)
       case Done(o, _) => s.futures[f] == Some(o)
       case _ => false
  }

  /** Thread w waits for the future, or has what the future holds. */
  ghost predicate Waits(s: System, w: nat, f: nat) {
    && w in s.threads && f < |s.futures|
    && (s.threads[w].pc == Waiting(f) || (s.threads[w].pc.Done? && s.futures[f] == Some(s.threads[w].pc.outcome)))
  }

  lemma StepKeepsServing(s: System, step: Step, ttl: int, maximum: nat, t: nat, f: nat)
    requires Inv(s) && Serves(s, t, f)
    ensures Serves(Next(s, step, ttl, maximum), t, f)
  {
    hide Admit, Stored, Settled, Attended, RecordsOk, FuturesOk, OneAtATime;
    if step.Resolve? && step.thread in s.threads {
      assert ThreadOk(s, s.threads[t]) && ThreadOk(s, s.threads[step.thread]);
    }
  }

  lemma StepKeepsWaiting(s: System, step: Step, ttl: int, maximum: nat, w: nat, f: nat)
    requires Inv(s) && Waits(s, w, f)
    ensures Waits(Next(s, step, ttl, maximum), w, f)
  {
    hide Admit, Stored, Settled, Attended, RecordsOk, FuturesOk, OneAtATime, OneOwner;
    if step.Resolve? && step.thread in s.threads {
      assert ThreadOk(s, s.threads[step.thread]);
    }
  }

  lemma {:induction false} RunKeepsSharing(s: System, steps: seq<Step>, ttl: int, maximum: nat, t: nat, w: nat, f: nat)
    requires Inv(s) && Serves(s, t, f) && Waits(s, w, f)
    ensures Serves(Run(s, steps, ttl, maximum), t, f) && Waits(Run(s, steps, ttl, maximum), w, f)
    decreases |steps|
  {
    hide Inv, Next, Serves, Waits;
    if steps != [] {
      StepKeepsInv(s, steps[0], ttl, maximum);
      StepKeepsServing(s, steps[0], ttl, maximum, t, f);
      StepKeepsWaiting(s, steps[0], ttl, maximum, w, f);
      RunKeepsSharing(Next(s, steps[0], ttl, maximum), steps[1..], ttl, maximum, t, w, f);
    }
  }

  /** In every run a waiter ends with the very outcome of the owner it waited for, response
      or failure. */
  lemma WaiterSharesOutcome(s: System, steps: seq<Step>, ttl: int, maximum: nat, t: nat, w: nat)
    requires Inv(s) && t in s.threads && w in s.threads && Unresolved(s.threads[t].pc) && s.threads[w].pc == Waiting(s.threads[t].pc.future)
    ensures var u := Run(s, steps, ttl, maximum);
      && t in u.threads && w in u.threads
      && (u.threads[t].pc.Done? && u.threads[w].pc.Done? ==> u.threads[w].pc.outcome == u.threads[t].pc.outcome)
  {
    hide Inv, Next, Run;
    UnresolvedServes(s, t);
    RunKeepsSharing(s, steps, ttl, maximum, t, w, s.threads[t].pc.future);
  }

  lemma UnresolvedServes(s: System, t: nat)
    requires Inv(s) && t in s.threads && Unresolved(s.threads[t].pc)
    ensures s.threads[t].pc.future < |s.futures| && Serves(s, t, s.threads[t].pc.future)
  {
    hide Attended, OneOwner, OneAtATime, FuturesOk, RecordsOk;
    assert ThreadOk(s, s.threads[t]);
  }

  /** Thread t is on its way to the response of call c, or has it. */
  ghost predicate Answers(s: System, t: nat, c: nat) {
    && t in s.threads
    && match s.threads[t].pc
       case Storing(_, d, _) => d == c
       case Building(_, d) => d == c
       case Resolving(_, o) => o == Response(c)
       case Leaving(_, o) => o == Response(c)
       case Done(o, replayed) => o == Response(c) && !replayed
       case _ => false
  }

  lemma StepKeepsAnswer(s: System, step: Step, ttl: int, maximum: nat, t: nat, c: nat)
    requires Answers(s, t, c) && step != Build(t, false)
    ensures Answers(Next(s, step, ttl, maximum), t, c)
  {
    hide Admit, Stored, Settled;
  }

  lemma {:induction false} RunKeepsAnswer(s: System, steps: seq<Step>, ttl: int, maximum: nat, t: nat, c: nat)
    requires Answers(s, t, c) && Build(t, false) !in steps
    ensures Answers(Run(s, steps, ttl, maximum), t, c)
    decreases |steps|
  {
    hide Next, Answers;
    if steps != [] {
      assert steps[0] in steps && forall step | step in steps[1..] :: step in steps;
      StepKeepsAnswer(s, steps[0], ttl, maximum, t, c);
      RunKeepsAnswer(Next(s, steps[0], ttl, maximum), steps[1..], ttl, maximum, t, c);
    }
  }

  /** The owner of a call that returned ends with the response of that call, in every run in
      which the answer can be built. */
  lemma OwnerGetsItsResponse(s: System, t: nat, storable: bool, steps: seq<Step>, ttl: int, maximum: nat)
    requires Inv(s) && t in s.threads && s.threads[t].pc.Calling? && Build(t, false) !in steps
    ensures var u := Run(Next(s, Return(t, storable), ttl, maximum), steps, ttl, maximum);
      && t in u.threads && (u.threads[t].pc.Done? ==> u.threads[t].pc == Done(Response(s.threads[t].pc.call), false))
  {
    hide Inv, Run;
    CallIsKnown(s, t);
    var v := Next(s, Return(t, storable), ttl, maximum);
    assert Answers(v, t, s.threads[t].pc.call);
    hide Next;
    RunKeepsAnswer(v, steps, ttl, maximum, t, s.threads[t].pc.call);
  }

  // ---- a request and its repetition ---------------------------------------------------------------

  /** The turns of a request that calls and stores. */
  function Executing(t: nat): seq<Step> { [Return(t, true), Store(t), Build(t, true), Resolve(t), Leave(t)] }

  lemma {:induction false} RunAppend(s: System, a: seq<Step>, b: seq<Step>, ttl: int, maximum: nat)
    ensures Run(s, a + b, ttl, maximum) == Run(Run(s, a, ttl, maximum), b, ttl, maximum)
    decreases |a|
  {
    hide Next;
    if a == [] {
      assert [] + b == b;
    } else {
      assert (a + b)[1..] == a[1..] + b;
      RunAppend(Next(s, a[0], ttl, maximum), a[1..], b, ttl, maximum);
    }
  }

  lemma RunOfOne(s: System, a: Step, ttl: int, maximum: nat)
    ensures Run(s, [a], ttl, maximum) == Next(s, a, ttl, maximum)
  {
    hide Next;
    assert Run(Next(s, a, ttl, maximum), [], ttl, maximum) == Next(s, a, ttl, maximum);
  }

  lemma ArrivalIsThere(s: System, t: nat, id: Identity, fingerprint: string, ttl: int, maximum: nat)
    requires t !in s.threads
    ensures Next(s, Arrive(t, id, fingerprint), ttl, maximum) == s.(threads := s.threads[t := Thread(id, fingerprint, Arriving)])
  {
  }

  /** The owner's own turns, one after the other, bring it to its response, which is recorded. */
  lemma ExecutingEnds(s: System, t: nat, ttl: int, maximum: nat)
    requires Inv(s) && 1 <= maximum && t in s.threads && s.threads[t].pc.Calling?
    ensures var u := Run(s, Executing(t), ttl, maximum); var x := s.threads[t];
      && t in u.threads && u.threads[t] == Thread(x.id, x.fingerprint, Done(Response(x.pc.call), false))
      && u.now == s.now && |u.calls| == |s.calls| && u.threads.Keys == s.threads.Keys
      && x.id in u.registry.records.vals && u.registry.records.vals[x.id] == Replay(x.fingerprint, x.pc.call, s.now + ttl)
  {
    hide Inv, Stored, Kept;
    CallIsKnown(s, t);
    UnresolvedServes(s, t);
    var x := s.threads[t];
    var a := Next(s, Return(t, true), ttl, maximum);
    StepKeepsInv(s, Return(t, true), ttl, maximum);
    assert a.threads[t] == Thread(x.id, x.fingerprint, Storing(x.pc.future, x.pc.call, s.now + ttl));
    var b := Next(a, Store(t), ttl, maximum);
    StoringGoesOn(a, Store(t), ttl, maximum, t);
    KeptIsRecorded(b, t, x.id, x.fingerprint, x.pc.future, x.pc.call, s.now + ttl);
    var c := Next(b, Build(t, true), ttl, maximum);
    var d := Next(c, Resolve(t), ttl, maximum);
    var e := Next(d, Leave(t), ttl, maximum);
    assert e.threads[t].pc == Done(Response(x.pc.call), false);
    assert e.registry.records == b.registry.records;
    hide Next;
    RunOfFive(s, Return(t, true), Store(t), Build(t, true), Resolve(t), Leave(t), ttl, maximum);
  }

  lemma KeptIsRecorded(s: System, t: nat, id: Identity, fingerprint: string, f: nat, c: nat, expires: int)
    requires Kept(s, t, id, fingerprint, f, c, expires) && t in s.threads && !s.threads[t].pc.Storing?
    ensures id in s.registry.records.vals && s.registry.records.vals[id] == Replay(fingerprint, c, expires)
  {
  }

  lemma RunOfFive(s: System, a: Step, b: Step, c: Step, d: Step, e: Step, ttl: int, maximum: nat)
    ensures Run(s, [a, b, c, d, e], ttl, maximum)
            == Next(Next(Next(Next(Next(s, a, ttl, maximum), b, ttl, maximum), c, ttl, maximum), d, ttl, maximum), e, ttl, maximum)
  {
    hide Next;
    RunAppend(s, [a], [b, c, d, e], ttl, maximum);
    RunOfOne(s, a, ttl, maximum);
    var s1 := Next(s, a, ttl, maximum);
    RunAppend(s1, [b], [c, d, e], ttl, maximum);
    RunOfOne(s1, b, ttl, maximum);
    var s2 := Next(s1, b, ttl, maximum);
    RunAppend(s2, [c], [d, e], ttl, maximum);
    RunOfOne(s2, c, ttl, maximum);
    var s3 := Next(s2, c, ttl, maximum);
    RunAppend(s3, [d], [e], ttl, maximum);
    RunOfOne(s3, d, ttl, maximum);
    RunOfOne(Next(s3, d, ttl, maximum), e, ttl, maximum);
    assert [a] + [b, c, d, e] == [a, b, c, d, e] && [b] + [c, d, e] == [b, c, d, e] && [c] + [d, e] == [c, d, e] && [d] + [e] == [d, e];
  }

  /** A request for a free key makes one call and is answered by it; the same request, made again
      before the response expires, gets that response without another. */
  lemma RetryIsReplayed(s: System, t: nat, w: nat, id: Identity, fingerprint: string, seconds: nat, ttl: int, maximum: nat)
    requires Inv(s) && 1 <= maximum && t !in s.threads && w !in s.threads && t != w && seconds < ttl
    requires id !in s.registry.records.vals && id !in s.registry.inflight
    ensures var v := Next(Next(s, Arrive(t, id, fingerprint), ttl, maximum), Enter(t), ttl, maximum);
      var u := Run(v, Executing(t) + [Tick(seconds), Arrive(w, id, fingerprint)], ttl, maximum);
      var z := Next(u, Enter(w), ttl, maximum);
      && t in z.threads && z.threads[t].pc == Done(Response(|s.calls|), false)
      && w in z.threads && z.threads[w].pc == Done(Response(|s.calls|), true)
      && |z.calls| == |s.calls| + 1
  {
    hide Inv, Next, Run, Executing;
    var a := Next(s, Arrive(t, id, fingerprint), ttl, maximum);
    ArrivalIsThere(s, t, id, fingerprint, ttl, maximum);
    StepKeepsInv(s, Arrive(t, id, fingerprint), ttl, maximum);
    EntryIsExact(a, t, ttl, maximum);
    StepKeepsInv(a, Enter(t), ttl, maximum);
    var v := Next(a, Enter(t), ttl, maximum);
    ExecutingEnds(v, t, ttl, maximum);
    RunAppend(v, Executing(t), [Tick(seconds), Arrive(w, id, fingerprint)], ttl, maximum);
    var b := Run(v, Executing(t), ttl, maximum);
    RunKeepsInv(v, Executing(t) + [Tick(seconds), Arrive(w, id, fingerprint)], ttl, maximum);
    EntryKeepsOthers(a, t, ttl, maximum);
    LastTwo(b, w, id, fingerprint, seconds, ttl, maximum);
    var u := Run(v, Executing(t) + [Tick(seconds), Arrive(w, id, fingerprint)], ttl, maximum);
    EntryIsExact(u, w, ttl, maximum);
    EntryKeepsOthers(u, w, ttl, maximum);
  }

  lemma LastTwo(s: System, w: nat, id: Identity, fingerprint: string, seconds: nat, ttl: int, maximum: nat)
    requires w !in s.threads
    ensures Run(s, [Tick(seconds), Arrive(w, id, fingerprint)], ttl, maximum)
            == s.(now := s.now + seconds, threads := s.threads[w := Thread(id, fingerprint, Arriving)])
  {
    RunOfOne(s, Tick(seconds), ttl, maximum);
    RunAppend(s, [Tick(seconds)], [Arrive(w, id, fingerprint)], ttl, maximum);
    RunOfOne(Next(s, Tick(seconds), ttl, maximum), Arrive(w, id, fingerprint), ttl, maximum);
    assert [Tick(seconds)] + [Arrive(w, id, fingerprint)] == [Tick(seconds), Arrive(w, id, fingerprint)];
  }

  lemma EntryKeepsOthers(s: System, w: nat, ttl: int, maximum: nat)
    requires w in s.threads && s.threads[w].pc == Arriving
    ensures var u := Next(s, Enter(w), ttl, maximum);
      && u.now == s.now && u.threads.Keys == s.threads.Keys && u.threads[w].id == s.threads[w].id && u.threads[w].fingerprint == s.threads[w].fingerprint
      && forall x | x in s.threads && x != w :: u.threads[x] == s.threads[x]
  {
    hide Admit;
  }
}
