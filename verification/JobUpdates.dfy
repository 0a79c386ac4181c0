/** Conditional updates of a Job: PATCH with If-Match, and the preparation that repeats it
    under the ETag of the request that was accepted first. */
module JobUpdates {
  import opened OrderedDicts
  import opened JobLaunches

  /** The ETag of a Job: a hash of the whole resource, which its revision is part of. */
  datatype Fence = Fence(revision: nat, configuration: Configuration)

  function ETag(c: Core): Fence { Fence(c.revision, c.configuration) }

  /** Saved, nothing to save, saved by an earlier attempt, 412, or an error of a call. */
  datatype Result = Saved | Unchanged | Reconciled | Stale | CallFailed(error: Error)

  /** The update sent under a fence. */
  function UpdateFor(fence: Fence, target: Configuration): Update { Update(fence.revision, fence.configuration, target) }

  /** From c to d only the fence's own update was sent, besides those already under way. */
  ghost predicate OnlyFenced(c: Core, d: Core, fence: Fence, target: Configuration) {
    && c.revision <= d.revision && c.commits <= d.commits
    && (forall u | u in d.delayed :: u in c.delayed || u == UpdateFor(fence, target))
    && (forall i | |c.commits| <= i < |d.commits| && d.commits[i].author.Some? ::
          d.commits[i].author.value in c.delayed || d.commits[i].author.value == UpdateFor(fence, target))
  }

  /** Our commits were made at rising revisions, all of them past. */
  ghost predicate Rising(c: Core) {
    && (forall i | 0 <= i < |c.commits| && c.commits[i].author.Some? :: c.commits[i].author.value.expected < c.revision)
    && (forall i, j | 0 <= i < j < |c.commits| && c.commits[i].author.Some? && c.commits[j].author.Some? ::
          c.commits[i].author.value.expected < c.commits[j].author.value.expected)
  }

  lemma MoveKeepsRising(c: Core, m: Move)
    requires Rising(c)
    ensures Rising(Moved(c, m))
  {
  }

  lemma {:induction false} MovesKeepRising(c: Core, moves: seq<Move>)
    requires Rising(c)
    ensures Rising(AllMoved(c, moves))
    decreases |moves|
  {
    hide Moved;
    if moves != [] {
      MoveKeepsRising(c, moves[0]);
      MovesKeepRising(Moved(c, moves[0]), moves[1..]);
    }
  }

  lemma ElapsedKeepsRising(c: Core, weather: seq<Weather>)
    requires Rising(c)
    ensures Rising(Elapsed(c, weather))
  {
    hide Rising;
    if weather != [] { MovesKeepRising(c, weather[0].moves); }
  }

  lemma UpdatedKeepsRising(c: Core, weather: seq<Weather>, u: Update)
    requires Rising(c)
    ensures Rising(Updated(c, weather, u))
  {
    ElapsedKeepsRising(c, weather);
    hide Elapsed;
  }

  lemma {:induction false} MovesAreFenced(c: Core, moves: seq<Move>, fence: Fence, target: Configuration)
    ensures OnlyFenced(c, AllMoved(c, moves), fence, target)
    decreases |moves|
  {
    if moves != [] {
      MoveIsFenced(c, moves[0], fence, target);
      hide Moved;
      MovesAreFenced(Moved(c, moves[0]), moves[1..], fence, target);
    }
  }

  lemma MoveIsFenced(c: Core, m: Move, fence: Fence, target: Configuration)
    ensures OnlyFenced(c, Moved(c, m), fence, target)
  {
  }

  lemma ElapsedIsFenced(c: Core, weather: seq<Weather>, fence: Fence, target: Configuration)
    ensures OnlyFenced(c, Elapsed(c, weather), fence, target)
  {
    if weather != [] { MovesAreFenced(c, weather[0].moves, fence, target); }
    hide AllMoved;
  }

  lemma UpdatedIsFenced(c: Core, weather: seq<Weather>, fence: Fence, target: Configuration)
    ensures OnlyFenced(c, Updated(c, weather, UpdateFor(fence, target)), fence, target)
  {
    ElapsedIsFenced(c, weather, fence, target);
    hide Elapsed;
  }

  lemma FencedOnward(c: Core, d: Core, e: Core, fence: Fence, target: Configuration)
    requires OnlyFenced(c, d, fence, target) && OnlyFenced(d, e, fence, target)
    ensures OnlyFenced(c, e, fence, target)
  {
  }

  /** PATCH /jobs/{id} with a configuration: the write is made only if the Job still is the
      resource of the ETag, both when it is read and when the Core compares the revision. */
  method UpdateJob(rt: Runtime, refresh: bool, fence: Fence, target: Configuration, ghost first: Configuration) returns (r: Result)
    requires Sound(rt.core, first) && Rising(rt.core)
    modifies rt
    ensures Sound(rt.core, first) && Rising(rt.core) && OnlyFenced(old(rt.core), rt.core, fence, target)
    ensures r == Saved ==>
              && rt.core.revision == fence.revision + 1 && rt.core.configuration == target
              && |rt.core.commits| > 0
              && rt.core.commits[|rt.core.commits| - 1] == Commit(fence.configuration, target, Some(UpdateFor(fence, target)))
    ensures r == Unchanged ==> !refresh && ETag(rt.core) == fence && target == fence.configuration
    ensures r == Stale ==> ETag(rt.core) != fence
    ensures r == Stale <==> LostReply(old(rt.weather)).None? && ETag(Elapsed(old(rt.core), old(rt.weather))) != fence
    ensures r == Stale || r == Unchanged ==> rt.core == Elapsed(old(rt.core), old(rt.weather))
    ensures r != Reconciled
    ensures old(Calm(rt.weather)) ==>
              r == if ETag(old(rt.core)) != fence then Stale
                   else if !refresh && target == fence.configuration then Unchanged else Saved
  {
    hide Sound, Rising, OnlyFenced, Elapsed, Calm;
    ghost var c := rt.core;
    CalmIsStill(c, rt.weather);
    CalmIsStill(c, Later(rt.weather));
    ElapsedKeeps(c, rt.weather, first, first, target, target);
    ElapsedKeepsRising(c, rt.weather);
    ElapsedIsFenced(c, rt.weather, fence, target);
    var current := rt.GetJob();
    if current.Err? { return CallFailed(current.error); }
    var (configuration, revision) := current.value;
    if Fence(revision, configuration) != fence { return Stale; }
    if !refresh && target == configuration { return Unchanged; }
    var u := Update(revision, configuration, target);
    c := rt.core;
    UpdatedKeeps(c, rt.weather, u, first, first);
    UpdatedKeepsRising(c, rt.weather, u);
    UpdatedIsFenced(c, rt.weather, fence, target);
    ElapsedKeepsReading(c, rt.weather, first, revision, configuration);
    MismatchMeansNewer(c, rt.weather, u);
    var reply := rt.UpdateJob(u);
    FencedOnward(old(rt.core), c, rt.core, fence, target);
    r := if reply.Ok? then Saved else CallFailed(reply.error);
  }

  /** The worker of POST /jobs/{id}/preparations, under the fence of its accepted receipt.
      `uncertain` tells that an earlier attempt was interrupted or failed retryably. */
  method PrepareUpdate(rt: Runtime, uncertain: bool, refresh: bool, fence: Fence, target: Configuration, ghost first: Configuration)
    returns (r: Result)
    requires Sound(rt.core, first) && Rising(rt.core)
    modifies rt
    ensures Sound(rt.core, first) && Rising(rt.core) && OnlyFenced(old(rt.core), rt.core, fence, target)
    ensures r == Saved ==> rt.core.revision == fence.revision + 1 && rt.core.configuration == target
    ensures r == Reconciled ==> uncertain && !refresh && ETag(rt.core) != fence && rt.core.configuration == target
    ensures var d := Elapsed(old(rt.core), old(rt.weather));
      && (r == Reconciled <==>
            LostReply(old(rt.weather)).None? && uncertain && !refresh && ETag(d) != fence && d.configuration == target)
      && (r == Reconciled ==> rt.core == d)
    ensures r == Stale ==> ETag(rt.core) != fence
    ensures r == Unchanged ==> !refresh && ETag(rt.core) == fence && target == fence.configuration
    ensures old(Calm(rt.weather)) ==>
              r == if ETag(old(rt.core)) == fence then if !refresh && target == fence.configuration then Unchanged else Saved
                   else if uncertain && !refresh && old(rt.core).configuration == target then Reconciled else Stale
  {
    hide Sound, Rising, OnlyFenced, Elapsed, Calm;
    ghost var c := rt.core;
    CalmIsStill(c, rt.weather);
    ElapsedKeeps(c, rt.weather, first, first, target, target);
    ElapsedKeepsRising(c, rt.weather);
    ElapsedIsFenced(c, rt.weather, fence, target);
    var current := rt.GetJob();
    if current.Err? { return CallFailed(current.error); }
    var (configuration, revision) := current.value;
    if uncertain && !refresh && Fence(revision, configuration) != fence && configuration == target { return Reconciled; }
    c := rt.core;
    r := UpdateJob(rt, refresh, fence, target, first);
    FencedOnward(old(rt.core), c, rt.core, fence, target);
  }

  /** However often a preparation is repeated, and whatever arrives late afterwards, its
      update is committed at most once, and only over the very configuration of its fence:
      another writer's change is never overwritten. */
  lemma FencedUpdateCommitsOnce(c: Core, moves: seq<Move>, first: Configuration, fence: Fence, target: Configuration, i: nat, j: nat)
    requires Sound(c, first) && Rising(c)
    requires var commits := AllMoved(c, moves).commits;
      && i < |commits| && j < |commits|
      && commits[i].author == Some(UpdateFor(fence, target)) && commits[j].author == Some(UpdateFor(fence, target))
    ensures i == j
    ensures AllMoved(c, moves).commits[i] == Commit(fence.configuration, target, Some(UpdateFor(fence, target)))
    ensures fence.configuration == if i == 0 then first else AllMoved(c, moves).commits[i - 1].after
  {
    hide AllMoved;
    MovesKeep(c, moves, first, first, 0, first);
    MovesKeepRising(c, moves);
    OthersAreNotOverwritten(c, moves, first, i);
    hide Chained;
  }
}
