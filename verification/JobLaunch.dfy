/** Starting a run of a Job under changed options: the new configuration is saved by
    compare-and-swap on the Job's revision, next to other writers and with replies that get
    lost, and the run is started with an idempotency key. */
module JobLaunches {
  import opened OrderedDicts

  // ---- configurations -----------------------------------------------------------------

  datatype Tree = Scalar(text: string) | Table(entries: map<string, Tree>)

  /** Job options and overrides are dictionaries. */
  type Configuration = t: Tree | t.Table? witness Table(map[])

  const EMPTY: Configuration := Table(map[])

  /** deep_merge: tables are merged entry by entry, anything else is replaced. */
  function Merge(a: Tree, b: Tree): Tree
    decreases b
  {
    if a.Table? && b.Table? then
      Table(map k | k in a.entries.Keys + b.entries.Keys ::
              if k !in b.entries then a.entries[k] else if k !in a.entries then b.entries[k] else Merge(a.entries[k], b.entries[k]))
    else b
  }

  function Resolved(saved: Configuration, overrides: Configuration): Configuration { Merge(saved, overrides) }

  lemma {:induction false} MergeSelf(b: Tree)
    ensures Merge(b, b) == b
  {
    if b.Table? {
      forall k | k in b.entries
        ensures Merge(b.entries[k], b.entries[k]) == b.entries[k]
      {
        MergeSelf(b.entries[k]);
      }
      assert Merge(b, b).entries == b.entries;
    }
  }

  /** Saving the same overrides twice is saving them once. */
  lemma {:induction false} MergeIdempotent(a: Tree, b: Tree)
    ensures Merge(Merge(a, b), b) == Merge(a, b)
    decreases b
  {
    if a.Table? && b.Table? {
      forall k | k in b.entries
        ensures Merge(b.entries[k], b.entries[k]) == b.entries[k]
        ensures k in a.entries ==> Merge(Merge(a.entries[k], b.entries[k]), b.entries[k]) == Merge(a.entries[k], b.entries[k])
      {
        MergeSelf(b.entries[k]);
        if k in a.entries { MergeIdempotent(a.entries[k], b.entries[k]); }
      }
      assert Merge(Merge(a, b), b).entries == Merge(a, b).entries;
    } else {
      MergeSelf(b);
    }
  }

  /** The text at a path of keys. */
  function Leaf(t: Tree, path: seq<string>): Option<string>
    decreases |path|
  {
    match t
    case Scalar(text) => if path == [] then Some(text) else None
    case Table(entries) => if path != [] && path[0] in entries then Leaf(entries[path[0]], path[1..]) else None
  }

  /** The tree says what is at the path: its tables have all keys of it, or end in a text. */
  predicate Covers(t: Tree, path: seq<string>)
    decreases |path|
  {
    t.Scalar? || path == [] || (path[0] in t.entries && Covers(t.entries[path[0]], path[1..]))
  }

  lemma {:induction false} UncoveredHasNone(t: Tree, path: seq<string>)
    requires !Covers(t, path)
    ensures Leaf(t, path) == None
    decreases |path|
  {
    if path[0] in t.entries { UncoveredHasNone(t.entries[path[0]], path[1..]); }
  }

  /** Overrides decide every path they say something about, however deep in nested tables,
      and every other path keeps what was saved. */
  lemma {:induction false} MergeSetsLeaves(a: Tree, b: Tree, path: seq<string>)
    ensures Leaf(Merge(a, b), path) == if Covers(b, path) then Leaf(b, path) else Leaf(a, path)
    decreases |path|
  {
    if a.Table? && b.Table? {
      if path != [] && path[0] in a.entries && path[0] in b.entries {
        MergeSetsLeaves(a.entries[path[0]], b.entries[path[0]], path[1..]);
        assert Merge(a, b).entries[path[0]] == Merge(a.entries[path[0]], b.entries[path[0]]);
      } else if path != [] && path[0] in b.entries {
        assert Merge(a, b).entries[path[0]] == b.entries[path[0]];
        if !Covers(b, path) { UncoveredHasNone(b, path); }
      }
    } else if !Covers(b, path) {
      UncoveredHasNone(b, path);
    }
  }

  lemma MergeNothing(a: Configuration)
    ensures Resolved(a, EMPTY) == a
  {
    assert Merge(a, EMPTY).entries == a.entries;
  }

  // ---- the Core as the environment ------------------------------------------------------

  /** An update of the configuration as sent; `base` (a history variable) is what its
      sender had read at revision `expected`. */
  datatype Update = Update(expected: nat, base: Configuration, target: Configuration)

  /** A change of the configuration, by one of our updates or by another writer. */
  datatype Commit = Commit(before: Configuration, after: Configuration, author: Option<Update>)

  datatype Started = Started(key: string, configuration: Configuration)

  /** One Job in the Core. Requests whose reply was lost may still arrive: `delayed` updates
      and `delayedLaunches`. `commits` is the history of the configuration. */
  datatype Core = Core(configuration: Configuration, revision: nat, commits: seq<Commit>, runs: seq<Started>,
                       delayed: set<Update>, delayedLaunches: set<string>)

  /** What happens besides: status refreshes, other writers, late arrivals. */
  datatype Move = Refresh | Edit(configuration: Configuration) | Arrive(update: Update) | ArriveLaunch(key: string)

  /** revision_mismatch, or a call whose reply was lost; `retryable` are the codes
      DEADLINE_EXCEEDED and UNAVAILABLE. */
  datatype Error = Mismatch | Lost(retryable: bool)

  /** What happens before a call reaches the Core, and whether its reply is lost. */
  datatype Weather = Weather(moves: seq<Move>, lost: Option<bool>)

  /** Compare-and-swap on the revision. */
  function Applied(c: Core, u: Update): Core {
    if c.revision != u.expected then c
    else c.(configuration := u.target, revision := c.revision + 1, commits := c.commits + [Commit(c.configuration, u.target, Some(u))])
  }

  /** A key starts one run; an empty key does not deduplicate. */
  function Launched(c: Core, key: string): Core {
    if key != "" && exists i :: 0 <= i < |c.runs| && c.runs[i].key == key then c
    else c.(runs := c.runs + [Started(key, c.configuration)])
  }

  function Moved(c: Core, m: Move): Core {
    match m
    case Refresh => c.(revision := c.revision + 1)
    case Edit(x) => c.(configuration := x, revision := c.revision + 1, commits := c.commits + [Commit(c.configuration, x, None)])
    case Arrive(u) => if u in c.delayed then Applied(c.(delayed := c.delayed - {u}), u) else c
    case ArriveLaunch(key) => if key in c.delayedLaunches then Launched(c.(delayedLaunches := c.delayedLaunches - {key}), key) else c
  }

  function AllMoved(c: Core, moves: seq<Move>): Core
    decreases |moves|
  {
    if moves == [] then c else AllMoved(Moved(c, moves[0]), moves[1..])
  }

  /** The weather holds no other writer. */
  ghost predicate Quiet(weather: seq<Weather>) {
    forall w | w in weather :: forall m | m in w.moves :: !m.Edit?
  }

  /** Nothing else happens and every reply arrives. */
  ghost predicate Calm(weather: seq<Weather>) {
    forall w | w in weather :: w.moves == [] && w.lost.None?
  }

  // ---- what no environment can break ------------------------------------------------------

  /** x was the configuration at revision r, as far as anyone can still tell. */
  ghost predicate ReadAt(c: Core, r: nat, x: Configuration) {
    r <= c.revision && (r == c.revision ==> c.configuration == x)
  }

  function After(first: Configuration, commits: seq<Commit>): Configuration {
    if commits == [] then first else commits[|commits| - 1].after
  }

  /** The history is the configuration's own: each commit replaced what the one before left. */
  ghost predicate Chained(first: Configuration, commits: seq<Commit>) {
    forall i | 0 <= i < |commits| :: commits[i].before == After(first, commits[..i])
  }

  /** Each of our commits replaced the very configuration its sender had read. */
  ghost predicate Sound(c: Core, first: Configuration) {
    && Chained(first, c.commits) && After(first, c.commits) == c.configuration
    && (forall u | u in c.delayed :: ReadAt(c, u.expected, u.base))
    && (forall i | 0 <= i < |c.commits| && c.commits[i].author.Some? ::
          c.commits[i].before == c.commits[i].author.value.base && c.commits[i].after == c.commits[i].author.value.target)
  }

  /** From c to d only updates from `base` to `target`, besides those already on their way, were sent. */
  ghost predicate Sent(c: Core, d: Core, base: Configuration, target: Configuration) {
    && c.revision <= d.revision && c.commits <= d.commits && c.runs <= d.runs
    && (forall u | u in d.delayed :: u in c.delayed || (u.base == base && u.target == target))
    && (forall i | |c.commits| <= i < |d.commits| && d.commits[i].author.Some? ::
          d.commits[i].author.value in c.delayed || (d.commits[i].author.value.base == base && d.commits[i].author.value.target == target))
  }

  /** With no other writer: one configuration change at most, and runs only after it. */
  ghost predicate Settling(c: Core, first: Configuration, goal: Configuration) {
    && (forall u | u in c.delayed :: u.base == first && u.target == goal && first != goal)
    && (c.commits == [] || (|c.commits| == 1 && c.commits[0].after == goal && c.commits[0].author.Some? && first != goal))
    && (forall i | 0 <= i < |c.runs| :: c.runs[i].configuration == goal)
    && (c.delayedLaunches != {} ==> c.configuration == goal)
  }

  lemma ChainedMore(first: Configuration, commits: seq<Commit>, x: Commit)
    requires Chained(first, commits) && x.before == After(first, commits)
    ensures Chained(first, commits + [x]) && After(first, commits + [x]) == x.after
  {
    var more := commits + [x];
    forall i | 0 <= i < |more|
      ensures more[i].before == After(first, more[..i])
    {
      if i < |commits| { assert more[..i] == commits[..i]; } else { assert more[..i] == commits; }
    }
  }

  /** An update sent for what was read is applied only over what was read. */
  lemma AppliedIsSound(c: Core, u: Update, first: Configuration)
    requires Sound(c, first) && ReadAt(c, u.expected, u.base)
    ensures Sound(Applied(c, u), first)
  {
    ChainedMore(first, c.commits, Commit(c.configuration, u.target, Some(u)));
    hide Chained, After;
  }

  lemma MoveIsSound(c: Core, m: Move, first: Configuration)
    requires Sound(c, first)
    ensures Sound(Moved(c, m), first)
  {
    if m.Edit? {
      ChainedMore(first, c.commits, Commit(c.configuration, m.configuration, None));
    }
    if m.Arrive? && m.update in c.delayed {
      AppliedIsSound(c.(delayed := c.delayed - {m.update}), m.update, first);
    }
    hide Chained, After;
  }

  lemma MoveSends(c: Core, m: Move, r: nat, x: Configuration, base: Configuration, target: Configuration)
    ensures Sent(c, Moved(c, m), base, target)
    ensures ReadAt(c, r, x) ==> ReadAt(Moved(c, m), r, x)
  {
  }

  lemma SentOnward(c: Core, d: Core, e: Core, base: Configuration, target: Configuration)
    requires Sent(c, d, base, target) && Sent(d, e, base, target)
    ensures Sent(c, e, base, target)
  {
  }

  lemma MoveSettles(c: Core, m: Move, first: Configuration, goal: Configuration)
    requires Sound(c, first) && Settling(c, first, goal) && !m.Edit?
    ensures Settling(Moved(c, m), first, goal)
  {
  }

  lemma {:induction false} MovesKeep(c: Core, moves: seq<Move>, first: Configuration, goal: Configuration, r: nat, x: Configuration)
    requires Sound(c, first)
    ensures var d := AllMoved(c, moves);
      && Sound(d, first) && (ReadAt(c, r, x) ==> ReadAt(d, r, x))
      && (Settling(c, first, goal) && (forall m | m in moves :: !m.Edit?) ==> Settling(d, first, goal))
    decreases |moves|
  {
    hide Sound, Settling, Moved, ReadAt;
    if moves != [] {
      MoveIsSound(c, moves[0], first);
      MoveSends(c, moves[0], r, x, first, goal);
      if Settling(c, first, goal) && (forall m | m in moves :: !m.Edit?) { MoveSettles(c, moves[0], first, goal); }
      MovesKeep(Moved(c, moves[0]), moves[1..], first, goal, r, x);
    }
  }

  lemma {:induction false} MovesSend(c: Core, moves: seq<Move>, base: Configuration, target: Configuration)
    ensures Sent(c, AllMoved(c, moves), base, target)
    decreases |moves|
  {
    hide Moved;
    if moves != [] {
      MoveSends(c, moves[0], 0, base, base, target);
      MovesSend(Moved(c, moves[0]), moves[1..], base, target);
      SentOnward(c, Moved(c, moves[0]), AllMoved(c, moves), base, target);
    }
  }

  // ---- calls ---------------------------------------------------------------------------------

  function Elapsed(c: Core, weather: seq<Weather>): Core { if weather == [] then c else AllMoved(c, weather[0].moves) }

  function Later(weather: seq<Weather>): seq<Weather> { if weather == [] then [] else weather[1..] }

  function LostReply(weather: seq<Weather>): Option<bool> { if weather == [] then None else weather[0].lost }

  /** An update reaches d and is applied or refused, or it is under way when its reply is lost. */
  function Sending(d: Core, lost: bool, u: Update): Core {
    if lost then d.(delayed := d.delayed + {u}) else Applied(d, u)
  }

  function Updated(c: Core, weather: seq<Weather>, u: Update): Core {
    Sending(Elapsed(c, weather), LostReply(weather).Some?, u)
  }

  function RunRequested(c: Core, weather: seq<Weather>, key: string): Core {
    var d := Elapsed(c, weather);
    if LostReply(weather).Some? then d.(delayedLaunches := d.delayedLaunches + {key}) else Launched(d, key)
  }

  datatype Reply<T> = Ok(value: T) | Err(error: Error)

  /** The Core behind its client, with everything the environment is going to do. */
  class Runtime {
    var core: Core
    var weather: seq<Weather>

    constructor (core: Core, weather: seq<Weather>)
      ensures this.core == core && this.weather == weather
    {
      this.core, this.weather := core, weather;
    }

    method GetJob() returns (r: Reply<(Configuration, nat)>)
      modifies this
      ensures core == Elapsed(old(core), old(weather)) && weather == Later(old(weather))
      ensures r == match LostReply(old(weather)) case Some(retryable) => Err(Lost(retryable)) case None => Ok((core.configuration, core.revision))
    {
      core := Elapsed(core, weather);
      r := match LostReply(weather) case Some(retryable) => Err(Lost(retryable)) case None => Ok((core.configuration, core.revision));
      weather := Later(weather);
    }

    method UpdateJob(u: Update) returns (r: Reply<()>)
      modifies this
      ensures core == Updated(old(core), old(weather), u) && weather == Later(old(weather))
      ensures r == match LostReply(old(weather))
                   case Some(retryable) => Err(Lost(retryable))
                   case None => if Elapsed(old(core), old(weather)).revision == u.expected then Ok(()) else Err(Mismatch)
    {
      r := match LostReply(weather)
           case Some(retryable) => Err(Lost(retryable))
           case None => if Elapsed(core, weather).revision == u.expected then Ok(()) else Err(Mismatch);
      core, weather := Updated(core, weather, u), Later(weather);
    }

    method LaunchRun(key: string) returns (r: Reply<()>)
      modifies this
      ensures core == RunRequested(old(core), old(weather), key) && weather == Later(old(weather))
      ensures r == match LostReply(old(weather)) case Some(retryable) => Err(Lost(retryable)) case None => Ok(())
    {
      r := match LostReply(weather) case Some(retryable) => Err(Lost(retryable)) case None => Ok(());
      core, weather := RunRequested(core, weather, key), Later(weather);
    }
  }

  lemma ElapsedKeeps(c: Core, weather: seq<Weather>, first: Configuration, goal: Configuration, base: Configuration, target: Configuration)
    requires Sound(c, first)
    ensures var d := Elapsed(c, weather);
      && Sound(d, first) && Sent(c, d, base, target)
      && (Quiet(weather) && Settling(c, first, goal) ==> Settling(d, first, goal) && Quiet(Later(weather)))
  {
    hide Sound, Settling, Sent;
    if weather == [] {
      NothingSent(c, base, target);
    } else {
      MovesKeep(c, weather[0].moves, first, goal, 0, first);
      MovesSend(c, weather[0].moves, base, target);
    }
  }

  lemma NothingSent(c: Core, base: Configuration, target: Configuration)
    ensures Sent(c, c, base, target)
  {
  }

  lemma CalmIsStill(c: Core, weather: seq<Weather>)
    ensures Calm(weather) ==> Elapsed(c, weather) == c && LostReply(weather).None? && Calm(Later(weather))
  {
    if weather != [] { assert weather[0] in weather && forall w | w in weather[1..] :: w in weather; }
  }

  lemma ElapsedKeepsReading(c: Core, weather: seq<Weather>, first: Configuration, r: nat, x: Configuration)
    requires Sound(c, first) && ReadAt(c, r, x)
    ensures ReadAt(Elapsed(c, weather), r, x)
  {
    hide Sound;
    if weather != [] { MovesKeep(c, weather[0].moves, first, first, r, x); }
  }

  lemma SendingIsSound(d: Core, lost: bool, u: Update, first: Configuration)
    requires Sound(d, first) && ReadAt(d, u.expected, u.base)
    ensures Sound(Sending(d, lost, u), first)
  {
    AppliedIsSound(d, u, first);
    hide Chained, After;
  }

  lemma SendingSends(d: Core, lost: bool, u: Update)
    ensures Sent(d, Sending(d, lost, u), u.base, u.target)
  {
  }

  lemma SendingSettles(d: Core, lost: bool, u: Update)
    requires Sound(d, u.base) && ReadAt(d, u.expected, u.base) && Settling(d, u.base, u.target) && u.base != u.target
    ensures Settling(Sending(d, lost, u), u.base, u.target)
  {
  }

  lemma UpdatedKeeps(c: Core, weather: seq<Weather>, u: Update, first: Configuration, goal: Configuration)
    requires Sound(c, first) && ReadAt(c, u.expected, u.base)
    ensures var d := Updated(c, weather, u);
      && Sound(d, first) && Sent(c, d, u.base, u.target)
      && (Quiet(weather) && Settling(c, first, goal) && u.base == first && u.target == goal && first != goal ==>
            Settling(d, first, goal) && Quiet(Later(weather)))
  {
    hide Elapsed, Sound, Sent, Settling, ReadAt, Applied;
    ElapsedKeeps(c, weather, first, goal, u.base, u.target);
    ElapsedKeepsReading(c, weather, first, u.expected, u.base);
    var d := Elapsed(c, weather);
    var lost := LostReply(weather).Some?;
    SendingIsSound(d, lost, u, first);
    SendingSends(d, lost, u);
    if Settling(d, first, goal) && u.base == first && u.target == goal && first != goal { SendingSettles(d, lost, u); }
    SentOnward(c, d, Updated(c, weather, u), u.base, u.target);
  }

  /** Once reached and undisturbed, the goal stays. */
  lemma GoalStays(c: Core, d: Core, first: Configuration, goal: Configuration)
    requires Sound(c, first) && Sound(d, first) && Settling(d, first, goal) && c.commits <= d.commits && c.configuration == goal
    ensures d.configuration == goal
  {
  }

  lemma RunRequestedKeeps(c: Core, weather: seq<Weather>, key: string, first: Configuration, goal: Configuration,
                          base: Configuration, target: Configuration)
    requires Sound(c, first)
    ensures var d := RunRequested(c, weather, key);
      && Sound(d, first) && Sent(c, d, base, target)
      && (Quiet(weather) && Settling(c, first, goal) && c.configuration == goal ==>
            Settling(d, first, goal) && d.configuration == goal && Quiet(Later(weather)))
  {
    hide AllMoved;
    ElapsedKeeps(c, weather, first, goal, base, target);
    var d := Elapsed(c, weather);
    if Quiet(weather) && Settling(c, first, goal) && c.configuration == goal { GoalStays(c, d, first, goal); }
    hide Elapsed, Chained, After;
    SentOnward(c, d, RunRequested(c, weather, key), base, target);
  }

  lemma SentGrows(c: Core, d: Core, base: Configuration, target: Configuration)
    requires Sent(c, d, base, target)
    ensures c.revision <= d.revision && c.commits <= d.commits && c.runs <= d.runs
  {
  }

  /** With no other writer the configuration is the first one or the goal. */
  lemma SettledIsEither(c: Core, first: Configuration, goal: Configuration)
    requires Sound(c, first)
    ensures Settling(c, first, goal) ==> c.configuration == first || c.configuration == goal
  {
  }

  /** An update that was refused found a newer revision. */
  lemma MismatchMeansNewer(c: Core, weather: seq<Weather>, u: Update)
    requires u.expected == c.revision
    ensures Updated(c, weather, u).revision >= c.revision
    ensures LostReply(weather).None? && Elapsed(c, weather).revision != u.expected ==> Updated(c, weather, u).revision > c.revision
    ensures LostReply(weather).None? && Elapsed(c, weather).revision == u.expected ==>
              var d := Updated(c, weather, u);
              && d.configuration == u.target && |d.commits| > |c.commits|
              && d.commits[|d.commits| - 1] == Commit(Elapsed(c, weather).configuration, u.target, Some(u))
  {
    if weather != [] {
      MovesSend(c, weather[0].moves, u.base, u.target);
      hide AllMoved;
    }
  }

  /** Nothing but runs under one key, and at most one of them. */
  ghost predicate Once(c: Core, key: string) {
    && |c.runs| <= 1 && (forall i | 0 <= i < |c.runs| :: c.runs[i].key == key) && (forall k | k in c.delayedLaunches :: k == key)
  }

  lemma LaunchedOnce(c: Core, key: string)
    requires Once(c, key) && key != ""
    ensures Once(Launched(c, key), key) && |Launched(c, key).runs| == 1
  {
    if |c.runs| == 1 { assert c.runs[0].key == key; }
  }

  lemma {:induction false} MovesKeepOnce(c: Core, moves: seq<Move>, key: string)
    requires Once(c, key) && key != ""
    ensures Once(AllMoved(c, moves), key)
    decreases |moves|
  {
    if moves != [] {
      if moves[0].ArriveLaunch? && moves[0].key in c.delayedLaunches {
        LaunchedOnce(c.(delayedLaunches := c.delayedLaunches - {key}), key);
      }
      MovesKeepOnce(Moved(c, moves[0]), moves[1..], key);
    }
  }

  lemma ElapsedKeepsOnce(c: Core, weather: seq<Weather>, key: string)
    ensures key != "" && Once(c, key) ==> Once(Elapsed(c, weather), key)
  {
    hide Once;
    if key != "" && Once(c, key) && weather != [] { MovesKeepOnce(c, weather[0].moves, key); }
  }

  lemma UpdatedKeepsOnce(c: Core, weather: seq<Weather>, u: Update, key: string)
    ensures key != "" && Once(c, key) ==> Once(Updated(c, weather, u), key)
  {
    ElapsedKeepsOnce(c, weather, key);
    hide Elapsed;
  }

  lemma RunRequestedOnce(c: Core, weather: seq<Weather>, key: string)
    ensures key != "" && Once(c, key) ==>
              var d := RunRequested(c, weather, key); Once(d, key) && (LostReply(weather).None? ==> |d.runs| == 1)
  {
    ElapsedKeepsOnce(c, weather, key);
    hide Elapsed, Launched;
    if key != "" && Once(c, key) { LaunchedOnce(Elapsed(c, weather), key); }
  }

  // ---- the launch ------------------------------------------------------------------------------

  /** How saving the configuration ends. */
  datatype Exit = Committed | AlreadySaved | Conflict | Failed(error: Error)

  /** What one attempt does: read the Job, and stop if its configuration is not `saved`; else
      send the update for the revision read. */
  ghost predicate SavedOnce(c: Core, weather: seq<Weather>, saved: Configuration, resolved: Configuration, after: Core, later: seq<Weather>, exit: Exit) {
    var d := Elapsed(c, weather);
    if LostReply(weather).Some? || d.configuration != saved then
      && after == d && later == Later(weather)
      && exit == (if LostReply(weather).Some? then Failed(Lost(LostReply(weather).value))
                  else if d.configuration == resolved then AlreadySaved else Conflict)
    else
      && after == Updated(d, Later(weather), Update(d.revision, saved, resolved)) && later == Later(Later(weather))
      && exit == (match LostReply(Later(weather))
                  case Some(retryable) => Failed(Lost(retryable))
                  case None => if Elapsed(d, Later(weather)).revision == d.revision then Committed else Failed(Mismatch))
  }

  /** The last of up to `tries` looks at the Job, as the weather has it: the Core then, and the
      weather of that look. There is another after each update refused for its revision. */
  ghost function LastLook(c: Core, weather: seq<Weather>, saved: Configuration, resolved: Configuration, tries: nat): (Core, seq<Weather>)
    decreases tries
  {
    var d := Elapsed(c, weather);
    if tries <= 1 || LostReply(weather).Some? || d.configuration != saved
       || LostReply(Later(weather)).Some? || Elapsed(d, Later(weather)).revision == d.revision
    then (d, weather)
    else LastLook(Updated(d, Later(weather), Update(d.revision, saved, resolved)), Later(Later(weather)), saved, resolved, tries - 1)
  }

  /** Saving finds a configuration that is neither the one it started from nor its goal. */
  ghost predicate FindsAnother(c: Core, weather: seq<Weather>, saved: Configuration, resolved: Configuration) {
    var (look, w) := LastLook(c, weather, saved, resolved, 3);
    LostReply(w).None? && look.configuration != saved && look.configuration != resolved
  }

  /** From c to d nothing was launched but what was on its way. */
  ghost predicate NoLaunch(c: Core, d: Core) {
    && d.delayedLaunches <= c.delayedLaunches && c.runs <= d.runs
    && forall i | |c.runs| <= i < |d.runs| :: d.runs[i].key in c.delayedLaunches
  }

  lemma NoLaunchOnward(c: Core, d: Core, e: Core)
    requires NoLaunch(c, d) && NoLaunch(d, e)
    ensures NoLaunch(c, e)
  {
  }

  lemma NothingLaunched(c: Core)
    ensures NoLaunch(c, c)
  {
  }

  lemma NoneWaiting(c: Core, d: Core)
    requires NoLaunch(c, d)
    ensures |d.runs| > |c.runs| ==> c.delayedLaunches != {}
    ensures c.delayedLaunches == {} ==> d.runs == c.runs && d.delayedLaunches == {}
  {
    if |d.runs| > |c.runs| { assert d.runs[|c.runs|].key in c.delayedLaunches; }
  }

  lemma {:induction false} MovesLaunchNothing(c: Core, moves: seq<Move>)
    ensures NoLaunch(c, AllMoved(c, moves))
    decreases |moves|
  {
    if moves != [] {
      var d := Moved(c, moves[0]);
      assert NoLaunch(c, d);
      hide Moved, NoLaunch;
      MovesLaunchNothing(d, moves[1..]);
      NoLaunchOnward(c, d, AllMoved(d, moves[1..]));
    }
  }

  lemma ElapsedLaunchesNothing(c: Core, weather: seq<Weather>)
    ensures NoLaunch(c, Elapsed(c, weather))
  {
    if weather != [] { MovesLaunchNothing(c, weather[0].moves); }
  }

  lemma UpdatedLaunchesNothing(c: Core, weather: seq<Weather>, u: Update)
    ensures NoLaunch(c, Updated(c, weather, u))
  {
    ElapsedLaunchesNothing(c, weather);
    hide Elapsed;
  }

  lemma SavedOnceLooks(c: Core, weather: seq<Weather>, saved: Configuration, resolved: Configuration, after: Core, later: seq<Weather>, exit: Exit, tries: nat)
    requires SavedOnce(c, weather, saved, resolved, after, later, exit) && 1 <= tries && saved != resolved
    ensures exit == Failed(Mismatch) && 1 < tries ==>
              LastLook(c, weather, saved, resolved, tries) == LastLook(after, later, saved, resolved, tries - 1)
    ensures exit != Failed(Mismatch) || tries == 1 ==>
              var (look, w) := LastLook(c, weather, saved, resolved, tries);
              && (exit == Conflict <==> LostReply(w).None? && look.configuration != saved && look.configuration != resolved)
              && (exit == Conflict ==> after == look)
  {
    hide Elapsed, Updated, Later, LostReply;
  }

  lemma SavedOnceLaunchesNothing(c: Core, weather: seq<Weather>, saved: Configuration, resolved: Configuration, after: Core, later: seq<Weather>, exit: Exit)
    requires SavedOnce(c, weather, saved, resolved, after, later, exit)
    ensures NoLaunch(c, after)
  {
    hide Elapsed, Updated, Later, LostReply, NoLaunch;
    var d := Elapsed(c, weather);
    ElapsedLaunchesNothing(c, weather);
    if after != d {
      UpdatedLaunchesNothing(d, Later(weather), Update(d.revision, saved, resolved));
      NoLaunchOnward(c, d, after);
    }
  }

  /** One attempt to save `resolved` over `saved`, on the latest revision. */
  method SaveOnce(rt: Runtime, saved: Configuration, resolved: Configuration, ghost first: Configuration, ghost key: string)
    returns (exit: Exit)
    requires Sound(rt.core, first) && saved != resolved
    modifies rt
    ensures Sound(rt.core, first) && Sent(old(rt.core), rt.core, saved, resolved)
    ensures exit == Committed ==>
              && rt.core.configuration == resolved && |rt.core.commits| > |old(rt.core).commits|
              && var last := rt.core.commits[|rt.core.commits| - 1];
                 last.before == saved && last.after == resolved && last.author.Some?
    ensures exit == AlreadySaved ==> rt.core.configuration == resolved
    ensures exit == Conflict ==> rt.core.configuration != saved && rt.core.configuration != resolved
    ensures exit == Failed(Mismatch) ==> rt.core.revision > old(rt.core).revision
    ensures SavedOnce(old(rt.core), old(rt.weather), saved, resolved, rt.core, rt.weather, exit)
    ensures old(Quiet(rt.weather) && Settling(rt.core, first, resolved)) && saved == first ==>
              Settling(rt.core, first, resolved) && Quiet(rt.weather) && exit != Conflict
    ensures key != "" && old(Once(rt.core, key)) ==> Once(rt.core, key)
    ensures old(Calm(rt.weather)) ==> Calm(rt.weather) && (old(rt.core).configuration == saved ==> exit == Committed)
  {
    hide Sound, Settling, Quiet, Sent, Elapsed, Updated, Once, Later, LostReply, Calm;
    ghost var c := rt.core;
    CalmIsStill(c, rt.weather);
    ElapsedKeeps(c, rt.weather, first, resolved, saved, resolved);
    ElapsedKeepsOnce(c, rt.weather, key);
    var latest := rt.GetJob();
    if latest.Err? { return Failed(latest.error); }
    var (configuration, revision) := latest.value;
    if configuration == resolved { return AlreadySaved; }
    if configuration != saved {
      SettledIsEither(rt.core, first, resolved);
      return Conflict;
    }
    var u := Update(revision, saved, resolved);
    SentGrows(c, rt.core, saved, resolved);
    c := rt.core;
    CalmIsStill(c, rt.weather);
    UpdatedKeeps(c, rt.weather, u, first, resolved);
    UpdatedKeepsOnce(c, rt.weather, u, key);
    MismatchMeansNewer(c, rt.weather, u);
    ElapsedKeepsReading(c, rt.weather, first, revision, saved);
    var reply := rt.UpdateJob(u);
    SentOnward(old(rt.core), c, rt.core, saved, resolved);
    exit := if reply.Ok? then Committed else Failed(reply.error);
  }

  /** Save `resolved` over `saved`, trying again on the latest revision while the
      configuration is still `saved`. The loop never runs out: it ends committed, already
      saved, in conflict or with an error, and with a revision mismatch only after three. */
  method SaveConfiguration(rt: Runtime, saved: Configuration, resolved: Configuration, ghost first: Configuration, ghost key: string)
    returns (exit: Exit)
    requires Sound(rt.core, first) && saved != resolved
    modifies rt
    ensures Sound(rt.core, first) && Sent(old(rt.core), rt.core, saved, resolved)
    ensures exit == Committed ==>
              && rt.core.configuration == resolved && |rt.core.commits| > |old(rt.core).commits|
              && var last := rt.core.commits[|rt.core.commits| - 1];
                 last.before == saved && last.after == resolved && last.author.Some?
    ensures exit == AlreadySaved ==> rt.core.configuration == resolved
    ensures exit == Conflict ==> rt.core.configuration != saved && rt.core.configuration != resolved
    ensures exit == Failed(Mismatch) ==> rt.core.revision >= old(rt.core).revision + 3
    ensures exit == Conflict <==> FindsAnother(old(rt.core), old(rt.weather), saved, resolved)
    ensures exit == Conflict ==> rt.core == LastLook(old(rt.core), old(rt.weather), saved, resolved, 3).0
    ensures NoLaunch(old(rt.core), rt.core)
    ensures old(Quiet(rt.weather) && Settling(rt.core, first, resolved)) && saved == first ==>
              Settling(rt.core, first, resolved) && Quiet(rt.weather) && exit != Conflict
    ensures key != "" && old(Once(rt.core, key)) ==> Once(rt.core, key)
    ensures old(Calm(rt.weather)) ==> Calm(rt.weather) && (old(rt.core).configuration == saved ==> exit == Committed)
  {
    hide Sound, Settling, Quiet, Sent, Once, Calm, LastLook, SavedOnce, NoLaunch;
    NothingSent(rt.core, saved, resolved);
    NothingLaunched(rt.core);
    for attempt := 0 to 3
      invariant attempt <= 2
      invariant Sound(rt.core, first) && Sent(old(rt.core), rt.core, saved, resolved)
      invariant rt.core.revision >= old(rt.core).revision + attempt && |rt.core.commits| >= |old(rt.core).commits|
      invariant old(Quiet(rt.weather) && Settling(rt.core, first, resolved)) && saved == first ==>
                  Settling(rt.core, first, resolved) && Quiet(rt.weather)
      invariant key != "" && old(Once(rt.core, key)) ==> Once(rt.core, key)
      invariant old(Calm(rt.weather)) ==> Calm(rt.weather) && (attempt == 0 || old(rt.core).configuration != saved)
      invariant attempt == 0 ==> rt.core == old(rt.core)
      invariant NoLaunch(old(rt.core), rt.core)
      invariant LastLook(old(rt.core), old(rt.weather), saved, resolved, 3) == LastLook(rt.core, rt.weather, saved, resolved, 3 - attempt)
    {
      ghost var c, w := rt.core, rt.weather;
      exit := SaveOnce(rt, saved, resolved, first, key);
      SavedOnceLooks(c, w, saved, resolved, rt.core, rt.weather, exit, 3 - attempt);
      SavedOnceLaunchesNothing(c, w, saved, resolved, rt.core, rt.weather, exit);
      NoLaunchOnward(old(rt.core), c, rt.core);
      SentOnward(old(rt.core), c, rt.core, saved, resolved);
      SentGrows(c, rt.core, saved, resolved);
      if attempt == 2 || exit != Failed(Mismatch) { return; }
    }
    assert false;
  }

  /** How a run request ends: 202, 422, 409, or an error of a call to the Core. */
  datatype Outcome = Running | Rejected | Changed | Error(error: Error)

  /** The configuration a run request leads to; without a blueprint the overrides are not saved. */
  function Goal(blueprint: bool, first: Configuration, overrides: Configuration): Configuration {
    if blueprint then Resolved(first, overrides) else first
  }

  /** A run gets the overrides it asks for if and only if the Job has a blueprint or they
      change nothing. */
  lemma GoalIsAskedIff(blueprint: bool, first: Configuration, overrides: Configuration, key: string)
    ensures Started(key, Goal(blueprint, first, overrides)) == Started(key, Resolved(first, overrides))
            <==> blueprint || Resolved(first, overrides) == first
  {
  }

  /** Merge the overrides into the configuration that was read and save the result, if there
      is a blueprint to build from and anything changes. */
  method SaveIfChanged(rt: Runtime, blueprint: bool, overrides: Configuration, configuration: Configuration,
                       ghost first: Configuration, ghost key: string)
    returns (exit: Exit)
    requires Sound(rt.core, first)
    modifies rt
    ensures Sound(rt.core, first) && Sent(old(rt.core), rt.core, configuration, Resolved(configuration, overrides))
    ensures var goal := Goal(blueprint, first, overrides);
      old(Quiet(rt.weather) && Settling(rt.core, first, goal)) && configuration == old(rt.core).configuration ==>
        && Settling(rt.core, first, goal) && Quiet(rt.weather) && exit != Conflict
        && (!exit.Failed? ==> rt.core.configuration == goal)
    ensures key != "" && old(Once(rt.core, key)) ==> Once(rt.core, key)
    ensures old(Calm(rt.weather)) && configuration == old(rt.core).configuration ==> Calm(rt.weather) && (exit == Committed || exit == AlreadySaved)
    ensures exit == Conflict <==>
              var resolved := Resolved(configuration, overrides);
              blueprint && resolved != configuration && FindsAnother(old(rt.core), old(rt.weather), configuration, resolved)
    ensures exit == Conflict ==> rt.core == LastLook(old(rt.core), old(rt.weather), configuration, Resolved(configuration, overrides), 3).0
    ensures (exit == Committed || exit == AlreadySaved) && blueprint && Resolved(configuration, overrides) != configuration ==>
              rt.core.configuration == Resolved(configuration, overrides)
    ensures NoLaunch(old(rt.core), rt.core)
  {
    hide Sound, Settling, Quiet, Sent, Once, Calm, FindsAnother, LastLook, NoLaunch;
    NothingLaunched(rt.core);
    var resolved := Resolved(configuration, overrides);
    NothingSent(rt.core, configuration, resolved);
    SettledIsEither(rt.core, first, Goal(blueprint, first, overrides));
    GoalIsFixed(first, overrides);
    hide Resolved;
    if !blueprint || resolved == configuration { return AlreadySaved; }
    if overrides == EMPTY {
      MergeNothing(configuration);
      return AlreadySaved;
    }
    exit := SaveConfiguration(rt, configuration, resolved, first, key);
  }

  /** Saving the merge of the overrides and what the first look finds meets another change. */
  ghost predicate Conflicts(c: Core, weather: seq<Weather>, blueprint: bool, overrides: Configuration) {
    var saved := Elapsed(c, weather).configuration; var resolved := Resolved(saved, overrides);
    blueprint && resolved != saved && FindsAnother(Elapsed(c, weather), Later(weather), saved, resolved)
  }

  ghost function ConflictingCore(c: Core, weather: seq<Weather>, overrides: Configuration): Core {
    var saved := Elapsed(c, weather).configuration;
    LastLook(Elapsed(c, weather), Later(weather), saved, Resolved(saved, overrides), 3).0
  }

  /** No run under the key was started or is on its way. */
  ghost predicate NotLaunched(c: Core, key: string) {
    key !in c.delayedLaunches && forall i | 0 <= i < |c.runs| :: c.runs[i].key != key
  }

  /** A launch under a new key starts a run with the configuration it finds. */
  lemma LaunchStarts(c: Core, d: Core, weather: seq<Weather>, key: string)
    requires NoLaunch(c, d) && NotLaunched(c, key) && LostReply(weather).None?
    ensures var e := RunRequested(d, weather, key); Started(key, e.configuration) in e.runs && e.commits == Elapsed(d, weather).commits
  {
    hide Elapsed;
    ElapsedLaunchesNothing(d, weather);
    var e := Elapsed(d, weather);
    NoLaunchOnward(c, d, e);
    assert NotLaunched(e, key);
    var f := Launched(e, key);
    assert f.runs[|f.runs| - 1] == Started(key, e.configuration);
  }

  lemma AfterIsCurrent(c: Core, first: Configuration)
    requires Sound(c, first)
    ensures After(first, c.commits) == c.configuration
  {
  }

  /** POST /jobs/{id}/runs. Whatever other writers do, its updates replace only the
      configuration it started from. With no other writer it never reports a conflict,
      changes the configuration at most once and starts the run under the configuration
      asked for. */
  method CreateJobRun(rt: Runtime, blueprint: bool, overrides: Configuration, replace: bool, runId: string, key: string, ghost first: Configuration)
    returns (outcome: Outcome, ghost saved: Configuration, ghost atSave: nat)
    requires Sound(rt.core, first)
    modifies rt
    ensures Sound(rt.core, first) && Sent(old(rt.core), rt.core, saved, Resolved(saved, overrides))
    ensures outcome == Rejected <==> replace && runId == ""
    ensures outcome != Rejected ==> saved == Elapsed(old(rt.core), old(rt.weather)).configuration
    ensures var goal := Goal(blueprint, first, overrides);
      old(Quiet(rt.weather) && Settling(rt.core, first, goal)) ==>
        && Settling(rt.core, first, goal) && Quiet(rt.weather) && outcome != Changed
        && (outcome == Running ==> rt.core.configuration == goal)
    ensures key != "" && old(Once(rt.core, key)) ==> Once(rt.core, key) && (outcome == Running ==> |rt.core.runs| == 1)
    ensures old(Calm(rt.weather)) ==> outcome == if replace && runId == "" then Rejected else Running
    ensures outcome == Changed <==>
              && !(replace && runId == "") && LostReply(old(rt.weather)).None?
              && Conflicts(old(rt.core), old(rt.weather), blueprint, overrides)
    ensures outcome == Changed ==> rt.core == ConflictingCore(old(rt.core), old(rt.weather), overrides) && NoLaunch(old(rt.core), rt.core)
    ensures outcome == Running ==>
              && |old(rt.core).commits| <= atSave <= |rt.core.commits|
              && (blueprint && Resolved(saved, overrides) != saved ==> After(first, rt.core.commits[..atSave]) == Resolved(saved, overrides))
              && (NotLaunched(old(rt.core), key) ==> Started(key, rt.core.configuration) in rt.core.runs)
  {
    hide Sound, Settling, Quiet, Sent, Elapsed, RunRequested, Resolved, Once, Goal, LostReply, Later, Calm, LastLook, NoLaunch, NotLaunched, FindsAnother;
    saved, atSave := first, 0;
    ghost var c := rt.core;
    CalmIsStill(c, rt.weather);
    ghost var goal := Goal(blueprint, first, overrides);
    if replace && runId == "" { NothingSent(c, saved, Resolved(saved, overrides)); return Rejected, saved, 0; }
    saved := Elapsed(c, rt.weather).configuration;
    ghost var resolved := Resolved(saved, overrides);
    ElapsedKeeps(c, rt.weather, first, goal, saved, resolved);
    ElapsedKeepsOnce(c, rt.weather, key);
    var current := rt.GetJob();
    if current.Err? { return Error(current.error), saved, 0; }
    ElapsedLaunchesNothing(c, old(rt.weather));
    c := rt.core;
    var exit := SaveIfChanged(rt, blueprint, overrides, current.value.0, first, key);
    SentOnward(old(rt.core), c, rt.core, saved, resolved);
    NoLaunchOnward(old(rt.core), c, rt.core);
    if exit == Conflict { return Changed, saved, 0; }
    if exit.Failed? { return Error(exit.error), saved, 0; }
    SentGrows(old(rt.core), rt.core, saved, resolved);
    c := rt.core;
    atSave := |c.commits|;
    AfterIsCurrent(c, first);
    CalmIsStill(c, rt.weather);
    RunRequestedKeeps(c, rt.weather, key, first, goal, saved, resolved);
    RunRequestedOnce(c, rt.weather, key);
    ghost var w := rt.weather;
    if NotLaunched(old(rt.core), key) && LostReply(w).None? { LaunchStarts(old(rt.core), c, w, key); }
    var run := rt.LaunchRun(key);
    SentGrows(c, rt.core, saved, resolved);
    assert rt.core.commits[..atSave] == c.commits;
    SentOnward(old(rt.core), c, rt.core, saved, resolved);
    outcome := if run.Ok? then Running else Error(run.error);
  }

  /** It happens: another writer's edit between the two looks at a Job ends the request in a
      conflict, with that edit in place and no run. */
  method EditedMeanwhile(configuration: Configuration, other: Configuration, overrides: Configuration, key: string)
    returns (outcome: Outcome, after: Core)
    requires other != configuration && other != Resolved(configuration, overrides) && Resolved(configuration, overrides) != configuration
    ensures outcome == Changed && after.configuration == other && after.runs == [] && after.delayedLaunches == {}
  {
    hide Resolved, Sound, Sent, NoLaunch;
    var weather := [Weather([], None), Weather([Edit(other)], None)];
    var core := Core(configuration, 0, [], [], {}, {});
    var rt := new Runtime(core, weather);
    FreshStart(core, configuration, key);
    EditIsFound(core, other, overrides);
    ghost var saved, atSave;
    outcome, saved, atSave := CreateJobRun(rt, true, overrides, false, "", key, configuration);
    after := rt.core;
    NoneWaiting(core, after);
  }

  lemma EditIsFound(c: Core, other: Configuration, overrides: Configuration)
    requires other != c.configuration && other != Resolved(c.configuration, overrides) && Resolved(c.configuration, overrides) != c.configuration
    ensures var weather := [Weather([], None), Weather([Edit(other)], None)];
      && LostReply(weather).None? && Conflicts(c, weather, true, overrides)
      && ConflictingCore(c, weather, overrides) == Moved(c, Edit(other))
  {
    hide Resolved;
    var weather := [Weather([], None), Weather([Edit(other)], None)];
    assert Elapsed(c, weather) == c && Later(weather) == [Weather([Edit(other)], None)];
    assert [Edit(other)][1..] == [];
    var edited := Moved(c, Edit(other));
    assert AllMoved(edited, []) == edited;
    assert AllMoved(c, [Edit(other)]) == AllMoved(edited, []);
    assert Elapsed(c, Later(weather)) == edited;
  }

  /** What the overrides make of the first configuration they leave alone from then on. */
  lemma GoalIsFixed(first: Configuration, overrides: Configuration)
    ensures Resolved(Resolved(first, overrides), overrides) == Resolved(first, overrides)
  {
    MergeIdempotent(first, overrides);
  }

  /** POST /jobs/{id}/run-operations: up to ten attempts, repeated after a lost reply. With
      no other writer, however many replies are lost and however late the lost requests
      arrive, the Job's configuration is changed at most once and one run at most is
      started, under the configuration asked for. */
  method Reconcile(rt: Runtime, blueprint: bool, overrides: Configuration, replace: bool, runId: string, key: string)
    returns (outcome: Outcome)
    requires key != "" && rt.core.commits == [] && rt.core.runs == [] && rt.core.delayed == {} && rt.core.delayedLaunches == {}
    modifies rt
    ensures Sound(rt.core, old(rt.core.configuration))
    ensures Once(rt.core, key) && (outcome == Running ==> |rt.core.runs| == 1)
    ensures var first := old(rt.core.configuration); var goal := Goal(blueprint, first, overrides);
      old(Quiet(rt.weather)) ==>
        && Settling(rt.core, first, goal) && outcome != Changed
        && (outcome == Running ==> rt.core.configuration == goal && rt.core.runs == [Started(key, goal)])
    ensures var first := old(rt.core.configuration); var asked := Resolved(first, overrides);
      old(Quiet(rt.weather)) && outcome == Running ==>
        (rt.core.runs == [Started(key, asked)] <==> blueprint || asked == first)
    ensures old(Calm(rt.weather)) ==> outcome == if replace && runId == "" then Rejected else Running
    ensures !(replace && runId == "") && LostReply(old(rt.weather)).None? && Conflicts(old(rt.core), old(rt.weather), blueprint, overrides) ==>
              outcome == Changed && rt.core == ConflictingCore(old(rt.core), old(rt.weather), overrides) && rt.core.runs == []
  {
    hide Elapsed, Quiet, Resolved, Calm, LostReply, Conflicts, ConflictingCore;
    ghost var first := rt.core.configuration;
    ghost var goal := Goal(blueprint, first, overrides);
    FreshStart(rt.core, goal, key);
    GoalIsAskedIff(blueprint, first, overrides, key);
    hide Sound, Settling, Once, Sent, Goal;
    for attempt := 0 to 10
      invariant attempt <= 9
      invariant Sound(rt.core, first) && Once(rt.core, key)
      invariant old(Quiet(rt.weather)) ==> Settling(rt.core, first, goal) && Quiet(rt.weather)
      invariant old(Calm(rt.weather)) ==> attempt == 0 && Calm(rt.weather)
      invariant attempt == 0 ==> rt.core == old(rt.core) && rt.weather == old(rt.weather)
      invariant attempt > 0 && LostReply(old(rt.weather)).None? ==> !Conflicts(old(rt.core), old(rt.weather), blueprint, overrides)
    {
      ghost var saved;
      ghost var atSave;
      outcome, saved, atSave := CreateJobRun(rt, blueprint, overrides, replace, runId, key, first);
      if outcome == Changed && attempt == 0 { NoneWaiting(old(rt.core), rt.core); }
      if outcome == Running {
        OneRun(rt.core, key, first, goal);
        return;
      }
      if outcome.Error? && outcome.error == Lost(true) && attempt < 9 { continue; }
      return;
    }
    assert false;
  }

  /** An undisturbed launch on a Job that has not run: one run, under the configuration asked
      for exactly if there is a blueprint or nothing to change. */
  method UndisturbedLaunch(configuration: Configuration, blueprint: bool, overrides: Configuration, key: string)
    returns (runs: seq<Started>)
    requires key != ""
    ensures |runs| == 1 && runs[0].key == key
    ensures runs == [Started(key, Resolved(configuration, overrides))] <==> blueprint || Resolved(configuration, overrides) == configuration
    ensures !blueprint ==> runs == [Started(key, configuration)]
  {
    hide Resolved, Sound, Settling, Once;
    var rt := new Runtime(Core(configuration, 0, [], [], {}, {}), []);
    var outcome := Reconcile(rt, blueprint, overrides, false, "", key);
    return rt.core.runs;
  }

  /** It happens: a Job without a blueprint is launched with an override, and runs without it. */
  method OverridesIgnored() returns (runs: seq<Started>, asked: Configuration)
    ensures asked == Resolved(EMPTY, Table(map["model" := Scalar("large")])) != EMPTY
    ensures runs == [Started("key", EMPTY)]
  {
    var overrides: Configuration := Table(map["model" := Scalar("large")]);
    asked := Resolved(EMPTY, overrides);
    assert asked.entries["model"] == Scalar("large");
    runs := UndisturbedLaunch(EMPTY, false, overrides, "key");
  }

  lemma FreshStart(c: Core, goal: Configuration, key: string)
    requires c.commits == [] && c.runs == [] && c.delayed == {} && c.delayedLaunches == {}
    ensures Sound(c, c.configuration) && Settling(c, c.configuration, goal) && Once(c, key)
  {
  }

  lemma OneRun(c: Core, key: string, first: Configuration, goal: Configuration)
    requires Once(c, key) && |c.runs| == 1
    ensures Settling(c, first, goal) ==> c.runs == [Started(key, goal)]
  {
    assert c.runs[0].key == key;
  }

  /** And it stays so: requests still under way change nothing more when they arrive. */
  lemma SettledForGood(c: Core, moves: seq<Move>, first: Configuration, goal: Configuration, key: string)
    requires key != "" && Sound(c, first) && Settling(c, first, goal) && Once(c, key)
    requires forall m | m in moves :: !m.Edit?
    ensures var d := AllMoved(c, moves);
      && |d.commits| <= 1 && |d.runs| <= 1
      && (c.configuration == goal ==> d.configuration == goal)
      && (forall r | r in d.runs :: r == Started(key, goal))
  {
    MovesKeep(c, moves, first, goal, 0, first);
    MovesSend(c, moves, first, goal);
    MovesKeepOnce(c, moves, key);
    hide AllMoved;
    var d := AllMoved(c, moves);
    if c.configuration == goal { GoalStays(c, d, first, goal); }
  }

  /** Another writer's differing change is never overwritten: at any time, whatever the
      environment did, one of our updates applies only where the configuration is the one
      its sender read, and every commit of ours in the history replaced that configuration. */
  lemma OthersAreNotOverwritten(c: Core, moves: seq<Move>, first: Configuration, i: nat)
    requires Sound(c, first) && i < |AllMoved(c, moves).commits| && AllMoved(c, moves).commits[i].author.Some?
    ensures var commits := AllMoved(c, moves).commits;
      && commits[i].before == commits[i].author.value.base
      && commits[i].before == (if i == 0 then first else commits[i - 1].after)
  {
    MovesKeep(c, moves, first, first, 0, first);
    hide AllMoved;
    var commits := AllMoved(c, moves).commits;
    assert commits[i].before == After(first, commits[..i]);
  }
}
