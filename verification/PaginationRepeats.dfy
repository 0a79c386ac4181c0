/** When a walk along page tokens returns an identity twice: records that were gone and
    come back push earlier ones past the offset. */
module PaginationRepeats {
  import opened OrderedDicts
  import opened Pagination
  import opened PaginationTheorems

  /** The place of a live id among the live ones is the number of live ones before it. */
  lemma LiveAt(s: seq<string>, k: nat, present: set<string>)
    requires k < |s| && s[k] in present
    ensures var r := |Live(s[..k], present)|; r < |Live(s, present)| && Live(s, present)[r] == s[k]
  {
    LiveSplit(s[..k], s[k..], present);
    assert s == s[..k] + s[k..];
    LiveSplit([s[k]], s[k + 1..], present);
    assert s[k..] == [s[k]] + s[k + 1..];
    LiveOfAll([s[k]], present);
    hide Live;
    assert Live(s[k..], present)[0] == s[k];
  }

  lemma {:induction false} LiveFrom(s: seq<string>, present: set<string>, r: nat)
    requires r < |Live(s, present)|
    ensures exists k | 0 <= k < |s| && s[k] == Live(s, present)[r] && s[k] in present :: |Live(s[..k], present)| == r
    decreases |s|
  {
    var init, last := s[..|s| - 1], s[|s| - 1];
    if r < |Live(init, present)| {
      LiveFrom(init, present, r);
      var k :| 0 <= k < |init| && init[k] == Live(init, present)[r] && init[k] in present && |Live(init[..k], present)| == r;
      assert init[..k] == s[..k] && init[k] == s[k];
    } else {
      assert s[..|s| - 1] == init;
    }
  }

  lemma LiveDistinct(s: seq<string>, present: set<string>)
    requires Distinct(s)
    ensures Distinct(Live(s, present))
  {
    LiveIsSubsequence(s, present);
    SubsequenceOfDistinct(Live(s, present), s);
  }

  /** An id had before is live, and there are at least `offset` live ones before it, and few
      enough for a page of that size to reach it. */
  ghost predicate Reaches(got: seq<string>, snapshot: seq<string>, now: set<string>, offset: nat, size: int) {
    exists k | 0 <= k < |snapshot| && snapshot[k] in got && snapshot[k] in now :: offset <= |Live(snapshot[..k], now)| < offset + size
  }

  lemma SliceRepeatsIff(got: seq<string>, snapshot: seq<string>, now: set<string>, offset: nat, size: nat)
    ensures (exists id | id in Slice(Live(snapshot, now), offset, size) :: id in got) <==> Reaches(got, snapshot, now, offset, size)
  {
    hide Live;
    var page := Slice(Live(snapshot, now), offset, size);
    if id :| id in page && id in got {
      var i :| 0 <= i < |page| && page[i] == id;
      LiveFrom(snapshot, now, offset + i);
    }
    if Reaches(got, snapshot, now, offset, size) {
      var k :| 0 <= k < |snapshot| && snapshot[k] in got && snapshot[k] in now && offset <= |Live(snapshot[..k], now)| < offset + size;
      LiveAt(snapshot, k, now);
      assert page[|Live(snapshot[..k], now)| - offset] == snapshot[k];
    }
  }

  /** The request finds a record collected before pushed past the offset, by others that
      came back, and its page reaches it. */
  ghost predicate Overtaken(s: State, c: Call) {
    Reaches(Ids(s.walk.collected), SnapshotOf(s, c), IdSet(c.records), s.walk.offset, c.size)
  }

  /** A page returns something collected before exactly if that is so. */
  lemma PageRepeatsIff(s: State, step: Step, ttl: int, maximum: nat)
    requires Tracks(s) && Served200(s, step, ttl, maximum)
    ensures (exists id | id in Ids(Served(s.tokens, step.call, ttl, maximum).1.items) :: id in Ids(s.walk.collected))
            <==> Overtaken(s, step.call)
  {
    hide Served, Live, IdSet, SnapshotOf, Slice, Reaches, Tracks;
    PageIsLiveSlice(s, step, ttl, maximum);
    var c := step.call;
    SliceRepeatsIff(Ids(s.walk.collected), SnapshotOf(s, c), IdSet(c.records), s.walk.offset, c.size);
    hide Ids, Served200;
  }

  /** No page of the run finds a record overtaken. */
  ghost predicate NeverOvertaken(steps: seq<Step>, ttl: int, maximum: nat) {
    steps == []
    || var init, last := steps[..|steps| - 1], steps[|steps| - 1];
       && NeverOvertaken(init, ttl, maximum)
       && (Served200(Run(Initial, init, ttl, maximum), last, ttl, maximum) ==> !Overtaken(Run(Initial, init, ttl, maximum), last.call))
  }

  lemma DistinctSum<T>(a: seq<T>, b: seq<T>)
    requires Distinct(b)
    ensures Distinct(a + b) <==> Distinct(a) && forall x | x in b :: x !in a
  {
    if Distinct(a + b) {
      assert forall i | 0 <= i < |a| :: (a + b)[i] == a[i];
      forall j | 0 <= j < |b|
        ensures b[j] !in a
      {
        assert (a + b)[|a| + j] == b[j];
      }
    }
    if Distinct(a) && forall x | x in b :: x !in a {
      forall i, j | 0 <= i < j < |a + b|
        ensures (a + b)[i] != (a + b)[j]
      {
        if i < |a| <= j { assert b[j - |a|] in b && a[i] in a; }
      }
    }
  }

  lemma PageIsDistinct(s: State, step: Step, ttl: int, maximum: nat)
    requires Tracks(s) && Served200(s, step, ttl, maximum) && Distinct(SnapshotOf(s, step.call))
    ensures Distinct(Ids(Served(s.tokens, step.call, ttl, maximum).1.items))
  {
    PageIsLiveSlice(s, step, ttl, maximum);
    LiveDistinct(SnapshotOf(s, step.call), IdSet(step.call.records));
    hide Served, Served200, Tracks, Live, Ids, IdSet, SnapshotOf;
  }

  /** Before its first page a walk has nothing. */
  ghost predicate Fresh(w: Walk) { w.phase == NotStarted ==> w.snapshot == [] && w.collected == [] }

  lemma StepRepeatsIff(s: State, step: Step, ttl: int, maximum: nat)
    requires Tracks(s) && Fresh(s.walk)
    ensures var u := Next(s, step, ttl, maximum);
      && Fresh(u.walk)
      && (Distinct(u.walk.snapshot) ==>
            && Distinct(s.walk.snapshot)
            && (Distinct(Ids(u.walk.collected)) <==>
                  Distinct(Ids(s.walk.collected)) && (Served200(s, step, ttl, maximum) ==> !Overtaken(s, step.call))))
  {
    var u := Next(s, step, ttl, maximum);
    if Served200(s, step, ttl, maximum) {
      WalkShape(s, step, ttl, maximum);
      assert s.walk.phase != NotStarted ==> SnapshotOf(s, step.call) == s.walk.snapshot;
      if Distinct(u.walk.snapshot) {
        var items := Served(s.tokens, step.call, ttl, maximum).1.items;
        IdsAppend(s.walk.collected, items);
        PageIsDistinct(s, step, ttl, maximum);
        PageRepeatsIff(s, step, ttl, maximum);
        DistinctSum(Ids(s.walk.collected), Ids(items));
      }
    } else {
      WalkKept(s, step, ttl, maximum);
    }
  }

  lemma WalkKept(s: State, step: Step, ttl: int, maximum: nat)
    requires !Served200(s, step, ttl, maximum)
    ensures var w := Next(s, step, ttl, maximum).walk;
      w.snapshot == s.walk.snapshot && w.collected == s.walk.collected && (w.phase == s.walk.phase || w.phase == Broken)
  {
    hide Served;
  }

  lemma {:induction false} RunRepeatsIff(steps: seq<Step>, ttl: int, maximum: nat)
    ensures var w := Run(Initial, steps, ttl, maximum).walk;
      && Fresh(w)
      && (Distinct(w.snapshot) ==> (Distinct(Ids(w.collected)) <==> NeverOvertaken(steps, ttl, maximum)))
    decreases |steps|
  {
    hide Next, Ids, Distinct, Overtaken, Served200;
    if steps == [] {
      NothingIsDistinct();
    } else {
      var init := steps[..|steps| - 1];
      RunRepeatsIff(init, ttl, maximum);
      TracksAlways(init, ttl, maximum);
      hide Fresh, Tracks;
      StepRepeatsIff(Run(Initial, init, ttl, maximum), steps[|steps| - 1], ttl, maximum);
    }
  }

  lemma NothingIsDistinct()
    ensures Ids([]) == [] && Distinct<string>([])
  {
  }

  /** Whatever is inserted, deleted or put back between its pages, a walk collects no
      identity twice if and only if no page of it finds a record overtaken. */
  lemma NothingTwiceIff(steps: seq<Step>, ttl: int, maximum: nat)
    requires Distinct(Run(Initial, steps, ttl, maximum).walk.snapshot)
    ensures Distinct(Ids(Run(Initial, steps, ttl, maximum).walk.collected)) <==> NeverOvertaken(steps, ttl, maximum)
  {
    hide Run, Distinct, Ids;
    RunRepeatsIff(steps, ttl, maximum);
  }

  // ---- three requests that return a record twice ------------------------------------------------

  const D := Record("d", 4, "")
  const FOUR := ["a", "b", "c", "d"]

  /** Pages of size 1 of a, b, c, d: the first; the second after a is gone; the third with a back. */
  const FIRST_OF_FOUR := Step(true, Call([A, B, C, D], REQUEST, 1, "", false, "t1", 0, 0))
  const WITHOUT_A := Step(true, Call([B, C, D], REQUEST, 1, "t1", false, "t2", 0, 0))
  const A_IS_BACK := Step(true, Call([A, B, C, D], REQUEST, 1, "t2", false, "t3", 0, 0))

  /** The token that a page of the walk issues leads on. */
  lemma TokenLeadsOn(s: State, step: Step, ttl: int, maximum: nat, now: int)
    requires Tracks(s) && Served200(s, step, ttl, maximum) && 1 <= maximum && now < step.call.later + ttl
    ensures var u := Next(s, step, ttl, maximum);
      u.walk.phase == Following ==>
        u.walk.token == step.call.drawn && Resolve(u.tokens, step.call.drawn, step.call.request, now).1.Resolved?
  {
    hide Resolve, Issued, Sorted, Live, CutAt, Ids, IdSet, Fetch, Slice;
    var c := step.call;
    if c.token == "" {
      var ordered := Sorted(c.records, c.reverse);
      var next := |Slice(ordered, 0, c.size)|;
      IssuedTokenResolves(s.tokens, c.drawn, Cursor(c.request, next, Ids(ordered), c.later + ttl), c.later, maximum, c.request, now);
    } else {
      ResolveEffect(s.tokens, c.token, c.request, c.now);
      var (rest, resolution) := Resolve(s.tokens, c.token, c.request, c.now);
      var cursor := resolution.cursor;
      var ordered := Sorted(c.records, c.reverse);
      var next := cursor.offset + |Slice(Fetch(ordered, Live(cursor.snapshot, IdSet(ordered))), cursor.offset, c.size)|;
      IssuedTokenResolves(rest, c.drawn, Cursor(c.request, next, cursor.snapshot, c.later + ttl), c.later, maximum, c.request, now);
    }
  }

  lemma SortedOfFour()
    ensures Ids(Sorted([A, B, C, D], false)) == FOUR
  {
    SortedExample();
    assert [A, B, C, D][..3] == [A, B, C];
    assert Insert([A, B, C], D, false) == [A, B, C, D];
    hide Insert;
    assert Sorted([A, B, C, D], false) == [A, B, C, D];
  }

  lemma IdsOfFour()
    ensures IdSet([A, B, C, D]) == {"a", "b", "c", "d"} && IdSet([B, C, D]) == {"b", "c", "d"}
  {
    assert A in [A, B, C, D] && B in [A, B, C, D] && C in [A, B, C, D] && D in [A, B, C, D];
    assert B in [B, C, D] && C in [B, C, D] && D in [B, C, D];
  }

  lemma LiveOfFour(a: string, b: string, c: string, d: string)
    requires a !in {b, c, d}
    ensures Live([a, b, c, d], {a, b, c, d}) == [a, b, c, d]
    ensures Live([a, b, c, d], {b, c, d}) == [b, c, d]
  {
    hide Live;
    LiveOfAll([a, b, c, d], {a, b, c, d});
    LiveOfAll([b, c, d], {b, c, d});
    LiveOfNone(a, {b, c, d});
    LiveSplit([a], [b, c, d], {b, c, d});
    assert [a] + [b, c, d] == [a, b, c, d];
    assert [] + [b, c, d] == [b, c, d];
  }

  /** The walk over `snapshot` has collected `got` one by one and may go on. */
  ghost predicate Reached(s: State, token: string, got: seq<string>, snapshot: seq<string>) {
    && Tracks(s) && s.walk.phase == Following && s.walk.token == token && token != ""
    && Ids(s.walk.collected) == got && s.walk.offset == |got| && s.walk.snapshot == snapshot
    && Resolve(s.tokens, token, REQUEST, 0).1.Resolved?
  }

  lemma SmallPageIsServed(s: State, step: Step, ttl: int, maximum: nat)
    requires Mine(s, step) && 1 <= step.call.size <= MAX_PAGE_SIZE
    requires step.call.token == "" || Resolve(s.tokens, step.call.token, step.call.request, step.call.now).1.Resolved?
    ensures Served200(s, step, ttl, maximum)
  {
    hide Sorted, Live, Resolve, Issued, Slice, Ids, IdSet, Fetch;
  }

  /** A page of size 1: the next of what is live. */
  lemma PageOfOne(s: State, step: Step, ttl: int, maximum: nat, got: seq<string>, snapshot: seq<string>, live: seq<string>)
    requires 0 < ttl && 1 <= maximum && Mine(s, step) && Tracks(s) && step.call.size == 1 && step.call.later == 0 && step.call.now == 0
    requires step.call.request == REQUEST && step.call.drawn != ""
    requires step.call.token == "" || Resolve(s.tokens, step.call.token, REQUEST, 0).1.Resolved?
    requires Ids(s.walk.collected) == got && s.walk.offset == |got|
    requires SnapshotOf(s, step.call) == snapshot && Live(snapshot, IdSet(step.call.records)) == live && |got| + 1 < |live|
    ensures Reached(Next(s, step, ttl, maximum), step.call.drawn, got + [live[|got|]], snapshot)
  {
    hide Served, Live, CutAt, IdSet, Ids, Resolve, Next, Tracks, SnapshotOf;
    SmallPageIsServed(s, step, ttl, maximum);
    WalkGrows(s, step, ttl, maximum);
    TracksKept(s, step, ttl, maximum);
    TokenLeadsOn(s, step, ttl, maximum, 0);
    assert Slice(live, |got|, 1) == [live[|got|]];
  }

  lemma FirstOfFour(ttl: int, maximum: nat)
    requires 0 < ttl && 1 <= maximum
    ensures Reached(Next(Initial, FIRST_OF_FOUR, ttl, maximum), "t1", ["a"], FOUR)
  {
    hide Sorted, Live, IdSet, Ids, Resolve, Next;
    SortedOfFour();
    IdsOfFour();
    LiveOfFour("a", "b", "c", "d");
    assert Ids(Initial.walk.collected) == [];
    InitialTracks();
    hide Tracks, Reached;
    PageOfOne(Initial, FIRST_OF_FOUR, ttl, maximum, [], FOUR, FOUR);
    assert [] + ["a"] == ["a"];
  }

  lemma WithoutA(s: State, ttl: int, maximum: nat)
    requires 0 < ttl && 1 <= maximum && Reached(s, "t1", ["a"], FOUR) && "t2" !in s.used
    ensures Reached(Next(s, WITHOUT_A, ttl, maximum), "t2", ["a", "c"], FOUR)
  {
    hide Sorted, Live, IdSet, Ids, Resolve, Next, Tracks;
    IdsOfFour();
    LiveOfFour("a", "b", "c", "d");
    PageOfOne(s, WITHOUT_A, ttl, maximum, ["a"], FOUR, ["b", "c", "d"]);
    assert ["a"] + ["c"] == ["a", "c"];
  }

  lemma AIsBack(s: State, ttl: int, maximum: nat)
    requires 0 < ttl && 1 <= maximum && Reached(s, "t2", ["a", "c"], FOUR) && "t3" !in s.used
    ensures Reached(Next(s, A_IS_BACK, ttl, maximum), "t3", ["a", "c", "c"], FOUR)
  {
    hide Sorted, Live, IdSet, Ids, Resolve, Next, Tracks;
    IdsOfFour();
    LiveOfFour("a", "b", "c", "d");
    PageOfOne(s, A_IS_BACK, ttl, maximum, ["a", "c"], FOUR, FOUR);
    assert ["a", "c"] + ["c"] == ["a", "c", "c"];
  }

  lemma InitialTracks()
    ensures Tracks(Initial)
  {
  }

  lemma OneMoreDrawn(s: State, step: Step, ttl: int, maximum: nat)
    ensures Next(s, step, ttl, maximum).used == s.used + {step.call.drawn}
  {
    hide Served, Live, CutAt, Ids, IdSet, Sorted;
  }

  /** It happens: the three requests return a, c and c. */
  lemma RepeatExample(ttl: int, maximum: nat)
    requires 0 < ttl && 1 <= maximum
    ensures var w := Run(Initial, [FIRST_OF_FOUR, WITHOUT_A, A_IS_BACK], ttl, maximum).walk;
      Ids(w.collected) == ["a", "c", "c"] && w.snapshot == FOUR
  {
    hide Next, Tracks, Resolve, Ids;
    var steps := [FIRST_OF_FOUR, WITHOUT_A, A_IS_BACK];
    assert steps[..2] == [FIRST_OF_FOUR, WITHOUT_A] && steps[..2][..1] == [FIRST_OF_FOUR] && [FIRST_OF_FOUR][..0] == [];
    var s := Next(Initial, FIRST_OF_FOUR, ttl, maximum);
    var t := Next(s, WITHOUT_A, ttl, maximum);
    assert Run(Initial, [], ttl, maximum) == Initial;
    assert Run(Initial, [FIRST_OF_FOUR], ttl, maximum) == s;
    assert Run(Initial, [FIRST_OF_FOUR, WITHOUT_A], ttl, maximum) == t;
    FirstOfFour(ttl, maximum);
    OneMoreDrawn(Initial, FIRST_OF_FOUR, ttl, maximum);
    WithoutA(s, ttl, maximum);
    OneMoreDrawn(s, WITHOUT_A, ttl, maximum);
    AIsBack(t, ttl, maximum);
  }
}
