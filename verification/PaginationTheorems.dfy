/** Walks along page tokens, between other clients' requests and changes of the records. */
module PaginationTheorems {
  import opened OrderedDicts
  import opened Pagination

  datatype Phase = NotStarted | Following | Finished | Broken

  /** One client's walk: the token it holds and the records it has collected. The rest are
      history variables: the order fixed by the first request, the offset of the next page,
      the place `cut` in the snapshot up to which records were counted, the ids that were
      present at the last request, and the number of pages. */
  datatype Walk = Walk(phase: Phase, token: string, collected: seq<Record>, snapshot: seq<string>,
                       offset: nat, cut: nat, present: set<string>, pages: nat)

  /** `used` are the tokens ever drawn; one that was drawn is not drawn again. */
  datatype State = State(tokens: Tokens, used: set<string>, walk: Walk)

  /** A request of the walk, or of somebody else. */
  datatype Step = Step(mine: bool, call: Call)

  const Initial: State := State(Empty(), {""}, Walk(NotStarted, "", [], [], 0, 0, {}, 0))

  /** The length of the longest prefix that holds n live ids. */
  function CutAt(snapshot: seq<string>, present: set<string>, n: nat): (cut: nat)
    requires n <= |Live(snapshot, present)|
    ensures cut <= |snapshot| && |Live(snapshot[..cut], present)| == n
    ensures Live(snapshot[..cut], present) == Live(snapshot, present)[..n]
  {
    if n == |Live(snapshot, present)| then
      assert snapshot[..|snapshot|] == snapshot;
      |snapshot|
    else
      var init := snapshot[..|snapshot| - 1];
      assert forall cut | 0 <= cut <= |init| :: init[..cut] == snapshot[..cut];
      CutAt(init, present, n)
  }

  function Next(s: State, step: Step, ttl: int, maximum: nat): State {
    var c := step.call;
    if c.drawn in s.used then s
    else
      var (tokens, r) := Served(s.tokens, c, ttl, maximum);
      var t := State(tokens, s.used + {c.drawn}, s.walk);
      if !step.mine || s.walk.phase == Finished || s.walk.phase == Broken || c.token != s.walk.token then t
      else if !r.Page? then t.(walk := s.walk.(phase := Broken))
      else
        var snapshot := if s.walk.phase == NotStarted then Ids(Sorted(c.records, c.reverse)) else s.walk.snapshot;
        var offset := s.walk.offset + |r.items|;
        var live := |Live(snapshot, IdSet(c.records))|;
        t.(walk := Walk(if r.token.Some? then Following else Finished, if r.token.Some? then r.token.value else "",
                        s.walk.collected + r.items, snapshot, offset,
                        if offset <= live then CutAt(snapshot, IdSet(c.records), offset) else |snapshot|,
                        IdSet(c.records), s.walk.pages + 1))
  }

  function Run(s: State, steps: seq<Step>, ttl: int, maximum: nat): State {
    if steps == [] then s else Next(Run(s, steps[..|steps| - 1], ttl, maximum), steps[|steps| - 1], ttl, maximum)
  }

  // ---- tokens keep their cursors ----------------------------------------------------------

  /** The token of a walk, while it is remembered, leads to where the walk is. */
  ghost predicate Tracks(s: State) {
    && s.tokens.Valid() && "" in s.used
    && (forall t | t in s.tokens.vals :: t in s.used)
    && (s.walk.phase == NotStarted ==> s.walk.token == "" && s.walk.offset == 0 && s.walk.collected == [] && s.walk.pages == 0)
    && (s.walk.phase == Following ==>
          && s.walk.token in s.used && s.walk.token != ""
          && (s.walk.token in s.tokens.vals ==>
                s.tokens.vals[s.walk.token].offset == s.walk.offset && s.tokens.vals[s.walk.token].snapshot == s.walk.snapshot))
  }

  lemma IssuedEffect(tokens: Tokens, token: string, cursor: Cursor, now: int, maximum: nat)
    requires tokens.Valid()
    ensures var e := Issued(tokens, token, cursor, now, maximum);
      && e.Valid() && |e.keys| <= maximum
      && (forall t | t in e.vals && t != token :: t in tokens.vals && e.vals[t] == tokens.vals[t])
      && (token in e.vals ==> e.vals[token] == cursor)
  {
    hide PrunedOf, Without, Distinct;
    PrunedOfExact(tokens, ExpiredAt(now));
    PutValid(PrunedOf(tokens, ExpiredAt(now)), token, cursor);
    ShortenedKeepsNewest(PrunedOf(tokens, ExpiredAt(now)).Put(token, cursor), maximum);
    hide Shortened;
  }

  lemma ResolveEffect(tokens: Tokens, token: string, request: Request, now: int)
    requires tokens.Valid()
    ensures var (e, r) := Resolve(tokens, token, request, now);
      && Part(e, tokens)
      && (r.Resolved? <==> token in tokens.vals && now < tokens.vals[token].expiresAt && tokens.vals[token].request == request)
      && (r.Resolved? ==> r.cursor == tokens.vals[token])
      && (r.Unknown? <==> token !in tokens.vals || tokens.vals[token].expiresAt <= now)
  {
    hide PrunedOf, Without;
    PrunedOfExact(tokens, ExpiredAt(now));
    var pruned := PrunedOf(tokens, ExpiredAt(now));
    if token in pruned.vals { MoveToEndValid(pruned, token); }
  }

  /** A token just issued is good for its own request, until it expires, and for no other. */
  lemma IssuedTokenResolves(tokens: Tokens, token: string, cursor: Cursor, now: int, maximum: nat, request: Request, later: int)
    requires tokens.Valid() && token !in tokens.vals && 1 <= maximum && later < cursor.expiresAt
    ensures Resolve(Issued(tokens, token, cursor, now, maximum), token, request, later).1
            == if request == cursor.request then Resolved(cursor) else Mismatch
  {
    hide PrunedOf, Shortened, Resolve, Without, Distinct;
    PrunedOfExact(tokens, ExpiredAt(now));
    NewestSurvivesShortening(PrunedOf(tokens, ExpiredAt(now)), token, cursor, maximum);
    ResolveEffect(Issued(tokens, token, cursor, now, maximum), token, request, later);
  }

  /** A token that was just used is not the next to be pushed out: what its own request issues
      leaves it good until it expires. */
  lemma UsedTokenSurvives(tokens: Tokens, token: string, request: Request, now: int, drawn: string, cursor: Cursor, later: int, maximum: nat)
    requires tokens.Valid() && 2 <= maximum && drawn != token && token in tokens.vals
    requires Resolve(tokens, token, request, now).1.Resolved? && later < tokens.vals[token].expiresAt
    ensures var e := Issued(Resolve(tokens, token, request, now).0, drawn, cursor, later, maximum);
      token in e.vals && e.vals[token] == tokens.vals[token]
  {
    hide PrunedOf, Shortened, Without, Distinct;
    ResolveEffect(tokens, token, request, now);
    PrunedOfExact(tokens, ExpiredAt(now));
    UsedSurvives(PrunedOf(tokens, ExpiredAt(now)), token, ExpiredAt(later), drawn, cursor, maximum);
  }

  /** When a request is served: exactly with a good size, and without a token or with one that
      is known, unexpired and of this very request; another's token is refused as such. */
  lemma ServedIff(tokens: Tokens, c: Call, ttl: int, maximum: nat)
    requires tokens.Valid()
    ensures var r := Served(tokens, c, ttl, maximum).1; var t := c.token;
      var known := t in tokens.vals && c.now < tokens.vals[t].expiresAt;
      && (r == BadSize <==> c.size < 1 || c.size > MAX_PAGE_SIZE)
      && (r == UnknownToken <==> 1 <= c.size <= MAX_PAGE_SIZE && t != "" && !known)
      && (r == OtherRequest <==> 1 <= c.size <= MAX_PAGE_SIZE && t != "" && known && tokens.vals[t].request != c.request)
      && (r.Page? <==> 1 <= c.size <= MAX_PAGE_SIZE && (t == "" || (known && tokens.vals[t].request == c.request)))
  {
    hide Issued, Resolve, Sorted, IdSet, Live, Ids, Fetch, Slice;
    if 1 <= c.size <= MAX_PAGE_SIZE && c.token != "" { ResolveEffect(tokens, c.token, c.request, c.now); }
  }

  /** What a served page is a slice of. */
  ghost predicate PageFrom(c: Call, ordered: seq<Record>, offset: nat, items: seq<Record>, token: Option<string>) {
    && 1 <= c.size && items == Slice(ordered, offset, c.size)
    && token == if offset + |items| < |ordered| then Some(c.drawn) else None
  }

  lemma ServedEffect(tokens: Tokens, c: Call, ttl: int, maximum: nat)
    requires tokens.Valid() && c.drawn !in tokens.vals
    ensures var (e, r) := Served(tokens, c, ttl, maximum);
      && e.Valid()
      && (forall t | t in e.vals && t != c.drawn :: t in tokens.vals && e.vals[t] == tokens.vals[t])
      && (r.Page? && c.token == "" ==>
            PageFrom(c, Sorted(c.records, c.reverse), 0, r.items, r.token)
            && (c.drawn in e.vals ==> e.vals[c.drawn].offset == |r.items| && e.vals[c.drawn].snapshot == Ids(Sorted(c.records, c.reverse))))
      && (r.Page? && c.token != "" ==>
            c.token in tokens.vals
            && var cursor := tokens.vals[c.token]; var sorted := Sorted(c.records, c.reverse);
               PageFrom(c, Fetch(sorted, Live(cursor.snapshot, IdSet(sorted))), cursor.offset, r.items, r.token)
               && (c.drawn in e.vals ==> e.vals[c.drawn].offset == cursor.offset + |r.items| && e.vals[c.drawn].snapshot == cursor.snapshot))
  {
    hide Issued, Resolve, Sorted, IdSet, Live, Ids, Fetch, Slice;
    if 1 <= c.size <= MAX_PAGE_SIZE {
      var sorted := Sorted(c.records, c.reverse);
      if c.token == "" {
        var next := |Slice(sorted, 0, c.size)|;
        IssuedEffect(tokens, c.drawn, Cursor(c.request, next, Ids(sorted), c.later + ttl), c.later, maximum);
      } else {
        ResolveEffect(tokens, c.token, c.request, c.now);
        var (rest, resolution) := Resolve(tokens, c.token, c.request, c.now);
        if resolution.Resolved? {
          var cursor := resolution.cursor;
          var ordered := Fetch(sorted, Live(cursor.snapshot, IdSet(sorted)));
          var next := cursor.offset + |Slice(ordered, cursor.offset, c.size)|;
          IssuedEffect(rest, c.drawn, Cursor(c.request, next, cursor.snapshot, c.later + ttl), c.later, maximum);
        }
      }
    }
  }

  lemma TracksKept(s: State, step: Step, ttl: int, maximum: nat)
    requires Tracks(s)
    ensures Tracks(Next(s, step, ttl, maximum))
  {
    hide Served, Sorted, Live, CutAt, Ids, IdSet, Fetch, Slice;
    if step.call.drawn !in s.used {
      ServedEffect(s.tokens, step.call, ttl, maximum);
    }
  }

  // ---- what is live -----------------------------------------------------------------------

  lemma {:induction false} LiveSplit(a: seq<string>, b: seq<string>, present: set<string>)
    ensures Live(a + b, present) == Live(a, present) + Live(b, present)
    decreases |b|
  {
    if b == [] {
      assert a + b == a;
    } else {
      var init, last := b[..|b| - 1], b[|b| - 1];
      LiveSplit(a, init, present);
      assert (a + b)[..|a + b| - 1] == a + init && (a + b)[|a + b| - 1] == last;
      var end := if last in present then [last] else [];
      assert Live(b, present) == Live(init, present) + end;
      assert (Live(a, present) + Live(init, present)) + end == Live(a, present) + (Live(init, present) + end);
    }
  }

  lemma {:induction false} LiveOfAll(s: seq<string>, present: set<string>)
    requires forall id | id in s :: id in present
    ensures Live(s, present) == s
    decreases |s|
  {
    if s != [] {
      var init, last := s[..|s| - 1], s[|s| - 1];
      LiveOfAll(init, present);
      assert s == init + [last] && last in s;
    }
  }

  lemma {:induction false} LiveShrinks(s: seq<string>, now: set<string>, before: set<string>)
    requires forall id | id in s && id in now :: id in before
    ensures |Live(s, now)| <= |Live(s, before)|
    decreases |s|
  {
    if s != [] { LiveShrinks(s[..|s| - 1], now, before); }
  }

  lemma SortedSameIds(records: seq<Record>, reverse: bool)
    ensures IdSet(Sorted(records, reverse)) == IdSet(records)
  {
    var r := Sorted(records, reverse);
    assert forall x :: x in r <==> x in multiset(r);
    assert forall x :: x in records <==> x in multiset(records);
    hide Sorted;
  }

  // ---- one page of the walk -----------------------------------------------------------------

  ghost predicate Mine(s: State, step: Step) {
    && step.mine && step.call.drawn !in s.used && step.call.token == s.walk.token
    && (s.walk.phase == NotStarted || s.walk.phase == Following)
  }

  ghost predicate Served200(s: State, step: Step, ttl: int, maximum: nat) {
    Mine(s, step) && Served(s.tokens, step.call, ttl, maximum).1.Page?
  }

  /** The snapshot after a page of the walk. */
  function SnapshotOf(s: State, c: Call): seq<string> {
    if s.walk.phase == NotStarted then Ids(Sorted(c.records, c.reverse)) else s.walk.snapshot
  }

  /** A page is the slice at the walk's offset of what is live now of the snapshot. */
  lemma PageIsLiveSlice(s: State, step: Step, ttl: int, maximum: nat)
    requires Tracks(s) && Served200(s, step, ttl, maximum)
    ensures var c := step.call; var r := Served(s.tokens, c, ttl, maximum).1;
      var live := Live(SnapshotOf(s, c), IdSet(c.records));
      && 1 <= c.size && Ids(r.items) == Slice(live, s.walk.offset, c.size)
      && (forall x | x in r.items :: x in c.records)
      && (r.token.Some? <==> s.walk.offset + |r.items| < |live|)
  {
    hide Served, Sorted, Live;
    var c := step.call;
    ServedEffect(s.tokens, c, ttl, maximum);
    SortedSameIds(c.records, c.reverse);
    var sorted := Sorted(c.records, c.reverse);
    if s.walk.phase == NotStarted {
      LiveOfAll(Ids(sorted), IdSet(c.records));
    }
    assert forall x | x in sorted :: x in multiset(sorted) && x in c.records;
  }

  lemma WalkGrows(s: State, step: Step, ttl: int, maximum: nat)
    requires Tracks(s) && Served200(s, step, ttl, maximum)
    ensures var c := step.call; var w := Next(s, step, ttl, maximum).walk;
      var live := Live(w.snapshot, IdSet(c.records)); var ids := Slice(live, s.walk.offset, c.size);
      && 1 <= c.size && w.snapshot == SnapshotOf(s, c) && w.present == IdSet(c.records)
      && Ids(w.collected) == Ids(s.walk.collected) + ids && w.offset == s.walk.offset + |ids|
      && (w.phase == if w.offset < |live| then Following else Finished)
      && (w.offset <= |live| ==> w.cut == CutAt(w.snapshot, w.present, w.offset))
      && w.pages == s.walk.pages + 1
  {
    hide Next, Served, Sorted, Live, CutAt, Slice, IdSet, Ids, Tracks, SnapshotOf;
    PageIsLiveSlice(s, step, ttl, maximum);
    WalkShape(s, step, ttl, maximum);
    IdsAppend(s.walk.collected, Served(s.tokens, step.call, ttl, maximum).1.items);
  }

  lemma WalkShape(s: State, step: Step, ttl: int, maximum: nat)
    requires Served200(s, step, ttl, maximum)
    ensures var c := step.call; var r := Served(s.tokens, c, ttl, maximum).1; var w := Next(s, step, ttl, maximum).walk;
      && w.snapshot == SnapshotOf(s, c) && w.present == IdSet(c.records) && w.collected == s.walk.collected + r.items
      && w.offset == s.walk.offset + |r.items| && w.pages == s.walk.pages + 1
      && (w.phase == if r.token.Some? then Following else Finished)
      && (w.offset <= |Live(w.snapshot, w.present)| ==> w.cut == CutAt(w.snapshot, w.present, w.offset))
  {
    hide Served, Sorted, Live, CutAt, IdSet, Ids;
  }

  lemma IdsAppend(a: seq<Record>, b: seq<Record>)
    ensures Ids(a + b) == Ids(a) + Ids(b) && |Ids(b)| == |b|
  {
  }

  /** A step that is no page of the walk leaves it alone or breaks it. */
  lemma WalkStands(s: State, step: Step, ttl: int, maximum: nat)
    requires !Served200(s, step, ttl, maximum)
    ensures var w := Next(s, step, ttl, maximum).walk; w == s.walk || w.phase == Broken
  {
    hide Served;
  }

  // ---- records inserted and modified --------------------------------------------------------

  /** The walk has exactly the first `offset` records of the snapshot, each once and in order. */
  ghost predicate Exact(w: Walk) {
    && (w.phase == NotStarted ==> w.pages == 0)
    && (w.phase == Following ==> w.offset < |w.snapshot| && Ids(w.collected) == w.snapshot[..w.offset] && 1 <= w.pages <= w.offset)
    && (w.phase == Finished ==> Ids(w.collected) == w.snapshot && w.pages <= if |w.snapshot| == 0 then 1 else |w.snapshot|)
  }

  /** No record of the snapshot is missing at a request of the walk. */
  ghost predicate Undeleted(s: State, step: Step) {
    step.mine && s.walk.phase == Following ==> forall id | id in s.walk.snapshot :: id in IdSet(step.call.records)
  }

  ghost predicate AlwaysUndeleted(s: State, steps: seq<Step>, ttl: int, maximum: nat) {
    steps == [] || (AlwaysUndeleted(s, steps[..|steps| - 1], ttl, maximum)
                    && Undeleted(Run(s, steps[..|steps| - 1], ttl, maximum), steps[|steps| - 1]))
  }

  /** At a request that finds nothing missing all of the snapshot is live. */
  lemma AllIsLive(s: State, step: Step)
    requires Undeleted(s, step) && step.mine && (s.walk.phase == NotStarted || s.walk.phase == Following)
    ensures var snapshot := SnapshotOf(s, step.call); Live(snapshot, IdSet(step.call.records)) == snapshot
  {
    hide Sorted, Live, IdSet;
    var c := step.call;
    if s.walk.phase == NotStarted {
      SortedSameIds(c.records, c.reverse);
      SortedIdsArePresent(Sorted(c.records, c.reverse));
    }
    LiveOfAll(SnapshotOf(s, c), IdSet(c.records));
  }

  lemma ExactKept(s: State, step: Step, ttl: int, maximum: nat)
    requires Tracks(s) && Exact(s.walk) && Undeleted(s, step)
    ensures Exact(Next(s, step, ttl, maximum).walk)
  {
    hide Next, Served, Sorted, Live, CutAt, IdSet, Undeleted;
    if Served200(s, step, ttl, maximum) {
      WalkGrows(s, step, ttl, maximum);
      AllIsLive(s, step);
    } else {
      WalkStands(s, step, ttl, maximum);
    }
  }

  lemma SortedIdsArePresent(records: seq<Record>)
    ensures forall id | id in Ids(records) :: id in IdSet(records)
  {
    forall id | id in Ids(records)
      ensures id in IdSet(records)
    {
      var i :| 0 <= i < |records| && Ids(records)[i] == id;
      assert records[i] in records;
    }
  }

  lemma {:induction false} TracksAlways(steps: seq<Step>, ttl: int, maximum: nat)
    ensures Tracks(Run(Initial, steps, ttl, maximum))
    decreases |steps|
  {
    hide Next;
    if steps != [] {
      TracksAlways(steps[..|steps| - 1], ttl, maximum);
      TracksKept(Run(Initial, steps[..|steps| - 1], ttl, maximum), steps[|steps| - 1], ttl, maximum);
    }
  }

  /** While records are only inserted or modified, following the tokens with any page sizes,
      between any other requests, collects the snapshot of the first request: each identity
      once and in order, never a later insertion; and it ends after at most as many pages
      as there are records. */
  lemma {:induction false} TraversalIsExact(steps: seq<Step>, ttl: int, maximum: nat)
    requires AlwaysUndeleted(Initial, steps, ttl, maximum)
    ensures Exact(Run(Initial, steps, ttl, maximum).walk)
    decreases |steps|
  {
    hide Next, Undeleted;
    if steps != [] {
      var init := steps[..|steps| - 1];
      TraversalIsExact(init, ttl, maximum);
      TracksAlways(init, ttl, maximum);
      hide Exact, Tracks;
      ExactKept(Run(Initial, init, ttl, maximum), steps[|steps| - 1], ttl, maximum);
    }
  }

  // ---- records deleted ----------------------------------------------------------------------

  /** a is b with some elements left out. */
  ghost predicate Subsequence<T>(a: seq<T>, b: seq<T>)
    decreases |b|
  {
    || a == []
    || (b != [] && a[|a| - 1] == b[|b| - 1] && Subsequence(a[..|a| - 1], b[..|b| - 1]))
    || (b != [] && Subsequence(a, b[..|b| - 1]))
  }

  lemma {:induction false} SubsequenceAppend<T>(a: seq<T>, b: seq<T>, c: seq<T>, d: seq<T>)
    requires Subsequence(a, b) && Subsequence(c, d)
    ensures Subsequence(a + c, b + d)
    decreases |d|
  {
    if d == [] {
      assert a + c == a && b + d == b;
    } else {
      var e := d[..|d| - 1];
      assert (b + d)[..|b + d| - 1] == b + e;
      if c != [] && c[|c| - 1] == d[|d| - 1] && Subsequence(c[..|c| - 1], e) {
        SubsequenceAppend(a, b, c[..|c| - 1], e);
        assert (a + c)[..|a + c| - 1] == a + c[..|c| - 1];
      } else {
        SubsequenceAppend(a, b, c, e);
      }
    }
  }

  lemma {:induction false} SuffixOfSubsequence<T>(a: seq<T>, k: nat, b: seq<T>)
    requires k <= |a| && Subsequence(a, b)
    ensures Subsequence(a[k..], b)
    decreases |b|
  {
    if k < |a| {
      var c := b[..|b| - 1];
      if a[|a| - 1] == b[|b| - 1] && Subsequence(a[..|a| - 1], c) {
        SuffixOfSubsequence(a[..|a| - 1], k, c);
        assert a[k..][..|a| - k - 1] == a[..|a| - 1][k..];
      } else {
        SuffixOfSubsequence(a, k, c);
      }
    }
  }

  lemma SubsequenceOfOne<T>(x: T)
    ensures Subsequence([], [x]) && Subsequence([x], [x])
  {
    assert Subsequence([x][..0], [x][..0]);
  }

  lemma {:induction false} LiveIsSubsequence(s: seq<string>, present: set<string>)
    ensures Subsequence(Live(s, present), s)
    decreases |s|
  {
    hide Subsequence;
    if s == [] {
      EmptyIsSubsequence(s);
    } else {
      var init, last := s[..|s| - 1], s[|s| - 1];
      LiveIsSubsequence(init, present);
      SubsequenceOfOne(last);
      SubsequenceAppend(Live(init, present), init, if last in present then [last] else [], [last]);
      assert s == init + [last];
    }
  }

  lemma EmptyIsSubsequence<T>(b: seq<T>)
    ensures Subsequence([], b)
  {
  }

  lemma {:induction false} SubsequenceOfDistinct<T>(a: seq<T>, b: seq<T>)
    requires Subsequence(a, b) && Distinct(b)
    ensures Distinct(a) && forall x | x in a :: x in b
    decreases |b|
  {
    if a != [] {
      var c := b[..|b| - 1];
      if a[|a| - 1] == b[|b| - 1] && Subsequence(a[..|a| - 1], c) {
        var init := a[..|a| - 1];
        SubsequenceOfDistinct(init, c);
        assert forall i | 0 <= i < |c| :: c[i] == b[i];
        assert forall i | 0 <= i < |init| :: a[i] == init[i] && init[i] in init;
        assert forall x | x in c :: x != b[|b| - 1];
      } else {
        SubsequenceOfDistinct(a, c);
      }
    }
  }

  /** The walk has records from the counted part of the snapshot, in its order; that part
      held `offset` live ids at the last request. */
  ghost predicate InSequence(w: Walk) {
    && (w.phase == NotStarted ==> w.collected == [] && w.offset == 0)
    && (w.phase == Following ==>
          && w.cut <= |w.snapshot| && Subsequence(Ids(w.collected), w.snapshot[..w.cut])
          && |Live(w.snapshot[..w.cut], w.present)| == w.offset < |w.snapshot| && w.pages <= w.offset)
    && (w.phase == Finished ==> Subsequence(Ids(w.collected), w.snapshot))
  }

  /** An id of the snapshot that was gone does not come back. */
  ghost predicate NoReturn(s: State, step: Step) {
    step.mine && s.walk.phase == Following ==>
      forall id | id in s.walk.snapshot && id in IdSet(step.call.records) :: id in s.walk.present
  }

  ghost predicate NeverReturn(s: State, steps: seq<Step>, ttl: int, maximum: nat) {
    steps == [] || (NeverReturn(s, steps[..|steps| - 1], ttl, maximum)
                    && NoReturn(Run(s, steps[..|steps| - 1], ttl, maximum), steps[|steps| - 1]))
  }

  /** The next page consists of records past the cut: of those live there it leaves out as
      many as the counted part lost since. */
  lemma PagePastCut(snapshot: seq<string>, cut: nat, before: set<string>, now: set<string>, size: nat)
    requires cut <= |snapshot| && 1 <= size
    requires forall id | id in snapshot && id in now :: id in before
    ensures var offset := |Live(snapshot[..cut], before)|; var lost := offset - |Live(snapshot[..cut], now)|;
      && 0 <= lost
      && Slice(Live(snapshot, now), offset, size) == Slice(Live(snapshot[cut..], now), lost, size)
  {
    assert snapshot == snapshot[..cut] + snapshot[cut..];
    LiveSplit(snapshot[..cut], snapshot[cut..], now);
    LiveShrinks(snapshot[..cut], now, before);
    hide Live;
  }

  /** A page lies between the old cut and the new one. */
  lemma PageBetweenCuts(snapshot: seq<string>, cut: nat, before: set<string>, now: set<string>, size: nat)
    requires cut <= |snapshot| && 1 <= size
    requires forall id | id in snapshot && id in now :: id in before
    requires |Live(snapshot[..cut], before)| < |Live(snapshot, now)|
    ensures var live := Live(snapshot, now); var offset := |Live(snapshot[..cut], before)|; var ids := Slice(live, offset, size);
      var next := CutAt(snapshot, now, offset + |ids|);
      && cut <= next <= |snapshot| && Subsequence(ids, snapshot[cut..next])
  {
    hide CutAt, Live, Subsequence, Slice;
    var live, offset := Live(snapshot, now), |Live(snapshot[..cut], before)|;
    assert forall id | id in snapshot[..cut] :: id in snapshot;
    LiveShrinks(snapshot[..cut], now, before);
    var ids := Slice(live, offset, size);
    SliceIsPart(live, offset, size);
    SliceBetweenCuts(snapshot, cut, now, offset, |ids|);
  }

  lemma SliceIsPart<T>(s: seq<T>, offset: nat, size: nat)
    requires offset < |s| && 1 <= size
    ensures var r := Slice(s, offset, size); 1 <= |r| && offset + |r| <= |s| && r == s[offset..offset + |r|]
  {
  }

  lemma SliceBetweenCuts(snapshot: seq<string>, cut: nat, now: set<string>, offset: nat, n: nat)
    requires cut <= |snapshot| && |Live(snapshot[..cut], now)| <= offset && 1 <= n && offset + n <= |Live(snapshot, now)|
    ensures var next := CutAt(snapshot, now, offset + n);
      cut <= next <= |snapshot| && Subsequence(Live(snapshot, now)[offset..offset + n], snapshot[cut..next])
  {
    hide CutAt, Live, Subsequence;
    var next := CutAt(snapshot, now, offset + n);
    if next <= cut { LiveGrows(snapshot, next, cut, now); }
    var middle := Live(snapshot[cut..next], now);
    assert snapshot[..next] == snapshot[..cut] + snapshot[cut..next];
    LiveSplit(snapshot[..cut], snapshot[cut..next], now);
    SuffixOfSum(Live(snapshot[..cut], now), middle, Live(snapshot, now), offset, n);
    LiveIsSubsequence(snapshot[cut..next], now);
    SuffixOfSubsequence(middle, offset - |Live(snapshot[..cut], now)|, snapshot[cut..next]);
  }

  lemma LiveGrows(s: seq<string>, i: nat, j: nat, present: set<string>)
    requires i <= j <= |s|
    ensures |Live(s[..i], present)| <= |Live(s[..j], present)|
  {
    LiveSplit(s[..i], s[i..j], present);
    assert s[..j] == s[..i] + s[i..j];
  }

  lemma SuffixOfSum<T>(a: seq<T>, b: seq<T>, live: seq<T>, offset: nat, n: nat)
    requires |a| <= offset && offset + n <= |live| && live[..offset + n] == a + b
    ensures live[offset..offset + n] == b[offset - |a|..]
  {
    assert live[offset..offset + n] == (a + b)[offset..];
  }

  lemma SubsequenceOfPrefix<T>(a: seq<T>, b: seq<T>, k: nat)
    requires k <= |b| && Subsequence(a, b[..k])
    ensures Subsequence(a, b)
  {
    EmptyIsSubsequence(b[k..]);
    SubsequenceAppend(a, b[..k], [], b[k..]);
    assert a + [] == a && b[..k] + b[k..] == b;
  }

  /** One page later: what was collected stays in sequence, and the new cut counts it. */
  lemma PageKeepsSequence(ids: seq<string>, snapshot: seq<string>, cut: nat, before: set<string>, now: set<string>, size: nat)
    requires cut <= |snapshot| && 1 <= size && Subsequence(ids, snapshot[..cut])
    requires forall id | id in snapshot && id in now :: id in before
    ensures var live := Live(snapshot, now); var offset := |Live(snapshot[..cut], before)|;
      var page := Slice(live, offset, size); var more := ids + page;
      && Subsequence(more, snapshot)
      && (offset + |page| < |live| ==>
            var next := CutAt(snapshot, now, offset + |page|);
            && 1 <= |page| && next <= |snapshot| && Subsequence(more, snapshot[..next])
            && |Live(snapshot[..next], now)| == offset + |page|)
  {
    hide CutAt, Live, Subsequence, Slice;
    var live, offset := Live(snapshot, now), |Live(snapshot[..cut], before)|;
    var page := Slice(live, offset, size);
    SubsequenceOfPrefix(ids, snapshot, cut);
    if offset < |live| {
      SliceIsPart(live, offset, size);
      PageBetweenCuts(snapshot, cut, before, now, size);
      var next := CutAt(snapshot, now, offset + |page|);
      SubsequenceAppend(ids, snapshot[..cut], page, snapshot[cut..next]);
      assert snapshot[..cut] + snapshot[cut..next] == snapshot[..next];
      SubsequenceOfPrefix(ids + page, snapshot, next);
    } else {
      assert ids + page == ids;
    }
  }

  lemma PageInSequence(s: State, step: Step, ttl: int, maximum: nat, cut: nat, before: set<string>)
    requires Tracks(s) && Served200(s, step, ttl, maximum)
    requires var snapshot := SnapshotOf(s, step.call);
      && cut <= |snapshot| && Subsequence(Ids(s.walk.collected), snapshot[..cut])
      && |Live(snapshot[..cut], before)| == s.walk.offset
      && forall id | id in snapshot && id in IdSet(step.call.records) :: id in before
    requires s.walk.pages <= s.walk.offset
    ensures InSequence(Next(s, step, ttl, maximum).walk)
  {
    hide Next, Served, Sorted, Live, CutAt, IdSet, Ids, Subsequence, Slice, SnapshotOf, Tracks, Served200;
    WalkGrows(s, step, ttl, maximum);
    PageKeepsSequence(Ids(s.walk.collected), SnapshotOf(s, step.call), cut, before, IdSet(step.call.records), step.call.size);
  }

  lemma InSequenceKept(s: State, step: Step, ttl: int, maximum: nat)
    requires Tracks(s) && InSequence(s.walk) && NoReturn(s, step)
    ensures InSequence(Next(s, step, ttl, maximum).walk)
  {
    hide Next, Served, Live, Sorted, IdSet, Subsequence;
    if Served200(s, step, ttl, maximum) {
      if s.walk.phase == NotStarted {
        var all := IdSet(step.call.records);
        NothingLive(all);
        EmptyIsSubsequence(SnapshotOf(s, step.call)[..0]);
        assert Ids(s.walk.collected) == [];
        assert SnapshotOf(s, step.call)[..0] == [];
        PageInSequence(s, step, ttl, maximum, 0, all);
      } else {
        PageInSequence(s, step, ttl, maximum, s.walk.cut, s.walk.present);
      }
    } else {
      WalkStands(s, step, ttl, maximum);
    }
  }

  lemma NothingLive(present: set<string>)
    ensures Live([], present) == []
  {
  }

  lemma {:induction false} TraversalStaysInSequence(steps: seq<Step>, ttl: int, maximum: nat)
    requires NeverReturn(Initial, steps, ttl, maximum)
    ensures InSequence(Run(Initial, steps, ttl, maximum).walk)
    decreases |steps|
  {
    hide Next, NoReturn;
    if steps != [] {
      var init := steps[..|steps| - 1];
      TraversalStaysInSequence(init, ttl, maximum);
      TracksAlways(init, ttl, maximum);
      hide InSequence, Tracks;
      InSequenceKept(Run(Initial, init, ttl, maximum), steps[|steps| - 1], ttl, maximum);
    }
  }

  /** When records are deleted between pages, and none that was gone comes back, what is
      collected is a subsequence of the snapshot, so no identity is returned twice; and the
      walk still ends, since each page moves the offset on. */
  lemma DeletionsNeverRepeat(steps: seq<Step>, ttl: int, maximum: nat)
    requires NeverReturn(Initial, steps, ttl, maximum) && Distinct(Run(Initial, steps, ttl, maximum).walk.snapshot)
    ensures var w := Run(Initial, steps, ttl, maximum).walk;
      && (w.phase == Following || w.phase == Finished ==> Subsequence(Ids(w.collected), w.snapshot) && Distinct(Ids(w.collected)))
      && (w.phase == Following ==> w.pages <= w.offset < |w.snapshot|)
  {
    TraversalStaysInSequence(steps, ttl, maximum);
    hide Run, NeverReturn, Subsequence, Distinct, Live;
    var w := Run(Initial, steps, ttl, maximum).walk;
    if w.phase == Following { SubsequenceOfPrefix(Ids(w.collected), w.snapshot, w.cut); }
    if w.phase == Following || w.phase == Finished { SubsequenceOfDistinct(Ids(w.collected), w.snapshot); }
  }

  /** When a page leaves records out. The next page starts with the first live record not
      counted so far exactly if no counted one was deleted since the last page, or none is
      left; otherwise it leaves out as many as were deleted. */
  lemma SkipsWhatWasDeleted(s: State, step: Step, ttl: int, maximum: nat)
    requires Tracks(s) && InSequence(s.walk) && s.walk.phase == Following && NoReturn(s, step) && Served200(s, step, ttl, maximum)
    requires Distinct(s.walk.snapshot)
    ensures var w := s.walk; var now := IdSet(step.call.records); var page := Ids(Served(s.tokens, step.call, ttl, maximum).1.items);
      var rest := Live(w.snapshot[w.cut..], now);
      var deleted := |Live(w.snapshot[..w.cut], w.present)| - |Live(w.snapshot[..w.cut], now)|;
      && 0 <= deleted && page == Slice(rest, deleted, step.call.size)
      && (page == Slice(rest, 0, step.call.size) <==> deleted == 0 || rest == [])
  {
    hide Next, Served, Sorted, IdSet, Ids, Subsequence;
    PageIsLiveSlice(s, step, ttl, maximum);
    var w, now := s.walk, IdSet(step.call.records);
    PagePastCut(w.snapshot, w.cut, w.present, now, step.call.size);
    var rest := Live(w.snapshot[w.cut..], now);
    LiveIsSubsequence(w.snapshot[w.cut..], now);
    SubsequenceOfDistinct(rest, w.snapshot[w.cut..]);
    hide Live, Tracks;
    var deleted := |Live(w.snapshot[..w.cut], w.present)| - |Live(w.snapshot[..w.cut], now)|;
    if deleted > 0 && rest != [] {
      assert Slice(rest, 0, step.call.size)[0] == rest[0];
      if deleted < |rest| { assert Slice(rest, deleted, step.call.size)[0] == rest[deleted] != rest[0]; }
    }
  }

  // ---- two requests that leave a record out ---------------------------------------------------

  const A := Record("a", 1, "")
  const B := Record("b", 2, "")
  const C := Record("c", 3, "")
  const REQUEST := Request("/jobs", "caller", "", "key")

  /** The first page of size 1 of a, b, c; then a is gone, and the next page is asked for. */
  const FIRST := Step(true, Call([A, B, C], REQUEST, 1, "", false, "t1", 0, 0))
  const SECOND := Step(true, Call([B, C], REQUEST, 1, "t1", false, "t2", 0, 0))

  lemma SortedExample()
    ensures Sorted([A, B, C], false) == [A, B, C]
  {
    assert [A, B, C][..2] == [A, B] && [A, B][..1] == [A] && [A][..0] == [];
    assert Insert([], A, false) == [A] && Insert([A], B, false) == [A, B] && Insert([A, B], C, false) == [A, B, C];
    hide Insert;
    assert Sorted([A], false) == [A];
    assert Sorted([A, B], false) == [A, B];
  }

  lemma IdsExample()
    ensures IdSet([A, B, C]) == {"a", "b", "c"} && IdSet([B, C]) == {"b", "c"}
  {
    assert A in [A, B, C] && B in [A, B, C] && C in [A, B, C];
    assert B in [B, C] && C in [B, C];
  }

  lemma LiveOfThree(a: string, b: string, c: string)
    requires a != b && a != c
    ensures Live([a, b, c], {a, b, c}) == [a, b, c]
    ensures Live([a, b, c], {b, c}) == [b, c]
  {
    hide Live;
    LiveOfAll([a, b, c], {a, b, c});
    LiveOfAll([b, c], {b, c});
    LiveOfNone(a, {b, c});
    LiveSplit([a], [b, c], {b, c});
    assert [a] + [b, c] == [a, b, c];
    assert [] + [b, c] == [b, c];
  }

  lemma LiveOfNone(id: string, present: set<string>)
    requires id !in present
    ensures Live([id], present) == []
  {
    assert [id][..0] == [];
  }

  lemma FirstServed(ttl: int, maximum: nat)
    ensures Served(Empty(), FIRST.call, ttl, maximum)
            == (Issued(Empty(), "t1", Cursor(REQUEST, 1, ["a", "b", "c"], ttl), 0, maximum), Page([A], Some("t1")))
  {
    hide Sorted, Issued;
    SortedExample();
    assert Ids([A, B, C]) == ["a", "b", "c"] && Slice([A, B, C], 0, 1) == [A];
  }

  lemma FirstPageExample(ttl: int, maximum: nat)
    requires 0 < ttl && 1 <= maximum
    ensures var s := Next(Initial, FIRST, ttl, maximum);
      && Tracks(s) && s.walk.phase == Following && s.walk.token == "t1" && s.used == {"", "t1"}
      && Ids(s.walk.collected) == ["a"] && s.walk.offset == 1 && s.walk.snapshot == ["a", "b", "c"]
      && Resolve(s.tokens, "t1", REQUEST, 0).1.Resolved?
  {
    hide Sorted, Live, CutAt, IdSet, Resolve, Issued, Served, Slice;
    FirstServed(ttl, maximum);
    assert Tracks(Initial);
    TracksKept(Initial, FIRST, ttl, maximum);
    hide Tracks;
    SortedExample();
    IdsExample();
    LiveOfThree("a", "b", "c");
    IssuedTokenResolves(Empty(), "t1", Cursor(REQUEST, 1, ["a", "b", "c"], ttl), 0, maximum, REQUEST, 0);
  }

  /** It happens: the two requests are served, and collect a and c. */
  lemma SkipExample(ttl: int, maximum: nat)
    requires 0 < ttl && 1 <= maximum
    ensures var w := Run(Initial, [FIRST, SECOND], ttl, maximum).walk;
      w.phase == Finished && Ids(w.collected) == ["a", "c"] && w.snapshot == ["a", "b", "c"]
  {
    hide PrunedOf, Shortened, Sorted, Live, CutAt, IdSet, Resolve, Issued, Next, Ids;
    assert [FIRST, SECOND][..1] == [FIRST] && [FIRST][..0] == [];
    var s := Next(Initial, FIRST, ttl, maximum);
    assert Run(Initial, [], ttl, maximum) == Initial;
    assert Run(Initial, [FIRST], ttl, maximum) == s;
    FirstPageExample(ttl, maximum);
    assert Served200(s, SECOND, ttl, maximum);
    hide Served200, Tracks;
    WalkGrows(s, SECOND, ttl, maximum);
    SortedExample();
    IdsExample();
    LiveOfThree("a", "b", "c");
    assert ["a"] + ["c"] == ["a", "c"];
  }
}
