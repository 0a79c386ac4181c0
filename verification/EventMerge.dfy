/** Merging event streams: duplicates dropped, ordered by timestamp with arrival as the
    tie-break, cut to the last few; and the window a live stream keeps by merging events
    one at a time. */
module EventMerges {
  import opened OrderedDicts

  /** An event_id field: missing or empty, a text, or a value of another type. */
  datatype Field = Absent | Text(text: string) | NotText

  /** `stamp` is the text of timestamp or ts; `content` is all the rest. */
  datatype Event = Event(eventId: Field, payloadId: Field, stamp: string, content: string)

  /** The identity of an event: its id, or else its canonical JSON, which determines it. */
  datatype Key = ById(id: string) | ByContent(event: Event)

  /** _event_key */
  function KeyOf(e: Event): Key {
    var id := if e.eventId.Absent? || e.eventId == Text("") then e.payloadId else e.eventId;
    if id.Text? && id.text != "" then ById(id.text) else ByContent(e)
  }

  // ---- the order ----------------------------------------------------------------------

  /** a <= b for strings: lexicographic by code point. */
  predicate AtMost(a: string, b: string) {
    a == "" || (b != "" && (a[0] < b[0] || (a[0] == b[0] && AtMost(a[1..], b[1..]))))
  }

  lemma {:induction false} AtMostIsTotal(a: string, b: string)
    ensures AtMost(a, b) || AtMost(b, a)
    ensures AtMost(a, b) && AtMost(b, a) ==> a == b
    ensures a == b ==> AtMost(a, b)
  {
    if a != "" && b != "" {
      AtMostIsTotal(a[1..], b[1..]);
      if AtMost(a, b) && AtMost(b, a) { assert a == [a[0]] + a[1..] && b == [b[0]] + b[1..]; }
    }
  }

  lemma {:induction false} AtMostIsTransitive(a: string, b: string, c: string)
    requires AtMost(a, b) && AtMost(b, c)
    ensures AtMost(a, c)
  {
    if a != "" && a[0] == b[0] == c[0] { AtMostIsTransitive(a[1..], b[1..], c[1..]); }
  }

  ghost predicate Sorted(s: seq<Event>) {
    forall i, j | 0 <= i < j < |s| :: AtMost(s[i].stamp, s[j].stamp)
  }

  /** The events of one timestamp, in order. */
  function At(s: seq<Event>, stamp: string): seq<Event> {
    if s == [] then [] else
      At(s[..|s| - 1], stamp) + if s[|s| - 1].stamp == stamp then [s[|s| - 1]] else []
  }

  /** r is s sorted by timestamp, events of equal timestamp in their order in s. */
  ghost predicate StablySorted(s: seq<Event>, r: seq<Event>) {
    Sorted(r) && forall stamp :: At(r, stamp) == At(s, stamp)
  }

  // ---- sorting ------------------------------------------------------------------------

  /** e goes after every event at the end that is not later. */
  function Insert(s: seq<Event>, e: Event): (r: seq<Event>)
    ensures |r| == |s| + 1
    ensures forall x :: x in r <==> x == e || x in s
  {
    if s == [] then [e]
    else
      var last := s[|s| - 1];
      assert s == s[..|s| - 1] + [last];
      if AtMost(last.stamp, e.stamp) then s + [e]
      else Insert(s[..|s| - 1], e) + [last]
  }

  /** list.sort with key (timestamp, index). */
  function Ordered(s: seq<Event>): (r: seq<Event>)
    ensures |r| == |s|
    ensures forall x :: x in r <==> x in s
  {
    if s == [] then [] else
      assert s == s[..|s| - 1] + [s[|s| - 1]];
      Insert(Ordered(s[..|s| - 1]), s[|s| - 1])
  }

  lemma AtAppend(s: seq<Event>, e: Event, stamp: string)
    ensures At(s + [e], stamp) == At(s, stamp) + if e.stamp == stamp then [e] else []
  {
    assert (s + [e])[..|s|] == s;
  }

  lemma {:induction false} InsertSorts(s: seq<Event>, e: Event)
    requires Sorted(s)
    ensures Sorted(Insert(s, e))
    decreases |s|
  {
    if s != [] {
      var last, init := s[|s| - 1], s[..|s| - 1];
      AtMostIsTotal(last.stamp, e.stamp);
      if AtMost(last.stamp, e.stamp) {
        forall i | 0 <= i < |s|
          ensures AtMost(s[i].stamp, e.stamp)
        {
          if i < |s| - 1 { AtMostIsTransitive(s[i].stamp, last.stamp, e.stamp); }
        }
      } else {
        InsertSorts(init, e);
        forall x | x in Insert(init, e)
          ensures AtMost(x.stamp, last.stamp)
        {
          if x != e { var i :| 0 <= i < |init| && init[i] == x; assert s[i] == x; }
        }
        hide AtMost, Insert;
      }
    }
  }

  lemma {:induction false} InsertIsStable(s: seq<Event>, e: Event, stamp: string)
    ensures At(Insert(s, e), stamp) == At(s, stamp) + (if e.stamp == stamp then [e] else [])
    decreases |s|
  {
    hide AtMost;
    AtAppend(s, e, stamp);
    if s != [] {
      var last, init := s[|s| - 1], s[..|s| - 1];
      assert s == init + [last];
      if !AtMost(last.stamp, e.stamp) {
        AtMostIsTotal(last.stamp, e.stamp);
        InsertIsStable(init, e, stamp);
        hide Insert;
        AtAppend(Insert(init, e), last, stamp);
        AtAppend(init, last, stamp);
        var a, x, y := At(init, stamp), if e.stamp == stamp then [e] else [], if last.stamp == stamp then [last] else [];
        SwapEnds(a, x, y);
      }
    } else {
      assert s + [e] == [e];
    }
  }

  lemma SwapEnds<T>(a: seq<T>, x: seq<T>, y: seq<T>)
    requires x == [] || y == []
    ensures (a + x) + y == (a + y) + x
  {
  }

  lemma {:induction false} OrderedSorts(s: seq<Event>)
    ensures StablySorted(s, Ordered(s))
    decreases |s|
  {
    if s != [] {
      var last, init := s[|s| - 1], s[..|s| - 1];
      OrderedSorts(init);
      InsertSorts(Ordered(init), last);
      assert s == init + [last];
      forall stamp
        ensures At(Ordered(s), stamp) == At(s, stamp)
      {
        InsertIsStable(Ordered(init), last, stamp);
        AtAppend(init, last, stamp);
      }
    }
  }

  lemma {:induction false} AtHasAll(s: seq<Event>, x: Event)
    ensures x in At(s, x.stamp) <==> x in s
    decreases |s|
  {
    if s != [] {
      assert s == s[..|s| - 1] + [s[|s| - 1]];
      AtHasAll(s[..|s| - 1], x);
    }
  }

  lemma SameLatest(s: seq<Event>, a: seq<Event>, b: seq<Event>)
    requires StablySorted(s, a) && StablySorted(s, b) && a != []
    ensures b != [] && a[|a| - 1].stamp == b[|b| - 1].stamp
  {
    hide At, AtMost;
    var x := a[|a| - 1];
    AtHasAll(a, x);
    AtHasAll(b, x);
    assert At(a, x.stamp) == At(b, x.stamp);
    var y := b[|b| - 1];
    AtHasAll(b, y);
    AtHasAll(a, y);
    assert At(a, y.stamp) == At(b, y.stamp);
    LastIsLatest(a, y);
    LastIsLatest(b, x);
    AtMostIsTotal(x.stamp, y.stamp);
  }

  lemma DropLatest(p: seq<Event>, q: seq<Event>, x: Event, y: Event, stamp: string)
    requires x.stamp == y.stamp && At(p + [x], stamp) == At(q + [y], stamp)
    ensures At(p, stamp) == At(q, stamp)
    ensures x.stamp == stamp ==> x == y
  {
    AtAppend(p, x, stamp);
    AtAppend(q, y, stamp);
    hide At;
    SameInit(At(p, stamp), At(q, stamp), x, y, stamp);
  }

  lemma SortedInit(a: seq<Event>)
    requires Sorted(a) && a != []
    ensures Sorted(a[..|a| - 1])
  {
  }

  /** A stable order is unique: whatever sorts stably computes Ordered. */
  lemma {:induction false} StableOrderIsUnique(s: seq<Event>, a: seq<Event>, b: seq<Event>)
    requires StablySorted(s, a) && StablySorted(s, b)
    ensures a == b
    decreases |a|
  {
    hide At, AtMost, Sorted;
    if a == [] {
      if b != [] { SameLatest(s, b, a); }
    } else {
      SameLatest(s, a, b);
      var x, y, p, q := a[|a| - 1], b[|b| - 1], a[..|a| - 1], b[..|b| - 1];
      assert a == p + [x] && b == q + [y];
      forall stamp
        ensures At(p, stamp) == At(q, stamp)
      {
        assert At(a, stamp) == At(b, stamp);
        DropLatest(p, q, x, y, stamp);
      }
      assert At(a, x.stamp) == At(b, x.stamp);
      DropLatest(p, q, x, y, x.stamp);
      SortedInit(a);
      SortedInit(b);
      StableOrderIsUnique(p, p, q);
    }
  }

  lemma LastIsLatest(a: seq<Event>, y: Event)
    requires Sorted(a) && y in a
    ensures AtMost(y.stamp, a[|a| - 1].stamp)
  {
    AtMostIsTotal(y.stamp, y.stamp);
  }

  lemma SameInit(p: seq<Event>, q: seq<Event>, x: Event, y: Event, stamp: string)
    requires x.stamp == y.stamp
    requires (p + if x.stamp == stamp then [x] else []) == (q + if y.stamp == stamp then [y] else [])
    ensures p == q
    ensures x.stamp == stamp ==> x == y
  {
    if x.stamp == stamp {
      assert |p + [x]| == |p| + 1 && |q + [y]| == |q| + 1;
      assert (p + [x])[..|p|] == p && (q + [y])[..|q|] == q;
      assert (p + [x])[|p|] == x && (q + [y])[|q|] == y;
    } else {
      assert p + [] == p && q + [] == q;
    }
  }

  lemma {:induction false} OrderedKeepsSorted(s: seq<Event>)
    requires Sorted(s)
    ensures Ordered(s) == s
  {
    OrderedSorts(s);
    StableOrderIsUnique(s, s, Ordered(s));
  }

  // ---- merging ------------------------------------------------------------------------

  function Keys(s: seq<Event>): set<Key> { set e | e in s :: KeyOf(e) }

  ghost predicate DistinctKeys(s: seq<Event>) {
    forall i, j | 0 <= i < j < |s| :: KeyOf(s[i]) != KeyOf(s[j])
  }

  /** The groups in one sequence, without records that are no dictionaries. */
  function Arrivals(groups: seq<seq<Option<Event>>>): seq<Event> {
    if groups == [] then [] else Arrivals(groups[..|groups| - 1]) + Present(groups[|groups| - 1])
  }

  function Present(group: seq<Option<Event>>): seq<Event> {
    if group == [] then [] else
      Present(group[..|group| - 1]) + if group[|group| - 1].Some? then [group[|group| - 1].value] else []
  }

  /** The events whose key did not occur before. */
  function Firsts(s: seq<Event>): seq<Event> {
    if s == [] then [] else
      Firsts(s[..|s| - 1]) + if KeyOf(s[|s| - 1]) in Keys(s[..|s| - 1]) then [] else [s[|s| - 1]]
  }

  /** The last `limit` elements; all of them for a limit of zero or less. */
  function LastOf<T>(s: seq<T>, limit: int): (r: seq<T>)
    ensures |r| == if 0 < limit < |s| then limit else |s|
    ensures forall x | x in r :: x in s
  {
    if 0 < limit < |s| then s[|s| - limit..] else s
  }

  function Merged(groups: seq<seq<Option<Event>>>, limit: int): seq<Event> {
    LastOf(Ordered(Firsts(Arrivals(groups))), limit)
  }

  /** _merge_events. The index of an event in `merged` is its position. */
  method MergeEvents(groups: seq<seq<Option<Event>>>, limit: int) returns (r: seq<Event>)
    ensures r == Merged(groups, limit)
  {
    hide Firsts, Keys, Present, Arrivals, KeyOf, Ordered;
    var merged: seq<Event> := [];
    var seen: set<Key> := {};
    NothingArrived();
    assert groups[..0] == [];
    for g := 0 to |groups|
      invariant merged == Firsts(Arrivals(groups[..g])) && seen == Keys(Arrivals(groups[..g]))
    {
      var group := groups[g];
      ghost var before := Arrivals(groups[..g]);
      GroupStarts(groups, g);
      for i := 0 to |group|
        invariant merged == Firsts(before + Present(group[..i])) && seen == Keys(before + Present(group[..i]))
      {
        ArrivalStep(before, group, i);
        if group[i].None? { continue; }
        var event := group[i].value;
        var key := KeyOf(event);
        if key in seen { continue; }
        seen := seen + {key};
        merged := merged + [event];
      }
      GroupEnds(groups, g);
    }
    assert groups[..|groups|] == groups;
    merged := Ordered(merged);
    return if limit > 0 then LastOf(merged, limit) else merged;
  }

  lemma ArrivalStep(before: seq<Event>, group: seq<Option<Event>>, i: nat)
    requires i < |group|
    ensures var a := before + Present(group[..i]); var b := before + Present(group[..i + 1]);
      if group[i].None? then b == a
      else
        var key := KeyOf(group[i].value);
        && Firsts(b) == Firsts(a) + (if key in Keys(a) then [] else [group[i].value])
        && Keys(b) == Keys(a) + {key}
        && (key in Keys(a) ==> Firsts(b) == Firsts(a) && Keys(b) == Keys(a))
  {
    var a, b := before + Present(group[..i]), before + Present(group[..i + 1]);
    assert group[..i + 1][..i] == group[..i];
    if group[i].None? {
      assert b == a;
    } else {
      assert b == a + [group[i].value] && b[..|a|] == a;
      KeysAppend(a, group[i].value);
    }
  }

  lemma NothingArrived()
    ensures Firsts(Arrivals([])) == [] && Keys(Arrivals([])) == {}
  {
  }

  lemma GroupStarts(groups: seq<seq<Option<Event>>>, g: nat)
    requires g < |groups|
    ensures Arrivals(groups[..g]) + Present(groups[g][..0]) == Arrivals(groups[..g])
  {
    assert Present(groups[g][..0]) == [];
  }

  lemma GroupEnds(groups: seq<seq<Option<Event>>>, g: nat)
    requires g < |groups|
    ensures Arrivals(groups[..g]) + Present(groups[g][..|groups[g]|]) == Arrivals(groups[..g + 1])
  {
    assert groups[g][..|groups[g]|] == groups[g] && groups[..g + 1][..g] == groups[..g];
  }

  lemma KeysAppend(s: seq<Event>, e: Event)
    ensures Keys(s + [e]) == Keys(s) + {KeyOf(e)}
  {
    assert forall x :: x in s + [e] <==> x in s || x == e;
  }

  lemma SameElementsSameKeys(s: seq<Event>, r: seq<Event>)
    requires forall x :: x in r <==> x in s
    ensures Keys(r) == Keys(s)
  {
  }

  /** e is the first event of its key. */
  ghost predicate IsFirst(s: seq<Event>, e: Event) {
    exists i :: 0 <= i < |s| && s[i] == e && forall j | 0 <= j < i :: KeyOf(s[j]) != KeyOf(e)
  }

  lemma {:induction false} FirstsAreDistinct(s: seq<Event>)
    ensures DistinctKeys(Firsts(s)) && Keys(Firsts(s)) == Keys(s)
    decreases |s|
  {
    hide KeyOf;
    if s != [] {
      var init, last := s[..|s| - 1], s[|s| - 1];
      assert s == init + [last];
      FirstsAreDistinct(init);
      KeysAppend(init, last);
      KeysAppend(Firsts(init), last);
    }
  }

  lemma {:induction false} FirstsOfDistinct(s: seq<Event>)
    requires DistinctKeys(s)
    ensures Firsts(s) == s
    decreases |s|
  {
    hide KeyOf;
    if s != [] {
      var init, last := s[..|s| - 1], s[|s| - 1];
      assert s == init + [last];
      FirstsOfDistinct(init);
      assert forall x | x in init :: KeyOf(x) != KeyOf(last);
    }
  }

  lemma {:induction false} FirstsAreFirst(s: seq<Event>, e: Event)
    requires e in Firsts(s)
    ensures IsFirst(s, e)
    decreases |s|
  {
    hide KeyOf;
    var init, last := s[..|s| - 1], s[|s| - 1];
    if e in Firsts(init) {
      FirstsAreFirst(init, e);
      var i :| 0 <= i < |init| && init[i] == e && forall j | 0 <= j < i :: KeyOf(init[j]) != KeyOf(e);
      assert s[i] == e;
      assert forall j | 0 <= j < i :: s[j] == init[j];
    } else {
      assert e == last;
      assert forall j | 0 <= j < |s| - 1 :: s[j] == init[j] && init[j] in init;
    }
  }

  lemma {:induction false} InsertKeepsDistinct(s: seq<Event>, e: Event)
    requires DistinctKeys(s) && KeyOf(e) !in Keys(s)
    ensures DistinctKeys(Insert(s, e))
    decreases |s|
  {
    hide KeyOf, AtMost, DistinctKeys;
    if s == [] {
      DistinctAppend([], e);
      assert [] + [e] == [e];
    } else {
      var last, init := s[|s| - 1], s[..|s| - 1];
      assert s == init + [last] && last in s;
      if AtMost(last.stamp, e.stamp) {
        DistinctAppend(s, e);
      } else {
        DistinctInit(init, last);
        InsertKeepsDistinct(init, e);
        DistinctAppend(Insert(init, e), last);
      }
    }
  }

  lemma DistinctInit(s: seq<Event>, e: Event)
    requires DistinctKeys(s + [e])
    ensures DistinctKeys(s) && KeyOf(e) !in Keys(s)
  {
    hide KeyOf;
    assert forall i | 0 <= i < |s| :: (s + [e])[i] == s[i];
    assert (s + [e])[|s|] == e;
  }

  lemma DistinctAppend(s: seq<Event>, e: Event)
    requires DistinctKeys(s) && KeyOf(e) !in Keys(s)
    ensures DistinctKeys(s + [e])
  {
    hide KeyOf;
  }

  lemma {:induction false} OrderedKeepsDistinct(s: seq<Event>)
    requires DistinctKeys(s)
    ensures DistinctKeys(Ordered(s))
    decreases |s|
  {
    if s != [] {
      var last, init := s[|s| - 1], s[..|s| - 1];
      assert s == init + [last];
      OrderedKeepsDistinct(init);
      assert forall x | x in init :: KeyOf(x) != KeyOf(last);
      InsertKeepsDistinct(Ordered(init), last);
    }
  }

  /** An unbounded merge is sorted, repeats no key, and has the key of every event that
      came in, represented by the first to come. */
  lemma MergeIsExact(groups: seq<seq<Option<Event>>>)
    ensures var r := Merged(groups, 0); var all := Arrivals(groups);
      && Sorted(r) && DistinctKeys(r) && Keys(r) == Keys(all)
      && (forall e | e in r :: IsFirst(all, e))
      && StablySorted(Firsts(all), r)
  {
    var kept := Firsts(Arrivals(groups));
    FirstsAreDistinct(Arrivals(groups));
    forall e | e in kept
      ensures IsFirst(Arrivals(groups), e)
    {
      FirstsAreFirst(Arrivals(groups), e);
    }
    OrderedSorts(kept);
    OrderedKeepsDistinct(kept);
    SameElementsSameKeys(kept, Ordered(kept));
    hide Firsts, Ordered, Keys, IsFirst, DistinctKeys, StablySorted, Sorted;
    SortedOf(kept, Ordered(kept));
  }

  lemma SortedOf(s: seq<Event>, r: seq<Event>)
    requires StablySorted(s, r)
    ensures Sorted(r)
  {
  }

  function Wrapped(s: seq<Event>): (r: seq<Option<Event>>)
    ensures |r| == |s| && forall i | 0 <= i < |s| :: r[i] == Some(s[i])
  {
    if s == [] then [] else Wrapped(s[..|s| - 1]) + [Some(s[|s| - 1])]
  }

  lemma {:induction false} PresentOfWrapped(s: seq<Event>)
    ensures Present(Wrapped(s)) == s
    decreases |s|
  {
    if s != [] {
      var init := s[..|s| - 1];
      PresentOfWrapped(init);
      assert Wrapped(s)[..|s| - 1] == Wrapped(init);
      assert s == init + [s[|s| - 1]];
    }
  }

  lemma ArrivalsOfOne(s: seq<Event>)
    ensures Arrivals([Wrapped(s)]) == s
  {
    PresentOfWrapped(s);
    assert [Wrapped(s)][..0] == [];
    assert Arrivals([]) + s == s;
  }

  /** Merging a merge again changes nothing. */
  lemma MergeIsIdempotent(groups: seq<seq<Option<Event>>>, limit: int)
    ensures var r := Merged(groups, limit); Merged([Wrapped(r)], limit) == r
  {
    MergeIsExact(groups);
    var r := Merged(groups, limit);
    LastOfSorted(Merged(groups, 0), limit);
    hide Merged, KeyOf, AtMost, Arrivals, Wrapped;
    MergedIsLastOf(groups, limit);
    FirstsOfDistinct(r);
    OrderedKeepsSorted(r);
    ArrivalsOfOne(r);
    MergedIsLastOf([Wrapped(r)], limit);
    hide Firsts, Ordered, Sorted, DistinctKeys;
  }

  lemma MergedIsLastOf(groups: seq<seq<Option<Event>>>, limit: int)
    ensures Merged(groups, limit) == LastOf(Merged(groups, 0), limit) == LastOf(Ordered(Firsts(Arrivals(groups))), limit)
  {
  }

  lemma LastOfSorted(s: seq<Event>, limit: int)
    requires Sorted(s) && DistinctKeys(s)
    ensures Sorted(LastOf(s, limit)) && DistinctKeys(LastOf(s, limit))
    ensures LastOf(LastOf(s, limit), limit) == LastOf(s, limit)
  {
    hide KeyOf, AtMost;
  }

  // ---- the window of a live stream ------------------------------------------------------

  /** One event merged into a window of at most `limit`. */
  function Merge1(window: seq<Event>, e: Event, limit: int): seq<Event> { LastOf(Ordered(Firsts(window + [e])), limit) }

  /** Events merged in one at a time. */
  function Window(window: seq<Event>, events: seq<Event>, limit: int): seq<Event> {
    if events == [] then window else Merge1(Window(window, events[..|events| - 1], limit), events[|events| - 1], limit)
  }

  /** What does not fit the window can be dropped before the next event is inserted. */
  lemma {:induction false} DropThenInsert(s: seq<Event>, e: Event, limit: nat)
    requires 0 < limit
    ensures LastOf(Insert(LastOf(s, limit), e), limit) == LastOf(Insert(s, e), limit)
    decreases |s|
  {
    hide AtMost;
    if |s| > limit {
      var init, last, w := s[..|s| - 1], s[|s| - 1], LastOf(s, limit);
      var kept := w[..|w| - 1];
      assert w[|w| - 1] == last && w == kept + [last];
      if AtMost(last.stamp, e.stamp) {
        assert Insert(s, e) == s + [e] && Insert(w, e) == w + [e];
        LastOfTwice(s, e, limit);
      } else {
        assert Insert(s, e) == Insert(init, e) + [last] && Insert(w, e) == Insert(kept, e) + [last];
        hide Insert;
        if limit == 1 {
          LastOfAppend(Insert(init, e), last, 1);
          LastOfAppend(Insert(kept, e), last, 1);
        } else {
          assert kept == LastOf(init, limit - 1);
          DropThenInsert(init, e, limit - 1);
          LastOfAppend(Insert(init, e), last, limit);
          LastOfAppend(Insert(kept, e), last, limit);
        }
      }
    }
  }

  lemma LastOfTwice(s: seq<Event>, e: Event, limit: nat)
    requires 0 < limit < |s|
    ensures LastOf(LastOf(s, limit) + [e], limit) == LastOf(s + [e], limit)
  {
  }

  lemma LastOfAppend(s: seq<Event>, x: Event, limit: nat)
    requires 0 < limit
    ensures LastOf(s + [x], limit) == (if limit == 1 then [x] else LastOf(s, limit - 1) + [x])
  {
  }

  lemma OrderedAppend(s: seq<Event>, e: Event)
    ensures Ordered(s + [e]) == Insert(Ordered(s), e)
  {
    assert (s + [e])[..|s|] == s;
  }

  /** Merging one event of a new key into the last `limit` of an order gives the last
      `limit` of the order with that event. */
  lemma MergeOne(all: seq<Event>, e: Event, limit: nat)
    requires 0 < limit && DistinctKeys(all + [e])
    ensures Merge1(LastOf(Ordered(all), limit), e, limit) == LastOf(Ordered(all + [e]), limit)
  {
    var s := Ordered(all);
    var w := LastOf(s, limit);
    DistinctInit(all, e);
    OrderedKeepsDistinct(all);
    OrderedSorts(all);
    LastOfSorted(s, limit);
    assert KeyOf(e) !in Keys(w);
    hide KeyOf, AtMost, Ordered, Firsts, Sorted, DistinctKeys, Insert, Keys;
    DistinctAppend(w, e);
    FirstsOfDistinct(w + [e]);
    OrderedAppend(w, e);
    OrderedKeepsSorted(w);
    DropThenInsert(s, e, limit);
    OrderedAppend(all, e);
  }

  /** The window is the last `limit` of the full stable order of everything that came:
      events are merged one at a time and what falls out is never needed again. */
  lemma {:induction false} WindowIsLastOfAll(first: seq<Event>, events: seq<Event>, limit: nat)
    requires 0 < limit && Sorted(first) && |first| <= limit && DistinctKeys(first + events)
    ensures Window(first, events, limit) == LastOf(Ordered(first + events), limit)
    decreases |events|
  {
    hide KeyOf, AtMost, Ordered, Firsts, Insert, Merge1;
    if events == [] {
      assert first + [] == first;
      OrderedKeepsSorted(first);
    } else {
      var init, e := events[..|events| - 1], events[|events| - 1];
      assert first + events == (first + init) + [e];
      DistinctInit(first + init, e);
      WindowIsLastOfAll(first, init, limit);
      MergeOne(first + init, e, limit);
    }
  }

  const SEEN_CAP: nat := 10_000
  const WINDOW: nat := 25

  /** The events a stream lets through, and the keys it remembers: an event whose key is
      remembered is skipped; the memory is emptied when it exceeds its cap. */
  function Screened(events: seq<Event>, seen: set<Key>, cap: nat): (seq<Event>, set<Key>) {
    if events == [] then ([], seen) else
      var (kept, known) := Screened(events[..|events| - 1], seen, cap);
      var e := events[|events| - 1];
      if KeyOf(e) in known then (kept, known)
      else (kept + [e], if |known + {KeyOf(e)}| > cap then {} else known + {KeyOf(e)})
  }

  /** The loop of stream_job_workflow_progress, as far as its window goes. */
  method Follow(first: seq<Event>, events: seq<Event>) returns (window: seq<Event>)
    ensures window == Window(first, Screened(events, Keys(first), SEEN_CAP).0, WINDOW)
  {
    window := first;
    var seen := Keys(first);
    for i := 0 to |events|
      invariant window == Window(first, Screened(events[..i], Keys(first), SEEN_CAP).0, WINDOW)
      invariant seen == Screened(events[..i], Keys(first), SEEN_CAP).1
    {
      hide KeyOf, Merge1, Keys;
      var event := events[i];
      ghost var kept := Screened(events[..i], Keys(first), SEEN_CAP).0;
      assert events[..i + 1][..i] == events[..i];
      if KeyOf(event) in seen { continue; }
      seen := seen + {KeyOf(event)};
      if |seen| > SEEN_CAP { seen := {}; }
      assert (kept + [event])[..|kept|] == kept;
      window := Merge1(window, event, WINDOW);
    }
    assert events[..|events|] == events;
  }

  lemma FirstsAppend(s: seq<Event>, e: Event)
    ensures Firsts(s + [e]) == Firsts(s) + (if KeyOf(e) in Keys(s) then [] else [e])
  {
    assert (s + [e])[..|s|] == s;
  }

  lemma KeysOfInit(s: seq<Event>, e: Event)
    ensures Keys(s) <= Keys(s + [e]) && |Keys(s)| <= |Keys(s + [e])|
  {
    KeysAppend(s, e);
    SubsetSize(Keys(s), Keys(s + [e]));
  }

  lemma {:induction false} SubsetSize<T>(a: set<T>, b: set<T>)
    requires a <= b
    ensures |a| <= |b|
  {
    assert b == a + (b - a);
  }

  /** While no more than `cap` keys have come, the memory is complete. */
  lemma {:induction false} MemoryIsComplete(first: seq<Event>, events: seq<Event>, cap: nat)
    requires DistinctKeys(first) && |Keys(first + events)| <= cap
    ensures Screened(events, Keys(first), cap).1 == Keys(first + events)
    ensures first + Screened(events, Keys(first), cap).0 == Firsts(first + events)
    decreases |events|
  {
    hide KeyOf, Firsts, Keys, DistinctKeys;
    if events == [] {
      assert first + [] == first;
      FirstsOfDistinct(first);
    } else {
      var init, e := events[..|events| - 1], events[|events| - 1];
      assert first + events == (first + init) + [e];
      KeysOfInit(first + init, e);
      MemoryIsComplete(first, init, cap);
      FirstsAppend(first + init, e);
      KeysAppend(first + init, e);
      var (kept, known) := Screened(init, Keys(first), cap);
      assert first + (kept + [e]) == (first + kept) + [e];
    }
  }

  /** What is remembered did come. */
  lemma {:induction false} MemoryIsSound(first: seq<Event>, events: seq<Event>, cap: nat)
    ensures Screened(events, Keys(first), cap).1 <= Keys(first + events)
    decreases |events|
  {
    hide KeyOf, Keys;
    if events == [] {
      assert first + [] == first;
    } else {
      var init, e := events[..|events| - 1], events[|events| - 1];
      assert first + events == (first + init) + [e];
      MemoryIsSound(first, init, cap);
      KeysAppend(first + init, e);
    }
  }

  /** The window a stream has after its first n events. */
  function LiveAfter(first: seq<Event>, events: seq<Event>, limit: nat, cap: nat, n: nat): seq<Event>
    requires n <= |events|
  {
    Window(first, Screened(events[..n], Keys(first), cap).0, limit)
  }

  /** The window it should have: the newest of the distinct events that came. */
  function RightAfter(first: seq<Event>, events: seq<Event>, limit: nat, n: nat): seq<Event>
    requires n <= |events|
  {
    LastOf(Ordered(Firsts(first + events[..n])), limit)
  }

  /** Event n does the window no harm: its key is new, or remembered, or in the window; or
      it is a forgotten repeat that is older than everything in the window. */
  ghost predicate Harmless(first: seq<Event>, events: seq<Event>, limit: nat, cap: nat, n: nat)
    requires n < |events|
  {
    var key, w := KeyOf(events[n]), RightAfter(first, events, limit, n);
    || key !in Keys(first + events[..n])
    || key in Screened(events[..n], Keys(first), cap).1
    || key in Keys(w)
    || (w != [] && !AtMost(w[0].stamp, events[n].stamp))
  }

  lemma MergeKnown(w: seq<Event>, e: Event, limit: nat)
    requires |w| <= limit && Sorted(w) && DistinctKeys(w) && KeyOf(e) in Keys(w)
    ensures Merge1(w, e, limit) == w
  {
    hide KeyOf, AtMost, Keys, Sorted, DistinctKeys, Ordered, Firsts;
    FirstsAppend(w, e);
    FirstsOfDistinct(w);
    assert w + [] == w;
    OrderedKeepsSorted(w);
  }

  lemma {:induction false} InsertInFront(w: seq<Event>, e: Event)
    requires w != [] && Sorted(w)
    ensures if AtMost(w[0].stamp, e.stamp) then Insert(w, e)[0] == w[0] else Insert(w, e) == [e] + w
    decreases |w|
  {
    var init, last := w[..|w| - 1], w[|w| - 1];
    assert w == init + [last];
    if AtMost(w[0].stamp, e.stamp) {
      if !AtMost(last.stamp, e.stamp) && init != [] { InsertInFront(init, e); }
    } else {
      if |w| > 1 {
        if AtMost(last.stamp, e.stamp) { AtMostIsTransitive(w[0].stamp, last.stamp, e.stamp); }
        InsertInFront(init, e);
        assert ([e] + init) + [last] == [e] + w;
      } else {
        assert init == [];
      }
    }
  }

  /** An event of a new key leaves a full window as it is if and only if it is older than
      everything in the window. */
  lemma MergeNewIff(w: seq<Event>, e: Event, limit: nat)
    requires 0 < limit == |w| && Sorted(w) && DistinctKeys(w) && KeyOf(e) !in Keys(w)
    ensures Merge1(w, e, limit) == w <==> !AtMost(w[0].stamp, e.stamp)
  {
    hide KeyOf, AtMost, Ordered, Firsts, Sorted, DistinctKeys, Insert;
    DistinctAppend(w, e);
    FirstsOfDistinct(w + [e]);
    OrderedAppend(w, e);
    OrderedKeepsSorted(w);
    InsertInFront(w, e);
    var r := Insert(w, e);
    assert Merge1(w, e, limit) == r[1..];
    if AtMost(w[0].stamp, e.stamp) {
      assert e in r && (e == r[0] || e in r[1..]);
      assert w[0] in w && e !in w;
      assert e in r[1..];
    } else {
      assert ([e] + w)[1..] == w;
    }
  }

  /** What should be in the window is sorted, repeats no key, and is everything unless it is full. */
  lemma RightWindow(all: seq<Event>, limit: nat)
    requires 0 < limit
    ensures var w := LastOf(Ordered(Firsts(all)), limit);
      && |w| <= limit && Sorted(w) && DistinctKeys(w)
      && (|w| < limit ==> Keys(w) == Keys(all)) && (w == [] ==> all == [])
  {
    FirstsAreDistinct(all);
    OrderedKeepsDistinct(Firsts(all));
    OrderedSorts(Firsts(all));
    LastOfSorted(Ordered(Firsts(all)), limit);
    SameElementsSameKeys(Firsts(all), Ordered(Firsts(all)));
    if all != [] { assert KeyOf(all[0]) in Keys(all); }
    hide KeyOf, AtMost, Ordered, Firsts;
  }

  /** A right window stays right with the next event if and only if that does no harm. */
  lemma StaysRightIff(first: seq<Event>, events: seq<Event>, limit: nat, cap: nat, n: nat)
    requires 0 < limit && n < |events|
    requires LiveAfter(first, events, limit, cap, n) == RightAfter(first, events, limit, n)
    ensures LiveAfter(first, events, limit, cap, n + 1) == RightAfter(first, events, limit, n + 1) <==> Harmless(first, events, limit, cap, n)
  {
    hide KeyOf, AtMost, Ordered, Firsts, Sorted, DistinctKeys, Keys, Merge1, LastOf;
    var past, e := first + events[..n], events[n];
    var (kept, known) := Screened(events[..n], Keys(first), cap);
    var w := RightAfter(first, events, limit, n);
    assert events[..n + 1][..n] == events[..n] && first + events[..n + 1] == past + [e];
    MemoryIsSound(first, events[..n], cap);
    FirstsAppend(past, e);
    RightWindow(past, limit);
    assert (kept + [e])[..|kept|] == kept;
    if KeyOf(e) !in Keys(past) {
      FirstsAreDistinct(past);
      DistinctAppend(Firsts(past), e);
      MergeOne(Firsts(past), e, limit);
    } else {
      assert Firsts(past) + [] == Firsts(past);
      if KeyOf(e) !in known {
        if KeyOf(e) in Keys(w) { MergeKnown(w, e, limit); } else { MergeNewIff(w, e, limit); }
      }
    }
  }

  lemma StartsRight(first: seq<Event>, events: seq<Event>, limit: nat, cap: nat)
    requires 0 < limit && Sorted(first) && |first| <= limit && DistinctKeys(first)
    ensures LiveAfter(first, events, limit, cap, 0) == RightAfter(first, events, limit, 0)
  {
    hide KeyOf, AtMost, Sorted, DistinctKeys, Ordered, Firsts;
    assert first + events[..0] == first;
    FirstsOfDistinct(first);
    OrderedKeepsSorted(first);
  }

  lemma {:induction false} RightUpTo(first: seq<Event>, events: seq<Event>, limit: nat, cap: nat, n: nat)
    requires 0 < limit && Sorted(first) && |first| <= limit && DistinctKeys(first) && n <= |events|
    requires forall k | 0 <= k < n :: Harmless(first, events, limit, cap, k)
    ensures LiveAfter(first, events, limit, cap, n) == RightAfter(first, events, limit, n)
  {
    hide LiveAfter, RightAfter, Harmless, KeyOf, AtMost, Sorted, DistinctKeys;
    if n == 0 {
      StartsRight(first, events, limit, cap);
    } else {
      RightUpTo(first, events, limit, cap, n - 1);
      StaysRightIff(first, events, limit, cap, n - 1);
    }
  }

  /** The window of a stream is, at every moment, the newest of all distinct events so far
      if and only if no event that was forgotten comes again and is not older than the
      whole window (while the window does not hold it). */
  lemma WindowRightIffHarmless(first: seq<Event>, events: seq<Event>, limit: nat, cap: nat)
    requires 0 < limit && Sorted(first) && |first| <= limit && DistinctKeys(first)
    ensures (forall n | 0 <= n <= |events| :: LiveAfter(first, events, limit, cap, n) == RightAfter(first, events, limit, n))
            <==> (forall n | 0 <= n < |events| :: Harmless(first, events, limit, cap, n))
  {
    hide LiveAfter, RightAfter, Harmless;
    if forall n | 0 <= n < |events| :: Harmless(first, events, limit, cap, n) {
      forall n | 0 <= n <= |events|
        ensures LiveAfter(first, events, limit, cap, n) == RightAfter(first, events, limit, n)
      {
        RightUpTo(first, events, limit, cap, n);
      }
    }
    if forall n | 0 <= n <= |events| :: LiveAfter(first, events, limit, cap, n) == RightAfter(first, events, limit, n) {
      forall n | 0 <= n < |events|
        ensures Harmless(first, events, limit, cap, n)
      {
        assert LiveAfter(first, events, limit, cap, n + 1) == RightAfter(first, events, limit, n + 1);
        StaysRightIff(first, events, limit, cap, n);
      }
    }
  }

  /** Nothing is forgotten by a stream that repeats no event or has had at most `cap` keys,
      so its window is right at every moment. */
  lemma LiveWindow(first: seq<Event>, events: seq<Event>, limit: nat, cap: nat, n: nat)
    requires 0 < limit && Sorted(first) && |first| <= limit && DistinctKeys(first) && n <= |events|
    requires DistinctKeys(first + events) || |Keys(first + events)| <= cap
    ensures LiveAfter(first, events, limit, cap, n) == RightAfter(first, events, limit, n)
  {
    hide LiveAfter, RightAfter;
    forall k | 0 <= k < n
      ensures Harmless(first, events, limit, cap, k)
    {
      NothingForgotten(first, events, cap, k);
    }
    RightUpTo(first, events, limit, cap, n);
  }

  lemma NothingForgotten(first: seq<Event>, events: seq<Event>, cap: nat, k: nat)
    requires k < |events| && DistinctKeys(first)
    requires DistinctKeys(first + events) || |Keys(first + events)| <= cap
    ensures KeyOf(events[k]) !in Keys(first + events[..k]) || KeyOf(events[k]) in Screened(events[..k], Keys(first), cap).1
  {
    hide KeyOf;
    var all, past := first + events, first + events[..k];
    assert all[..|first| + k] == past && all[|first| + k] == events[k];
    if DistinctKeys(all) {
      forall x | x in past
        ensures KeyOf(x) != KeyOf(events[k])
      {
        var i :| 0 <= i < |past| && past[i] == x;
        assert all[i] == x;
      }
    } else {
      assert Keys(past) <= Keys(all);
      SubsetSize(Keys(past), Keys(all));
      MemoryIsComplete(first, events[..k], cap);
    }
  }

  // ---- a window that goes wrong ------------------------------------------------------------

  lemma {:induction false} KeysOfDistinct(s: seq<Event>)
    requires DistinctKeys(s)
    ensures |Keys(s)| == |s|
    decreases |s|
  {
    hide KeyOf;
    if s != [] {
      var init, e := s[..|s| - 1], s[|s| - 1];
      assert s == init + [e];
      DistinctInit(init, e);
      KeysOfDistinct(init);
      KeysAppend(init, e);
    }
  }

  /** The memory is emptied when it would exceed its cap. */
  lemma MemoryEmpties(first: seq<Event>, events: seq<Event>, cap: nat)
    requires DistinctKeys(first + events) && |first + events| == cap + 1 && events != []
    ensures Screened(events, Keys(first), cap).1 == {}
  {
    hide KeyOf, Keys, Firsts, DistinctKeys;
    var init, e := events[..|events| - 1], events[|events| - 1];
    assert first + events == (first + init) + [e];
    DistinctInit(first + init, e);
    DistinctPrefix(first, init);
    KeysOfDistinct(first + init);
    KeysOfDistinct(first + events);
    KeysAppend(first + init, e);
    MemoryIsComplete(first, init, cap);
  }

  lemma DistinctPrefix(a: seq<Event>, b: seq<Event>)
    requires DistinctKeys(a + b)
    ensures DistinctKeys(a)
  {
    hide KeyOf;
    assert forall i | 0 <= i < |a| :: (a + b)[i] == a[i];
  }

  /** Events of one timestamp with ids of different lengths. */
  function Named(i: nat): Event { Event(Text(seq(i + 1, _ => 'x')), Absent, "", "") }

  function Flood(): seq<Event> { seq(SEEN_CAP + 1, i requires 0 <= i < SEEN_CAP + 1 => Named(i)) }

  lemma FloodIsDistinct()
    ensures DistinctKeys(Flood()) && Sorted(Flood()) && |Flood()| == SEEN_CAP + 1
  {
    var f := Flood();
    forall i, j | 0 <= i < j < |f|
      ensures KeyOf(f[i]) != KeyOf(f[j])
    {
      NamedApart(i, j);
    }
  }

  lemma NamedApart(i: nat, j: nat)
    requires i < j
    ensures KeyOf(Named(i)) != KeyOf(Named(j))
  {
    assert |seq(i + 1, _ => 'x')| == i + 1 && |seq(j + 1, _ => 'x')| == j + 1;
  }

  /** It happens: 10 001 events of one timestamp empty the memory, and when the first of
      them comes again it pushes a newer one out of the window. */
  lemma ForgottenRepeat()
    ensures var events := Flood() + [Named(0)];
      LiveAfter([], events, WINDOW, SEEN_CAP, |events|) != RightAfter([], events, WINDOW, |events|)
  {
    hide LiveAfter, RightAfter, Harmless, Flood, Named;
    var f := Flood();
    var events := f + [Named(0)];
    FloodIsDistinct();
    assert events[..|f|] == f;
    LiveUpToFlood(f, events);
    FirstComesAgain();
    StaysRightIff([], events, WINDOW, SEEN_CAP, |f|);
  }

  lemma FloodAt(i: nat)
    requires i <= SEEN_CAP
    ensures |Flood()| == SEEN_CAP + 1 && Flood()[i] == Named(i)
  {
    hide Named;
  }

  lemma FirstComesAgain()
    ensures |Flood()| == SEEN_CAP + 1
    ensures var events := Flood() + [Named(0)]; !Harmless([], events, WINDOW, SEEN_CAP, |Flood()|)
  {
    hide KeyOf, Screened, Ordered, Firsts, AtMost, Flood, Named, LastOf, Sorted, DistinctKeys;
    var f := Flood();
    var events := f + [Named(0)];
    FloodIsDistinct();
    FloodAt(0);
    assert events[..|f|] == f && [] + f == f;
    NothingSeen();
    MemoryEmpties([], f, SEEN_CAP);
    FloodWindow();
    assert f[0] in f;
    assert events[|f|] == Named(0);
  }

  lemma NothingSeen()
    ensures Keys([]) == {}
  {
  }

  lemma FloodWindow()
    ensures var f := Flood(); var w := LastOf(Ordered(Firsts(f)), WINDOW);
      && |f| == SEEN_CAP + 1 && w == f[|f| - WINDOW..]
      && w != [] && KeyOf(Named(0)) !in Keys(w) && AtMost(w[0].stamp, Named(0).stamp)
  {
    hide KeyOf, Firsts, Ordered, Flood, Named, AtMost, Sorted, DistinctKeys;
    var f := Flood();
    FloodIsDistinct();
    FirstsOfDistinct(f);
    OrderedKeepsSorted(f);
    var w := f[|f| - WINDOW..];
    forall x | x in w
      ensures KeyOf(x) != KeyOf(Named(0))
    {
      var i :| 0 <= i < |w| && w[i] == x;
      FloodAt(|f| - WINDOW + i);
      NamedApart(0, |f| - WINDOW + i);
    }
    FloodAt(|f| - WINDOW);
    SameStamp(|f| - WINDOW, 0);
  }

  lemma SameStamp(i: nat, j: nat)
    ensures AtMost(Named(i).stamp, Named(j).stamp)
  {
  }

  lemma LiveUpToFlood(f: seq<Event>, events: seq<Event>)
    requires DistinctKeys(f) && |f| <= |events| && events[..|f|] == f
    ensures LiveAfter([], events, WINDOW, SEEN_CAP, |f|) == RightAfter([], events, WINDOW, |f|)
  {
    hide KeyOf, Window, Screened;
    assert f[..|f|] == f && [] + f == f;
    LiveWindow([], f, WINDOW, SEEN_CAP, |f|);
    hide LiveAfter, RightAfter;
    SamePrefixSameWindow(f, events);
  }

  lemma SamePrefixSameWindow(f: seq<Event>, events: seq<Event>)
    requires |f| <= |events| && events[..|f|] == f
    ensures LiveAfter([], events, WINDOW, SEEN_CAP, |f|) == LiveAfter([], f, WINDOW, SEEN_CAP, |f|)
    ensures RightAfter([], events, WINDOW, |f|) == RightAfter([], f, WINDOW, |f|)
  {
    assert f[..|f|] == f;
    hide Window, Screened, Ordered, Firsts;
  }

  // ---- the newest records of a run -------------------------------------------------------

  /** The records of all files, oldest file first. */
  function Concatenated(paths: seq<seq<Event>>): seq<Event> {
    if paths == [] then [] else Concatenated(paths[..|paths| - 1]) + paths[|paths| - 1]
  }

  lemma {:induction false} ConcatenatedSplit(paths: seq<seq<Event>>, n: nat)
    requires n <= |paths|
    ensures Concatenated(paths) == Concatenated(paths[..n]) + Concatenated(paths[n..])
    decreases |paths|
  {
    if n == |paths| {
      assert paths[..n] == paths && paths[n..] == [];
      assert Concatenated(paths) + [] == Concatenated(paths);
    } else {
      var init, last := paths[..|paths| - 1], paths[|paths| - 1];
      ConcatenatedSplit(init, n);
      assert init[..n] == paths[..n];
      assert paths[n..][|paths| - 1 - n] == last && paths[n..][..|paths| - 1 - n] == init[n..];
      var a, b := Concatenated(init[..n]), Concatenated(init[n..]);
      assert Concatenated(paths[n..]) == b + last;
      assert (a + b) + last == a + (b + last);
    }
  }

  /** _run_store_events: the newest file first, until `limit` records are read. What comes
      out are the last `limit` records of all the files in order, or all of them for 0. */
  method RunStoreEvents(paths: seq<seq<Event>>, limit: nat) returns (records: seq<Event>)
    ensures records == LastOf(Concatenated(paths), limit)
  {
    records := [];
    if limit > 0 {
      var i := |paths|;
      assert paths[|paths|..] == [];
      while i > 0
        invariant 0 <= i <= |paths| && |records| < limit
        invariant records == Concatenated(paths[i..])
      {
        i := i - 1;
        TailStep(paths, i, limit);
        records := LastOf(paths[i], limit - |records|) + records;
        if |records| >= limit { return; }
      }
      assert paths[0..] == paths;
      return;
    }
    for i := 0 to |paths|
      invariant records == Concatenated(paths[..i])
    {
      assert paths[..i + 1][..i] == paths[..i];
      records := records + paths[i];
    }
    assert paths[..|paths|] == paths;
  }

  lemma TailStep(paths: seq<seq<Event>>, i: nat, limit: nat)
    requires i < |paths| && |Concatenated(paths[i + 1..])| < limit
    ensures var newer := Concatenated(paths[i + 1..]); var read := LastOf(paths[i], limit - |newer|) + newer;
      if |read| >= limit then read == LastOf(Concatenated(paths), limit) else read == Concatenated(paths[i..])
  {
    hide Concatenated, LastOf;
    ConcatenatedAt(paths, i);
    TailOfThree(Concatenated(paths[..i]), paths[i], Concatenated(paths[i + 1..]), limit);
  }

  lemma ConcatenatedAt(paths: seq<seq<Event>>, i: nat)
    requires i < |paths|
    ensures Concatenated(paths[i..]) == paths[i] + Concatenated(paths[i + 1..])
    ensures Concatenated(paths) == Concatenated(paths[..i]) + (paths[i] + Concatenated(paths[i + 1..]))
  {
    ConcatenatedSplit(paths, i);
    ConcatenatedSplit(paths[i..], 1);
    assert paths[i..][..1] == [paths[i]] && paths[i..][1..] == paths[i + 1..];
    ConcatenatedOne(paths[i]);
    hide Concatenated;
  }

  lemma ConcatenatedOne(file: seq<Event>)
    ensures Concatenated([file]) == file
  {
    assert [file][..0] == [];
    assert Concatenated([]) + file == file;
  }

  lemma TailOfThree(older: seq<Event>, file: seq<Event>, newer: seq<Event>, limit: nat)
    requires |newer| < limit
    ensures var read := LastOf(file, limit - |newer|) + newer;
      if |read| >= limit then read == LastOf(older + (file + newer), limit) else read == file + newer
  {
    var read := LastOf(file, limit - |newer|) + newer;
    var all := older + (file + newer);
    if |read| >= limit {
      assert |read| == limit;
      assert all[|all| - limit..] == read;
    }
  }
}
