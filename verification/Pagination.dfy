/** Snapshot pagination: the first request fixes the order of the records, and tokens lead
    through that order while records are inserted, modified and deleted. */
module Pagination {
  import opened OrderedDicts

  const MAX_PAGE_SIZE := 200

  datatype Record = Record(id: string, key: int, content: string)

  /** What a token is bound to; `filters` stands for the hash of the filters. */
  datatype Request = Request(route: string, principal: string, filters: string, sortKey: string)

  datatype Cursor = Cursor(request: Request, offset: nat, snapshot: seq<string>, expiresAt: int)

  /** A page, or an error 400. */
  datatype Outcome = Page(items: seq<Record>, token: Option<string>) | BadSize | UnknownToken | OtherRequest

  type Tokens = OrderedDict<string, Cursor>

  // ---- sorting ------------------------------------------------------------------------

  predicate InOrder(a: Record, b: Record, reverse: bool) { if reverse then a.key >= b.key else a.key <= b.key }

  function Insert(s: seq<Record>, x: Record, reverse: bool): (r: seq<Record>)
    ensures |r| == |s| + 1
    ensures multiset(r) == multiset(s) + multiset{x}
  {
    if s == [] then [x] else
      var last, init := s[|s| - 1], s[..|s| - 1];
      assert s == init + [last];
      if InOrder(last, x, reverse) then s + [x] else Insert(init, x, reverse) + [last]
  }

  /** sorted(records, key=key, reverse=reverse), which is stable either way. */
  function Sorted(records: seq<Record>, reverse: bool): (r: seq<Record>)
    ensures |r| == |records|
    ensures multiset(r) == multiset(records)
  {
    if records == [] then [] else
      var init := records[..|records| - 1];
      assert records == init + [records[|records| - 1]];
      Insert(Sorted(init, reverse), records[|records| - 1], reverse)
  }

  ghost predicate Ascends(s: seq<Record>, reverse: bool) {
    forall i, j | 0 <= i < j < |s| :: InOrder(s[i], s[j], reverse)
  }

  lemma {:induction false} InsertAscends(s: seq<Record>, x: Record, reverse: bool)
    requires Ascends(s, reverse)
    ensures Ascends(Insert(s, x, reverse), reverse)
    decreases |s|
  {
    if s != [] && !InOrder(s[|s| - 1], x, reverse) {
      var last, init := s[|s| - 1], s[..|s| - 1];
      assert s == init + [last];
      InsertAscends(init, x, reverse);
      var r := Insert(init, x, reverse);
      forall y | y in r
        ensures InOrder(y, last, reverse)
      {
        assert y in multiset(r);
        if y != x { assert y in init; }
      }
    }
  }

  /** The pages follow the order of the sort key. */
  lemma {:induction false} SortedAscends(records: seq<Record>, reverse: bool)
    ensures Ascends(Sorted(records, reverse), reverse)
    decreases |records|
  {
    if records != [] {
      SortedAscends(records[..|records| - 1], reverse);
      InsertAscends(Sorted(records[..|records| - 1], reverse), records[|records| - 1], reverse);
    }
  }

  // ---- one request ----------------------------------------------------------------------

  function Ids(s: seq<Record>): (r: seq<string>)
    ensures |r| == |s| && forall i | 0 <= i < |s| :: r[i] == s[i].id
  {
    seq(|s|, i requires 0 <= i < |s| => s[i].id)
  }

  function IdSet(s: seq<Record>): set<string> { set x | x in s :: x.id }

  /** by_identity[id]: of several records with one id the last. */
  function ById(s: seq<Record>, id: string): (r: Record)
    requires id in IdSet(s)
    ensures r in s && r.id == id
  {
    if s[|s| - 1].id == id then s[|s| - 1]
    else
      assert s == s[..|s| - 1] + [s[|s| - 1]];
      ById(s[..|s| - 1], id)
  }

  /** It is the last one of its id. */
  lemma {:induction false} ByIdIsLast(s: seq<Record>, id: string)
    requires id in IdSet(s)
    ensures exists j | 0 <= j < |s| && s[j] == ById(s, id) :: forall k | j < k < |s| :: s[k].id != id
  {
    var n := |s| - 1;
    if s[n].id == id {
      assert s[n] == ById(s, id);
    } else {
      assert s == s[..n] + [s[n]];
      ByIdIsLast(s[..n], id);
      var j :| 0 <= j < n && s[..n][j] == ById(s[..n], id) && forall k | j < k < n :: s[..n][k].id != id;
      assert s[j] == ById(s, id);
      forall k | j < k < |s|
        ensures s[k].id != id
      {
        if k < n { assert s[..n][k] == s[k]; }
      }
    }
  }

  /** The ids of the snapshot that are still there, in its order. */
  function Live(snapshot: seq<string>, present: set<string>): (r: seq<string>)
    ensures |r| <= |snapshot|
    ensures forall id | id in r :: id in present && id in snapshot
  {
    if snapshot == [] then [] else
      Live(snapshot[..|snapshot| - 1], present)
      + if snapshot[|snapshot| - 1] in present then [snapshot[|snapshot| - 1]] else []
  }

  /** The records of the ids. */
  function Fetch(records: seq<Record>, ids: seq<string>): (r: seq<Record>)
    requires forall id | id in ids :: id in IdSet(records)
    ensures Ids(r) == ids && forall x | x in r :: x in records
  {
    seq(|ids|, i requires 0 <= i < |ids| => ById(records, ids[i]))
  }

  function Slice<T>(s: seq<T>, offset: nat, size: nat): (r: seq<T>)
    ensures |r| == if offset >= |s| then 0 else if offset + size <= |s| then size else |s| - offset
    ensures forall i | 0 <= i < |r| :: offset + i < |s| && r[i] == s[offset + i]
  {
    if offset >= |s| then [] else if offset + size <= |s| then s[offset..offset + size] else s[offset..]
  }

  function ExpiredAt(now: int): Cursor -> bool { (c: Cursor) => c.expiresAt <= now }

  function Issued(tokens: Tokens, token: string, cursor: Cursor, now: int, maximum: nat): Tokens {
    Shortened(PrunedOf(tokens, ExpiredAt(now)).Put(token, cursor), maximum)
  }

  datatype Resolution = Resolved(cursor: Cursor) | Unknown | Mismatch

  function Resolve(tokens: Tokens, token: string, request: Request, now: int): (Tokens, Resolution) {
    var pruned := PrunedOf(tokens, ExpiredAt(now));
    if token !in pruned.vals then (pruned, Unknown)
    else (pruned.MoveToEnd(token), if pruned.vals[token].request == request then Resolved(pruned.vals[token]) else Mismatch)
  }

  /** One call of page; `drawn` is the random token it may issue, `now` and `later` the
      clock as read by resolve and by issue. */
  datatype Call = Call(records: seq<Record>, request: Request, size: int, token: string, reverse: bool,
                       drawn: string, now: int, later: int)

  /** The part of page from the slice on, over the order `ordered`. */
  function Cut(tokens: Tokens, c: Call, ordered: seq<Record>, offset: nat, snapshot: seq<string>, ttl: int, maximum: nat): (Tokens, Outcome)
    requires 1 <= c.size
  {
    var items := Slice(ordered, offset, c.size);
    var next := offset + |items|;
    if next < |ordered| then
      (Issued(tokens, c.drawn, Cursor(c.request, next, snapshot, c.later + ttl), c.later, maximum), Page(items, Some(c.drawn)))
    else (tokens, Page(items, None))
  }

  function Served(tokens: Tokens, c: Call, ttl: int, maximum: nat): (Tokens, Outcome) {
    if c.size < 1 || c.size > MAX_PAGE_SIZE then (tokens, BadSize)
    else
      var ordered := Sorted(c.records, c.reverse);
      if c.token == "" then Cut(tokens, c, ordered, 0, Ids(ordered), ttl, maximum)
      else
        var (rest, resolution) := Resolve(tokens, c.token, c.request, c.now);
        match resolution
        case Unknown => (rest, UnknownToken)
        case Mismatch => (rest, OtherRequest)
        case Resolved(cursor) =>
          Cut(rest, c, Fetch(ordered, Live(cursor.snapshot, IdSet(ordered))), cursor.offset, cursor.snapshot, ttl, maximum)
  }

  class PageTokenRegistry {
    const ttl: int
    const maximum: nat
    var tokens: Tokens

    constructor (ttl: int, maximum: nat)
      ensures tokens == Empty() && tokens.Valid() && this.ttl == ttl && this.maximum == maximum
    {
      this.ttl, this.maximum := ttl, maximum;
      tokens := Empty();
    }

    method Prune(now: int)
      requires tokens.Valid()
      modifies this
      ensures tokens == PrunedOf(old(tokens), ExpiredAt(now)) && tokens.Valid()
    {
      PrunedOfExact(tokens, ExpiredAt(now));
      var expired := KeysWhere(tokens, tokens.keys, ExpiredAt(now));
      var i := 0;
      while i < |expired|
        invariant 0 <= i <= |expired|
        invariant RemoveAll(tokens, expired[i..]) == PrunedOf(old(tokens), ExpiredAt(now))
      {
        assert expired[i..][1..] == expired[i + 1..];
        tokens := tokens.Remove(expired[i]);
        i := i + 1;
      }
    }

    method Issue(token: string, cursor: Cursor, now: int)
      requires tokens.Valid()
      modifies this
      ensures tokens == Issued(old(tokens), token, cursor, now, maximum) && tokens.Valid()
    {
      Prune(now);
      PutValid(tokens, token, cursor);
      tokens := tokens.Put(token, cursor);
      while |tokens.keys| > maximum
        invariant tokens.Valid()
        invariant Shortened(tokens, maximum) == Issued(old(tokens), token, cursor, now, maximum)
        decreases |tokens.keys|
      {
        RemoveValid(tokens, tokens.keys[0]);
        HeadShrinks(tokens.keys);
        tokens := tokens.Remove(tokens.keys[0]);
      }
    }

    method ResolveToken(token: string, request: Request, now: int) returns (r: Resolution)
      requires tokens.Valid()
      modifies this
      ensures (tokens, r) == Resolve(old(tokens), token, request, now) && tokens.Valid()
    {
      Prune(now);
      if token !in tokens.vals { return Unknown; }
      var cursor := tokens.vals[token];
      MoveToEndValid(tokens, token);
      tokens := tokens.MoveToEnd(token);
      return if cursor.request == request then Resolved(cursor) else Mismatch;
    }

    /** page */
    method PageOf(c: Call) returns (r: Outcome)
      requires tokens.Valid()
      modifies this
      ensures (tokens, r) == Served(old(tokens), c, ttl, maximum) && tokens.Valid()
    {
      hide PrunedOf, Shortened;
      if c.size < 1 || c.size > MAX_PAGE_SIZE { return BadSize; }
      var ordered := Sorted(c.records, c.reverse);
      var offset, snapshot := 0, Ids(ordered);
      if c.token != "" {
        var resolution := ResolveToken(c.token, c.request, c.now);
        if resolution == Unknown { return UnknownToken; }
        if resolution == Mismatch { return OtherRequest; }
        offset, snapshot := resolution.cursor.offset, resolution.cursor.snapshot;
        ordered := Fetch(ordered, Live(snapshot, IdSet(ordered)));
      }
      var items := Slice(ordered, offset, c.size);
      var next := offset + |items|;
      if next >= |ordered| { return Page(items, None); }
      Issue(c.drawn, Cursor(c.request, next, snapshot, c.later + ttl), c.later);
      return Page(items, Some(c.drawn));
    }
  }
}
