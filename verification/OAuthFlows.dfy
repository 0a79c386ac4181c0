/** OAuth linking over the connection store: consents, codes and refresh tokens are
    exchanged in several transactions each, which interleave with one another, with
    revocations and with changes of the policy. */
module OAuthFlows {
  import opened OrderedDicts
  import opened ConnectionStores

  /** What a request is after: a code for a consent ticket, tokens for a code, or tokens
      with the same or fewer scopes for a refresh token. */
  datatype Purpose = Approval | CodeExchange(client: string) | Renewal(client: string, scopes: set<string>)

  function KindFor(p: Purpose): Kind {
    match p case Approval => Consent case CodeExchange(_) => Code case Renewal(_, _) => Refresh
  }

  /** A request between two transactions. `loaded` is the grant as first read, `taken` as consumed. */
  datatype Flow =
    | Authorizing(client: string, scopes: set<string>, resource: Url, job: string, generation: nat)
    | Found(key: string, loaded: Grant, purpose: Purpose)
    | Usable(key: string, loaded: Grant, purpose: Purpose)
    | Taken(key: string, loaded: Grant, taken: Grant, purpose: Purpose)
    | Issuing(key: string, loaded: Grant, taken: Grant, purpose: Purpose)
    | Completing(key: string, loaded: Grant, taken: Grant, purpose: Purpose)

  /** `record` and `ticketOf` are history variables: every grant of a flow ever issued, and
      the consent ticket it descends from. */
  datatype System = System(db: Db, now: int, flows: map<nat, Flow>, record: map<string, Grant>, ticketOf: map<string, string>)

  datatype Step =
    | Tick(seconds: nat)
    | Configure(job: string, enabled: bool, url: Url, key: string)
    | IssueInternal(job: string, key: string)
    | Register(key: string, data: Data)
    | Revoke(key: string)
    | Authorize(flow: nat, client: string, scopes: set<string>, resource: Url)
    | IssueTicket(flow: nat, key: string)
    | Lookup(flow: nat, key: string, purpose: Purpose)
    | Check(flow: nat)
    | Take(flow: nat)
    | Recheck(flow: nat)
    | IssueFirst(flow: nat, key: string)
    | IssueRefresh(flow: nat, key: string)
    | Abandon(flow: nat)

  const SCOPES: set<string> := {"co_worker:supervise", "offline_access"}

  function Drop(s: System, f: nat): System { s.(flows := s.flows - {f}) }

  /** Keys are random: one that was ever used is not drawn again. */
  predicate FreshKey(s: System, key: string) { key !in s.record && key !in s.db.grants }

  /** Who a flow acts for, checked when a grant is loaded and again when it was consumed. */
  predicate ClientMatches(p: Purpose, grant: Grant) {
    match p case Approval => true case CodeExchange(c) => grant.data.client == c case Renewal(c, _) => grant.data.client == c
  }

  /** The scopes the exchange hands on. */
  function ScopesFor(p: Purpose, loaded: Grant): set<string> { if p.Renewal? then p.scopes else loaded.data.scopes }

  function ClientFor(p: Purpose, loaded: Grant): string {
    match p case Approval => loaded.data.client case CodeExchange(c) => c case Renewal(c, _) => c
  }

  /** The grant an exchange issues: it names the consumed grant's Job and generation. */
  function NewGrant(kind: Kind, f: Flow, expires: int): Grant
    requires f.Issuing? || f.Completing?
  {
    Grant(kind, f.taken.job, f.taken.generation, expires,
          Data(ClientFor(f.purpose, f.loaded), ScopesFor(f.purpose, f.loaded), f.loaded.data.resource))
  }

  /** A key of ticket `root` enters the store and the history. */
  function Enter(s: System, key: string, grant: Grant, root: string): System {
    s.(db := Issued(s.db, s.now, key, grant), record := s.record[key := grant], ticketOf := s.ticketOf[key := root])
  }

  function Next(s: System, step: Step): System {
    match step
    case Tick(seconds) => s.(now := s.now + seconds)
    case Configure(job, enabled, url, key) => if url.job == job then s.(db := Configured(s.db, job, enabled, url, key)) else s
    case IssueInternal(job, key) =>
      if FreshKey(s, key) then s.(db := Issued(s.db, s.now, key, Grant(Internal, Some(job), 0, s.now + 86400, Data("", {}, Url("", job)))))
      else s
    case Register(key, data) =>
      if FreshKey(s, key) then s.(db := Issued(s.db, s.now, key, Grant(Client, None, 0, s.now + 315360000, data))) else s
    case Revoke(key) => s.(db := Consumed(s.db, key))
    case Authorize(f, client, scopes, resource) =>
      var policy := PolicyForResource(s.db, resource);
      if f in s.flows || policy.None? || SUPERVISE !in scopes || !(scopes <= SCOPES) then s
      else s.(flows := s.flows[f := Authorizing(client, scopes, resource, policy.value.0, policy.value.1.generation)])
    case IssueTicket(f, key) =>
      if f in s.flows && s.flows[f].Authorizing? && FreshKey(s, key) then
        var a := s.flows[f];
        Drop(Enter(s, key, Grant(Consent, Some(a.job), a.generation, s.now + 600, Data(a.client, a.scopes, a.resource)), key), f)
      else s
    case Lookup(f, key, purpose) =>
      var row := Selected(s.db, s.now, key, Some(KindFor(purpose)));
      if f in s.flows || row.None? then s else s.(flows := s.flows[f := Found(key, row.value, purpose)])
    case Check(f) =>
      if f in s.flows && s.flows[f].Found? then
        var x := s.flows[f];
        if Honoured(s.db, x.loaded) && ClientMatches(x.purpose, x.loaded)
           && (x.purpose.Renewal? ==> x.purpose.scopes <= x.loaded.data.scopes)
        then s.(flows := s.flows[f := Usable(x.key, x.loaded, x.purpose)]) else Drop(s, f)
      else s
    case Take(f) =>
      if f in s.flows && s.flows[f].Usable? then
        var x := s.flows[f];
        var row := Selected(s.db, s.now, x.key, Some(KindFor(x.purpose)));
        if row.None? then Drop(s, f)
        else s.(db := Consumed(s.db, x.key), flows := s.flows[f := Taken(x.key, x.loaded, row.value, x.purpose)])
      else s
    case Recheck(f) =>
      if f in s.flows && s.flows[f].Taken? then
        var x := s.flows[f];
        if Honoured(s.db, x.taken) && ClientMatches(x.purpose, x.taken)
        then s.(flows := s.flows[f := Issuing(x.key, x.loaded, x.taken, x.purpose)]) else Drop(s, f)
      else s
    case IssueFirst(f, key) =>
      if f in s.flows && s.flows[f].Issuing? && FreshKey(s, key) && s.flows[f].key in s.ticketOf then
        var x := s.flows[f];
        var root := s.ticketOf[x.key];
        if x.purpose.Approval? then Drop(Enter(s, key, NewGrant(Code, x, s.now + 120), root), f)
        else
          var t := Enter(s, key, NewGrant(Access, x, s.now + 3600), root);
          t.(flows := t.flows[f := Completing(x.key, x.loaded, x.taken, x.purpose)])
      else s
    case IssueRefresh(f, key) =>
      if f in s.flows && s.flows[f].Completing? && FreshKey(s, key) && s.flows[f].key in s.ticketOf then
        var x := s.flows[f];
        Drop(Enter(s, key, NewGrant(Refresh, x, s.now + 2592000), s.ticketOf[x.key]), f)
      else s
    case Abandon(f) => Drop(s, f)
  }

  function Run(s: System, steps: seq<Step>): System
    decreases |steps|
  {
    if steps == [] then s else Run(Next(s, steps[0]), steps[1..])
  }

  const Initial: System := System(Db(map[], map[]), 0, map[], map[], map[])

  // ---- the invariant ------------------------------------------------------------------

  predicate Flowing(kind: Kind) { kind == Consent || kind == Code || kind == Access || kind == Refresh }

  /** The kinds that can still be exchanged for something. */
  predicate Exchangeable(kind: Kind) { kind == Consent || kind == Code || kind == Refresh }

  /** A request that has consumed its grant and not yet issued the last of what it is for. */
  predicate Holds(f: Flow) { f.Taken? || f.Issuing? || f.Completing? }

  /** The key of the grant a request is about. */
  function KeyOf(f: Flow): string { if f.Authorizing? then "" else f.key }

  ghost predicate Generation(db: Db, job: string, generation: nat) {
    job in db.policies && generation <= db.policies[job].generation
  }

  /** The grants in the store are the recorded ones; other rows are internal or of clients. */
  ghost predicate RowsRecorded(s: System) {
    && (forall k | k in s.db.grants && Flowing(s.db.grants[k].kind) :: k in s.record && s.record[k] == s.db.grants[k])
    && (forall k | k in s.record && k in s.db.grants :: s.db.grants[k] == s.record[k])
  }

  /** Everything ever issued descends from a ticket, and is at most what the ticket allowed. */
  ghost predicate Descends(s: System, k: string) {
    && k in s.record && k in s.ticketOf && s.ticketOf[k] in s.record && Flowing(s.record[k].kind)
    && var t := s.record[s.ticketOf[k]]; var g := s.record[k];
       && t.kind == Consent && t.job.Some?
       && g.job == t.job && g.generation == t.generation
       && g.data.client == t.data.client && g.data.resource == t.data.resource && g.data.scopes <= t.data.scopes
       && Generation(s.db, t.job.value, t.generation)
  }

  ghost predicate FlowOk(s: System, f: Flow) {
    match f
    case Authorizing(client, scopes, resource, job, generation) => Generation(s.db, job, generation)
    case Found(k, loaded, p) => k in s.record && s.record[k] == loaded && loaded.kind == KindFor(p)
    case Usable(k, loaded, p) => Backed(s, k, loaded, p)
    case Taken(k, loaded, taken, p) => Backed(s, k, loaded, p) && taken == loaded && k !in s.db.grants
    case Issuing(k, loaded, taken, p) => Backed(s, k, loaded, p) && taken == loaded && k !in s.db.grants
    case Completing(k, loaded, taken, p) => Backed(s, k, loaded, p) && taken == loaded && k !in s.db.grants
  }

  ghost predicate Backed(s: System, k: string, loaded: Grant, p: Purpose) {
    && k in s.record && s.record[k] == loaded && loaded.kind == KindFor(p)
    && ClientMatches(p, loaded) && (p.Renewal? ==> p.scopes <= loaded.data.scopes)
  }

  ghost predicate Recorded(s: System) {
    && RowsRecorded(s)
    && (forall k | k in s.record :: Descends(s, k))
    && s.record.Keys == s.ticketOf.Keys
    && (forall f | f in s.flows :: FlowOk(s, s.flows[f]))
  }

  /** Of the keys and requests that could still produce something for one ticket, there is one. */
  ghost predicate Unspent(s: System, k: string) { k in s.db.grants && k in s.record && Exchangeable(s.record[k].kind) }

  ghost predicate OneHolder(s: System) {
    && (forall j, k | Unspent(s, j) && Unspent(s, k) && j in s.ticketOf && k in s.ticketOf && s.ticketOf[j] == s.ticketOf[k] :: j == k)
    && (forall f, k | f in s.flows && Holds(s.flows[f]) && Unspent(s, k) && KeyOf(s.flows[f]) in s.ticketOf && k in s.ticketOf ::
          s.ticketOf[KeyOf(s.flows[f])] != s.ticketOf[k])
    && (forall f, g | f in s.flows && g in s.flows && Holds(s.flows[f]) && Holds(s.flows[g])
          && KeyOf(s.flows[f]) in s.ticketOf && KeyOf(s.flows[g]) in s.ticketOf
          && s.ticketOf[KeyOf(s.flows[f])] == s.ticketOf[KeyOf(s.flows[g])] :: f == g)
  }

  ghost predicate Inv(s: System) { Recorded(s) && OneHolder(s) }

  // ---- every step keeps it ------------------------------------------------------------

  /** Policies only move to later generations; rows only go, unless they belong to no flow. */
  ghost predicate Benign(s: System, db: Db) {
    && (forall job | job in s.db.policies ::
          job in db.policies && s.db.policies[job].generation <= db.policies[job].generation)
    && (forall k | k in db.grants ::
          (k in s.db.grants && db.grants[k] == s.db.grants[k]) || (!Flowing(db.grants[k].kind) && k !in s.record))
  }

  lemma HoldersShrink(s: System, t: System)
    requires OneHolder(s) && t.ticketOf == s.ticketOf
    requires forall k | Unspent(t, k) :: Unspent(s, k)
    requires forall f | f in t.flows && Holds(t.flows[f]) :: f in s.flows && Holds(s.flows[f]) && KeyOf(s.flows[f]) == KeyOf(t.flows[f])
    ensures OneHolder(t)
  {
    hide Unspent, Holds;
  }

  lemma BenignDescent(s: System, db: Db, k: string)
    requires Descends(s, k) && Benign(s, db)
    ensures Descends(s.(db := db), k)
  {}

  lemma BenignFlow(s: System, db: Db, f: Flow)
    requires FlowOk(s, f) && Benign(s, db)
    ensures FlowOk(s.(db := db), f)
  {}

  lemma BenignKeepsInv(s: System, db: Db)
    requires Inv(s) && Benign(s, db)
    ensures Inv(s.(db := db))
  {
    hide Descends, FlowOk, OneHolder;
    var t := s.(db := db);
    forall k | k in t.record ensures Descends(t, k) { BenignDescent(s, db, k); }
    forall f | f in t.flows ensures FlowOk(t, t.flows[f]) { BenignFlow(s, db, s.flows[f]); }
    assert forall k | Unspent(t, k) :: Unspent(s, k);
    HoldersShrink(s, t);
  }

  lemma FlowsDoNotMatter(s: System, flows: map<nat, Flow>)
    ensures forall k | Descends(s, k) :: Descends(s.(flows := flows), k)
    ensures forall f | FlowOk(s, f) :: FlowOk(s.(flows := flows), f)
    ensures RowsRecorded(s) ==> RowsRecorded(s.(flows := flows))
  {}

  /** Flows may come, go or move on, as long as none starts to hold a grant. */
  lemma FlowsKeepInv(s: System, flows: map<nat, Flow>)
    requires Inv(s)
    requires forall f | f in flows :: FlowOk(s, flows[f])
    requires forall f | f in flows && Holds(flows[f]) :: f in s.flows && Holds(s.flows[f]) && KeyOf(s.flows[f]) == KeyOf(flows[f])
    ensures Inv(s.(flows := flows))
  {
    hide Descends, FlowOk, OneHolder, RowsRecorded, Holds;
    FlowsDoNotMatter(s, flows);
    HoldersShrink(s, s.(flows := flows));
  }

  lemma DropKeepsInv(s: System, f: nat)
    requires Inv(s)
    ensures Inv(Drop(s, f))
  {
    hide Descends, RowsRecorded, OneHolder, FlowOk, Holds;
    FlowsKeepInv(s, s.flows - {f});
  }

  /** Consuming: the key leaves the store, and the request holds it instead. */
  lemma TakeKeepsInv(s: System, f: nat)
    requires Inv(s)
    ensures Inv(Next(s, Take(f)))
  {
    hide Descends, FlowOk, OneHolder, RowsRecorded;
    if f in s.flows && s.flows[f].Usable? {
      var x := s.flows[f];
      var row := Selected(s.db, s.now, x.key, Some(KindFor(x.purpose)));
      if row.None? {
        DropKeepsInv(s, f);
      } else {
        UsableRow(s, f);
        var u := s.(db := Consumed(s.db, x.key));
        BenignKeepsInv(s, u.db);
        var taken := Taken(x.key, x.loaded, row.value, x.purpose);
        HoldersMove(s, f, taken);
        FlowsDoNotMatter(u, u.flows[f := taken]);
        TakenIsOk(s, f, taken);
      }
    }
  }

  lemma UsableRow(s: System, f: nat)
    requires Recorded(s) && f in s.flows && s.flows[f].Usable?
    ensures var x := s.flows[f];
      && x.key in s.record && s.record[x.key] == x.loaded && Exchangeable(x.loaded.kind)
      && (x.key in s.db.grants ==> s.db.grants[x.key] == x.loaded)
  {
    assert FlowOk(s, s.flows[f]);
  }

  lemma TakenIsOk(s: System, f: nat, taken: Flow)
    requires Recorded(s) && f in s.flows && s.flows[f].Usable?
    requires taken == Taken(KeyOf(s.flows[f]), s.flows[f].loaded, s.flows[f].loaded, s.flows[f].purpose)
    ensures FlowOk(s.(db := Consumed(s.db, taken.key)), taken)
  {
    assert FlowOk(s, s.flows[f]);
  }

  lemma HoldersMove(s: System, f: nat, taken: Flow)
    requires Recorded(s) && OneHolder(s) && f in s.flows && s.flows[f].Usable?
    requires taken.Taken? && taken.key == KeyOf(s.flows[f]) && Unspent(s, taken.key)
    ensures OneHolder(s.(db := Consumed(s.db, taken.key), flows := s.flows[f := taken]))
  {
    hide Descends, FlowOk, OneHolder, RowsRecorded;
    var t := s.(db := Consumed(s.db, taken.key), flows := s.flows[f := taken]);
    assert taken.key in s.ticketOf;
    assert forall k | Unspent(t, k) :: Unspent(s, k) && k != taken.key;
    MovedHolder(s, t, f, taken.key);
  }

  lemma MovedHolder(s: System, t: System, f: nat, key: string)
    requires OneHolder(s) && t.ticketOf == s.ticketOf && key in s.ticketOf && Unspent(s, key)
    requires forall k | Unspent(t, k) :: Unspent(s, k) && k != key
    requires f in t.flows && t.flows.Keys == s.flows.Keys && Holds(t.flows[f]) && KeyOf(t.flows[f]) == key
    requires forall g | g in t.flows && g != f :: t.flows[g] == s.flows[g]
    ensures OneHolder(t)
  {
    hide Unspent, Holds;
  }

  // ---- issuing ------------------------------------------------------------------------

  /** The grant is what its ticket allows: the ticket itself, or something below it. */
  ghost predicate Below(s: System, grant: Grant, ticket: Grant) {
    && Flowing(grant.kind) && ticket.kind == Consent && ticket.job.Some?
    && grant.job == ticket.job && grant.generation == ticket.generation
    && grant.data.client == ticket.data.client && grant.data.resource == ticket.data.resource
    && grant.data.scopes <= ticket.data.scopes
    && Generation(s.db, ticket.job.value, ticket.generation)
  }

  lemma EnterKeepsRecord(s: System, key: string, grant: Grant, root: string)
    requires Recorded(s) && FreshKey(s, key)
    requires if root == key then Below(s, grant, grant) else root in s.record && Below(s, grant, s.record[root])
    ensures Recorded(Enter(s, key, grant, root))
  {
    hide FlowOk, RowsRecorded, Descends, Flowing;
    var t := Enter(s, key, grant, root);
    forall k | k in t.record ensures Descends(t, k) {
      if k == key { EnteredDescends(s, key, grant, root); } else { OthersDescend(s, key, grant, root, k); }
    }
    forall f | f in t.flows ensures FlowOk(t, t.flows[f]) { OthersFlow(s, key, grant, root, s.flows[f]); }
    EnteredRows(s, key, grant, root);
  }

  lemma EnteredDescends(s: System, key: string, grant: Grant, root: string)
    requires Recorded(s) && FreshKey(s, key)
    requires if root == key then Below(s, grant, grant) else root in s.record && Below(s, grant, s.record[root])
    ensures Descends(Enter(s, key, grant, root), key)
  {
    hide FlowOk, RowsRecorded;
  }

  lemma OthersDescend(s: System, key: string, grant: Grant, root: string, k: string)
    requires Descends(s, k) && FreshKey(s, key)
    ensures Descends(Enter(s, key, grant, root), k)
  {}

  lemma OthersFlow(s: System, key: string, grant: Grant, root: string, f: Flow)
    requires FlowOk(s, f) && FreshKey(s, key)
    ensures FlowOk(Enter(s, key, grant, root), f)
  {}

  lemma EnteredRows(s: System, key: string, grant: Grant, root: string)
    requires RowsRecorded(s) && FreshKey(s, key)
    ensures RowsRecorded(Enter(s, key, grant, root))
  {}

  lemma EnteredUnspent(s: System, key: string, grant: Grant, root: string, flows: map<nat, Flow>)
    requires FreshKey(s, key)
    ensures forall k | Unspent(Enter(s, key, grant, root).(flows := flows), k) ::
      (k == key && Exchangeable(grant.kind)) || (k != key && Unspent(s, k))
    ensures key !in s.record
    ensures var t := Enter(s, key, grant, root);
      t.ticketOf == s.ticketOf[key := root] && t.flows == s.flows && t.(flows := s.flows) == t
  {}

  lemma HeldKeysRecorded(s: System)
    requires Recorded(s)
    ensures forall g | g in s.flows && Holds(s.flows[g]) :: KeyOf(s.flows[g]) in s.ticketOf
    ensures s.record.Keys == s.ticketOf.Keys
  {
    hide RowsRecorded, Descends;
    forall g | g in s.flows && Holds(s.flows[g]) ensures KeyOf(s.flows[g]) in s.ticketOf { FlowKeyRecorded(s, s.flows[g]); }
  }

  lemma FlowKeyRecorded(s: System, f: Flow)
    requires FlowOk(s, f) && s.record.Keys == s.ticketOf.Keys
    ensures f.Authorizing? || KeyOf(f) in s.ticketOf
  {}

  /** Issuing what a request holds for: an access token on the way, or the one thing that
      replaces what was consumed. */
  lemma IssuedHolder(s: System, t: System, f: nat, key: string, exchangeable: bool)
    requires OneHolder(s) && key !in s.ticketOf && f in s.flows && Holds(s.flows[f]) && KeyOf(s.flows[f]) in s.ticketOf
    requires t.ticketOf == s.ticketOf[key := s.ticketOf[KeyOf(s.flows[f])]]
    requires forall k | Unspent(t, k) :: (k == key && exchangeable) || (k != key && Unspent(s, k))
    requires t.flows.Keys <= s.flows.Keys && forall g | g in t.flows && g != f :: t.flows[g] == s.flows[g]
    requires exchangeable ==> f !in t.flows
    requires f in t.flows ==> Holds(t.flows[f]) && KeyOf(t.flows[f]) == KeyOf(s.flows[f])
    requires forall g | g in s.flows && Holds(s.flows[g]) :: KeyOf(s.flows[g]) in s.ticketOf
    ensures OneHolder(t)
  {
    hide Unspent, Holds, KeyOf;
  }

  /** What a request that holds a grant issues is below the ticket it descends from. */
  lemma NewGrantIsBelow(s: System, f: Flow, kind: Kind, expires: int)
    requires Recorded(s) && (f.Issuing? || f.Completing?) && FlowOk(s, f) && Flowing(kind)
    ensures f.key in s.ticketOf && s.ticketOf[f.key] in s.record
    ensures Below(s, NewGrant(kind, f, expires), s.record[s.ticketOf[f.key]])
  {
    hide RowsRecorded;
    FlowFacts(s, f);
    hide Recorded, FlowOk, Descends;
  }

  lemma FlowFacts(s: System, f: Flow)
    requires Recorded(s) && (f.Issuing? || f.Completing?) && FlowOk(s, f)
    ensures f.key in s.record && s.record[f.key] == f.loaded == f.taken && f.key in s.ticketOf && s.ticketOf[f.key] in s.record
    ensures var t := s.record[s.ticketOf[f.key]];
      && t.kind == Consent && t.job.Some? && f.loaded.job == t.job && f.loaded.generation == t.generation
      && f.loaded.data.client == t.data.client && f.loaded.data.resource == t.data.resource && f.loaded.data.scopes <= t.data.scopes
      && Generation(s.db, t.job.value, t.generation)
    ensures ClientMatches(f.purpose, f.loaded) && (f.purpose.Renewal? ==> f.purpose.scopes <= f.loaded.data.scopes)
  {
    hide RowsRecorded, Generation;
    assert Descends(s, f.key);
  }

  lemma IssueTicketKeepsInv(s: System, f: nat, key: string)
    requires Inv(s) && f in s.flows && s.flows[f].Authorizing? && FreshKey(s, key)
    ensures Inv(Next(s, IssueTicket(f, key)))
  {
    hide Descends, OneHolder, RowsRecorded;
    var a := s.flows[f];
    var grant := Grant(Consent, Some(a.job), a.generation, s.now + 600, Data(a.client, a.scopes, a.resource));
    assert FlowOk(s, a);
    EnterKeepsRecord(s, key, grant, key);
    TicketHolders(s, key, grant);
    DropKeepsInv(Enter(s, key, grant, key), f);
  }

  lemma TicketHolders(s: System, key: string, grant: Grant)
    requires Inv(s) && FreshKey(s, key)
    ensures OneHolder(Enter(s, key, grant, key))
  {
    hide FlowOk, RowsRecorded, Descends, Unspent, OneHolder, Enter, FreshKey, Exchangeable;
    var t := Enter(s, key, grant, key);
    EnteredUnspent(s, key, grant, key, s.flows);
    forall k | k in s.ticketOf ensures s.ticketOf[k] in s.record { TicketRecorded(s, k); }
    forall g | g in s.flows && Holds(s.flows[g]) ensures KeyOf(s.flows[g]) in s.ticketOf { FlowKeyRecorded(s, s.flows[g]); }
    NewTicketHolder(s, t, key);
  }

  lemma TicketRecorded(s: System, k: string)
    requires Descends(s, k)
    ensures s.ticketOf[k] in s.record
  {}

  lemma NewTicketHolder(s: System, t: System, key: string)
    requires OneHolder(s) && key !in s.ticketOf && t.ticketOf == s.ticketOf[key := key] && t.flows == s.flows
    requires forall k | Unspent(t, k) :: k == key || Unspent(s, k)
    requires forall k | k in s.ticketOf :: s.ticketOf[k] != key
    requires forall g | g in s.flows && Holds(s.flows[g]) :: KeyOf(s.flows[g]) in s.ticketOf
    ensures OneHolder(t)
  {
    hide Unspent;
  }

  lemma IssueKeepsInv(s: System, step: Step)
    requires Inv(s) && (step.IssueFirst? || step.IssueRefresh?)
    ensures Inv(Next(s, step))
  {
    hide Descends, OneHolder, RowsRecorded, FlowOk, NewGrant, Below;
    var f, key := step.flow, step.key;
    if step.IssueFirst? && f in s.flows && s.flows[f].Issuing? && FreshKey(s, key) && KeyOf(s.flows[f]) in s.ticketOf {
      var x := s.flows[f];
      if x.purpose.Approval? {
        IssueAndDrop(s, f, key, Code, s.now + 120);
      } else {
        var grant := NewGrant(Access, x, s.now + 3600);
        NewGrantIsBelow(s, x, Access, s.now + 3600);
        NewGrantKind(Access, x, s.now + 3600);
        var root := s.ticketOf[x.key];
        EnterKeepsRecord(s, key, grant, root);
        var c := Completing(x.key, x.loaded, x.taken, x.purpose);
        var t := Enter(s, key, grant, root);
        CompletingIsOk(t, x, c);
        FlowsDoNotMatter(t, s.flows[f := c]);
        EnteredUnspent(s, key, grant, root, s.flows[f := c]);
        HeldKeysRecorded(s);
        IssuedHolder(s, t.(flows := s.flows[f := c]), f, key, false);
      }
    } else if step.IssueRefresh? && f in s.flows && s.flows[f].Completing? && FreshKey(s, key) && KeyOf(s.flows[f]) in s.ticketOf {
      IssueAndDrop(s, f, key, Refresh, s.now + 2592000);
    }
  }

  lemma NewGrantKind(kind: Kind, f: Flow, expires: int)
    requires f.Issuing? || f.Completing?
    ensures NewGrant(kind, f, expires).kind == kind
  {}

  lemma CompletingIsOk(s: System, x: Flow, c: Flow)
    requires x.Issuing? && c == Completing(x.key, x.loaded, x.taken, x.purpose)
    ensures FlowOk(s, x) ==> FlowOk(s, c)
  {}

  lemma IssueAndDrop(s: System, f: nat, key: string, kind: Kind, expires: int)
    requires Inv(s) && FreshKey(s, key) && f in s.flows && (s.flows[f].Issuing? || s.flows[f].Completing?)
    requires KeyOf(s.flows[f]) in s.ticketOf && Flowing(kind)
    ensures Inv(Drop(Enter(s, key, NewGrant(kind, s.flows[f], expires), s.ticketOf[KeyOf(s.flows[f])]), f))
  {
    hide Descends, OneHolder, RowsRecorded, FlowOk, NewGrant, Below;
    var x := s.flows[f];
    var grant := NewGrant(kind, x, expires);
    NewGrantIsBelow(s, x, kind, expires);
    EnterKeepsRecord(s, key, grant, s.ticketOf[x.key]);
    var t := Enter(s, key, grant, s.ticketOf[x.key]);
    FlowsDoNotMatter(t, s.flows - {f});
    EnteredUnspent(s, key, grant, s.ticketOf[x.key], s.flows - {f});
    HeldKeysRecorded(s);
    IssuedHolder(s, t.(flows := s.flows - {f}), f, key, Exchangeable(grant.kind));
  }

  lemma CheckKeepsInv(s: System, f: nat)
    requires Inv(s) && f in s.flows && (s.flows[f].Found? || s.flows[f].Taken?)
    ensures Inv(Next(s, Check(f))) && Inv(Next(s, Recheck(f)))
  {
    hide Descends, OneHolder, RowsRecorded, Honoured;
    DropKeepsInv(s, f);
    var x := s.flows[f];
    assert FlowOk(s, x);
    if x.Found? {
      if ClientMatches(x.purpose, x.loaded) && (x.purpose.Renewal? ==> x.purpose.scopes <= x.loaded.data.scopes) {
        FlowsKeepInv(s, s.flows[f := Usable(x.key, x.loaded, x.purpose)]);
      }
    } else {
      FlowsKeepInv(s, s.flows[f := Issuing(x.key, x.loaded, x.taken, x.purpose)]);
    }
  }

  lemma OpeningKeepsInv(s: System, step: Step)
    requires Inv(s) && (step.Authorize? || step.Lookup?)
    ensures Inv(Next(s, step))
  {
    hide Descends, OneHolder;
    var t := Next(s, step);
    if t != s {
      assert FlowOk(s, t.flows[step.flow]);
      FlowsKeepInv(s, t.flows);
    }
  }

  lemma RowStepKeepsInv(s: System, step: Step)
    requires Inv(s) && (step.Configure? || step.IssueInternal? || step.Register? || step.Revoke?)
    ensures Inv(Next(s, step))
  {
    hide Descends, OneHolder, FlowOk, RowsRecorded;
    var t := Next(s, step);
    assert Benign(s, t.db);
    BenignKeepsInv(s, t.db);
  }

  lemma TickKeepsInv(s: System, seconds: nat)
    requires Inv(s)
    ensures Inv(s.(now := s.now + seconds))
  {
    hide Descends, FlowOk, RowsRecorded, OneHolder, Unspent;
    TimeDoesNotMatter(s, s.now + seconds);
    HoldersShrink(s, s.(now := s.now + seconds));
  }

  lemma TimeDoesNotMatter(s: System, now: int)
    ensures forall k | Descends(s, k) :: Descends(s.(now := now), k)
    ensures forall f | FlowOk(s, f) :: FlowOk(s.(now := now), f)
    ensures forall k | Unspent(s.(now := now), k) :: Unspent(s, k)
    ensures RowsRecorded(s) ==> RowsRecorded(s.(now := now))
  {}

  lemma StepKeepsInv(s: System, step: Step)
    requires Inv(s)
    ensures Inv(Next(s, step))
  {
    hide Recorded, OneHolder, Enter, NewGrant, Honoured, Selected, Configured;
    match step
    case Tick(seconds) => TickKeepsInv(s, seconds);
    case Configure(_, _, _, _) => RowStepKeepsInv(s, step);
    case IssueInternal(_, _) => RowStepKeepsInv(s, step);
    case Register(_, _) => RowStepKeepsInv(s, step);
    case Revoke(_) => RowStepKeepsInv(s, step);
    case Authorize(_, _, _, _) => OpeningKeepsInv(s, step);
    case Lookup(_, _, _) => OpeningKeepsInv(s, step);
    case IssueTicket(f, key) =>
      if f in s.flows && s.flows[f].Authorizing? && FreshKey(s, key) { IssueTicketKeepsInv(s, f, key); }
    case Check(f) => if f in s.flows && s.flows[f].Found? { CheckKeepsInv(s, f); }
    case Take(f) => TakeKeepsInv(s, f);
    case Recheck(f) => if f in s.flows && s.flows[f].Taken? { CheckKeepsInv(s, f); }
    case IssueFirst(_, _) => IssueKeepsInv(s, step);
    case IssueRefresh(_, _) => IssueKeepsInv(s, step);
    case Abandon(f) => DropKeepsInv(s, f);
  }

  lemma {:induction false} RunKeepsInv(s: System, steps: seq<Step>)
    requires Inv(s)
    ensures Inv(Run(s, steps))
    decreases |steps|
  {
    hide Inv, Next;
    if steps != [] {
      StepKeepsInv(s, steps[0]);
      RunKeepsInv(Next(s, steps[0]), steps[1..]);
    }
  }

  lemma InitialInv()
    ensures Inv(Initial)
  {}

  // ---- what that means ----------------------------------------------------------------

  /** From one state to a later one: generations do not fall back, and what was once
      issued stays what it was. */
  ghost predicate Later(s: System, t: System) {
    && (forall job | job in s.db.policies ::
          job in t.db.policies && s.db.policies[job].generation <= t.db.policies[job].generation)
    && (forall k | k in s.record :: k in t.record && t.record[k] == s.record[k])
    && (forall k | k in s.ticketOf :: k in t.ticketOf && t.ticketOf[k] == s.ticketOf[k])
  }

  lemma StepIsLater(s: System, step: Step)
    requires s.record.Keys == s.ticketOf.Keys
    ensures Later(s, Next(s, step))
  {
    hide Honoured, Selected, NewGrant;
    assert forall k :: k in s.record <==> k in s.ticketOf;
  }

  lemma {:induction false} RunIsLater(s: System, steps: seq<Step>)
    requires Inv(s)
    ensures Later(s, Run(s, steps))
    decreases |steps|
  {
    hide Next, OneHolder, Recorded;
    if steps != [] {
      HeldKeysRecorded(s);
      StepIsLater(s, steps[0]);
      StepKeepsInv(s, steps[0]);
      RunIsLater(Next(s, steps[0]), steps[1..]);
    }
  }

  /** Revocation is final. When `configure` commits a new generation for a Job, every
      ticket, code and token ever issued for it and every consent being authorized is of
      an earlier generation; and whatever happens afterwards, no policy check honours a
      grant of an earlier generation, even one that an exchange already under way inserts
      later, nor any that descends from an earlier ticket. */
  lemma RevocationIsFinal(s: System, job: string, enabled: bool, url: Url, key: string, steps: seq<Step>)
    requires Inv(s) && url.job == job
    ensures var t := Next(s, Configure(job, enabled, url, key)); var u := Run(t, steps);
      var generation := t.db.policies[job].generation;
      && (forall k | k in t.record && t.record[k].job == Some(job) :: t.record[k].generation < generation)
      && (forall f | f in t.flows && t.flows[f].Authorizing? && t.flows[f].job == job :: t.flows[f].generation < generation)
      && (forall k | k in u.record && u.record[k].job == Some(job) && u.record[k].generation < generation ::
            !Honoured(u.db, u.record[k]))
      && (forall k | k in u.record && u.record[k].job == Some(job) && k in u.ticketOf && u.ticketOf[k] in t.record ::
            !Honoured(u.db, u.record[k]))
  {
    hide OneHolder, Next, Run, FlowOk, RowsRecorded;
    var t := Next(s, Configure(job, enabled, url, key));
    var u := Run(t, steps);
    ConfigureRaises(s, job, enabled, url, key);
    StepKeepsInv(s, Configure(job, enabled, url, key));
    RunIsLater(t, steps);
    RunKeepsInv(t, steps);
    forall k | k in u.record ensures Descends(u, k) && Flowing(u.record[k].kind) {}
  }

  lemma ConfigureRaises(s: System, job: string, enabled: bool, url: Url, key: string)
    requires Recorded(s) && url.job == job
    ensures var t := Next(s, Configure(job, enabled, url, key));
      && job in t.db.policies && t.record == s.record
      && (forall k | k in t.record && t.record[k].job == Some(job) :: t.record[k].generation < t.db.policies[job].generation)
      && (forall f | f in t.flows && t.flows[f].Authorizing? && t.flows[f].job == job ::
            t.flows[f].generation < t.db.policies[job].generation)
  {
    hide RowsRecorded;
    forall k | k in s.record && s.record[k].job == Some(job) ensures Generation(s.db, job, s.record[k].generation) {
      assert Descends(s, k);
    }
    forall f | f in s.flows && s.flows[f].Authorizing? ensures Generation(s.db, s.flows[f].job, s.flows[f].generation) {
      assert FlowOk(s, s.flows[f]);
    }
  }

  /** In every run each code and token ever issued names the client, Job, generation and
      resource of the consent ticket it descends from, and no scope the ticket lacked. */
  lemma TokensStayWithinConsent(steps: seq<Step>, k: string)
    requires k in Run(Initial, steps).record
    ensures var s := Run(Initial, steps);
      && k in s.ticketOf && s.ticketOf[k] in s.record
      && var g := s.record[k]; var ticket := s.record[s.ticketOf[k]];
         && ticket.kind == Consent && g.job == ticket.job && g.generation == ticket.generation
         && g.data.client == ticket.data.client && g.data.resource == ticket.data.resource
         && g.data.scopes <= ticket.data.scopes
  {
    hide OneHolder, Next, Run, FlowOk, RowsRecorded;
    InitialInv();
    RunKeepsInv(Initial, steps);
    assert Descends(Run(Initial, steps), k);
  }

  /** In every run, of all the tickets, codes and refresh tokens in the store that descend
      from one consent there is at most one, and none while a request holds one it consumed. */
  lemma OneCredentialPerConsent(steps: seq<Step>, j: string, k: string, f: nat)
    requires var s := Run(Initial, steps);
      && Unspent(s, j) && Unspent(s, k) && j in s.ticketOf && k in s.ticketOf && s.ticketOf[j] == s.ticketOf[k]
    ensures j == k
    ensures var s := Run(Initial, steps);
      f in s.flows && Holds(s.flows[f]) && KeyOf(s.flows[f]) in s.ticketOf ==> s.ticketOf[KeyOf(s.flows[f])] != s.ticketOf[k]
  {
    hide Recorded, Next, Run, Unspent, Holds, KeyOf;
    InitialInv();
    RunKeepsInv(Initial, steps);
  }

  // ---- scopes only shrink -------------------------------------------------------------

  /** Of what descends from ticket `root`: everything newer than `before`, everything that
      can still be exchanged and everything being exchanged stays within `scopes`. */
  ghost predicate Within(s: System, root: string, scopes: set<string>, before: set<string>) {
    && (forall k | k in s.record && k in s.ticketOf && s.ticketOf[k] == root && (k !in before || Unspent(s, k)) ::
          s.record[k].data.scopes <= scopes)
    && (forall f | f in s.flows && Holds(s.flows[f]) && KeyOf(s.flows[f]) in s.ticketOf && s.ticketOf[KeyOf(s.flows[f])] == root ::
          KeyOf(s.flows[f]) in s.record && s.record[KeyOf(s.flows[f])].data.scopes <= scopes)
  }

  lemma NothingNewStaysWithin(s: System, t: System, root: string, scopes: set<string>, before: set<string>)
    requires Within(s, root, scopes, before) && t.record == s.record && t.ticketOf == s.ticketOf
    requires forall k | Unspent(t, k) :: Unspent(s, k)
    requires forall f | f in t.flows && Holds(t.flows[f]) ::
      (f in s.flows && Holds(s.flows[f]) && KeyOf(s.flows[f]) == KeyOf(t.flows[f])) || Unspent(s, KeyOf(t.flows[f]))
    ensures Within(t, root, scopes, before)
  {
    hide Holds, KeyOf;
    forall f | f in t.flows && Holds(t.flows[f]) && KeyOf(t.flows[f]) in t.ticketOf && t.ticketOf[KeyOf(t.flows[f])] == root
      ensures KeyOf(t.flows[f]) in t.record && t.record[KeyOf(t.flows[f])].data.scopes <= scopes {
      if Unspent(s, KeyOf(t.flows[f])) { assert KeyOf(t.flows[f]) in s.record; }
    }
  }

  /** The new key belongs to another ticket, or its scopes are within the bound already. */
  lemma NewKeyStaysWithin(s: System, t: System, key: string, grant: Grant, top: string, root: string, scopes: set<string>, before: set<string>)
    requires Within(s, root, scopes, before) && FreshKey(s, key) && root in s.record && s.record.Keys == s.ticketOf.Keys
    requires t == Enter(s, key, grant, top).(flows := t.flows)
    requires top == root ==> grant.data.scopes <= scopes
    requires forall f | f in t.flows && Holds(t.flows[f]) :: f in s.flows && Holds(s.flows[f]) && KeyOf(s.flows[f]) == KeyOf(t.flows[f])
    requires forall f | f in s.flows && Holds(s.flows[f]) :: KeyOf(s.flows[f]) in s.ticketOf
    ensures Within(t, root, scopes, before)
  {
    hide Holds, KeyOf, Unspent;
    EnteredUnspent(s, key, grant, top, t.flows);
  }

  lemma StepStaysWithin(s: System, step: Step, root: string, scopes: set<string>, before: set<string>)
    requires Inv(s) && root in s.record && Within(s, root, scopes, before)
    ensures Within(Next(s, step), root, scopes, before)
  {
    hide OneHolder, RowsRecorded, Descends, FlowOk, Within, Enter, NewGrant, Honoured, Selected;
    var t := Next(s, step);
    HeldKeysRecorded(s);
    match step
    case IssueTicket(f, key) =>
      if f in s.flows && s.flows[f].Authorizing? && FreshKey(s, key) {
        var a := s.flows[f];
        var grant := Grant(Consent, Some(a.job), a.generation, s.now + 600, Data(a.client, a.scopes, a.resource));
        EnterKeepsFlows(s, key, grant, key);
        NewKeyStaysWithin(s, t, key, grant, key, root, scopes, before);
      } else { NothingNewStaysWithin(s, t, root, scopes, before); }
    case IssueFirst(f, key) =>
      if f in s.flows && s.flows[f].Issuing? && FreshKey(s, key) && s.flows[f].key in s.ticketOf {
        var x := s.flows[f];
        var grant := if x.purpose.Approval? then NewGrant(Code, x, s.now + 120) else NewGrant(Access, x, s.now + 3600);
        EnterKeepsFlows(s, key, grant, s.ticketOf[x.key]);
        ExchangeShrinks(s, f, root, scopes, before);
        NewKeyStaysWithin(s, t, key, grant, s.ticketOf[x.key], root, scopes, before);
      } else { NothingNewStaysWithin(s, t, root, scopes, before); }
    case IssueRefresh(f, key) =>
      if f in s.flows && s.flows[f].Completing? && FreshKey(s, key) && s.flows[f].key in s.ticketOf {
        var x := s.flows[f];
        var grant := NewGrant(Refresh, x, s.now + 2592000);
        EnterKeepsFlows(s, key, grant, s.ticketOf[x.key]);
        ExchangeShrinks(s, f, root, scopes, before);
        NewKeyStaysWithin(s, t, key, grant, s.ticketOf[x.key], root, scopes, before);
      } else { NothingNewStaysWithin(s, t, root, scopes, before); }
    case Take(f) => TakeStaysWithin(s, f, root, scopes, before);
    case _ => OtherStepsStayWithin(s, step, root, scopes, before);
  }

  lemma EnterKeepsFlows(s: System, key: string, grant: Grant, root: string)
    ensures Enter(s, key, grant, root).flows == s.flows
  {}

  /** What an exchange hands on is no more than what it consumed. */
  lemma ExchangeShrinks(s: System, f: nat, root: string, scopes: set<string>, before: set<string>)
    requires Inv(s) && Within(s, root, scopes, before) && f in s.flows && (s.flows[f].Issuing? || s.flows[f].Completing?)
    ensures var x := s.flows[f];
      forall kind, expires :: x.key in s.ticketOf && s.ticketOf[x.key] == root ==> NewGrant(kind, x, expires).data.scopes <= scopes
  {
    hide OneHolder, RowsRecorded, Descends;
    assert FlowOk(s, s.flows[f]);
    assert KeyOf(s.flows[f]) == s.flows[f].key && Holds(s.flows[f]);
  }

  lemma TakeStaysWithin(s: System, f: nat, root: string, scopes: set<string>, before: set<string>)
    requires Inv(s) && Within(s, root, scopes, before)
    ensures Within(Next(s, Take(f)), root, scopes, before)
  {
    hide OneHolder, RowsRecorded, Descends, FlowOk, Within;
    if f in s.flows && s.flows[f].Usable? { UsableRow(s, f); }
    NothingNewStaysWithin(s, Next(s, Take(f)), root, scopes, before);
  }

  lemma OtherStepsStayWithin(s: System, step: Step, root: string, scopes: set<string>, before: set<string>)
    requires Recorded(s) && Within(s, root, scopes, before)
    requires !step.IssueTicket? && !step.IssueFirst? && !step.IssueRefresh? && !step.Take?
    ensures Within(Next(s, step), root, scopes, before)
  {
    hide Recorded, Within, Honoured, Selected;
    NothingNewStaysWithin(s, Next(s, step), root, scopes, before);
  }

  /** A bound on the scopes of what a ticket can still lead to holds in every run. */
  lemma {:induction false} ScopesOnlyShrink(s: System, steps: seq<Step>, root: string, scopes: set<string>, before: set<string>)
    requires Inv(s) && root in s.record && Within(s, root, scopes, before)
    ensures Within(Run(s, steps), root, scopes, before)
    decreases |steps|
  {
    hide Inv, Next, Within;
    if steps != [] {
      StepKeepsInv(s, steps[0]);
      StepStaysWithin(s, steps[0], root, scopes, before);
      assert root in Next(s, steps[0]).record by { RecordGrows(s, steps[0]); }
      ScopesOnlyShrink(Next(s, steps[0]), steps[1..], root, scopes, before);
    }
  }

  lemma RecordGrows(s: System, step: Step)
    requires Inv(s)
    ensures s.record.Keys <= Next(s, step).record.Keys
  {
    hide Next, OneHolder;
    StepIsLater(s, step);
  }

  /** Along a renewal chain scopes only shrink: whatever is issued under a consent after a
      moment at which some credential k of it is unspent has no scope that k lacks. */
  lemma RenewalsNeverWiden(s: System, steps: seq<Step>, k: string, later: string)
    requires Inv(s) && Unspent(s, k) && k in s.ticketOf
    requires var u := Run(s, steps); later in u.record && later in u.ticketOf && u.ticketOf[later] == s.ticketOf[k]
    requires later !in s.record
    ensures Run(s, steps).record[later].data.scopes <= s.record[k].data.scopes
  {
    hide Next, Run, Inv;
    CredentialBounds(s, k);
    ScopesOnlyShrink(s, steps, s.ticketOf[k], s.record[k].data.scopes, s.record.Keys);
  }

  lemma CredentialBounds(s: System, k: string)
    requires Inv(s) && Unspent(s, k) && k in s.ticketOf
    ensures s.ticketOf[k] in s.record && Within(s, s.ticketOf[k], s.record[k].data.scopes, s.record.Keys)
  {
    hide RowsRecorded, FlowOk, Descends, Unspent, Holds, KeyOf;
    UnspentRecorded(s, k);
    TicketRecorded(s, k);
    assert forall j | Unspent(s, j) && j in s.ticketOf && s.ticketOf[j] == s.ticketOf[k] :: j == k;
  }

  lemma UnspentRecorded(s: System, k: string)
    requires Recorded(s) && Unspent(s, k)
    ensures k in s.record && Descends(s, k)
  {}
}
