/** What consents, codes and tokens allow, exactly: the scopes each is issued with, and how
    long an access token is honoured. */
module OAuthScopes {
  import opened OrderedDicts
  import opened ConnectionStores
  import opened OAuthFlows

  // ---- what is issued -----------------------------------------------------------------------

  /** A ticket is its own and allows to supervise; a code has exactly its ticket's scopes. */
  ghost predicate KeyOk(s: System, k: string) {
    && k in s.record && k in s.ticketOf && s.ticketOf[k] in s.record
    && (s.record[k].kind == Consent ==> s.ticketOf[k] == k && SUPERVISE in s.record[k].data.scopes)
    && (s.record[k].kind == Code ==>
          var ticket := s.record[s.ticketOf[k]]; ticket.kind == Consent && s.record[k].data.scopes == ticket.data.scopes)
  }

  ghost predicate StageOk(f: Flow) {
    (f.Authorizing? ==> SUPERVISE in f.scopes) && (f.Completing? ==> !f.purpose.Approval?)
  }

  ghost predicate ConsentsOk(s: System) {
    (forall k | k in s.record :: KeyOk(s, k)) && (forall f | f in s.flows :: StageOk(s.flows[f]))
  }

  /** The grant issued under `key` by the flow of an authorization: the ticket of the request. */
  ghost predicate IsTicket(a: Flow, grant: Grant, now: int)
    requires a.Authorizing?
  {
    && grant.kind == Consent && grant.job == Some(a.job) && grant.generation == a.generation && grant.expires == now + 600
    && grant.data.client == a.client && grant.data.scopes == a.scopes && grant.data.resource == a.resource
  }

  /** The grant issued for `from`: for a ticket a code of the same scopes, for a code tokens of
      the same scopes, for a refresh token tokens of the scopes asked for. */
  ghost predicate IsExchange(purpose: Purpose, from: Grant, grant: Grant, now: int, first: bool) {
    && grant.job == from.job && grant.generation == from.generation
    && grant.data.client == from.data.client && grant.data.resource == from.data.resource
    && match purpose
       case Approval => from.kind == Consent && first && grant.kind == Code && grant.expires == now + 120 && grant.data.scopes == from.data.scopes
       case CodeExchange(_) => from.kind == Code && IsToken(grant, now, first) && grant.data.scopes == from.data.scopes
       case Renewal(_, scopes) =>
         from.kind == Refresh && IsToken(grant, now, first) && grant.data.scopes == scopes && scopes <= from.data.scopes
  }

  ghost predicate IsToken(grant: Grant, now: int, first: bool) {
    if first then grant.kind == Access && grant.expires == now + 3600 else grant.kind == Refresh && grant.expires == now + 2592000
  }

  /** The flow of `step` issued `key` between s and t. */
  ghost predicate IssuedBy(s: System, t: System, step: Step, key: string)
    requires key in t.record
  {
    match step
    case IssueTicket(f, k) =>
      && k == key && f in s.flows && s.flows[f].Authorizing?
      && IsTicket(s.flows[f], t.record[key], s.now) && key in t.ticketOf && t.ticketOf[key] == key
    case IssueFirst(f, k) => k == key && IssuedInExchange(s, t, f, key, true)
    case IssueRefresh(f, k) => k == key && IssuedInExchange(s, t, f, key, false)
    case _ => false
  }

  ghost predicate IssuedInExchange(s: System, t: System, f: nat, key: string, first: bool)
    requires key in t.record
  {
    && f in s.flows && (s.flows[f].Issuing? || s.flows[f].Completing?)
    && var x := s.flows[f];
       && x.key in s.record && IsExchange(x.purpose, s.record[x.key], t.record[key], s.now, first)
       && x.key in s.ticketOf && key in t.ticketOf && t.ticketOf[key] == s.ticketOf[x.key]
  }

  /** Whatever enters the history in a run is a ticket as requested, or what its exchange is
      for: codes and tokens have exactly the scopes of what was consumed, tokens of a
      renewal exactly the scopes asked for, each with its lifetime. */
  lemma IssuedIsExact(s: System, step: Step, key: string)
    requires Inv(s) && ConsentsOk(s) && key !in s.record && key in Next(s, step).record
    ensures IssuedBy(s, Next(s, step), step, key)
  {
    hide Inv, Next, ConsentsOk, IssuedInExchange;
    OnlyIssuesEnter(s, step, key);
    if step.IssueTicket? { TicketIsExact(s, step.flow, key); } else { ExchangeIsExact(s, Next(s, step), step, key); }
  }

  lemma OnlyIssuesEnter(s: System, step: Step, key: string)
    requires key !in s.record && key in Next(s, step).record
    ensures (step.IssueTicket? || step.IssueFirst? || step.IssueRefresh?) && step.key == key && step.flow in s.flows
    ensures match step
      case IssueTicket(f, _) => s.flows[f].Authorizing?
      case IssueFirst(f, _) => s.flows[f].Issuing?
      case _ => s.flows[step.flow].Completing?
  {
    hide NewGrant, Honoured, Selected, FreshKey, ConnectionStores.Issued, Configured;
  }

  lemma TicketIsExact(s: System, f: nat, key: string)
    requires f in s.flows && s.flows[f].Authorizing? && key !in s.record && key in Next(s, IssueTicket(f, key)).record
    ensures var t := Next(s, IssueTicket(f, key));
      IsTicket(s.flows[f], t.record[key], s.now) && key in t.ticketOf && t.ticketOf[key] == key
  {
    hide FreshKey, ConnectionStores.Issued;
  }

  lemma ExchangeIsExact(s: System, t: System, step: Step, key: string)
    requires Inv(s) && ConsentsOk(s) && t == Next(s, step) && key !in s.record && key in t.record
    requires (step.IssueFirst? || step.IssueRefresh?) && step.key == key
    requires (step.IssueFirst? && step.flow in s.flows && s.flows[step.flow].Issuing?)
             || (step.IssueRefresh? && step.flow in s.flows && s.flows[step.flow].Completing?)
    ensures IssuedInExchange(s, t, step.flow, key, step.IssueFirst?)
  {
    hide Inv, Next, KeyOk, FlowOk, Recorded;
    var x := s.flows[step.flow];
    ExchangeEnters(s, t, step, key);
    FlowIsOk(s, step.flow);
    assert StageOk(x);
    FlowFacts(s, x);
  }

  lemma FlowIsOk(s: System, f: nat)
    requires Inv(s) && f in s.flows
    ensures FlowOk(s, s.flows[f]) && Recorded(s)
    ensures s.flows[f].Issuing? || s.flows[f].Completing? ==> s.flows[f].loaded.kind == KindFor(s.flows[f].purpose)
  {
    hide OneHolder, RowsRecorded, Descends;
  }

  lemma ExchangeEnters(s: System, t: System, step: Step, key: string)
    requires t == Next(s, step) && key !in s.record && key in t.record && (step.IssueFirst? || step.IssueRefresh?) && step.key == key
    requires step.flow in s.flows && (s.flows[step.flow].Issuing? || s.flows[step.flow].Completing?)
    ensures var x := s.flows[step.flow];
      && x.key in s.ticketOf && key in t.ticketOf && t.ticketOf[key] == s.ticketOf[x.key]
      && t.record[key] == if step.IssueRefresh? then NewGrant(Refresh, x, s.now + 2592000)
                          else if x.purpose.Approval? then NewGrant(Code, x, s.now + 120) else NewGrant(Access, x, s.now + 3600)
  {
    hide FreshKey, ConnectionStores.Issued, NewGrant;
  }

  lemma StepKeepsConsents(s: System, step: Step)
    requires Inv(s) && ConsentsOk(s)
    ensures ConsentsOk(Next(s, step))
  {
    hide Next, Recorded, OneHolder, StageOk, KeyOk;
    var t := Next(s, step);
    KeysAreRecorded(s);
    StepIsLater(s, step);
    forall k | k in t.record
      ensures KeyOk(t, k)
    {
      if k in s.record { KeyStaysOk(s, t, k); } else { NewKeyIsOk(s, t, step, k); }
    }
    StagesStayOk(s, step);
  }

  lemma KeysAreRecorded(s: System)
    requires Recorded(s)
    ensures s.record.Keys == s.ticketOf.Keys
  {
    hide RowsRecorded, Descends, FlowOk;
  }

  lemma LaterKeeps(s: System, t: System)
    requires Later(s, t)
    ensures forall k | k in s.record :: k in t.record && t.record[k] == s.record[k]
    ensures forall k | k in s.ticketOf :: k in t.ticketOf && t.ticketOf[k] == s.ticketOf[k]
  {
  }

  lemma KeyStaysOk(s: System, t: System, k: string)
    requires Later(s, t) && KeyOk(s, k)
    ensures KeyOk(t, k)
  {
  }

  lemma NewKeyIsOk(s: System, t: System, step: Step, key: string)
    requires Inv(s) && ConsentsOk(s) && t == Next(s, step) && key !in s.record && key in t.record && Later(s, t)
    ensures KeyOk(t, key)
  {
    hide Inv, Next, Later;
    IssuedIsExact(s, step, key);
    LaterKeeps(s, t);
    if step.IssueFirst? { assert KeyOk(s, s.flows[step.flow].key); }
  }

  lemma StagesStayOk(s: System, step: Step)
    requires ConsentsOk(s)
    ensures forall f | f in Next(s, step).flows :: StageOk(Next(s, step).flows[f])
  {
    hide KeyOk, Honoured, Selected, NewGrant, Enter;
    var t := Next(s, step);
    if step.IssueTicket? || step.IssueFirst? || step.IssueRefresh? { EnteringKeepsFlows(s); }
  }

  lemma EnteringKeepsFlows(s: System)
    ensures forall key, grant, root :: Enter(s, key, grant, root).flows == s.flows
  {
  }

  lemma {:induction false} RunKeepsConsents(s: System, steps: seq<Step>)
    requires Inv(s) && ConsentsOk(s)
    ensures Inv(Run(s, steps)) && ConsentsOk(Run(s, steps))
    decreases |steps|
  {
    hide Inv, ConsentsOk, Next;
    if steps != [] {
      StepKeepsInv(s, steps[0]);
      StepKeepsConsents(s, steps[0]);
      RunKeepsConsents(Next(s, steps[0]), steps[1..]);
    }
  }

  lemma InitialConsents()
    ensures Inv(Initial) && ConsentsOk(Initial)
  {
    InitialInv();
  }

  /** In every run a code has exactly the scopes of its ticket, and every ticket allows to
      supervise. */
  lemma CodesHaveTheirTicketsScopes(steps: seq<Step>, k: string)
    requires k in Run(Initial, steps).record
    ensures var s := Run(Initial, steps);
      && k in s.ticketOf && s.ticketOf[k] in s.record && SUPERVISE in s.record[s.ticketOf[k]].data.scopes
      && (s.record[k].kind == Code ==> s.record[k].data.scopes == s.record[s.ticketOf[k]].data.scopes)
  {
    hide Run, Inv;
    InitialConsents();
    RunKeepsConsents(Initial, steps);
    var s := Run(Initial, steps);
    assert KeyOk(s, k) && KeyOk(s, s.ticketOf[k]);
    TicketsAreTickets(s, k);
  }

  lemma TicketsAreTickets(s: System, k: string)
    requires Inv(s) && k in s.record
    ensures k in s.ticketOf && s.ticketOf[k] in s.record && s.record[s.ticketOf[k]].kind == Consent
  {
    hide OneHolder, FlowOk, RowsRecorded;
    assert Descends(s, k);
  }

  /** A request keeps its key and what it is after from its look-up to its last step. */
  lemma PurposeStays(s: System, step: Step, f: nat)
    requires f in s.flows && !s.flows[f].Authorizing? && f in Next(s, step).flows
    ensures var t := Next(s, step);
      && !t.flows[f].Authorizing? && t.flows[f].key == s.flows[f].key && t.flows[f].purpose == s.flows[f].purpose
      && t.flows[f].loaded == s.flows[f].loaded
  {
    hide Honoured, Selected, NewGrant;
  }

  // ---- nothing is lost where nothing is given up ----------------------------------------------

  /** A renewal asks for all that its token has. */
  ghost predicate AsksAll(s: System, step: Step) {
    step.Lookup? && step.purpose.Renewal? && step.key in s.record ==> step.purpose.scopes == s.record[step.key].data.scopes
  }

  ghost predicate AlwaysAsksAll(s: System, steps: seq<Step>)
    decreases |steps|
  {
    steps == [] || (AsksAll(s, steps[0]) && AlwaysAsksAll(Next(s, steps[0]), steps[1..]))
  }

  /** All that was issued has its ticket's scopes, and every renewal under way asks for all. */
  ghost predicate Full(s: System) {
    && (forall k | k in s.record :: k in s.ticketOf && s.ticketOf[k] in s.record && s.record[k].data.scopes == s.record[s.ticketOf[k]].data.scopes)
    && (forall f | f in s.flows && !s.flows[f].Authorizing? && s.flows[f].purpose.Renewal? ::
          s.flows[f].key in s.record && s.flows[f].purpose.scopes == s.record[s.flows[f].key].data.scopes)
  }

  lemma StepKeepsFull(s: System, step: Step)
    requires Inv(s) && ConsentsOk(s) && Full(s) && AsksAll(s, step)
    ensures Full(Next(s, step))
  {
    hide Next, Recorded, OneHolder, ConsentsOk;
    var t := Next(s, step);
    KeysAreRecorded(s);
    StepIsLater(s, step);
    hide Inv;
    forall k | k in t.record && k !in s.record
      ensures k in t.ticketOf && t.ticketOf[k] in t.record && t.record[k].data.scopes == t.record[t.ticketOf[k]].data.scopes
    {
      NewKeyIsFull(s, t, step, k);
    }
    forall f | f in t.flows && !t.flows[f].Authorizing? && t.flows[f].purpose.Renewal?
      ensures t.flows[f].key in t.record && t.flows[f].purpose.scopes == t.record[t.flows[f].key].data.scopes
    {
      if f in s.flows && !s.flows[f].Authorizing? { PurposeStays(s, step, f); } else { OpenedByLookup(s, t, step, f); }
    }
  }

  lemma NewKeyIsFull(s: System, t: System, step: Step, k: string)
    requires Inv(s) && ConsentsOk(s) && Full(s) && t == Next(s, step) && k !in s.record && k in t.record && Later(s, t)
    ensures k in t.ticketOf && t.ticketOf[k] in t.record && t.record[k].data.scopes == t.record[t.ticketOf[k]].data.scopes
  {
    hide Next, Inv, ConsentsOk, Later;
    IssuedIsExact(s, step, k);
    LaterKeeps(s, t);
  }

  ghost predicate OpenedBy(t: System, step: Step, f: nat) {
    && step.Lookup? && step.flow == f && f in t.flows && !t.flows[f].Authorizing?
    && t.flows[f].key == step.key && t.flows[f].purpose == step.purpose
  }

  lemma OpenedByLookup(s: System, t: System, step: Step, f: nat)
    requires Inv(s) && t == Next(s, step) && f in t.flows && !t.flows[f].Authorizing?
    requires f in s.flows ==> s.flows[f].Authorizing?
    ensures OpenedBy(t, step, f) && step.key in s.record
  {
    hide Next, Inv;
    OnlyLookupOpens(s, t, step, f);
    RowIsRecorded(s, step.key);
  }

  lemma OnlyLookupOpens(s: System, t: System, step: Step, f: nat)
    requires t == Next(s, step) && f in t.flows && !t.flows[f].Authorizing?
    requires f in s.flows ==> s.flows[f].Authorizing?
    ensures OpenedBy(t, step, f) && step.key in s.db.grants && Flowing(s.db.grants[step.key].kind)
  {
    hide Honoured, NewGrant, FreshKey, ConnectionStores.Issued, Configured;
  }

  lemma RowIsRecorded(s: System, key: string)
    requires Inv(s) && key in s.db.grants && Flowing(s.db.grants[key].kind)
    ensures key in s.record && s.record[key] == s.db.grants[key]
  {
    hide OneHolder, Descends, FlowOk;
  }

  lemma {:induction false} FullInRun(s: System, steps: seq<Step>)
    requires Inv(s) && ConsentsOk(s) && Full(s) && AlwaysAsksAll(s, steps)
    ensures Full(Run(s, steps))
    decreases |steps|
  {
    hide Inv, ConsentsOk, Full, Next, AsksAll;
    if steps != [] {
      StepKeepsInv(s, steps[0]);
      StepKeepsConsents(s, steps[0]);
      StepKeepsFull(s, steps[0]);
      FullInRun(Next(s, steps[0]), steps[1..]);
    }
  }

  /** In every run in which no renewal asks for less, every code and token has exactly the
      scopes its user consented to. */
  lemma NoScopeIsLost(steps: seq<Step>, k: string)
    requires AlwaysAsksAll(Initial, steps) && k in Run(Initial, steps).record
    ensures var s := Run(Initial, steps);
      k in s.ticketOf && s.ticketOf[k] in s.record && s.record[k].data.scopes == s.record[s.ticketOf[k]].data.scopes
  {
    hide Run, Inv, AlwaysAsksAll;
    InitialConsents();
    FullInRun(Initial, steps);
  }

  // ---- an access token is honoured until it expires -------------------------------------------

  /** No change of the Job's policy, and the token is not revoked. */
  ghost predicate Undisturbed(steps: seq<Step>, job: string, key: string) {
    forall step | step in steps :: !(step.Configure? && step.job == job) && step != Revoke(key)
  }

  /** The token is in the store until it expires, and the policy is that of its consent. */
  ghost predicate Live(s: System, key: string, grant: Grant) {
    && grant.kind == Access && key in s.record && s.record[key] == grant && Honoured(s.db, grant)
    && (s.now < grant.expires ==> key in s.db.grants && s.db.grants[key] == grant)
  }

  lemma StepKeepsLive(s: System, step: Step, key: string, grant: Grant)
    requires Inv(s) && Live(s, key, grant) && grant.job.Some? && Undisturbed([step], grant.job.value, key)
    ensures Live(Next(s, step), key, grant) && s.now <= Next(s, step).now
  {
    hide OneHolder, Descends, NewGrant;
    assert step in [step];
    assert step.Take? && step.flow in s.flows ==> FlowOk(s, s.flows[step.flow]);
  }

  lemma {:induction false} RunKeepsLive(s: System, steps: seq<Step>, key: string, grant: Grant)
    requires Inv(s) && Live(s, key, grant) && grant.job.Some? && Undisturbed(steps, grant.job.value, key)
    ensures Live(Run(s, steps), key, grant) && s.now <= Run(s, steps).now && Inv(Run(s, steps))
    decreases |steps|
  {
    hide Inv, Live, Next;
    if steps != [] {
      assert steps[0] in steps && forall step | step in steps[1..] :: step in steps;
      StepKeepsInv(s, steps[0]);
      StepKeepsLive(s, steps[0], key, grant);
      RunKeepsLive(Next(s, steps[0]), steps[1..], key, grant);
    }
  }

  /** An access token issued while its consent's generation is the policy's is honoured for
      its Job, whatever else happens, for 3600 seconds and no longer, as long as the policy
      is not changed and the token not revoked: with external authority if the scopes it was
      issued for allow to supervise, which those of a code always do. */
  lemma AccessIsHonoured(s: System, f: nat, key: string, steps: seq<Step>)
    requires Inv(s) && ConsentsOk(s) && f in s.flows && s.flows[f].Issuing? && !s.flows[f].purpose.Approval?
    requires FreshKey(s, key) && UsableKey(key) && Honoured(s.db, s.flows[f].loaded)
    requires s.flows[f].loaded.job.Some? && Undisturbed(steps, s.flows[f].loaded.job.value, key)
    ensures var x := s.flows[f]; var from := s.record[x.key]; var job := from.job.value;
      var t := Next(s, IssueFirst(f, key)); var u := Run(t, steps);
      var scopes := if x.purpose.Renewal? then x.purpose.scopes else from.data.scopes;
      && from.job.Some? && key in t.record
      && t.record[key].data.scopes == scopes && (x.purpose.CodeExchange? ==> SUPERVISE in scopes)
      && Granted(u.db, u.now, key, None) == (if u.now < s.now + 3600 then Some(t.record[key]) else None)
      && (u.now < s.now + 3600 && SUPERVISE in scopes ==> AuthorityOf(u.db, u.now, job, key) == Some(ExternalAuthority))
  {
    hide Inv, Next, Run, Enter, Honoured, KeyOk, StageOk;
    var t := Next(s, IssueFirst(f, key));
    TokenIsIssued(s, f, key);
    StepKeepsInv(s, IssueFirst(f, key));
    RunKeepsLive(t, steps, key, t.record[key]);
    LiveIsGranted(Run(t, steps), key, t.record[key]);
  }

  lemma TokenIsIssued(s: System, f: nat, key: string)
    requires Inv(s) && ConsentsOk(s) && f in s.flows && s.flows[f].Issuing? && !s.flows[f].purpose.Approval?
    requires FreshKey(s, key) && Honoured(s.db, s.flows[f].loaded) && s.flows[f].loaded.job.Some?
    ensures var x := s.flows[f]; var t := Next(s, IssueFirst(f, key));
      && x.key in s.record && s.record[x.key] == x.loaded && key in t.record && t.now == s.now
      && Live(t, key, t.record[key]) && t.record[key].expires == s.now + 3600 && t.record[key].job == x.loaded.job
      && t.record[key].data.scopes == (if x.purpose.Renewal? then x.purpose.scopes else x.loaded.data.scopes)
      && (x.purpose.CodeExchange? ==> SUPERVISE in x.loaded.data.scopes)
  {
    hide OneHolder, RowsRecorded, Descends, KeyOk;
    var x := s.flows[f];
    assert FlowOk(s, x);
    FlowFacts(s, x);
    assert KeyOk(s, x.key) && KeyOk(s, s.ticketOf[x.key]);
    CodeSupervises(s, x.key);
  }

  lemma CodeSupervises(s: System, k: string)
    requires KeyOk(s, k) && KeyOk(s, s.ticketOf[k])
    ensures s.record[k].kind == Code ==> SUPERVISE in s.record[k].data.scopes
  {
  }

  lemma LiveIsGranted(s: System, key: string, grant: Grant)
    requires Inv(s) && Live(s, key, grant) && UsableKey(key) && grant.job.Some?
    ensures Granted(s.db, s.now, key, None) == if s.now < grant.expires then Some(grant) else None
    ensures s.now < grant.expires && SUPERVISE in grant.data.scopes ==> AuthorityOf(s.db, s.now, grant.job.value, key) == Some(ExternalAuthority)
  {
    hide OneHolder, Descends, FlowOk;
  }

  // ---- an exchange gets through ---------------------------------------------------------------

  /** The grant can be exchanged: it is there, unexpired, of the right kind and client, of the
      policy's generation, and a renewal asks for no more than it has. */
  ghost predicate Ready(s: System, key: string, p: Purpose) {
    && UsableKey(key) && key in s.db.grants
    && var g := s.db.grants[key];
       && g.kind == KindFor(p) && s.now < g.expires && Honoured(s.db, g) && ClientMatches(p, g)
       && (p.Renewal? ==> p.scopes <= g.data.scopes)
  }

  function Consuming(f: nat, key: string, p: Purpose): seq<Step> { [Lookup(f, key, p), Check(f), Take(f), Recheck(f)] }

  lemma RunAppend(s: System, a: seq<Step>, step: Step)
    ensures Run(s, a + [step]) == Next(Run(s, a), step)
    decreases |a|
  {
    hide Next;
    if a == [] {
      assert [] + [step] == [step] && [step][1..] == [];
    } else {
      assert (a + [step])[1..] == a[1..] + [step];
      RunAppend(Next(s, a[0]), a[1..], step);
    }
  }

  /** Looked up and checked: nothing has changed but the request. */
  lemma CheckingRuns(s: System, f: nat, key: string, p: Purpose)
    requires Ready(s, key, p) && f !in s.flows
    ensures var g := s.db.grants[key];
      Next(Next(s, Lookup(f, key, p)), Check(f)) == s.(flows := s.flows[f := Usable(key, g, p)])
  {
    hide Honoured, UsableKey;
    var g := s.db.grants[key];
    var a := Next(s, Lookup(f, key, p));
    assert a.flows == s.flows[f := Found(key, g, p)];
    assert a.flows[f := Usable(key, g, p)] == s.flows[f := Usable(key, g, p)];
  }

  lemma TakingRuns(s: System, f: nat, key: string, p: Purpose)
    requires Ready(s, key, p) && f in s.flows && s.flows[f] == Usable(key, s.db.grants[key], p)
    ensures var g := s.db.grants[key];
      Next(Next(s, Take(f)), Recheck(f)) == s.(db := Consumed(s.db, key), flows := s.flows[f := Issuing(key, g, g, p)])
  {
    hide UsableKey;
    var g := s.db.grants[key];
    var c := Next(s, Take(f));
    assert c.flows == s.flows[f := Taken(key, g, g, p)] && c.db == Consumed(s.db, key);
    assert c.flows[f := Issuing(key, g, g, p)] == s.flows[f := Issuing(key, g, g, p)];
  }

  lemma ConsumingRuns(s: System, f: nat, key: string, p: Purpose)
    requires Ready(s, key, p) && f !in s.flows
    ensures var g := s.db.grants[key];
      Run(s, Consuming(f, key, p)) == s.(db := Consumed(s.db, key), flows := s.flows[f := Issuing(key, g, g, p)])
  {
    CheckingRuns(s, f, key, p);
    var g := s.db.grants[key];
    var b := s.(flows := s.flows[f := Usable(key, g, p)]);
    TakingRuns(b, f, key, p);
    assert b.flows[f := Issuing(key, g, g, p)] == s.flows[f := Issuing(key, g, g, p)];
    hide Next, Ready, Run;
    FourSteps(s, Lookup(f, key, p), Check(f), Take(f), Recheck(f));
  }

  lemma FourSteps(s: System, a: Step, b: Step, c: Step, d: Step)
    ensures Run(s, [a, b, c, d]) == Next(Next(Next(Next(s, a), b), c), d)
  {
    hide Next;
    RunAppend(s, [], a);
    RunAppend(s, [a], b);
    RunAppend(s, [a, b], c);
    RunAppend(s, [a, b, c], d);
    assert [] + [a] == [a] && [a] + [b] == [a, b] && [a, b] + [c] == [a, b, c] && [a, b, c] + [d] == [a, b, c, d];
  }

  /** Between s and t `key` entered the store, next to the unexpired others. */
  ghost predicate Stores(s: System, t: System, key: string) {
    && key in t.record && key in t.db.grants && t.db.grants[key] == t.record[key]
    && t.db.policies == s.db.policies && t.now == s.now
    && (forall k | k in s.db.grants && s.now <= s.db.grants[k].expires && k != key :: k in t.db.grants && t.db.grants[k] == s.db.grants[k])
    && (forall k | k in t.db.grants && k != key :: k in s.db.grants)
    && (forall k | FreshKey(s, k) && k != key :: FreshKey(t, k))
  }

  lemma EnterStores(s: System, key: string, grant: Grant, root: string, flows: map<nat, Flow>)
    requires FreshKey(s, key)
    ensures Stores(s, Enter(s, key, grant, root).(flows := flows), key)
  {
  }

  lemma HeldKeyIsKnown(s: System, f: nat)
    requires Inv(s) && f in s.flows && (s.flows[f].Issuing? || s.flows[f].Completing?)
    ensures s.flows[f].key in s.ticketOf
  {
    hide Inv, Recorded, FlowOk;
    FlowIsOk(s, f);
    KeysAreRecorded(s);
    FlowKeyRecorded(s, s.flows[f]);
  }

  lemma FirstIsStored(s: System, f: nat, key: string)
    requires Inv(s) && FreshKey(s, key) && f in s.flows && s.flows[f].Issuing?
    ensures var t := Next(s, IssueFirst(f, key)); var x := s.flows[f];
      && Stores(s, t, key)
      && t.flows == if x.purpose.Approval? then s.flows - {f} else s.flows[f := Completing(x.key, x.loaded, x.taken, x.purpose)]
  {
    hide Inv, NewGrant, FreshKey, Stores, Enter;
    HeldKeyIsKnown(s, f);
    var x := s.flows[f];
    var t := Next(s, IssueFirst(f, key));
    var root := s.ticketOf[x.key];
    if x.purpose.Approval? {
      EnterStores(s, key, NewGrant(Code, x, s.now + 120), root, t.flows);
    } else {
      EnterStores(s, key, NewGrant(Access, x, s.now + 3600), root, t.flows);
    }
    EnteringKeepsFlows(s);
  }

  lemma RefreshIsStored(s: System, f: nat, key: string)
    requires Inv(s) && FreshKey(s, key) && f in s.flows && s.flows[f].Completing?
    ensures var t := Next(s, IssueRefresh(f, key)); Stores(s, t, key) && t.flows == s.flows - {f}
  {
    hide Inv, NewGrant, FreshKey, Stores, Enter;
    HeldKeyIsKnown(s, f);
    var x := s.flows[f];
    EnterStores(s, key, NewGrant(Refresh, x, s.now + 2592000), s.ticketOf[x.key], s.flows - {f});
    EnteringKeepsFlows(s);
  }

  /** The run of one exchange. */
  function Exchange(f: nat, key: string, p: Purpose, first: string, second: string): seq<Step> {
    Consuming(f, key, p) + [IssueFirst(f, first)] + if p.Approval? then [] else [IssueRefresh(f, second)]
  }

  /** An exchange that nothing disturbs consumes its grant and issues what it is for: for a
      ticket a code, for a code or a refresh token an access and a refresh token. */
  lemma ExchangeSucceeds(s: System, f: nat, key: string, p: Purpose, first: string, second: string)
    requires Inv(s) && ConsentsOk(s) && Ready(s, key, p) && f !in s.flows
    requires FreshKey(s, first) && FreshKey(s, second) && first != second
    ensures var u := Run(s, Exchange(f, key, p, first, second)); var g := s.db.grants[key];
      && Inv(u) && ConsentsOk(u) && u.flows == s.flows && u.now == s.now && u.db.policies == s.db.policies
      && key !in u.db.grants && first in u.db.grants && IsExchange(p, g, u.db.grants[first], s.now, true)
      && (!p.Approval? ==> second in u.db.grants && IsExchange(p, g, u.db.grants[second], s.now, false))
      && (forall k | FreshKey(s, k) && k != first && k != second :: FreshKey(u, k))
  {
    hide Inv, ConsentsOk, Next, Run, Ready, IsExchange, FreshKey, Exchange;
    ReadyIsNotFresh(s, key, p, second);
    var g := s.db.grants[key];
    FirstHalf(s, f, key, p, first);
    var b := Run(s, Consuming(f, key, p) + [IssueFirst(f, first)]);
    ExchangeSteps(f, key, p, first, second);
    if p.Approval? {
      assert b.flows == s.flows;
    } else {
      RefreshIsStored(b, f, second);
      IssuedForFlow(b, IssueRefresh(f, second), f, second);
      RunAppend(s, Consuming(f, key, p) + [IssueFirst(f, first)], IssueRefresh(f, second));
      StepKeepsInv(b, IssueRefresh(f, second));
      StepKeepsConsents(b, IssueRefresh(f, second));
      TokensLast(p, g, b.db.grants[first], b.now);
      assert b.flows - {f} == s.flows;
    }
  }

  /** The grant is consumed and the first key issued. */
  lemma FirstHalf(s: System, f: nat, key: string, p: Purpose, first: string)
    requires Inv(s) && ConsentsOk(s) && Ready(s, key, p) && f !in s.flows && FreshKey(s, first)
    ensures var u := Run(s, Consuming(f, key, p) + [IssueFirst(f, first)]); var g := s.db.grants[key];
      && Inv(u) && ConsentsOk(u) && u.now == s.now && u.db.policies == s.db.policies
      && u.flows == (if p.Approval? then s.flows else s.flows[f := Completing(key, g, g, p)])
      && key !in u.db.grants && first in u.db.grants && IsExchange(p, g, u.db.grants[first], s.now, true)
      && (forall k | FreshKey(s, k) && k != first :: FreshKey(u, k))
  {
    hide Inv, ConsentsOk, Next, Run, Ready, IsExchange, FreshKey, Consuming;
    ReadyIsNotFresh(s, key, p, first);
    var g := s.db.grants[key];
    ConsumingRuns(s, f, key, p);
    RunKeepsConsents(s, Consuming(f, key, p));
    var a := Run(s, Consuming(f, key, p));
    KeysStayFresh(s, a);
    FirstIsStored(a, f, first);
    IssuedForFlow(a, IssueFirst(f, first), f, first);
    RunAppend(s, Consuming(f, key, p), IssueFirst(f, first));
    StepKeepsInv(a, IssueFirst(f, first));
    StepKeepsConsents(a, IssueFirst(f, first));
    assert a.flows - {f} == s.flows;
    assert a.flows[f := Completing(key, g, g, p)] == s.flows[f := Completing(key, g, g, p)];
  }

  lemma ReadyIsNotFresh(s: System, key: string, p: Purpose, other: string)
    requires Ready(s, key, p)
    ensures key in s.db.grants && (FreshKey(s, other) ==> key != other)
  {
  }

  lemma ExchangeSteps(f: nat, key: string, p: Purpose, first: string, second: string)
    ensures Exchange(f, key, p, first, second) ==
      if p.Approval? then Consuming(f, key, p) + [IssueFirst(f, first)] else Consuming(f, key, p) + [IssueFirst(f, first)] + [IssueRefresh(f, second)]
  {
  }

  lemma TokensLast(p: Purpose, from: Grant, grant: Grant, now: int)
    requires IsExchange(p, from, grant, now, true)
    ensures now <= grant.expires
  {
  }

  lemma KeysStayFresh(s: System, t: System)
    requires t.record == s.record && t.db.grants.Keys <= s.db.grants.Keys
    ensures forall k | FreshKey(s, k) :: FreshKey(t, k)
  {
  }

  lemma IssuedForFlow(s: System, step: Step, f: nat, key: string)
    requires Inv(s) && ConsentsOk(s) && FreshKey(s, key) && key in Next(s, step).record && f in s.flows
    requires (step == IssueFirst(f, key) && s.flows[f].Issuing?) || (step == IssueRefresh(f, key) && s.flows[f].Completing?)
    ensures var x := s.flows[f]; IsExchange(x.purpose, x.loaded, Next(s, step).record[key], s.now, step.IssueFirst?)
  {
    FlowIsOk(s, f);
    FlowFacts(s, s.flows[f]);
    hide Inv, ConsentsOk, Next, IsExchange;
    ExchangeIsExact(s, Next(s, step), step, key);
  }

  /** From consent to authority: a ticket that is approved and whose code is exchanged leads
      to an access token of exactly its scopes, honoured with external authority for its Job. */
  lemma ConsentLeadsToAuthority(s: System, f: nat, ticket: string, code: string, access: string, refresh: string, spare: string)
    requires Inv(s) && ConsentsOk(s) && Ready(s, ticket, Approval) && f !in s.flows
    requires UsableKey(code) && UsableKey(access)
    requires FreshKey(s, code) && FreshKey(s, access) && FreshKey(s, refresh) && FreshKey(s, spare)
    requires Distinct([code, access, refresh, spare])
    ensures var g := s.db.grants[ticket]; var p := CodeExchange(g.data.client);
      var u := Run(Run(s, Exchange(f, ticket, Approval, code, spare)), Exchange(f, code, p, access, refresh));
      && g.job.Some? && access in u.db.grants && u.db.grants[access].data.scopes == g.data.scopes
      && AuthorityOf(u.db, u.now, g.job.value, access) == Some(ExternalAuthority)
  {
    hide Inv, ConsentsOk, Next, Run, Exchange, FreshKey;
    var keys := [code, access, refresh, spare];
    assert keys[0] != keys[1] && keys[0] != keys[2] && keys[0] != keys[3] && keys[1] != keys[2] && keys[1] != keys[3] && keys[2] != keys[3];
    var g := s.db.grants[ticket];
    ExchangeSucceeds(s, f, ticket, Approval, code, spare);
    var t := Run(s, Exchange(f, ticket, Approval, code, spare));
    TicketSupervises(s, ticket);
    assert Ready(t, code, CodeExchange(g.data.client));
    ExchangeSucceeds(t, f, code, CodeExchange(g.data.client), access, refresh);
  }

  lemma TicketSupervises(s: System, k: string)
    requires Inv(s) && ConsentsOk(s) && k in s.db.grants && s.db.grants[k].kind == Consent
    ensures s.db.grants[k].job.Some? && SUPERVISE in s.db.grants[k].data.scopes
  {
    hide OneHolder, FlowOk, StageOk;
    assert KeyOk(s, k) && Descends(s, k);
  }

  /** The resource is the URL of a policy that is enabled, and the scopes are known and allow
      to supervise. */
  ghost predicate Acceptable(db: Db, scopes: set<string>, resource: Url) {
    && resource.job in db.policies && db.policies[resource.job].enabled && db.policies[resource.job].serverUrl == resource
    && SUPERVISE in scopes && scopes <= {SUPERVISE, "offline_access"}
  }

  lemma AuthorizeIsExact(s: System, f: nat, client: string, scopes: set<string>, resource: Url)
    requires f !in s.flows
    ensures Next(s, Authorize(f, client, scopes, resource)) ==
      if Acceptable(s.db, scopes, resource)
      then s.(flows := s.flows[f := Authorizing(client, scopes, resource, resource.job, s.db.policies[resource.job].generation)])
      else s
  {
  }

  lemma TicketIsReady(s: System, f: nat, ticket: string)
    requires f in s.flows && s.flows[f].Authorizing? && FreshKey(s, ticket) && UsableKey(ticket)
    requires var a := s.flows[f]; a.job in s.db.policies && s.db.policies[a.job].enabled && s.db.policies[a.job].generation == a.generation
    ensures var u := Next(s, IssueTicket(f, ticket)); var a := s.flows[f];
      && Stores(s, u, ticket) && u.flows == s.flows - {f} && Ready(u, ticket, Approval)
      && u.db.grants[ticket].job == Some(a.job) && u.db.grants[ticket].data == Data(a.client, a.scopes, a.resource)
  {
    var a := s.flows[f];
    var grant := Grant(Consent, Some(a.job), a.generation, s.now + 600, Data(a.client, a.scopes, a.resource));
    hide Enter, UsableKey, FreshKey, Stores;
    EnterStores(s, ticket, grant, ticket, s.flows - {f});
    EnterHas(s, ticket, grant, ticket);
    EnteringKeepsFlows(s);
    var u := Enter(s, ticket, grant, ticket).(flows := s.flows - {f});
    assert Next(s, IssueTicket(f, ticket)) == u;
    hide Next;
    StoredGrant(s, u, ticket);
  }

  lemma EnterHas(s: System, key: string, grant: Grant, root: string)
    ensures key in Enter(s, key, grant, root).record && Enter(s, key, grant, root).record[key] == grant
  {
  }

  lemma StoredGrant(s: System, u: System, key: string)
    requires Stores(s, u, key)
    ensures key in u.db.grants && key in u.record && u.db.grants[key] == u.record[key] && u.db.policies == s.db.policies && u.now == s.now
  {
  }

  /** An authorization leads to a ticket exactly if it is acceptable, and the ticket can be
      approved. */
  lemma AuthorizationOpens(s: System, f: nat, client: string, scopes: set<string>, resource: Url, ticket: string)
    requires Inv(s) && ConsentsOk(s) && f !in s.flows && FreshKey(s, ticket) && UsableKey(ticket)
    ensures var u := Run(s, [Authorize(f, client, scopes, resource), IssueTicket(f, ticket)]);
      && Inv(u) && ConsentsOk(u) && u.flows == s.flows && u.now == s.now && u.db.policies == s.db.policies
      && (ticket in u.db.grants <==> Acceptable(s.db, scopes, resource))
      && (ticket in u.db.grants ==>
            && Ready(u, ticket, Approval)
            && u.db.grants[ticket].job == Some(resource.job) && u.db.grants[ticket].data == Data(client, scopes, resource))
      && (forall k | FreshKey(s, k) && k != ticket :: FreshKey(u, k))
  {
    hide Inv, ConsentsOk, Run, Next, UsableKey;
    var a, b := Authorize(f, client, scopes, resource), IssueTicket(f, ticket);
    TwoSteps(s, a, b);
    RunKeepsConsents(s, [a, b]);
    AuthorizeIsExact(s, f, client, scopes, resource);
    var t := Next(s, a);
    if Acceptable(s.db, scopes, resource) {
      assert t.flows - {f} == s.flows;
      KeysStayFresh(s, t);
      TicketIsReady(t, f, ticket);
    } else {
      NoTicket(s, f, ticket);
    }
  }

  lemma TwoSteps(s: System, a: Step, b: Step)
    ensures Run(s, [a, b]) == Next(Next(s, a), b)
  {
    hide Next;
    RunAppend(s, [], a);
    RunAppend(s, [a], b);
    assert [] + [a] == [a] && [a] + [b] == [a, b];
    assert Run(s, []) == s;
  }

  lemma NoTicket(s: System, f: nat, ticket: string)
    requires f !in s.flows
    ensures Next(s, IssueTicket(f, ticket)) == s
  {
  }

  /** A client that asks for scopes of an enabled policy, is approved and exchanges its code is
      honoured with an access token of exactly these scopes. */
  lemma LinkingSucceeds(s: System, f: nat, client: string, scopes: set<string>, resource: Url,
                        ticket: string, code: string, access: string, refresh: string, spare: string)
    requires Inv(s) && ConsentsOk(s) && f !in s.flows
    requires Acceptable(s.db, scopes, resource)
    requires UsableKey(ticket) && UsableKey(code) && UsableKey(access)
    requires forall k | k in [ticket, code, access, refresh, spare] :: FreshKey(s, k)
    requires Distinct([code, access, refresh, spare]) && ticket !in [code, access, refresh, spare]
    ensures var linked := Run(s, [Authorize(f, client, scopes, resource), IssueTicket(f, ticket)]);
      var approved := Run(linked, Exchange(f, ticket, Approval, code, spare));
      var u := Run(approved, Exchange(f, code, CodeExchange(client), access, refresh));
      && access in u.db.grants && u.db.grants[access].data.scopes == scopes
      && AuthorityOf(u.db, u.now, resource.job, access) == Some(ExternalAuthority)
  {
    hide Inv, ConsentsOk, Next, Run, Exchange, Ready, AuthorityOf, UsableKey, FreshKey;
    AuthorizationOpens(s, f, client, scopes, resource, ticket);
    var linked := Run(s, [Authorize(f, client, scopes, resource), IssueTicket(f, ticket)]);
    forall k | k in [code, access, refresh, spare]
      ensures FreshKey(linked, k)
    {
      assert k in [ticket, code, access, refresh, spare];
    }
    ConsentLeadsToAuthority(linked, f, ticket, code, access, refresh, spare);
  }

  // ---- what is spent stays spent ---------------------------------------------------------------

  lemma SpentStays(s: System, step: Step, key: string)
    requires key in s.record && key !in s.db.grants
    ensures key in Next(s, step).record && key !in Next(s, step).db.grants
  {
    hide NewGrant, Honoured, Selected;
  }

  /** A credential that was consumed, revoked or dropped never comes back: in no run is it
      found or honoured again. */
  lemma {:induction false} SpentForever(s: System, steps: seq<Step>, key: string)
    requires key in s.record && key !in s.db.grants
    ensures var u := Run(s, steps); key !in u.db.grants && Granted(u.db, u.now, key, None).None?
    decreases |steps|
  {
    hide Next;
    if steps != [] {
      SpentStays(s, steps[0], key);
      SpentForever(Next(s, steps[0]), steps[1..], key);
    }
  }

  /** Revoking spends. */
  lemma RevokedForever(s: System, steps: seq<Step>, key: string)
    requires key in s.record
    ensures var u := Run(Next(s, Revoke(key)), steps); Granted(u.db, u.now, key, None).None?
  {
    hide Run;
    SpentForever(Next(s, Revoke(key)), steps, key);
  }

  // ---- keys that belong to no consent ------------------------------------------------------------

  /** A row that no consent is behind stays until it expires, whatever happens to policies. */
  ghost predicate Standing(s: System, key: string, grant: Grant) {
    && (grant.kind == Internal || (grant.kind == Client && grant.job == None)) && key !in s.record
    && (s.now < grant.expires ==> key in s.db.grants && s.db.grants[key] == grant)
  }

  lemma StepKeepsStanding(s: System, step: Step, key: string, grant: Grant)
    requires Inv(s) && Standing(s, key, grant) && s.now < grant.expires && step != Revoke(key)
    ensures Standing(Next(s, step), key, grant) && s.now <= Next(s, step).now
  {
    hide OneHolder, Descends, NewGrant;
    assert step.Take? && step.flow in s.flows ==> FlowOk(s, s.flows[step.flow]);
  }

  lemma {:induction false} RunKeepsStanding(s: System, steps: seq<Step>, key: string, grant: Grant)
    requires Inv(s) && Standing(s, key, grant) && Revoke(key) !in steps
    ensures var u := Run(s, steps);
      s.now <= u.now && (u.now < grant.expires ==> Standing(u, key, grant))
    decreases |steps|
  {
    hide Inv, Standing, Next;
    if steps != [] {
      assert steps[0] in steps && forall step | step in steps[1..] :: step in steps;
      StepKeepsInv(s, steps[0]);
      TimePassesInRun(s, steps);
      if s.now < grant.expires {
        StepKeepsStanding(s, steps[0], key, grant);
        RunKeepsStanding(Next(s, steps[0]), steps[1..], key, grant);
      }
    }
  }

  lemma TimePasses(s: System, step: Step)
    ensures s.now <= Next(s, step).now
  {
    hide NewGrant, Honoured, Selected, FreshKey;
  }

  lemma {:induction false} TimePassesInRun(s: System, steps: seq<Step>)
    ensures s.now <= Run(s, steps).now
    decreases |steps|
  {
    hide Next;
    if steps != [] {
      TimePasses(s, steps[0]);
      TimePassesInRun(Next(s, steps[0]), steps[1..]);
    }
  }

  /** An internal key has internal authority for its Job for a day, through every change of
      policy, unless it is revoked. */
  lemma InternalSurvivesPolicies(s: System, job: string, key: string, steps: seq<Step>)
    requires Inv(s) && FreshKey(s, key) && UsableKey(key) && Revoke(key) !in steps
    ensures var u := Run(Next(s, IssueInternal(job, key)), steps);
      u.now < s.now + 86400 ==> AuthorityOf(u.db, u.now, job, key) == Some(InternalAuthority)
  {
    hide Inv, Run, UsableKey;
    var t := Next(s, IssueInternal(job, key));
    var grant := t.db.grants[key];
    assert Standing(t, key, grant) && grant.kind == Internal && grant.job == Some(job) && grant.expires == s.now + 86400;
    StepKeepsInv(s, IssueInternal(job, key));
    hide Next;
    RunKeepsStanding(t, steps, key, grant);
  }

  /** A registered client is found until its registration expires, unless it is revoked. */
  lemma ClientIsFound(s: System, key: string, data: Data, steps: seq<Step>)
    requires Inv(s) && FreshKey(s, key) && UsableKey(key) && Revoke(key) !in steps
    ensures var u := Run(Next(s, Register(key, data)), steps);
      u.now < s.now + 315360000 ==> Granted(u.db, u.now, key, Some(Client)) == Some(Grant(Client, None, 0, s.now + 315360000, data))
  {
    hide Inv, Run, UsableKey;
    var t := Next(s, Register(key, data));
    var grant := t.db.grants[key];
    assert Standing(t, key, grant) && grant == Grant(Client, None, 0, s.now + 315360000, data);
    StepKeepsInv(s, Register(key, data));
    hide Next;
    RunKeepsStanding(t, steps, key, grant);
  }

  /** The connection code of a policy has authority until the policy is changed. */
  lemma {:induction false} CodeOfPolicyIsHonoured(s: System, job: string, key: string, steps: seq<Step>)
    requires job in s.db.policies && s.db.policies[job].enabled && s.db.policies[job].keyHash == Some(key) && key != ""
    requires forall step | step in steps :: !(step.Configure? && step.job == job)
    ensures var u := Run(s, steps); AuthorityOf(u.db, u.now, job, key).Some?
    decreases |steps|
  {
    hide Next;
    if steps != [] {
      assert steps[0] in steps && forall step | step in steps[1..] :: step in steps;
      PolicyStays(s, steps[0], job);
      CodeOfPolicyIsHonoured(Next(s, steps[0]), job, key, steps[1..]);
    }
  }

  lemma PolicyStays(s: System, step: Step, job: string)
    requires job in s.db.policies && !(step.Configure? && step.job == job)
    ensures job in Next(s, step).db.policies && Next(s, step).db.policies[job] == s.db.policies[job]
  {
    hide NewGrant, Honoured, Selected, FreshKey;
  }

  /** And a change to an enabled policy makes its new code good at once. */
  lemma ConfiguredCodeIsHonoured(s: System, job: string, url: Url, key: string, steps: seq<Step>)
    requires url.job == job && key != "" && forall step | step in steps :: !(step.Configure? && step.job == job)
    ensures var u := Run(Next(s, Configure(job, true, url, key)), steps); AuthorityOf(u.db, u.now, job, key).Some?
  {
    hide Run, AuthorityOf;
    CodeOfPolicyIsHonoured(Next(s, Configure(job, true, url, key)), job, key, steps);
  }
}
