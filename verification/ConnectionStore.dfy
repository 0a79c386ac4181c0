/** The store of MCP connection policies and grants: one row per Job, one per issued key.
    Each database transaction is one method. A digest is taken to be injective, so a key
    stands for its hash. */
module ConnectionStores {
  import opened OrderedDicts

  datatype Kind = Internal | Client | Consent | Code | Access | Refresh

  /** A validated server URL: it ends in the path of the Job it was validated for. */
  datatype Url = Url(origin: string, job: string)

  datatype Policy = Policy(enabled: bool, generation: nat, keyHash: Option<string>, serverUrl: Url)

  /** The JSON data of a grant, as far as it is compared later. */
  datatype Data = Data(client: string, scopes: set<string>, resource: Url)

  datatype Grant = Grant(kind: Kind, job: Option<string>, generation: nat, expires: int, data: Data)

  datatype Db = Db(policies: map<string, Policy>, grants: map<string, Grant>)

  datatype Authority = InternalAuthority | ExternalAuthority

  const SUPERVISE: string := "co_worker:supervise"

  // ---- the transactions as functions ---------------------------------------------------

  function Configured(db: Db, job: string, enabled: bool, url: Url, key: string): Db {
    var generation := if job in db.policies then db.policies[job].generation + 1 else 1;
    Db(db.policies[job := Policy(enabled, generation, if enabled then Some(key) else None, url)],
       map k | k in db.grants && !(db.grants[k].job == Some(job) && db.grants[k].kind != Internal) :: db.grants[k])
  }

  /** DELETE FROM grants WHERE expires < now. */
  function Purged(db: Db, now: int): Db {
    db.(grants := map k | k in db.grants && now <= db.grants[k].expires :: db.grants[k])
  }

  function Issued(db: Db, now: int, key: string, grant: Grant): Db {
    var purged := Purged(db, now);
    purged.(grants := purged.grants[key := grant])
  }

  predicate UsableKey(key: string) { 16 <= |key| <= 256 }

  /** The row of a key that has not expired and is of the kind asked for. */
  function Selected(db: Db, now: int, key: string, kind: Option<Kind>): Option<Grant> {
    if UsableKey(key) && key in db.grants && now < db.grants[key].expires && (kind.Some? ==> db.grants[key].kind == kind.value)
    then Some(db.grants[key]) else None
  }

  function Consumed(db: Db, key: string): Db { db.(grants := db.grants - {key}) }

  /** The policy check of a grant, in a transaction of its own. */
  predicate Honoured(db: Db, grant: Grant) {
    grant.job.Some? && grant.kind != Internal ==>
      && grant.job.value in db.policies
      && db.policies[grant.job.value].enabled
      && db.policies[grant.job.value].generation == grant.generation
  }

  /** grant() without anything in between its two transactions. */
  function Granted(db: Db, now: int, key: string, kind: Option<Kind>): Option<Grant> {
    var row := Selected(db, now, key, kind);
    if row.Some? && Honoured(db, row.value) then row else None
  }

  /** authority(): who may act on a Job with this bearer key. */
  function AuthorityOf(db: Db, now: int, job: string, key: string): Option<Authority> {
    var grant := Granted(db, now, key, None);
    if grant.Some? && grant.value.kind == Internal && grant.value.job == Some(job) then Some(InternalAuthority)
    else if grant.Some? && grant.value.kind == Access && grant.value.job == Some(job) && SUPERVISE in grant.value.data.scopes then
      Some(ExternalAuthority)
    else if key != "" && job in db.policies && db.policies[job].enabled && db.policies[job].keyHash == Some(key) then
      Some(ExternalAuthority)
    else None
  }

  /** Every policy's URL was validated for its own Job. */
  ghost predicate UrlsMatch(db: Db) { forall job | job in db.policies :: db.policies[job].serverUrl.job == job }

  /** SELECT * FROM policies WHERE server_url = ? AND enabled = 1. */
  function PolicyForResource(db: Db, resource: Url): Option<(string, Policy)> {
    if resource.job in db.policies && db.policies[resource.job].enabled && db.policies[resource.job].serverUrl == resource
    then Some((resource.job, db.policies[resource.job])) else None
  }

  /** The query finds a row exactly when there is one, and there is at most one. */
  lemma ResourceNamesOnePolicy(db: Db, resource: Url)
    requires UrlsMatch(db)
    ensures forall job | job in db.policies && db.policies[job].enabled && db.policies[job].serverUrl == resource ::
      PolicyForResource(db, resource) == Some((job, db.policies[job]))
    ensures PolicyForResource(db, resource).None? ==>
      forall job | job in db.policies && db.policies[job].enabled :: db.policies[job].serverUrl != resource
  {}

  // ---- the store -----------------------------------------------------------------------

  class ConnectionStore {
    var policies: map<string, Policy>
    var grants: map<string, Grant>

    constructor ()
      ensures View() == Db(map[], map[])
    {
      policies, grants := map[], map[];
    }

    ghost function View(): Db
      reads this
    {
      Db(policies, grants)
    }

    /** A new generation: the policy is replaced, its connection code with it, and every
        grant of the Job that is not internal disappears. Only a URL that was validated
        for this Job is accepted. */
    method Configure(job: string, enabled: bool, url: Url, fresh_: string) returns (key: Option<string>, ok: bool)
      modifies this
      ensures ok == (url.job == job)
      ensures View() == if ok then Configured(old(View()), job, enabled, url, fresh_) else old(View())
      ensures ok ==> policies[job].generation > (if job in old(policies) then old(policies[job].generation) else 0)
      ensures ok ==> forall k | k in grants :: grants[k].job == Some(job) ==> grants[k].kind == Internal
      ensures forall k | k in old(grants) && old(grants[k].kind) == Internal :: k in grants && grants[k] == old(grants[k])
      ensures old(UrlsMatch(View())) ==> UrlsMatch(View())
    {
      if url.job != job { return None, false; }
      key := if enabled then Some(fresh_) else None;
      var generation := 1;
      if job in policies { generation := policies[job].generation + 1; }
      policies := policies[job := Policy(enabled, generation, key, url)];
      grants := map k | k in grants && !(grants[k].job == Some(job) && grants[k].kind != Internal) :: grants[k];
      ok := true;
    }

    /** issue() and put(): expired rows go, the new one is inserted. */
    method Issue(now: int, key: string, grant: Grant)
      modifies this`grants
      ensures View() == Issued(old(View()), now, key, grant)
      ensures key in grants && grants[key] == grant
    {
      grants := map k | k in grants && now <= grants[k].expires :: grants[k];
      grants := grants[key := grant];
    }

    /** The first transaction of grant(); a row of another kind is never consumed. */
    method Select(now: int, key: string, kind: Option<Kind>, consume: bool) returns (row: Option<Grant>)
      modifies this`grants
      ensures row == Selected(old(View()), now, key, kind)
      ensures View() == if consume && row.Some? then Consumed(old(View()), key) else old(View())
      ensures consume && row.Some? ==> key !in grants
    {
      if !UsableKey(key) || key !in grants { return None; }
      var found := grants[key];
      if found.expires <= now || (kind.Some? && found.kind != kind.value) { return None; }
      if consume { grants := grants - {key}; }
      return Some(found);
    }

    method GrantOf(now: int, key: string, kind: Option<Kind>, consume: bool) returns (row: Option<Grant>)
      modifies this`grants
      ensures row == Granted(old(View()), now, key, kind)
      ensures View() == if consume && Selected(old(View()), now, key, kind).Some? then Consumed(old(View()), key) else old(View())
    {
      row := Select(now, key, kind, consume);
      if row.Some? && row.value.job.Some? && row.value.kind != Internal {
        var job := row.value.job.value;
        if job !in policies || !policies[job].enabled || policies[job].generation != row.value.generation { return None; }
      }
    }

    method Revoke(key: string)
      modifies this`grants
      ensures View() == Consumed(old(View()), key)
    {
      grants := grants - {key};
    }

    /** Internal authority needs an unexpired internal grant of this very Job; external
        authority an honoured access grant that may supervise, or the current code. */
    method AuthorityFor(now: int, job: string, key: string) returns (r: Option<Authority>)
      modifies this`grants
      ensures r == AuthorityOf(old(View()), now, job, key) && View() == old(View())
      ensures r == Some(InternalAuthority) <==>
        UsableKey(key) && key in grants && now < grants[key].expires && grants[key].kind == Internal && grants[key].job == Some(job)
      ensures r == Some(ExternalAuthority) && (policies[job].keyHash != Some(key) || !policies[job].enabled) ==>
        key in grants && grants[key].kind == Access && SUPERVISE in grants[key].data.scopes && grants[key].job == Some(job)
        && job in policies && policies[job].enabled && policies[job].generation == grants[key].generation
    {
      var grant := GrantOf(now, key, None, false);
      if grant.Some? && (grant.value.kind == Internal || grant.value.kind == Access) && grant.value.job == Some(job) {
        if grant.value.kind == Internal { return Some(InternalAuthority); }
        if SUPERVISE in grant.value.data.scopes { return Some(ExternalAuthority); }
      }
      if key != "" && job in policies && policies[job].enabled && policies[job].keyHash == Some(key) {
        return Some(ExternalAuthority);
      }
      return None;
    }
  }
}
