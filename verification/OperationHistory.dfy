/** Histories of durable operations: which events may follow which, and the receipts
    that keep their newest part. */
module OperationHistory {
  import opened OrderedDicts
  import opened Operations

  /** What every event of one operation shares with its predecessor, and what may come next. */
  ghost predicate Follows(a: Operation, b: Event) {
    && b.data.id == a.id && b.data.options == a.options && b.data.createdAt == a.createdAt
    && match b.kind
       case Accepted => b.data.status == Pending && b.data.progress.percent == 0
                        && a.status != Completed && !Unfinished(a.status)
                        && (b.data.fingerprint.Some? ==> b.data.fingerprint == a.fingerprint)
       case Progressed => b.data.status == Running && Unfinished(a.status) && Advances(a, b.data)
       case CompletedEvent => b.data.status == Completed && a.status == Running && Advances(a, b.data)
                              && b.data.progress.percent == 100
       case FailedEvent => b.data.status == Failed && a.status == Running && Advances(a, b.data)
       case InterruptedEvent => b.data.status == Interrupted && Unfinished(a.status)
                                && b.data.progress.percent == a.progress.percent && b.data.fingerprint == a.fingerprint
  }

  ghost predicate Advances(a: Operation, b: Operation) {
    a.progress.percent <= b.progress.percent <= 100 && b.fingerprint == a.fingerprint
  }

  /** A history begins with an acceptance, is numbered 1, 2, 3, ... without a gap, and
      every event may follow the one before it. */
  ghost predicate Legal(h: seq<Event>) {
    && h != []
    && h[0].kind == Accepted && h[0].data.status == Pending && h[0].data.progress.percent == 0
    && (forall i | 0 <= i < |h| :: h[i].sequence == i + 1)
    && (forall i | 0 < i < |h| :: Follows(h[i - 1].data, h[i]))
  }

  /** The receipt shows the newest events of the history, and the state they lead to. */
  ghost predicate Reflects(r: Receipt, h: seq<Event>, id: OpId) {
    && Legal(h)
    && r.operation.id == id
    && r.operation == h[|h| - 1].data
    && r.events == LastN(h, EVENT_CAP)
  }

  /** One more legal event: the bounded list of the publisher is again the newest part
      of the longer history. */
  lemma NextReflects(r: Receipt, h: seq<Event>, id: OpId, kind: EventKind, data: Operation)
    requires Reflects(r, h, id)
    requires Follows(r.operation, Event(|h| + 1, kind, data))
    ensures NextEvents(r.events, kind, data) == LastN(h + [Event(|h| + 1, kind, data)], EVENT_CAP)
    ensures var events := NextEvents(r.events, kind, data); events[|events| - 1] == Event(|h| + 1, kind, data)
    ensures Reflects(Receipt(data, NextEvents(r.events, kind, data)), h + [Event(|h| + 1, kind, data)], id)
  {
    var e := Event(|h| + 1, kind, data);
    var longer := h + [e];
    assert r.events != [] && r.events[|r.events| - 1] == h[|h| - 1];
    assert NextEvents(r.events, kind, data) == LastN(longer, EVENT_CAP);
    forall i | 0 < i < |longer| ensures Follows(longer[i - 1].data, longer[i]) {
      if i < |h| { assert longer[i - 1] == h[i - 1] && longer[i] == h[i]; }
    }
  }

  /** The first event of an operation that has no history. */
  lemma FirstReflects(id: OpId, data: Operation)
    requires data.id == id && data.status == Pending && data.progress.percent == 0
    ensures NextEvents([], Accepted, data) == [Event(1, Accepted, data)]
    ensures Reflects(Receipt(data, NextEvents([], Accepted, data)), [Event(1, Accepted, data)], id)
  {
    assert NextEvents([], Accepted, data) == [Event(1, Accepted, data)];
  }

  lemma LegalNumbers(h: seq<Event>)
    requires Legal(h)
    ensures h != [] && forall i | 0 <= i < |h| :: h[i].sequence == i + 1
  {}

  /** Options and creation time are those of the first acceptance, in every event. */
  lemma {:induction false} IdentityNeverChanges(h: seq<Event>, i: nat)
    requires Legal(h) && i < |h|
    ensures h[i].data.options == h[0].data.options && h[i].data.createdAt == h[0].data.createdAt
    ensures h[i].data.id == h[0].data.id
  {
    if i > 0 {
      IdentityNeverChanges(h, i - 1);
      assert Follows(h[i - 1].data, h[i]);
    }
  }

  /** As long as submissions carry the fingerprint of their body, every attempt is for the
      body of the first acceptance. */
  lemma {:induction false} BodyNeverChanges(h: seq<Event>, i: nat)
    requires Legal(h) && i < |h| && forall k | 0 <= k <= i && h[k].kind == Accepted :: h[k].data.fingerprint.Some?
    ensures h[i].data.fingerprint == h[0].data.fingerprint
  {
    if i > 0 {
      BodyNeverChanges(h, i - 1);
      assert Follows(h[i - 1].data, h[i]);
    }
  }

  /** Percent stays within 0..100 throughout, and within one attempt (no acceptance
      between i and j) it never decreases. */
  lemma {:induction false} PercentAdvances(h: seq<Event>, i: nat, j: nat)
    requires Legal(h) && i <= j < |h|
    ensures 0 <= h[j].data.progress.percent <= 100
    ensures (forall k | i < k <= j :: h[k].kind != Accepted) ==> h[i].data.progress.percent <= h[j].data.progress.percent
  {
    if j > 0 {
      assert Follows(h[j - 1].data, h[j]);
      if i < j { PercentAdvances(h, i, j - 1); } else { PercentAdvances(h, j - 1, j - 1); }
    }
  }

  /** Nothing follows a completion: an event that has a successor is none. */
  lemma CompletionIsLast(h: seq<Event>, i: nat)
    requires Legal(h) && i < |h| - 1
    ensures h[i].data.status != Completed
  {
    assert Follows(h[i].data, h[i + 1]);
  }

  /** How many attempts a history records. */
  function Acceptances(h: seq<Event>): nat {
    if h == [] then 0 else Acceptances(h[..|h| - 1]) + (if h[|h| - 1].kind == Accepted then 1 else 0)
  }

  lemma AcceptancesAppend(h: seq<Event>, e: Event)
    ensures Acceptances(h + [e]) == Acceptances(h) + (if e.kind == Accepted then 1 else 0)
  {
    assert (h + [e])[..|h|] == h;
  }
}
