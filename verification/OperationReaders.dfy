/** Readers of an operation's event stream: they poll under the lock, deliver outside it,
    and may reconnect at any time with the identifier of the last event they saw. */
module OperationReaders {
  import opened OrderedDicts
  import opened Operations
  import opened OperationHistory
  import opened OperationRuns
  import opened OperationTheorems
  import opened OperationAdmissions

  /** A stream is polling, delivering a batch (the last one, if it saw a terminal status),
      ended of itself, or broken off by a fault. */
  datatype StreamPhase = Polling | Delivering(terminal: bool) | Ended | Broken

  /** A client that asked for the events after `start`, and everything it got since.
      `polled` is the number of the newest event when the stream last looked. */
  datatype Reader = Reader(id: OpId, start: nat, got: seq<Event>, pending: seq<Event>, phase: StreamPhase, polled: int)

  datatype Session = Session(world: World, reader: Reader)

  datatype SessionStep =
    | System(step: Step)            // anything else the program does
    | Poll(io: DiskFaults)          // one pass of the inner loop
    | Deliver                       // one event reaches the client
    | Reconnect                     // the client returns with its Last-Event-ID

  function LastSeen(r: Reader): int { if r.got == [] then r.start else r.got[|r.got| - 1].sequence }

  /** The next sequence number a stream asks for. */
  function NextSequence(r: Reader): int { LastSeen(r) + 1 }

  function Newer(events: seq<Event>, next: int): seq<Event> {
    if events == [] then [] else (if events[0].sequence >= next then [events[0]] else []) + Newer(events[1..], next)
  }

  predicate Terminal(status: Status) {
    status == Completed || status == Failed || status == Cancelled || status == Canceled || status == Interrupted
  }

  function Newest(events: seq<Event>): int { if events == [] then 0 else events[|events| - 1].sequence }

  /** The reader after a poll that loaded `result` and found `events` in memory. */
  function Polled(r: Reader, result: Outcome<Option<Operation>>, events: seq<Event>): Reader {
    match result
    case Err(_) => r.(phase := Broken)
    case Ok(None) => r.(phase := Ended)
    case Ok(Some(op)) =>
      var batch := Newer(events, NextSequence(r));
      if batch != [] then r.(pending := batch, phase := Delivering(Terminal(op.status)), polled := Newest(events))
      else r.(phase := if Terminal(op.status) then Ended else Polling, polled := Newest(events))
  }

  function Delivered(r: Reader): Reader
    requires r.phase.Delivering? && r.pending != []
  {
    var rest := r.pending[1..];
    r.(got := r.got + [r.pending[0]], pending := rest,
       phase := if rest != [] then r.phase else if r.phase.terminal then Ended else Polling)
  }

  function SessionNext(x: Session, step: SessionStep, limit: nat): Session {
    match step
    case System(step) => x.(world := Next(x.world, step, limit))
    case Poll(io) =>
      if x.reader.phase != Polling then x
      else
        var loaded := Load(x.world.store, x.reader.id, limit, io);
        Session(Next(x.world, Read(x.reader.id, io), limit),
                Polled(x.reader, loaded.result, Lookup(loaded.store.events, x.reader.id)))
    case Deliver => if x.reader.phase.Delivering? && x.reader.pending != [] then x.(reader := Delivered(x.reader)) else x
    case Reconnect => x.(reader := x.reader.(pending := [], phase := Polling))
  }

  function SessionRun(x: Session, steps: seq<SessionStep>, limit: nat): Session
    decreases |steps|
  {
    if steps == [] then x else SessionRun(SessionNext(x, steps[0], limit), steps[1..], limit)
  }

  function Connected(w: World, id: OpId, start: nat): Session { Session(w, Reader(id, start, [], [], Polling, 0)) }

  ghost function HistoryOf(x: Session): seq<Event> { Lookup(x.world.store.history, x.reader.id) }

  // ---- what a poll sees ---------------------------------------------------------------

  lemma {:induction false} NewerOfConsecutive(events: seq<Event>, next: int)
    requires forall i | 0 <= i < |events| :: events[i].sequence == events[0].sequence + i
    ensures var skip := if events == [] then 0 else Max(0, next - events[0].sequence);
      Newer(events, next) == if skip <= |events| then events[skip..] else []
  {
    if events != [] {
      assert forall i | 0 <= i < |events| - 1 :: events[1..][i] == events[i + 1];
      NewerOfConsecutive(events[1..], next);
    }
  }

  /** The batch of a poll is the history from the event asked for, or from the oldest one
      still kept when that is newer. */
  lemma BatchIsSuffix(h: seq<Event>, next: int)
    requires Legal(h) && 1 <= next
    ensures var from := Max(next - 1, |h| - EVENT_CAP);
      Newer(LastN(h, EVENT_CAP), next) == if from <= |h| then h[from..] else []
  {
    hide Legal, Newer;
    LegalNumbers(h);
    var base := Max(0, |h| - EVENT_CAP);
    assert LastN(h, EVENT_CAP) == h[base..];
    NewerOfSuffix(h, base, next);
  }

  lemma NewerOfSuffix(h: seq<Event>, base: nat, next: int)
    requires base < |h| && 1 <= next && forall i | 0 <= i < |h| :: h[i].sequence == i + 1
    ensures Newer(h[base..], next) == if Max(next - 1, base) <= |h| then h[Max(next - 1, base)..] else []
  {
    hide Newer;
    var kept := h[base..];
    assert forall i | 0 <= i < |kept| :: kept[i] == h[base + i] && kept[i].sequence == base + i + 1;
    NewerOfConsecutive(kept, next);
    var skip := Max(0, next - (base + 1));
    if skip <= |kept| { assert kept[skip..] == h[base + skip..]; }
  }

  /** A batch starts right after the last event seen if and only if the reader is at most
      EVENT_CAP events behind; one that is further behind loses exactly the difference. */
  lemma GapIffLagging(h: seq<Event>, next: int)
    requires Legal(h) && 1 <= next <= |h|
    ensures var batch := Newer(LastN(h, EVENT_CAP), next);
      && batch != []
      && (batch[0].sequence == next <==> |h| - (next - 1) <= EVENT_CAP)
      && batch[0].sequence - next == Max(0, |h| - (next - 1) - EVENT_CAP)
      && batch[|batch| - 1] == h[|h| - 1]
  {
    hide Legal;
    LegalNumbers(h);
    BatchIsSuffix(h, next);
  }

  /** A history of one acceptance and 200 reports of progress. */
  function LongHistory(): seq<Event> {
    var queued := Operation(Durable("caller", Preparation, "key"), "prepare_job", Pending, 0, 0, map[], None,
                            Progress(0, "queued", "Queued", ""), None, None);
    seq(EVENT_CAP + 1, i requires 0 <= i < EVENT_CAP + 1 =>
      if i == 0 then Event(1, Accepted, queued) else Event(i + 1, Progressed, queued.(status := Running)))
  }

  /** It happens: a reader that has seen nothing of it gets event 2 first, and never event 1. */
  lemma LaggingExample()
    ensures var h := LongHistory(); var batch := Newer(LastN(h, EVENT_CAP), 1);
      Legal(h) && batch != [] && batch[0] == h[1] && h[0] !in batch
  {
    var h := LongHistory();
    assert Legal(h);
    hide LongHistory;
    BatchIsSuffix(h, 1);
    hide Legal, Newer;
    LegalNumbers(h);
    forall i | 0 <= i < |h[1..]|
      ensures h[1..][i].sequence != h[0].sequence
    {
      assert h[1..][i] == h[i + 1];
    }
  }

  // ---- every session ------------------------------------------------------------------

  /** The event is the one the history has under its number. */
  ghost predicate Genuine(e: Event, h: seq<Event>) { 1 <= e.sequence <= |h| && e == h[e.sequence - 1] }

  /** What the client has is genuine, after `start`, and in order. */
  ghost predicate GotInOrder(r: Reader, h: seq<Event>) {
    && (forall k | 0 <= k < |r.got| :: r.start < r.got[k].sequence && Genuine(r.got[k], h))
    && (forall j, k | 0 <= j < k < |r.got| :: r.got[j].sequence < r.got[k].sequence)
    && (r.phase == Ended && r.got != [] ==> Terminal(r.got[|r.got| - 1].data.status))
  }

  /** What is about to be delivered is a genuine stretch of the history that starts after
      the last event seen; a terminal batch ends on an event with a terminal status. */
  ghost predicate PendingInOrder(r: Reader, h: seq<Event>) {
    && (r.pending != [] <==> r.phase.Delivering?)
    && (forall i | 0 <= i < |r.pending| :: Genuine(r.pending[i], h) && r.pending[i].sequence == r.pending[0].sequence + i)
    && (r.pending != [] ==> LastSeen(r) < r.pending[0].sequence)
    && (r.phase == Delivering(true) ==> Terminal(r.pending[|r.pending| - 1].data.status))
  }

  /** What is being delivered ends with the newest event of the last poll, and a stream that
      has ended of itself has delivered that event, which has a terminal status. */
  ghost predicate UpToDate(r: Reader, h: seq<Event>) {
    && 0 <= r.polled <= |h|
    && (r.got != [] ==> LastSeen(r) <= r.polled)
    && (r.pending != [] ==> r.pending[|r.pending| - 1].sequence == r.polled)
    && (r.phase == Delivering(true) ==> r.polled > 0 && Terminal(h[r.polled - 1].data.status))
    && (r.phase == Ended ==> r.polled <= LastSeen(r) && (r.polled > 0 ==> Terminal(h[r.polled - 1].data.status)))
  }

  ghost predicate SessionInv(x: Session) {
    && Inv(x.world) && x.reader.id.Durable?
    && GotInOrder(x.reader, HistoryOf(x)) && PendingInOrder(x.reader, HistoryOf(x)) && UpToDate(x.reader, HistoryOf(x))
  }

  lemma DeliveryKeepsInv(x: Session)
    requires SessionInv(x) && x.reader.phase.Delivering?
    ensures SessionInv(x.(reader := Delivered(x.reader)))
  {
    hide Inv;
    var r := x.reader;
    var d := Delivered(r);
    forall i | 0 <= i < |d.pending| ensures d.pending[i] == r.pending[i + 1] {}
    assert d.got[|d.got| - 1] == r.pending[0];
    forall k | 0 <= k < |r.got| ensures r.got[k].sequence < r.pending[0].sequence {
      assert r.got[k].sequence <= r.got[|r.got| - 1].sequence;
    }
  }

  lemma StaysInOrder(r: Reader, h: seq<Event>, g: seq<Event>)
    requires h <= g && GotInOrder(r, h) && PendingInOrder(r, h)
    ensures GotInOrder(r, g) && PendingInOrder(r, g)
  {}

  lemma StaysUpToDate(r: Reader, h: seq<Event>, g: seq<Event>)
    requires h <= g && UpToDate(r, h)
    ensures UpToDate(r, g)
  {}

  lemma PolledIsUpToDate(r: Reader, op: Operation, h: seq<Event>)
    requires GotInOrder(r, h) && PendingInOrder(r, h) && UpToDate(r, h) && r.phase == Polling && Legal(h) && op == h[|h| - 1].data
    ensures var p := Polled(r, Ok(Some(op)), LastN(h, EVENT_CAP)); UpToDate(p, h) && p.polled == |h|
  {
    hide Legal, Newer, GotInOrder, Genuine;
    SeenIsBounded(r, h);
    LegalNumbers(h);
    BatchIsSuffix(h, NextSequence(r));
    var from := Max(NextSequence(r) - 1, |h| - EVENT_CAP);
    if from < |h| { assert h[from..][|h| - from - 1] == h[|h| - 1]; }
  }

  /** A poll that finds the operation: the reader waits, has ended having seen everything,
      or holds the rest of the history that is still kept. */
  lemma PolledInOrder(r: Reader, op: Operation, h: seq<Event>)
    requires GotInOrder(r, h) && PendingInOrder(r, h) && r.phase == Polling && Legal(h) && op == h[|h| - 1].data
    ensures var p := Polled(r, Ok(Some(op)), LastN(h, EVENT_CAP));
      && GotInOrder(p, h) && PendingInOrder(p, h) && p.got == r.got
      && (p.phase == Ended ==> |h| <= LastSeen(p))
      && (p.pending != [] ==> p.pending[0].sequence == Max(NextSequence(r), |h| - EVENT_CAP + 1) && p.pending[|p.pending| - 1] == h[|h| - 1])
  {
    hide Legal, LastN, Newer, Genuine, GotInOrder, PendingInOrder, Newest;
    SeenIsBounded(r, h);
    LegalNumbers(h);
    NewestKept(h);
    BatchIsSuffix(h, NextSequence(r));
    var from := Max(NextSequence(r) - 1, |h| - EVENT_CAP);
    if from < |h| {
      BatchInOrder(r, h, from, Terminal(op.status));
    } else {
      NothingNewInOrder(r, h);
    }
  }

  lemma NewestKept(h: seq<Event>)
    requires Legal(h)
    ensures Newest(LastN(h, EVENT_CAP)) == |h|
  {
    hide Legal;
    LegalNumbers(h);
  }

  lemma BatchInOrder(r: Reader, h: seq<Event>, from: nat, terminal: bool)
    requires GotInOrder(r, h) && r.phase == Polling && Legal(h) && LastSeen(r) <= from < |h|
    requires terminal == Terminal(h[|h| - 1].data.status)
    ensures var p := r.(pending := h[from..], phase := Delivering(terminal), polled := |h|);
      GotInOrder(p, h) && PendingInOrder(p, h) && p.pending[0].sequence == from + 1
  {
    hide Legal, Genuine;
    SuffixIsGenuine(h, from);
  }

  lemma NothingNewInOrder(r: Reader, h: seq<Event>)
    requires GotInOrder(r, h) && PendingInOrder(r, h) && r.phase == Polling && h != [] && |h| <= LastSeen(r)
    ensures r.pending == []
    ensures var p := r.(phase := if Terminal(h[|h| - 1].data.status) then Ended else Polling, polled := |h|);
      GotInOrder(p, h) && PendingInOrder(p, h)
  {
    SeenIsBounded(r, h);
    if r.got != [] { assert Genuine(r.got[|r.got| - 1], h); }
  }

  lemma SeenIsBounded(r: Reader, h: seq<Event>)
    requires GotInOrder(r, h)
    ensures 0 <= LastSeen(r) && (r.got != [] ==> 0 < LastSeen(r) <= |h|)
  {
    if r.got != [] { assert Genuine(r.got[|r.got| - 1], h); }
  }

  lemma SuffixIsGenuine(h: seq<Event>, from: nat)
    requires Legal(h) && from < |h|
    ensures forall i | 0 <= i < |h| - from :: Genuine(h[from..][i], h) && h[from..][i].sequence == from + 1 + i
  {
    hide Legal;
    LegalNumbers(h);
  }

  /** After a poll the reader waits, has ended having seen everything, or holds the rest of
      the history that is still kept. */
  lemma PollKeepsInv(x: Session, limit: nat, io: DiskFaults)
    requires 1 <= limit && SessionInv(x) && x.reader.phase == Polling
    ensures SessionInv(SessionNext(x, Poll(io), limit))
    ensures var y := SessionNext(x, Poll(io), limit); var h := HistoryOf(y);
      && y.reader.got == x.reader.got
      && (y.reader.phase == Ended ==> |h| <= LastSeen(y.reader))
      && (y.reader.pending != [] ==>
            && y.reader.pending[0].sequence == Max(NextSequence(x.reader), |h| - EVENT_CAP + 1)
            && y.reader.pending[|y.reader.pending| - 1] == h[|h| - 1])
  {
    hide Inv, Legal, Load, LastN, Newer, Genuine, GotInOrder, PendingInOrder, Polled, UpToDate;
    var id := x.reader.id;
    InvHasStoreInv(x.world);
    StepKeepsInv(x.world, Read(id, io), limit);
    StepGrows(x.world, Read(id, io), limit);
    var loaded := Load(x.world.store, id, limit, io);
    var h := Lookup(loaded.store.history, id);
    StaysInOrder(x.reader, HistoryOf(x), h);
    StaysUpToDate(x.reader, HistoryOf(x), h);
    PollFinds(x.reader, loaded.result, Lookup(loaded.store.events, id), h);
    if loaded.result.Ok? {
      ReadShowsJournal(x.world.store, id, limit, io);
      if loaded.result.value.Some? {
        PolledInOrder(x.reader, loaded.result.value.value, h);
        PolledIsUpToDate(x.reader, loaded.result.value.value, h);
      }
    }
  }

  lemma PollFinds(r: Reader, result: Outcome<Option<Operation>>, events: seq<Event>, h: seq<Event>)
    requires GotInOrder(r, h) && PendingInOrder(r, h) && UpToDate(r, h) && r.phase == Polling
    ensures Polled(r, result, events).id == r.id
    ensures result.Err? || (result == Ok(None) && h == []) ==>
      var p := Polled(r, result, events);
      GotInOrder(p, h) && PendingInOrder(p, h) && UpToDate(p, h) && p.got == r.got && p.pending == []
      && (p.phase == Ended ==> |h| <= LastSeen(p))
  {
    SeenIsBounded(r, h);
  }

  lemma InvHasStoreInv(w: World)
    requires Inv(w)
    ensures StoreInv(w.store)
  {}

  lemma ReadShowsJournal(s: Store, id: OpId, limit: nat, io: DiskFaults)
    requires 1 <= limit && StoreInv(s) && id.Durable? && Load(s, id, limit, io).result.Ok?
    ensures var t := Load(s, id, limit, io).store; var h := Lookup(t.history, id);
      match Load(s, id, limit, io).result.value
      case None => h == []
      case Some(op) => Legal(h) && op == h[|h| - 1].data && Lookup(t.events, id) == LastN(h, EVENT_CAP)
  {
    hide Legal, Load, LastN;
    hide StoreInv;
    LoadKeepsInv(s, id, limit, io);
    JournalShows(Load(s, id, limit, io).store, id);
  }

  lemma JournalShows(t: Store, id: OpId)
    requires StoreInv(t)
    ensures id in t.disk <==> id in t.history
    ensures id in t.disk ==>
              var h := t.history[id];
              && Legal(h) && h != [] && t.disk[id].operation == h[|h| - 1].data && t.disk[id].events == LastN(h, EVENT_CAP)
    ensures id in t.disk && id in t.durable ==> Lookup(t.events, id) == t.disk[id].events
  {
    hide Legal, LastN;
    if id in t.disk {
      assert Reflects(t.disk[id], t.history[id], id);
      LegalNumbers(t.history[id]);
    }
  }

  lemma SessionStepKeepsInv(x: Session, step: SessionStep, limit: nat)
    requires 1 <= limit && SessionInv(x)
    ensures SessionInv(SessionNext(x, step, limit))
  {
    hide Inv, Next, Load, Polled;
    match step
    case System(s) =>
      StepKeepsInv(x.world, s, limit);
      StepGrows(x.world, s, limit);
      assert HistoryOf(x) <= HistoryOf(SessionNext(x, step, limit));
      StaysUpToDate(x.reader, HistoryOf(x), HistoryOf(SessionNext(x, step, limit)));
    case Poll(io) => if x.reader.phase == Polling { PollKeepsInv(x, limit, io); }
    case Deliver => if x.reader.phase.Delivering? { DeliveryKeepsInv(x); }
    case Reconnect =>
  }

  lemma {:induction false} SessionRunKeepsInv(x: Session, steps: seq<SessionStep>, limit: nat)
    requires 1 <= limit && SessionInv(x)
    ensures SessionInv(SessionRun(x, steps, limit))
    decreases |steps|
  {
    hide SessionInv, SessionNext;
    if steps != [] {
      SessionStepKeepsInv(x, steps[0], limit);
      SessionRunKeepsInv(SessionNext(x, steps[0], limit), steps[1..], limit);
    }
  }

  /** However a client polls, is cut off and reconnects, with whatever crashes, evictions
      and restarts in between: it gets genuine events only, all of them after its start,
      in order and none twice. A stream that ended of itself has delivered the newest event
      there was when it last looked, and that event has a terminal status. */
  lemma EventsArriveInOrder(w: World, id: OpId, start: nat, steps: seq<SessionStep>, limit: nat)
    requires 1 <= limit && Inv(w) && id.Durable?
    ensures var x := SessionRun(Connected(w, id, start), steps, limit); GotInOrder(x.reader, HistoryOf(x))
    ensures var x := SessionRun(Connected(w, id, start), steps, limit); var r := x.reader; var h := HistoryOf(x);
      r.phase == Ended ==>
        && 0 <= r.polled <= |h| && (r.polled > 0 ==> Terminal(h[r.polled - 1].data.status))
        && if r.got == [] then r.polled <= start else r.polled > 0 && r.got[|r.got| - 1] == h[r.polled - 1]
  {
    hide Inv, SessionNext, SessionRun;
    assert SessionInv(Connected(w, id, start));
    SessionRunKeepsInv(Connected(w, id, start), steps, limit);
    SessionKeepsRequest(Connected(w, id, start), steps, limit);
    hide SessionInv;
    EndedHasNewest(SessionRun(Connected(w, id, start), steps, limit));
  }

  lemma EndedHasNewest(x: Session)
    requires SessionInv(x)
    ensures var r := x.reader; var h := HistoryOf(x);
      && GotInOrder(r, h)
      && (r.phase == Ended ==>
            && 0 <= r.polled <= |h| && (r.polled > 0 ==> Terminal(h[r.polled - 1].data.status))
            && if r.got == [] then r.polled <= r.start else r.polled > 0 && r.got[|r.got| - 1] == h[r.polled - 1])
  {
    hide Inv;
    var r := x.reader;
    if r.phase == Ended && r.got != [] { assert Genuine(r.got[|r.got| - 1], HistoryOf(x)); }
  }

  /** No poll of the run finds the reader more than EVENT_CAP events behind. */
  ghost predicate KeepsUp(x: Session, steps: seq<SessionStep>, limit: nat)
    decreases |steps|
  {
    steps == [] ||
    var y := SessionNext(x, steps[0], limit);
    && (steps[0].Poll? && x.reader.phase == Polling ==> |HistoryOf(y)| - LastSeen(x.reader) <= EVENT_CAP)
    && KeepsUp(y, steps[1..], limit)
  }

  /** Nothing was left out so far, and nothing is about to be. */
  ghost predicate Gapless(r: Reader) {
    && (forall k | 0 <= k < |r.got| :: r.got[k].sequence == r.start + 1 + k)
    && (r.pending != [] ==> r.pending[0].sequence == NextSequence(r))
  }

  lemma {:induction false} GaplessRun(x: Session, steps: seq<SessionStep>, limit: nat)
    requires 1 <= limit && SessionInv(x) && Gapless(x.reader) && KeepsUp(x, steps, limit)
    ensures Gapless(SessionRun(x, steps, limit).reader)
    decreases |steps|
  {
    hide SessionInv, Next, Load, Polled;
    if steps != [] {
      var y := SessionNext(x, steps[0], limit);
      SessionStepKeepsInv(x, steps[0], limit);
      match steps[0] {
        case Poll(io) => if x.reader.phase == Polling { PollIsGapless(x, limit, io); }
        case Deliver => if x.reader.phase.Delivering? { DeliveryIsGapless(x); }
        case _ =>
      }
      GaplessRun(y, steps[1..], limit);
    }
  }

  lemma PollIsGapless(x: Session, limit: nat, io: DiskFaults)
    requires 1 <= limit && SessionInv(x) && x.reader.phase == Polling && Gapless(x.reader)
    requires |HistoryOf(SessionNext(x, Poll(io), limit))| - LastSeen(x.reader) <= EVENT_CAP
    ensures Gapless(SessionNext(x, Poll(io), limit).reader)
  {
    hide SessionInv, Next, Load;
    PollKeepsInv(x, limit, io);
    assert SessionNext(x, Poll(io), limit).reader.start == x.reader.start;
  }

  lemma DeliveryIsGapless(x: Session)
    requires SessionInv(x) && x.reader.phase.Delivering? && Gapless(x.reader)
    ensures Gapless(Delivered(x.reader))
  {
    hide Inv;
    var r := x.reader;
    assert |r.pending| > 1 ==> r.pending[1].sequence == r.pending[0].sequence + 1;
  }

  /** A client that is never more than EVENT_CAP events behind when it polls has received
      each event after its start exactly once and in order, over any number of
      reconnections: what it holds is a stretch of the history without a gap. When its
      stream has ended of itself, that stretch reaches to the newest event of the last look,
      and if that is a completion, to the end of the history. */
  lemma EachEventExactlyOnce(w: World, id: OpId, start: nat, steps: seq<SessionStep>, limit: nat)
    requires 1 <= limit && Inv(w) && id.Durable? && KeepsUp(Connected(w, id, start), steps, limit)
    ensures var x := SessionRun(Connected(w, id, start), steps, limit);
      var r := x.reader; var h := HistoryOf(x); var n := |r.got|;
      && (n > 0 ==> start + n <= |h| && r.got == h[start..start + n])
      && (r.phase == Ended && start < r.polled ==>
            && r.polled <= |h| && r.got == h[start..r.polled] && Terminal(h[r.polled - 1].data.status)
            && (h[r.polled - 1].data.status == Completed ==> r.got == h[start..]))
      && (r.phase == Ended && r.polled <= start ==> r.got == [])
  {
    hide Inv, SessionNext, SessionRun, KeepsUp;
    assert SessionInv(Connected(w, id, start));
    SessionRunKeepsInv(Connected(w, id, start), steps, limit);
    GaplessRun(Connected(w, id, start), steps, limit);
    var x := SessionRun(Connected(w, id, start), steps, limit);
    SessionKeepsRequest(Connected(w, id, start), steps, limit);
    hide SessionInv, HistoryOf, Gapless;
    GotIsStretch(x);
    EndedHasNewest(x);
    hide GotInOrder;
    if x.reader.phase == Ended && 0 < x.reader.polled && HistoryOf(x)[x.reader.polled - 1].data.status == Completed {
      CompletionEnds(x);
    }
  }

  lemma GotIsStretch(x: Session)
    requires SessionInv(x) && Gapless(x.reader)
    ensures var r := x.reader; var h := HistoryOf(x); var n := |r.got|;
      n > 0 ==> r.start + n <= |h| && r.got == h[r.start..r.start + n] && r.got[n - 1].sequence == r.start + n
    ensures x.reader.phase == Ended && x.reader.got != [] ==> x.reader.polled == x.reader.start + |x.reader.got|
  {
    hide Inv;
    var r, h := x.reader, HistoryOf(x);
    forall k | 0 <= k < |r.got|
      ensures r.start + k < |h| && r.got[k] == h[r.start + k]
    {
      GotIsGenuine(x, k);
    }
    if r.got != [] { assert r.start + (|r.got| - 1) < |h|; }
  }

  /** A completion that was seen as the newest event is the newest event still. */
  lemma CompletionEnds(x: Session)
    requires SessionInv(x) && 0 < x.reader.polled <= |HistoryOf(x)|
    requires HistoryOf(x)[x.reader.polled - 1].data.status == Completed
    ensures x.reader.polled == |HistoryOf(x)|
  {
    hide WorkersInv, ClaimsInv, Legal, GotInOrder, PendingInOrder, UpToDate;
    var h := HistoryOf(x);
    JournalShows(x.world.store, x.reader.id);
    if x.reader.polled < |h| { CompletionIsLast(h, x.reader.polled - 1); }
  }

  lemma GotIsGenuine(x: Session, k: nat)
    requires SessionInv(x) && Gapless(x.reader) && k < |x.reader.got|
    ensures var h := HistoryOf(x); x.reader.start + k < |h| && x.reader.got[k] == h[x.reader.start + k]
  {
    hide Inv;
    assert Genuine(x.reader.got[k], HistoryOf(x));
  }

  lemma {:induction false} SessionKeepsRequest(x: Session, steps: seq<SessionStep>, limit: nat)
    ensures SessionRun(x, steps, limit).reader.id == x.reader.id && SessionRun(x, steps, limit).reader.start == x.reader.start
    decreases |steps|
  {
    hide Next, Load;
    if steps != [] { SessionKeepsRequest(SessionNext(x, steps[0], limit), steps[1..], limit); }
  }

  // ---- what a poll finds is handed over ---------------------------------------------------

  /** The reader after a poll that found the history h: it delivers exactly if there is
      something newer, whatever the status, and then all that is kept of it; it ends
      exactly if there is nothing newer and the newest event has a terminal status. */
  ghost predicate HandsOver(r: Reader, p: Reader, h: seq<Event>)
    requires h != [] && 0 <= LastSeen(r)
  {
    && p.id == r.id && p.start == r.start && p.got == r.got && p.polled == |h|
    && (p.phase.Delivering? <==> LastSeen(r) < |h|)
    && (LastSeen(r) < |h| ==>
          p.pending == h[Max(LastSeen(r), |h| - EVENT_CAP)..] && p.phase == Delivering(Terminal(h[|h| - 1].data.status)))
    && (p.phase == Ended <==> |h| <= LastSeen(r) && Terminal(h[|h| - 1].data.status))
    && p.phase != Broken
  }

  lemma PolledHandsOver(r: Reader, op: Operation, h: seq<Event>)
    requires Legal(h) && op == h[|h| - 1].data && GotInOrder(r, h)
    ensures 0 <= LastSeen(r)
    ensures HandsOver(r, Polled(r, Ok(Some(op)), LastN(h, EVENT_CAP)), h)
  {
    hide Legal, Newer, GotInOrder, LastN, Newest;
    SeenIsBounded(r, h);
    NewestKept(h);
    BatchIsSuffix(h, NextSequence(r));
  }

  /** A poll of a saved operation, as far as it concerns the store and the reader. */
  lemma PollOfSaved(s: Store, r: Reader, limit: nat, io: DiskFaults)
    requires 1 <= limit && StoreInv(s) && r.id in s.disk && GotInOrder(r, Lookup(s.history, r.id))
    ensures 0 <= LastSeen(r)
    ensures var loaded := Load(s, r.id, limit, io); var h := Lookup(loaded.store.history, r.id);
      var p := Polled(r, loaded.result, Lookup(loaded.store.events, r.id));
      && (loaded.result.Err? <==> io.readFails || (NeedsRecovery(s, r.id) && io.recoveryWriteFails))
      && h != [] && (p.phase == Broken <==> loaded.result.Err?) && p.id == r.id
      && (loaded.result.Ok? ==> HandsOver(r, p, h))
  {
    hide Legal, Load, LastN, GotInOrder, Polled, NeedsRecovery, HandsOver, StoreInv;
    LoadSucceedsIff(s, r.id, limit, io);
    JournalHas(s, r.id);
    SeenIsBounded(r, Lookup(s.history, r.id));
    var loaded := Load(s, r.id, limit, io);
    PollOfMiss(r, loaded.result, Lookup(loaded.store.events, r.id));
    if loaded.result.Ok? {
      var h := Lookup(loaded.store.history, r.id);
      ReadGrows(s, loaded.store, r.id);
      assert Lookup(s.history, r.id) <= h;
      StaysGot(r, Lookup(s.history, r.id), h);
      SavedParts(s, r.id);
      ReadShowsJournal(s, r.id, limit, io);
      LegalIsSomething(h);
      PolledHandsOver(r, loaded.result.value.value, h);
      HandingOverKeeps(r, Polled(r, loaded.result, Lookup(loaded.store.events, r.id)), h);
    }
  }

  /** A poll fails exactly if the file cannot be read or brought up to date, ends the stream
      of an operation that does not exist, and otherwise hands over what it finds. */
  lemma PollHandsOver(x: Session, limit: nat, io: DiskFaults)
    requires 1 <= limit && SessionInv(x) && x.reader.phase == Polling
    ensures 0 <= LastSeen(x.reader)
    ensures var y := SessionNext(x, Poll(io), limit); var id := x.reader.id; var h := HistoryOf(y);
      && (y.reader.phase == Broken <==> io.readFails || (NeedsRecovery(x.world.store, id) && io.recoveryWriteFails))
      && (y.reader.phase != Broken ==> if h == [] then y.reader == x.reader.(phase := Ended) else HandsOver(x.reader, y.reader, h))
      && (h != [] <==> id in x.world.store.disk)
  {
    hide WorkersInv, ClaimsInv, StoreInv, Load, GotInOrder, PendingInOrder, UpToDate, Polled, NeedsRecovery, HandsOver;
    var id, s := x.reader.id, x.world.store;
    JournalHas(s, id);
    if id in s.disk {
      PollOfSaved(s, x.reader, limit, io);
    } else {
      MissingFile(s, id, limit, io);
      SeenIsBounded(x.reader, HistoryOf(x));
      PollOfMiss(x.reader, Load(s, id, limit, io).result, Lookup(s.events, id));
    }
  }

  lemma StaysGot(r: Reader, h: seq<Event>, g: seq<Event>)
    requires h <= g && GotInOrder(r, h)
    ensures GotInOrder(r, g)
  {}

  lemma PollOfMiss(r: Reader, result: Outcome<Option<Operation>>, events: seq<Event>)
    ensures result.Err? ==> Polled(r, result, events) == r.(phase := Broken)
    ensures result == Ok(None) ==> Polled(r, result, events) == r.(phase := Ended)
  {
    hide Newer;
  }

  lemma LegalIsSomething(h: seq<Event>)
    ensures Legal(h) ==> h != []
  {}

  lemma HandingOverKeeps(r: Reader, p: Reader, h: seq<Event>)
    requires h != [] && 0 <= LastSeen(r) && HandsOver(r, p, h)
    ensures p.phase != Broken && p.id == r.id
  {}

  lemma JournalHas(s: Store, id: OpId)
    requires StoreInv(s)
    ensures id in s.disk <==> Lookup(s.history, id) != []
    ensures id !in s.disk ==> !NeedsRecovery(s, id)
  {
    hide Legal;
    if id in s.disk { assert Reflects(s.disk[id], s.history[id], id); LegalIsSomething(s.history[id]); }
  }

  /** How many events reach the client in a run, if there are any to deliver. */
  function Deliveries(steps: seq<SessionStep>): nat {
    if steps == [] then 0 else (if steps[0].Deliver? then 1 else 0) + Deliveries(steps[1..])
  }

  /** As long as it is not cut off, a client gets the events that are pending, one with
      each delivery, whatever else the program does and whoever polls. */
  lemma {:induction false} PendingIsDelivered(x: Session, steps: seq<SessionStep>, limit: nat)
    requires x.reader.phase.Delivering? <==> x.reader.pending != []
    requires Deliveries(steps) <= |x.reader.pending| && forall step | step in steps :: !step.Reconnect?
    requires x.reader.pending != [] || Deliveries(steps) == 0
    ensures SessionRun(x, steps, limit).reader.got == x.reader.got + x.reader.pending[..Deliveries(steps)]
    decreases |steps|
  {
    hide Next, Load, Polled;
    if steps != [] {
      var y := SessionNext(x, steps[0], limit);
      assert forall step | step in steps[1..] :: step in steps;
      if Deliveries(steps) == 0 {
        NothingDelivered(x, steps, limit);
        assert x.reader.got + [] == x.reader.got;
      } else {
        PendingIsDelivered(y, steps[1..], limit);
        if steps[0].Deliver? {
          assert [x.reader.pending[0]] + x.reader.pending[1..][..Deliveries(steps[1..])] == x.reader.pending[..Deliveries(steps)];
          assert x.reader.got + ([x.reader.pending[0]] + y.reader.pending[..Deliveries(steps[1..])]) == y.reader.got + y.reader.pending[..Deliveries(steps[1..])];
        }
      }
    }
  }

  lemma {:induction false} NothingDelivered(x: Session, steps: seq<SessionStep>, limit: nat)
    requires Deliveries(steps) == 0 && forall step | step in steps :: !step.Reconnect?
    ensures SessionRun(x, steps, limit).reader.got == x.reader.got
    decreases |steps|
  {
    hide Next, Load;
    if steps != [] {
      assert forall step | step in steps[1..] :: step in steps;
      NothingDelivered(SessionNext(x, steps[0], limit), steps[1..], limit);
    }
  }

  /** So a client that polls with something newer there has it after as many deliveries as
      there are events: it has then seen all that the poll saw, in whatever run that is. */
  lemma EveryPollCatchesUp(x: Session, io: DiskFaults, steps: seq<SessionStep>, limit: nat)
    requires 1 <= limit && SessionInv(x) && x.reader.phase == Polling
    requires var y := SessionNext(x, Poll(io), limit);
      && y.reader.phase != Broken && LastSeen(x.reader) < |HistoryOf(y)|
      && Deliveries(steps) == |HistoryOf(y)| - Max(LastSeen(x.reader), |HistoryOf(y)| - EVENT_CAP)
    requires forall step | step in steps :: !step.Reconnect?
    ensures var y := SessionNext(x, Poll(io), limit); var h := HistoryOf(y);
      var r := SessionRun(y, steps, limit).reader;
      r.got == x.reader.got + h[Max(LastSeen(x.reader), |h| - EVENT_CAP)..] && LastSeen(r) == |h|
  {
    hide SessionRun, SessionNext, SessionInv, HistoryOf;
    var y := SessionNext(x, Poll(io), limit);
    PollLeavesPending(x, y, io, limit);
    PendingIsDelivered(y, steps, limit);
    var pending := y.reader.pending;
    assert pending[..|pending|] == pending;
    assert (x.reader.got + pending)[|x.reader.got + pending| - 1] == pending[|pending| - 1];
  }

  /** The reader is about to deliver all of h that is newer than what r has seen and still kept. */
  ghost predicate HoldsRest(r: Reader, p: Reader, h: seq<Event>) {
    && 0 <= LastSeen(r) < |h| && p.got == r.got && p.phase.Delivering? && p.pending != []
    && p.pending == h[Max(LastSeen(r), |h| - EVENT_CAP)..]
    && p.pending[|p.pending| - 1].sequence == |h|
  }

  lemma PollLeavesPending(x: Session, y: Session, io: DiskFaults, limit: nat)
    requires 1 <= limit && SessionInv(x) && x.reader.phase == Polling && y == SessionNext(x, Poll(io), limit)
    requires y.reader.phase != Broken && LastSeen(x.reader) < |HistoryOf(y)|
    ensures HoldsRest(x.reader, y.reader, HistoryOf(y))
  {
    hide SessionNext, HistoryOf, SessionInv, HandsOver, NeedsRecovery;
    PollHandsOver(x, limit, io);
    PollKeepsInv(x, limit, io);
    NewestIsNumbered(y);
    HandedOver(x.reader, y.reader, HistoryOf(y));
  }

  lemma HandedOver(r: Reader, p: Reader, h: seq<Event>)
    requires h != [] && 0 <= LastSeen(r) < |h| && HandsOver(r, p, h)
    ensures p.got == r.got && p.phase.Delivering? && p.pending != []
    ensures p.pending == h[Max(LastSeen(r), |h| - EVENT_CAP)..] && p.pending[|p.pending| - 1] == h[|h| - 1]
  {
  }

  lemma NewestIsNumbered(x: Session)
    requires SessionInv(x) && HistoryOf(x) != []
    ensures var h := HistoryOf(x); h[|h| - 1].sequence == |h|
  {
    hide Legal, WorkersInv, ClaimsInv;
    JournalHas(x.world.store, x.reader.id);
    JournalShows(x.world.store, x.reader.id);
    LegalNumbers(HistoryOf(x));
  }

  /** A stream that delivers the events of a terminal status ends with the last of them. */
  lemma {:induction false} TerminalBatchEndsStream(x: Session, steps: seq<SessionStep>, limit: nat)
    requires x.reader.phase == Delivering(true) && x.reader.pending != []
    requires Deliveries(steps) >= |x.reader.pending| && forall step | step in steps :: !step.Reconnect?
    ensures SessionRun(x, steps, limit).reader.phase == Ended
    decreases |steps|
  {
    hide Next, Load, Polled;
    var y := SessionNext(x, steps[0], limit);
    assert forall step | step in steps[1..] :: step in steps;
    if y.reader.phase == Ended { EndedStays(y, steps[1..], limit); } else { TerminalBatchEndsStream(y, steps[1..], limit); }
  }

  lemma {:induction false} EndedStays(x: Session, steps: seq<SessionStep>, limit: nat)
    requires x.reader.phase == Ended && forall step | step in steps :: !step.Reconnect?
    ensures SessionRun(x, steps, limit).reader.phase == Ended
    decreases |steps|
  {
    hide Next, Load, Polled;
    if steps != [] {
      assert forall step | step in steps[1..] :: step in steps;
      EndedStays(SessionNext(x, steps[0], limit), steps[1..], limit);
    }
  }

  /** A client that was cut off, whatever its stream was about to deliver, comes back, polls
      and gets all that is newer than what it holds and still kept. */
  lemma ComesBackToAll(x: Session, y: Session, io: DiskFaults, steps: seq<SessionStep>, limit: nat)
    requires 1 <= limit && SessionInv(x) && y == SessionNext(SessionNext(x, Reconnect, limit), Poll(io), limit)
    requires y.reader.phase != Broken && LastSeen(x.reader) < |HistoryOf(y)|
    requires Deliveries(steps) == |HistoryOf(y)| - Max(LastSeen(x.reader), |HistoryOf(y)| - EVENT_CAP)
    requires forall step | step in steps :: !step.Reconnect?
    ensures var h := HistoryOf(y); var r := SessionRun(y, steps, limit).reader;
      0 <= LastSeen(x.reader) && r.got == x.reader.got + h[Max(LastSeen(x.reader), |h| - EVENT_CAP)..] && LastSeen(r) == |h|
  {
    hide SessionNext, SessionRun, SessionInv, HistoryOf;
    SessionStepKeepsInv(x, Reconnect, limit);
    Reconnected(x, limit);
    EveryPollCatchesUp(SessionNext(x, Reconnect, limit), io, steps, limit);
    PollLeavesPending(SessionNext(x, Reconnect, limit), y, io, limit);
  }

  lemma Reconnected(x: Session, limit: nat)
    ensures var z := SessionNext(x, Reconnect, limit).reader;
      z.phase == Polling && z.got == x.reader.got && z.start == x.reader.start && z.id == x.reader.id
  {
  }
}
