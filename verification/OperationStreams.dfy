/** The event stream of an operation that runs elsewhere: upstream events are numbered from
    one on every connection, and a reader that comes back skips the ones it has. */
module OperationStreams {

  /** An upstream event; `kind` and `status` are empty when missing, both when it is no dictionary. */
  datatype Raw = Raw(kind: string, status: string, content: string)

  /** What a frame carries: an upstream event, or the operation as it is. */
  datatype Data = OfEvent(raw: Raw) | OfOperation(resource: string)

  datatype Frame = Frame(id: nat, kind: string, data: Data)

  /** str.lower for the letters a status is written in. */
  function Lower(s: string): string {
    if s == "" then "" else [if 'A' <= s[0] <= 'Z' then (s[0] as int + 32) as char else s[0]] + Lower(s[1..])
  }

  /** A status in small letters is its own lower case. */
  lemma {:induction false} LowerOfLower(s: string)
    requires forall i | 0 <= i < |s| :: !('A' <= s[i] <= 'Z')
    ensures Lower(s) == s
  {
    if s != "" {
      LowerOfLower(s[1..]);
      assert s == [s[0]] + s[1..];
    }
  }

  /** Capitals become small letters, everything else stays. */
  lemma {:induction false} LowerIsSmall(s: string)
    ensures |Lower(s)| == |s|
    ensures forall i | 0 <= i < |s| :: Lower(s)[i] == if 'A' <= s[i] <= 'Z' then (s[i] as int + 32) as char else s[i]
  {
    if s != "" { LowerIsSmall(s[1..]); }
  }

  predicate Final(r: Raw) { Lower(r.status) in {"completed", "failed", "cancelled", "canceled"} }

  function KindOf(r: Raw): string { if r.kind != "" then r.kind else if r.status != "" then r.status else "operation.event" }

  /** The place of the first final event from place `from` on; the length if there is none. */
  function FirstFinal(raws: seq<Raw>, from: nat): (n: nat)
    ensures n >= from || n == |raws|
    ensures n <= |raws| && (n < |raws| ==> Final(raws[n]))
    ensures forall k | from <= k < n :: !Final(raws[k])
    decreases |raws| - from
  {
    if from >= |raws| then |raws| else if Final(raws[from]) then from else FirstFinal(raws, from + 1)
  }

  /** The frames of the events numbered after + 1 to end. */
  function Numbered(raws: seq<Raw>, after: nat, end: nat): (r: seq<Frame>)
    requires end <= |raws|
    ensures |r| == if after <= end then end - after else 0
    ensures forall i | 0 <= i < |r| :: r[i] == Frame(after + i + 1, KindOf(raws[after + i]), OfEvent(raws[after + i]))
  {
    if after >= end then [] else Numbered(raws, after, end - 1) + [Frame(end, KindOf(raws[end - 1]), OfEvent(raws[end - 1]))]
  }

  /** What a connection delivers: the events it has not had up to the first final one, or all
      of them and then the operation as it is. */
  function Frames(raws: seq<Raw>, after: nat, snapshot: string): seq<Frame> {
    var final := FirstFinal(raws, after);
    if final < |raws| then Numbered(raws, after, final + 1)
    else Numbered(raws, after, |raws|) + [Frame(|raws| + 1, "operation.snapshot", OfOperation(snapshot))]
  }

  lemma OnlyFirst(raws: seq<Raw>, from: nat, n: nat)
    requires from <= n < |raws| && Final(raws[n]) && forall k | from <= k < n :: !Final(raws[k])
    ensures FirstFinal(raws, from) == n
  {
  }

  lemma NumberedStep(raws: seq<Raw>, after: nat, n: nat)
    requires n < |raws|
    ensures n < after ==> Numbered(raws, after, n + 1) == Numbered(raws, after, n)
    ensures after <= n ==> Numbered(raws, after, n + 1) == Numbered(raws, after, n) + [Frame(n + 1, KindOf(raws[n]), OfEvent(raws[n]))]
  {
    hide Final, KindOf;
  }

  lemma NoneFinal(raws: seq<Raw>, after: nat)
    requires forall k | after <= k < |raws| :: !Final(raws[k])
    ensures FirstFinal(raws, after) == |raws|
  {
    hide Final;
  }

  /** The remote branch of stream_operation_events, from Last-Event-ID to the end of the stream. */
  method StreamRemoteEvents(raws: seq<Raw>, lastEventId: int, snapshot: string) returns (frames: seq<Frame>)
    ensures frames == Frames(raws, if lastEventId > 0 then lastEventId else 0, snapshot)
  {
    hide Final, KindOf, Numbered, FirstFinal;
    var resumeAfter := if lastEventId > 0 then lastEventId else 0;
    var sequence, terminal := 0, false;
    frames := [];
    for i := 0 to |raws|
      invariant sequence == i && !terminal && frames == Numbered(raws, resumeAfter, i)
      invariant forall k | resumeAfter <= k < i :: !Final(raws[k])
    {
      sequence := sequence + 1;
      NumberedStep(raws, resumeAfter, i);
      if sequence <= resumeAfter { continue; }
      frames := frames + [Frame(sequence, KindOf(raws[i]), OfEvent(raws[i]))];
      terminal := Final(raws[i]);
      if terminal {
        OnlyFirst(raws, resumeAfter, i);
        return;
      }
    }
    NoneFinal(raws, resumeAfter);
    if !terminal {
      sequence := sequence + 1;
      frames := frames + [Frame(sequence, "operation.snapshot", OfOperation(snapshot))];
    }
  }

  // ---- coming back ------------------------------------------------------------------------

  /** A frame after which the connection ends. */
  predicate Ends(f: Frame) { f.data.OfOperation? || Final(f.data.raw) }

  /** One connection: what is upstream by then, the operation at its end, and how many of
      its frames get through. */
  datatype Connection = Connection(raws: seq<Raw>, snapshot: string, received: nat)

  function Take<T>(s: seq<T>, n: nat): seq<T> { if n <= |s| then s[..n] else s }

  function LastId(frames: seq<Frame>): nat { if frames == [] then 0 else frames[|frames| - 1].id }

  /** All that a reader holds that comes back each time with the last number it received. */
  function Held(connections: seq<Connection>): seq<Frame> {
    if connections == [] then []
    else
      var before := Held(connections[..|connections| - 1]);
      var c := connections[|connections| - 1];
      before + Take(Frames(c.raws, LastId(before), c.snapshot), c.received)
  }

  /** Upstream only adds events. */
  ghost predicate Growing(connections: seq<Connection>) {
    forall i, j | 0 <= i < j < |connections| :: connections[i].raws <= connections[j].raws
  }

  lemma NumberedAgain(raws: seq<Raw>, more: seq<Raw>, end: nat)
    requires raws <= more && end <= |raws|
    ensures Numbered(more, 0, end) == Numbered(raws, 0, end)
  {
    hide Final, KindOf;
    var a, b := Numbered(more, 0, end), Numbered(raws, 0, end);
    assert forall i | 0 <= i < end :: a[i] == b[i];
  }

  lemma {:induction false} NumberedJoin(raws: seq<Raw>, m: nat, end: nat)
    requires m <= end <= |raws|
    ensures Numbered(raws, 0, m) + Numbered(raws, m, end) == Numbered(raws, 0, end)
    decreases end
  {
    hide Final, KindOf;
    if end == m {
      assert Numbered(raws, 0, m) + [] == Numbered(raws, 0, m);
    } else {
      NumberedJoin(raws, m, end - 1);
      var a, b, x := Numbered(raws, 0, m), Numbered(raws, m, end - 1), [Frame(end, KindOf(raws[end - 1]), OfEvent(raws[end - 1]))];
      assert (a + b) + x == a + (b + x);
    }
  }

  /** No final event before place m: the first one is the first from m on. */
  lemma FirstFinalFrom(raws: seq<Raw>, m: nat)
    requires m <= |raws| && forall k | 0 <= k < m :: !Final(raws[k])
    ensures FirstFinal(raws, m) == FirstFinal(raws, 0) >= m
  {
    hide Final;
    var final := FirstFinal(raws, m);
    if final < |raws| { OnlyFirst(raws, 0, final); }
  }

  /** A connection that starts after m events, none of them final, completes them. */
  lemma FramesComplete(raws: seq<Raw>, m: nat, snapshot: string)
    requires m <= |raws| && forall k | 0 <= k < m :: !Final(raws[k])
    ensures Numbered(raws, 0, m) + Frames(raws, m, snapshot) == Frames(raws, 0, snapshot)
  {
    hide Final, KindOf, Numbered;
    FirstFinalFrom(raws, m);
    var final := FirstFinal(raws, m);
    hide FirstFinal;
    if final < |raws| {
      NumberedJoin(raws, m, final + 1);
    } else {
      NumberedJoin(raws, m, |raws|);
      var a, b, end := Numbered(raws, 0, m), Numbered(raws, m, |raws|), [Frame(|raws| + 1, "operation.snapshot", OfOperation(snapshot))];
      assert a + (b + end) == (a + b) + end;
    }
  }

  /** A connection ends with its last frame, and no frame before it is such an end. */
  lemma OnlyLastEnds(raws: seq<Raw>, after: nat, snapshot: string)
    ensures var f := Frames(raws, after, snapshot);
      f != [] && Ends(f[|f| - 1]) && forall i | 0 <= i < |f| - 1 :: !Ends(f[i])
  {
    hide Final, KindOf, Numbered;
    var f, final := Frames(raws, after, snapshot), FirstFinal(raws, after);
    forall i | 0 <= i < |f| - 1
      ensures !Ends(f[i])
    {
      assert f[i].data == OfEvent(raws[after + i]);
    }
  }

  /** Frames that end nothing are events, numbered on. */
  lemma TakenFrames(raws: seq<Raw>, m: nat, snapshot: string, n: nat)
    requires m <= |raws| && forall f | f in Take(Frames(raws, m, snapshot), n) :: !Ends(f)
    ensures var t := Take(Frames(raws, m, snapshot), n); m + |t| <= |raws| && t == Numbered(raws, m, m + |t|)
  {
    hide Final, KindOf, Numbered;
    OnlyLastEnds(raws, m, snapshot);
    var f, t := Frames(raws, m, snapshot), Take(Frames(raws, m, snapshot), n);
    assert f[|f| - 1] in f && t != f;
    assert |t| < |f|;
    var r := Numbered(raws, m, m + |t|);
    assert forall i | 0 <= i < |t| :: t[i] == f[i] == r[i];
  }

  /** The frames are the first events upstream, and none of these is final. */
  ghost predicate FirstEvents(frames: seq<Frame>, raws: seq<Raw>) {
    && |frames| <= |raws| && frames == Numbered(raws, 0, |frames|)
    && forall k | 0 <= k < |frames| :: !Final(raws[k])
  }

  lemma FirstEventsGrow(frames: seq<Frame>, raws: seq<Raw>, more: seq<Raw>)
    requires FirstEvents(frames, raws) && raws <= more
    ensures FirstEvents(frames, more) && LastId(frames) == |frames|
  {
    hide Final, KindOf;
    NumberedAgain(raws, more, |frames|);
    hide Numbered;
    assert frames != [] ==> frames[|frames| - 1].id == |frames|;
  }

  lemma FirstEventsGoOn(frames: seq<Frame>, c: Connection)
    requires FirstEvents(frames, c.raws)
    requires forall f | f in Take(Frames(c.raws, |frames|, c.snapshot), c.received) :: !Ends(f)
    ensures FirstEvents(frames + Take(Frames(c.raws, |frames|, c.snapshot), c.received), c.raws)
  {
    hide KindOf, Numbered, Frames, Take, Final;
    var m, t := |frames|, Take(Frames(c.raws, |frames|, c.snapshot), c.received);
    TakenFrames(c.raws, m, c.snapshot, c.received);
    NumberedJoin(c.raws, m, m + |t|);
    forall k | m <= k < m + |t|
      ensures !Final(c.raws[k])
    {
      assert t[k - m] in t && t[k - m].data == OfEvent(c.raws[k]);
    }
  }

  /** As long as nothing held is an end, the reader holds the first events upstream. */
  lemma {:induction false} HeldIsNumbered(connections: seq<Connection>)
    requires connections != [] && Growing(connections) && forall f | f in Held(connections) :: !Ends(f)
    ensures FirstEvents(Held(connections), connections[|connections| - 1].raws)
    decreases |connections|
  {
    hide FirstEvents, Frames, Ends, Take, LastId;
    var c, init := connections[|connections| - 1], connections[..|connections| - 1];
    var before := Held(init);
    if init == [] {
      NothingHeld(c.raws);
    } else {
      assert forall f | f in before :: f in Held(connections);
      HeldIsNumbered(init);
      assert init[|init| - 1] == connections[|connections| - 2];
      FirstEventsGrow(before, init[|init| - 1].raws, c.raws);
    }
    var t := Take(Frames(c.raws, LastId(before), c.snapshot), c.received);
    assert Held(connections) == before + t;
    assert forall f | f in t :: f in Held(connections);
    FirstEventsGoOn(before, c);
  }

  lemma NothingHeld(raws: seq<Raw>)
    ensures FirstEvents([], raws) && LastId([]) == 0
  {
  }

  /** However often a reader comes back, the last connection makes what it holds the whole
      stream, as an unbroken connection would deliver it now, if and only if nothing it
      held before was a final event or a snapshot. */
  lemma WholeIffNothingEnded(connections: seq<Connection>)
    requires connections != [] && Growing(connections)
    requires var before := Held(connections[..|connections| - 1]); var c := connections[|connections| - 1];
      c.received >= |Frames(c.raws, LastId(before), c.snapshot)|
    ensures var before := Held(connections[..|connections| - 1]); var c := connections[|connections| - 1];
      Held(connections) == Frames(c.raws, 0, c.snapshot) <==> forall f | f in before :: !Ends(f)
  {
    hide Final, KindOf, Numbered, Frames, Ends;
    var c, init := connections[|connections| - 1], connections[..|connections| - 1];
    var before := Held(init);
    var rest := Frames(c.raws, LastId(before), c.snapshot);
    assert Held(connections) == before + rest;
    OnlyLastEnds(c.raws, LastId(before), c.snapshot);
    OnlyLastEnds(c.raws, 0, c.snapshot);
    if forall f | f in before :: !Ends(f) {
      if init == [] {
        assert [] + rest == rest;
      } else {
        HeldIsNumbered(init);
        assert init[|init| - 1] == connections[|connections| - 2];
        FirstEventsGrow(before, init[|init| - 1].raws, c.raws);
        FramesComplete(c.raws, |before|, c.snapshot);
      }
    } else {
      var i :| 0 <= i < |before| && Ends(before[i]);
      assert (before + rest)[i] == before[i] && i < |before + rest| - 1;
    }
  }

  /** Coming back once, with the number of the last frame received, to an upstream that may
      have grown: what was received and what follows are the whole stream if and only if
      no event received was final and the snapshot was not received. */
  lemma ResumeContinues(raws: seq<Raw>, more: seq<Raw>, last: nat, snapshot: string, later: string)
    requires raws <= more && last <= |Frames(raws, 0, snapshot)|
    ensures Frames(raws, 0, snapshot)[..last] + Frames(more, last, later) == Frames(more, 0, later)
            <==> last <= |raws| && forall k | 0 <= k < last :: !Final(raws[k])
  {
    hide Final, KindOf, Numbered, Frames, Held, Take, LastId, Ends;
    var first, second := Connection(raws, snapshot, last), Connection(more, later, |Frames(more, last, later)|);
    GotNumbers(raws, snapshot, last);
    HeldOfTwo(first, second);
    assert [first, second][..1] == [first];
    WholeIffNothingEnded([first, second]);
  }

  lemma HeldOfTwo(first: Connection, second: Connection)
    requires first.received <= |Frames(first.raws, 0, first.snapshot)|
    ensures Held([first]) == Frames(first.raws, 0, first.snapshot)[..first.received]
    ensures second.received == |Frames(second.raws, LastId(Held([first])), second.snapshot)| ==>
              Held([first, second]) == Held([first]) + Frames(second.raws, LastId(Held([first])), second.snapshot)
  {
    hide Frames;
    assert [first][..0] == [] && [first, second][..1] == [first];
    assert Held([]) == [];
    var f := Frames(first.raws, 0, first.snapshot)[..first.received];
    assert [] + f == f;
    var g := Frames(second.raws, LastId(Held([first])), second.snapshot);
    assert g[..|g|] == g;
  }

  lemma GotNumbers(raws: seq<Raw>, snapshot: string, last: nat)
    requires last <= |Frames(raws, 0, snapshot)|
    ensures var got := Frames(raws, 0, snapshot)[..last];
      && LastId(got) == last
      && ((forall f | f in got :: !Ends(f)) <==> last <= |raws| && forall k | 0 <= k < last :: !Final(raws[k]))
  {
    hide Final, KindOf, Numbered;
    var got := Frames(raws, 0, snapshot)[..last];
    forall k | 0 <= k < last && k < |raws|
      ensures got[k].data == OfEvent(raws[k]) && got[k] in got
    {
    }
    if last > |raws| { assert got[|raws|] in got && Ends(got[|raws|]); }
  }

  /** On any connection the numbers go up by one from the first event not yet received; a
      reader that has the snapshot of these events, or more, gets that snapshot's number again. */
  lemma NumbersOfFrames(raws: seq<Raw>, after: nat, snapshot: string)
    ensures var f := Frames(raws, after, snapshot);
      if after <= |raws| then f != [] && forall i | 0 <= i < |f| :: f[i].id == after + i + 1
      else f == [Frame(|raws| + 1, "operation.snapshot", OfOperation(snapshot))]
  {
  }

  const RUNNING: Raw := Raw("x", "running", "a")
  const COMPLETED: Raw := Raw("y", "completed", "b")

  lemma OnlyCompletedIsFinal()
    ensures !Final(RUNNING) && Final(COMPLETED)
  {
    hide Lower;
    LowerOfLower("running");
    LowerOfLower("completed");
    assert |"running"| == 7;
  }

  lemma FirstFinalAt(raws: seq<Raw>, from: nat)
    ensures FirstFinal(raws, from) == if from >= |raws| then |raws| else if Final(raws[from]) then from else FirstFinal(raws, from + 1)
  {
    hide Final;
  }

  /** It happens: with one event upstream, which is not final, the snapshot is sent under
      number 2, and the reader that returns with 2 gets number 2 again. */
  lemma SnapshotSentTwice(s: string)
    ensures var snapshot := Frame(2, "operation.snapshot", OfOperation(s));
      && Frames([RUNNING], 0, s) == [Frame(1, "x", OfEvent(RUNNING)), snapshot]
      && Frames([RUNNING], 2, s) == [snapshot]
  {
    OnlyCompletedIsFinal();
    hide Final, FirstFinal;
    FirstFinalAt([RUNNING], 0);
    FirstFinalAt([RUNNING], 1);
    FirstFinalAt([RUNNING], 2);
  }

  /** And when the final event has come meanwhile, it takes number 2 and never arrives. */
  lemma FinalEventSkipped(s: string)
    ensures Frames([RUNNING, COMPLETED], 2, s) == [Frame(3, "operation.snapshot", OfOperation(s))]
    ensures Frames([RUNNING, COMPLETED], 0, s) == [Frame(1, "x", OfEvent(RUNNING)), Frame(2, "y", OfEvent(COMPLETED))]
  {
    OnlyCompletedIsFinal();
    hide Final, FirstFinal;
    FirstFinalAt([RUNNING, COMPLETED], 0);
    FirstFinalAt([RUNNING, COMPLETED], 1);
    FirstFinalAt([RUNNING, COMPLETED], 2);
  }

  /** A reader that has the final event and asks again is sent a snapshot. */
  lemma SnapshotAfterFinal(s: string)
    ensures Frames([COMPLETED], 0, s) == [Frame(1, "y", OfEvent(COMPLETED))]
    ensures Frames([COMPLETED], 1, s) == [Frame(2, "operation.snapshot", OfOperation(s))]
  {
    OnlyCompletedIsFinal();
    hide Final, FirstFinal;
    FirstFinalAt([COMPLETED], 0);
    FirstFinalAt([COMPLETED], 1);
  }
}
