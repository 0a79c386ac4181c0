/** Relaying a co-worker's answer while it is written: parts are read by cursor, checked,
    and passed on as numbered deltas, until the answer is complete or the stream is given up. */
module ReplyStreams {
  import opened OrderedDicts

  const PART_VERSION := "mn.mcp.job_answer_stream.v1"
  const ANSWER_VERSION := "mn.mcp.job_answer.v1"
  const MAX_DELTA_BYTES := 4000
  const MAX_TEXT := 12000
  const TIMEOUT := 90_000   // milliseconds
  const PAUSE := 50

  datatype Answer = Answer(schema: string, content: string)

  /** What a command returns. A field is None when it is not of the right type. */
  datatype Reply =
    | Raised
    | NotADictionary
    | Part(schema: string, requestId: string, failed: bool, cancelled: bool, delta: Option<string>, cursor: Option<int>,
           done: bool, response: Option<Answer>)

  /** A progress report as delivered. */
  datatype Report = Report(sequence: nat, delta: string)

  datatype Action = Start | Read | Cancel

  datatype Command = Command(action: Action, cursor: nat)

  datatype Outcome = Completed(answer: Answer) | GivenUp

  /** The length of a character in UTF-8. */
  function Bytes(c: char): nat {
    if c as int < 0x80 then 1 else if c as int < 0x800 then 2 else if c as int < 0x10000 then 3 else 4
  }

  function Utf8Length(s: string): (n: nat)
    ensures |s| <= n <= 4 * |s|
  {
    if s == "" then 0 else Utf8Length(s[..|s| - 1]) + Bytes(s[|s| - 1])
  }

  /** The checks every part has to pass at its cursor. */
  predicate Acceptable(r: Reply, requestId: string, cursor: nat) {
    && r.Part? && r.schema == PART_VERSION
    && r.requestId == requestId && !r.failed && !r.cancelled
    && r.delta.Some? && Utf8Length(r.delta.value) <= MAX_DELTA_BYTES
    && r.cursor.Some? && r.cursor.value == cursor + |r.delta.value| && r.cursor.value <= MAX_TEXT
  }

  predicate ValidAnswer(a: Option<Answer>) { a.Some? && a.value.schema == ANSWER_VERSION }

  function Relayed(reports: seq<Report>): string {
    if reports == [] then "" else Relayed(reports[..|reports| - 1]) + reports[|reports| - 1].delta
  }

  /** The other side: its reply to the i-th command at a cursor, the time at which that reply
      is looked at, whether delivering the n-th report fails, and whether the pause after
      the i-th part fails. */
  datatype Peer = Peer(reply: (nat, nat) -> Reply, at: nat -> int, reportFails: nat -> bool, pauseFails: nat -> bool)

  /** Between two replies lies a pause. */
  ghost predicate Ticks(p: Peer) { forall i: nat :: p.at(i) + PAUSE <= p.at(i + 1) }

  /** The owner serves slices of one text. */
  ghost predicate Serves(p: Peer, text: string) {
    forall i: nat, c: nat | c <= |text| && p.reply(i, c).Part? && p.reply(i, c).delta.Some? ::
      var delta := p.reply(i, c).delta.value;
      c + |delta| <= |text| && delta == text[c..c + |delta|]
  }

  /** The k-th part is passed on and the next is asked for where it ends. */
  ghost predicate Continues(p: Peer, requestId: string, deadline: int, commands: seq<Command>, k: nat)
    requires k + 1 < |commands|
  {
    var r := p.reply(k, commands[k].cursor);
    && p.at(k) < deadline && Acceptable(r, requestId, commands[k].cursor) && !r.done && !p.pauseFails(k)
    && commands[k + 1].cursor == commands[k].cursor + |r.delta.value| && commands[k + 1].action == Read
  }

  /** The first `last` parts were all passed on. */
  ghost predicate Steady(p: Peer, requestId: string, deadline: int, commands: seq<Command>, last: nat) {
    last < |commands| && forall k | 0 <= k < last :: k + 1 < |commands| && Continues(p, requestId, deadline, commands, k)
  }

  lemma SteadyMore(p: Peer, requestId: string, deadline: int, commands: seq<Command>, last: nat, c: Command)
    requires Steady(p, requestId, deadline, commands, last)
    ensures Steady(p, requestId, deadline, commands + [c], last)
    ensures last + 1 == |commands| && Continues(p, requestId, deadline, commands + [c], last) ==>
              Steady(p, requestId, deadline, commands + [c], last + 1)
  {
    forall k | 0 <= k < last
      ensures Continues(p, requestId, deadline, commands + [c], k)
    {
      assert Continues(p, requestId, deadline, commands, k);
    }
  }

  /** Why the stream is given up at the k-th part. */
  ghost predicate Broken(p: Peer, requestId: string, deadline: int, k: nat, cursor: nat, sequence: nat) {
    var r := p.reply(k, cursor);
    || r.Raised? || p.at(k) >= deadline || !Acceptable(r, requestId, cursor)
    || (r.delta.value != "" && p.reportFails(sequence + 1))
    || (if r.done then !ValidAnswer(r.response) else p.pauseFails(k))
  }

  /** Reports are numbered from 1, and none is empty or too long. */
  ghost predicate Numbered(reports: seq<Report>) {
    forall i | 0 <= i < |reports| ::
      reports[i].sequence == i + 1 && reports[i].delta != "" && Utf8Length(reports[i].delta) <= MAX_DELTA_BYTES
  }

  /** What was relayed is how the owner's text starts. */
  ghost predicate Faithful(p: Peer, relayed: string) { forall text | Serves(p, text) :: relayed <= text }

  /** stream_job_reply. What was relayed has the length of the cursor, at most MAX_TEXT, in
      reports numbered from 1; the stream ends completed and without a cancel, or given up
      for a reason and with exactly one cancel, at the last command. */
  method StreamReply(p: Peer, requestId: string, start: int)
    returns (outcome: Outcome, reports: seq<Report>, commands: seq<Command>, ghost before: nat)
    requires Ticks(p)
    ensures Numbered(reports) && |Relayed(reports)| <= MAX_TEXT && Faithful(p, Relayed(reports))
    ensures |commands| >= 1 && commands[0] == Command(Start, 0)
    ensures outcome.Completed? ==>
              var last := |commands| - 1; var r := p.reply(last, commands[last].cursor);
              && Steady(p, requestId, start + TIMEOUT, commands, last)
              && Acceptable(r, requestId, commands[last].cursor) && p.at(last) < start + TIMEOUT
              && r.done && r.response == Some(outcome.answer) && outcome.answer.schema == ANSWER_VERSION
              && r.cursor.value == |Relayed(reports)|
    ensures outcome.GivenUp? ==>
              var last := |commands| - 2;
              && last >= 0 && commands[last + 1] == Command(Cancel, |Relayed(reports)|)
              && Steady(p, requestId, start + TIMEOUT, commands, last) && before <= |reports|
              && Broken(p, requestId, start + TIMEOUT, last, commands[last].cursor, before)
  {
    hide Acceptable, Utf8Length, Serves, Steady, Faithful, Numbered, Relayed, Ticks;
    var cursor, sequence: nat, i: nat := 0, 0, 0;
    var deadline := start + TIMEOUT;
    reports, commands, before := [], [Command(Start, 0)], 0;
    NothingRelayed(p, requestId, deadline);
    var part := p.reply(0, 0);
    while true
      invariant i + 1 == |commands| && commands[i].cursor == cursor && part == p.reply(i, cursor)
      invariant commands[0] == Command(Start, 0)
      invariant sequence == |reports| && cursor == |Relayed(reports)| <= MAX_TEXT
      invariant Numbered(reports) && Faithful(p, Relayed(reports))
      invariant Steady(p, requestId, deadline, commands, i)
      decreases deadline - p.at(i)
    {
      before := sequence;
      if part.Raised? || p.at(i) >= deadline || !Acceptable(part, requestId, cursor) {
        SteadyMore(p, requestId, deadline, commands, i, Command(Cancel, cursor));
        return GivenUp, reports, commands + [Command(Cancel, cursor)], before;
      }
      AcceptableMeans(part, requestId, cursor);
      var delta := part.delta.value;
      if delta != "" {
        sequence := sequence + 1;
        if p.reportFails(sequence) {
          SteadyMore(p, requestId, deadline, commands, i, Command(Cancel, cursor));
          return GivenUp, reports, commands + [Command(Cancel, cursor)], before;
        }
        DeltaRelayed(p, i, cursor, reports, delta);
        reports := reports + [Report(sequence, delta)];
      }
      cursor := part.cursor.value;
      if part.done {
        if !ValidAnswer(part.response) {
          SteadyMore(p, requestId, deadline, commands, i, Command(Cancel, cursor));
          return GivenUp, reports, commands + [Command(Cancel, cursor)], before;
        }
        return Completed(part.response.value), reports, commands, before;
      }
      if p.pauseFails(i) {
        SteadyMore(p, requestId, deadline, commands, i, Command(Cancel, cursor));
        return GivenUp, reports, commands + [Command(Cancel, cursor)], before;
      }
      SteadyMore(p, requestId, deadline, commands, i, Command(Read, cursor));
      TimePasses(p, i);
      i := i + 1;
      commands := commands + [Command(Read, cursor)];
      part := p.reply(i, cursor);
    }
  }

  lemma TimePasses(p: Peer, i: nat)
    requires Ticks(p)
    ensures p.at(i) < p.at(i + 1)
  {
    assert p.at(i) + PAUSE <= p.at(i + 1);
  }

  lemma NothingRelayed(p: Peer, requestId: string, deadline: int)
    ensures Numbered([]) && Relayed([]) == "" && Faithful(p, "") && Steady(p, requestId, deadline, [Command(Start, 0)], 0)
  {
  }

  lemma AcceptableMeans(r: Reply, requestId: string, cursor: nat)
    requires Acceptable(r, requestId, cursor)
    ensures r.Part? && r.delta.Some? && Utf8Length(r.delta.value) <= MAX_DELTA_BYTES
    ensures r.cursor == Some(cursor + |r.delta.value|) && r.cursor.value <= MAX_TEXT
  {
  }

  lemma DeltaRelayed(p: Peer, i: nat, cursor: nat, reports: seq<Report>, delta: string)
    requires cursor == |Relayed(reports)| && p.reply(i, cursor).Part? && p.reply(i, cursor).delta == Some(delta)
    requires Faithful(p, Relayed(reports)) && Numbered(reports) && delta != "" && Utf8Length(delta) <= MAX_DELTA_BYTES
    ensures var more := reports + [Report(|reports| + 1, delta)];
      Relayed(more) == Relayed(reports) + delta && Faithful(p, Relayed(more)) && Numbered(more)
  {
    hide Utf8Length;
    var more := reports + [Report(|reports| + 1, delta)];
    assert more[..|reports|] == reports;
  }
}
