/** The files of the operation journal: what is written into them, what a reader
    accepts, and that a reader gets back exactly what the publisher wrote. */
module OperationJournal {
  import opened OrderedDicts
  import opened Operations
  import opened OperationHistory

  /** The names of the members a receipt's JSON objects have; other names occur as keys of options. */
  datatype Name =
    | OperationName | EventsName | IdName | KindName | StatusName | CreatedName | UpdatedName | OptionsName
    | FingerprintName | ProgressName | PercentName | StageName | LabelName | DetailName | ResultName | ErrorName
    | CodeName | RetryableName | SequenceName | TypeName | DataName | Other(text: string)

  /** Parsed JSON. JId is the text of an operation identifier. */
  datatype Json = JNull | JBool(b: bool) | JInt(n: int) | JStr(s: string) | JId(id: OpId)
                | JArr(items: seq<Json>) | JObj(members: map<Name, Json>)

  // ---- writing ------------------------------------------------------------------------

  function StatusText(status: Status): string {
    match status
    case Pending => "pending" case Running => "running" case Interrupted => "interrupted" case Completed => "completed"
    case Failed => "failed" case Cancelled => "cancelled" case Canceled => "canceled"
  }

  function KindText(kind: EventKind): string {
    match kind
    case Accepted => "operation.accepted" case Progressed => "operation.progress" case CompletedEvent => "operation.completed"
    case FailedEvent => "operation.failed" case InterruptedEvent => "operation.interrupted"
  }

  function EncodeOptions(options: map<string, string>): map<Name, Json> {
    map key | key in options :: Other(key) := JStr(options[key])
  }

  function EncodeProgress(p: Progress): map<Name, Json> {
    map[PercentName := JInt(p.percent), StageName := JStr(p.stage), LabelName := JStr(p.caption), DetailName := JStr(p.detail)]
  }

  const OPERATION_NAMES: set<Name> :=
    {IdName, KindName, StatusName, CreatedName, UpdatedName, OptionsName, FingerprintName, ProgressName, ResultName, ErrorName}

  function TextMember(text: Option<string>): Option<Json> { if text.None? then None else Some(JStr(text.value)) }

  /** The member of an operation's object; a fingerprint, result or error may be missing. */
  function Member(op: Operation, name: Name): Option<Json> {
    match name
    case IdName => Some(JId(op.id))
    case KindName => Some(JStr(op.kind))
    case StatusName => Some(JStr(StatusText(op.status)))
    case CreatedName => Some(JInt(op.createdAt))
    case UpdatedName => Some(JInt(op.updatedAt))
    case OptionsName => Some(JObj(EncodeOptions(op.options)))
    case ProgressName => Some(JObj(EncodeProgress(op.progress)))
    case FingerprintName => TextMember(op.fingerprint)
    case ResultName => TextMember(op.result)
    case ErrorName =>
      if op.error.None? then None
      else Some(JObj(map[CodeName := JStr(op.error.value.code), RetryableName := JBool(op.error.value.retryable)]))
    case _ => None
  }

  function EncodeOperation(op: Operation): map<Name, Json> {
    map name | name in OPERATION_NAMES && Member(op, name).Some? :: Member(op, name).value
  }

  function EncodeEvent(e: Event): Json {
    JObj(map[SequenceName := JInt(e.sequence), TypeName := JStr(KindText(e.kind)), DataName := JObj(EncodeOperation(e.data))])
  }

  function EncodeEvents(events: seq<Event>): (r: seq<Json>)
    ensures |r| == |events|
  {
    seq(|events|, i requires 0 <= i < |events| => EncodeEvent(events[i]))
  }

  function EncodeReceipt(r: Receipt): Json {
    JObj(map[OperationName := JObj(EncodeOperation(r.operation)),
             EventsName := JArr(EncodeEvents(r.events))])
  }

  // ---- what a reader accepts ----------------------------------------------------------

  const STATUSES: set<string> := {"pending", "running", "interrupted", "completed", "failed", "cancelled", "canceled"}

  predicate ObjectOrMissing(members: map<Name, Json>, name: Name) { name in members ==> members[name].JObj? }

  /** The operation part of a record is one of id, with a known status. */
  predicate GoodOperation(operation: map<Name, Json>, id: OpId) {
    && IdName in operation && operation[IdName] == JId(id)
    && StatusName in operation && operation[StatusName].JStr? && operation[StatusName].s in STATUSES
    && ObjectOrMissing(operation, OptionsName) && ObjectOrMissing(operation, ProgressName)
  }

  predicate GoodEvent(e: Json) {
    && e.JObj?
    && SequenceName in e.members && e.members[SequenceName].JInt?
    && TypeName in e.members && e.members[TypeName].JStr?
    && DataName in e.members && e.members[DataName].JObj?
  }

  /** Numbered upwards from at least 1. */
  ghost predicate GoodEvents(events: seq<Json>) {
    && (forall i | 0 <= i < |events| :: GoodEvent(events[i]) && 0 < events[i].members[SequenceName].n)
    && (forall i, j | 0 <= i < j < |events| :: events[i].members[SequenceName].n < events[j].members[SequenceName].n)
  }

  ghost predicate GoodRecord(record: Json, id: OpId) {
    && record.JObj?
    && OperationName in record.members && record.members[OperationName].JObj?
    && GoodOperation(record.members[OperationName].members, id)
    && EventsName in record.members && record.members[EventsName].JArr?
    && GoodEvents(record.members[EventsName].items)
  }

  // ---- reading back -------------------------------------------------------------------

  function TextAt(o: map<Name, Json>, name: Name): string { if name in o && o[name].JStr? then o[name].s else "" }
  function IntAt(o: map<Name, Json>, name: Name): int { if name in o && o[name].JInt? then o[name].n else 0 }
  function ObjectAt(o: map<Name, Json>, name: Name): map<Name, Json> { if name in o && o[name].JObj? then o[name].members else map[] }

  function DecodeStatus(text: string): Status {
    if text == "pending" then Pending else if text == "running" then Running else if text == "interrupted" then Interrupted
    else if text == "completed" then Completed else if text == "failed" then Failed
    else if text == "cancelled" then Cancelled else Canceled
  }

  function DecodeKind(text: string): EventKind {
    if text == "operation.accepted" then Accepted else if text == "operation.progress" then Progressed
    else if text == "operation.completed" then CompletedEvent else if text == "operation.failed" then FailedEvent
    else InterruptedEvent
  }

  function DecodeOptions(o: map<Name, Json>): map<string, string> {
    map name | name in o && name.Other? && o[name].JStr? :: name.text := o[name].s
  }

  function DecodeText(o: map<Name, Json>, name: Name): Option<string> {
    if name in o && o[name].JStr? then Some(o[name].s) else None
  }

  function DecodeProblem(o: map<Name, Json>): Option<Problem> {
    if ErrorName in o && o[ErrorName].JObj? then
      var e := o[ErrorName].members;
      Some(Problem(TextAt(e, CodeName), RetryableName in e && e[RetryableName] == JBool(true)))
    else None
  }

  function Nat(n: int): nat { if n < 0 then 0 else n }

  function DecodeOperation(o: map<Name, Json>): Operation {
    var p := ObjectAt(o, ProgressName);
    Operation(
      if IdName in o && o[IdName].JId? then o[IdName].id else Remote(""),
      TextAt(o, KindName), DecodeStatus(TextAt(o, StatusName)), Nat(IntAt(o, CreatedName)), Nat(IntAt(o, UpdatedName)),
      DecodeOptions(ObjectAt(o, OptionsName)), DecodeText(o, FingerprintName),
      Progress(IntAt(p, PercentName), TextAt(p, StageName), TextAt(p, LabelName), TextAt(p, DetailName)),
      DecodeText(o, ResultName), DecodeProblem(o))
  }

  function DecodeEvent(e: Json): Event {
    var o := if e.JObj? then e.members else map[];
    Event(IntAt(o, SequenceName), DecodeKind(TextAt(o, TypeName)), DecodeOperation(ObjectAt(o, DataName)))
  }

  function DecodeEvents(events: seq<Json>): seq<Event> {
    seq(|events|, i requires 0 <= i < |events| => DecodeEvent(events[i]))
  }

  // ---- nothing is lost ----------------------------------------------------------------

  lemma TextsReadBack(status: Status, kind: EventKind)
    ensures DecodeStatus(StatusText(status)) == status && StatusText(status) in STATUSES
    ensures DecodeKind(KindText(kind)) == kind
  {}

  lemma OptionsReadBack(options: map<string, string>)
    ensures DecodeOptions(EncodeOptions(options)) == options
  {
    var o := EncodeOptions(options);
    assert forall key | key in options :: Other(key) in o;
    assert forall key :: key in options <==> key in DecodeOptions(o);
  }

  /** The operation that is read back is the operation that was written. */
  lemma OperationReadsBack(op: Operation)
    ensures DecodeOperation(EncodeOperation(op)) == op
    ensures GoodOperation(EncodeOperation(op), op.id)
  {
    OperationDecodes(op);
    EncodedIsGood(op);
    hide EncodeOperation, DecodeOperation, GoodOperation;
  }

  lemma EncodedIsGood(op: Operation)
    ensures GoodOperation(EncodeOperation(op), op.id)
  {
    hide EncodeOptions, DecodeOptions, StatusText, DecodeStatus, DecodeOperation;
    TextsReadBack(op.status, Accepted);
    var o := EncodeOperation(op);
    assert forall name | name in OPERATION_NAMES :: name in o <==> Member(op, name).Some?;
  }

  lemma EncodedMember(op: Operation, name: Name)
    requires name in OPERATION_NAMES
    ensures var o := EncodeOperation(op); name in o <==> Member(op, name).Some?
    ensures var o := EncodeOperation(op); name in o ==> o[name] == Member(op, name).value
  {
  }

  lemma OptionalsDecode(op: Operation)
    ensures var o := EncodeOperation(op);
      DecodeText(o, FingerprintName) == op.fingerprint && DecodeText(o, ResultName) == op.result && DecodeProblem(o) == op.error
  {
    EncodedMember(op, FingerprintName);
    EncodedMember(op, ResultName);
    EncodedMember(op, ErrorName);
    hide EncodeOperation;
  }

  lemma ScalarsDecode(op: Operation)
    ensures var o := EncodeOperation(op);
      && IdName in o && o[IdName] == JId(op.id) && TextAt(o, KindName) == op.kind && DecodeStatus(TextAt(o, StatusName)) == op.status
      && IntAt(o, CreatedName) == op.createdAt && IntAt(o, UpdatedName) == op.updatedAt
  {
    TextsReadBack(op.status, Accepted);
    EncodedMember(op, IdName);
    EncodedMember(op, KindName);
    EncodedMember(op, StatusName);
    EncodedMember(op, CreatedName);
    EncodedMember(op, UpdatedName);
    hide EncodeOperation, StatusText, DecodeStatus;
  }

  lemma OptionsDecode(op: Operation)
    ensures DecodeOptions(ObjectAt(EncodeOperation(op), OptionsName)) == op.options
  {
    hide EncodeOperation, EncodeOptions, DecodeOptions;
    EncodedMember(op, OptionsName);
    assert ObjectAt(EncodeOperation(op), OptionsName) == EncodeOptions(op.options);
    hide ObjectAt;
    OptionsReadBack(op.options);
  }

  lemma ProgressDecodes(op: Operation)
    ensures var p := ObjectAt(EncodeOperation(op), ProgressName);
      Progress(IntAt(p, PercentName), TextAt(p, StageName), TextAt(p, LabelName), TextAt(p, DetailName)) == op.progress
  {
    EncodedMember(op, ProgressName);
    assert ObjectAt(EncodeOperation(op), ProgressName) == EncodeProgress(op.progress);
    hide EncodeOperation, ObjectAt;
  }

  lemma OperationDecodes(op: Operation)
    ensures DecodeOperation(EncodeOperation(op)) == op
  {
    OptionalsDecode(op);
    ScalarsDecode(op);
    OptionsDecode(op);
    ProgressDecodes(op);
    hide EncodeOperation, DecodeText, DecodeProblem, DecodeStatus, DecodeOptions, TextAt, IntAt, ObjectAt;
  }

  lemma EventReadsBack(e: Event)
    ensures DecodeEvent(EncodeEvent(e)) == e && GoodEvent(EncodeEvent(e))
    ensures EncodeEvent(e).members[SequenceName] == JInt(e.sequence)
  {
    hide EncodeOperation, DecodeOperation;
    TextsReadBack(Pending, e.kind);
    OperationReadsBack(e.data);
  }

  lemma EventsReadBack(events: seq<Event>, items: seq<Json>)
    requires items == EncodeEvents(events)
    requires forall i | 0 <= i < |events| :: events[i].sequence == events[0].sequence + i && 0 < events[0].sequence
    ensures GoodEvents(items) && DecodeEvents(items) == events
  {
    hide EncodeEvent, DecodeEvent;
    forall i | 0 <= i < |items|
      ensures GoodEvent(items[i]) && items[i].members[SequenceName] == JInt(events[i].sequence) && DecodeEvent(items[i]) == events[i] {
      EventReadsBack(events[i]);
    }
  }

  lemma ReflectedNumbers(r: Receipt, h: seq<Event>, id: OpId)
    requires Reflects(r, h, id)
    ensures r.operation.id == id && 0 < |r.events| <= EVENT_CAP && 0 < r.events[0].sequence
    ensures forall i | 0 <= i < |r.events| :: r.events[i].sequence == r.events[0].sequence + i
  {
    hide Legal;
    LegalNumbers(h);
    assert forall i | 0 <= i < |r.events| :: r.events[i] == h[|h| - |r.events| + i];
  }

  /** Every receipt the publisher writes passes the reader's validation, and the reader
      gets back its operation and all its events. */
  lemma ReceiptReadsBack(r: Receipt, h: seq<Event>, id: OpId)
    requires Reflects(r, h, id)
    ensures GoodRecord(EncodeReceipt(r), id)
    ensures var o := EncodeReceipt(r).members;
      && DecodeOperation(o[OperationName].members) == r.operation
      && DecodeEvents(LastN(o[EventsName].items, EVENT_CAP)) == r.events
  {
    hide EncodeOperation, DecodeOperation, EncodeEvents, DecodeEvents, Reflects, GoodEvents, GoodOperation;
    OperationReadsBack(r.operation);
    ReflectedNumbers(r, h, id);
    EventsReadBack(r.events, EncodeEvents(r.events));
  }
}
