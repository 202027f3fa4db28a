/**
  The lifecycle of one operation as the sequence of transactions that commit on it
  (crates/operations/src: lib.rs, projection.rs, reconcile.rs, cancel.rs, archive.rs, notes.rs).

  Every writer takes the row lock of the operation first, so each transaction is one step. A
  transaction that fails rolls back and is no step.
*/
module Lifecycle {
  import opened Common
  import opened Transition
  import Authority

  /** A stable error code: `platform.operation.stale`, or one a writer supplies. */
  datatype Code = StaleCode | Code(name: string)

  /** A user-safe message: the reaper's fixed one, or one a writer supplies. */
  datatype Text = StaleText | Text(words: string)

  /** Who caused a progress entry. The table does not store it; the model does, to state authority. */
  datatype Writer = Reporter(producer: Authority.Producer, tenant: Authority.Tenant) | Reaper | Edge

  /** One row of `operations.operation_progress`. */
  datatype Entry = Entry(observedAt: Instant, status: Status, stage: Option<string>,
                         percent: Option<nat>, message: Option<Text>, writer: Writer)

  /** One row of `operations.operation_errors`. */
  datatype Diagnostic = ErrorRow(code: Code, retryable: bool, at: Instant)
                      | WarningRow(code: Code, at: Instant)

  datatype ErrorEnvelope = ErrorEnvelope(code: Code, retryable: bool)

  /** Edge's receipt binding for an AI archive operation. */
  datatype Acceptance = Acceptance(owner: Uuid, provider: Provider)

  /** What acceptance writes about an operation and no later writer changes. */
  datatype Identity = Identity(
    owner: Uuid, kind: Authority.Kind, reporter: Option<Authority.Producer>,
    acceptedAt: Instant, acceptance: Option<Acceptance>)

  /** The columns of `operations.operations` that later writers change. */
  datatype Operation = Operation(
    status: Status, stage: Option<string>, percent: Option<nat>, retryable: bool,
    cancellationRequestedAt: Option<Instant>, statusChangedAt: Instant, terminatedAt: Option<Instant>)

  /** Everything stored about one operation, across the five tables that hold it. */
  datatype Record = Record(
    id: Identity, op: Operation, history: seq<Entry>, results: seq<string>, diagnostics: seq<Diagnostic>)

  datatype Provider = ChatGptArchive | ClaudeArchive | OtherArchive

  /** `evt.ai-archive.<provider>.operation.reported.v1`, another `evt.ai-archive.` subject, or none. */
  datatype Subject = ArchiveReport(provider: Provider) | OtherArchiveSubject | Elsewhere

  datatype Refusal = NotFound | ConflictingOutcome | ClockWentBack | ReporterNotAllowed

  /** The members of an operation report that Platform reads. */
  datatype ProgressReport = ProgressReport(
    status: Status, stage: Option<string>, percent: Option<nat>,
    results: seq<string>, error: Option<ErrorEnvelope>, warnings: seq<Code>)

  /** A delivered report. `report` is `None` when this build cannot read it or it contradicts itself. */
  datatype Message = Message(subject: Subject, producer: Authority.Producer, tenant: Authority.Tenant,
                             report: Option<ProgressReport>)

  /** What the inbox stores about a handled report. */
  datatype Handled = Applied | Repeated | Outdated | Rejected

  datatype Cancellation = Requested | AlreadyRequested | AlreadyTerminal

  // ---------------------------------------------------------------------------------------------
  // The writers
  // ---------------------------------------------------------------------------------------------

  function NewRecord(id: Identity): Record {
    Record(id, Operation(Accepted, None, None, false, None, id.acceptedAt, None), [], [], [])
  }

  datatype Transitioned = Transitioned(outcome: Outcome, after: Record)

  /** An advance writes the status columns and appends the progress entry. */
  function Advanced(r: Record, entry: Entry): Record {
    r.(op := r.op.(status := entry.status,
                   stage := Coalesce(entry.stage, r.op.stage),
                   percent := Coalesce(entry.percent, r.op.percent),
                   statusChangedAt := entry.observedAt,
                   terminatedAt := if IsTerminal(entry.status) then Some(entry.observedAt) else None),
       history := r.history + [entry])
  }

  /**
    Apply an incoming status under the row lock. The database trigger refuses a change dated before
    the previous one, which fails the statement and with it the transaction.
  */
  function RecordStatus(r: Record, incoming: Status, stage: Option<string>, percent: Option<nat>,
                        message: Option<Text>, writer: Writer, now: Instant): Result<Transitioned, Refusal> {
    match Apply(r.op.status, incoming)
    case Conflict => Err(ConflictingOutcome)
    case Duplicate => Ok(Transitioned(Duplicate, r))
    case Stale => Ok(Transitioned(Stale, r))
    case Advance(to) =>
      if now < r.op.statusChangedAt then Err(ClockWentBack)
      else Ok(Transitioned(Advance(to), Advanced(r, Entry(now, to, stage, percent, message, writer))))
  }

  function RecordError(r: Record, error: ErrorEnvelope, now: Instant): Record {
    r.(op := r.op.(retryable := error.retryable),
       diagnostics := r.diagnostics + [ErrorRow(error.code, error.retryable, now)])
  }

  function WarningRows(codes: seq<Code>, now: Instant): (rows: seq<Diagnostic>)
    ensures |rows| == |codes|
    ensures forall i | 0 <= i < |rows| :: rows[i] == WarningRow(codes[i], now)
  {
    seq(|codes|, i requires 0 <= i < |codes| => WarningRow(codes[i], now))
  }

  /** The acceptance record counts as a binding only when it names this operation's owner. */
  function Binding(id: Identity): Option<Acceptance> {
    if id.acceptance.Some? && id.acceptance.value.owner == id.owner then id.acceptance else None
  }

  predicate AuthorizedBy(id: Identity, producer: Authority.Producer, tenant: Authority.Tenant) {
    Authority.Authorize(id.kind, producer, tenant, id.owner, id.reporter, Binding(id).Some?)
  }

  /** Whether `message` may be applied to the operation it names. */
  predicate Bound(id: Identity, message: Message) {
    && AuthorizedBy(id, message.producer, message.tenant)
    && match Binding(id) {
         case Some(Acceptance(_, ChatGptArchive)) =>
           message.subject == ArchiveReport(ChatGptArchive) && message.producer == Authority.ChatGpt
         case Some(Acceptance(_, ClaudeArchive)) =>
           message.subject == ArchiveReport(ClaudeArchive) && message.producer == Authority.Claude
         case Some(Acceptance(_, OtherArchive)) => false
         case None => message.subject == Elsewhere
       }
  }

  /** What a report adds beside its status, whatever the transition was. */
  function Attach(r: Record, report: ProgressReport, now: Instant): Record {
    var withResults := r.(results := r.results + report.results);
    var withError :=
      if report.error.Some? then RecordError(withResults, report.error.value, now) else withResults;
    withError.(diagnostics := withError.diagnostics + WarningRows(report.warnings, now))
  }

  datatype Projected = Projected(handled: Handled, after: Record)

  /** Apply one delivered report. `Err` rolls the delivery back, so the broker redelivers it. */
  function Project(r: Record, message: Message, now: Instant): Result<Projected, Refusal> {
    if message.report.None? || !Bound(r.id, message) then Ok(Projected(Rejected, r))
    else
      var report := message.report.value;
      match RecordStatus(r, report.status, report.stage, report.percent, None,
                         Reporter(message.producer, message.tenant), now)
      case Err(ConflictingOutcome) => Ok(Projected(Rejected, r))
      case Err(refusal) => Err(refusal)
      case Ok(t) =>
        var handled := match t.outcome
          case Advance(_) => Applied
          case Duplicate => Repeated
          case Stale => Outdated
          case Conflict => Rejected;
        Ok(Projected(handled, Attach(t.after, report, now)))
  }

  /** Edge ends an operation whose forward or delivery it saw fail. */
  function FailFromEdge(r: Record, stage: string, message: Text, error: ErrorEnvelope, now: Instant)
    : Result<Record, Refusal>
  {
    match RecordStatus(r, Failed, Some(stage), None, Some(message), Edge, now)
    case Err(refusal) => Err(refusal)
    case Ok(t) => Ok(if t.outcome.Advance? then RecordError(t.after, error, now) else t.after)
  }

  function Latest(history: seq<Entry>): Option<Instant> {
    if history == [] then None
    else
      var last := history[|history| - 1].observedAt;
      match Latest(history[..|history| - 1])
      case None => Some(last)
      case Some(before) => Some(Max(before, last))
  }

  /** The newest observed fact: the later of the status change and the newest progress entry. */
  function Liveness(r: Record): Instant {
    match Latest(r.history)
    case None => r.op.statusChangedAt
    case Some(latest) => Max(r.op.statusChangedAt, latest)
  }

  /** The reaper's predicate, evaluated once to select and again under the row lock. */
  predicate IsStale(r: Record, cutoff: Instant) {
    r.op.terminatedAt.None? && !IsTerminal(r.op.status) && Liveness(r) < cutoff
  }

  datatype Reaped = Reaped(ended: bool, after: Record)

  function Reap(r: Record, cutoff: Instant, now: Instant): Result<Reaped, Refusal> {
    if !IsStale(r, cutoff) then Ok(Reaped(false, r))
    else
      match RecordStatus(r, Failed, None, None, Some(StaleText), Reaper, now)
      case Err(refusal) => Err(refusal)
      case Ok(t) => Ok(Reaped(true, RecordError(t.after, ErrorEnvelope(StaleCode, true), now)))
  }

  datatype Cancelling = Cancelling(answer: Cancellation, after: Record)

  /** Record that the owner asked for the work to stop. A request, not a state. */
  function RequestCancellation(r: Record, owner: Uuid, now: Instant): Result<Cancelling, Refusal> {
    if r.id.owner != owner then Err(NotFound)
    else if IsTerminal(r.op.status) then Ok(Cancelling(AlreadyTerminal, r))
    else if r.op.cancellationRequestedAt.Some? then Ok(Cancelling(AlreadyRequested, r))
    else Ok(Cancelling(Requested, r.(op := r.op.(cancellationRequestedAt := Some(now)))))
  }

  // ---------------------------------------------------------------------------------------------
  // Runs
  // ---------------------------------------------------------------------------------------------

  /** One attempted transaction on the operation. */
  datatype Event =
    | Deliver(message: Message, now: Instant)
    | EdgeFailure(stage: string, text: Text, error: ErrorEnvelope, now: Instant)
    | ReapEvent(cutoff: Instant, now: Instant)
    | Cancel(owner: Uuid, now: Instant)

  function Step(r: Record, e: Event): Record {
    match e
    case Deliver(message, now) => (match Project(r, message, now) case Ok(p) => p.after case Err(_) => r)
    case EdgeFailure(stage, text, error, now) =>
      (match FailFromEdge(r, stage, text, error, now) case Ok(after) => after case Err(_) => r)
    case ReapEvent(cutoff, now) => (match Reap(r, cutoff, now) case Ok(x) => x.after case Err(_) => r)
    case Cancel(owner, now) =>
      (match RequestCancellation(r, owner, now) case Ok(c) => c.after case Err(_) => r)
  }

  function Run(r: Record, events: seq<Event>): Record
    decreases |events|
  {
    if events == [] then r else Run(Step(r, events[0]), events[1..])
  }

  // ---------------------------------------------------------------------------------------------
  // What every run keeps
  // ---------------------------------------------------------------------------------------------

  function LastStage(history: seq<Entry>): Option<string> {
    if history == [] then None
    else Coalesce(history[|history| - 1].stage, LastStage(history[..|history| - 1]))
  }

  function LastPercent(history: seq<Entry>): Option<nat> {
    if history == [] then None
    else Coalesce(history[|history| - 1].percent, LastPercent(history[..|history| - 1]))
  }

  function LatestErrorRetryable(rows: seq<Diagnostic>): bool {
    if rows == [] then false
    else match rows[|rows| - 1]
      case ErrorRow(_, retryable, _) => retryable
      case WarningRow(_, _) => LatestErrorRetryable(rows[..|rows| - 1])
  }

  predicate HasErrors(r: Record) {
    exists row | row in r.diagnostics :: row.ErrorRow?
  }

  /**
    Each entry outranks the one before it, is not dated before it or before acceptance, and, when a
    report wrote it, came from a producer authorized to write it.
  */
  ghost predicate Sound(id: Identity, history: seq<Entry>) {
    history != [] ==>
      var front, last := history[..|history| - 1], history[|history| - 1];
      && Sound(id, front)
      && Rank(last.status) > (if front == [] then 0 else Rank(front[|front| - 1].status))
      && last.observedAt >= (if front == [] then id.acceptedAt else front[|front| - 1].observedAt)
      && (last.writer.Reporter? ==> AuthorizedBy(id, last.writer.producer, last.writer.tenant))
  }

  ghost predicate HistoryMatches(r: Record) {
    && Sound(r.id, r.history)
    && (if r.history == [] then r.op.status == Accepted && r.op.statusChangedAt == r.id.acceptedAt
        else var last := r.history[|r.history| - 1];
             r.op.status == last.status && r.op.statusChangedAt == last.observedAt)
    && r.op.terminatedAt == (if IsTerminal(r.op.status) then Some(r.op.statusChangedAt) else None)
    && r.op.stage == LastStage(r.history)
    && r.op.percent == LastPercent(r.history)
  }

  ghost predicate WellFormed(r: Record) {
    HistoryMatches(r) && r.op.retryable == LatestErrorRetryable(r.diagnostics)
  }

  lemma AppendKeepsSound(id: Identity, history: seq<Entry>, entry: Entry)
    requires Sound(id, history)
    requires Rank(entry.status) > (if history == [] then 0 else Rank(history[|history| - 1].status))
    requires entry.observedAt
          >= (if history == [] then id.acceptedAt else history[|history| - 1].observedAt)
    requires entry.writer.Reporter? ==> AuthorizedBy(id, entry.writer.producer, entry.writer.tenant)
    ensures Sound(id, history + [entry])
    ensures LastStage(history + [entry]) == Coalesce(entry.stage, LastStage(history))
    ensures LastPercent(history + [entry]) == Coalesce(entry.percent, LastPercent(history))
  {
    assert (history + [entry])[..|history|] == history;
  }

  lemma AdvanceKeeps(r: Record, entry: Entry)
    requires WellFormed(r)
    requires Rank(entry.status) > Rank(r.op.status) && entry.observedAt >= r.op.statusChangedAt
    requires entry.writer.Reporter? ==> AuthorizedBy(r.id, entry.writer.producer, entry.writer.tenant)
    ensures WellFormed(Advanced(r, entry))
  {
    AppendKeepsSound(r.id, r.history, entry);
  }

  lemma RecordStatusKeeps(r: Record, incoming: Status, stage: Option<string>, percent: Option<nat>,
                          message: Option<Text>, writer: Writer, now: Instant)
    requires WellFormed(r)
    requires writer.Reporter? ==> AuthorizedBy(r.id, writer.producer, writer.tenant)
    ensures var t := RecordStatus(r, incoming, stage, percent, message, writer, now);
            t.Ok? ==> WellFormed(t.value.after) && t.value.after.id == r.id
  {
    if Rank(incoming) > Rank(r.op.status) && now >= r.op.statusChangedAt {
      AdvanceKeeps(r, Entry(now, incoming, stage, percent, message, writer));
    }
  }

  lemma RecordErrorKeeps(r: Record, error: ErrorEnvelope, now: Instant)
    requires WellFormed(r)
    ensures WellFormed(RecordError(r, error, now)) && RecordError(r, error, now).id == r.id
  {
  }

  lemma {:induction false} WarningsKeepRetryable(rows: seq<Diagnostic>, more: seq<Diagnostic>)
    requires forall i | 0 <= i < |more| :: more[i].WarningRow?
    ensures LatestErrorRetryable(rows + more) == LatestErrorRetryable(rows)
  {
    if more == [] {
      assert rows + more == rows;
    } else {
      var front := more[..|more| - 1];
      WarningsKeepRetryable(rows, front);
      assert (rows + more)[..|rows + more| - 1] == rows + front;
    }
  }

  lemma AttachKeeps(r: Record, report: ProgressReport, now: Instant)
    requires WellFormed(r)
    ensures WellFormed(Attach(r, report, now)) && Attach(r, report, now).id == r.id
    ensures Attach(r, report, now).history == r.history && Attach(r, report, now).op.status == r.op.status
  {
    var withResults := r.(results := r.results + report.results);
    assert WellFormed(withResults);
    var withError :=
      if report.error.Some? then RecordError(withResults, report.error.value, now) else withResults;
    assert WellFormed(withError);
    WarningsKeepRetryable(withError.diagnostics, WarningRows(report.warnings, now));
  }

  lemma DeliverKeeps(r: Record, message: Message, now: Instant)
    requires WellFormed(r)
    ensures var p := Project(r, message, now);
            p.Ok? ==> WellFormed(p.value.after) && p.value.after.id == r.id
  {
    if message.report.Some? && Bound(r.id, message) {
      var report := message.report.value;
      var writer := Reporter(message.producer, message.tenant);
      RecordStatusKeeps(r, report.status, report.stage, report.percent, None, writer, now);
      var t := RecordStatus(r, report.status, report.stage, report.percent, None, writer, now);
      if t.Ok? {
        AttachKeeps(t.value.after, report, now);
      }
    }
  }

  lemma FailedKeeps(r: Record, stage: Option<string>, text: Text, writer: Writer, error: ErrorEnvelope, now: Instant)
    requires WellFormed(r) && !writer.Reporter?
    ensures var t := RecordStatus(r, Failed, stage, None, Some(text), writer, now);
            t.Ok? ==>
              && WellFormed(t.value.after) && t.value.after.id == r.id
              && WellFormed(RecordError(t.value.after, error, now))
  {
    RecordStatusKeeps(r, Failed, stage, None, Some(text), writer, now);
    var t := RecordStatus(r, Failed, stage, None, Some(text), writer, now);
    if t.Ok? {
      RecordErrorKeeps(t.value.after, error, now);
    }
  }

  lemma StepKeeps(r: Record, e: Event)
    requires WellFormed(r)
    ensures WellFormed(Step(r, e)) && Step(r, e).id == r.id
  {
    match e {
      case Deliver(message, now) => DeliverKeeps(r, message, now);
      case EdgeFailure(stage, text, error, now) => FailedKeeps(r, Some(stage), text, Edge, error, now);
      case ReapEvent(cutoff, now) =>
        FailedKeeps(r, None, StaleText, Reaper, ErrorEnvelope(StaleCode, true), now);
      case Cancel(owner, now) =>
    }
  }

  lemma {:induction false} RunKeeps(r: Record, events: seq<Event>)
    requires WellFormed(r)
    ensures WellFormed(Run(r, events)) && Run(r, events).id == r.id
    decreases |events|
  {
    if events != [] {
      StepKeeps(r, events[0]);
      RunKeeps(Step(r, events[0]), events[1..]);
    }
  }
}
