/**
  Who may report on an operation and what a report does to it (crates/operations/src/authority.rs,
  projection.rs), and what every writer leaves in the results and diagnostics of the operation.
*/
module ReportTheorems {
  import opened Common
  import opened Transition
  import A = Authority
  import opened Lifecycle
  import opened LifecycleTheorems

  // ---------------------------------------------------------------------------------------------
  // The order of statuses
  // ---------------------------------------------------------------------------------------------

  /** Whether the second status is further along: accepted, queued, running, and then one of four ends. */
  predicate Further(from: Status, to: Status) {
    match from
    case Accepted => to != Accepted
    case Queued => to != Accepted && to != Queued
    case Running => to == Succeeded || to == PartiallySucceeded || to == Failed || to == Cancelled
    case _ => false
  }

  /** A status advances exactly to what is further along, is stale exactly the other way, and two ends conflict. */
  lemma StatusesAdvance(current: Status, incoming: Status)
    ensures Apply(current, incoming) ==
      if current == incoming then Duplicate
      else if Further(current, incoming) then Advance(incoming)
      else if Further(incoming, current) then Stale
      else Conflict
  {
  }

  // ---------------------------------------------------------------------------------------------
  // Who may report
  // ---------------------------------------------------------------------------------------------

  /** The services that may be dispatched work of each kind. */
  predicate Serves(kind: A.Kind, producer: A.Producer) {
    match producer
    case Extractor | X | Instagram | Threads => kind == A.ContentCaptureSubmit
    case ChannelDigests =>
      kind == A.ChannelDigestSubscriptionSet || kind == A.ChannelDigestRun || kind == A.ChannelDigestScheduleOccurrence
    case Notes => kind == A.NotesConnectionConnect || kind == A.NotesFileWrite || kind == A.NotesConnectionWriteMode
    case Sites => kind == A.SitesReleaseBuild
    case ChatGpt | Claude | OtherProducer(_) => false
  }

  lemma ReportersServe(kind: A.Kind, producer: A.Producer)
    ensures A.Allows(kind, producer) <==> Serves(kind, producer)
  {
  }

  /** Platform's own record that it accepted this owner's archive. */
  predicate AcceptedForOwner(id: Identity) {
    id.acceptance.Some? && id.acceptance.value.owner == id.owner
  }

  /** The envelope says the operation is the tenant's own, or says nothing about an archive accepted for its owner. */
  predicate TenantFits(id: Identity, tenant: A.Tenant) {
    tenant == A.UserTenant(id.owner) || (tenant == A.NoTenant && id.kind == A.AiArchiveImport && AcceptedForOwner(id))
  }

  /** The report comes from where the work was sent: the recorded reporter, or the accepted provider's own channel. */
  predicate SourceFits(id: Identity, producer: A.Producer, subject: Subject) {
    && (id.kind == A.AiArchiveImport || (id.reporter == Some(producer) && Serves(id.kind, producer)))
    && (if AcceptedForOwner(id) then
          match id.acceptance.value.provider
          case ChatGptArchive => producer == A.ChatGpt && subject == ArchiveReport(ChatGptArchive)
          case ClaudeArchive => producer == A.Claude && subject == ArchiveReport(ClaudeArchive)
          case OtherArchive => false
        else subject == Elsewhere)
  }

  lemma BoundMeans(id: Identity, message: Message)
    ensures Bound(id, message) <==>
      TenantFits(id, message.tenant) && SourceFits(id, message.producer, message.subject)
  {
    ReportersServe(id.kind, message.producer);
  }

  /** A readable report moves the operation exactly when its tenant and its source fit and it is further along. */
  lemma ReportMovesExactly(r: Record, message: Message, now: Instant)
    requires message.report.Some?
    ensures var after, report := Step(r, Deliver(message, now)), message.report.value;
      && (after.history != r.history <==>
            && TenantFits(r.id, message.tenant) && SourceFits(r.id, message.producer, message.subject)
            && Further(r.op.status, report.status) && r.op.statusChangedAt <= now)
      && (after.history != r.history ==>
            && after.op.status == report.status && after.op.statusChangedAt == now
            && after.history == r.history + [Entry(now, report.status, report.stage, report.percent, None,
                                                   Reporter(message.producer, message.tenant))])
  {
    BoundMeans(r.id, message);
    StatusesAdvance(r.op.status, message.report.value.status);
  }

  /** What the inbox records of a report that fits, and when its delivery is rolled back to be tried again. */
  lemma ReportsAreRecordedAs(r: Record, message: Message, now: Instant)
    requires message.report.Some?
    requires TenantFits(r.id, message.tenant) && SourceFits(r.id, message.producer, message.subject)
    ensures var incoming, projected := message.report.value.status, Project(r, message, now);
      && (projected.Err? <==> Further(r.op.status, incoming) && now < r.op.statusChangedAt)
      && (projected.Err? ==> projected.error == ClockWentBack)
      && (projected.Ok? ==>
            projected.value.handled ==
              if Further(r.op.status, incoming) then Applied
              else if incoming == r.op.status then Repeated
              else if Further(incoming, r.op.status) then Outdated
              else Rejected)
  {
    BoundMeans(r.id, message);
    StatusesAdvance(r.op.status, message.report.value.status);
  }

  /** A report that does not fit its operation changes nothing about it, and is rejected for good. */
  lemma StrangersAreRejected(r: Record, message: Message, now: Instant)
    requires !TenantFits(r.id, message.tenant) || !SourceFits(r.id, message.producer, message.subject)
          || message.report.None?
    ensures Project(r, message, now) == Ok(Projected(Rejected, r))
  {
    BoundMeans(r.id, message);
  }

  /**
    Over every run: what reports wrote on an archive operation came for its owner, by name or through the
    acceptance of that owner's upload, and from the accepted provider's service if there is one.
  */
  lemma ArchiveAuthority(id: Identity, events: seq<Event>, entry: Entry)
    requires id.kind == A.AiArchiveImport && entry in Run(NewRecord(id), events).history && entry.writer.Reporter?
    ensures entry.writer.tenant == A.UserTenant(id.owner) || (entry.writer.tenant == A.NoTenant && AcceptedForOwner(id))
    ensures AcceptedForOwner(id) ==>
      || (id.acceptance.value.provider == ChatGptArchive && entry.writer.producer == A.ChatGpt)
      || (id.acceptance.value.provider == ClaudeArchive && entry.writer.producer == A.Claude)
  {
    EntriesFit(NewRecord(id), events);
  }

  /** Every entry a report wrote fits the operation in tenant and in producer. */
  ghost predicate EntryFits(id: Identity, entry: Entry) {
    entry.writer.Reporter? ==>
      TenantFits(id, entry.writer.tenant)
      && exists subject :: SourceFits(id, entry.writer.producer, subject)
  }

  lemma StepKeepsEntriesFit(r: Record, e: Event)
    requires forall entry | entry in r.history :: EntryFits(r.id, entry)
    ensures Step(r, e).id == r.id && forall entry | entry in Step(r, e).history :: EntryFits(r.id, entry)
  {
    match e {
      case Deliver(message, now) =>
        BoundMeans(r.id, message);
        if message.report.Some? {
          ReportMovesExactly(r, message, now);
        }
      case _ => PlatformWritesNoReport(r, e);
    }
  }

  lemma PlatformWritesNoReport(r: Record, e: Event)
    requires !e.Deliver?
    ensures Step(r, e).id == r.id
    ensures Step(r, e).history == r.history
         || (|Step(r, e).history| == |r.history| + 1 && Step(r, e).history[..|r.history|] == r.history
             && !Step(r, e).history[|r.history|].writer.Reporter?)
  {
  }

  lemma {:induction false} EntriesFit(r: Record, events: seq<Event>)
    requires forall entry | entry in r.history :: EntryFits(r.id, entry)
    ensures Run(r, events).id == r.id && forall entry | entry in Run(r, events).history :: EntryFits(r.id, entry)
    decreases |events|
  {
    if events != [] {
      StepKeepsEntriesFit(r, events[0]);
      EntriesFit(Step(r, events[0]), events[1..]);
    }
  }

  // ---------------------------------------------------------------------------------------------
  // Results and diagnostics
  // ---------------------------------------------------------------------------------------------

  /** A report whose members are recorded: it fits its operation, and is not a different end or late-dated. */
  predicate Heard(r: Record, message: Message, now: Instant) {
    && message.report.Some?
    && TenantFits(r.id, message.tenant) && SourceFits(r.id, message.producer, message.subject)
    && var incoming := message.report.value.status;
       || incoming == r.op.status || Further(incoming, r.op.status)
       || (Further(r.op.status, incoming) && r.op.statusChangedAt <= now)
  }

  function WarningsOf(codes: seq<Code>, now: Instant): seq<Diagnostic> {
    if codes == [] then [] else [WarningRow(codes[0], now)] + WarningsOf(codes[1..], now)
  }

  lemma {:induction false} WarningsAreRows(codes: seq<Code>, now: Instant)
    ensures WarningRows(codes, now) == WarningsOf(codes, now)
  {
    if codes != [] {
      WarningsAreRows(codes[1..], now);
      assert WarningRows(codes, now) == [WarningRow(codes[0], now)] + WarningRows(codes[1..], now);
    }
  }

  function ResultsFrom(r: Record, e: Event): seq<string> {
    if e.Deliver? && Heard(r, e.message, e.now) then e.message.report.value.results else []
  }

  /** The diagnostics one transaction adds: a report's, Edge's own, or the reaper's stale error. */
  function DiagnosticsFrom(r: Record, e: Event): seq<Diagnostic> {
    match e
    case Deliver(message, now) =>
      if !Heard(r, message, now) then []
      else
        var report := message.report.value;
        (if report.error.Some? then [ErrorRow(report.error.value.code, report.error.value.retryable, now)] else [])
        + WarningsOf(report.warnings, now)
    case EdgeFailure(_, _, error, now) =>
      if Further(r.op.status, Failed) && r.op.statusChangedAt <= now then [ErrorRow(error.code, error.retryable, now)]
      else []
    case ReapEvent(cutoff, now) =>
      if IsStale(r, cutoff) && r.op.statusChangedAt <= now then [ErrorRow(StaleCode, true, now)] else []
    case Cancel(_, _) => []
  }

  /** A report is projected, as a rejection or with its members attached to the transition. */
  lemma HeardIsAttached(r: Record, message: Message, now: Instant)
    ensures !Heard(r, message, now) ==> Step(r, Deliver(message, now)) == r
    ensures Heard(r, message, now) ==>
      exists moved: Record :: moved.results == r.results && moved.diagnostics == r.diagnostics
        && Step(r, Deliver(message, now)) == Attach(moved, message.report.value, now)
  {
    BoundMeans(r.id, message);
    if message.report.Some? {
      var report := message.report.value;
      StatusesAdvance(r.op.status, report.status);
      if Heard(r, message, now) {
        var moved := RecordStatus(r, report.status, report.stage, report.percent, None,
                                  Reporter(message.producer, message.tenant), now).value.after;
        assert Step(r, Deliver(message, now)) == Attach(moved, report, now);
      }
    }
  }

  lemma AttachedMembers(r: Record, report: ProgressReport, now: Instant)
    ensures Attach(r, report, now).results == r.results + report.results
    ensures Attach(r, report, now).diagnostics == r.diagnostics
      + ((if report.error.Some? then [ErrorRow(report.error.value.code, report.error.value.retryable, now)] else [])
         + WarningsOf(report.warnings, now))
  {
    WarningsAreRows(report.warnings, now);
  }

  lemma ReportAdds(r: Record, message: Message, now: Instant)
    ensures var e := Deliver(message, now);
      && Step(r, e).results == r.results + ResultsFrom(r, e)
      && Step(r, e).diagnostics == r.diagnostics + DiagnosticsFrom(r, e)
  {
    HeardIsAttached(r, message, now);
    if Heard(r, message, now) {
      var moved: Record :| moved.results == r.results && moved.diagnostics == r.diagnostics
        && Step(r, Deliver(message, now)) == Attach(moved, message.report.value, now);
      AttachedMembers(moved, message.report.value, now);
    }
  }

  lemma StepAdds(r: Record, e: Event)
    ensures Step(r, e).results == r.results + ResultsFrom(r, e)
    ensures Step(r, e).diagnostics == r.diagnostics + DiagnosticsFrom(r, e)
  {
    match e {
      case Deliver(message, now) => ReportAdds(r, message, now);
      case EdgeFailure(_, _, _, _) => StatusesAdvance(r.op.status, Failed);
      case ReapEvent(_, _) => StatusesAdvance(r.op.status, Failed);
      case Cancel(_, _) =>
    }
  }

  function AllResults(r: Record, events: seq<Event>): seq<string>
    decreases |events|
  {
    if events == [] then [] else ResultsFrom(r, events[0]) + AllResults(Step(r, events[0]), events[1..])
  }

  function AllDiagnostics(r: Record, events: seq<Event>): seq<Diagnostic>
    decreases |events|
  {
    if events == [] then [] else DiagnosticsFrom(r, events[0]) + AllDiagnostics(Step(r, events[0]), events[1..])
  }

  lemma {:induction false} ResultsAddUp(r: Record, events: seq<Event>)
    ensures Run(r, events).results == r.results + AllResults(r, events)
    decreases |events|
  {
    if events != [] {
      StepAdds(r, events[0]);
      ResultsAddUp(Step(r, events[0]), events[1..]);
      Associate(r.results, ResultsFrom(r, events[0]), AllResults(Step(r, events[0]), events[1..]));
    }
  }

  lemma {:induction false} DiagnosticsAddUp(r: Record, events: seq<Event>)
    ensures Run(r, events).diagnostics == r.diagnostics + AllDiagnostics(r, events)
    decreases |events|
  {
    if events != [] {
      StepAdds(r, events[0]);
      DiagnosticsAddUp(Step(r, events[0]), events[1..]);
      Associate(r.diagnostics, DiagnosticsFrom(r, events[0]), AllDiagnostics(Step(r, events[0]), events[1..]));
    }
  }

  lemma Associate<T>(a: seq<T>, b: seq<T>, c: seq<T>)
    ensures (a + b) + c == a + (b + c)
  {
  }

  /**
    Over every run nothing a writer says is lost, reordered or invented: the results are those of the reports
    that were heard, and the diagnostics are theirs, Edge's and the reaper's, in the order they committed.
  */
  lemma NothingSaidIsLost(r: Record, events: seq<Event>)
    ensures Run(r, events).results == r.results + AllResults(r, events)
    ensures Run(r, events).diagnostics == r.diagnostics + AllDiagnostics(r, events)
  {
    ResultsAddUp(r, events);
    DiagnosticsAddUp(r, events);
  }

  // ---------------------------------------------------------------------------------------------
  // The other writers
  // ---------------------------------------------------------------------------------------------

  /** Edge ends an operation that is still live, with what it saw; an ended one only if it failed already, silently. */
  lemma EdgeEndsLiveOperations(r: Record, stage: string, text: Text, error: ErrorEnvelope, now: Instant)
    ensures var after := Step(r, EdgeFailure(stage, text, error, now));
      && (after != r <==> !IsTerminal(r.op.status) && r.op.statusChangedAt <= now)
      && (after != r ==>
            && after.op.status == Failed && after.op.terminatedAt == Some(now) && after.op.stage == Some(stage)
            && after.op.retryable == error.retryable && after.results == r.results
            && after.history == r.history + [Entry(now, Failed, Some(stage), None, Some(text), Edge)]
            && after.diagnostics == r.diagnostics + [ErrorRow(error.code, error.retryable, now)])
    ensures var answer := FailFromEdge(r, stage, text, error, now);
      && (answer == Err(ConflictingOutcome) <==> IsTerminal(r.op.status) && r.op.status != Failed)
      && (answer == Err(ClockWentBack) <==> !IsTerminal(r.op.status) && now < r.op.statusChangedAt)
      && (answer.Err? ==> answer.error == ConflictingOutcome || answer.error == ClockWentBack)
  {
    StatusesAdvance(r.op.status, Failed);
    if !IsTerminal(r.op.status) && r.op.statusChangedAt <= now {
      assert |Step(r, EdgeFailure(stage, text, error, now)).history| == |r.history| + 1;
    }
  }

  /** What its owner is told of a cancellation, and that nobody else learns that the operation exists. */
  lemma CancellationAnswers(r: Record, owner: Uuid, now: Instant)
    ensures var answered := RequestCancellation(r, owner, now);
      && (answered == Err(NotFound) <==> r.id.owner != owner) && (answered.Err? ==> answered == Err(NotFound))
      && (answered.Ok? ==>
            && (answered.value.answer == AlreadyTerminal <==> Further(Running, r.op.status))
            && (answered.value.answer == Requested <==>
                  !Further(Running, r.op.status) && r.op.cancellationRequestedAt.None?)
            && (answered.value.answer != Requested ==> answered.value.after == r))
  {
  }
}
