/**
  What holds of one operation over every run of its writers: history, convergence, diagnostics, the
  reaper against the workers, and who may end it.
*/
module LifecycleTheorems {
  import opened Common
  import opened Transition
  import Authority
  import opened Lifecycle

  /** An operation as intake mints it: a reporter, when given, is one its kind allows. */
  ghost predicate Mintable(id: Identity) {
    id.reporter.Some? ==> Authority.Allows(id.kind, id.reporter.value)
  }

  // ---------------------------------------------------------------------------------------------
  // History
  // ---------------------------------------------------------------------------------------------

  /** Ranks strictly rise and instants never fall, from acceptance on. */
  ghost predicate Rising(history: seq<Entry>, acceptedAt: Instant) {
    && (forall i | 0 <= i < |history| :: Rank(history[i].status) > i && history[i].observedAt >= acceptedAt)
    && (forall i, j | 0 <= i < j < |history| ::
          Rank(history[i].status) < Rank(history[j].status)
          && history[i].observedAt <= history[j].observedAt)
  }

  lemma {:induction false} SoundMeans(id: Identity, history: seq<Entry>)
    requires Sound(id, history)
    ensures Rising(history, id.acceptedAt)
    ensures Latest(history) == (if history == [] then None else Some(history[|history| - 1].observedAt))
    ensures forall entry | entry in history && entry.writer.Reporter? ::
      AuthorizedBy(id, entry.writer.producer, entry.writer.tenant)
  {
    if history != [] {
      var front := history[..|history| - 1];
      SoundMeans(id, front);
      forall entry | entry in history && entry.writer.Reporter?
        ensures AuthorizedBy(id, entry.writer.producer, entry.writer.tenant)
      {
        assert entry in front || entry == history[|history| - 1];
      }
    }
  }

  /**
    In every reachable state the progress history has strictly rising ranks, so at most three
    entries; the last entry is the stored status; `terminated_at` is set exactly for terminal
    statuses, to that entry's instant; the stored stage is the last one an entry gave; and the
    reaper's liveness instant is the instant of the last status change. No clock is assumed monotone:
    the database refuses the writes that would break this.
  */
  lemma History(id: Identity, events: seq<Event>)
    requires Mintable(id)
    ensures var r := Run(NewRecord(id), events);
      && r.id == id
      && |r.history| <= 3
      && Rising(r.history, id.acceptedAt)
      && r.op.status == (if r.history == [] then Accepted else r.history[|r.history| - 1].status)
      && r.op.statusChangedAt
         == (if r.history == [] then id.acceptedAt else r.history[|r.history| - 1].observedAt)
      && r.op.terminatedAt == (if IsTerminal(r.op.status) then Some(r.op.statusChangedAt) else None)
      && r.op.stage == LastStage(r.history) && r.op.percent == LastPercent(r.history)
      && Liveness(r) == r.op.statusChangedAt
      && r.op.retryable == LatestErrorRetryable(r.diagnostics)
  {
    RunKeeps(NewRecord(id), events);
    var r := Run(NewRecord(id), events);
    SoundMeans(id, r.history);
    if r.history != [] {
      assert Rank(r.history[|r.history| - 1].status) > |r.history| - 1;
    }
  }

  /** Everything a finished operation keeps whatever is still delivered to it. */
  ghost predicate SameEnd(a: Record, b: Record) {
    && a.op.status == b.op.status && a.op.terminatedAt == b.op.terminatedAt
    && a.op.stage == b.op.stage && a.op.percent == b.op.percent
    && a.op.statusChangedAt == b.op.statusChangedAt
    && a.op.cancellationRequestedAt == b.op.cancellationRequestedAt
    && a.history == b.history
  }

  lemma StepKeepsEnd(r: Record, e: Event)
    requires IsTerminal(r.op.status)
    ensures SameEnd(r, Step(r, e))
  {
  }

  /**
    A finished operation keeps its end over every run: only results and diagnostics, and with them
    `retryable`, can still be added.
  */
  lemma {:induction false} FinishedStaysFinished(r: Record, events: seq<Event>)
    requires IsTerminal(r.op.status)
    ensures SameEnd(r, Run(r, events))
    decreases |events|
  {
    if events != [] {
      StepKeepsEnd(r, events[0]);
      FinishedStaysFinished(Step(r, events[0]), events[1..]);
    }
  }

  /**
    A report that repeats a terminal status still appends its results and its error: a finished
    operation is not immutable.
  */
  lemma RepeatedReportStillWrites(r: Record, message: Message, now: Instant)
    requires message.report.Some? && Bound(r.id, message)
    requires Rank(message.report.value.status) < Rank(r.op.status)
          || message.report.value.status == r.op.status
    ensures Project(r, message, now) ==
      Ok(Projected(if message.report.value.status == r.op.status then Repeated else Outdated,
                   Attach(r, message.report.value, now)))
    ensures Attach(r, message.report.value, now).history == r.history
  {
  }

  /** The cancellation marker is written at most once, only while the operation is live, and alone. */
  lemma MarkerIsWrittenOnce(r: Record, e: Event)
    ensures Step(r, e).op.cancellationRequestedAt != r.op.cancellationRequestedAt ==>
      && e.Cancel? && e.owner == r.id.owner && !IsTerminal(r.op.status)
      && r.op.cancellationRequestedAt.None?
      && Step(r, e) == r.(op := r.op.(cancellationRequestedAt := Some(e.now)))
    ensures e.Cancel? && e.owner == r.id.owner && !IsTerminal(r.op.status) ==>
      Step(r, e).op.cancellationRequestedAt.Some?
  {
  }

  // ---------------------------------------------------------------------------------------------
  // Convergence of reports
  // ---------------------------------------------------------------------------------------------

  /** The events are readable, authorized reports, handled at instants that do not fall. */
  ghost predicate ReportsOnly(id: Identity, since: Instant, events: seq<Event>) {
    && (forall e | e in events ::
          e.Deliver? && e.message.report.Some? && Bound(id, e.message) && since <= e.now)
    && (forall i, j | 0 <= i < j < |events| :: events[i].now <= events[j].now)
  }

  function StatusesOf(events: seq<Event>): seq<Status>
    requires forall e | e in events :: e.Deliver? && e.message.report.Some?
  {
    seq(|events|, i requires 0 <= i < |events| => events[i].message.report.value.status)
  }

  lemma ReportSettles(r: Record, e: Event)
    requires WellFormed(r) && e.Deliver? && e.message.report.Some? && Bound(r.id, e.message)
    requires r.op.statusChangedAt <= e.now
    ensures Step(r, e).op.status == Settle(r.op.status, e.message.report.value.status)
    ensures Step(r, e).op.statusChangedAt <= e.now
  {
  }

  lemma {:induction false} ReportsSettle(r: Record, events: seq<Event>)
    requires WellFormed(r) && ReportsOnly(r.id, r.op.statusChangedAt, events)
    ensures Run(r, events).op.status == SettleAll(r.op.status, StatusesOf(events))
    decreases |events|
  {
    if events != [] {
      var next := Step(r, events[0]);
      assert events[0] in events;
      StepKeeps(r, events[0]);
      ReportSettles(r, events[0]);
      assert forall e | e in events[1..] :: exists j :: 0 < j < |events| && e == events[j];
      ReportsSettle(next, events[1..]);
      assert StatusesOf(events)[1..] == StatusesOf(events[1..]);
    }
  }

  /**
    Reports of one operation whose terminal statuses agree end it in the same status, the
    highest-ranked one, in whatever order, however often and with whatever other members they arrive.
  */
  lemma ReportsConverge(r: Record, one: seq<Event>, other: seq<Event>)
    requires WellFormed(r)
    requires ReportsOnly(r.id, r.op.statusChangedAt, one)
    requires ReportsOnly(r.id, r.op.statusChangedAt, other)
    requires Seen(r.op.status, StatusesOf(one)) == Seen(r.op.status, StatusesOf(other))
    requires TerminalsAgree(Seen(r.op.status, StatusesOf(one)))
    ensures Run(r, one).op.status == Run(r, other).op.status
    ensures IsHighest(Run(r, one).op.status, Seen(r.op.status, StatusesOf(one)))
  {
    ReportsSettle(r, one);
    ReportsSettle(r, other);
    Convergence(r.op.status, StatusesOf(one), StatusesOf(other));
  }

  /** The status a transaction brings to the row it locks: a reaper that finds it fresh brings none. */
  function Brought(r: Record, e: Event): seq<Status> {
    match e
    case Deliver(message, _) =>
      if message.report.Some? && Bound(r.id, message) then [message.report.value.status] else []
    case EdgeFailure(_, _, _, _) => [Failed]
    case ReapEvent(cutoff, _) => if IsStale(r, cutoff) then [Failed] else []
    case Cancel(_, _) => []
  }

  function BroughtBy(r: Record, events: seq<Event>): seq<Status>
    decreases |events|
  {
    if events == [] then [] else Brought(r, events[0]) + BroughtBy(Step(r, events[0]), events[1..])
  }

  /** Whoever writes, its clock is not behind the one before it. */
  ghost predicate InOrder(since: Instant, events: seq<Event>)
    decreases |events|
  {
    events == [] || (since <= events[0].now && InOrder(events[0].now, events[1..]))
  }

  lemma WriterSettles(r: Record, e: Event)
    requires r.op.statusChangedAt <= e.now
    ensures Step(r, e).op.status == SettleAll(r.op.status, Brought(r, e))
    ensures Step(r, e).op.statusChangedAt <= e.now
  {
    var brought := Brought(r, e);
    if brought != [] {
      assert brought[1..] == [];
      assert SettleAll(r.op.status, brought) == Settle(r.op.status, brought[0]);
    }
  }

  lemma {:induction false} InOrderFromEarlier(earlier: Instant, since: Instant, events: seq<Event>)
    requires InOrder(since, events) && earlier <= since
    ensures InOrder(earlier, events)
  {
  }

  lemma {:induction false} WritersSettle(r: Record, events: seq<Event>)
    requires InOrder(r.op.statusChangedAt, events)
    ensures Run(r, events).op.status == SettleAll(r.op.status, BroughtBy(r, events))
    decreases |events|
  {
    if events != [] {
      var next := Step(r, events[0]);
      WriterSettles(r, events[0]);
      InOrderFromEarlier(next.op.statusChangedAt, events[0].now, events[1..]);
      WritersSettle(next, events[1..]);
      SettleAllAppend(r.op.status, Brought(r, events[0]), BroughtBy(next, events[1..]));
    }
  }

  /**
    Convergence of everything that writes the row: reports, Edge, the reaper and cancellation, interleaved
    in any two ways. When the statuses they bring are the same and agree on the terminal one, the operation
    ends in the same status, the highest-ranked one.
  */
  lemma WritersConverge(r: Record, one: seq<Event>, other: seq<Event>)
    requires InOrder(r.op.statusChangedAt, one) && InOrder(r.op.statusChangedAt, other)
    requires Seen(r.op.status, BroughtBy(r, one)) == Seen(r.op.status, BroughtBy(r, other))
    requires TerminalsAgree(Seen(r.op.status, BroughtBy(r, one)))
    ensures Run(r, one).op.status == Run(r, other).op.status
    ensures IsHighest(Run(r, one).op.status, Seen(r.op.status, BroughtBy(r, one)))
  {
    WritersSettle(r, one);
    WritersSettle(r, other);
    Convergence(r.op.status, BroughtBy(r, one), BroughtBy(r, other));
  }

  /** A different terminal outcome is refused, by every writer, without a write. */
  lemma DifferentTerminalWritesNothing(r: Record, e: Event)
    requires IsTerminal(r.op.status)
    requires match e
      case Deliver(m, _) =>
        m.report.Some? && IsTerminal(m.report.value.status) && m.report.value.status != r.op.status
      case EdgeFailure(_, _, _, _) => r.op.status != Failed
      case ReapEvent(_, _) => true
      case Cancel(_, _) => true
    ensures Step(r, e) == r
    ensures e.Deliver? ==> Project(r, e.message, e.now) == Ok(Projected(Rejected, r))
  {
  }

  // ---------------------------------------------------------------------------------------------
  // Diagnostics
  // ---------------------------------------------------------------------------------------------

  /** Exactly the failed reports carry an error. */
  ghost predicate ErrorRule(report: ProgressReport) {
    report.error.Some? <==> report.status == Failed
  }

  ghost predicate ReportsKeepErrorRule(events: seq<Event>) {
    forall e | e in events && e.Deliver? && e.message.report.Some? :: ErrorRule(e.message.report.value)
  }

  ghost predicate ErrorsMatchStatus(r: Record) {
    HasErrors(r) <==> r.op.status == Failed
  }

  lemma AttachedErrors(r: Record, report: ProgressReport, now: Instant)
    ensures HasErrors(Attach(r, report, now)) <==> HasErrors(r) || report.error.Some?
    ensures Attach(r, report, now).op.status == r.op.status
  {
    if report.error.Some? {
      var row := ErrorRow(report.error.value.code, report.error.value.retryable, now);
      assert row in Attach(r, report, now).diagnostics;
    }
    if HasErrors(r) {
      var row :| row in r.diagnostics && row.ErrorRow?;
      assert row in Attach(r, report, now).diagnostics;
    }
  }

  lemma RecordedError(r: Record, error: ErrorEnvelope, now: Instant)
    ensures HasErrors(RecordError(r, error, now))
  {
    var after := RecordError(r, error, now);
    assert after.diagnostics[|after.diagnostics| - 1].ErrorRow?;
  }

  lemma DiagnosticsStep(r: Record, e: Event)
    requires ErrorsMatchStatus(r)
    requires e.Deliver? && e.message.report.Some? ==> ErrorRule(e.message.report.value)
    ensures ErrorsMatchStatus(Step(r, e))
  {
    match e {
      case Deliver(message, now) =>
        if message.report.Some? && Bound(r.id, message) {
          var report := message.report.value;
          var t := RecordStatus(r, report.status, report.stage, report.percent, None,
                                Reporter(message.producer, message.tenant), now);
          if t.Ok? {
            AttachedErrors(t.value.after, report, now);
          }
        }
      case EdgeFailure(stage, text, error, now) =>
        var t := RecordStatus(r, Failed, Some(stage), None, Some(text), Edge, now);
        if t.Ok? {
          RecordedError(t.value.after, error, now);
        }
      case ReapEvent(cutoff, now) =>
        var t := RecordStatus(r, Failed, None, None, Some(StaleText), Reaper, now);
        if t.Ok? {
          RecordedError(t.value.after, ErrorEnvelope(StaleCode, true), now);
        }
      case Cancel(owner, now) =>
    }
  }

  /**
    Over every interleaving of all four writers, an operation has error rows if and only if it is
    `failed`, provided exactly the failed reports carry an error.
  */
  lemma {:induction false} DiagnosticsMatchStatus(r: Record, events: seq<Event>)
    requires ErrorsMatchStatus(r) && ReportsKeepErrorRule(events)
    ensures ErrorsMatchStatus(Run(r, events))
    decreases |events|
  {
    if events != [] {
      assert events[0] in events;
      DiagnosticsStep(r, events[0]);
      DiagnosticsMatchStatus(Step(r, events[0]), events[1..]);
    }
  }

  /** The proviso is exact: one applied report that breaks the rule breaks the match. */
  lemma ErrorRuleIsNecessary(id: Identity, message: Message, now: Instant)
    requires message.report.Some? && Bound(id, message) && id.acceptedAt <= now
    ensures ErrorsMatchStatus(Step(NewRecord(id), Deliver(message, now)))
       <==> ErrorRule(message.report.value)
  {
    var report := message.report.value;
    var t := RecordStatus(NewRecord(id), report.status, report.stage, report.percent, None,
                          Reporter(message.producer, message.tenant), now);
    AttachedErrors(t.value.after, report, now);
  }

  // ---------------------------------------------------------------------------------------------
  // The reaper against the workers
  // ---------------------------------------------------------------------------------------------

  /**
    Under the lock the reaper ends an operation exactly when it is live and every fact about it,
    acceptance included, is older than the cutoff. Its status change is then always an advance to
    `failed`, and the stale error commits with it; in every other case nothing is written. It meets
    a refusal only when its own clock is behind the cutoff.
  */
  lemma ReaperEndsOnlySilentOperations(r: Record, cutoff: Instant, now: Instant)
    requires WellFormed(r)
    ensures IsStale(r, cutoff) <==>
      && !IsTerminal(r.op.status) && r.id.acceptedAt < cutoff
      && forall entry | entry in r.history :: entry.observedAt < cutoff
    ensures !IsStale(r, cutoff) ==> Reap(r, cutoff, now) == Ok(Reaped(false, r))
    ensures Reap(r, cutoff, now).Err? ==> now < cutoff
    ensures IsStale(r, cutoff) && Reap(r, cutoff, now).Ok? ==>
      var reaped := Reap(r, cutoff, now).value;
      && reaped.ended
      && Apply(r.op.status, Failed) == Advance(Failed)
      && reaped.after.op.status == Failed && reaped.after.op.terminatedAt == Some(now)
      && reaped.after.op.retryable
      && reaped.after.history
         == r.history + [Entry(now, Failed, None, None, Some(StaleText), Reaper)]
      && reaped.after.diagnostics == r.diagnostics + [ErrorRow(StaleCode, true, now)]
  {
    SoundMeans(r.id, r.history);
    if r.history != [] {
      var last := r.history[|r.history| - 1];
      assert last in r.history;
      forall entry | entry in r.history ensures r.id.acceptedAt <= entry.observedAt <= last.observedAt {
      }
    }
  }

  ghost function InstantOf(e: Event): Instant {
    match e
    case Deliver(_, now) => now
    case EdgeFailure(_, _, _, now) => now
    case ReapEvent(_, now) => now
    case Cancel(_, now) => now
  }

  lemma StepHistory(r: Record, e: Event)
    ensures r.history <= Step(r, e).history && |Step(r, e).history| <= |r.history| + 1
    ensures Step(r, e).op.status != r.op.status ==> |Step(r, e).history| == |r.history| + 1
    ensures |Step(r, e).history| == |r.history| + 1 ==>
      Step(r, e).history[|r.history|].observedAt == InstantOf(e)
  {
  }

  lemma {:induction false} HistoryOnlyGrows(r: Record, events: seq<Event>, cutoff: Instant)
    requires forall e | e in events :: InstantOf(e) >= cutoff
    ensures r.history <= Run(r, events).history
    ensures Run(r, events).op.status != r.op.status ==> |r.history| < |Run(r, events).history|
    ensures forall i | |r.history| <= i < |Run(r, events).history| ::
      Run(r, events).history[i].observedAt >= cutoff
    decreases |events|
  {
    if events != [] {
      assert events[0] in events;
      StepHistory(r, events[0]);
      HistoryOnlyGrows(Step(r, events[0]), events[1..], cutoff);
    }
  }

  /**
    The race the second check closes: whatever commits between the unlocked selection and the lock,
    if it moved the operation at or after the cutoff, the reaper leaves the operation as it found it.
  */
  lemma FreshFactWins(selected: Record, between: seq<Event>, cutoff: Instant, now: Instant)
    requires WellFormed(selected) && forall e | e in between :: InstantOf(e) >= cutoff
    ensures var locked := Run(selected, between);
      locked.op.status != selected.op.status ==> Reap(locked, cutoff, now) == Ok(Reaped(false, locked))
  {
    var locked := Run(selected, between);
    RunKeeps(selected, between);
    HistoryOnlyGrows(selected, between, cutoff);
    if locked.op.status != selected.op.status {
      assert locked.history[|selected.history|] in locked.history;
      ReaperEndsOnlySilentOperations(locked, cutoff, now);
    }
  }

  /** A report that repeats the current status or carries an older one. */
  ghost predicate BringsNothingNew(current: Status, e: Event) {
    && e.Deliver? && e.message.report.Some?
    && var status := e.message.report.value.status;
       status == current || Rank(status) < Rank(current)
  }

  lemma {:induction false} RepeatsDoNotMoveLiveness(r: Record, events: seq<Event>)
    requires WellFormed(r)
    requires forall e | e in events :: BringsNothingNew(r.op.status, e)
    ensures Run(r, events).op.status == r.op.status && Run(r, events).history == r.history
    ensures Run(r, events).op.statusChangedAt == r.op.statusChangedAt
    ensures Run(r, events).op.terminatedAt == r.op.terminatedAt
    decreases |events|
  {
    if events != [] {
      var e := events[0];
      assert e in events;
      StepKeeps(r, e);
      RepeatsDoNotMoveLiveness(Step(r, e), events[1..]);
    }
  }

  /**
    A worker that keeps reporting without ever changing the status does not keep its operation alive:
    any number of such reports, at any instants, leave the operation stale for every cutoff after its
    last status change, and the reaper ends it.
  */
  lemma RepeatedReportsDoNotKeepAlive(r: Record, reports: seq<Event>, cutoff: Instant, now: Instant)
    requires WellFormed(r) && !IsTerminal(r.op.status) && r.op.statusChangedAt < cutoff <= now
    requires forall e | e in reports :: BringsNothingNew(r.op.status, e)
    ensures Reap(Run(r, reports), cutoff, now).Ok? && Reap(Run(r, reports), cutoff, now).value.ended
  {
    RepeatsDoNotMoveLiveness(r, reports);
    RunKeeps(r, reports);
    SoundMeans(r.id, r.history);
  }

  // ---------------------------------------------------------------------------------------------
  // Report authority
  // ---------------------------------------------------------------------------------------------

  /**
    For a kind with a listed set of producers, every entry a report wrote came from the one recorded
    reporter, with the owner's tenant, and the kind allows that reporter. With no recorded reporter
    the operation can be ended only by Platform itself, and a kind without a row only by Platform too.
  */
  lemma ReportAuthority(id: Identity, events: seq<Event>)
    requires Mintable(id)
    ensures var r := Run(NewRecord(id), events);
      && (Authority.IsListed(id.kind) ==>
            forall entry | entry in r.history && entry.writer.Reporter? ::
              && id.reporter == Some(entry.writer.producer)
              && Authority.Allows(id.kind, entry.writer.producer)
              && entry.writer.tenant == Authority.UserTenant(id.owner))
      && ((Authority.IsListed(id.kind) && id.reporter.None?) || Authority.ProducersFor(id.kind).None? ==>
            forall entry | entry in r.history :: entry.writer.Reaper? || entry.writer.Edge?)
  {
    RunKeeps(NewRecord(id), events);
    SoundMeans(id, Run(NewRecord(id), events).history);
  }
}
