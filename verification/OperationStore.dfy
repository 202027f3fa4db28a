/**
  The tables of the `operations` schema and the transactions that write them
  (crates/operations/src: lib.rs, projection.rs, reconcile.rs, cancel.rs, archive.rs, notes.rs).

  Each method is one locked transaction body over mutable tables, proved to move the rows of one
  operation exactly as `Lifecycle` says and to leave every other operation alone.
*/
module OperationStore {
  import opened Common
  import opened Transition
  import Authority
  import opened Lifecycle

  type Db = map<Uuid, Record>

  datatype Row = Row(id: Identity, op: Operation)

  // ---------------------------------------------------------------------------------------------
  // Several operations at once
  // ---------------------------------------------------------------------------------------------

  function CommitOn(db: Db, id: Uuid, e: Event): Db {
    if id in db then db[id := Step(db[id], e)] else db
  }

  function CommitAll(db: Db, events: seq<(Uuid, Event)>): Db
    decreases |events|
  {
    if events == [] then db else CommitAll(CommitOn(db, events[0].0, events[0].1), events[1..])
  }

  /** The answer of the unlocked selection: stale operations, oldest first, at most `batch`. */
  ghost predicate IsSelection(db: Db, cutoff: Instant, batch: nat, candidates: seq<Uuid>) {
    && |candidates| <= batch
    && (forall i | 0 <= i < |candidates| :: candidates[i] in db && IsStale(db[candidates[i]], cutoff))
    && (forall i, j | 0 <= i < j < |candidates| ::
          Before(db, candidates[i], candidates[j]))
    && (forall id | id in db && IsStale(db[id], cutoff) && id !in candidates ::
          |candidates| == batch && forall c | c in candidates :: c in db && Before(db, c, id))
  }

  ghost predicate Before(db: Db, a: Uuid, b: Uuid)
    requires a in db && b in db
  {
    || db[a].op.statusChangedAt < db[b].op.statusChangedAt
    || (db[a].op.statusChangedAt == db[b].op.statusChangedAt && a < b)
  }

  datatype Passed = Passed(db: Db, ended: seq<bool>, aborted: Option<Refusal>)

  datatype Visited = Visited(db: Db, ended: Result<bool, Refusal>)

  /** One candidate of a pass: other writers commit, then the reaper locks it and checks again. */
  function Visit(db: Db, candidate: Uuid, others: seq<(Uuid, Event)>, cutoff: Instant, now: Instant): Visited {
    var locked := CommitAll(db, others);
    if candidate !in locked then Visited(locked, Ok(false))
    else match Reap(locked[candidate], cutoff, now)
      case Err(refusal) => Visited(locked, Err(refusal))
      case Ok(reaped) => Visited(locked[candidate := reaped.after], Ok(reaped.ended))
  }

  /** One reaper pass in which other writers commit `others[i]` before candidate `i` is locked. */
  function Pass(db: Db, candidates: seq<Uuid>, others: seq<seq<(Uuid, Event)>>, cutoff: Instant, now: Instant)
    : Passed
    requires |others| == |candidates|
    decreases |candidates|
  {
    if candidates == [] then Passed(db, [], None)
    else
      var visited := Visit(db, candidates[0], others[0], cutoff, now);
      match visited.ended
      case Err(refusal) => Passed(visited.db, [], Some(refusal))
      case Ok(ended) =>
        var rest := Pass(visited.db, candidates[1..], others[1..], cutoff, now);
        rest.(ended := [ended] + rest.ended)
  }

  function Count(flags: seq<bool>, wanted: bool): nat {
    if flags == [] then 0
    else (if flags[0] == wanted then 1 else 0) + Count(flags[1..], wanted)
  }

  datatype Report = Report(reconciled: nat, skipped: nat)

  /** What a pass returns. */
  function Reported(pass: Passed): Result<Report, Refusal> {
    match pass.aborted
    case Some(refusal) => Err(refusal)
    case None => Ok(Report(Count(pass.ended, true), Count(pass.ended, false)))
  }

  /** One candidate of a pass and then the rest. */
  lemma PassUnfold(db: Db, candidates: seq<Uuid>, others: seq<seq<(Uuid, Event)>>, cutoff: Instant, now: Instant)
    requires |others| == |candidates| && candidates != []
    ensures var visited := Visit(db, candidates[0], others[0], cutoff, now);
      Pass(db, candidates, others, cutoff, now)
      == match visited.ended
         case Err(refusal) => Passed(visited.db, [], Some(refusal))
         case Ok(ended) =>
           var rest := Pass(visited.db, candidates[1..], others[1..], cutoff, now);
           rest.(ended := [ended] + rest.ended)
  {
  }

  lemma CountsOne(whole: Passed, rest: Passed, ended: bool, report: Report)
    requires Continues(whole, rest.(ended := [ended] + rest.ended), report)
    ensures Continues(whole, rest, if ended then report.(reconciled := report.reconciled + 1)
                                   else report.(skipped := report.skipped + 1))
  {
    assert ([ended] + rest.ended)[1..] == rest.ended;
  }

  /** What is left of a pass, with what has been counted, makes up the whole pass. */
  predicate Continues(whole: Passed, rest: Passed, report: Report) {
    && rest.db == whole.db && rest.aborted == whole.aborted
    && Count(whole.ended, true) == report.reconciled + Count(rest.ended, true)
    && Count(whole.ended, false) == report.skipped + Count(rest.ended, false)
  }

  // ---------------------------------------------------------------------------------------------
  // The tables
  // ---------------------------------------------------------------------------------------------

  lemma Overwrite(db: Db, id: Uuid, first: Record, second: Record)
    ensures db[id := first][id := second] == db[id := second]
  {
  }

  class Store {
    var operations: map<Uuid, Row>
    var progress: map<Uuid, seq<Entry>>
    var results: map<Uuid, seq<string>>
    var diagnostics: map<Uuid, seq<Diagnostic>>

    ghost predicate Valid()
      reads this
    {
      progress.Keys == operations.Keys && results.Keys == operations.Keys
      && diagnostics.Keys == operations.Keys
    }

    function At(id: Uuid): Record
      requires Valid() && id in operations
      reads this
    {
      Record(operations[id].id, operations[id].op, progress[id], results[id], diagnostics[id])
    }

    ghost function Rows(): Db
      requires Valid()
      reads this
    {
      map id | id in operations :: At(id)
    }

    constructor ()
      ensures Valid() && Rows() == map[]
    {
      operations, progress, results, diagnostics := map[], map[], map[], map[];
    }

    /** Accept an operation: durable, and nothing more. */
    method Accept(minted: Uuid, id: Identity) returns (r: Result<Uuid, Refusal>)
      requires Valid() && minted !in operations
      modifies this
      ensures Valid()
      ensures r.Err? <==> id.reporter.Some? && !Authority.Allows(id.kind, id.reporter.value)
      ensures r.Err? ==> r.error == ReporterNotAllowed && Rows() == old(Rows())
      ensures r.Ok? ==> r.value == minted && Rows() == old(Rows())[minted := NewRecord(id)]
    {
      if id.reporter.Some? && !Authority.Allows(id.kind, id.reporter.value) {
        return Err(ReporterNotAllowed);
      }
      operations := operations[minted := Row(id, Operation(Accepted, None, None, false, None, id.acceptedAt, None))];
      progress := progress[minted := []];
      results := results[minted := []];
      diagnostics := diagnostics[minted := []];
      assert At(minted) == NewRecord(id);
      r := Ok(minted);
    }

    /** The one transition applier. */
    method RecordStatus(id: Uuid, incoming: Status, stage: Option<string>, percent: Option<nat>,
                        message: Option<Text>, writer: Writer, now: Instant)
      returns (r: Result<Outcome, Refusal>)
      requires Valid()
      modifies this
      ensures Valid()
      ensures id !in old(operations) ==> r == Err(NotFound)
      ensures id in old(operations) ==>
        match Lifecycle.RecordStatus(old(At(id)), incoming, stage, percent, message, writer, now)
        case Err(refusal) => r == Err(refusal)
        case Ok(t) => r == Ok(t.outcome) && Rows() == old(Rows())[id := t.after]
      ensures r.Err? ==> Rows() == old(Rows())
    {
      if id !in operations {
        return Err(NotFound);
      }
      var current := operations[id].op;
      var outcome := Apply(current.status, incoming);
      match outcome {
        case Duplicate | Stale =>
          assert Rows() == old(Rows())[id := old(At(id))];
          return Ok(outcome);
        case Conflict =>
          return Err(ConflictingOutcome);
        case Advance(to) =>
          if now < current.statusChangedAt {
            return Err(ClockWentBack);
          }
          Advance(id, Entry(now, to, stage, percent, message, writer));
          r := Ok(outcome);
      }
    }

    /** Write the new status and its progress entry. */
    method Advance(id: Uuid, entry: Entry)
      requires Valid() && id in operations
      modifies this`operations, this`progress
      ensures Valid() && Rows() == old(Rows())[id := Advanced(old(At(id)), entry)]
    {
      var current := operations[id].op;
      var terminatedAt := if IsTerminal(entry.status) then Some(entry.observedAt) else None;
      var updated := current.(status := entry.status, stage := Coalesce(entry.stage, current.stage),
                              percent := Coalesce(entry.percent, current.percent),
                              statusChangedAt := entry.observedAt, terminatedAt := terminatedAt);
      operations := operations[id := operations[id].(op := updated)];
      progress := progress[id := progress[id] + [entry]];
    }

    method RecordResult(id: Uuid, result: string)
      requires Valid() && id in operations
      modifies this`results
      ensures Valid()
      ensures Rows() == old(Rows())[id := old(At(id)).(results := old(At(id)).results + [result])]
    {
      results := results[id := results[id] + [result]];
    }

    /** Attach an error and synchronize the operation's `retryable` with it. */
    method RecordError(id: Uuid, error: ErrorEnvelope, now: Instant)
      requires Valid() && id in operations
      modifies this`operations, this`diagnostics
      ensures Valid()
      ensures Rows() == old(Rows())[id := Lifecycle.RecordError(old(At(id)), error, now)]
    {
      var row := operations[id];
      operations := operations[id := row.(op := row.op.(retryable := error.retryable))];
      diagnostics := diagnostics[id := diagnostics[id] + [ErrorRow(error.code, error.retryable, now)]];
    }

    method RecordWarning(id: Uuid, code: Code, now: Instant)
      requires Valid() && id in operations
      modifies this`diagnostics
      ensures Valid()
      ensures Rows() == old(Rows())[id := old(At(id)).(diagnostics := old(At(id)).diagnostics + [WarningRow(code, now)])]
    {
      diagnostics := diagnostics[id := diagnostics[id] + [WarningRow(code, now)]];
    }

    method RecordResults(id: Uuid, more: seq<string>)
      requires Valid() && id in operations
      modifies this`results
      ensures Valid()
      ensures Rows() == old(Rows())[id := old(At(id)).(results := old(At(id)).results + more)]
    {
      ghost var before := At(id);
      var i := 0;
      assert before.results + more[..0] == before.results;
      while i < |more|
        invariant 0 <= i <= |more| && Valid()
        invariant Rows() == old(Rows())[id := before.(results := before.results + more[..i])]
      {
        assert At(id) == Rows()[id];
        assert before.results + more[..i + 1] == (before.results + more[..i]) + [more[i]];
        RecordResult(id, more[i]);
        i := i + 1;
      }
      assert more[..i] == more;
    }

    method RecordWarnings(id: Uuid, codes: seq<Code>, now: Instant)
      requires Valid() && id in operations
      modifies this`diagnostics
      ensures Valid()
      ensures Rows() == old(Rows())[id :=
        old(At(id)).(diagnostics := old(At(id)).diagnostics + WarningRows(codes, now))]
    {
      ghost var before := At(id);
      ghost var rows := WarningRows(codes, now);
      var i := 0;
      assert before.diagnostics + rows[..0] == before.diagnostics;
      while i < |codes|
        invariant 0 <= i <= |codes| && Valid()
        invariant Rows() == old(Rows())[id := before.(diagnostics := before.diagnostics + rows[..i])]
      {
        assert At(id) == Rows()[id];
        assert before.diagnostics + rows[..i + 1]
            == (before.diagnostics + rows[..i]) + [WarningRow(codes[i], now)];
        RecordWarning(id, codes[i], now);
        i := i + 1;
      }
      assert rows[..i] == rows;
    }

    method RecordResultsAndError(id: Uuid, more: seq<string>, error: Option<ErrorEnvelope>, now: Instant)
      requires Valid() && id in operations
      modifies this
      ensures Valid()
      ensures var with := old(At(id)).(results := old(At(id)).results + more);
              Rows() == old(Rows())[id :=
                if error.Some? then Lifecycle.RecordError(with, error.value, now) else with]
    {
      ghost var before := Rows();
      ghost var with := At(id).(results := At(id).results + more);
      RecordResults(id, more);
      assert Rows() == before[id := with];
      assert id in Rows() && At(id) == Rows()[id];
      if error.Some? {
        RecordError(id, error.value, now);
        Overwrite(before, id, with, Lifecycle.RecordError(with, error.value, now));
      }
    }

    /** Append what a report carries beside its status. */
    method AttachReport(id: Uuid, report: ProgressReport, now: Instant)
      requires Valid() && id in operations
      modifies this
      ensures Valid()
      ensures Rows() == old(Rows())[id := Attach(old(At(id)), report, now)]
    {
      ghost var before := Rows();
      RecordResultsAndError(id, report.results, report.error, now);
      ghost var with := Rows()[id];
      assert Rows() == before[id := with];
      assert id in Rows() && At(id) == with;
      RecordWarnings(id, report.warnings, now);
      Overwrite(before, id, with, with.(diagnostics := with.diagnostics + WarningRows(report.warnings, now)));
    }

    /**
      The projection's handler. A report it cannot read, that is not bound to its operation, that names
      no operation or that conflicts is rejected and stays handled; only a failed statement is retried.
    */
    method Handle(id: Uuid, message: Message, now: Instant) returns (r: Result<Handled, Refusal>)
      requires Valid()
      modifies this
      ensures Valid()
      ensures id !in old(operations) ==> r == Ok(Rejected) && Rows() == old(Rows())
      ensures id in old(operations) ==>
        match Project(old(At(id)), message, now)
        case Err(refusal) => r == Err(refusal) && Rows() == old(Rows())
        case Ok(p) => r == Ok(p.handled) && Rows() == old(Rows())[id := p.after]
    {
      if message.report.None? || id !in operations || !Bound(operations[id].id, message) {
        assert id in operations ==> Rows() == old(Rows())[id := old(At(id))];
        return Ok(Rejected);
      }
      var report := message.report.value;
      var outcome := RecordStatus(id, report.status, report.stage, report.percent, None,
                                  Reporter(message.producer, message.tenant), now);
      match outcome {
        case Err(ConflictingOutcome) =>
          assert Rows() == old(Rows())[id := old(At(id))];
          return Ok(Rejected);
        case Err(refusal) =>
          return Err(refusal);
        case Ok(transition) =>
          assert id in Rows() && At(id) == Rows()[id];
          AttachReport(id, report, now);
          r := match transition
            case Advance(_) => Ok(Applied)
            case Duplicate => Ok(Repeated)
            case Stale => Ok(Outdated)
            case Conflict => Ok(Rejected);
      }
    }

    /** Edge ends an archive or notes operation whose delivery or forward it saw fail. */
    method FailFromEdge(id: Uuid, stage: string, message: Text, error: ErrorEnvelope, now: Instant)
      returns (r: Result<(), Refusal>)
      requires Valid()
      modifies this
      ensures Valid()
      ensures id !in old(operations) ==> r == Err(NotFound)
      ensures id in old(operations) ==>
        match Lifecycle.FailFromEdge(old(At(id)), stage, message, error, now)
        case Err(refusal) => r == Err(refusal)
        case Ok(after) => r == Ok(()) && Rows() == old(Rows())[id := after]
      ensures r.Err? ==> Rows() == old(Rows())
    {
      var outcome := RecordStatus(id, Failed, Some(stage), None, Some(message), Edge, now);
      if outcome.Err? {
        return Err(outcome.error);
      }
      assert id in Rows() && At(id) == Rows()[id];
      if outcome.value.Advance? {
        RecordError(id, error, now);
      }
      r := Ok(());
    }

    /** Terminate one operation, or report that it was still alive when locked. */
    method ReconcileOne(id: Uuid, cutoff: Instant, now: Instant) returns (r: Result<bool, Refusal>)
      requires Valid()
      modifies this
      ensures Valid()
      ensures id !in old(operations) ==> r == Ok(false) && Rows() == old(Rows())
      ensures id in old(operations) ==>
        match Reap(old(At(id)), cutoff, now)
        case Err(refusal) => r == Err(refusal) && Rows() == old(Rows())
        case Ok(reaped) => r == Ok(reaped.ended) && Rows() == old(Rows())[id := reaped.after]
    {
      if id !in operations || !IsStale(At(id), cutoff) {
        assert id in operations ==> Rows() == old(Rows())[id := old(At(id))];
        return Ok(false);
      }
      var outcome := RecordStatus(id, Failed, None, None, Some(StaleText), Reaper, now);
      if outcome.Err? {
        return Err(outcome.error);
      }
      assert id in Rows() && At(id) == Rows()[id];
      RecordError(id, ErrorEnvelope(StaleCode, true), now);
      r := Ok(true);
    }

    /** Record that the owner asked for the work to stop; ownership is checked under the same lock. */
    method RequestCancellation(id: Uuid, owner: Uuid, now: Instant) returns (r: Result<Cancellation, Refusal>)
      requires Valid()
      modifies this`operations
      ensures Valid()
      ensures id !in old(operations) ==> r == Err(NotFound)
      ensures id in old(operations) ==>
        match Lifecycle.RequestCancellation(old(At(id)), owner, now)
        case Err(refusal) => r == Err(refusal)
        case Ok(c) => r == Ok(c.answer) && Rows() == old(Rows())[id := c.after]
      ensures r.Err? ==> Rows() == old(Rows())
    {
      if id !in operations || operations[id].id.owner != owner {
        return Err(NotFound);
      }
      var row := operations[id];
      if IsTerminal(row.op.status) {
        assert Rows() == old(Rows())[id := old(At(id))];
        return Ok(AlreadyTerminal);
      }
      if row.op.cancellationRequestedAt.Some? {
        assert Rows() == old(Rows())[id := old(At(id))];
        return Ok(AlreadyRequested);
      }
      operations := operations[id := row.(op := row.op.(cancellationRequestedAt := Some(now)))];
      r := Ok(Requested);
    }

    /** One transaction of any writer. */
    method Commit(id: Uuid, e: Event)
      requires Valid()
      modifies this
      ensures Valid() && Rows() == CommitOn(old(Rows()), id, e)
    {
      match e {
        case Deliver(message, now) => var _ := Handle(id, message, now);
        case EdgeFailure(stage, text, error, now) => var _ := FailFromEdge(id, stage, text, error, now);
        case ReapEvent(cutoff, now) => var _ := ReconcileOne(id, cutoff, now);
        case Cancel(owner, now) => var _ := RequestCancellation(id, owner, now);
      }
      assert id in old(operations) && Rows() == old(Rows()) ==> Rows() == old(Rows())[id := old(At(id))];
    }

    method CommitOthers(events: seq<(Uuid, Event)>)
      requires Valid()
      modifies this
      ensures Valid() && Rows() == CommitAll(old(Rows()), events)
    {
      var i := 0;
      while i < |events|
        invariant 0 <= i <= |events| && Valid()
        invariant CommitAll(Rows(), events[i..]) == CommitAll(old(Rows()), events)
      {
        assert events[i..][1..] == events[i + 1..];
        Commit(events[i].0, events[i].1);
        i := i + 1;
      }
    }

    method VisitCandidate(candidate: Uuid, others: seq<(Uuid, Event)>, cutoff: Instant, now: Instant)
      returns (r: Result<bool, Refusal>)
      requires Valid()
      modifies this
      ensures Valid() && Visited(Rows(), r) == Visit(old(Rows()), candidate, others, cutoff, now)
    {
      CommitOthers(others);
      assert candidate in operations ==> At(candidate) == Rows()[candidate];
      r := ReconcileOne(candidate, cutoff, now);
    }

    /** The next candidate of a pass, counted. */
    method VisitNext(candidates: seq<Uuid>, others: seq<seq<(Uuid, Event)>>, cutoff: Instant, now: Instant,
                     report: Report, ghost whole: Passed)
      returns (r: Result<Report, Refusal>)
      requires Valid() && |others| == |candidates| && candidates != []
      requires Continues(whole, Pass(Rows(), candidates, others, cutoff, now), report)
      modifies this
      ensures Valid()
      ensures r.Err? ==> whole.db == Rows() && whole.aborted == Some(r.error)
      ensures r.Ok? ==> Continues(whole, Pass(Rows(), candidates[1..], others[1..], cutoff, now), r.value)
    {
      PassUnfold(Rows(), candidates, others, cutoff, now);
      var ended := VisitCandidate(candidates[0], others[0], cutoff, now);
      if ended.Err? {
        return Err(ended.error);
      }
      CountsOne(whole, Pass(Rows(), candidates[1..], others[1..], cutoff, now), ended.value, report);
      r := Ok(if ended.value then report.(reconciled := report.reconciled + 1)
              else report.(skipped := report.skipped + 1));
    }

    /** Every candidate in turn, until one is refused. */
    method VisitAll(candidates: seq<Uuid>, others: seq<seq<(Uuid, Event)>>, cutoff: Instant, now: Instant,
                    ghost whole: Passed)
      returns (r: Result<Report, Refusal>)
      requires Valid() && |others| == |candidates| && whole == Pass(Rows(), candidates, others, cutoff, now)
      modifies this
      ensures Valid() && Rows() == whole.db && r == Reported(whole)
    {
      var report := Report(0, 0);
      var left, ahead := candidates, others;
      while left != []
        invariant Valid() && |left| == |ahead|
        invariant Continues(whole, Pass(Rows(), left, ahead, cutoff, now), report)
        decreases |left|
      {
        var counted := VisitNext(left, ahead, cutoff, now, report, whole);
        if counted.Err? {
          return Err(counted.error);
        }
        report := counted.value;
        left, ahead := left[1..], ahead[1..];
      }
      r := Ok(report);
    }

    /**
      One pass of the reaper over the selected candidates. `others[i]` is what other writers commit
      before candidate `i` is locked. A refused statement abandons the rest of the pass.
    */
    method RunOnce(staleAfter: int, batch: nat, now: Instant, candidates: seq<Uuid>,
                   others: seq<seq<(Uuid, Event)>>)
      returns (r: Result<Report, Refusal>)
      requires Valid() && |others| == |candidates|
      requires IsSelection(Rows(), now - staleAfter, batch, candidates)
      modifies this
      ensures Valid()
      ensures var pass := Pass(old(Rows()), candidates, others, now - staleAfter, now);
        Rows() == pass.db && r == Reported(pass)
      ensures r.Ok? ==> r.value.reconciled + r.value.skipped == |candidates| <= batch
    {
      CompletePass(Rows(), candidates, others, now - staleAfter, now);
      r := VisitAll(candidates, others, now - staleAfter, now, Pass(Rows(), candidates, others, now - staleAfter, now));
    }
  }

  // ---------------------------------------------------------------------------------------------
  // What a pass does
  // ---------------------------------------------------------------------------------------------

  ghost predicate AllWellFormed(db: Db) {
    forall id | id in db :: WellFormed(db[id])
  }

  lemma {:induction false} CommitAllKeeps(db: Db, events: seq<(Uuid, Event)>)
    requires AllWellFormed(db)
    ensures AllWellFormed(CommitAll(db, events)) && CommitAll(db, events).Keys == db.Keys
    decreases |events|
  {
    if events != [] {
      if events[0].0 in db {
        StepKeeps(db[events[0].0], events[0].1);
      }
      CommitAllKeeps(CommitOn(db, events[0].0, events[0].1), events[1..]);
    }
  }

  lemma {:induction false} Counts(flags: seq<bool>)
    ensures Count(flags, true) + Count(flags, false) == |flags|
  {
    if flags != [] {
      Counts(flags[1..]);
    }
  }

  /** A pass that is not abandoned counts every candidate once. */
  lemma {:induction false} CompletePass(db: Db, candidates: seq<Uuid>, others: seq<seq<(Uuid, Event)>>,
                                        cutoff: Instant, now: Instant)
    requires |others| == |candidates|
    ensures var pass := Pass(db, candidates, others, cutoff, now);
      && Count(pass.ended, true) + Count(pass.ended, false) == |pass.ended| <= |candidates|
      && (pass.aborted.None? ==> |pass.ended| == |candidates|)
    decreases |candidates|
  {
    var pass := Pass(db, candidates, others, cutoff, now);
    Counts(pass.ended);
    if candidates != [] {
      var visited := Visit(db, candidates[0], others[0], cutoff, now);
      if visited.ended.Ok? {
        CompletePass(visited.db, candidates[1..], others[1..], cutoff, now);
      }
    }
  }

  /** The database as candidate `i` is locked. */
  function LockedAt(db: Db, candidates: seq<Uuid>, others: seq<seq<(Uuid, Event)>>,
                    cutoff: Instant, now: Instant, i: nat): Db
    requires |others| == |candidates| && i < |candidates|
    decreases i
  {
    if i == 0 then CommitAll(db, others[0])
    else LockedAt(Visit(db, candidates[0], others[0], cutoff, now).db, candidates[1..], others[1..], cutoff, now, i - 1)
  }

  lemma VisitKeeps(db: Db, candidate: Uuid, others: seq<(Uuid, Event)>, cutoff: Instant, now: Instant)
    requires AllWellFormed(db) && cutoff <= now && candidate in db
    ensures var locked := CommitAll(db, others);
            var visited := Visit(db, candidate, others, cutoff, now);
      && candidate in locked && visited.ended == Ok(IsStale(locked[candidate], cutoff))
      && AllWellFormed(visited.db) && visited.db.Keys == db.Keys
  {
    CommitAllKeeps(db, others);
    var r := CommitAll(db, others)[candidate];
    StepKeeps(r, ReapEvent(cutoff, now));
    StaleIsOld(r, cutoff);
    assert Reap(r, cutoff, now).value.after == Step(r, ReapEvent(cutoff, now));
  }

  lemma {:induction false} PassIsNotRefused(db: Db, candidates: seq<Uuid>, others: seq<seq<(Uuid, Event)>>,
                                            cutoff: Instant, now: Instant)
    requires |others| == |candidates| && AllWellFormed(db) && cutoff <= now
    requires forall c | c in candidates :: c in db
    ensures var pass := Pass(db, candidates, others, cutoff, now);
      pass.aborted.None? && AllWellFormed(pass.db) && pass.db.Keys == db.Keys
    decreases |candidates|
  {
    if candidates != [] {
      VisitKeeps(db, candidates[0], others[0], cutoff, now);
      PassIsNotRefused(Visit(db, candidates[0], others[0], cutoff, now).db,
                       candidates[1..], others[1..], cutoff, now);
    }
  }

  /** Candidate `i` was visited, and ended exactly if it was silent as it was locked. */
  ghost predicate EndedIfSilent(ended: seq<bool>, i: nat, locked: Db, candidate: Uuid, cutoff: Instant) {
    i < |ended| && candidate in locked && ended[i] == IsStale(locked[candidate], cutoff)
  }

  lemma FirstEndsIfSilent(db: Db, candidates: seq<Uuid>, others: seq<seq<(Uuid, Event)>>, cutoff: Instant, now: Instant)
    requires |others| == |candidates| && AllWellFormed(db) && cutoff <= now && candidates != []
    requires candidates[0] in db
    ensures EndedIfSilent(Pass(db, candidates, others, cutoff, now).ended, 0,
                          LockedAt(db, candidates, others, cutoff, now, 0), candidates[0], cutoff)
  {
    VisitKeeps(db, candidates[0], others[0], cutoff, now);
    PassUnfold(db, candidates, others, cutoff, now);
  }

  /** What holds of a candidate of the rest of a pass holds of it in the pass. */
  lemma OneLater(db: Db, candidates: seq<Uuid>, others: seq<seq<(Uuid, Event)>>, cutoff: Instant, now: Instant, i: nat)
    requires |others| == |candidates| && 0 < i < |candidates|
    requires Visit(db, candidates[0], others[0], cutoff, now).ended.Ok?
    requires var next, later, ahead := Visit(db, candidates[0], others[0], cutoff, now).db, candidates[1..], others[1..];
      EndedIfSilent(Pass(next, later, ahead, cutoff, now).ended, i - 1,
                    LockedAt(next, later, ahead, cutoff, now, i - 1), later[i - 1], cutoff)
    ensures EndedIfSilent(Pass(db, candidates, others, cutoff, now).ended, i,
                          LockedAt(db, candidates, others, cutoff, now, i), candidates[i], cutoff)
  {
    PassUnfold(db, candidates, others, cutoff, now);
  }

  lemma VisitedFirst(db: Db, candidates: seq<Uuid>, others: seq<seq<(Uuid, Event)>>, cutoff: Instant, now: Instant)
    returns (visited: Visited)
    requires |others| == |candidates| && AllWellFormed(db) && cutoff <= now && candidates != []
    requires forall c | c in candidates :: c in db
    ensures visited == Visit(db, candidates[0], others[0], cutoff, now) && visited.ended.Ok?
    ensures AllWellFormed(visited.db) && forall c | c in candidates[1..] :: c in visited.db
  {
    visited := Visit(db, candidates[0], others[0], cutoff, now);
    VisitKeeps(db, candidates[0], others[0], cutoff, now);
  }

  lemma {:induction false} CandidateEndsIfSilent(db: Db, candidates: seq<Uuid>, others: seq<seq<(Uuid, Event)>>,
                                                 cutoff: Instant, now: Instant, i: nat)
    requires |others| == |candidates| && AllWellFormed(db) && cutoff <= now && i < |candidates|
    requires forall c | c in candidates :: c in db
    ensures EndedIfSilent(Pass(db, candidates, others, cutoff, now).ended, i,
                          LockedAt(db, candidates, others, cutoff, now, i), candidates[i], cutoff)
    decreases i
  {
    var visited := VisitedFirst(db, candidates, others, cutoff, now);
    if i == 0 {
      FirstEndsIfSilent(db, candidates, others, cutoff, now);
    } else {
      CandidateEndsIfSilent(visited.db, candidates[1..], others[1..], cutoff, now, i - 1);
      OneLater(db, candidates, others, cutoff, now, i);
    }
  }

  /**
    A pass whose clock is not behind its own cutoff is never refused. It ends exactly the candidates
    that are stale in the state it locks, whatever other writers committed since the selection, and
    every candidate is counted once, as reconciled or as skipped.
  */
  lemma PassEndsOnlySilent(db: Db, candidates: seq<Uuid>, others: seq<seq<(Uuid, Event)>>,
                           cutoff: Instant, now: Instant)
    requires |others| == |candidates| && AllWellFormed(db) && cutoff <= now
    requires forall c | c in candidates :: c in db
    ensures var pass := Pass(db, candidates, others, cutoff, now);
      && pass.aborted.None? && AllWellFormed(pass.db) && pass.db.Keys == db.Keys
      && |pass.ended| == |candidates|
      && Count(pass.ended, true) + Count(pass.ended, false) == |candidates|
      && forall i | 0 <= i < |candidates| ::
           EndedIfSilent(pass.ended, i, LockedAt(db, candidates, others, cutoff, now, i), candidates[i], cutoff)
  {
    PassIsNotRefused(db, candidates, others, cutoff, now);
    CompletePass(db, candidates, others, cutoff, now);
    forall i | 0 <= i < |candidates|
      ensures EndedIfSilent(Pass(db, candidates, others, cutoff, now).ended, i,
                            LockedAt(db, candidates, others, cutoff, now, i), candidates[i], cutoff)
    {
      CandidateEndsIfSilent(db, candidates, others, cutoff, now, i);
    }
  }

  lemma StaleIsOld(r: Record, cutoff: Instant)
    ensures IsStale(r, cutoff) ==> r.op.statusChangedAt < cutoff && Apply(r.op.status, Failed) == Advance(Failed)
  {
  }

  /**
    A pass takes the operations that have been silent longest: in order, at most `batch`, and one that it leaves
    changed its status no earlier than any it took, which then fill the batch.
  */
  lemma SelectionTakesTheOldest(db: Db, cutoff: Instant, batch: nat, candidates: seq<Uuid>, left: Uuid)
    requires IsSelection(db, cutoff, batch, candidates)
    ensures |candidates| <= batch
    ensures forall i, j | 0 <= i < j < |candidates| ::
      && candidates[i] in db && candidates[j] in db && candidates[i] != candidates[j]
      && db[candidates[i]].op.statusChangedAt <= db[candidates[j]].op.statusChangedAt
    ensures left in db && IsStale(db[left], cutoff) && left !in candidates ==>
      && |candidates| == batch
      && forall c | c in candidates :: c in db && db[c].op.statusChangedAt <= db[left].op.statusChangedAt
  {
    forall i, j | 0 <= i < j < |candidates|
      ensures candidates[i] in db && candidates[j] in db && candidates[i] != candidates[j]
      ensures db[candidates[i]].op.statusChangedAt <= db[candidates[j]].op.statusChangedAt
    {
      assert Before(db, candidates[i], candidates[j]);
    }
  }
}
