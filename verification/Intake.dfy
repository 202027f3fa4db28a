/**
  Idempotent intake: the ledger (crates/idempotency/src/lib.rs) and the one transaction that reserves a
  key, accepts the operation, enqueues its command, completes the reservation and writes the audit
  record (crates/public-api/src/intake.rs).

  Digests are modelled as injective, so a key stands for its digest and a body for its fingerprint.
  Fresh identifiers come from a counter.
*/
module Intake {
  import opened Common

  /** What the ledger keys on: actor, route, operation kind and key. */
  datatype Scope = Scope(owner: Uuid, route: string, kind: string, key: string)

  datatype Preparation = Refuses(kind: Failure) | NoCommand | WithCommand

  datatype Request = Request(scope: Scope, body: string, reporterAllowed: bool,
                             preparation: Preparation, siteEdit: bool)

  /** One row of `operations.idempotency_records`. */
  datatype LedgerRow = LedgerRow(recordId: Uuid, fingerprint: string, operation: Option<Uuid>,
                                 responseStatus: Option<nat>, completedAt: Option<Instant>,
                                 expiresAt: Instant)

  /** One row of `operations.operations`, with the request that minted it. */
  datatype OperationRow = OperationRow(request: Request, acceptedAt: Instant)

  datatype Db = Db(
    ledger: map<Scope, LedgerRow>,
    operations: map<Uuid, OperationRow>,
    outbox: map<Uuid, Uuid>,  // command to operation
    edits: set<Uuid>,         // operations with a site edit
    audit: map<Uuid, Uuid>,   // audit event to operation
    minted: Uuid)

  datatype Reservation = Fresh(recordId: Uuid) | Replay(operation: Option<Uuid>, status: nat)
                       | InFlight | Conflict

  datatype Outcome = Proceed(recordId: Uuid) | ReplayOf(operation: Uuid) | Refuse

  datatype Failure = RequestTimeout | IdempotencyConflict | OtherFailure(code: nat)

  datatype Minted = FreshOperation(id: Uuid) | Replayed(id: Uuid)

  /**
    The statement of the transaction that fails, or at which the process dies; `CommitUnheard` is a commit
    that took effect while its acknowledgement was lost.
  */
  datatype Stage = Begin | Reserving | Accepting | Enqueuing | Editing | Completing | Auditing | Committing
                 | CommitUnheard

  const ACCEPTED_STATUS: nat := 202

  /** What a reservation means for the handler that took it. */
  function OutcomeOf(r: Reservation): Outcome {
    match r
    case Fresh(recordId) => Proceed(recordId)
    case Replay(Some(operation), _) => ReplayOf(operation)
    case Replay(None, _) | InFlight | Conflict => Refuse
  }

  /** The unique index on `(owner_user_id, kind, idempotency_key)` of the operations table. */
  predicate SameKey(a: Scope, b: Scope) {
    a.owner == b.owner && a.kind == b.kind && a.key == b.key
  }

  predicate KeyTaken(operations: map<Uuid, OperationRow>, scope: Scope) {
    exists o | o in operations :: SameKey(operations[o].request.scope, scope)
  }

  /** The scope holds a reservation that has not expired. */
  predicate Live(db: Db, scope: Scope, now: Instant) {
    scope in db.ledger && now < db.ledger[scope].expiresAt
  }

  /** What a live row answers to a request of its scope. */
  function Found(row: LedgerRow, body: string): Reservation {
    if row.fingerprint != body then Conflict
    else if row.completedAt.None? then InFlight
    else Replay(row.operation, if row.responseStatus.Some? then row.responseStatus.value else 500)
  }

  // ---------------------------------------------------------------------------------------------
  // What one transaction amounts to
  // ---------------------------------------------------------------------------------------------

  /** Whether the failing statement is one this request reaches once its key is reserved. */
  predicate Reaches(request: Request, fault: Option<Stage>) {
    match fault
    case None => false
    case Some(Enqueuing) => request.preparation.WithCommand?
    case Some(Editing) => request.siteEdit
    case Some(CommitUnheard) => false
    case Some(_) => true
  }

  /** The five writes, together. */
  function AllWrites(db: Db, request: Request, now: Instant, ttl: int): Db {
    var recordId, operation, command, event := db.minted, db.minted + 1, db.minted + 2, db.minted + 3;
    db.(ledger := db.ledger[request.scope :=
                    LedgerRow(recordId, request.body, Some(operation), Some(ACCEPTED_STATUS), Some(now), now + ttl)],
        operations := db.operations[operation := OperationRow(request, now)],
        outbox := if request.preparation.WithCommand? then db.outbox[command := operation] else db.outbox,
        edits := if request.siteEdit then db.edits + {operation} else db.edits,
        audit := db.audit[event := operation],
        minted := db.minted + 4)
  }

  /** The database once the key is reserved and before anything else is written. */
  function Reserved(db: Db, request: Request, now: Instant, ttl: int): Db {
    db.(ledger := db.ledger[request.scope := LedgerRow(db.minted, request.body, None, None, None, now + ttl)],
        minted := db.minted + 1)
  }

  datatype Admitted = Admitted(answer: Result<Minted, Failure>, db: Db)

  /** What the work after a fresh reservation answers. */
  function Worked(db: Db, request: Request, fault: Option<Stage>): Result<Uuid, Failure> {
    if !request.reporterAllowed || fault == Some(Accepting) || KeyTaken(db.operations, request.scope) then
      Err(RequestTimeout)
    else if request.preparation.Refuses? then Err(request.preparation.kind)
    else if Reaches(request, fault) then Err(RequestTimeout)
    else Ok(db.minted + 1)
  }

  /** The whole transaction, as its committed effect: everything or nothing. */
  function Admission(db: Db, request: Request, now: Instant, ttl: int, fault: Option<Stage>): Admitted {
    if fault == Some(Begin) || fault == Some(Reserving) then Admitted(Err(RequestTimeout), db)
    else if Live(db, request.scope, now) then
      match OutcomeOf(Found(db.ledger[request.scope], request.body))
      case ReplayOf(operation) => Admitted(Ok(Replayed(operation)), db)
      case _ => Admitted(Err(IdempotencyConflict), db)
    else if ttl <= 0 then Admitted(Err(RequestTimeout), db)
    else match Worked(db, request, fault)
      case Err(failure) => Admitted(Err(failure), db)
      case Ok(operation) =>
        Admitted(if fault == Some(CommitUnheard) then Err(RequestTimeout) else Ok(FreshOperation(operation)),
                 AllWrites(db, request, now, ttl))
  }

  function Collect(db: Db, now: Instant): Db {
    db.(ledger := map s | s in db.ledger && now < db.ledger[s].expiresAt :: db.ledger[s])
  }

  // ---------------------------------------------------------------------------------------------
  // The transaction, statement by statement
  // ---------------------------------------------------------------------------------------------

  /** The tables a transaction works on. Dropping it without `Commit` rolls everything back. */
  class Transaction {
    var ledger: map<Scope, LedgerRow>
    var operations: map<Uuid, OperationRow>
    var outbox: map<Uuid, Uuid>
    var edits: set<Uuid>
    var audit: map<Uuid, Uuid>
    var minted: Uuid

    constructor (db: Db)
      ensures View() == db
    {
      ledger, operations, outbox, edits, audit, minted :=
        db.ledger, db.operations, db.outbox, db.edits, db.audit, db.minted;
    }

    function View(): Db
      reads this
    {
      Db(ledger, operations, outbox, edits, audit, minted)
    }

    method Mint() returns (id: Uuid)
      modifies this`minted
      ensures id == old(minted) && minted == id + 1
    {
      id := minted;
      minted := minted + 1;
    }

    /** Delete the scope's expired row, then insert or discover who holds it. */
    method Decide(scope: Scope, body: string, now: Instant, ttl: int) returns (r: Result<Reservation, Failure>)
      modifies this`ledger, this`minted
      ensures old(Live(View(), scope, now)) ==>
        ledger == old(ledger) && r == Ok(Found(old(ledger)[scope], body))
      ensures !old(Live(View(), scope, now)) && ttl <= 0 ==> r == Err(RequestTimeout)
      ensures !old(Live(View(), scope, now)) && ttl > 0 ==>
        && minted == old(minted) + 1 && r == Ok(Fresh(old(minted)))
        && ledger == old(ledger)[scope := LedgerRow(old(minted), body, None, None, None, now + ttl)]
    {
      if scope in ledger && ledger[scope].expiresAt <= now {
        ledger := ledger - {scope};
      }
      var recordId := Mint();
      if scope !in ledger {
        if now + ttl <= now {
          return Err(RequestTimeout);
        }
        ledger := ledger[scope := LedgerRow(recordId, body, None, None, None, now + ttl)];
        return Ok(Fresh(recordId));
      }
      var row := ledger[scope];
      if row.fingerprint != body {
        return Ok(Conflict);
      }
      if row.completedAt.None? {
        return Ok(InFlight);
      }
      r := Ok(Replay(row.operation, if row.responseStatus.Some? then row.responseStatus.value else 500));
    }

    /** Insert the operation; the reporter and the unique key of the table can refuse it. */
    method Accept(request: Request, now: Instant) returns (r: Result<Uuid, Failure>)
      modifies this`operations, this`minted
      ensures r.Err? <==> !request.reporterAllowed || KeyTaken(old(operations), request.scope)
      ensures r.Ok? ==>
        && r.value == old(minted) && minted == old(minted) + 1
        && operations == old(operations)[r.value := OperationRow(request, now)]
    {
      if !request.reporterAllowed || KeyTaken(operations, request.scope) {
        return Err(RequestTimeout);
      }
      var id := Mint();
      operations := operations[id := OperationRow(request, now)];
      r := Ok(id);
    }

    /** `on conflict (message_id) do nothing`. */
    method Enqueue(command: Uuid, operation: Uuid) returns (inserted: bool)
      modifies this`outbox
      ensures inserted <==> command !in old(outbox)
      ensures outbox == if inserted then old(outbox)[command := operation] else old(outbox)
    {
      inserted := command !in outbox;
      if inserted {
        outbox := outbox[command := operation];
      }
    }

    /** `update ... where record_id = $1`. */
    method Complete(recordId: Uuid, operation: Option<Uuid>, status: nat, now: Instant)
      modifies this`ledger
      ensures ledger.Keys == old(ledger.Keys)
      ensures forall s | s in ledger ::
        ledger[s] == (
          if old(ledger)[s].recordId == recordId
          then old(ledger)[s].(operation := operation, responseStatus := Some(status), completedAt := Some(now))
          else old(ledger)[s])
    {
      ledger := map s | s in ledger :: if ledger[s].recordId == recordId
        then ledger[s].(operation := operation, responseStatus := Some(status), completedAt := Some(now))
        else ledger[s];
    }

    /** The command and the site edit of a new operation. */
    method Attach(request: Request, operation: Uuid, command: Uuid, fault: Option<Stage>)
      returns (ok: bool)
      requires command !in outbox
      modifies this`outbox, this`edits
      ensures ok == !(Reaches(request, fault) && (fault == Some(Enqueuing) || fault == Some(Editing)))
      ensures ok ==>
        && outbox == (if request.preparation.WithCommand? then old(outbox)[command := operation] else old(outbox))
        && edits == (if request.siteEdit then old(edits) + {operation} else old(edits))
    {
      if request.preparation.WithCommand? {
        if fault == Some(Enqueuing) {
          return false;
        }
        var inserted := Enqueue(command, operation);
        assert inserted;
      }
      if request.siteEdit {
        if fault == Some(Editing) {
          return false;
        }
        edits := edits + {operation};
      }
      ok := true;
    }

    /** Accept the operation, enqueue its command and write its site edit. */
    method AcceptAndEnqueue(request: Request, now: Instant, fault: Option<Stage>)
      returns (r: Result<Uuid, Failure>)
      requires forall c | c in outbox :: c < minted
      modifies this`operations, this`outbox, this`edits, this`minted
      ensures r ==
        (if !request.reporterAllowed || fault == Some(Accepting) || KeyTaken(old(operations), request.scope) then
           Err(RequestTimeout)
         else if request.preparation.Refuses? then Err(request.preparation.kind)
         else if (fault == Some(Enqueuing) || fault == Some(Editing)) && Reaches(request, fault) then
           Err(RequestTimeout)
         else Ok(old(minted)))
      ensures r.Ok? ==>
        var operation, command := old(minted), old(minted) + 1;
        && minted == old(minted) + 2
        && operations == old(operations)[operation := OperationRow(request, now)]
        && outbox == (if request.preparation.WithCommand? then old(outbox)[command := operation] else old(outbox))
        && edits == (if request.siteEdit then old(edits) + {operation} else old(edits))
    {
      if fault == Some(Accepting) {
        return Err(RequestTimeout);
      }
      var accepted := Accept(request, now);
      if accepted.Err? {
        return Err(RequestTimeout);
      }
      var operation := accepted.value;
      var command := Mint();
      if request.preparation.Refuses? {
        return Err(request.preparation.kind);
      }
      var attached := Attach(request, operation, command, fault);
      r := if attached then Ok(operation) else Err(RequestTimeout);
    }

    /** Everything after the reservation, up to the commit. The caller drops the transaction on a failure. */
    method Work(request: Request, recordId: Uuid, now: Instant, ttl: int, fault: Option<Stage>, ghost db: Db)
      returns (r: Result<Uuid, Failure>)
      requires MintedBelow(db) && recordId == db.minted && View() == Reserved(db, request, now, ttl)
      requires fault != Some(Begin) && fault != Some(Reserving)
      modifies this
      ensures r == Worked(db, request, fault)
      ensures r.Ok? ==> View() == AllWrites(db, request, now, ttl)
    {
      r := AcceptAndEnqueue(request, now, fault);
      if r.Err? {
        return;
      }
      if fault == Some(Completing) {
        return Err(RequestTimeout);
      }
      Complete(recordId, Some(r.value), ACCEPTED_STATUS, now);
      CompletedLedger(db, request, now, ttl, ledger);
      var event := Mint();
      if fault == Some(Auditing) {
        return Err(RequestTimeout);
      }
      audit := audit[event := r.value];
      if fault == Some(Committing) {
        return Err(RequestTimeout);
      }
    }
  }

  lemma CompletedLedger(db: Db, request: Request, now: Instant, ttl: int, ledger: map<Scope, LedgerRow>)
    requires MintedBelow(db)
    requires var before := Reserved(db, request, now, ttl).ledger;
      && ledger.Keys == before.Keys
      && forall s | s in ledger ::
        ledger[s] == (
          if before[s].recordId == db.minted
          then before[s].(operation := Some(db.minted + 1), responseStatus := Some(ACCEPTED_STATUS),
                          completedAt := Some(now))
          else before[s])
    ensures ledger == AllWrites(db, request, now, ttl).ledger
  {
  }

  class Database {
    var stored: Db

    constructor ()
      ensures stored == Empty()
    {
      stored := Empty();
    }

    /** The one transaction behind every command-emitting route. */
    method Admit(request: Request, now: Instant, ttl: int, fault: Option<Stage>)
      returns (answer: Result<Minted, Failure>)
      requires Consistent(stored)
      modifies this
      ensures Admitted(answer, stored) == Admission(old(stored), request, now, ttl, fault)
    {
      if fault == Some(Begin) {
        return Err(RequestTimeout);
      }
      var tx := new Transaction(stored);
      if fault == Some(Reserving) {
        return Err(RequestTimeout);
      }
      var reservation := tx.Decide(request.scope, request.body, now, ttl);
      if reservation.Err? {
        return Err(RequestTimeout);
      }
      match OutcomeOf(reservation.value) {
        case Proceed(recordId) =>
          assert tx.View() == Reserved(stored, request, now, ttl);
          var worked := tx.Work(request, recordId, now, ttl, fault, stored);
          if worked.Err? {
            return Err(worked.error);
          }
          stored := tx.View();
          if fault == Some(CommitUnheard) {
            return Err(RequestTimeout);
          }
          answer := Ok(FreshOperation(worked.value));
        case ReplayOf(operation) =>
          answer := Ok(Replayed(operation));
        case Refuse =>
          answer := Err(IdempotencyConflict);
      }
    }

    /** Delete reservations whose window has closed. */
    method CollectExpired(now: Instant) returns (collected: nat)
      modifies this
      ensures stored == Collect(old(stored), now)
      ensures collected == |old(stored).ledger| - |stored.ledger|
    {
      var kept := map s | s in stored.ledger && now < stored.ledger[s].expiresAt :: stored.ledger[s];
      var gone := set s | s in stored.ledger && stored.ledger[s].expiresAt <= now;
      assert stored.ledger.Keys == kept.Keys + gone && kept.Keys !! gone;
      assert |stored.ledger.Keys| == |kept.Keys| + |gone|;
      assert |stored.ledger| == |stored.ledger.Keys| && |kept| == |kept.Keys|;
      collected := |gone|;
      stored := stored.(ledger := kept);
    }
  }

  // ---------------------------------------------------------------------------------------------
  // Runs
  // ---------------------------------------------------------------------------------------------

  datatype Event = AdmitEvent(request: Request, now: Instant, fault: Option<Stage>) | CollectEvent(now: Instant)

  function Empty(): Db {
    Db(map[], map[], map[], {}, map[], 0)
  }

  function Step(db: Db, ttl: int, e: Event): Db {
    match e
    case AdmitEvent(request, now, fault) => Admission(db, request, now, ttl, fault).db
    case CollectEvent(now) => Collect(db, now)
  }

  function Run(db: Db, ttl: int, events: seq<Event>): Db
    decreases |events|
  {
    if events == [] then db else Run(Step(db, ttl, events[0]), ttl, events[1..])
  }

  ghost predicate MintedBelow(db: Db) {
    && (forall s | s in db.ledger :: db.ledger[s].recordId < db.minted)
    && (forall o | o in db.operations :: o < db.minted)
    && (forall c | c in db.outbox :: c < db.minted)
    && (forall e | e in db.audit :: e < db.minted)
  }

  /** Every ledger row is completed and names the operation its scope and its body minted. */
  ghost predicate LedgerTrue(db: Db) {
    forall s | s in db.ledger ::
      var row := db.ledger[s];
      && row.completedAt.Some? && row.responseStatus == Some(ACCEPTED_STATUS) && row.operation.Some?
      && row.operation.value in db.operations
      && db.operations[row.operation.value].request.scope == s
      && db.operations[row.operation.value].request.body == row.fingerprint
  }

  ghost predicate OneOperationPerKey(db: Db) {
    forall a, b | a in db.operations && b in db.operations
      && SameKey(db.operations[a].request.scope, db.operations[b].request.scope) :: a == b
  }

  ghost function CommandsOf(db: Db, operation: Uuid): set<Uuid> {
    set c | c in db.outbox && db.outbox[c] == operation
  }

  ghost function AuditOf(db: Db, operation: Uuid): set<Uuid> {
    set e | e in db.audit && db.audit[e] == operation
  }

  /** An operation has its one command, if its route enqueues one, its audit record and its site edit. */
  ghost predicate WholeAt(db: Db, o: Uuid)
    requires o in db.operations
  {
    && |CommandsOf(db, o)| == (if db.operations[o].request.preparation.WithCommand? then 1 else 0)
    && |AuditOf(db, o)| == 1
    && (o in db.edits <==> db.operations[o].request.siteEdit)
  }

  /** Everything that commits with an operation, and nothing that could commit without one. */
  ghost predicate Whole(db: Db) {
    && (forall o | o in db.operations :: WholeAt(db, o))
    && (forall c | c in db.outbox :: db.outbox[c] in db.operations)
    && (forall e | e in db.audit :: db.audit[e] in db.operations)
    && (forall o | o in db.edits :: o in db.operations)
  }

  ghost predicate Consistent(db: Db) {
    MintedBelow(db) && LedgerTrue(db) && OneOperationPerKey(db) && Whole(db)
  }

  lemma NewIsWhole(db: Db, request: Request, now: Instant, ttl: int)
    requires MintedBelow(db) && Whole(db)
    ensures WholeAt(AllWrites(db, request, now, ttl), db.minted + 1)
  {
    var after := AllWrites(db, request, now, ttl);
    var o := db.minted + 1;
    assert o !in db.operations;
    assert CommandsOf(after, o) == if request.preparation.WithCommand? then {db.minted + 2} else {};
    assert AuditOf(after, o) == {db.minted + 3};
  }

  lemma OldStaysWhole(db: Db, request: Request, now: Instant, ttl: int, o: Uuid)
    requires MintedBelow(db) && o in db.operations && WholeAt(db, o)
    ensures WholeAt(AllWrites(db, request, now, ttl), o)
  {
    var after := AllWrites(db, request, now, ttl);
    assert CommandsOf(after, o) == CommandsOf(db, o);
    assert AuditOf(after, o) == AuditOf(db, o);
  }

  lemma WritesKeepWhole(db: Db, request: Request, now: Instant, ttl: int)
    requires MintedBelow(db) && Whole(db)
    ensures Whole(AllWrites(db, request, now, ttl))
  {
    var after := AllWrites(db, request, now, ttl);
    forall o | o in after.operations ensures WholeAt(after, o) {
      if o == db.minted + 1 {
        NewIsWhole(db, request, now, ttl);
      } else {
        OldStaysWhole(db, request, now, ttl, o);
      }
    }
  }

  lemma WritesKeepKeys(db: Db, request: Request, now: Instant, ttl: int)
    requires OneOperationPerKey(db) && !KeyTaken(db.operations, request.scope)
    ensures OneOperationPerKey(AllWrites(db, request, now, ttl))
  {
    forall o | o in db.operations
      ensures !SameKey(db.operations[o].request.scope, request.scope)
      ensures !SameKey(request.scope, db.operations[o].request.scope)
    {
    }
  }

  lemma WritesKeepLedger(db: Db, request: Request, now: Instant, ttl: int)
    requires MintedBelow(db) && LedgerTrue(db)
    ensures MintedBelow(AllWrites(db, request, now, ttl)) && LedgerTrue(AllWrites(db, request, now, ttl))
  {
  }

  lemma CollectKeeps(db: Db, now: Instant)
    requires Consistent(db)
    ensures Consistent(Collect(db, now))
  {
    var after := Collect(db, now);
    forall o | o in after.operations ensures WholeAt(after, o) {
      assert CommandsOf(after, o) == CommandsOf(db, o) && AuditOf(after, o) == AuditOf(db, o);
      assert WholeAt(db, o);
    }
  }

  lemma StepKeeps(db: Db, ttl: int, e: Event)
    requires Consistent(db)
    ensures Consistent(Step(db, ttl, e))
  {
    match e {
      case AdmitEvent(request, now, fault) =>
        if Step(db, ttl, e) != db {
          WritesKeepWhole(db, request, now, ttl);
          WritesKeepKeys(db, request, now, ttl);
          WritesKeepLedger(db, request, now, ttl);
        }
      case CollectEvent(now) => CollectKeeps(db, now);
    }
  }

  lemma {:induction false} RunKeeps(db: Db, ttl: int, events: seq<Event>)
    requires Consistent(db)
    ensures Consistent(Run(db, ttl, events))
    decreases |events|
  {
    if events != [] {
      StepKeeps(db, ttl, events[0]);
      RunKeeps(Step(db, ttl, events[0]), ttl, events[1..]);
    }
  }

  /**
    For every interleaving of intake transactions that commit, fail at any statement or crash, and of
    expiry collection, on any clocks: every stored operation has exactly the writes that commit with
    it; at most one operation ever exists for an owner, a kind and a key; and no ledger row is left
    uncompleted, so `InFlight` is never answered.
  */
  lemma IntakeIsAtomic(ttl: int, events: seq<Event>, scope: Scope, body: string)
    ensures var db := Run(Empty(), ttl, events);
      && LedgerTrue(db) && Whole(db) && OneOperationPerKey(db)
      && (scope in db.ledger ==> Found(db.ledger[scope], body) != InFlight)
  {
    RunKeeps(Empty(), ttl, events);
  }

  lemma WritesAreAll(db: Db, request: Request, now: Instant, ttl: int)
    requires MintedBelow(db)
    ensures var after, o := AllWrites(db, request, now, ttl), db.minted + 1;
      && o !in db.operations && after.operations.Keys == db.operations.Keys + {o}
      && after.operations[o] == OperationRow(request, now)
      && after.ledger.Keys == db.ledger.Keys + {request.scope}
      && after.ledger[request.scope].operation == Some(o)
      && after.ledger[request.scope].completedAt == Some(now)
      && after.ledger[request.scope].responseStatus == Some(202)
      && after.ledger[request.scope].fingerprint == request.body
      && after.ledger[request.scope].expiresAt == now + ttl
      && (forall s | s in db.ledger && s != request.scope :: after.ledger[s] == db.ledger[s])
  {
  }

  lemma AnswersTellAll(db: Db, request: Request, now: Instant, ttl: int, fault: Option<Stage>)
    ensures var admitted := Admission(db, request, now, ttl, fault);
      && (admitted.db == db || admitted.db == AllWrites(db, request, now, ttl))
      && (admitted.db != db ==>
            admitted.answer == if fault == Some(CommitUnheard) then Err(RequestTimeout) else Ok(FreshOperation(db.minted + 1)))
      && (admitted.answer.Ok? && admitted.answer.value.FreshOperation? ==> admitted.db != db)
  {
  }

  /**
    A transaction writes all of it or nothing: no operation without its row, no row without it. What is
    answered says which, except that a commit whose acknowledgement was lost is answered as a failure.
  */
  lemma AllOrNothing(db: Db, request: Request, now: Instant, ttl: int, fault: Option<Stage>)
    requires MintedBelow(db) && Whole(db)
    ensures var admitted := Admission(db, request, now, ttl, fault);
      var after, o := admitted.db, db.minted + 1;
      || after == db
      || (&& o !in db.operations && after.operations.Keys == db.operations.Keys + {o}
          && after.operations[o] == OperationRow(request, now)
          && after.ledger.Keys == db.ledger.Keys + {request.scope}
          && after.ledger[request.scope].operation == Some(o)
          && after.ledger[request.scope].completedAt == Some(now)
          && after.ledger[request.scope].responseStatus == Some(202)
          && after.ledger[request.scope].fingerprint == request.body
          && after.ledger[request.scope].expiresAt == now + ttl
          && (forall s | s in db.ledger && s != request.scope :: after.ledger[s] == db.ledger[s])
          && WholeAt(after, o))
    ensures var admitted := Admission(db, request, now, ttl, fault);
      && (fault != Some(CommitUnheard) ==>
            (admitted.db != db <==> admitted.answer == Ok(FreshOperation(db.minted + 1))))
      && (fault == Some(CommitUnheard) && admitted.db != db ==> admitted.answer == Err(RequestTimeout))
      && (admitted.db == db ==> admitted.answer.Err? || admitted.answer.value.Replayed?)
  {
    AnswersTellAll(db, request, now, ttl, fault);
    WritesAreAll(db, request, now, ttl);
    NewIsWhole(db, request, now, ttl);
  }

  ghost function InstantOf(e: Event): Instant {
    match e
    case AdmitEvent(_, now, _) => now
    case CollectEvent(now) => now
  }

  lemma {:induction false} RowStays(db: Db, ttl: int, events: seq<Event>, scope: Scope)
    requires scope in db.ledger
    requires forall e | e in events :: InstantOf(e) < db.ledger[scope].expiresAt
    ensures scope in Run(db, ttl, events).ledger
    ensures Run(db, ttl, events).ledger[scope] == db.ledger[scope]
    decreases |events|
  {
    if events != [] {
      assert events[0] in events;
      RowStays(Step(db, ttl, events[0]), ttl, events[1..], scope);
    }
  }

  lemma AnsweredByRow(db: Db, ttl: int, retry: Request, later: Instant, o: Uuid)
    requires Live(db, retry.scope, later) && db.ledger[retry.scope].completedAt.Some?
    requires db.ledger[retry.scope].operation == Some(o)
    ensures Admission(db, retry, later, ttl, None) == Admitted(
      if retry.body == db.ledger[retry.scope].fingerprint then Ok(Replayed(o)) else Err(IdempotencyConflict), db)
  {
  }

  /**
    Within the window of an admission that wrote, whether or not its caller was told, and whatever else is
    admitted or collected: a retry with the same body replays the operation it minted, one with another
    body conflicts, and neither writes.
  */
  lemma RetriesReplay(db: Db, request: Request, now: Instant, ttl: int, fault: Option<Stage>,
                      between: seq<Event>, retry: Request, later: Instant)
    requires Consistent(db) && Admission(db, request, now, ttl, fault).db != db
    requires forall e | e in between :: InstantOf(e) < now + ttl
    requires later < now + ttl && retry.scope == request.scope
    ensures var first := Admission(db, request, now, ttl, fault);
      var reached := Run(first.db, ttl, between);
      && db.minted + 1 in first.db.operations && first.db.operations[db.minted + 1] == OperationRow(request, now)
      && first.answer == (if fault == Some(CommitUnheard) then Err(RequestTimeout) else Ok(FreshOperation(db.minted + 1)))
      && Admission(reached, retry, later, ttl, None)
         == Admitted(if retry.body == request.body then Ok(Replayed(db.minted + 1)) else Err(IdempotencyConflict), reached)
  {
    AnswersTellAll(db, request, now, ttl, fault);
    WritesAreAll(db, request, now, ttl);
    var first := Admission(db, request, now, ttl, fault).db;
    RowStays(first, ttl, between, request.scope);
    AnsweredByRow(Run(first, ttl, between), ttl, retry, later, db.minted + 1);
  }

  lemma OperationStays(db: Db, ttl: int, e: Event, o: Uuid)
    requires MintedBelow(db) && o in db.operations
    ensures o in Step(db, ttl, e).operations && Step(db, ttl, e).operations[o] == db.operations[o]
  {
  }

  lemma {:induction false} OperationsStay(db: Db, ttl: int, events: seq<Event>, o: Uuid)
    requires Consistent(db) && o in db.operations
    ensures o in Run(db, ttl, events).operations
    ensures Run(db, ttl, events).operations[o] == db.operations[o]
    decreases |events|
  {
    if events != [] {
      StepKeeps(db, ttl, events[0]);
      OperationStays(db, ttl, events[0], o);
      OperationsStay(Step(db, ttl, events[0]), ttl, events[1..], o);
    }
  }

  lemma TakenKeyIsAnswered(db: Db, ttl: int, o: Uuid, retry: Request, later: Instant, fault: Option<Stage>)
    requires LedgerTrue(db) && OneOperationPerKey(db) && o in db.operations
    requires SameKey(db.operations[o].request.scope, retry.scope)
    ensures var admitted := Admission(db, retry, later, ttl, fault);
      && admitted.db == db
      && (admitted.answer.Ok? <==>
            && fault != Some(Begin) && fault != Some(Reserving)
            && Live(db, retry.scope, later) && db.ledger[retry.scope].fingerprint == retry.body)
      && (admitted.answer.Ok? ==> admitted.answer == Ok(Replayed(o)))
      && (!Live(db, retry.scope, later) ==> admitted.answer == Err(RequestTimeout))
  {
    if Live(db, retry.scope, later) {
      var held := db.ledger[retry.scope].operation.value;
      assert SameKey(db.operations[held].request.scope, db.operations[o].request.scope);
    } else {
      assert KeyTaken(db.operations, retry.scope);
    }
  }

  /**
    A key is never free again. Once an operation exists for an owner, a kind and a key, then after any
    run, a request with that key is answered by its live reservation if its scope has one, and is
    refused without a write otherwise: after the window has passed, or on another route, no second
    operation is minted.
  */
  lemma KeyIsNeverFreeAgain(db: Db, ttl: int, events: seq<Event>, o: Uuid, retry: Request, later: Instant,
                            fault: Option<Stage>)
    requires Consistent(db) && o in db.operations
    requires SameKey(db.operations[o].request.scope, retry.scope)
    ensures var reached := Run(db, ttl, events);
      var admitted := Admission(reached, retry, later, ttl, fault);
      && admitted.db == reached
      && (admitted.answer.Ok? <==>
            && fault != Some(Begin) && fault != Some(Reserving)
            && Live(reached, retry.scope, later) && reached.ledger[retry.scope].fingerprint == retry.body)
      && (admitted.answer.Ok? ==> admitted.answer == Ok(Replayed(o)))
      && (!Live(reached, retry.scope, later) ==> admitted.answer == Err(RequestTimeout))
  {
    RunKeeps(db, ttl, events);
    OperationsStay(db, ttl, events, o);
    TakenKeyIsAnswered(Run(db, ttl, events), ttl, o, retry, later, fault);
  }

  // ---------------------------------------------------------------------------------------------
  // Which requests mint an operation
  // ---------------------------------------------------------------------------------------------

  /** No statement that this request reaches fails, and the commit is heard. */
  predicate NothingFails(request: Request, fault: Option<Stage>) {
    || fault.None?
    || (fault == Some(Enqueuing) && !request.preparation.WithCommand?)
    || (fault == Some(Editing) && !request.siteEdit)
  }

  /** The scope holds no reservation that is still good, and its owner has used the key for no operation of the kind. */
  predicate FirstOfItsKey(db: Db, scope: Scope, now: Instant) {
    && (scope in db.ledger ==> db.ledger[scope].expiresAt <= now)
    && forall o | o in db.operations ::
         var used := db.operations[o].request.scope;
         !(used.owner == scope.owner && used.kind == scope.kind && used.key == scope.key)
  }

  lemma KeyIsFree(db: Db, scope: Scope, now: Instant)
    ensures FirstOfItsKey(db, scope, now) <==> !Live(db, scope, now) && !KeyTaken(db.operations, scope)
  {
    if !KeyTaken(db.operations, scope) {
      forall o | o in db.operations ensures !SameKey(db.operations[o].request.scope, scope) {
      }
    }
  }

  /**
    In every reachable database: a request mints a new operation exactly when its key is new for its owner
    and kind, its reporter is allowed, what it prepares is not refused, the window is positive and nothing
    fails; then the operation is stored as requested. Whether it enqueues a command or edits a site makes no
    difference.
  */
  lemma NewOperationsExactly(ttl: int, events: seq<Event>, request: Request, now: Instant, fault: Option<Stage>)
    ensures var db := Run(Empty(), ttl, events);
      var admitted := Admission(db, request, now, ttl, fault);
      && ((exists o :: admitted.answer == Ok(FreshOperation(o))) <==>
            && FirstOfItsKey(db, request.scope, now) && ttl > 0 && request.reporterAllowed
            && !request.preparation.Refuses? && NothingFails(request, fault))
      && forall o | admitted.answer == Ok(FreshOperation(o)) ::
           o !in db.operations && o in admitted.db.operations
           && admitted.db.operations[o] == OperationRow(request, now)
  {
    RunKeeps(Empty(), ttl, events);
    var db := Run(Empty(), ttl, events);
    KeyIsFree(db, request.scope, now);
    MintedExactly(db, request, now, ttl, fault);
    WritesAreAll(db, request, now, ttl);
    AnswersTellAll(db, request, now, ttl, fault);
  }

  lemma MintedExactly(db: Db, request: Request, now: Instant, ttl: int, fault: Option<Stage>)
    ensures (exists o :: Admission(db, request, now, ttl, fault).answer == Ok(FreshOperation(o))) <==>
      && !Live(db, request.scope, now) && !KeyTaken(db.operations, request.scope) && ttl > 0
      && request.reporterAllowed && !request.preparation.Refuses? && NothingFails(request, fault)
  {
    if !Live(db, request.scope, now) && !KeyTaken(db.operations, request.scope) && ttl > 0
       && request.reporterAllowed && !request.preparation.Refuses? && NothingFails(request, fault)
    {
      assert Admission(db, request, now, ttl, fault).answer == Ok(FreshOperation(db.minted + 1));
    }
  }

  /**
    What a request with a new key is told otherwise: the refusal of its own preparation if that is all that
    stands against it, a timeout in every other case; and nothing is written unless the commit went unheard.
  */
  lemma RefusalsOfNewKeys(ttl: int, events: seq<Event>, request: Request, now: Instant, fault: Option<Stage>)
    requires FirstOfItsKey(Run(Empty(), ttl, events), request.scope, now)
    ensures var db := Run(Empty(), ttl, events);
      var admitted := Admission(db, request, now, ttl, fault);
      && (request.preparation.Refuses? ==>
            && admitted.db == db
            && admitted.answer == Err(
                 if ttl > 0 && request.reporterAllowed && fault != Some(Begin) && fault != Some(Reserving)
                    && fault != Some(Accepting)
                 then request.preparation.kind else RequestTimeout))
      && (!request.preparation.Refuses? && admitted.answer.Err? ==> admitted.answer == Err(RequestTimeout))
      && (admitted.answer.Err? && fault != Some(CommitUnheard) ==> admitted.db == db)
  {
    KeyIsFree(Run(Empty(), ttl, events), request.scope, now);
  }

  /** Collection takes the reservations whose window has closed, and nothing else. */
  lemma CollectedExactly(db: Db, now: Instant, scope: Scope)
    requires scope in db.ledger
    ensures var after := Collect(db, now);
      && (scope in after.ledger <==> now < db.ledger[scope].expiresAt)
      && (scope in after.ledger ==> after.ledger[scope] == db.ledger[scope])
      && after.ledger.Keys <= db.ledger.Keys
      && after.(ledger := db.ledger) == db
  {
  }
}
