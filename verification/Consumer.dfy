/**
  Receiving messages (crates/eventing/src/consumer.rs) over the inbox (crates/eventing/src/inbox.rs): one
  transaction that records the message, runs the handler and finishes the record, and the loop that
  acknowledges what is settled.
*/
module Consumer {
  import opened Common

  datatype Reception = First | Duplicate

  datatype Outcome = Applied | Repeated | Stale | Rejected

  datatype Incoming = Incoming(messageId: Uuid, subject: string, producer: string)

  /** One row of `operations.inbox`. */
  datatype Row = Row(subject: string, producer: string, receivedAt: Instant,
                     processedAt: Option<Instant>, outcome: Option<Outcome>)

  /** What the handler does in the transaction: a transient failure, or a decision. */
  datatype Handling = Fails | Decides(outcome: Outcome)

  /** The statement that fails or at which the process dies. `CommitUnheard` commits and looks like a failure. */
  datatype Fault = Opening | Beginning | Finishing | Committing | CommitUnheard

  datatype Failure = Persistence | HandlerFailed

  /** The inbox, and the messages whose handler's writes committed, in order. */
  datatype Db = Db(inbox: map<Uuid, Row>, work: seq<Uuid>)

  datatype Delivered = Delivered(answer: Result<Option<Outcome>, Failure>, db: Db)

  /** The CHECK on the producer, which the insert evaluates before it looks for a conflict. */
  predicate Fits(message: Incoming) {
    1 <= |message.producer| <= 64
  }

  function Processed(message: Incoming, outcome: Outcome, now: Instant): Row {
    Row(message.subject, message.producer, now, Some(now), Some(outcome))
  }

  /** What one delivery amounts to: the record and the handler's writes together, or nothing. */
  function Delivery(db: Db, message: Incoming, handling: Handling, fault: Option<Fault>, now: Instant): Delivered {
    if fault == Some(Opening) || fault == Some(Beginning) || !Fits(message) then Delivered(Err(Persistence), db)
    else if message.messageId in db.inbox then Delivered(Ok(None), db)
    else if handling.Fails? then Delivered(Err(HandlerFailed), db)
    else
      var committed := Db(db.inbox[message.messageId := Processed(message, handling.outcome, now)],
                          db.work + [message.messageId]);
      match fault
      case None => Delivered(Ok(Some(handling.outcome)), committed)
      case Some(CommitUnheard) => Delivered(Err(Persistence), committed)
      case Some(_) => Delivered(Err(Persistence), db)
  }

  /** The tables as one transaction sees them. Dropping it without a commit rolls everything back. */
  class Transaction {
    var inbox: map<Uuid, Row>
    var work: seq<Uuid>

    constructor (db: Db)
      ensures inbox == db.inbox && work == db.work
    {
      inbox, work := db.inbox, db.work;
    }

    /** `on conflict (message_id) do nothing`: the insert is the deduplication. */
    method Begin(message: Incoming, now: Instant) returns (reception: Result<Reception, Failure>)
      modifies this`inbox
      ensures reception == Err(Persistence) <==> !Fits(message)
      ensures reception.Err? ==> reception == Err(Persistence)
      ensures reception.Ok? ==> (reception.value.First? <==> message.messageId !in old(inbox))
      ensures inbox ==
        if reception == Ok(First)
        then old(inbox)[message.messageId := Row(message.subject, message.producer, now, None, None)]
        else old(inbox)
    {
      if !Fits(message) {
        return Err(Persistence);
      }
      if message.messageId in inbox {
        return Ok(Duplicate);
      }
      inbox := inbox[message.messageId := Row(message.subject, message.producer, now, None, None)];
      reception := Ok(First);
    }

    method Handle(message: Incoming, handling: Handling) returns (decision: Result<Outcome, Failure>)
      modifies this`work
      ensures decision == if handling.Fails? then Err(HandlerFailed) else Ok(handling.outcome)
      ensures handling.Decides? ==> work == old(work) + [message.messageId]
    {
      work := work + [message.messageId];
      if handling.Fails? {
        return Err(HandlerFailed);
      }
      decision := Ok(handling.outcome);
    }

    method Finish(m: Uuid, outcome: Outcome, now: Instant)
      modifies this`inbox
      ensures inbox ==
        if m in old(inbox) then old(inbox)[m := old(inbox)[m].(processedAt := Some(now), outcome := Some(outcome))]
        else old(inbox)
    {
      if m in inbox {
        inbox := inbox[m := inbox[m].(processedAt := Some(now), outcome := Some(outcome))];
      }
    }
  }

  /** What arrives: a transport error, a message that cannot be read, or one to deliver. */
  datatype Arrival =
    | Broken
    | Unreadable
    | Readable(message: Incoming, handling: Handling, fault: Option<Fault>, now: Instant)

  /** What the broker is told about an arrival. */
  datatype Answer = Silence | Ack | Nak

  datatype Report = Report(applied: nat, duplicates: nat, failed: nat, malformed: nat)

  datatype Consumed = Consumed(db: Db, report: Report, answers: seq<Answer>)

  /** One turn of the loop. */
  function Consume(c: Consumed, arrival: Arrival): Consumed {
    match arrival
    case Broken =>
      c.(report := c.report.(malformed := c.report.malformed + 1), answers := c.answers + [Silence])
    case Unreadable =>
      c.(report := c.report.(malformed := c.report.malformed + 1), answers := c.answers + [Ack])
    case Readable(message, handling, fault, now) =>
      var delivered := Delivery(c.db, message, handling, fault, now);
      match delivered.answer
      case Ok(Some(_)) =>
        Consumed(delivered.db, c.report.(applied := c.report.applied + 1), c.answers + [Ack])
      case Ok(None) =>
        Consumed(delivered.db, c.report.(duplicates := c.report.duplicates + 1), c.answers + [Ack])
      case Err(_) =>
        Consumed(delivered.db, c.report.(failed := c.report.failed + 1), c.answers + [Nak])
  }

  function ConsumeAll(db: Db, arrivals: seq<Arrival>): Consumed {
    if arrivals == [] then Consumed(db, Report(0, 0, 0, 0), [])
    else Consume(ConsumeAll(db, arrivals[..|arrivals| - 1]), arrivals[|arrivals| - 1])
  }

  class Database {
    var inbox: map<Uuid, Row>
    var work: seq<Uuid>
    /** What `settled` was told, newest last: the message and whether its transaction committed. */
    var told: seq<(Uuid, bool)>

    constructor ()
      ensures View() == Db(map[], []) && told == []
    {
      inbox, work, told := map[], [], [];
    }

    function View(): Db
      reads this
    {
      Db(inbox, work)
    }

    /**
      Deduplicate, handle and record, in one transaction. `settled` hears of every message that reached
      the handler, and hears that it committed only when it did.
    */
    method Deliver(message: Incoming, handling: Handling, fault: Option<Fault>, now: Instant)
      returns (answer: Result<Option<Outcome>, Failure>)
      modifies this
      ensures Delivered(answer, View()) == Delivery(old(View()), message, handling, fault, now)
      ensures told ==
        if fault == Some(Opening) || fault == Some(Beginning) || !Fits(message) || message.messageId in old(inbox)
        then old(told)
        else old(told) + [(message.messageId, answer.Ok?)]
    {
      if fault == Some(Opening) {
        return Err(Persistence);
      }
      var tx := new Transaction(View());
      if fault == Some(Beginning) {
        return Err(Persistence);
      }
      var reception := tx.Begin(message, now);
      if reception.Err? {
        return Err(reception.error);
      }
      if reception.value.Duplicate? {
        return Ok(None);
      }
      var decision := tx.Handle(message, handling);
      if decision.Err? {
        answer := Err(decision.error);
      } else if fault == Some(Finishing) {
        answer := Err(Persistence);
      } else {
        tx.Finish(message.messageId, decision.value, now);
        if fault != Some(Committing) {
          inbox, work := tx.inbox, tx.work;
        }
        answer := if fault.None? then Ok(Some(decision.value)) else Err(Persistence);
      }
      told := told + [(message.messageId, answer.Ok?)];
    }

    /** Delete the processed rows older than `before` that the statement selected. */
    method CollectProcessed(before: Instant, limit: nat, chosen: set<Uuid>) returns (count: nat)
      requires |chosen| <= limit
      requires forall m | m in chosen ::
        m in inbox && inbox[m].processedAt.Some? && inbox[m].processedAt.value < before
      modifies this`inbox
      ensures count == |chosen| && inbox == old(inbox) - chosen
      ensures forall m | m in old(inbox) && old(inbox)[m].processedAt.None? :: m in inbox
    {
      inbox := inbox - chosen;
      count := |chosen|;
    }

    method Unprocessed() returns (count: nat)
      ensures count == |set m | m in inbox && inbox[m].processedAt.None?|
    {
      count := |set m | m in inbox && inbox[m].processedAt.None?|;
    }

    /** Deliver everything that arrives until the process is stopped. */
    method RunLoop(arrivals: seq<Arrival>) returns (report: Report, answers: seq<Answer>)
      modifies this
      ensures Consumed(View(), report, answers) == ConsumeAll(old(View()), arrivals)
    {
      report, answers := Report(0, 0, 0, 0), [];
      var i := 0;
      while i < |arrivals|
        invariant 0 <= i <= |arrivals|
        invariant Consumed(View(), report, answers) == ConsumeAll(old(View()), arrivals[..i])
      {
        assert arrivals[..i + 1][..i] == arrivals[..i];
        var answer := Ack;
        match arrivals[i] {
          case Broken =>
            report := report.(malformed := report.malformed + 1);
            answer := Silence;
          case Unreadable =>
            report := report.(malformed := report.malformed + 1);
          case Readable(message, handling, fault, now) =>
            var delivered := Deliver(message, handling, fault, now);
            match delivered {
              case Ok(Some(_)) => report := report.(applied := report.applied + 1);
              case Ok(None) => report := report.(duplicates := report.duplicates + 1);
              case Err(_) =>
                report := report.(failed := report.failed + 1);
                answer := Nak;
            }
        }
        answers := answers + [answer];
        i := i + 1;
      }
      assert arrivals[..|arrivals|] == arrivals;
    }
  }

  // ---------------------------------------------------------------------------------------------
  // What runs keep
  // ---------------------------------------------------------------------------------------------

  predicate Distinct(work: seq<Uuid>) {
    forall i, j | 0 <= i < j < |work| :: work[i] != work[j]
  }

  /** Every committed row is finished, and stands for exactly one committed piece of work. */
  predicate Kept(db: Db) {
    && (forall m | m in db.inbox :: db.inbox[m].processedAt.Some? && db.inbox[m].outcome.Some?)
    && Distinct(db.work) && (forall m | m in db.inbox :: m in db.work) && (forall m | m in db.work :: m in db.inbox)
  }

  lemma DeliveryKeeps(db: Db, message: Incoming, handling: Handling, fault: Option<Fault>, now: Instant)
    requires Kept(db)
    ensures Kept(Delivery(db, message, handling, fault, now).db)
  {
    var after := Delivery(db, message, handling, fault, now).db;
    if after != db {
      assert after.work[|db.work|] == message.messageId;
      forall m | m in after.inbox ensures m in after.work {
        if m != message.messageId {
          assert m in db.work;
        }
      }
    }
  }

  /** A row appears exactly when a piece of work does, and both are of the delivered message. */
  lemma RowCommitsWithWork(db: Db, message: Incoming, handling: Handling, fault: Option<Fault>, now: Instant)
    requires Kept(db)
    ensures var after := Delivery(db, message, handling, fault, now);
      var m := message.messageId;
      && (after.db.work == db.work + [m] <==> m !in db.inbox && m in after.db.inbox)
      && (after.db != db <==> m !in db.inbox && m in after.db.inbox)
      && after.db.inbox.Keys <= db.inbox.Keys + {m}
      && (after.answer.Ok? ==> m in after.db.inbox && after.db.inbox[m].processedAt.Some?)
      && (after.answer.Ok? && after.answer.value.Some? ==>
            m !in db.inbox && after.db.inbox[m].outcome == after.answer.value)
  {
    assert db.work + [message.messageId] != db.work by {
      assert |db.work + [message.messageId]| > |db.work|;
    }
  }

  function Unheard(arrivals: seq<Arrival>, db: Db): nat {
    if arrivals == [] then 0
    else
      var last, before := arrivals[|arrivals| - 1], arrivals[..|arrivals| - 1];
      var at := ConsumeAll(db, before).db;
      Unheard(before, db)
      + (if last.Readable? && last.fault == Some(CommitUnheard)
            && Delivery(at, last.message, last.handling, last.fault, last.now).db != at then 1 else 0)
  }

  /**
    Over any run of the loop: every arrival is counted once and answered once; the work that committed
    is what was applied plus the commits whose acknowledgement was lost; no message's work commits
    twice; and every committed row is finished, so the gauge of unprocessed rows stays at zero.
  */
  lemma {:induction false} LoopAccounts(db: Db, arrivals: seq<Arrival>)
    requires Kept(db)
    ensures var c := ConsumeAll(db, arrivals);
      && Kept(c.db) && |c.answers| == |arrivals|
      && c.report.applied + c.report.duplicates + c.report.failed + c.report.malformed == |arrivals|
      && |c.db.work| == |db.work| + c.report.applied + Unheard(arrivals, db)
      && Unheard(arrivals, db) <= c.report.failed
      && (set m | m in c.db.inbox && c.db.inbox[m].processedAt.None?) == {}
    decreases |arrivals|
  {
    if arrivals != [] {
      var last, before := arrivals[|arrivals| - 1], arrivals[..|arrivals| - 1];
      LoopAccounts(db, before);
      if last.Readable? {
        DeliveryKeeps(ConsumeAll(db, before).db, last.message, last.handling, last.fault, last.now);
      }
    }
  }

  lemma {:induction false} RowsStay(db: Db, arrivals: seq<Arrival>, n: nat, m: Uuid)
    requires n <= |arrivals| && m in ConsumeAll(db, arrivals[..n]).db.inbox
    ensures m in ConsumeAll(db, arrivals).db.inbox
    ensures ConsumeAll(db, arrivals).db.inbox[m] == ConsumeAll(db, arrivals[..n]).db.inbox[m]
    decreases |arrivals|
  {
    if n < |arrivals| {
      assert arrivals[..|arrivals| - 1][..n] == arrivals[..n];
      RowsStay(db, arrivals[..|arrivals| - 1], n, m);
    } else {
      assert arrivals[..n] == arrivals;
    }
  }

  lemma {:induction false} AnswersStay(db: Db, arrivals: seq<Arrival>, n: nat)
    requires n <= |arrivals|
    ensures |ConsumeAll(db, arrivals[..n]).answers| == n <= |ConsumeAll(db, arrivals).answers|
    ensures ConsumeAll(db, arrivals).answers[..n] == ConsumeAll(db, arrivals[..n]).answers
    decreases |arrivals|
  {
    if n < |arrivals| {
      assert arrivals[..|arrivals| - 1][..n] == arrivals[..n];
      AnswersStay(db, arrivals[..|arrivals| - 1], n);
    } else {
      assert arrivals[..n] == arrivals;
      if n > 0 {
        assert arrivals[..n][..n - 1] == arrivals[..n - 1];
        AnswersStay(db, arrivals[..n - 1], n - 1);
        assert arrivals[..n - 1][..n - 1] == arrivals[..n - 1];
      }
    }
  }

  /**
    A message that was read is acknowledged exactly when its delivery succeeded, and then its finished
    row is in the inbox for good, as far as this loop goes: no acknowledged work is lost. One whose
    producer does not fit the column is never acknowledged.
  */
  lemma AcknowledgedIsRecorded(db: Db, arrivals: seq<Arrival>, i: nat)
    requires Kept(db) && i < |arrivals| && arrivals[i].Readable?
    ensures var c := ConsumeAll(db, arrivals);
      var a := arrivals[i];
      && i < |c.answers|
      && (c.answers[i].Ack? <==>
            && Fits(a.message) && a.fault != Some(Opening) && a.fault != Some(Beginning)
            && (a.message.messageId in ConsumeAll(db, arrivals[..i]).db.inbox || (a.fault.None? && a.handling.Decides?)))
      && (c.answers[i].Ack? ==>
            a.message.messageId in c.db.inbox && c.db.inbox[a.message.messageId].processedAt.Some?)
      && (!c.answers[i].Ack? ==> c.answers[i].Nak?)
  {
    var prefix := arrivals[..i + 1];
    assert prefix[..i] == arrivals[..i] && prefix[i] == arrivals[i];
    AnswersStay(db, arrivals, i + 1);
    AnswersStay(db, arrivals, i);
    var c := ConsumeAll(db, arrivals);
    assert c.answers[i] == ConsumeAll(db, prefix).answers[i];
    LoopAccounts(db, arrivals);
    if c.answers[i].Ack? {
      RowsStay(db, arrivals, i + 1, arrivals[i].message.messageId);
    }
  }

  // ---------------------------------------------------------------------------------------------
  // What became of each arrival
  // ---------------------------------------------------------------------------------------------

  datatype Fate = NotRead | Taken | Seen | Lost

  /**
    The fate of arrival `i`, read off the inbox as it found it: a duplicate is one whose row was there, and
    what fails is a statement, the producer's CHECK or the handler.
  */
  function FateOf(db: Db, arrivals: seq<Arrival>, i: nat): Fate
    requires i < |arrivals|
  {
    match arrivals[i]
    case Broken | Unreadable => NotRead
    case Readable(message, handling, fault, _) =>
      if fault == Some(Opening) || fault == Some(Beginning) || |message.producer| == 0 || |message.producer| > 64
      then Lost
      else if message.messageId in ConsumeAll(db, arrivals[..i]).db.inbox then Seen
      else if fault.None? && handling.Decides? then Taken
      else Lost
  }

  /** How many of the first `n` arrivals met that fate. */
  function Meeting(db: Db, arrivals: seq<Arrival>, fate: Fate, n: nat): nat
    requires n <= |arrivals|
  {
    if n == 0 then 0
    else Meeting(db, arrivals, fate, n - 1) + (if FateOf(db, arrivals, n - 1) == fate then 1 else 0)
  }

  function AnswerTo(arrival: Arrival, fate: Fate): Answer {
    if arrival.Broken? then Silence else if fate.Lost? then Nak else Ack
  }

  lemma LastTurn(db: Db, arrivals: seq<Arrival>, n: nat)
    requires n < |arrivals|
    ensures ConsumeAll(db, arrivals[..n + 1]) == Consume(ConsumeAll(db, arrivals[..n]), arrivals[n])
  {
    assert arrivals[..n + 1][..n] == arrivals[..n];
  }

  lemma TurnByFate(db: Db, arrivals: seq<Arrival>, n: nat)
    requires n < |arrivals|
    ensures var before, after := ConsumeAll(db, arrivals[..n]), ConsumeAll(db, arrivals[..n + 1]);
      var fate := FateOf(db, arrivals, n);
      && after.answers == before.answers + [AnswerTo(arrivals[n], fate)]
      && after.report.applied == before.report.applied + (if fate.Taken? then 1 else 0)
      && after.report.duplicates == before.report.duplicates + (if fate.Seen? then 1 else 0)
      && after.report.failed == before.report.failed + (if fate.Lost? then 1 else 0)
      && after.report.malformed == before.report.malformed + (if fate.NotRead? then 1 else 0)
  {
    LastTurn(db, arrivals, n);
  }

  lemma {:induction false} CountersTally(db: Db, arrivals: seq<Arrival>, n: nat)
    requires n <= |arrivals|
    ensures var report := ConsumeAll(db, arrivals[..n]).report;
      && report.applied == Meeting(db, arrivals, Taken, n) && report.duplicates == Meeting(db, arrivals, Seen, n)
      && report.failed == Meeting(db, arrivals, Lost, n) && report.malformed == Meeting(db, arrivals, NotRead, n)
  {
    if n > 0 {
      CountersTally(db, arrivals, n - 1);
      TurnByFate(db, arrivals, n - 1);
    }
  }

  lemma AnsweredByFate(db: Db, arrivals: seq<Arrival>, i: nat)
    requires i < |arrivals|
    ensures var answers := ConsumeAll(db, arrivals).answers;
      |answers| == |arrivals| && answers[i] == AnswerTo(arrivals[i], FateOf(db, arrivals, i))
  {
    TurnByFate(db, arrivals, i);
    AnswersStay(db, arrivals, i);
    AnswersStay(db, arrivals, i + 1);
    AnswersStay(db, arrivals, |arrivals|);
    assert arrivals[..|arrivals|] == arrivals;
    var answers := ConsumeAll(db, arrivals).answers;
    assert answers[i] == answers[..i + 1][i];
  }

  /**
    For every run: a message that cannot be read is acknowledged, so the broker drops it, and a transport
    error is not answered; what is read is negatively acknowledged exactly when it was lost; and each of the
    four counters is the number of arrivals with that fate.
  */
  lemma EveryArrivalIsAnswered(db: Db, arrivals: seq<Arrival>)
    ensures var c := ConsumeAll(db, arrivals);
      && |c.answers| == |arrivals|
      && (forall i | 0 <= i < |arrivals| ::
            && (arrivals[i].Unreadable? ==> c.answers[i] == Ack)
            && (arrivals[i].Broken? ==> c.answers[i] == Silence)
            && (arrivals[i].Readable? ==>
                  c.answers[i] == if FateOf(db, arrivals, i).Lost? then Nak else Ack))
      && c.report.malformed == Meeting(db, arrivals, NotRead, |arrivals|)
      && c.report.applied == Meeting(db, arrivals, Taken, |arrivals|)
      && c.report.duplicates == Meeting(db, arrivals, Seen, |arrivals|)
      && c.report.failed == Meeting(db, arrivals, Lost, |arrivals|)
  {
    CountersTally(db, arrivals, |arrivals|);
    assert arrivals[..|arrivals|] == arrivals;
    AnswersStay(db, arrivals, |arrivals|);
    forall i | 0 <= i < |arrivals|
      ensures ConsumeAll(db, arrivals).answers[i] == AnswerTo(arrivals[i], FateOf(db, arrivals, i))
    {
      AnsweredByFate(db, arrivals, i);
    }
  }

  /**
    What the inbox says of a message for good is what its one committed delivery was: where it came from,
    when it was received and processed, and what its handler decided.
  */
  lemma RecordedAsDelivered(db: Db, arrivals: seq<Arrival>, i: nat)
    requires i < |arrivals| && arrivals[i].Readable?
    requires var m := arrivals[i].message.messageId;
      m !in ConsumeAll(db, arrivals[..i]).db.inbox && m in ConsumeAll(db, arrivals[..i + 1]).db.inbox
    ensures var a, c := arrivals[i], ConsumeAll(db, arrivals);
      && a.handling.Decides? && (a.fault.None? || a.fault == Some(CommitUnheard))
      && a.message.messageId in c.db.inbox
      && c.db.inbox[a.message.messageId]
         == Row(a.message.subject, a.message.producer, a.now, Some(a.now), Some(a.handling.outcome))
  {
    LastTurn(db, arrivals, i);
    RowsStay(db, arrivals, i + 1, arrivals[i].message.messageId);
  }

  /**
    A first delivery commits exactly when its handler decides and no statement fails, and says so only when
    the commit was heard; the handler is named as the cause exactly when it was reached and failed.
  */
  lemma FirstDeliveryCommits(db: Db, message: Incoming, handling: Handling, fault: Option<Fault>, now: Instant)
    requires message.messageId !in db.inbox && 1 <= |message.producer| <= 64
    ensures var d := Delivery(db, message, handling, fault, now);
      && (message.messageId in d.db.inbox <==>
            handling.Decides? && (fault.None? || fault == Some(CommitUnheard)))
      && (d.answer.Ok? <==> handling.Decides? && fault.None?)
      && (d.answer == Err(HandlerFailed) <==> handling.Fails? && fault != Some(Opening) && fault != Some(Beginning))
  {
  }
}
