/**
  The pump (crates/eventing/src/pump.rs): one pass claims due rows, publishes each and marks what
  happened, while other passes, writers and the collector work on the same table.
*/
module Pump {
  import opened Common
  import opened Outbox

  datatype Refusal = CheckViolation

  datatype Report = Report(claimed: nat, published: nat, failed: nat, deadLettered: nat)

  /** How a pass ends: with its report, with a refused mark, or with its process. */
  datatype Ending = Done(report: Report) | Abandoned | Died

  /** How one row's turn ends. */
  datatype Turn = Settled(deadLettered: bool) | RefusedMark | Killed

  /** An event of the table's other users. */
  predicate Foreign(e: Event, p: nat) {
    match e
    case Claim(q, _, _, _, _, _) => p != q
    case Publish(q, _, _) => p != q
    case Mark(q) => p != q
    case End(q) => p != q
    case _ => true
  }

  predicate AllForeign(events: seq<Event>, p: nat) {
    forall e | e in events :: Foreign(e, p)
  }

  ghost predicate Orderly(s: System) {
    Exclusive(s) && LogsKept(s)
  }

  lemma {:induction false} ForeignKeepsPass(s: System, events: seq<Event>, p: nat)
    requires p in s.passes && AllForeign(events, p)
    ensures p in Run(s, events).passes && Run(s, events).passes[p] == s.passes[p]
    decreases |events|
  {
    if events != [] {
      assert Foreign(events[0], p);
      ForeignKeepsPass(Step(s, events[0]), events[1..], p);
    }
  }

  lemma ForeignKeepsHeldRow(s: System, e: Event, p: nat, m: Uuid)
    requires Exclusive(s) && p in s.passes && m in s.passes[p].todo && Foreign(e, p) && PunctualStep(s, e)
    ensures m in Step(s, e).rows && Step(s, e).rows[m] == s.rows[m]
  {
    assert Held(s, p, m);
  }

  /** While a pass is inside its lease, nobody else writes the rows it has still to settle. */
  lemma {:induction false} HeldRowsAreUntouched(s: System, events: seq<Event>, p: nat)
    requires Exclusive(s) && Punctual(s, events)
    requires p in s.passes && AllForeign(events, p)
    ensures forall m | m in s.passes[p].todo ::
      m in s.rows && m in Run(s, events).rows && Run(s, events).rows[m] == s.rows[m]
    decreases |events|
  {
    forall m | m in s.passes[p].todo ensures m in s.rows {
      assert Held(s, p, m);
    }
    if events != [] {
      assert Foreign(events[0], p);
      var next := Step(s, events[0]);
      StepKeepsExclusive(s, events[0]);
      assert p in next.passes && next.passes[p] == s.passes[p];
      forall m | m in s.passes[p].todo ensures m in next.rows && next.rows[m] == s.rows[m] {
        ForeignKeepsHeldRow(s, events[0], p, m);
      }
      HeldRowsAreUntouched(next, events[1..], p);
    }
  }

  predicate SameRows(a: map<Uuid, Row>, b: map<Uuid, Row>, ids: set<Uuid>) {
    forall m | m in ids :: m in a && m in b && a[m] == b[m]
  }

  lemma TurnFacts(s: System, steps: seq<Event>)
    ensures Orderly(s) && Punctual(s, steps) ==> Orderly(Run(s, steps))
  {
    if Orderly(s) && Punctual(s, steps) {
      RunKeepsLogs(s, steps);
    }
  }

  /** A held row is never refused its mark. */
  lemma HeldMarkIsAllowed(s: System, p: nat)
    requires Orderly(s) && Trying(s, p)
    ensures !Refused(s, p) && s.passes[p].tried.value.message in s.rows
  {
    assert Held(s, p, s.passes[p].tried.value.message);
  }

  lemma PunctualTurn(s: System, first: seq<Event>, publish: Event, second: seq<Event>, mark: Event)
    requires Punctual(s, first + [publish] + second + [mark])
    ensures Punctual(s, first) && Punctual(Step(Run(s, first), publish), second)
  {
    var rest := second + [mark];
    assert first + [publish] + second + [mark] == first + ([publish] + rest);
    PunctualAppend(s, first, [publish] + rest);
    assert ([publish] + rest)[1..] == rest;
    PunctualAppend(Step(Run(s, first), publish), second, [mark]);
  }

  /** Up to its mark, a turn among punctual passes leaves the pass's rows as they were claimed. */
  lemma TurnUntilMark(s0: System, p: nat, m: Uuid, attempt: Attempt, first: seq<Event>, second: seq<Event>)
    requires p in s0.passes && s0.passes[p].tried.None? && m in s0.passes[p].todo
    requires AllForeign(first, p) && AllForeign(second, p)
    requires Orderly(s0) && Punctual(s0, first)
    requires Punctual(Step(Run(s0, first), Publish(p, m, attempt)), second)
    ensures var s3 := Run(Step(Run(s0, first), Publish(p, m, attempt)), second);
      && Orderly(s3)
      && p in s3.passes && s3.passes[p] == s0.passes[p].(tried := Some(Try(m, attempt.Acked?)))
      && SameRows(s0.rows, s3.rows, s0.passes[p].todo)
  {
    var s1 := Run(s0, first);
    var s2 := Step(s1, Publish(p, m, attempt));
    ForeignKeepsPass(s0, first, p);
    RunKeepsLogs(s0, first);
    HeldRowsAreUntouched(s0, first, p);
    StepKeepsExclusive(s1, Publish(p, m, attempt));
    assert LogsKept(s2);
    HeldRowsAreUntouched(s2, second, p);
    ForeignKeepsPass(s2, second, p);
    RunKeepsLogs(s2, second);
  }

  /** Marking a held row settles that row and no other. */
  lemma MarkSettles(s: System, p: nat, todo: set<Uuid>)
    requires Orderly(s) && Trying(s, p) && s.passes[p].todo == todo
    requires forall m | m in todo :: m in s.rows
    ensures Orderly(Step(s, Mark(p))) && !Refused(s, p)
    ensures SameRows(s.rows, Step(s, Mark(p)).rows, todo - {s.passes[p].tried.value.message})
  {
    HeldMarkIsAllowed(s, p);
    StepKeepsExclusive(s, Mark(p));
    StepKeepsLogs(s, Mark(p));
  }

  /** One turn among punctual passes settles its row from what was claimed, and leaves the pass's others alone. */
  lemma TurnRows(s0: System, p: nat, m: Uuid, attempt: Attempt, first: seq<Event>, second: seq<Event>, s3: System)
    requires p in s0.passes && s0.passes[p].tried.None? && m in s0.passes[p].todo
    requires AllForeign(first, p) && AllForeign(second, p)
    requires s3 == Run(Step(Run(s0, first), Publish(p, m, attempt)), second)
    ensures var steps := first + [Publish(p, m, attempt)] + second + [Mark(p)];
      var s4 := Step(s3, Mark(p));
      Orderly(s0) && Punctual(s0, steps) ==>
        && Orderly(s4) && Trying(s3, p) && !Refused(s3, p)
        && m in s0.rows && m in s3.rows && s3.rows[m].attempts == s0.rows[m].attempts
        && SameRows(s0.rows, s4.rows, s0.passes[p].todo - {m})
  {
    var steps := first + [Publish(p, m, attempt)] + second + [Mark(p)];
    if Orderly(s0) && Punctual(s0, steps) {
      PunctualTurn(s0, first, Publish(p, m, attempt), second, Mark(p));
      TurnUntilMark(s0, p, m, attempt, first, second);
      MarkSettles(s3, p, s0.passes[p].todo);
    }
  }

  /** Which of the two statements of turn `i` the process dies before, if it dies in that turn. */
  function DiesIn(dies: Option<nat>, i: nat): Option<nat> {
    if dies.Some? && dies.value / 2 == i then Some(dies.value % 2) else None
  }

  /** How many of the attempts the broker acknowledged. */
  function Acks(attempts: seq<Attempt>): nat {
    if attempts == [] then 0
    else Acks(attempts[..|attempts| - 1]) + (if attempts[|attempts| - 1].Acked? then 1 else 0)
  }

  /** How many of the first `n` rows fail for the twelfth time, counted on the rows as claimed. */
  function Deaths(rows: map<Uuid, Row>, ids: seq<Uuid>, attempts: seq<Attempt>, n: nat): nat
    requires n <= |ids| == |attempts| && forall m | m in ids :: m in rows
  {
    if n == 0 then 0
    else Deaths(rows, ids, attempts, n - 1)
         + (if !attempts[n - 1].Acked? && rows[ids[n - 1]].attempts + 1 >= MAX_ATTEMPTS then 1 else 0)
  }

  /** Before turn `i`: the rows still to settle are as claimed, and the settled ones are counted. */
  ghost predicate AsClaimed(claimed: map<Uuid, Row>, rows: map<Uuid, Row>, ids: seq<Uuid>, attempts: seq<Attempt>,
                            i: nat, deadLettered: nat)
    requires i <= |ids| == |attempts| && forall m | m in ids :: m in claimed
  {
    && (forall j | i <= j < |ids| :: ids[j] in rows && rows[ids[j]].attempts == claimed[ids[j]].attempts)
    && deadLettered == Deaths(claimed, ids, attempts, i)
  }

  lemma PassOpens(s: System, e: Event)
    requires e.Claim?
    ensures Run(s, [e]) == Step(s, e)
    ensures Orderly(s) && Punctual(s, [e]) ==> Orderly(Step(s, e))
  {
    assert Run(s, [e]) == Run(Step(s, e), []);
    TurnFacts(s, [e]);
  }

  predicate Distinct(ids: seq<Uuid>) {
    forall j, k | 0 <= j < k < |ids| :: ids[j] != ids[k]
  }

  lemma RestOf(ids: seq<Uuid>, i: nat)
    requires i < |ids| && Distinct(ids)
    ensures ids[i] in SetOf(ids[i..]) && SetOf(ids[i..]) - {ids[i]} == SetOf(ids[i + 1..])
    ensures forall j | i < j < |ids| :: ids[j] in SetOf(ids[i + 1..])
  {
    assert ids[i..] == [ids[i]] + ids[i + 1..];
    forall j | i < j < |ids| ensures ids[j] in SetOf(ids[i + 1..]) {
      assert ids[j] == ids[i + 1..][j - (i + 1)];
    }
  }

  /** A settled turn carries what the pass knows from one row to the next. */
  lemma TurnAdvances(claimed: map<Uuid, Row>, rows: map<Uuid, Row>, next: map<Uuid, Row>,
                     ids: seq<Uuid>, attempts: seq<Attempt>, i: nat, deadLettered: nat, died: bool)
    requires i < |ids| == |attempts| && forall m | m in ids :: m in claimed
    requires Distinct(ids) && AsClaimed(claimed, rows, ids, attempts, i, deadLettered)
    requires died <==> !attempts[i].Acked? && rows[ids[i]].attempts + 1 >= MAX_ATTEMPTS
    requires SameRows(rows, next, SetOf(ids[i + 1..]))
    ensures AsClaimed(claimed, next, ids, attempts, i + 1, deadLettered + (if died then 1 else 0))
  {
    RestOf(ids, i);
  }

  /** If every pass was punctual so far, the table is in order and the pass knows its rows. */
  ghost predicate OnTrack(before: System, trace: seq<Event>, s: System, ids: seq<Uuid>, attempts: seq<Attempt>,
                          i: nat, deadLettered: nat, cut: Option<Ending>)
    requires i <= |ids| == |attempts| && forall m | m in ids :: m in before.rows
  {
    Orderly(before) && Punctual(before, trace) ==>
      && Orderly(s) && cut != Some(Abandoned)
      && (cut.None? ==> AsClaimed(before.rows, s.rows, ids, attempts, i, deadLettered))
  }

  /** The report counts the first `i` rows, each of which was published. */
  ghost predicate Tallied(report: Report, trace: seq<Event>, p: nat, ids: seq<Uuid>, attempts: seq<Attempt>, i: nat)
    requires i <= |ids| == |attempts|
  {
    && report.claimed == |ids| && report.published == Acks(attempts[..i])
    && report.published + report.failed == i && report.deadLettered <= report.failed
    && (forall j | 0 <= j < i :: Publish(p, ids[j], attempts[j]) in trace)
  }

  lemma TallyGrows(report: Report, trace: seq<Event>, steps: seq<Event>, p: nat, ids: seq<Uuid>,
                   attempts: seq<Attempt>, i: nat, deadLettered: bool)
    requires i < |ids| == |attempts| && Tallied(report, trace, p, ids, attempts, i)
    requires Publish(p, ids[i], attempts[i]) in steps
    ensures Tallied(Counted(report, attempts[i], deadLettered), trace + steps, p, ids, attempts, i + 1)
  {
    assert attempts[..i + 1][..i] == attempts[..i];
  }

  /** The report once a turn has ended. */
  function Counted(report: Report, attempt: Attempt, deadLettered: bool): Report {
    if attempt.Acked? then report.(published := report.published + 1)
    else report.(failed := report.failed + 1,
                 deadLettered := report.deadLettered + (if deadLettered then 1 else 0))
  }

  /** The outbox table, the stream behind the publisher, and the passes that are open on the table. */
  class Deployment {
    var rows: map<Uuid, Row>
    var stored: set<Uuid>
    var passes: map<nat, Pass>
    var enqueued: set<Uuid>
    var collected: set<Uuid>
    var failures: map<Uuid, seq<Instant>>

    constructor ()
      ensures View() == Initial()
    {
      rows, stored, passes, enqueued, collected, failures := map[], {}, map[], {}, {}, map[];
    }

    function View(): System
      reads this
    {
      System(rows, stored, passes, enqueued, collected, failures)
    }

    /** `on conflict (message_id) do nothing`. */
    method EnqueueMessage(m: Uuid, now: Instant) returns (inserted: bool)
      modifies this`rows, this`enqueued, this`failures
      ensures inserted <==> m !in old(rows)
      ensures View() == Step(old(View()), Enqueue(m, now))
    {
      inserted := m !in rows;
      if inserted {
        rows := rows[m := New(now)];
        enqueued := enqueued + {m};
        failures := failures[m := []];
      }
    }

    /** Lease the rows the statement selected. */
    method ClaimDue(p: nat, holder: Uuid, limit: nat, now: Instant, locked: set<Uuid>, ids: seq<Uuid>)
      requires p !in passes && IsSelection(rows, ids, locked, limit, now)
      modifies this`rows, this`passes
      ensures View() == Step(old(View()), Claim(p, holder, limit, now, locked, ids))
      ensures forall m | m in ids :: m in rows && !Due(rows[m], now) && rows[m].attempts == old(rows)[m].attempts
    {
      rows := map m | m in rows :: if m in ids then Claimed(rows[m], holder, now) else rows[m];
      passes := passes[p := Pass(now, SetOf(ids), None)];
    }

    method MarkPublished(m: Uuid, now: Instant) returns (r: Result<(), Refusal>)
      modifies this`rows
      ensures r.Ok? <==> m in old(rows) ==> Allowed(Published(old(rows)[m], now))
      ensures rows == if r.Ok? && m in old(rows) then old(rows)[m := Published(old(rows)[m], now)] else old(rows)
    {
      if m in rows {
        var row := rows[m].(publishedAt := Some(now), claimedUntil := None, claimedBy := None);
        if row.deadLetteredAt.Some? || now < row.enqueuedAt {
          return Err(CheckViolation);
        }
        rows := rows[m := row];
      }
      r := Ok(());
    }

    method MarkFailed(m: Uuid, now: Instant) returns (r: Result<bool, Refusal>)
      modifies this`rows, this`failures
      ensures r.Ok? <==> m in old(rows) ==> Allowed(Failed(old(rows)[m], now))
      ensures r.Ok? ==> (r.value <==> m in old(rows) && old(rows)[m].attempts >= 11)
      ensures rows == if r.Ok? && m in old(rows) then old(rows)[m := Failed(old(rows)[m], now)] else old(rows)
      ensures failures ==
        if r.Ok? && m in old(rows) then old(failures)[m := Log(old(View()), m) + [now]] else old(failures)
    {
      if m !in rows {
        return Ok(false);
      }
      var attempts := rows[m].attempts + 1;
      var dead := if attempts >= MAX_ATTEMPTS then Some(now) else None;
      var row := rows[m].(attempts := attempts, claimedUntil := None, claimedBy := None,
                          nextAttemptAt := now + Backoff(attempts - 1), deadLetteredAt := dead);
      if !Allowed(row) {
        return Err(CheckViolation);
      }
      failures := failures[m := (if m in failures then failures[m] else []) + [now]];
      rows := rows[m := row];
      r := Ok(dead.Some?);
    }

    /** Delete the published rows the statement selected. */
    method CollectPublished(before: Instant, limit: nat, chosen: set<Uuid>) returns (count: nat)
      requires |chosen| <= limit && Collectable(rows, chosen, before)
      modifies this`rows, this`collected
      ensures count == |chosen| <= limit
      ensures View() == Step(old(View()), Collect(before, chosen))
      ensures forall m | m in old(rows) && Pending(old(rows)[m]) :: m in rows
    {
      rows := rows - chosen;
      collected := collected + chosen;
      count := |chosen|;
    }

    /** What the table's other users commit between two statements of a pass. */
    method Others(events: seq<Event>)
      modifies this
      ensures View() == Run(old(View()), events)
    {
      var i := 0;
      while i < |events|
        invariant 0 <= i <= |events|
        invariant Run(View(), events[i..]) == Run(old(View()), events)
      {
        assert events[i..][1..] == events[i + 1..];
        var next := Step(View(), events[i]);
        rows, stored, passes := next.rows, next.stored, next.passes;
        enqueued, collected, failures := next.enqueued, next.collected, next.failures;
        i := i + 1;
      }
    }

    /** One publication: whether it succeeded, and what the stream then holds. */
    method PublishOne(p: nat, m: Uuid, attempt: Attempt)
      requires p in passes && passes[p].tried.None? && m in passes[p].todo
      modifies this`stored, this`passes
      ensures View() == Step(old(View()), Publish(p, m, attempt))
    {
      if attempt.Acked? || attempt.AckLost? {
        stored := stored + {m};
      }
      passes := passes[p := passes[p].(tried := Some(Try(m, attempt.Acked?)))];
    }

    /** Record the outcome of the publication just tried. */
    method MarkOne(p: nat) returns (r: Result<bool, Refusal>)
      requires Trying(View(), p)
      modifies this`rows, this`passes, this`failures
      ensures View() == Step(old(View()), Mark(p))
      ensures r.Err? <==> Refused(old(View()), p)
      ensures var tried := old(passes)[p].tried.value;
        r.Ok? ==> (r.value <==> !tried.ok && tried.message in old(rows) && old(rows)[tried.message].attempts >= 11)
    {
      var pass := passes[p];
      var m := pass.tried.value.message;
      if pass.tried.value.ok {
        var marked := MarkPublished(m, pass.now);
        r := if marked.Ok? then Ok(false) else Err(CheckViolation);
      } else {
        r := MarkFailed(m, pass.now);
      }
      passes := if r.Ok? then passes[p := Pass(pass.now, pass.todo - {m}, None)] else passes - {p};
    }

    /** One row's turn: publish it, then mark it. `dies` is 0 or 1 when the process dies in this turn. */
    method TakeTurn(p: nat, m: Uuid, attempt: Attempt, first: seq<Event>, second: seq<Event>, dies: Option<nat>)
      returns (turn: Turn, ghost steps: seq<Event>)
      requires p in passes && passes[p].tried.None? && m in passes[p].todo
      requires AllForeign(first, p) && AllForeign(second, p)
      modifies this
      ensures View() == Run(old(View()), steps)
      ensures turn.RefusedMark? ==> p !in passes
      ensures !turn.RefusedMark? ==> p in passes
      ensures turn.Killed? <==> dies == Some(0) || dies == Some(1)
      ensures turn.Settled? ==>
        && passes[p] == Pass(old(passes)[p].now, old(passes)[p].todo - {m}, None)
        && Publish(p, m, attempt) in steps
        && (turn.deadLettered ==> !attempt.Acked?)
      ensures Orderly(old(View())) && Punctual(old(View()), steps) ==>
        && Orderly(View()) && !turn.RefusedMark?
        && (turn.Settled? ==>
              && m in old(rows)
              && (turn.deadLettered <==> !attempt.Acked? && old(rows)[m].attempts + 1 >= MAX_ATTEMPTS)
              && SameRows(old(rows), rows, old(passes)[p].todo - {m}))
    {
      ghost var before := View();
      Others(first);
      steps := first;
      ForeignKeepsPass(before, first, p);
      if dies == Some(0) {
        TurnFacts(before, steps);
        return Killed, steps;
      }
      PublishOne(p, m, attempt);
      RunLast(before, steps, Publish(p, m, attempt));
      steps := steps + [Publish(p, m, attempt)];
      ghost var s2 := View();
      Others(second);
      ForeignKeepsPass(s2, second, p);
      RunAppend(before, steps, second);
      steps := steps + second;
      ghost var s3 := View();
      if dies == Some(1) {
        TurnFacts(before, steps);
        return Killed, steps;
      }
      var marked := MarkOne(p);
      RunLast(before, steps, Mark(p));
      ghost var all := steps + [Mark(p)];
      TurnRows(before, p, m, attempt, first, second, s3);
      steps := all;
      turn := if marked.Ok? then Settled(marked.value) else RefusedMark;
    }

    /** Claim, and open the pass. */
    method OpenPass(p: nat, holder: Uuid, limit: nat, now: Instant, locked: set<Uuid>, ids: seq<Uuid>,
                    attempts: seq<Attempt>)
      returns (ghost trace: seq<Event>)
      requires p !in passes && IsSelection(rows, ids, locked, limit, now) && |attempts| == |ids|
      modifies this`rows, this`passes
      ensures View() == Run(old(View()), trace)
      ensures p in passes && passes[p] == Pass(now, SetOf(ids), None)
      ensures OnTrack(old(View()), trace, View(), ids, attempts, 0, 0, None)
    {
      trace := [Claim(p, holder, limit, now, locked, ids)];
      ghost var before := View();
      ClaimDue(p, holder, limit, now, locked, ids);
      PassOpens(before, trace[0]);
    }

    /** Turn `i` of a pass, counted in its report. */
    method NextTurn(p: nat, ids: seq<Uuid>, attempts: seq<Attempt>, i: nat, first: seq<Event>, second: seq<Event>,
                    dies: Option<nat>, report: Report, ghost before: System, ghost trace: seq<Event>)
      returns (turn: Turn, counted: Report, ghost extended: seq<Event>)
      requires i < |ids| == |attempts| && Distinct(ids) && forall m | m in ids :: m in before.rows
      requires View() == Run(before, trace)
      requires p in passes && passes[p].todo == SetOf(ids[i..]) && passes[p].tried.None?
      requires AllForeign(first, p) && AllForeign(second, p)
      requires Tallied(report, trace, p, ids, attempts, i)
      requires OnTrack(before, trace, View(), ids, attempts, i, report.deadLettered, None)
      modifies this
      ensures View() == Run(before, extended)
      ensures turn.Killed? <==> dies == Some(0) || dies == Some(1)
      ensures turn.Settled? ==>
        && p in passes && passes[p] == Pass(old(passes)[p].now, SetOf(ids[i + 1..]), None)
        && Tallied(counted, extended, p, ids, attempts, i + 1)
        && OnTrack(before, extended, View(), ids, attempts, i + 1, counted.deadLettered, None)
      ensures turn.Killed? ==>
        OnTrack(before, extended, View(), ids, attempts, i, counted.deadLettered, Some(Died))
      ensures turn.RefusedMark? ==>
        OnTrack(before, extended, View(), ids, attempts, i, counted.deadLettered, Some(Abandoned))
    {
      RestOf(ids, i);
      ghost var steps;
      ghost var earlier := rows;
      turn, steps := TakeTurn(p, ids[i], attempts[i], first, second, dies);
      RunAppend(before, trace, steps);
      PunctualAppend(before, trace, steps);
      extended := trace + steps;
      counted := report;
      if turn.Settled? {
        counted := Counted(report, attempts[i], turn.deadLettered);
        TallyGrows(report, trace, steps, p, ids, attempts, i, turn.deadLettered);
        if Orderly(before) && Punctual(before, extended) {
          TurnAdvances(before.rows, earlier, rows, ids, attempts, i, report.deadLettered, turn.deadLettered);
        }
      }
    }

    /** Every row of an open pass in turn, until a mark is refused or the process dies. */
    method TakeTurns(p: nat, ids: seq<Uuid>, attempts: seq<Attempt>, others: seq<seq<Event>>, dies: Option<nat>,
                     ghost before: System, ghost opening: seq<Event>)
      returns (cut: Option<Ending>, report: Report, ghost trace: seq<Event>)
      requires Distinct(ids) && |attempts| == |ids| && |others| == 2 * |ids|
      requires forall k | 0 <= k < |others| :: AllForeign(others[k], p)
      requires forall m | m in ids :: m in before.rows
      requires View() == Run(before, opening) && OnTrack(before, opening, View(), ids, attempts, 0, 0, None)
      requires p in passes && passes[p].todo == SetOf(ids) && passes[p].tried.None?
      modifies this
      ensures View() == Run(before, trace)
      ensures OnTrack(before, trace, View(), ids, attempts, |ids|, report.deadLettered, cut)
      ensures cut.None? ==> Tallied(report, trace, p, ids, attempts, |ids|)
      ensures cut.None? || cut == Some(Abandoned) || (cut == Some(Died) && dies.Some?)
    {
      report, trace, cut := Report(|ids|, 0, 0, 0), opening, None;
      assert ids[0..] == ids;
      var i := 0;
      while i < |ids|
        invariant 0 <= i <= |ids| && View() == Run(before, trace)
        invariant OnTrack(before, trace, View(), ids, attempts, i, report.deadLettered, None)
        invariant p in passes && passes[p].todo == SetOf(ids[i..]) && passes[p].tried.None?
        invariant Tallied(report, trace, p, ids, attempts, i)
      {
        var turn;
        turn, report, trace := NextTurn(p, ids, attempts, i, others[2 * i], others[2 * i + 1], DiesIn(dies, i),
                                        report, before, trace);
        match turn {
          case RefusedMark => return Some(Abandoned), report, trace;
          case Killed => return Some(Died), report, trace;
          case Settled(_) => i := i + 1;
        }
      }
    }

    /**
      One pass over the rows the claim selected. `attempts[i]` is what becomes of the publication of
      `ids[i]`; `others[2 * i]` and `others[2 * i + 1]` are what the table's other users commit before
      its publication and before its mark; `dies` is the statement before which the process is killed.
    */
    method RunOnce(p: nat, holder: Uuid, limit: nat, now: Instant, locked: set<Uuid>, ids: seq<Uuid>,
                   attempts: seq<Attempt>, others: seq<seq<Event>>, dies: Option<nat>)
      returns (ending: Ending, ghost trace: seq<Event>)
      requires p !in passes && IsSelection(rows, ids, locked, limit, now)
      requires |attempts| == |ids| && |others| == 2 * |ids|
      requires forall k | 0 <= k < |others| :: AllForeign(others[k], p)
      modifies this
      ensures View() == Run(old(View()), trace) && p !in passes
      ensures ending.Done? ==>
        && ending.report.claimed == |ids| <= limit
        && ending.report.published == Acks(attempts)
        && ending.report.published + ending.report.failed == |ids|
        && ending.report.deadLettered <= ending.report.failed
        && (forall i | 0 <= i < |ids| :: Publish(p, ids[i], attempts[i]) in trace)
      ensures Orderly(old(View())) && Punctual(old(View()), trace) ==>
        && Orderly(View()) && !ending.Abandoned?
        && (dies.None? ==> ending.Done?)
        && (ending.Done? ==> ending.report.deadLettered == Deaths(old(rows), ids, attempts, |ids|))
    {
      ghost var before := View();
      ghost var opening := OpenPass(p, holder, limit, now, locked, ids, attempts);
      var cut, report;
      cut, report, trace := TakeTurns(p, ids, attempts, others, dies, before, opening);
      assert attempts[..|ids|] == attempts;
      trace := EndPass(before, trace, p);
      ending := if cut.Some? then cut.value else Done(report);
    }

    /** The pass is over, or its process is. */
    method EndPass(ghost before: System, ghost trace: seq<Event>, p: nat) returns (ghost ended: seq<Event>)
      requires View() == Run(before, trace)
      modifies this`passes
      ensures ended == trace + [End(p)] && View() == Run(before, ended) && passes == old(passes) - {p}
      ensures Orderly(old(View())) ==> Orderly(View())
      ensures Punctual(before, ended) ==> Punctual(before, trace)
    {
      RunLast(before, trace, End(p));
      PunctualAppend(before, trace, [End(p)]);
      passes := passes - {p};
      ended := trace + [End(p)];
    }
  }
}
