/**
  The transactional outbox (crates/eventing/src/outbox.rs) under any number of concurrent pump passes
  (crates/eventing/src/pump.rs): claims under a lease, publications, marks, crashes and collection.

  A row is keyed by its message id, which the table keeps unique. Every statement is one step; a pass
  holds its fixed clock and the rows it has not settled yet.
*/
module Outbox {
  import opened Common

  const LEASE: int := 30 * SECOND
  const MAX_BACKOFF_SECONDS: int := 300
  const MAX_ATTEMPTS: nat := 12

  datatype Row = Row(
    enqueuedAt: Instant, nextAttemptAt: Instant, attempts: nat,
    claimedUntil: Option<Instant>, claimedBy: Option<Uuid>,
    publishedAt: Option<Instant>, deadLetteredAt: Option<Instant>)

  /** The two CHECK constraints that a mark can violate. */
  predicate Allowed(row: Row) {
    && (row.publishedAt.None? || row.deadLetteredAt.None?)
    && (row.publishedAt.Some? ==> row.enqueuedAt <= row.publishedAt.value)
  }

  predicate Pending(row: Row) {
    row.publishedAt.None? && row.deadLetteredAt.None?
  }

  predicate Due(row: Row, now: Instant) {
    && Pending(row) && row.nextAttemptAt <= now
    && (row.claimedUntil.None? || row.claimedUntil.value <= now)
  }

  function Pow2(n: nat): (r: int)
    ensures r >= 1
  {
    if n == 0 then 1 else 2 * Pow2(n - 1)
  }

  /** The delay after a failure of a row that had failed `attempts` times before. */
  function Backoff(attempts: nat): int {
    Min(MAX_BACKOFF_SECONDS, Pow2(if attempts < 20 then attempts else 20)) * SECOND
  }

  lemma {:induction false} Pow2Grows(n: nat, m: nat)
    requires n <= m
    ensures Pow2(n) <= Pow2(m)
  {
    if n < m {
      Pow2Grows(n, m - 1);
    }
  }

  /** The exponent's cap at 20 is never visible: the n-th delay is the smaller of 300 s and 2^(n-1) s. */
  lemma BackoffIsBoundedDoubling(attempts: nat)
    ensures Backoff(attempts) == Min(300, Pow2(attempts)) * SECOND
    ensures SECOND <= Backoff(attempts) <= 300 * SECOND
  {
    if attempts >= 20 {
      assert Pow2(9) == 512;
      Pow2Grows(9, 20);
      Pow2Grows(9, attempts);
    }
  }

  function New(now: Instant): Row {
    Row(now, now, 0, None, None, None, None)
  }

  function Claimed(row: Row, holder: Uuid, now: Instant): Row {
    row.(claimedUntil := Some(now + LEASE), claimedBy := Some(holder))
  }

  function Published(row: Row, now: Instant): Row {
    row.(publishedAt := Some(now), claimedUntil := None, claimedBy := None)
  }

  function Failed(row: Row, now: Instant): Row {
    row.(attempts := row.attempts + 1, claimedUntil := None, claimedBy := None,
         nextAttemptAt := now + Backoff(row.attempts),
         deadLetteredAt := if row.attempts + 1 >= MAX_ATTEMPTS then Some(now) else None)
  }

  function Marked(row: Row, ok: bool, now: Instant): Row {
    if ok then Published(row, now) else Failed(row, now)
  }

  // ---------------------------------------------------------------------------------------------
  // The system
  // ---------------------------------------------------------------------------------------------

  /** What became of one publication: `AckLost` stored the message and still looks like a failure. */
  datatype Attempt = Unserializable | Acked | Unstored | AckLost

  datatype Try = Try(message: Uuid, ok: bool)

  /** A pump pass that has claimed its rows and has not ended. */
  datatype Pass = Pass(now: Instant, todo: set<Uuid>, tried: Option<Try>)

  /**
    The table, the stream, and the open passes. `enqueued`, `collected` and `failures` are history:
    every message ever enqueued, every row ever collected, and the instants at which a row was marked
    failed.
  */
  datatype System = System(
    rows: map<Uuid, Row>, stored: set<Uuid>, passes: map<nat, Pass>,
    enqueued: set<Uuid>, collected: set<Uuid>, failures: map<Uuid, seq<Instant>>)

  datatype Event =
    | Enqueue(message: Uuid, now: Instant)
    | Claim(pass: nat, holder: Uuid, limit: nat, now: Instant, locked: set<Uuid>, ids: seq<Uuid>)
    | Publish(pass: nat, message: Uuid, attempt: Attempt)
    | Mark(pass: nat)
    | End(pass: nat)
    | Collect(before: Instant, chosen: set<Uuid>)

  function Initial(): System {
    System(map[], {}, map[], {}, {}, map[])
  }

  predicate NotLater(a: Row, b: Row) {
    a.nextAttemptAt < b.nextAttemptAt || (a.nextAttemptAt == b.nextAttemptAt && a.enqueuedAt <= b.enqueuedAt)
  }

  /** `ids` is what the claim statement may select when it skips the rows others have locked. */
  predicate IsSelection(rows: map<Uuid, Row>, ids: seq<Uuid>, locked: set<Uuid>, limit: nat, now: Instant) {
    && (forall i, j | 0 <= i < j < |ids| :: ids[i] != ids[j])
    && (forall m | m in ids :: m in rows && m !in locked && Due(rows[m], now))
    && |ids| <= limit
    && (forall m | m in rows && m !in locked && m !in ids && Due(rows[m], now) ::
          |ids| == limit && forall c | c in ids :: NotLater(rows[c], rows[m]))
  }

  function ClaimRows(rows: map<Uuid, Row>, ids: seq<Uuid>, holder: Uuid, now: Instant): map<Uuid, Row> {
    map m | m in rows :: if m in ids then Claimed(rows[m], holder, now) else rows[m]
  }

  function SetOf(ids: seq<Uuid>): set<Uuid> {
    set m | m in ids
  }

  predicate Collectable(rows: map<Uuid, Row>, ids: set<Uuid>, before: Instant) {
    forall m | m in ids :: m in rows && rows[m].publishedAt.Some? && rows[m].publishedAt.value < before
  }

  predicate Trying(s: System, p: nat) {
    p in s.passes && s.passes[p].tried.Some?
  }

  predicate Refused(s: System, p: nat)
    requires Trying(s, p)
  {
    var tried, now := s.passes[p].tried.value, s.passes[p].now;
    tried.message in s.rows && !Allowed(Marked(s.rows[tried.message], tried.ok, now))
  }

  /** One mark: an unknown row is left alone, a refused statement abandons the pass. */
  function MarkStep(s: System, p: nat): System
    requires Trying(s, p)
  {
    var pass := s.passes[p];
    var m, ok := pass.tried.value.message, pass.tried.value.ok;
    if Refused(s, p) then s.(passes := s.passes - {p})
    else
      var settled := s.(passes := s.passes[p := Pass(pass.now, pass.todo - {m}, None)]);
      if m !in s.rows then settled
      else settled.(rows := s.rows[m := Marked(s.rows[m], ok, pass.now)],
                    failures := if ok then s.failures else s.failures[m := Log(s, m) + [pass.now]])
  }

  function Log(s: System, m: Uuid): seq<Instant> {
    if m in s.failures then s.failures[m] else []
  }

  /** The effect of one event. One that cannot happen in `s` changes nothing. */
  function Step(s: System, e: Event): System {
    match e
    case Enqueue(m, now) =>
      if m in s.rows then s
      else s.(rows := s.rows[m := New(now)], enqueued := s.enqueued + {m}, failures := s.failures[m := []])
    case Claim(p, holder, limit, now, locked, ids) =>
      if p in s.passes || !IsSelection(s.rows, ids, locked, limit, now) then s
      else s.(rows := ClaimRows(s.rows, ids, holder, now),
              passes := s.passes[p := Pass(now, SetOf(ids), None)])
    case Publish(p, m, attempt) =>
      if p !in s.passes || s.passes[p].tried.Some? || m !in s.passes[p].todo then s
      else s.(stored := if attempt.Acked? || attempt.AckLost? then s.stored + {m} else s.stored,
              passes := s.passes[p := s.passes[p].(tried := Some(Try(m, attempt.Acked?)))])
    case Mark(p) => if Trying(s, p) then MarkStep(s, p) else s
    case End(p) => s.(passes := s.passes - {p})
    case Collect(before, ids) =>
      if Collectable(s.rows, ids, before) then s.(rows := s.rows - ids, collected := s.collected + ids) else s
  }

  function Run(s: System, events: seq<Event>): System
    decreases |events|
  {
    if events == [] then s else Run(Step(s, events[0]), events[1..])
  }

  lemma {:induction false} RunAppend(s: System, first: seq<Event>, second: seq<Event>)
    ensures Run(s, first + second) == Run(Run(s, first), second)
    decreases |first|
  {
    if first == [] {
      assert first + second == second;
    } else {
      assert (first + second)[1..] == first[1..] + second;
      RunAppend(Step(s, first[0]), first[1..], second);
    }
  }

  lemma RunLast(s: System, events: seq<Event>, e: Event)
    ensures Run(s, events + [e]) == Step(Run(s, events), e)
  {
    RunAppend(s, events, [e]);
    assert Run(Run(s, events), [e]) == Run(Step(Run(s, events), e), []);
  }

  // ---------------------------------------------------------------------------------------------
  // Conservation, whatever the clocks and however passes overlap
  // ---------------------------------------------------------------------------------------------

  predicate RowKept(row: Row) {
    && Allowed(row)
    && (row.deadLetteredAt.Some? <==> row.attempts >= MAX_ATTEMPTS)
  }

  ghost predicate RowsKept(s: System) {
    forall m | m in s.rows :: RowKept(s.rows[m]) && (s.rows[m].publishedAt.Some? ==> m in s.stored)
  }

  ghost predicate TriesKept(s: System) {
    forall p | p in s.passes :: s.passes[p].tried.Some? ==>
      s.passes[p].tried.value.ok ==> s.passes[p].tried.value.message in s.stored
  }

  ghost predicate Kept(s: System) {
    RowsKept(s) && TriesKept(s) && s.enqueued == s.rows.Keys + s.collected && s.collected <= s.stored
  }

  lemma StepKeeps(s: System, e: Event)
    requires Kept(s)
    ensures Kept(Step(s, e))
  {
  }

  lemma {:induction false} RunKeeps(s: System, events: seq<Event>)
    requires Kept(s)
    ensures Kept(Run(s, events))
    decreases |events|
  {
    if events != [] {
      StepKeeps(s, events[0]);
      RunKeeps(Step(s, events[0]), events[1..]);
    }
  }

  predicate Settled(row: Row) {
    row.publishedAt.Some? || row.deadLetteredAt.Some?
  }

  ghost predicate Holds(s: System, p: nat, m: Uuid) {
    p in s.passes && m in s.passes[p].todo
  }

  /**
    For every interleaving of passes on any clocks, of crashes and of collection: a message that was
    ever enqueued has a row that is exactly one of pending, published and dead-lettered, or its row was
    collected; a published or collected message is in the stream; and a row is dead-lettered exactly
    when it has failed twelve times.
  */
  lemma Conservation(events: seq<Event>, m: Uuid)
    ensures var s := Run(Initial(), events);
      && (m in s.enqueued <==> m in s.rows || m in s.collected)
      && (m in s.collected ==> m in s.stored)
      && (m in s.rows ==>
            var row := s.rows[m];
            && (Pending(row) || row.publishedAt.Some? || row.deadLetteredAt.Some?)
            && !(row.publishedAt.Some? && row.deadLetteredAt.Some?)
            && (row.publishedAt.Some? ==> m in s.stored)
            && (row.deadLetteredAt.Some? <==> row.attempts >= 12))
  {
    RunKeeps(Initial(), events);
  }

  /**
    A dead-lettered row is never removed, never published and never claimed again, whatever runs; and
    what was enqueued stays accounted for.
  */
  lemma {:induction false} DeadLettersStay(s: System, events: seq<Event>, m: Uuid)
    requires Kept(s) && m in s.rows && s.rows[m].deadLetteredAt.Some?
    ensures var after := Run(s, events);
      && m in after.rows && after.rows[m].deadLetteredAt.Some? && after.rows[m].publishedAt.None?
      && s.enqueued <= after.enqueued
      && (forall p | Holds(after, p, m) :: Holds(s, p, m))
    decreases |events|
  {
    if events != [] {
      var next := Step(s, events[0]);
      StepKeeps(s, events[0]);
      assert m in next.rows && next.rows[m].deadLetteredAt.Some?;
      assert forall p | Holds(next, p, m) :: Holds(s, p, m);
      DeadLettersStay(next, events[1..], m);
    }
  }

  /** A published row stays published until it is collected, and is never claimed before that. */
  lemma {:induction false} PublishedStays(s: System, events: seq<Event>, m: Uuid)
    requires Kept(s) && m in s.rows && s.rows[m].publishedAt.Some?
    ensures var after := Run(s, events);
      || m in after.collected
      || (m in after.rows && after.rows[m].publishedAt.Some?
          && forall p | Holds(after, p, m) :: Holds(s, p, m))
    decreases |events|
  {
    if events != [] {
      var next := Step(s, events[0]);
      StepKeeps(s, events[0]);
      if m in next.collected {
        CollectedStays(next, events[1..], m);
      } else {
        assert m in next.rows && next.rows[m].publishedAt.Some?;
        assert forall p | Holds(next, p, m) :: Holds(s, p, m);
        PublishedStays(next, events[1..], m);
      }
    }
  }

  lemma {:induction false} CollectedStays(s: System, events: seq<Event>, m: Uuid)
    requires m in s.collected
    ensures m in Run(s, events).collected
    decreases |events|
  {
    if events != [] {
      CollectedStays(Step(s, events[0]), events[1..], m);
    }
  }

  // ---------------------------------------------------------------------------------------------
  // Passes that finish inside their lease
  // ---------------------------------------------------------------------------------------------

  /** No claim reads a clock at or past the lease of a pass that is still open. */
  ghost predicate PunctualStep(s: System, e: Event) {
    e.Claim? ==> forall p | p in s.passes :: e.now < s.passes[p].now + LEASE
  }

  ghost predicate Punctual(s: System, events: seq<Event>)
    decreases |events|
  {
    events == [] || (PunctualStep(s, events[0]) && Punctual(Step(s, events[0]), events[1..]))
  }

  lemma {:induction false} PunctualAppend(s: System, first: seq<Event>, second: seq<Event>)
    ensures Punctual(s, first + second) <==> Punctual(s, first) && Punctual(Run(s, first), second)
    decreases |first|
  {
    if first == [] {
      assert first + second == second;
    } else {
      assert (first + second)[1..] == first[1..] + second;
      PunctualAppend(Step(s, first[0]), first[1..], second);
    }
  }

  ghost predicate Held(s: System, p: nat, m: Uuid)
    requires p in s.passes
  {
    && m in s.rows && Pending(s.rows[m])
    && s.rows[m].claimedUntil == Some(s.passes[p].now + LEASE)
    && s.rows[m].nextAttemptAt <= s.passes[p].now
  }

  /** An unsettled row of an open pass is leased to that pass and to no other. */
  ghost predicate Exclusive(s: System) {
    && (forall p, m | p in s.passes && m in s.passes[p].todo :: Held(s, p, m))
    && (forall p, q, m | p in s.passes && q in s.passes && m in s.passes[p].todo && m in s.passes[q].todo :: p == q)
    && (forall p | p in s.passes :: s.passes[p].tried.Some? ==> s.passes[p].tried.value.message in s.passes[p].todo)
  }

  /** Consecutive failures are at least the backoff of the earlier one apart. */
  ghost predicate Spaced(log: seq<Instant>) {
    |log| <= 1
    || (Spaced(log[..|log| - 1]) && log[|log| - 1] >= log[|log| - 2] + Backoff(|log| - 2))
  }

  ghost predicate LogKept(row: Row, log: seq<Instant>) {
    && row.attempts == |log| <= MAX_ATTEMPTS && Spaced(log) && row.enqueuedAt <= row.nextAttemptAt
    && row.nextAttemptAt == (if log == [] then row.enqueuedAt else log[|log| - 1] + Backoff(|log| - 1))
    && row.deadLetteredAt == (if |log| == MAX_ATTEMPTS then Some(log[|log| - 1]) else None)
  }

  ghost predicate LogsKept(s: System) {
    forall m | m in s.rows :: m in s.failures && LogKept(s.rows[m], s.failures[m])
  }

  lemma MarkKeepsLog(row: Row, log: seq<Instant>, now: Instant)
    requires LogKept(row, log) && Pending(row) && row.nextAttemptAt <= now
    ensures LogKept(Failed(row, now), log + [now]) && LogKept(Published(row, now), log)
  {
    assert (log + [now])[..|log|] == log;
    BackoffIsBoundedDoubling(row.attempts);
  }

  lemma ClaimKeepsExclusive(s: System, e: Event)
    requires e.Claim? && Exclusive(s) && PunctualStep(s, e)
    ensures Exclusive(Step(s, e))
  {
    var after := Step(s, e);
    if after != s {
      forall p, m | p in s.passes && m in s.passes[p].todo ensures m !in e.ids {
        assert Held(s, p, m);
      }
      forall p, m | p in after.passes && m in after.passes[p].todo ensures Held(after, p, m) {
        if p != e.pass {
          assert Held(s, p, m);
        }
      }
    }
  }

  lemma MarkKeepsExclusive(s: System, e: Event)
    requires e.Mark? && Exclusive(s)
    ensures Exclusive(Step(s, e))
  {
    var after := Step(s, e);
    forall p, m | p in after.passes && m in after.passes[p].todo ensures Held(after, p, m) {
      assert Held(s, p, m);
    }
  }

  lemma StepKeepsExclusive(s: System, e: Event)
    requires Exclusive(s) && PunctualStep(s, e)
    ensures Exclusive(Step(s, e))
  {
    match e {
      case Claim(_, _, _, _, _, _) => ClaimKeepsExclusive(s, e);
      case Mark(_) => MarkKeepsExclusive(s, e);
      case _ =>
        var after := Step(s, e);
        forall p, m | p in after.passes && m in after.passes[p].todo ensures Held(after, p, m) {
          assert Held(s, p, m);
        }
    }
  }

  lemma StepKeepsLogs(s: System, e: Event)
    requires Exclusive(s) && LogsKept(s)
    ensures LogsKept(Step(s, e))
  {
    if e.Mark? && Trying(s, e.pass) {
      var pass := s.passes[e.pass];
      var m := pass.tried.value.message;
      assert Held(s, e.pass, m);
      MarkKeepsLog(s.rows[m], s.failures[m], pass.now);
    }
  }

  lemma {:induction false} RunKeepsLogs(s: System, events: seq<Event>)
    requires Exclusive(s) && LogsKept(s) && Punctual(s, events)
    ensures Exclusive(Run(s, events)) && LogsKept(Run(s, events))
    decreases |events|
  {
    if events != [] {
      StepKeepsExclusive(s, events[0]);
      StepKeepsLogs(s, events[0]);
      RunKeepsLogs(Step(s, events[0]), events[1..]);
    }
  }

  lemma {:induction false} SpacedAt(log: seq<Instant>, n: nat)
    requires Spaced(log) && n + 1 < |log|
    ensures log[n + 1] >= log[n] + Backoff(n)
  {
    if n + 2 < |log| {
      SpacedAt(log[..|log| - 1], n);
    }
  }

  /** Twelve spaced failures take at least 1 + 2 + ... + 256 + 300 + 300 seconds. */
  lemma TwelveFailures(log: seq<Instant>)
    requires Spaced(log) && |log| == 12
    ensures log[11] >= log[0] + 1111 * SECOND
  {
    for n := 0 to 11
      invariant log[n] >= log[0] + (if n <= 9 then Pow2(n) - 1 else 511 + 300 * (n - 9)) * SECOND
    {
      SpacedAt(log, n);
      BackoffIsBoundedDoubling(n);
      assert Pow2(9) == 512 && Pow2(8) == 256;
      if n <= 8 {
        Pow2Grows(n, 8);
      } else {
        Pow2Grows(9, n);
      }
    }
  }

  /**
    When passes finish inside their lease, no two hold the same row, and for every row: its attempt
    counter is the number of its failures, the n-th failure delays the next attempt by the smaller of
    300 s and 2^(n-1) s and no earlier attempt happens, and it is dead-lettered at exactly its twelfth
    failure, at least 1111 s after its first.
  */
  lemma BackoffHolds(events: seq<Event>, m: Uuid, n: nat)
    requires Punctual(Initial(), events)
    requires m in Run(Initial(), events).rows
    ensures var s := Run(Initial(), events);
      && m in s.failures
      && var row, log := s.rows[m], s.failures[m];
      && row.attempts == |log|
      && (n + 1 < |log| ==> log[n + 1] >= log[n] + Min(300, Pow2(n)) * SECOND)
      && (log != [] ==> row.nextAttemptAt == log[|log| - 1] + Min(300, Pow2(|log| - 1)) * SECOND)
      && (row.deadLetteredAt.Some? <==> |log| == 12)
      && (row.deadLetteredAt.Some? ==>
            row.deadLetteredAt.value == log[11] >= log[0] + 1111 * SECOND)
    ensures var s := Run(Initial(), events);
      forall p, q | Holds(s, p, m) && Holds(s, q, m) :: p == q
  {
    RunKeepsLogs(Initial(), events);
    var s := Run(Initial(), events);
    var log := s.failures[m];
    assert LogKept(s.rows[m], log);
    BackoffIsBoundedDoubling(n);
    if n + 1 < |log| {
      SpacedAt(log, n);
    }
    if log != [] {
      BackoffIsBoundedDoubling(|log| - 1);
    }
    if |log| == 12 {
      TwelveFailures(log);
    }
  }

  // ---------------------------------------------------------------------------------------------
  // No row is stuck
  // ---------------------------------------------------------------------------------------------

  predicate NoLaterThan(e: Event, latest: Instant) {
    match e
    case Enqueue(_, now) => now <= latest
    case Claim(_, _, _, now, _, _) => now <= latest
    case _ => true
  }

  predicate RowCalm(row: Row, latest: Instant) {
    && row.nextAttemptAt <= latest + 300 * SECOND
    && (row.claimedUntil.Some? ==> row.claimedUntil.value <= latest + LEASE)
  }

  ghost predicate Calm(s: System, latest: Instant) {
    && (forall m | m in s.rows :: RowCalm(s.rows[m], latest))
    && (forall p | p in s.passes :: s.passes[p].now <= latest)
  }

  lemma MarkKeepsCalm(row: Row, ok: bool, now: Instant, latest: Instant)
    requires RowCalm(row, latest) && now <= latest
    ensures RowCalm(Marked(row, ok, now), latest)
  {
    BackoffIsBoundedDoubling(row.attempts);
  }

  lemma StepKeepsCalm(s: System, e: Event, latest: Instant)
    requires Calm(s, latest) && NoLaterThan(e, latest)
    ensures Calm(Step(s, e), latest)
  {
    if e.Mark? && Trying(s, e.pass) && s.passes[e.pass].tried.value.message in s.rows {
      var pass := s.passes[e.pass];
      MarkKeepsCalm(s.rows[pass.tried.value.message], pass.tried.value.ok, pass.now, latest);
    }
  }

  lemma {:induction false} RunKeepsCalm(s: System, events: seq<Event>, latest: Instant)
    requires Calm(s, latest) && forall e | e in events :: NoLaterThan(e, latest)
    ensures Calm(Run(s, events), latest)
    decreases |events|
  {
    if events != [] {
      StepKeepsCalm(s, events[0], latest);
      RunKeepsCalm(Step(s, events[0]), events[1..], latest);
    }
  }

  /**
    Wherever passes crashed and however they overlapped, a row that is still pending can be claimed
    exactly from the later of its backoff and its lease on, which is within 300 s of the last clock read.
  */
  lemma PendingRowsComeBack(events: seq<Event>, m: Uuid, latest: Instant, now: Instant)
    requires forall e | e in events :: NoLaterThan(e, latest)
    requires m in Run(Initial(), events).rows && Pending(Run(Initial(), events).rows[m])
    ensures var row := Run(Initial(), events).rows[m];
      var from := if row.claimedUntil.Some? then Max(row.nextAttemptAt, row.claimedUntil.value) else row.nextAttemptAt;
      from <= latest + 300 * SECOND && (Due(row, now) <==> from <= now)
  {
    RunKeepsCalm(Initial(), events, latest);
    assert RowCalm(Run(Initial(), events).rows[m], latest);
  }

  // ---------------------------------------------------------------------------------------------
  // When a row is due
  // ---------------------------------------------------------------------------------------------

  /** A new row is due at once. */
  lemma NewRowIsDue(s: System, m: Uuid, now: Instant, t: Instant)
    requires m !in s.rows
    ensures var after := Step(s, Enqueue(m, now));
      && m in after.rows && (Due(after.rows[m], t) <==> now <= t) && after.rows[m].attempts == 0
      && forall k | k in s.rows :: k in after.rows && after.rows[k] == s.rows[k]
  {
  }

  /**
    A claim leases due rows that nobody has locked, for thirty seconds and to its holder, and no other row;
    one it leaves due waits behind every row it took.
  */
  lemma ClaimLeasesTheOldest(s: System, e: Event, m: Uuid, t: Instant)
    requires e.Claim? && Step(s, e) != s && m in s.rows
    ensures var before, after := s.rows[m], Step(s, e).rows[m];
      && (m in e.ids ==>
            && Due(before, e.now) && m !in e.locked && after.claimedBy == Some(e.holder)
            && (Due(after, t) <==> e.now + 30 * SECOND <= t))
      && (m !in e.ids ==> after == before)
      && (m !in e.ids && m !in e.locked && Due(before, e.now) ==>
            |e.ids| == e.limit && forall c | c in e.ids ::
              c in s.rows
              && (s.rows[c].nextAttemptAt < before.nextAttemptAt
                  || (s.rows[c].nextAttemptAt == before.nextAttemptAt && s.rows[c].enqueuedAt <= before.enqueuedAt)))
    ensures forall c :: c in e.ids <==> Holds(Step(s, e), e.pass, c)
  {
  }

  lemma FailureSetsTheDelay(row: Row, now: Instant, t: Instant)
    requires Pending(row)
    ensures Allowed(Failed(row, now))
    ensures Due(Failed(row, now), t) <==> row.attempts < 11 && now + Min(300, Pow2(row.attempts)) * SECOND <= t
  {
    BackoffIsBoundedDoubling(row.attempts);
  }

  /**
    A publication that fails gives its claim up: the row is due exactly from its backoff on, and never
    again after the twelfth failure.
  */
  lemma FailureGivesUpTheClaim(s: System, p: nat, m: Uuid, t: Instant)
    requires Trying(s, p) && s.passes[p].tried == Some(Try(m, false)) && m in s.rows && Pending(s.rows[m])
    ensures var after := Step(s, Mark(p));
      && m in after.rows && after.rows[m].attempts == s.rows[m].attempts + 1
      && (Due(after.rows[m], t) <==>
            s.rows[m].attempts < 11 && s.passes[p].now + Min(300, Pow2(s.rows[m].attempts)) * SECOND <= t)
      && !Holds(after, p, m)
  {
    FailureSetsTheDelay(s.rows[m], s.passes[p].now, t);
  }

  ghost predicate Unheld(s: System, m: Uuid) {
    forall p | p in s.passes ::
      m !in s.passes[p].todo && (s.passes[p].tried.Some? ==> s.passes[p].tried.value.message in s.passes[p].todo)
  }

  /** Nobody touches a pending row that nobody holds, until it is claimed. */
  lemma {:induction false} UnheldRowStays(s: System, events: seq<Event>, m: Uuid)
    requires Unheld(s, m) && m in s.rows && Pending(s.rows[m])
    requires forall e | e in events && e.Claim? :: m !in e.ids
    ensures m in Run(s, events).rows && Run(s, events).rows[m] == s.rows[m]
    decreases |events|
  {
    if events != [] {
      var e := events[0];
      assert e in events;
      StepKeepsUnheld(s, e, m);
      UnheldRowStays(Step(s, e), events[1..], m);
    }
  }

  lemma StepKeepsUnheld(s: System, e: Event, m: Uuid)
    requires Unheld(s, m) && m in s.rows && Pending(s.rows[m]) && (e.Claim? ==> m !in e.ids)
    ensures var after := Step(s, e); Unheld(after, m) && m in after.rows && after.rows[m] == s.rows[m]
  {
  }

  /**
    Over every punctual run: a row whose publication failed and that nobody has claimed since is due exactly
    from its n-th delay after that failure on, whatever else happened meanwhile.
  */
  lemma WaitsExactlyItsBackoff(before: seq<Event>, p: nat, m: Uuid, later: seq<Event>, t: Instant)
    requires Punctual(Initial(), before)
    requires Trying(Run(Initial(), before), p) && Run(Initial(), before).passes[p].tried == Some(Try(m, false))
    requires m in Run(Initial(), before).rows
    requires forall e | e in later && e.Claim? :: m !in e.ids
    ensures var s := Run(Initial(), before);
      var after := Run(Step(s, Mark(p)), later);
      && Pending(s.rows[m]) && s.rows[m].attempts < 12
      && (s.rows[m].attempts < 11 ==>
            m in after.rows
            && (Due(after.rows[m], t) <==> s.passes[p].now + Min(300, Pow2(s.rows[m].attempts)) * SECOND <= t))
  {
    RunKeepsLogs(Initial(), before);
    var s := Run(Initial(), before);
    assert Held(s, p, m);
    assert LogKept(s.rows[m], s.failures[m]);
    FailureGivesUpTheClaim(s, p, m, t);
    if s.rows[m].attempts < 11 {
      var marked := Step(s, Mark(p));
      assert Unheld(marked, m) by {
        StepKeepsExclusive(s, Mark(p));
      }
      UnheldRowStays(marked, later, m);
    }
  }

  /**
    One attempt and its mark: an acknowledged publication is stored and its row published and never due
    again; a lost acknowledgement stores the message and counts as a failure like any other.
  */
  lemma AttemptIsMarked(s: System, p: nat, m: Uuid, attempt: Attempt, t: Instant)
    requires Holds(s, p, m) && s.passes[p].tried.None? && m in s.rows && Pending(s.rows[m])
    requires s.rows[m].enqueuedAt <= s.passes[p].now
    ensures var after := Run(s, [Publish(p, m, attempt), Mark(p)]);
      && m in after.rows && !Holds(after, p, m)
      && after.rows[m].claimedUntil.None? && after.rows[m].claimedBy.None?
      && (m in after.stored <==> m in s.stored || attempt == Acked || attempt == AckLost)
      && (after.rows[m].publishedAt == Some(s.passes[p].now) <==> attempt == Acked)
      && (attempt == Acked ==> !Due(after.rows[m], t) && after.rows[m].attempts == s.rows[m].attempts)
      && (attempt != Acked ==> after.rows[m].attempts == s.rows[m].attempts + 1)
      && (forall k | k in s.rows && k != m :: k in after.rows && after.rows[k] == s.rows[k])
  {
    var publish, mark := Publish(p, m, attempt), Mark(p);
    assert [publish, mark][1..] == [mark];
    var tried := Step(s, publish);
    assert Run(tried, [mark]) == Run(Step(tried, mark), []);
  }

  /**
    A mark is refused exactly when it would leave a row both published and dead-lettered, or published before
    it was enqueued; then nothing is written and the pass is over.
  */
  lemma RefusedExactly(s: System, p: nat)
    requires Trying(s, p) && s.passes[p].tried.value.message in s.rows && RowKept(s.rows[s.passes[p].tried.value.message])
    ensures var row, now := s.rows[s.passes[p].tried.value.message], s.passes[p].now;
      var after := Step(s, Mark(p));
      var refused := if s.passes[p].tried.value.ok then row.deadLetteredAt.Some? || now < row.enqueuedAt
                     else row.publishedAt.Some? && row.attempts >= 11;
      && (refused <==> p !in after.passes)
      && (refused ==> after == s.(passes := s.passes - {p}))
      && (!refused ==> after.passes[p].tried.None? && after.passes[p].now == now)
  {
  }

  /** Collection removes the rows it chose, each published before its horizon, and changes no other. */
  lemma CollectTakesOldPublished(s: System, before: Instant, chosen: set<Uuid>, m: Uuid)
    requires m in s.rows && Step(s, Collect(before, chosen)) != s
    ensures var after := Step(s, Collect(before, chosen));
      && (m in after.rows <==> m !in chosen) && (m in after.rows ==> after.rows[m] == s.rows[m])
      && (m in chosen ==> s.rows[m].publishedAt.Some? && s.rows[m].publishedAt.value < before && m in after.collected)
  {
  }
}
