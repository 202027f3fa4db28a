/**
  What becomes of the outbox when passes outlive their lease and hold rows together, or die between a
  publication and its mark (crates/eventing/src/outbox.rs, crates/eventing/src/pump.rs): exactly which
  overlaps break the backoff, and that nothing bounds how long a message is published again.
*/
module OutboxOverlap {
  import opened Common
  import opened Outbox

  /** A message id is minted once: no id is enqueued again after its row was collected. */
  predicate MintedStep(s: System, e: Event) {
    e.Enqueue? ==> e.message !in s.enqueued || e.message in s.rows
  }

  /** Runs in which no claim outwaits an open lease and ids are minted once. */
  ghost predicate Steady(s: System, events: seq<Event>)
    decreases |events|
  {
    events == []
    || (PunctualStep(s, events[0]) && MintedStep(s, events[0]) && Steady(Step(s, events[0]), events[1..]))
  }

  ghost predicate AllSpaced(s: System) {
    forall m | m in s.failures :: Spaced(s.failures[m])
  }

  /** A pass that may yet mark the row failed: it holds it and has not published it with success. */
  predicate CanFail(s: System, p: nat, m: Uuid) {
    p in s.passes && m in s.passes[p].todo && s.passes[p].tried != Some(Try(m, true))
  }

  ghost predicate Rivals(s: System, p: nat, q: nat, m: Uuid) {
    p != q && m in s.rows && CanFail(s, p, m) && CanFail(s, q, m)
  }

  ghost predicate NoRivals(s: System) {
    forall p, q, m :: !Rivals(s, p, q, m)
  }

  /** Rows and their histories are in order, and passes hold only what was enqueued. */
  ghost predicate Tidy(s: System) {
    && Kept(s) && LogsKept(s) && AllSpaced(s)
    && (forall p, m | Holds(s, p, m) :: m in s.enqueued)
    && (forall p | Trying(s, p) :: s.passes[p].tried.value.message in s.passes[p].todo)
  }

  /** The row is leased at least as long as this holder's own lease, whoever claimed it last. */
  predicate Leased(row: Row, now: Instant) {
    Pending(row) && row.nextAttemptAt <= now && row.claimedUntil.Some? && now + LEASE <= row.claimedUntil.value
  }

  /** Nothing that another open pass still holds has been marked. */
  ghost predicate Waiting(s: System) {
    Tidy(s) && forall p, m | Holds(s, p, m) :: m in s.rows && Leased(s.rows[m], s.passes[p].now)
  }

  // ---------------------------------------------------------------------------------------------
  // Where such states come from
  // ---------------------------------------------------------------------------------------------

  /** A mark settles a row that no other open pass holds. */
  ghost predicate UnsharedStep(s: System, e: Event) {
    e.Mark? && Trying(s, e.pass) ==> forall q | Holds(s, q, s.passes[e.pass].tried.value.message) :: q == e.pass
  }

  ghost predicate Unshared(s: System, events: seq<Event>)
    decreases |events|
  {
    events == []
    || (UnsharedStep(s, events[0]) && MintedStep(s, events[0]) && Unshared(Step(s, events[0]), events[1..]))
  }

  lemma AppendKeepsSpaced(row: Row, log: seq<Instant>, now: Instant)
    requires LogKept(row, log) && row.deadLetteredAt.None? && row.nextAttemptAt <= now
    ensures Allowed(row) && Allowed(Failed(row, now)) ==> LogKept(Failed(row, now), log + [now])
    ensures Spaced(log + [now])
  {
    assert (log + [now])[..|log|] == log;
    BackoffIsBoundedDoubling(row.attempts);
  }

  lemma MarkKeepsTidy(s: System, p: nat)
    requires Tidy(s) && Trying(s, p)
    requires var tried := s.passes[p].tried.value;
      tried.message in s.rows && !tried.ok ==>
        s.rows[tried.message].deadLetteredAt.None? && s.rows[tried.message].nextAttemptAt <= s.passes[p].now
    ensures Tidy(Step(s, Mark(p)))
  {
    StepKeeps(s, Mark(p));
    var tried := s.passes[p].tried.value;
    if tried.message in s.rows && !tried.ok {
      AppendKeepsSpaced(s.rows[tried.message], s.failures[tried.message], s.passes[p].now);
    }
    MarkKeepsLogs(s, p);
    MarkKeepsSpaced(s, p);
    var after := Step(s, Mark(p));
    forall q, m | Holds(after, q, m) ensures m in after.enqueued {
      assert Holds(s, q, m);
    }
  }

  lemma MarkKeepsLogs(s: System, p: nat)
    requires Kept(s) && LogsKept(s) && Trying(s, p)
    requires var tried := s.passes[p].tried.value;
      tried.message in s.rows && !tried.ok ==>
        var row, log, now := s.rows[tried.message], s.failures[tried.message], s.passes[p].now;
        Allowed(Failed(row, now)) ==> LogKept(Failed(row, now), log + [now])
    ensures LogsKept(Step(s, Mark(p)))
  {
    var after := Step(s, Mark(p));
    forall m | m in after.rows ensures m in after.failures && LogKept(after.rows[m], after.failures[m]) {
      assert LogKept(s.rows[m], s.failures[m]);
    }
  }

  lemma MarkKeepsSpaced(s: System, p: nat)
    requires LogsKept(s) && AllSpaced(s) && Trying(s, p)
    requires var tried := s.passes[p].tried.value;
      tried.message in s.rows && !tried.ok ==> Spaced(s.failures[tried.message] + [s.passes[p].now])
    ensures AllSpaced(Step(s, Mark(p)))
  {
  }

  lemma OthersKeepLogs(s: System, e: Event)
    requires LogsKept(s) && AllSpaced(s) && !e.Mark?
    ensures LogsKept(Step(s, e)) && AllSpaced(Step(s, e))
  {
    var after := Step(s, e);
    forall m | m in after.rows ensures m in after.failures && LogKept(after.rows[m], after.failures[m]) {
      if m in s.rows {
        assert LogKept(s.rows[m], s.failures[m]);
      }
    }
  }

  lemma OthersKeepTidy(s: System, e: Event)
    requires Tidy(s) && MintedStep(s, e) && !e.Mark?
    ensures Tidy(Step(s, e))
  {
    StepKeeps(s, e);
    OthersKeepLogs(s, e);
    var after := Step(s, e);
    forall p, m | Holds(after, p, m) ensures m in after.enqueued {
      if p in s.passes {
        assert Holds(s, p, m);
      }
    }
  }

  lemma ClaimKeepsWaiting(s: System, e: Event)
    requires Waiting(s) && e.Claim?
    ensures Waiting(Step(s, e))
  {
    OthersKeepTidy(s, e);
    var after := Step(s, e);
    forall p, m | Holds(after, p, m) ensures m in after.rows && Leased(after.rows[m], after.passes[p].now) {
      if p in s.passes {
        assert Holds(s, p, m);
      }
    }
  }

  lemma MarkKeepsWaiting(s: System, p: nat)
    requires Waiting(s) && Trying(s, p) && UnsharedStep(s, Mark(p))
    ensures Waiting(Step(s, Mark(p)))
  {
    assert Holds(s, p, s.passes[p].tried.value.message);
    MarkKeepsTidy(s, p);
    var after := Step(s, Mark(p));
    forall q, m | Holds(after, q, m) ensures m in after.rows && Leased(after.rows[m], after.passes[q].now) {
      assert Holds(s, q, m);
    }
  }

  lemma StepKeepsWaiting(s: System, e: Event)
    requires Waiting(s) && UnsharedStep(s, e) && MintedStep(s, e)
    ensures Waiting(Step(s, e))
  {
    match e {
      case Claim(_, _, _, _, _, _) => ClaimKeepsWaiting(s, e);
      case Mark(p) =>
        if Trying(s, p) {
          MarkKeepsWaiting(s, p);
        }
      case _ =>
        OthersKeepTidy(s, e);
        var after := Step(s, e);
        forall p, m | Holds(after, p, m) ensures m in after.rows && Leased(after.rows[m], after.passes[p].now) {
          assert Holds(s, p, m);
        }
    }
  }

  /** Whatever the clocks and however passes overlap: until a shared row is marked, nothing has gone wrong. */
  lemma {:induction false} UnsharedRunsWait(s: System, events: seq<Event>)
    requires Waiting(s) && Unshared(s, events)
    ensures Waiting(Run(s, events))
    decreases |events|
  {
    if events != [] {
      StepKeepsWaiting(s, events[0]);
      UnsharedRunsWait(Step(s, events[0]), events[1..]);
    }
  }

  // ---------------------------------------------------------------------------------------------
  // Without rivals nothing breaks
  // ---------------------------------------------------------------------------------------------

  /** A pass that may fail a row does so in time, and nobody can claim the row from under it. */
  ghost predicate FailsInTime(s: System) {
    forall p, m | CanFail(s, p, m) && m in s.rows ::
      && s.rows[m].deadLetteredAt.None? && s.rows[m].nextAttemptAt <= s.passes[p].now
      && (Pending(s.rows[m]) ==> Leased(s.rows[m], s.passes[p].now))
  }

  ghost predicate Guarded(s: System) {
    Tidy(s) && NoRivals(s) && FailsInTime(s)
  }

  lemma ClaimedIsFree(s: System, e: Event, p: nat, m: Uuid)
    requires Guarded(s) && e.Claim? && PunctualStep(s, e) && Step(s, e) != s && CanFail(s, p, m) && m in s.rows
    ensures m !in e.ids
  {
  }

  /** What a pass can fail after a claim: what it could before, or, for the claimer, what it claimed. */
  lemma FailableAfterClaim(s: System, e: Event, p: nat, m: Uuid)
    requires Guarded(s) && e.Claim? && PunctualStep(s, e) && Step(s, e) != s && CanFail(Step(s, e), p, m)
    ensures p != e.pass ==> CanFail(s, p, m) && (m in s.rows ==> m !in e.ids && Step(s, e).rows[m] == s.rows[m])
    ensures p == e.pass ==> m in e.ids
  {
    if p != e.pass && m in s.rows {
      ClaimedIsFree(s, e, p, m);
    }
  }

  lemma ClaimKeepsGuarded(s: System, e: Event)
    requires Guarded(s) && e.Claim? && PunctualStep(s, e)
    ensures Guarded(Step(s, e))
  {
    OthersKeepTidy(s, e);
    var after := Step(s, e);
    if after != s {
      forall p, q, m ensures !Rivals(after, p, q, m) {
        assert !Rivals(s, p, q, m);
        if Rivals(after, p, q, m) {
          FailableAfterClaim(s, e, p, m);
          FailableAfterClaim(s, e, q, m);
        }
      }
      forall p, m | CanFail(after, p, m) && m in after.rows
        ensures after.rows[m].deadLetteredAt.None? && after.rows[m].nextAttemptAt <= after.passes[p].now
        ensures Pending(after.rows[m]) ==> Leased(after.rows[m], after.passes[p].now)
      {
        FailableAfterClaim(s, e, p, m);
      }
    }
  }

  lemma MarkKeepsFailsInTime(s: System, p: nat)
    requires Guarded(s) && Trying(s, p)
    ensures FailsInTime(Step(s, Mark(p)))
  {
    var tried := s.passes[p].tried.value;
    assert !tried.ok ==> CanFail(s, p, tried.message);
    var after := Step(s, Mark(p));
    forall q, m | CanFail(after, q, m) && m in after.rows
      ensures after.rows[m].deadLetteredAt.None? && after.rows[m].nextAttemptAt <= after.passes[q].now
      ensures Pending(after.rows[m]) ==> Leased(after.rows[m], after.passes[q].now)
    {
      assert CanFail(s, q, m);
      assert !Rivals(s, p, q, m);
    }
  }

  lemma MarkKeepsGuarded(s: System, p: nat)
    requires Guarded(s) && Trying(s, p)
    ensures Guarded(Step(s, Mark(p)))
  {
    var tried := s.passes[p].tried.value;
    assert !tried.ok ==> CanFail(s, p, tried.message);
    MarkKeepsTidy(s, p);
    MarkKeepsFailsInTime(s, p);
    var after := Step(s, Mark(p));
    forall q, r, m ensures !Rivals(after, q, r, m) {
      assert !Rivals(s, q, r, m);
    }
  }

  lemma OthersKeepGuarded(s: System, e: Event)
    requires Guarded(s) && MintedStep(s, e) && !e.Mark? && !e.Claim?
    ensures Guarded(Step(s, e))
  {
    OthersKeepTidy(s, e);
    var after := Step(s, e);
    forall p, m | CanFail(after, p, m) ensures CanFail(s, p, m) && (m in after.rows ==> m in s.rows && after.rows[m] == s.rows[m]) {
      assert Holds(s, p, m);
    }
    forall p, q, m ensures !Rivals(after, p, q, m) {
      assert !Rivals(s, p, q, m);
    }
  }

  lemma {:induction false} GuardedRunsStaySpaced(s: System, events: seq<Event>)
    requires Guarded(s) && Steady(s, events)
    ensures AllSpaced(Run(s, events))
    decreases |events|
  {
    if events != [] {
      var e := events[0];
      if e.Claim? {
        ClaimKeepsGuarded(s, e);
      } else if e.Mark? {
        if Trying(s, e.pass) {
          MarkKeepsGuarded(s, e.pass);
        }
      } else {
        OthersKeepGuarded(s, e);
      }
      GuardedRunsStaySpaced(Step(s, e), events[1..]);
    }
  }

  // ---------------------------------------------------------------------------------------------
  // Rivals break the backoff
  // ---------------------------------------------------------------------------------------------

  /** Events of the passes and the collector alone are always steady. */
  predicate Internal(events: seq<Event>) {
    forall e | e in events :: !e.Claim? && !e.Enqueue?
  }

  lemma {:induction false} InternalIsSteady(s: System, events: seq<Event>)
    requires Internal(events)
    ensures Steady(s, events)
    decreases |events|
  {
    if events != [] {
      assert events[0] in events;
      InternalIsSteady(Step(s, events[0]), events[1..]);
    }
  }

  /** A pass about to mark this row failed. */
  predicate Ready(s: System, p: nat, m: Uuid) {
    p in s.passes && s.passes[p].tried == Some(Try(m, false))
  }

  /** Its next mark goes through, and so it comes to its try of this row. */
  predicate CanBeReady(s: System, p: nat, m: Uuid) {
    && CanFail(s, p, m)
    && (Trying(s, p) && !Ready(s, p, m) ==> !Refused(s, p) && s.passes[p].tried.value.message != m)
  }

  /** The pass is the same, and the row and its history are. */
  predicate Undisturbed(s: System, after: System, p: nat, m: Uuid)
    requires p in s.passes && m in s.rows
  {
    && p in after.passes && after.passes[p] == s.passes[p]
    && m in after.rows && after.rows[m] == s.rows[m] && Log(after, m) == Log(s, m)
  }

  lemma RunTwo(s: System, a: Event, b: Event)
    ensures Run(s, [a, b]) == Step(Step(s, a), b)
  {
    assert [a, b][1..] == [b];
    assert Run(Step(s, a), [b]) == Run(Step(Step(s, a), b), []);
  }

  /** Bring a pass to the try of a row it can fail. A published row it leaves behind is collected. */
  lemma GetReady(s: System, p: nat, q: nat, m: Uuid) returns (events: seq<Event>)
    requires p != q && m in s.rows && CanBeReady(s, p, m) && q in s.passes
    ensures Internal(events)
    ensures var after := Run(s, events);
      Ready(after, p, m) && after.passes[p].now == s.passes[p].now && Undisturbed(s, after, q, m)
    ensures var after := Run(s, events);
      Trying(s, p) && !Ready(s, p, m) ==>
        var tried := s.passes[p].tried.value;
        && (tried.ok ==> tried.message !in after.rows)
        && (!tried.ok && tried.message in s.rows ==>
              after.rows == s.rows[tried.message := Failed(s.rows[tried.message], s.passes[p].now)])
        && forall k | k in s.rows && k != tried.message :: k in after.rows && after.rows[k] == s.rows[k]
    ensures !Trying(s, p) || Ready(s, p, m) ==> Run(s, events).rows == s.rows
  {
    var publish := Publish(p, m, Unstored);
    if Ready(s, p, m) {
      events := [];
    } else if !Trying(s, p) {
      events := [publish];
      assert [publish][1..] == [];
      assert Run(s, events) == Step(s, publish);
    } else {
      var tried, now := s.passes[p].tried.value, s.passes[p].now;
      var marked := Step(s, Mark(p));
      if tried.ok && tried.message in s.rows {
        var collect := Collect(now + 1, {tried.message});
        events := [Mark(p), collect, publish];
        assert Collectable(marked.rows, {tried.message}, now + 1);
        assert events[1..] == [collect, publish];
        RunTwo(marked, collect, publish);
      } else {
        events := [Mark(p), publish];
        RunTwo(s, Mark(p), publish);
      }
    }
  }

  /** Two passes about to fail one row: the one with the later clock goes first. */
  lemma BothFail(s: System, p: nat, q: nat, m: Uuid)
    requires p != q && Ready(s, p, m) && Ready(s, q, m) && s.passes[p].now <= s.passes[q].now
    requires m in s.rows && Pending(s.rows[m])
    ensures var after := Run(s, [Mark(q), Mark(p)]);
      && Log(after, m) == Log(s, m) + [s.passes[q].now] + [s.passes[p].now]
      && m in after.failures && !Spaced(after.failures[m])
  {
    RunTwo(s, Mark(q), Mark(p));
    var log := Log(s, m) + [s.passes[q].now] + [s.passes[p].now];
    BackoffIsBoundedDoubling(|log| - 2);
    assert log[|log| - 2] == s.passes[q].now && log[|log| - 1] == s.passes[p].now;
  }

  lemma BothReadyBreak(s: System, p: nat, q: nat, m: Uuid) returns (events: seq<Event>)
    requires p != q && Ready(s, p, m) && Ready(s, q, m) && m in s.rows && Pending(s.rows[m])
    ensures Internal(events) && !AllSpaced(Run(s, events))
  {
    if s.passes[p].now <= s.passes[q].now {
      events := [Mark(q), Mark(p)];
      BothFail(s, p, q, m);
    } else {
      events := [Mark(p), Mark(q)];
      BothFail(s, q, p, m);
    }
  }

  /** The first of two passes to get ready does not bar the other's way. */
  predicate MayGoFirst(s: System, p: nat, q: nat) {
    Trying(s, p) && Trying(s, q) && s.passes[p].tried.value.message == s.passes[q].tried.value.message ==>
      s.passes[p].tried.value.ok || !s.passes[q].tried.value.ok
  }

  lemma WaitingCanBeReady(s: System, p: nat, m: Uuid)
    requires Waiting(s) && CanFail(s, p, m)
    ensures CanBeReady(s, p, m)
  {
    if Trying(s, p) {
      var k := s.passes[p].tried.value.message;
      assert Holds(s, p, k);
      assert LogKept(s.rows[k], s.failures[k]);
    }
  }

  lemma RivalsInOrderBreak(s: System, p: nat, q: nat, m: Uuid) returns (events: seq<Event>)
    requires Waiting(s) && Rivals(s, p, q, m) && MayGoFirst(s, p, q)
    ensures Internal(events) && !AllSpaced(Run(s, events))
  {
    WaitingCanBeReady(s, p, m);
    WaitingCanBeReady(s, q, m);
    assert Holds(s, p, m);
    var first := GetReady(s, p, q, m);
    var s1 := Run(s, first);
    SecondCanBeReady(s, s1, p, q, m);
    var second := GetReady(s1, q, p, m);
    var s2 := Run(s1, second);
    var last := BothReadyBreak(s2, p, q, m);
    events := first + (second + last);
    RunAppend(s, first, second + last);
    RunAppend(s1, second, last);
  }

  lemma SecondCanBeReady(s: System, after: System, p: nat, q: nat, m: Uuid)
    requires Waiting(s) && Rivals(s, p, q, m) && MayGoFirst(s, p, q) && CanBeReady(s, q, m)
    requires Undisturbed(s, after, q, m)
    requires Trying(s, p) && !Ready(s, p, m) ==>
      var tried := s.passes[p].tried.value;
      && (tried.ok ==> tried.message !in after.rows)
      && (!tried.ok && tried.message in s.rows ==>
            after.rows == s.rows[tried.message := Failed(s.rows[tried.message], s.passes[p].now)])
      && forall k | k in s.rows && k != tried.message :: k in after.rows && after.rows[k] == s.rows[k]
    requires !Trying(s, p) || Ready(s, p, m) ==> after.rows == s.rows
    ensures CanBeReady(after, q, m)
  {
    if Trying(s, q) && !Ready(s, q, m) {
      var k := s.passes[q].tried.value.message;
      assert Holds(s, q, k);
    }
  }

  lemma RivalsBreakBackoff(s: System, p: nat, q: nat, m: Uuid) returns (events: seq<Event>)
    requires Waiting(s) && Rivals(s, p, q, m)
    ensures Steady(s, events) && !AllSpaced(Run(s, events))
  {
    if MayGoFirst(s, p, q) {
      events := RivalsInOrderBreak(s, p, q, m);
    } else {
      events := RivalsInOrderBreak(s, q, p, m);
    }
    InternalIsSteady(s, events);
  }

  // ---------------------------------------------------------------------------------------------
  // Exactly
  // ---------------------------------------------------------------------------------------------

  /**
    As long as no shared row has been marked, whatever the clocks and overlaps so far: every steady
    continuation keeps every row's failures spaced by their backoff exactly when no row is held by two
    open passes that can both still fail it.
  */
  lemma BackoffHoldsWithoutRivals(s: System)
    requires Waiting(s)
    ensures (forall events | Steady(s, events) :: AllSpaced(Run(s, events))) <==> NoRivals(s)
  {
    if NoRivals(s) {
      forall p, m | CanFail(s, p, m) && m in s.rows ensures Leased(s.rows[m], s.passes[p].now) {
        assert Holds(s, p, m);
      }
      forall events | Steady(s, events) ensures AllSpaced(Run(s, events)) {
        GuardedRunsStaySpaced(s, events);
      }
    } else {
      var p, q, m :| Rivals(s, p, q, m);
      var events := RivalsBreakBackoff(s, p, q, m);
    }
  }

  /** The same for every run from the start that marks no shared row. */
  lemma BackoffAfterOverlap(before: seq<Event>)
    requires Unshared(Initial(), before)
    ensures (forall events | Steady(Run(Initial(), before), events) ::
               AllSpaced(Run(Run(Initial(), before), events)))
       <==> NoRivals(Run(Initial(), before))
  {
    UnsharedRunsWait(Initial(), before);
    BackoffHoldsWithoutRivals(Run(Initial(), before));
  }

  /** One row, enqueued at 0, leased until `until`. */
  function OneRow(until: Option<Instant>, stored: set<Uuid>, passes: map<nat, Pass>): System {
    System(map[0 := Row(0, 0, 0, until, if until.None? then None else Some(0), None, None)], stored,
           passes, {0}, {}, map[0 := []])
  }

  /** A claim of that row at `now`, when its lease is over, gives it to `p` as well. */
  lemma ClaimsTheRow(until: Option<Instant>, stored: set<Uuid>, passes: map<nat, Pass>, p: nat, now: Instant)
    requires p !in passes && 0 <= now && (until.Some? ==> until.value <= now)
    ensures Step(OneRow(until, stored, passes), Claim(p, 0, 1, now, {}, [0]))
         == OneRow(Some(now + LEASE), stored, passes[p := Pass(now, {0}, None)])
  {
    var s := OneRow(until, stored, passes);
    assert IsSelection(s.rows, [0], {}, 1, now);
    assert SetOf([0]) == {0};
    assert ClaimRows(s.rows, [0], 0, now) == OneRow(Some(now + LEASE), stored, passes).rows;
  }

  /** Both holders of that row, claimed at 0 and again at `now`. */
  function TwoClaims(now: Instant): seq<Event> {
    [Enqueue(0, 0), Claim(0, 0, 1, 0, {}, [0]), Claim(1, 0, 1, now, {}, [0])]
  }

  /** Rivals are reached as soon as a pass is still open when its lease lapses. */
  lemma OverlapIsReachable(now: Instant)
    requires LEASE <= now
    ensures !Punctual(Initial(), TwoClaims(now)) && Unshared(Initial(), TwoClaims(now))
    ensures Run(Initial(), TwoClaims(now))
         == OneRow(Some(now + LEASE), {}, map[0 := Pass(0, {0}, None), 1 := Pass(now, {0}, None)])
    ensures Rivals(Run(Initial(), TwoClaims(now)), 0, 1, 0)
  {
    var a, b, c := Enqueue(0, 0), Claim(0, 0, 1, 0, {}, [0]), Claim(1, 0, 1, now, {}, [0]);
    var s1 := Step(Initial(), a);
    assert s1 == OneRow(None, {}, map[]);
    ClaimsTheRow(None, {}, map[], 0, 0);
    var s2 := Step(s1, b);
    ClaimsTheRow(s2.rows[0].claimedUntil, {}, s2.passes, 1, now);
    assert !PunctualStep(s2, c) by {
      assert 0 in s2.passes;
    }
    assert TwoClaims(now)[1..] == [b, c];
    RunTwo(s1, b, c);
    assert [b, c][1..] == [c];
    assert !Punctual(s2, [c]);
    assert !Punctual(s1, [b, c]);
    assert Unshared(Step(s2, c), []) && Unshared(s2, [c]) && Unshared(s1, [b, c]);
  }

  /** A run from the start whose second failure comes before its first one allows any: `now` and then 0. */
  lemma BackoffBreaks(now: Instant)
    requires LEASE <= now
    ensures var events := TwoClaims(now)
        + [Publish(1, 0, Unstored), Publish(0, 0, Unstored)] + [Mark(1), Mark(0)];
      Log(Run(Initial(), events), 0) == [now, 0] && !Spaced([now, 0])
  {
    OverlapIsReachable(now);
    var s := Run(Initial(), TwoClaims(now));
    var publish, mark := [Publish(1, 0, Unstored), Publish(0, 0, Unstored)], [Mark(1), Mark(0)];
    RunTwo(s, publish[0], publish[1]);
    var tried := Run(s, publish);
    BothFail(tried, 0, 1, 0);
    assert Log(tried, 0) == [];
    RunAppend(Initial(), TwoClaims(now), publish);
    RunAppend(Initial(), TwoClaims(now) + publish, mark);
    BackoffIsBoundedDoubling(0);
  }

  // ---------------------------------------------------------------------------------------------
  // Passes that die between a publication and its mark
  // ---------------------------------------------------------------------------------------------

  /** A pass that publishes the row and dies before its mark. */
  function Crash(now: Instant): seq<Event> {
    [Claim(0, 0, 1, now, {}, [0]), Publish(0, 0, Acked), End(0)]
  }

  lemma CrashLeavesTheRow(until: Option<Instant>, stored: set<Uuid>, now: Instant)
    requires 0 <= now && (until.Some? ==> until.value <= now)
    ensures Punctual(OneRow(until, stored, map[]), Crash(now))
    ensures Run(OneRow(until, stored, map[]), Crash(now)) == OneRow(Some(now + LEASE), stored + {0}, map[])
  {
    var s := OneRow(until, stored, map[]);
    var claim, publish, end := Claim(0, 0, 1, now, {}, [0]), Publish(0, 0, Acked), End(0);
    ClaimsTheRow(until, stored, map[], 0, now);
    var s1 := Step(s, claim);
    RunTwo(s1, publish, end);
    assert Crash(now)[1..] == [publish, end] && [publish, end][1..] == [end];
    var s2 := Step(s1, publish);
    assert Step(s2, end) == OneRow(Some(now + LEASE), stored + {0}, map[]);
    assert Punctual(Step(s2, end), []) && Punctual(s2, [end]) && Punctual(s1, [publish, end]);
  }

  /** Passes that claim the row the instant its lease is over, `k` of them, each dying before its mark. */
  function Crashes(k: nat): seq<Event> {
    if k == 0 then [Enqueue(0, 0)] else Crashes(k - 1) + Crash((k - 1) * LEASE)
  }

  /** The row after `k` such passes. */
  function AfterCrashes(k: nat): System {
    if k == 0 then OneRow(None, {}, map[]) else OneRow(Some(k * LEASE), {0}, map[])
  }

  lemma Leases(k: nat)
    ensures 0 <= k * LEASE && k * LEASE + LEASE == (k + 1) * LEASE
  {
    assert LEASE == 30_000_000;
  }

  lemma OneMoreCrash(k: nat)
    ensures Punctual(AfterCrashes(k), Crash(k * LEASE))
    ensures Run(AfterCrashes(k), Crash(k * LEASE)) == AfterCrashes(k + 1)
  {
    Leases(k);
    if k == 0 {
      CrashLeavesTheRow(None, {}, 0);
    } else {
      CrashLeavesTheRow(Some(k * LEASE), {0}, k * LEASE);
    }
  }

  lemma GoesOn(events: seq<Event>, more: seq<Event>)
    requires Punctual(Initial(), events) && Punctual(Run(Initial(), events), more)
    ensures Punctual(Initial(), events + more)
    ensures Run(Initial(), events + more) == Run(Run(Initial(), events), more)
  {
    RunAppend(Initial(), events, more);
    PunctualAppend(Initial(), events, more);
  }

  lemma JustEnqueued()
    ensures Punctual(Initial(), [Enqueue(0, 0)]) && Run(Initial(), [Enqueue(0, 0)]) == AfterCrashes(0)
  {
    var after := Step(Initial(), Enqueue(0, 0));
    assert [Enqueue(0, 0)][1..] == [];
    assert Run(Initial(), [Enqueue(0, 0)]) == Run(after, []);
    assert Punctual(after, []);
  }

  lemma {:induction false} CrashesLeaveTheRow(k: nat)
    ensures Punctual(Initial(), Crashes(k)) && Run(Initial(), Crashes(k)) == AfterCrashes(k)
  {
    if k == 0 {
      JustEnqueued();
    } else {
      CrashesLeaveTheRow(k - 1);
      OneMoreCrash(k - 1);
      GoesOn(Crashes(k - 1), Crash((k - 1) * LEASE));
    }
  }

  lemma ClaimedAgain(now: Instant)
    requires 0 <= now
    ensures var claim, left := Claim(0, 0, 1, now, {}, [0]), OneRow(Some(now), {0}, map[]);
      && Punctual(left, [claim])
      && Run(left, [claim]) == OneRow(Some(now + LEASE), {0}, map[0 := Pass(now, {0}, None)])
  {
    var claim, left := Claim(0, 0, 1, now, {}, [0]), OneRow(Some(now), {0}, map[]);
    ClaimsTheRow(Some(now), {0}, map[], 0, now);
    assert [claim][1..] == [];
    assert Run(left, [claim]) == Run(Step(left, claim), []);
    assert Punctual(Step(left, claim), []);
  }

  lemma {:induction false} FirstCrash(k: nat)
    requires k >= 1
    ensures [Enqueue(0, 0)] + Crash(0) <= Crashes(k)
  {
    if k > 1 {
      FirstCrash(k - 1);
    } else {
      assert Crashes(0) == [Enqueue(0, 0)];
    }
  }

  /**
    Lease, backoff and attempts bound no republication delay, even for punctual passes that claim the row
    the instant they may: a message first published by a pass at 0 is still pending, with no attempt
    counted, and held by a pass about to publish it again `k` leases later, for every `k`.
  */
  lemma RepublicationIsUnbounded(k: nat)
    requires k >= 1
    ensures var again := Crashes(k) + [Claim(0, 0, 1, k * LEASE, {}, [0])];
      && Punctual(Initial(), again) && [Enqueue(0, 0)] + Crash(0) <= again
      && Run(Initial(), again) == OneRow(Some(k * LEASE + LEASE), {0}, map[0 := Pass(k * LEASE, {0}, None)])
  {
    CrashesLeaveTheRow(k);
    FirstCrash(k);
    Leases(k);
    ClaimedAgain(k * LEASE);
    GoesOn(Crashes(k), [Claim(0, 0, 1, k * LEASE, {}, [0])]);
  }
}
