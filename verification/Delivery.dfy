/**
  At-least-once delivery with an exactly-once effect (crates/eventing/src/consumer.rs, inbox.rs, pump.rs,
  stream.rs): a broker that keeps copies and collapses republications for two minutes, consumers whose
  inbox row and effect commit together, and the collection of old inbox rows.

  A publication may repeat at any time: a pump that dies between publishing and marking publishes again
  once its lease has lapsed.
*/
module Delivery {
  import opened Common

  /** How long the broker collapses a repeated message id. */
  const DEDUP_WINDOW: int := 120 * SECOND

  const DAY: int := 24 * 3600 * SECOND

  /** The retention of the event stream. */
  const EVENT_RETENTION: int := 7 * DAY

  /** `maxAge` bounds how old a copy is when a consumer's insert reaches the inbox. */
  datatype Windows = Windows(maxAge: nat, inbox: nat)

  /** A copy of a message in the stream. */
  datatype Copy = Copy(message: Uuid, storedAt: Instant)

  /** An open `deliver` transaction that holds the uncommitted inbox row of its message. */
  datatype Tx = Tx(message: Uuid, now: Instant)

  /**
    `last` is the broker's deduplication index, `inbox` maps a message to its `processed_at`.
    `effects` counts committed handler transactions and `first` remembers when the earliest one processed
    its message.
  */
  datatype State = State(
    clock: Instant, copies: map<nat, Copy>, sequence: nat, last: map<Uuid, Instant>,
    open: map<nat, Tx>, inbox: map<Uuid, Instant>, effects: map<Uuid, nat>, first: map<Uuid, Instant>)

  /** Every event happens at an instant of one clock; `now` is what the process read before it. */
  datatype Event =
    | Publish(message: Uuid, at: Instant)
    | Begin(worker: nat, copy: nat, now: Instant, at: Instant)
    | Commit(worker: nat, at: Instant)
    | Rollback(worker: nat, at: Instant)
    | Collect(now: Instant, chosen: set<Uuid>, at: Instant)
    | Drop(dropped: set<nat>, at: Instant)

  function Initial(): State {
    State(0, map[], 0, map[], map[], map[], map[], map[])
  }

  function Effects(s: State, m: Uuid): nat {
    if m in s.effects then s.effects[m] else 0
  }

  predicate Holding(s: State, m: Uuid) {
    exists w | w in s.open :: s.open[w].message == m
  }

  /**
    Whether the insert that opens a transaction succeeds. A duplicate writes nothing, and an insert that
    meets another transaction's uncommitted row waits for it.
  */
  predicate Opens(s: State, W: Windows, worker: nat, copy: nat, now: Instant, at: Instant) {
    && worker !in s.open && copy in s.copies
    && s.copies[copy].storedAt <= now <= at <= s.copies[copy].storedAt + W.maxAge
    && s.copies[copy].message !in s.inbox && !Holding(s, s.copies[copy].message)
  }

  predicate Collapses(s: State, m: Uuid, at: Instant) {
    m in s.last && at < s.last[m] + DEDUP_WINDOW
  }

  /** `processed_at < before`; a committed row is always processed. */
  predicate Collectable(inbox: map<Uuid, Instant>, chosen: set<Uuid>, before: Instant) {
    forall m | m in chosen :: m in inbox && inbox[m] < before
  }

  /** The effect of one event. One that cannot happen in `s` changes nothing. */
  function Step(s: State, W: Windows, e: Event): State {
    if e.at < s.clock then s
    else match e
      case Publish(m, at) =>
        if Collapses(s, m, at) then s.(clock := at)
        else s.(clock := at, copies := s.copies[s.sequence := Copy(m, at)], sequence := s.sequence + 1,
                last := s.last[m := at])
      case Begin(worker, copy, now, at) =>
        if !Opens(s, W, worker, copy, now, at) then s.(clock := at)
        else s.(clock := at,
                open := s.open[worker := Tx(s.copies[copy].message, now)])
      case Commit(worker, at) =>
        if worker !in s.open then s.(clock := at)
        else
          var tx := s.open[worker];
          s.(clock := at, open := s.open - {worker},
             inbox := s.inbox[tx.message := tx.now],
             effects := s.effects[tx.message := Effects(s, tx.message) + 1],
             first := if tx.message in s.first then s.first else s.first[tx.message := tx.now])
      case Rollback(worker, at) => s.(clock := at, open := s.open - {worker})
      case Collect(now, chosen, at) =>
        if now <= at && Collectable(s.inbox, chosen, now - W.inbox)
        then s.(clock := at, inbox := s.inbox - chosen)
        else s.(clock := at)
      case Drop(dropped, at) => s.(clock := at, copies := s.copies - dropped)
  }

  function Run(s: State, W: Windows, events: seq<Event>): State
    decreases |events|
  {
    if events == [] then s else Run(Step(s, W, events[0]), W, events[1..])
  }

  /** No copy was stored more than `delay` after the first processing of its message. */
  ghost predicate Prompt(s: State, delay: nat) {
    forall c | c in s.copies && s.copies[c].message in s.first ::
      s.copies[c].storedAt <= s.first[s.copies[c].message] + delay
  }

  /** The run never republishes later than `delay` after first processing. */
  ghost predicate PromptRun(s: State, W: Windows, events: seq<Event>, delay: nat)
    decreases |events|
  {
    Prompt(s, delay) && (events == [] || PromptRun(Step(s, W, events[0]), W, events[1..], delay))
  }

  // ---------------------------------------------------------------------------------------------
  // What every run keeps
  // ---------------------------------------------------------------------------------------------

  /** Open transactions are on distinct messages, none of which was ever processed. */
  ghost predicate OpenKept(s: State) {
    && (forall w | w in s.open ::
          s.open[w].message !in s.inbox && s.open[w].message !in s.first && s.open[w].now <= s.clock)
    && (forall v, w | v in s.open && w in s.open && s.open[v].message == s.open[w].message :: v == w)
  }

  /** A processed message has had one effect; its row is still there unless its window has passed. */
  ghost predicate FirstKept(s: State, W: Windows) {
    && s.effects.Keys == s.first.Keys && (forall m | m in s.effects :: s.effects[m] == 1)
    && (forall m | m in s.inbox :: m in s.first && s.inbox[m] == s.first[m])
    && (forall m | m in s.first :: m in s.inbox || s.first[m] + W.inbox < s.clock)
  }

  ghost predicate Kept(s: State, W: Windows) {
    OpenKept(s) && FirstKept(s, W)
  }

  /** The heart of the matter: a copy that opens a transaction is one of a message never processed. */
  lemma OpensOnlyUnprocessed(s: State, W: Windows, delay: nat, worker: nat, copy: nat, now: Instant, at: Instant)
    requires Kept(s, W) && Prompt(s, delay) && W.maxAge + delay <= W.inbox
    requires s.clock <= at && Opens(s, W, worker, copy, now, at)
    ensures s.copies[copy].message !in s.first
  {
  }

  lemma BeginKeeps(s: State, W: Windows, e: Event)
    requires Kept(s, W) && e.Begin?
    requires s.clock <= e.at && Opens(s, W, e.worker, e.copy, e.now, e.at) ==> s.copies[e.copy].message !in s.first
    ensures Kept(Step(s, W, e), W)
  {
  }

  lemma CommitKeeps(s: State, W: Windows, e: Event)
    requires Kept(s, W) && e.Commit?
    ensures Kept(Step(s, W, e), W)
  {
  }

  lemma CollectKeeps(s: State, W: Windows, e: Event)
    requires Kept(s, W) && e.Collect?
    ensures Kept(Step(s, W, e), W)
  {
  }

  lemma OthersKeep(s: State, W: Windows, e: Event)
    requires Kept(s, W) && (e.Publish? || e.Rollback? || e.Drop?)
    ensures Kept(Step(s, W, e), W)
  {
  }

  lemma StepKeeps(s: State, W: Windows, delay: nat, e: Event)
    requires Kept(s, W) && Prompt(s, delay) && W.maxAge + delay <= W.inbox
    ensures Kept(Step(s, W, e), W)
  {
    match e {
      case Begin(worker, copy, now, at) =>
        if s.clock <= at && Opens(s, W, worker, copy, now, at) {
          OpensOnlyUnprocessed(s, W, delay, worker, copy, now, at);
        }
        BeginKeeps(s, W, e);
      case Commit(_, _) => CommitKeeps(s, W, e);
      case Collect(_, _, _) => CollectKeeps(s, W, e);
      case _ => OthersKeep(s, W, e);
    }
  }

  lemma {:induction false} RunKeeps(s: State, W: Windows, delay: nat, events: seq<Event>)
    requires Kept(s, W) && W.maxAge + delay <= W.inbox && PromptRun(s, W, events, delay)
    ensures Kept(Run(s, W, events), W)
    decreases |events|
  {
    if events != [] {
      StepKeeps(s, W, delay, events[0]);
      RunKeeps(Step(s, W, events[0]), W, delay, events[1..]);
    }
  }

  /**
    Sufficiency, over every run: when the inbox window is at least the stream's age plus the longest
    republication delay, a message has at most one effect, and it has one exactly when it was committed;
    its row is in the inbox from then on until its window has passed.
  */
  lemma AtMostOneEffect(W: Windows, delay: nat, events: seq<Event>, m: Uuid)
    requires W.maxAge + delay <= W.inbox && PromptRun(Initial(), W, events, delay)
    ensures var s := Run(Initial(), W, events);
      && Effects(s, m) == (if m in s.first then 1 else 0)
      && (m in s.inbox ==> Effects(s, m) == 1)
      && (m in s.first ==> m in s.inbox || s.first[m] + W.inbox < s.clock)
  {
    RunKeeps(Initial(), W, delay, events);
  }

  // ---------------------------------------------------------------------------------------------
  // The condition is needed
  // ---------------------------------------------------------------------------------------------

  /**
    A run with two effects when the window is smaller. A pump publishes at 0 and dies before its mark;
    the message is processed at `maxAge`, republished `delay` later, its row is collected as soon as it
    may be, and the second copy is delivered before it ages out.
  */
  function TwoEffects(W: Windows, delay: nat): seq<Event> {
    var late := Max(W.maxAge + W.inbox + 1, W.maxAge + delay);
    [Publish(0, 0), Begin(0, 0, W.maxAge, W.maxAge), Commit(0, W.maxAge), Publish(0, W.maxAge + delay),
     Collect(late, {0}, late), Begin(0, 1, late, late), Commit(0, late)]
  }

  /** The state of such a run: one or two copies of message 0, its row if it is still there, its effects. */
  function Twice(clock: Instant, second: Option<Instant>, open: map<nat, Tx>, row: Option<Instant>,
                 effects: nat, processed: Instant): State {
    State(clock,
          if second.Some? then map[0 := Copy(0, 0)][1 := Copy(0, second.value)] else map[0 := Copy(0, 0)],
          if second.Some? then 2 else 1,
          map[0 := if second.Some? then second.value else 0], open,
          if row.Some? then map[0 := row.value] else map[],
          if effects == 0 then map[] else map[0 := effects],
          if effects == 0 then map[] else map[0 := processed])
  }

  /** The state before event `i` of that run. */
  function Before(W: Windows, delay: nat, i: nat): State {
    var p, r := W.maxAge, W.maxAge + delay;
    var late := Max(p + W.inbox + 1, r);
    match i
    case 0 => Initial()
    case 1 => Twice(0, None, map[], None, 0, 0)
    case 2 => Twice(p, None, map[0 := Tx(0, p)], None, 0, 0)
    case 3 => Twice(p, None, map[], Some(p), 1, p)
    case 4 => Twice(r, Some(r), map[], Some(p), 1, p)
    case 5 => Twice(late, Some(r), map[], None, 1, p)
    case 6 => Twice(late, Some(r), map[0 := Tx(0, late)], None, 1, p)
    case _ => Twice(late, Some(r), map[], Some(late), 2, p)
  }

  lemma FirstHalf(W: Windows, delay: nat, i: nat)
    requires i < 4 && DEDUP_WINDOW <= W.maxAge + delay
    ensures Step(Before(W, delay, i), W, TwoEffects(W, delay)[i]) == Before(W, delay, i + 1)
  {
    var s, e := Before(W, delay, i), TwoEffects(W, delay)[i];
    match i {
      case 0 => assert e == Publish(0, 0);
      case 1 => assert Opens(s, W, 0, 0, W.maxAge, W.maxAge);
      case 2 => assert e == Commit(0, W.maxAge);
      case 3 => assert !Collapses(s, 0, e.at);
    }
  }

  lemma SecondHalf(W: Windows, delay: nat, i: nat)
    requires 4 <= i < 7 && W.inbox < W.maxAge + delay
    ensures Step(Before(W, delay, i), W, TwoEffects(W, delay)[i]) == Before(W, delay, i + 1)
  {
    var s, e := Before(W, delay, i), TwoEffects(W, delay)[i];
    match i {
      case 4 => assert Collectable(s.inbox, {0}, e.now - W.inbox);
      case 5 => assert Opens(s, W, 0, 1, e.now, e.at);
      case 6 => assert 0 in s.open;
    }
  }

  lemma {:induction false} TwoEffectsHappen(W: Windows, delay: nat, i: nat)
    requires i <= 7 && DEDUP_WINDOW <= W.maxAge + delay && W.inbox < W.maxAge + delay
    ensures Run(Before(W, delay, i), W, TwoEffects(W, delay)[i..]) == Before(W, delay, 7)
    ensures PromptRun(Before(W, delay, i), W, TwoEffects(W, delay)[i..], delay)
    decreases 7 - i
  {
    var events := TwoEffects(W, delay);
    if i < 7 {
      if i < 4 {
        FirstHalf(W, delay, i);
      } else {
        SecondHalf(W, delay, i);
      }
      assert events[i..][1..] == events[i + 1..];
      TwoEffectsHappen(W, delay, i + 1);
    } else {
      assert events[7..] == [];
    }
  }

  ghost predicate ExactlyOnce(W: Windows, delay: nat) {
    forall events, m | PromptRun(Initial(), W, events, delay) :: Effects(Run(Initial(), W, events), m) <= 1
  }

  /**
    The effect is exactly once over all runs that republish no later than `delay` after first processing
    if and only if the inbox keeps a row for at least `maxAge + delay`. (A retention or a delay of two
    minutes is enough for the broker to store a republication at all.)
  */
  lemma ExactlyOnceNeedsTheWindow(W: Windows, delay: nat)
    requires DEDUP_WINDOW <= W.maxAge + delay
    ensures ExactlyOnce(W, delay) <==> W.maxAge + delay <= W.inbox
  {
    if W.maxAge + delay <= W.inbox {
      forall events, m | PromptRun(Initial(), W, events, delay)
        ensures Effects(Run(Initial(), W, events), m) <= 1
      {
        AtMostOneEffect(W, delay, events, m);
      }
    } else {
      TwoEffectsHappen(W, delay, 0);
      var events := TwoEffects(W, delay);
      assert events[0..] == events;
      assert PromptRun(Initial(), W, events, delay) && Effects(Run(Initial(), W, events), 0) == 2;
    }
  }

  /**
    The startup rule asks only for a window as long as the stream's retention. That is enough exactly
    when nothing is republished after it was first processed.
  */
  lemma RetentionAloneAllowsNoDelay(delay: nat)
    ensures ExactlyOnce(Windows(EVENT_RETENTION, EVENT_RETENTION), delay) <==> delay == 0
  {
    ExactlyOnceNeedsTheWindow(Windows(EVENT_RETENTION, EVENT_RETENTION), delay);
  }

  // ---------------------------------------------------------------------------------------------
  // What the stream holds
  // ---------------------------------------------------------------------------------------------

  /**
    A publication is stored once in two minutes: repeated within them it adds no copy, repeated at their end or
    later it adds one more.
  */
  lemma RepeatsCollapse(s: State, W: Windows, m: Uuid, first: Instant, again: Instant)
    requires s.clock <= first <= again && (m in s.last ==> s.last[m] + 120 * SECOND <= first)
    requires s.sequence !in s.copies && s.sequence + 1 !in s.copies
    ensures var one := Step(s, W, Publish(m, first));
      var two := Step(one, W, Publish(m, again));
      && one.copies == s.copies[s.sequence := Copy(m, first)]
      && two.copies == (if again < first + 120 * SECOND then one.copies
                        else one.copies[s.sequence + 1 := Copy(m, again)])
  {
  }

  /** Only publication adds a copy, and only retention takes one, those whose time has come and no others. */
  lemma CopiesChange(s: State, W: Windows, e: Event, c: nat)
    ensures var after := Step(s, W, e);
      && (c in after.copies && c !in s.copies ==>
            e.Publish? && c == s.sequence && after.copies[c] == Copy(e.message, e.at))
      && (c in s.copies && c !in after.copies ==> e.Drop? && c in e.dropped)
      && (c in s.copies && e.Drop? && c in e.dropped && s.clock <= e.at ==> c !in after.copies)
      && (c in s.copies && c in after.copies && !e.Publish? ==> after.copies[c] == s.copies[c])
  {
  }

  /** A first copy that is fresh, unheld and unprocessed is processed when its transaction commits: one effect, one row. */
  lemma DeliveredOnce(s: State, W: Windows, worker: nat, copy: nat, now: Instant, at: Instant)
    requires worker !in s.open && copy in s.copies && s.clock <= at
    requires s.copies[copy].storedAt <= now <= at <= s.copies[copy].storedAt + W.maxAge
    requires s.copies[copy].message !in s.inbox
    requires forall w | w in s.open :: s.open[w].message != s.copies[copy].message
    ensures var m := s.copies[copy].message;
      var after := Step(Step(s, W, Begin(worker, copy, now, at)), W, Commit(worker, at));
      && Effects(after, m) == Effects(s, m) + 1 && m in after.inbox && after.inbox[m] == now
      && after.inbox.Keys == s.inbox.Keys + {m} && after.open == s.open
      && forall k | k in s.inbox :: after.inbox[k] == s.inbox[k]
  {
    var begun := Step(s, W, Begin(worker, copy, now, at));
    assert Opens(s, W, worker, copy, now, at);
    assert begun.open - {worker} == s.open;
  }
}
