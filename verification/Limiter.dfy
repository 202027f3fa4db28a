/**
  The per-actor token bucket and the concurrency bound (crates/http/src/limit.rs).

  Tokens are counted in sixtieths, so a refill of `per_minute / 60` tokens a second is exact. Instants
  here are nanoseconds.
*/
module Limiter {
  import opened Common

  const MAX_TRACKED_ACTORS: nat := 10_000
  const NANOS_PER_SECOND: int := 1_000_000_000

  /** One token, in sixtieths. */
  const TOKEN: int := 60

  datatype Bucket = Bucket(tokens: int, at: Instant)

  type Buckets = map<Uuid, Bucket>

  datatype Decision = Admitted | Refused

  datatype Request = Request(actor: Uuid, now: Instant)

  /** Elapsed time truncated to whole seconds, and zero when the clock went back. */
  function WholeSeconds(since: Instant, now: Instant): nat {
    if now < since then 0 else (now - since) / NANOS_PER_SECOND
  }

  function Full(perMinute: nat): int {
    perMinute * TOKEN
  }

  /** The bucket's contents at `now`, capped at the burst. */
  function Refill(bucket: Bucket, perMinute: nat, now: Instant): int {
    Min(bucket.tokens + WholeSeconds(bucket.at, now) * perMinute, Full(perMinute))
  }

  datatype Decided = Decided(decision: Decision, buckets: Buckets)

  /** Spend one token of a tracked or new actor, or report that it has none. */
  function Spend(buckets: Buckets, perMinute: nat, r: Request): Decided {
    var bucket := if r.actor in buckets then buckets[r.actor] else Bucket(Full(perMinute), r.now);
    var tokens := Refill(bucket, perMinute, r.now);
    if tokens < TOKEN then Decided(Refused, buckets[r.actor := Bucket(tokens, r.now)])
    else Decided(Admitted, buckets[r.actor := Bucket(tokens - TOKEN, r.now)])
  }

  /** The actors whose bucket has not refilled by `now`. */
  function Spent(buckets: Buckets, perMinute: nat, now: Instant): set<Uuid> {
    set a | a in buckets && Refill(buckets[a], perMinute, now) < Full(perMinute)
  }

  function Reclaimed(buckets: Buckets, perMinute: nat, now: Instant): Buckets {
    map a | a in Spent(buckets, perMinute, now) :: buckets[a]
  }

  /** What the process runs: at the cap it reclaims full buckets, and refuses a new actor if none is. */
  function Bounded(buckets: Buckets, cap: nat, perMinute: nat, r: Request): Decided {
    if r.actor !in buckets && |buckets| >= cap then
      var kept := Reclaimed(buckets, perMinute, r.now);
      if |kept| >= cap then Decided(Refused, kept) else Spend(kept, perMinute, r)
    else Spend(buckets, perMinute, r)
  }

  /**
    The limiter it stands for: no actor is ever forgotten, and a request is refused without effect
    exactly when `cap` other actors have a bucket that is not full.
  */
  function Unbounded(buckets: Buckets, cap: nat, perMinute: nat, r: Request): Decided {
    var spent := Spent(buckets, perMinute, r.now);
    if r.actor !in spent && |spent| >= cap then Decided(Refused, buckets) else Spend(buckets, perMinute, r)
  }

  /** Every bucket holds between nothing and a full burst. */
  ghost predicate WithinBurst(buckets: Buckets, perMinute: nat) {
    forall a | a in buckets :: 0 <= buckets[a].tokens <= Full(perMinute)
  }

  class ActorLimiter {
    const perMinute: nat
    var buckets: Buckets

    ghost predicate Valid()
      reads this
    {
      perMinute >= 1 && |buckets| <= MAX_TRACKED_ACTORS && WithinBurst(buckets, perMinute)
    }

    constructor (rate: nat)
      ensures Valid() && perMinute == Max(rate, 1) && buckets == map[]
    {
      perMinute, buckets := Max(rate, 1), map[];
    }

    /** Reclaim the buckets that have refilled. */
    method Reclaim(now: Instant)
      modifies this
      ensures buckets == Reclaimed(old(buckets), perMinute, now)
    {
      buckets := map a | a in buckets && Refill(buckets[a], perMinute, now) < Full(perMinute) :: buckets[a];
    }

    method Decide(actor: Uuid, now: Instant) returns (decision: Decision)
      requires Valid()
      modifies this
      ensures Valid()
      ensures Decided(decision, buckets)
           == Bounded(old(buckets), MAX_TRACKED_ACTORS, perMinute, Request(actor, now))
    {
      if actor !in buckets && |buckets| >= MAX_TRACKED_ACTORS {
        Reclaim(now);
        FewerKeys(old(buckets), buckets);
        if |buckets| >= MAX_TRACKED_ACTORS {
          return Refused;
        }
      }
      ghost var kept := buckets;
      if actor !in buckets {
        buckets := buckets[actor := Bucket(Full(perMinute), now)];
      }
      var tokens := Refill(buckets[actor], perMinute, now);
      RefillStaysWithin(buckets[actor], perMinute, now);
      if tokens < TOKEN {
        decision := Refused;
      } else {
        tokens := tokens - TOKEN;
        decision := Admitted;
      }
      buckets := buckets[actor := Bucket(tokens, now)];
      assert buckets == kept[actor := Bucket(tokens, now)];
    }
  }

  /** The map after a run. */
  function BoundedAfter(buckets: Buckets, cap: nat, perMinute: nat, requests: seq<Request>): Buckets
    decreases |requests|
  {
    if requests == [] then buckets
    else BoundedAfter(Bounded(buckets, cap, perMinute, requests[0]).buckets, cap, perMinute, requests[1..])
  }

  lemma SpendStaysWithin(buckets: Buckets, perMinute: nat, r: Request)
    requires WithinBurst(buckets, perMinute)
    ensures WithinBurst(Spend(buckets, perMinute, r).buckets, perMinute)
  {
    RefillStaysWithin(if r.actor in buckets then buckets[r.actor] else Bucket(Full(perMinute), r.now), perMinute, r.now);
  }

  lemma BoundedStaysWithin(buckets: Buckets, cap: nat, perMinute: nat, r: Request)
    requires WithinBurst(buckets, perMinute) && |buckets| <= cap
    ensures var after := Bounded(buckets, cap, perMinute, r).buckets;
      WithinBurst(after, perMinute) && |after| <= cap
  {
    if r.actor !in buckets && |buckets| >= cap {
      var kept := Reclaimed(buckets, perMinute, r.now);
      FewerKeys(buckets, kept);
      SpendStaysWithin(kept, perMinute, r);
    } else {
      SpendStaysWithin(buckets, perMinute, r);
    }
  }

  /** Over every run, on clocks that may go back: no bucket is overdrawn or overfull, and the map stays bounded. */
  lemma {:induction false} TokensStayWithinBurst(buckets: Buckets, cap: nat, perMinute: nat, requests: seq<Request>)
    requires WithinBurst(buckets, perMinute) && |buckets| <= cap
    ensures var after := BoundedAfter(buckets, cap, perMinute, requests);
      WithinBurst(after, perMinute) && |after| <= cap
    decreases |requests|
  {
    if requests != [] {
      BoundedStaysWithin(buckets, cap, perMinute, requests[0]);
      TokensStayWithinBurst(Bounded(buckets, cap, perMinute, requests[0]).buckets, cap, perMinute, requests[1..]);
    }
  }

  lemma FewerKeys(all: Buckets, some: Buckets)
    requires some.Keys <= all.Keys
    ensures |some| <= |all|
  {
    Subset(some.Keys, all.Keys);
    assert |some| == |some.Keys| && |all| == |all.Keys|;
  }

  lemma {:induction false} Subset(some: set<Uuid>, all: set<Uuid>)
    requires some <= all
    ensures |some| <= |all|
    ensures |some| == |all| ==> some == all
  {
    if some != {} {
      var x :| x in some;
      Subset(some - {x}, all - {x});
    }
  }

  // ---------------------------------------------------------------------------------------------
  // Eviction is invisible
  // ---------------------------------------------------------------------------------------------

  function BoundedRun(buckets: Buckets, cap: nat, perMinute: nat, requests: seq<Request>): seq<Decision>
    decreases |requests|
  {
    if requests == [] then []
    else
      var d := Bounded(buckets, cap, perMinute, requests[0]);
      [d.decision] + BoundedRun(d.buckets, cap, perMinute, requests[1..])
  }

  function UnboundedRun(buckets: Buckets, cap: nat, perMinute: nat, requests: seq<Request>): (ds: seq<Decision>)
    ensures |ds| == |requests|
    decreases |requests|
  {
    if requests == [] then []
    else
      var d := Unbounded(buckets, cap, perMinute, requests[0]);
      [d.decision] + UnboundedRun(d.buckets, cap, perMinute, requests[1..])
  }

  ghost predicate NonDecreasing(since: Instant, requests: seq<Request>) {
    && (forall r | r in requests :: since <= r.now)
    && (forall i, j | 0 <= i < j < |requests| :: requests[i].now <= requests[j].now)
  }

  /** And was computed no later than `last`. */
  ghost predicate Sane(buckets: Buckets, perMinute: nat, last: Instant) {
    WithinBurst(buckets, perMinute) && forall a | a in buckets :: buckets[a].at <= last
  }

  /** The forgotten buckets are full, and every other bucket is the same. */
  ghost predicate Mirrors(bounded: Buckets, unbounded: Buckets, perMinute: nat, last: Instant) {
    && Sane(unbounded, perMinute, last)
    && (forall a | a in bounded :: a in unbounded && bounded[a] == unbounded[a])
    && (forall a | a in unbounded && a !in bounded ::
          Refill(unbounded[a], perMinute, last) == Full(perMinute))
  }

  lemma MoreSecondsMoreTokens(less: nat, more: nat, perMinute: nat)
    requires less <= more
    ensures less * perMinute <= more * perMinute
  {
  }

  lemma SecondsAdd(a: Instant, b: Instant, c: Instant)
    requires a <= b <= c
    ensures WholeSeconds(a, b) + WholeSeconds(b, c) <= WholeSeconds(a, c)
  {
  }

  lemma FullStaysFull(bucket: Bucket, perMinute: nat, last: Instant, now: Instant)
    requires bucket.at <= last <= now && Refill(bucket, perMinute, last) == Full(perMinute)
    ensures Refill(bucket, perMinute, now) == Full(perMinute)
  {
    SecondsAdd(bucket.at, last, now);
    MoreSecondsMoreTokens(WholeSeconds(bucket.at, last), WholeSeconds(bucket.at, now), perMinute);
  }

  lemma RefillStaysWithin(bucket: Bucket, perMinute: nat, now: Instant)
    requires 0 <= bucket.tokens <= Full(perMinute)
    ensures bucket.tokens <= Refill(bucket, perMinute, now) <= Full(perMinute)
  {
    MoreSecondsMoreTokens(0, WholeSeconds(bucket.at, now), perMinute);
  }

  lemma SpendIsSane(buckets: Buckets, perMinute: nat, last: Instant, r: Request)
    requires Sane(buckets, perMinute, last) && last <= r.now
    ensures Sane(Spend(buckets, perMinute, r).buckets, perMinute, r.now)
  {
    RefillStaysWithin(if r.actor in buckets then buckets[r.actor] else Bucket(Full(perMinute), r.now), perMinute, r.now);
  }

  lemma ForgottenAreFull(bounded: Buckets, unbounded: Buckets, perMinute: nat, last: Instant, now: Instant)
    requires Mirrors(bounded, unbounded, perMinute, last) && last <= now
    ensures Mirrors(bounded, unbounded, perMinute, now)
    ensures Spent(bounded, perMinute, now) == Spent(unbounded, perMinute, now)
  {
    forall a | a in unbounded && a !in bounded
      ensures Refill(unbounded[a], perMinute, now) == Full(perMinute)
    {
      FullStaysFull(unbounded[a], perMinute, last, now);
    }
  }

  lemma SpendMirrors(bounded: Buckets, unbounded: Buckets, perMinute: nat, r: Request)
    requires Mirrors(bounded, unbounded, perMinute, r.now)
    ensures var b, u := Spend(bounded, perMinute, r), Spend(unbounded, perMinute, r);
      b.decision == u.decision && Mirrors(b.buckets, u.buckets, perMinute, r.now)
  {
    assert WholeSeconds(r.now, r.now) == 0;
    SpendIsSane(unbounded, perMinute, r.now, r);
  }

  lemma StepMirrors(bounded: Buckets, unbounded: Buckets, cap: nat, perMinute: nat, last: Instant, r: Request)
    requires Mirrors(bounded, unbounded, perMinute, last) && last <= r.now && |bounded| <= cap
    ensures var b, u := Bounded(bounded, cap, perMinute, r), Unbounded(unbounded, cap, perMinute, r);
      && b.decision == u.decision && |b.buckets| <= cap
      && Mirrors(b.buckets, u.buckets, perMinute, r.now)
  {
    ForgottenAreFull(bounded, unbounded, perMinute, last, r.now);
    var spent := Spent(bounded, perMinute, r.now);
    Subset(spent, bounded.Keys);
    assert |bounded| == |bounded.Keys|;
    if r.actor !in bounded && |bounded| >= cap {
      var kept := Reclaimed(bounded, perMinute, r.now);
      assert kept.Keys == spent && |kept| == |kept.Keys|;
      assert Mirrors(kept, unbounded, perMinute, r.now);
      SpendMirrors(kept, unbounded, perMinute, r);
    } else {
      SpendMirrors(bounded, unbounded, perMinute, r);
    }
  }

  /**
    With a clock that does not go back, forgetting full buckets at the cap is invisible: over every
    run the bounded map decides every request as the limiter that forgets nothing.
  */
  lemma {:induction false} EvictionIsInvisible(bounded: Buckets, unbounded: Buckets, cap: nat, perMinute: nat,
                                               last: Instant, requests: seq<Request>)
    requires Mirrors(bounded, unbounded, perMinute, last) && |bounded| <= cap
    requires NonDecreasing(last, requests)
    ensures BoundedRun(bounded, cap, perMinute, requests) == UnboundedRun(unbounded, cap, perMinute, requests)
    decreases |requests|
  {
    if requests != [] {
      var r := requests[0];
      assert r in requests;
      StepMirrors(bounded, unbounded, cap, perMinute, last, r);
      TailNonDecreasing(last, requests);
      EvictionIsInvisible(Bounded(bounded, cap, perMinute, r).buckets,
                          Unbounded(unbounded, cap, perMinute, r).buckets, cap, perMinute, r.now, requests[1..]);
    }
  }

  lemma TailNonDecreasing(last: Instant, requests: seq<Request>)
    requires requests != [] && NonDecreasing(last, requests)
    ensures NonDecreasing(requests[0].now, requests[1..])
  {
    forall r | r in requests[1..] ensures requests[0].now <= r.now {
      var j :| 0 < j < |requests| && requests[j] == r;
    }
  }

  // ---------------------------------------------------------------------------------------------
  // The rate
  // ---------------------------------------------------------------------------------------------

  /** How many requests of `actor` dated between `from` and `to` were admitted. */
  function AdmittedBetween(requests: seq<Request>, decisions: seq<Decision>, actor: Uuid,
                           from: Instant, to: Instant): nat
    requires |requests| == |decisions|
    decreases |requests|
  {
    if requests == [] then 0
    else
      (if requests[0].actor == actor && from <= requests[0].now <= to && decisions[0] == Admitted then 1 else 0)
      + AdmittedBetween(requests[1..], decisions[1..], actor, from, to)
  }

  lemma {:induction false} NoneAfter(requests: seq<Request>, decisions: seq<Decision>, actor: Uuid,
                                     from: Instant, to: Instant)
    requires |requests| == |decisions| && forall r | r in requests :: to < r.now
    ensures AdmittedBetween(requests, decisions, actor, from, to) == 0
    decreases |requests|
  {
    if requests != [] {
      assert requests[0] in requests;
      NoneAfter(requests[1..], decisions[1..], actor, from, to);
    }
  }

  /** What one spend of the actor pays for: its refill, less a token if it was admitted. */
  lemma SpendPays(buckets: Buckets, perMinute: nat, last: Instant, r: Request, to: Instant)
    requires Sane(buckets, perMinute, last) && last <= r.now <= to && r.actor in buckets
    ensures var d := Spend(buckets, perMinute, r);
            var before, after := buckets[r.actor], d.buckets[r.actor];
      (if d.decision == Admitted then TOKEN else 0) + after.tokens + perMinute * WholeSeconds(r.now, to)
      <= before.tokens + perMinute * WholeSeconds(before.at, to)
  {
    var before := buckets[r.actor];
    SecondsAdd(before.at, r.now, to);
    var first, second := WholeSeconds(before.at, r.now), WholeSeconds(r.now, to);
    MoreSecondsMoreTokens(first + second, WholeSeconds(before.at, to), perMinute);
    assert (first + second) * perMinute == first * perMinute + second * perMinute;
  }

  /** From a tracked bucket on, admissions are paid for by its tokens and its refills. */
  lemma {:induction false} TrackedPays(buckets: Buckets, cap: nat, perMinute: nat, last: Instant,
                                       requests: seq<Request>, actor: Uuid, from: Instant, to: Instant)
    requires Sane(buckets, perMinute, last) && NonDecreasing(last, requests)
    requires actor in buckets
    ensures var ds := UnboundedRun(buckets, cap, perMinute, requests);
      TOKEN * AdmittedBetween(requests, ds, actor, from, to)
      <= buckets[actor].tokens + perMinute * WholeSeconds(buckets[actor].at, to)
    decreases |requests|
  {
    MoreSecondsMoreTokens(0, WholeSeconds(buckets[actor].at, to), perMinute);
    if requests != [] {
      var r := requests[0];
      assert r in requests;
      TailNonDecreasing(last, requests);
      var ds := UnboundedRun(buckets, cap, perMinute, requests);
      if r.now > to {
        NoneAfter(requests, ds, actor, from, to);
      } else {
        var d := Unbounded(buckets, cap, perMinute, r);
        SpendIsSane(buckets, perMinute, last, r);
        TrackedPays(d.buckets, cap, perMinute, r.now, requests[1..], actor, from, to);
        assert ds[1..] == UnboundedRun(d.buckets, cap, perMinute, requests[1..]);
        if r.actor == actor {
          SpendPays(buckets, perMinute, last, r, to);
        }
      }
    }
  }

  /** An admission leaves the actor's bucket a token short of full, or less, and dated at the request. */
  lemma AdmissionTakesAToken(buckets: Buckets, cap: nat, perMinute: nat, last: Instant, r: Request)
    requires Sane(buckets, perMinute, last) && last <= r.now
    requires Unbounded(buckets, cap, perMinute, r).decision == Admitted
    ensures var after := Unbounded(buckets, cap, perMinute, r).buckets;
      && Sane(after, perMinute, r.now) && r.actor in after && after[r.actor].at == r.now
      && after[r.actor].tokens + TOKEN <= Full(perMinute)
  {
    SpendIsSane(buckets, perMinute, last, r);
    RefillStaysWithin(if r.actor in buckets then buckets[r.actor] else Bucket(Full(perMinute), r.now), perMinute, r.now);
  }

  /** What the first admission of an actor in the interval leaves for the rest of it. */
  lemma FirstAdmission(buckets: Buckets, cap: nat, perMinute: nat, last: Instant, requests: seq<Request>,
                       from: Instant, to: Instant)
    requires Sane(buckets, perMinute, last) && NonDecreasing(last, requests) && requests != []
    requires var r := requests[0];
      last <= r.now && from <= r.now <= to && Unbounded(buckets, cap, perMinute, r).decision == Admitted
    ensures var d := Unbounded(buckets, cap, perMinute, requests[0]);
      var later := UnboundedRun(d.buckets, cap, perMinute, requests[1..]);
      TOKEN + TOKEN * AdmittedBetween(requests[1..], later, requests[0].actor, from, to)
      <= Full(perMinute) + perMinute * WholeSeconds(from, to)
  {
    var r := requests[0];
    TailNonDecreasing(last, requests);
    AdmissionTakesAToken(buckets, cap, perMinute, last, r);
    TrackedPays(Unbounded(buckets, cap, perMinute, r).buckets, cap, perMinute, r.now, requests[1..], r.actor, from, to);
    SecondsAdd(from, r.now, to);
    MoreSecondsMoreTokens(WholeSeconds(r.now, to), WholeSeconds(from, to), perMinute);
  }

  lemma {:induction false} UnboundedRate(buckets: Buckets, cap: nat, perMinute: nat, last: Instant,
                                         requests: seq<Request>, actor: Uuid, from: Instant, to: Instant)
    requires Sane(buckets, perMinute, last) && NonDecreasing(last, requests) && from <= to
    ensures var ds := UnboundedRun(buckets, cap, perMinute, requests);
      TOKEN * AdmittedBetween(requests, ds, actor, from, to) <= Full(perMinute) + perMinute * WholeSeconds(from, to)
    decreases |requests|
  {
    if requests == [] {
      MoreSecondsMoreTokens(0, WholeSeconds(from, to), perMinute);
    } else {
      var r := requests[0];
      assert r in requests;
      var ds := UnboundedRun(buckets, cap, perMinute, requests);
      var d := Unbounded(buckets, cap, perMinute, r);
      assert ds[0] == d.decision && ds[1..] == UnboundedRun(d.buckets, cap, perMinute, requests[1..]);
      if d.decision == Admitted && r.actor == actor && from <= r.now <= to {
        FirstAdmission(buckets, cap, perMinute, last, requests, from, to);
      } else {
        TailNonDecreasing(last, requests);
        SpendIsSane(buckets, perMinute, last, r);
        UnboundedRate(d.buckets, cap, perMinute, r.now, requests[1..], actor, from, to);
      }
    }
  }

  /**
    With a clock that does not go back, the limiter as it runs, evictions included, admits of one actor
    between two instants at most `per_minute` requests and `per_minute / 60` more for each whole second
    between them.
  */
  lemma RateBound(cap: nat, perMinute: nat, since: Instant, requests: seq<Request>, actor: Uuid,
                  from: Instant, to: Instant)
    requires NonDecreasing(since, requests) && from <= to
    ensures |BoundedRun(map[], cap, perMinute, requests)| == |requests|
    ensures TOKEN * AdmittedBetween(requests, BoundedRun(map[], cap, perMinute, requests), actor, from, to)
         <= TOKEN * perMinute + perMinute * WholeSeconds(from, to)
  {
    EvictionIsInvisible(map[], map[], cap, perMinute, since, requests);
    UnboundedRate(map[], cap, perMinute, since, requests, actor, from, to);
  }

  function Repeat(r: Request, n: nat): seq<Request> {
    if n == 0 then [] else [r] + Repeat(r, n - 1)
  }

  /** A burst spends exactly what the bucket holds: `k` tokens admit `k` requests and no more. */
  lemma {:induction false} BurstSpendsTheBucket(buckets: Buckets, cap: nat, perMinute: nat, r: Request,
                                                k: nat, n: nat)
    requires 1 <= perMinute && k <= perMinute && r.actor in buckets && buckets[r.actor] == Bucket(k * TOKEN, r.now)
    requires k == perMinute ==> |Spent(buckets, perMinute, r.now)| < cap
    ensures var ds := UnboundedRun(buckets, cap, perMinute, Repeat(r, n));
      |ds| == n && forall i | 0 <= i < n :: ds[i] == Admitted <==> i < k
    decreases n
  {
    if n > 0 {
      assert WholeSeconds(r.now, r.now) == 0;
      var d := Unbounded(buckets, cap, perMinute, r);
      assert k < perMinute ==> r.actor in Spent(buckets, perMinute, r.now);
      assert Repeat(r, n)[1..] == Repeat(r, n - 1);
      if k == 0 {
        assert d.buckets[r.actor] == Bucket(0, r.now);
        BurstSpendsTheBucket(d.buckets, cap, perMinute, r, 0, n - 1);
      } else {
        assert d.decision == Admitted && d.buckets[r.actor] == Bucket((k - 1) * TOKEN, r.now);
        BurstSpendsTheBucket(d.buckets, cap, perMinute, r, k - 1, n - 1);
      }
    }
  }

  // ---------------------------------------------------------------------------------------------
  // What an actor can count on
  // ---------------------------------------------------------------------------------------------

  lemma SecondsElapsed(at: Instant, now: Instant, k: nat)
    requires at + k * NANOS_PER_SECOND <= now < at + (k + 1) * NANOS_PER_SECOND
    ensures WholeSeconds(at, now) == k
  {
  }

  /** After `k` whole seconds a bucket holds `k / 60` of the rate more, up to the burst. */
  lemma RefillExactly(bucket: Bucket, perMinute: nat, now: Instant, k: nat)
    requires bucket.at + k * NANOS_PER_SECOND <= now < bucket.at + (k + 1) * NANOS_PER_SECOND
    ensures Refill(bucket, perMinute, now) == Min(bucket.tokens + k * perMinute, 60 * perMinute)
  {
    SecondsElapsed(bucket.at, now, k);
  }

  /** Whatever was spent, a minute of silence gives the whole burst back. */
  lemma FullAfterAMinute(bucket: Bucket, perMinute: nat, now: Instant)
    requires 0 <= bucket.tokens <= Full(perMinute) && bucket.at + 60 * NANOS_PER_SECOND <= now
    ensures Refill(bucket, perMinute, now) == 60 * perMinute
  {
    assert WholeSeconds(bucket.at, now) >= 60;
    MoreSecondsMoreTokens(60, WholeSeconds(bucket.at, now), perMinute);
  }

  /**
    What the limiter as it runs decides: a tracked actor is admitted exactly when its bucket holds a token;
    an actor it does not track exactly when there is room, or a bucket that is full can be forgotten.
  */
  lemma DecidesExactly(buckets: Buckets, cap: nat, perMinute: nat, r: Request)
    requires perMinute >= 1 && |buckets| <= cap
    ensures Bounded(buckets, cap, perMinute, r).decision == Admitted <==>
      if r.actor in buckets then Refill(buckets[r.actor], perMinute, r.now) >= 60
      else |buckets| < cap || exists a | a in buckets :: Refill(buckets[a], perMinute, r.now) >= 60 * perMinute
  {
    var spent := Spent(buckets, perMinute, r.now);
    var kept := Reclaimed(buckets, perMinute, r.now);
    assert kept.Keys == spent && |kept| == |kept.Keys| && |buckets| == |buckets.Keys|;
    Subset(spent, buckets.Keys);
    assert WholeSeconds(r.now, r.now) == 0;
    if r.actor !in buckets && spent == buckets.Keys {
      forall a | a in buckets ensures Refill(buckets[a], perMinute, r.now) < 60 * perMinute {
        assert a in spent;
      }
    }
  }

  /** Each of the actor's requests comes at least `gap` seconds after the one before; all actors are tracked. */
  ghost predicate Patient(buckets: Buckets, requests: seq<Request>, actor: Uuid, gap: nat, since: Instant)
    decreases |requests|
  {
    requests == []
    || (requests[0].actor in buckets
        && if requests[0].actor == actor
           then since + gap * NANOS_PER_SECOND <= requests[0].now && Patient(buckets, requests[1..], actor, gap, requests[0].now)
           else Patient(buckets, requests[1..], actor, gap, since))
  }

  lemma {:induction false} PatienceIsOfKeys(a: Buckets, b: Buckets, requests: seq<Request>, actor: Uuid, gap: nat,
                                            since: Instant)
    requires a.Keys == b.Keys && Patient(a, requests, actor, gap, since)
    ensures Patient(b, requests, actor, gap, since)
    decreases |requests|
  {
    if requests != [] {
      PatienceIsOfKeys(a, b, requests[1..], actor, gap, if requests[0].actor == actor then requests[0].now else since);
    }
  }

  lemma TrackedIsSpentOn(buckets: Buckets, cap: nat, perMinute: nat, r: Request)
    requires r.actor in buckets && |buckets| <= cap
    ensures Unbounded(buckets, cap, perMinute, r) == Spend(buckets, perMinute, r)
    ensures Spend(buckets, perMinute, r).buckets.Keys == buckets.Keys
    ensures |Spend(buckets, perMinute, r).buckets| == |buckets|
  {
    var spent := Spent(buckets, perMinute, r.now);
    Subset(spent, buckets.Keys);
    var after := Spend(buckets, perMinute, r).buckets;
    assert after.Keys == buckets.Keys;
    assert |buckets| == |buckets.Keys| && |after| == |after.Keys|;
    if r.actor !in spent {
      assert spent != buckets.Keys;
    }
  }

  /** An actor that leaves a token's worth of seconds between its requests is never refused, whatever others do. */
  lemma {:induction false} PatientActorsAreServed(buckets: Buckets, cap: nat, perMinute: nat, last: Instant,
                                                  requests: seq<Request>, actor: Uuid, gap: nat)
    requires perMinute >= 1 && gap * perMinute >= TOKEN && |buckets| <= cap
    requires Sane(buckets, perMinute, last) && NonDecreasing(last, requests) && actor in buckets
    requires Patient(buckets, requests, actor, gap, buckets[actor].at)
    ensures var ds := UnboundedRun(buckets, cap, perMinute, requests);
      forall i | 0 <= i < |requests| && requests[i].actor == actor :: ds[i] == Admitted
    decreases |requests|
  {
    if requests != [] {
      var r := requests[0];
      assert r in requests;
      TrackedIsSpentOn(buckets, cap, perMinute, r);
      SpendIsSane(buckets, perMinute, last, r);
      TailNonDecreasing(last, requests);
      var after := Spend(buckets, perMinute, r).buckets;
      if r.actor == actor {
        TokenAfter(buckets[actor], perMinute, r.now, gap);
      }
      PatienceIsOfKeys(buckets, after, requests[1..], actor, gap, after[actor].at);
      PatientActorsAreServed(after, cap, perMinute, r.now, requests[1..], actor, gap);
    }
  }

  lemma TokenAfter(bucket: Bucket, perMinute: nat, now: Instant, gap: nat)
    requires 0 <= bucket.tokens && perMinute >= 1 && gap * perMinute >= TOKEN
    requires bucket.at + gap * NANOS_PER_SECOND <= now
    ensures Refill(bucket, perMinute, now) >= TOKEN
  {
    assert WholeSeconds(bucket.at, now) >= gap;
    MoreSecondsMoreTokens(gap, WholeSeconds(bucket.at, now), perMinute);
  }

  /** Requests of one actor, each less than a second after the one before. */
  ghost predicate Polls(requests: seq<Request>, actor: Uuid, since: Instant)
    decreases |requests|
  {
    requests == []
    || (requests[0].actor == actor && since <= requests[0].now < since + NANOS_PER_SECOND
        && Polls(requests[1..], actor, requests[0].now))
  }

  /**
    Seconds are truncated at every decision, refusals included: an actor that asks again before a second has
    passed gets what its bucket holds and then nothing, however long it goes on asking.
  */
  lemma {:induction false} PollingStarves(buckets: Buckets, cap: nat, perMinute: nat, requests: seq<Request>, actor: Uuid)
    requires actor in buckets && 0 <= buckets[actor].tokens < Full(perMinute)
    requires Polls(requests, actor, buckets[actor].at)
    ensures var ds := UnboundedRun(buckets, cap, perMinute, requests);
      forall i | 0 <= i < |requests| :: ds[i] == Admitted <==> (i + 1) * TOKEN <= buckets[actor].tokens
    decreases |requests|
  {
    if requests != [] {
      var r := requests[0];
      SecondsElapsed(buckets[actor].at, r.now, 0);
      assert Refill(buckets[actor], perMinute, r.now) == buckets[actor].tokens;
      assert actor in Spent(buckets, perMinute, r.now);
      var d := Unbounded(buckets, cap, perMinute, r);
      PollingStarves(d.buckets, cap, perMinute, requests[1..], actor);
      var ds := UnboundedRun(buckets, cap, perMinute, requests);
      assert ds[1..] == UnboundedRun(d.buckets, cap, perMinute, requests[1..]);
      forall i | 0 < i < |requests| ensures ds[i] == Admitted <==> (i + 1) * TOKEN <= buckets[actor].tokens {
        assert ds[i] == ds[1..][i - 1];
      }
    }
  }

  // ---------------------------------------------------------------------------------------------
  // The concurrency bound
  // ---------------------------------------------------------------------------------------------

  /** The counter, the requests being served, and the refused ones whose guard is not yet dropped. */
  datatype Listener = Listener(inFlight: nat, serving: set<Uuid>, refusing: set<Uuid>)

  datatype Arrival = Enter(request: Uuid) | Leave(request: Uuid)

  /** `shed` takes its guard before it decides; the guard is dropped however the request ends. */
  function Shed(l: Listener, limit: nat, e: Arrival): Listener {
    match e
    case Enter(r) =>
      if r in l.serving || r in l.refusing then l
      else if l.inFlight >= limit then Listener(l.inFlight + 1, l.serving, l.refusing + {r})
      else Listener(l.inFlight + 1, l.serving + {r}, l.refusing)
    case Leave(r) =>
      if (r in l.serving || r in l.refusing) && l.inFlight > 0
      then Listener(l.inFlight - 1, l.serving - {r}, l.refusing - {r}) else l
  }

  function ShedAll(l: Listener, limit: nat, es: seq<Arrival>): Listener
    decreases |es|
  {
    if es == [] then l else ShedAll(Shed(l, limit, es[0]), limit, es[1..])
  }

  ghost predicate Counted(l: Listener, limit: nat) {
    l.serving !! l.refusing && l.inFlight == |l.serving| + |l.refusing| && |l.serving| <= limit
  }

  /** However requests arrive and end, at most `limit` are served at once and every guard is counted. */
  lemma {:induction false} NeverMoreThanTheLimit(l: Listener, limit: nat, es: seq<Arrival>)
    requires Counted(l, limit)
    ensures Counted(ShedAll(l, limit, es), limit)
    decreases |es|
  {
    if es != [] {
      var next := Shed(l, limit, es[0]);
      assert Counted(next, limit);
      NeverMoreThanTheLimit(next, limit, es[1..]);
    }
  }

  /** A request is served exactly when fewer than `limit` others hold a guard, and its guard is given back when it ends. */
  lemma ServedExactly(l: Listener, limit: nat, r: Uuid)
    requires Counted(l, limit) && r !in l.serving && r !in l.refusing
    ensures var entered := Shed(l, limit, Enter(r));
      && (r in entered.serving <==> |l.serving| + |l.refusing| < limit)
      && (r in entered.serving || r in entered.refusing)
      && Shed(entered, limit, Leave(r)) == l
  {
    var entered := Shed(l, limit, Enter(r));
    assert entered.serving - {r} == l.serving && entered.refusing - {r} == l.refusing;
  }
}
