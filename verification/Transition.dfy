/**
  The operation transition table (crates/operations/src/transition.rs), and what it means for whole
  runs of statuses that arrive reordered and repeated.
*/
module Transition {

  datatype Status = Accepted | Queued | Running | Succeeded | PartiallySucceeded | Failed | Cancelled

  datatype Outcome = Advance(to: Status) | Duplicate | Stale | Conflict

  const TERMINAL_RANK: nat := 3

  function Rank(status: Status): nat {
    match status
    case Accepted => 0
    case Queued => 1
    case Running => 2
    case Succeeded | PartiallySucceeded | Failed | Cancelled => TERMINAL_RANK
  }

  predicate IsTerminal(status: Status) {
    Rank(status) == TERMINAL_RANK
  }

  /** Decide what an incoming status means for an operation currently in `current`. */
  function Apply(current: Status, incoming: Status): Outcome {
    if current == incoming then Duplicate
    else if Rank(incoming) > Rank(current) then Advance(incoming)
    else if Rank(incoming) < Rank(current) then Stale
    else Conflict
  }

  /** The status an operation has after one incoming status: only an advance moves it. */
  function Settle(current: Status, incoming: Status): Status {
    match Apply(current, incoming)
    case Advance(to) => to
    case _ => current
  }

  function SettleAll(current: Status, incoming: seq<Status>): Status
    decreases |incoming|
  {
    if incoming == [] then current else SettleAll(Settle(current, incoming[0]), incoming[1..])
  }

  /** No two of the statuses are different terminal ones. */
  ghost predicate TerminalsAgree(statuses: set<Status>) {
    forall s, t | s in statuses && t in statuses && IsTerminal(s) && IsTerminal(t) :: s == t
  }

  ghost function Seen(current: Status, incoming: seq<Status>): set<Status> {
    {current} + set s | s in incoming
  }

  /** A status that was seen and that no seen status outranks. */
  ghost predicate IsHighest(top: Status, seen: set<Status>) {
    top in seen && forall s | s in seen :: Rank(s) <= Rank(top)
  }

  /** Nothing but two different terminal outcomes conflicts, and a conflict never moves the status. */
  lemma OnlyTerminalsConflict(current: Status, incoming: Status)
    ensures Apply(current, incoming) == Conflict
       <==> current != incoming && IsTerminal(current) && IsTerminal(incoming)
    ensures IsTerminal(current) ==> Settle(current, incoming) == current
    ensures Apply(current, incoming).Advance? <==> Rank(Settle(current, incoming)) > Rank(current)
  {
  }

  lemma {:induction false} RunEndsHighest(current: Status, incoming: seq<Status>)
    ensures IsHighest(SettleAll(current, incoming), Seen(current, incoming))
    decreases |incoming|
  {
    if incoming != [] {
      var next := Settle(current, incoming[0]);
      RunEndsHighest(next, incoming[1..]);
      assert incoming == [incoming[0]] + incoming[1..];
    }
  }

  lemma HighestIsUnique(seen: set<Status>, a: Status, b: Status)
    requires TerminalsAgree(seen) && IsHighest(a, seen) && IsHighest(b, seen)
    ensures a == b
  {
    assert Rank(a) == Rank(b);
    if IsTerminal(a) {
      assert IsTerminal(b);
    }
  }

  /**
    Convergence: two runs that carry the same statuses, in any order and any number of times each,
    end in the same status, the highest-ranked one, provided their terminal statuses agree.
  */
  lemma Convergence(current: Status, one: seq<Status>, other: seq<Status>)
    requires Seen(current, one) == Seen(current, other)
    requires TerminalsAgree(Seen(current, one))
    ensures SettleAll(current, one) == SettleAll(current, other)
    ensures IsHighest(SettleAll(current, one), Seen(current, one))
  {
    RunEndsHighest(current, one);
    RunEndsHighest(current, other);
    HighestIsUnique(Seen(current, one), SettleAll(current, one), SettleAll(current, other));
  }

  lemma {:induction false} TerminalIsFinal(current: Status, incoming: seq<Status>)
    requires IsTerminal(current)
    ensures SettleAll(current, incoming) == current
    decreases |incoming|
  {
    if incoming != [] {
      TerminalIsFinal(current, incoming[1..]);
    }
  }

  lemma {:induction false} SettleAllAppend(current: Status, first: seq<Status>, last: seq<Status>)
    ensures SettleAll(current, first + last) == SettleAll(SettleAll(current, first), last)
    decreases |first|
  {
    if first == [] {
      assert first + last == last;
    } else {
      SettleAllAppend(Settle(current, first[0]), first[1..], last);
      assert (first + last)[1..] == first[1..] + last;
    }
  }

  /**
    When terminals disagree, the first one to arrive stays forever: every different terminal after it
    is a conflict and every repetition of it a duplicate.
  */
  lemma FirstTerminalWins(current: Status, before: seq<Status>, terminal: Status, after: seq<Status>)
    requires forall s | s in Seen(current, before) :: !IsTerminal(s)
    requires IsTerminal(terminal)
    ensures SettleAll(current, before + [terminal] + after) == terminal
    ensures forall s | s in after && IsTerminal(s) && s != terminal :: Apply(terminal, s) == Conflict
    ensures forall s | s in after && !IsTerminal(s) :: Apply(terminal, s) == Stale
  {
    RunEndsHighest(current, before);
    SettleAllAppend(current, before, [terminal]);
    assert SettleAll(current, before + [terminal]) == terminal;
    SettleAllAppend(current, before + [terminal], after);
    TerminalIsFinal(terminal, after);
  }
}
