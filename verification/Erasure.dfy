/**
  Erasing single stream messages at a producer's request (crates/eventing/src/stream_erasure.rs), when an
  attempt may fail part way and the command is redelivered, while others append and the broker expires.
*/
module Erasure {
  import opened Common

  datatype Producer = ChatGpt | Claude | OtherProducer(name: string)

  /** The subjects of the event stream: seven carry content, the tombstone and the rest do not. */
  datatype Subject =
    | ArchiveImported | ConversationAdded | ConversationUpdated
    | ProjectAdded | ProjectUpdated | ArtifactAdded | ArtifactUpdated
    | Tombstone | OtherSubject(name: string)

  /** A stored message; an envelope that cannot be read has neither member. */
  datatype Stored = Stored(subject: Subject, producer: Option<Producer>, tenant: Option<Uuid>)

  /** The checked members of a delivered command. */
  datatype Command = Command(
    onSubject: bool, parses: bool, producer: Producer, sender: Producer, tenant: Option<Uuid>,
    aggregate: string, owner: Uuid, reference: string, sequences: seq<nat>)

  datatype Request = Request(producer: Producer, owner: Uuid, sequences: seq<nat>)

  datatype Disposition = Erased | Missing | Refused

  datatype Failure = Bus | Persistence

  datatype Counts = Counts(erased: nat, missing: nat, refused: nat) {
    function Add(d: Disposition): Counts {
      match d
      case Erased => this.(erased := erased + 1)
      case Missing => this.(missing := missing + 1)
      case Refused => this.(refused := refused + 1)
    }
  }

  predicate Erasable(subject: Subject) {
    !subject.Tombstone? && !subject.OtherSubject?
  }

  /** The request of a command that passes every check, else nothing. */
  function Read(command: Command): Option<Request> {
    if !command.onSubject || !command.parses then None
    else if command.producer.OtherProducer? || command.producer != command.sender then None
    else if command.tenant != Some(command.owner) || command.aggregate != command.reference then None
    else Some(Request(command.producer, command.owner, command.sequences))
  }

  predicate Owns(request: Request, stored: Stored) {
    Erasable(stored.subject) && stored.producer == Some(request.producer) && stored.tenant == Some(request.owner)
  }

  /** The stream, the next sequence, and the messages the broker has expired so far. */
  datatype Stream = Stream(messages: map<nat, Stored>, next: nat, expired: set<nat>)

  predicate Valid(s: Stream) {
    forall q | q in s.messages :: q < s.next
  }

  /** What others do to the stream. */
  datatype Change = Append(stored: Stored) | Expire(sequences: set<nat>)

  function Apply(s: Stream, c: Change): Stream {
    match c
    case Append(stored) => s.(messages := s.messages[s.next := stored], next := s.next + 1)
    case Expire(sequences) =>
      s.(messages := s.messages - sequences, expired := s.expired + (s.messages.Keys * sequences))
  }

  function ApplyAll(s: Stream, changes: seq<Change>): Stream
    decreases |changes|
  {
    if changes == [] then s else ApplyAll(Apply(s, changes[0]), changes[1..])
  }

  function Delete(s: Stream, q: nat): Stream {
    s.(messages := s.messages - {q})
  }

  /** How the broker serves one sequence: a failed delete may still have happened. */
  datatype Service = Serves | ReadFails | DeleteFails(deleted: bool)

  /** One visit: what others do before the read and between read and delete, and how it is served. */
  datatype Visit = Visit(before: seq<Change>, between: seq<Change>, service: Service)

  datatype Disposed = Disposed(stream: Stream, answer: Result<Disposition, Failure>)

  function Dispose(s: Stream, request: Request, q: nat, visit: Visit): Disposed {
    var read := ApplyAll(s, visit.before);
    if visit.service.ReadFails? then Disposed(read, Err(Bus))
    else if q !in read.messages then Disposed(read, Ok(Missing))
    else if !Owns(request, read.messages[q]) then Disposed(read, Ok(Refused))
    else
      var later := ApplyAll(read, visit.between);
      if visit.service.DeleteFails? then
        Disposed(if visit.service.deleted then Delete(later, q) else later, Err(Bus))
      else if q in later.messages then Disposed(Delete(later, q), Ok(Erased)) else Disposed(later, Ok(Missing))
  }

  datatype Handled = Handled(stream: Stream, counts: Counts, failed: bool)

  /** The first `n` sequences of one attempt; a failure ends the attempt. */
  function Handle(s: Stream, request: Request, visits: seq<Visit>, n: nat): Handled
    requires n <= |visits| == |request.sequences|
  {
    if n == 0 then Handled(s, Counts(0, 0, 0), false)
    else
      var before := Handle(s, request, visits, n - 1);
      if before.failed then before
      else
        var disposed := Dispose(before.stream, request, request.sequences[n - 1], visits[n - 1]);
        match disposed.answer
        case Err(_) => Handled(disposed.stream, before.counts, true)
        case Ok(d) => Handled(disposed.stream, before.counts.Add(d), false)
  }

  /** The event stream as the handler sees it. */
  class Broker {
    var messages: map<nat, Stored>
    var next: nat
    var expired: set<nat>

    constructor ()
      ensures View() == Stream(map[], 0, {}) && Valid(View())
    {
      messages, next, expired := map[], 0, {};
    }

    function View(): Stream
      reads this
    {
      Stream(messages, next, expired)
    }

    method Others(changes: seq<Change>)
      modifies this
      ensures View() == ApplyAll(old(View()), changes)
    {
      var i := 0;
      while i < |changes|
        invariant 0 <= i <= |changes| && ApplyAll(View(), changes[i..]) == ApplyAll(old(View()), changes)
      {
        assert changes[i..][1..] == changes[i + 1..];
        match changes[i] {
          case Append(stored) =>
            messages := messages[next := stored];
            next := next + 1;
          case Expire(sequences) =>
            expired := expired + (messages.Keys * sequences);
            messages := messages - sequences;
        }
        i := i + 1;
      }
    }

    /** Decide and, if allowed, erase one sequence. */
    method DisposeOne(request: Request, q: nat, visit: Visit) returns (r: Result<Disposition, Failure>)
      modifies this
      ensures Disposed(View(), r) == Dispose(old(View()), request, q, visit)
    {
      Others(visit.before);
      if visit.service.ReadFails? {
        return Err(Bus);
      }
      if q !in messages {
        return Ok(Missing);
      }
      if !Owns(request, messages[q]) {
        return Ok(Refused);
      }
      Others(visit.between);
      if visit.service.DeleteFails? {
        if visit.service.deleted {
          messages := messages - {q};
        }
        return Err(Bus);
      }
      if q !in messages {
        return Ok(Missing);
      }
      messages := messages - {q};
      r := Ok(Erased);
    }

    /**
      One attempt of the handler: the counts it records, or the failure that rolls them back. `reached` says
      whether the stream is found, `recorded` whether the audit rows can be written; deletions stay done.
    */
    method HandleCommand(command: Command, visits: seq<Visit>, reached: bool, recorded: bool)
      returns (r: Result<Option<Counts>, Failure>)
      requires |visits| == |command.sequences|
      modifies this
      ensures match Read(command)
        case None => View() == old(View()) && r == Ok(None)
        case Some(request) =>
          var handled := Handle(old(View()), request, visits, |visits|);
          if !reached then View() == old(View()) && r == Err(Bus)
          else
            && View() == handled.stream
            && r == (if handled.failed then Err(Bus) else if !recorded then Err(Persistence) else Ok(Some(handled.counts)))
    {
      var read := Read(command);
      if read.None? {
        return Ok(None);
      }
      if !reached {
        return Err(Bus);
      }
      var request := read.value;
      var counts := Counts(0, 0, 0);
      var i := 0;
      while i < |request.sequences|
        invariant 0 <= i <= |visits| == |request.sequences|
        invariant Handled(View(), counts, false) == Handle(old(View()), request, visits, i)
      {
        var disposition := DisposeOne(request, request.sequences[i], visits[i]);
        if disposition.Err? {
          FailureEnds(old(View()), request, visits, i + 1, |visits|);
          return Err(disposition.error);
        }
        counts := counts.Add(disposition.value);
        i := i + 1;
      }
      if !recorded {
        return Err(Persistence);
      }
      r := Ok(Some(counts));
    }
  }

  lemma {:induction false} FailureEnds(s: Stream, request: Request, visits: seq<Visit>, n: nat, m: nat)
    requires n <= m <= |visits| == |request.sequences| && Handle(s, request, visits, n).failed
    ensures Handle(s, request, visits, m) == Handle(s, request, visits, n)
    decreases m
  {
    if n < m {
      FailureEnds(s, request, visits, n, m - 1);
    }
  }

  // ---------------------------------------------------------------------------------------------
  // Any number of attempts
  // ---------------------------------------------------------------------------------------------

  /** The request asks for `q` and owns the message stored there. */
  predicate Targets(request: Request, s: Stream, q: nat) {
    q in request.sequences && q in s.messages && Owns(request, s.messages[q])
  }

  /**
    How a stream may have changed since `start` under this request: nothing was altered in place or stored
    under a used sequence, and whatever is gone was expired by the broker or targeted by the request.
  */
  ghost predicate Since(start: Stream, s: Stream, request: Request) {
    && Valid(s) && start.next <= s.next && start.expired <= s.expired
    && (forall q | q in s.messages && q < start.next :: q in start.messages && s.messages[q] == start.messages[q])
    && (forall q | q in start.messages && q !in s.messages :: q in s.expired || Targets(request, start, q))
  }

  lemma {:induction false} ChangesKeepSince(start: Stream, s: Stream, request: Request, changes: seq<Change>)
    requires Since(start, s, request)
    ensures Since(start, ApplyAll(s, changes), request)
    ensures forall q | q < s.next && q !in s.messages :: q !in ApplyAll(s, changes).messages
    ensures s.next <= ApplyAll(s, changes).next
    decreases |changes|
  {
    if changes != [] {
      ChangesKeepSince(start, Apply(s, changes[0]), request, changes[1..]);
    }
  }

  lemma DisposeKeepsSince(start: Stream, s: Stream, request: Request, q: nat, visit: Visit)
    requires Valid(start) && Since(start, s, request) && q in request.sequences
    ensures var disposed := Dispose(s, request, q, visit);
      && Since(start, disposed.stream, request) && s.next <= disposed.stream.next
      && (forall p | p < s.next && p !in s.messages :: p !in disposed.stream.messages)
      && (disposed.answer.Ok? && Targets(request, start, q) ==> q !in disposed.stream.messages)
  {
    ChangesKeepSince(start, s, request, visit.before);
    var read := ApplyAll(s, visit.before);
    ChangesKeepSince(start, read, request, visit.between);
    var later := ApplyAll(read, visit.between);
    if q in read.messages && Owns(request, read.messages[q]) && q in later.messages {
      StaysTheSame(read, visit.between, q);
      DeleteKeepsSince(start, later, request, q);
    }
  }

  lemma {:induction false} StaysTheSame(s: Stream, changes: seq<Change>, q: nat)
    requires Valid(s) && q in s.messages && q in ApplyAll(s, changes).messages
    ensures ApplyAll(s, changes).messages[q] == s.messages[q]
    decreases |changes|
  {
    if changes != [] {
      var next := Apply(s, changes[0]);
      if q !in next.messages {
        NeverAgain(next, changes[1..], q);
      } else {
        StaysTheSame(next, changes[1..], q);
      }
    }
  }

  lemma {:induction false} NeverAgain(s: Stream, changes: seq<Change>, q: nat)
    requires Valid(s) && q !in s.messages && q < s.next
    ensures q !in ApplyAll(s, changes).messages
    decreases |changes|
  {
    if changes != [] {
      NeverAgain(Apply(s, changes[0]), changes[1..], q);
    }
  }

  lemma DeleteKeepsSince(start: Stream, s: Stream, request: Request, q: nat)
    requires Valid(start) && Since(start, s, request) && Targets(request, s, q)
    ensures Since(start, Delete(s, q), request)
  {
  }

  lemma {:induction false} HandleKeepsSince(start: Stream, s: Stream, request: Request, visits: seq<Visit>, n: nat)
    requires n <= |visits| == |request.sequences| && Valid(start) && Since(start, s, request)
    ensures var handled := Handle(s, request, visits, n);
      && Since(start, handled.stream, request) && s.next <= handled.stream.next
      && (!handled.failed ==>
            && handled.counts.erased + handled.counts.missing + handled.counts.refused == n
            && forall i | 0 <= i < n && Targets(request, start, request.sequences[i]) ::
                 request.sequences[i] !in handled.stream.messages)
    decreases n
  {
    if n > 0 {
      HandleKeepsSince(start, s, request, visits, n - 1);
      var before := Handle(s, request, visits, n - 1);
      if !before.failed {
        DisposeKeepsSince(start, before.stream, request, request.sequences[n - 1], visits[n - 1]);
      }
    }
  }

  /** Redeliveries: each attempt sees what the ones before it left behind. */
  function Attempts(s: Stream, request: Request, attempts: seq<seq<Visit>>): Stream
    requires forall a | a in attempts :: |a| == |request.sequences|
  {
    if attempts == [] then s
    else
      assert forall a | a in attempts[..|attempts| - 1] :: a in attempts;
      Handle(Attempts(s, request, attempts[..|attempts| - 1]), request, attempts[|attempts| - 1],
             |request.sequences|).stream
  }

  lemma {:induction false} AttemptsKeepSince(s: Stream, request: Request, attempts: seq<seq<Visit>>)
    requires Valid(s) && forall a | a in attempts :: |a| == |request.sequences|
    ensures Since(s, Attempts(s, request, attempts), request)
    decreases |attempts|
  {
    if attempts != [] {
      assert forall a | a in attempts[..|attempts| - 1] :: a in attempts;
      AttemptsKeepSince(s, request, attempts[..|attempts| - 1]);
      HandleKeepsSince(s, Attempts(s, request, attempts[..|attempts| - 1]), request, attempts[|attempts| - 1],
                       |request.sequences|);
    }
  }

  /**
    After any number of attempts that failed part way (some with a delete that happened and looked
    failed) and one that went through, whatever others appended or the broker expired meanwhile: every
    message that was there is gone if the request named and owned it, and otherwise is unchanged or
    expired by the broker; anything else in the stream was appended since; no tombstone was erased; and
    the recorded counts add up to the named sequences.
  */
  lemma ErasureIsExact(s: Stream, request: Request, failed: seq<seq<Visit>>, last: seq<Visit>, q: nat)
    requires Valid(s) && (forall a | a in failed :: |a| == |request.sequences|) && |last| == |request.sequences|
    requires !Handle(Attempts(s, request, failed), request, last, |last|).failed
    ensures var done := Handle(Attempts(s, request, failed), request, last, |last|);
      var after := done.stream;
      && (q in s.messages ==>
            if Targets(request, s, q) then q !in after.messages
            else q in after.expired || (q in after.messages && after.messages[q] == s.messages[q]))
      && (q in after.messages && q !in s.messages ==> q >= s.next)
      && (q in s.messages && s.messages[q].subject.Tombstone? ==> q in after.messages || q in after.expired)
      && done.counts.erased + done.counts.missing + done.counts.refused == |request.sequences|
  {
    AttemptsKeepSince(s, request, failed);
    HandleKeepsSince(s, Attempts(s, request, failed), request, last, |last|);
    if Targets(request, s, q) {
      var i :| 0 <= i < |request.sequences| && request.sequences[i] == q;
      assert request.sequences[i] !in Handle(Attempts(s, request, failed), request, last, |last|).stream.messages;
    }
  }

  /** A command reaches nothing but its sender's own content facts for the tenant it names. */
  lemma ReachesOnlyItsOwn(command: Command, s: Stream, q: nat)
    requires q in s.messages && Read(command).Some? && Targets(Read(command).value, s, q)
    ensures s.messages[q].producer == Some(command.sender) && (command.sender.ChatGpt? || command.sender.Claude?)
    ensures s.messages[q].tenant == command.tenant && !s.messages[q].subject.Tombstone?
    ensures q in command.sequences
  {
  }

  // ---------------------------------------------------------------------------------------------
  // What the counts of a quiet attempt say
  // ---------------------------------------------------------------------------------------------

  predicate Quiet(visits: seq<Visit>) {
    forall v | v in visits :: v == Visit([], [], Serves)
  }

  /** How position `i` is counted, read off the stream as it was when the attempt began. */
  function CountedAs(s: Stream, request: Request, i: nat): Disposition
    requires i < |request.sequences|
  {
    var q := request.sequences[i];
    if q !in s.messages then Missing
    else if !Owns(request, s.messages[q]) then Refused
    else if q in request.sequences[..i] then Missing
    else Erased
  }

  function CountsOf(s: Stream, request: Request, n: nat): Counts
    requires n <= |request.sequences|
  {
    if n == 0 then Counts(0, 0, 0) else CountsOf(s, request, n - 1).Add(CountedAs(s, request, n - 1))
  }

  /** The stream minus the owned messages among the first `n` named ones. */
  function Without(s: Stream, request: Request, n: nat): map<nat, Stored>
    requires n <= |request.sequences|
  {
    map q | q in s.messages && (q !in request.sequences[..n] || !Owns(request, s.messages[q])) :: s.messages[q]
  }

  /**
    When nobody else touches the stream during the attempt, its counts are those of the stream it found:
    what an earlier attempt already erased is counted missing, and so is a sequence named twice.
  */
  lemma {:induction false} QuietCounts(s: Stream, request: Request, visits: seq<Visit>, n: nat)
    requires n <= |visits| == |request.sequences| && Quiet(visits)
    ensures var handled := Handle(s, request, visits, n);
      && !handled.failed && handled.counts == CountsOf(s, request, n)
      && handled.stream == s.(messages := Without(s, request, n))
    decreases n
  {
    if n > 0 {
      QuietCounts(s, request, visits, n - 1);
      assert visits[n - 1] in visits;
      assert request.sequences[..n] == request.sequences[..n - 1] + [request.sequences[n - 1]];
    } else {
      assert Without(s, request, 0) == s.messages;
    }
  }

  lemma {:induction false} NothingLeftToErase(s: Stream, request: Request, n: nat)
    requires n <= |request.sequences|
    requires forall q | q in request.sequences && q in s.messages :: !Owns(request, s.messages[q])
    ensures CountsOf(s, request, n).erased == 0
    decreases n
  {
    if n > 0 {
      NothingLeftToErase(s, request, n - 1);
      assert request.sequences[n - 1] in request.sequences;
    }
  }

  /**
    When an attempt erased everything and only its audit rows could not be written, the redelivery that
    records them counts nothing as erased.
  */
  lemma UnrecordedErasuresAreCountedMissing(s: Stream, request: Request, visits: seq<Visit>, again: seq<Visit>)
    requires |visits| == |again| == |request.sequences| && Quiet(visits) && Quiet(again)
    ensures var second := Handle(Handle(s, request, visits, |visits|).stream, request, again, |again|);
      !second.failed && second.counts.erased == 0
      && second.stream == Handle(s, request, visits, |visits|).stream
  {
    QuietCounts(s, request, visits, |visits|);
    var left := Handle(s, request, visits, |visits|).stream;
    QuietCounts(left, request, again, |again|);
    assert request.sequences[..|visits|] == request.sequences;
    NothingLeftToErase(left, request, |again|);
    assert Without(left, request, |again|) == left.messages;
  }

  // ---------------------------------------------------------------------------------------------
  // What is content, and who may ask
  // ---------------------------------------------------------------------------------------------

  /** The seven subjects whose facts carry the text of a conversation, project or artifact. */
  const CONTENT: set<Subject> :=
    {ArchiveImported, ConversationAdded, ConversationUpdated, ProjectAdded, ProjectUpdated, ArtifactAdded, ArtifactUpdated}

  /**
    After any failed attempts and one that went through: a named message of the requester, for the owner it
    names, on any of the seven content subjects is gone; any other message is as it was, or expired.
  */
  lemma ContentIsErasedExactly(s: Stream, request: Request, failed: seq<seq<Visit>>, last: seq<Visit>, q: nat)
    requires Valid(s) && (forall a | a in failed :: |a| == |request.sequences|) && |last| == |request.sequences|
    requires !Handle(Attempts(s, request, failed), request, last, |last|).failed && q in s.messages
    ensures var after := Handle(Attempts(s, request, failed), request, last, |last|).stream;
      var stored := s.messages[q];
      if q in request.sequences && stored.subject in CONTENT
         && stored.producer == Some(request.producer) && stored.tenant == Some(request.owner)
      then q !in after.messages
      else q in after.expired || (q in after.messages && after.messages[q] == stored)
  {
    ErasureIsExact(s, request, failed, last, q);
    assert Erasable(s.messages[q].subject) <==> s.messages[q].subject in CONTENT;
  }

  /** A command is honoured exactly when an archive importer sent it on its own behalf, for one owner in one voice. */
  lemma HonouredExactly(command: Command)
    ensures Read(command).Some? <==>
      && command.onSubject && command.parses
      && (command.sender == ChatGpt || command.sender == Claude) && command.producer == command.sender
      && command.tenant == Some(command.owner) && command.aggregate == command.reference
    ensures Read(command).Some? ==>
      && Read(command).value.producer == command.sender && Some(Read(command).value.owner) == command.tenant
      && Read(command).value.sequences == command.sequences
  {
  }

  /**
    What the answer of one visit says: erased, that it was there, owned, and removed by this visit; missing, that
    it was gone when read or by the time it would have been deleted; refused, that it was there and not the
    requester's content. A failure says nothing: the message is as it was, or gone, as the broker had it.
  */
  lemma AnswersOfAVisit(s: Stream, request: Request, q: nat, visit: Visit)
    ensures var read := ApplyAll(s, visit.before);
      var later := ApplyAll(read, visit.between);
      var d := Dispose(s, request, q, visit);
      var mine := q in read.messages && Owns(request, read.messages[q]);
      && (d.answer == Ok(Erased) <==> visit.service.Serves? && mine && q in later.messages)
      && (d.answer == Ok(Missing) <==>
            !visit.service.ReadFails? && (q !in read.messages || (visit.service.Serves? && mine && q !in later.messages)))
      && (d.answer == Ok(Refused) <==> !visit.service.ReadFails? && q in read.messages && !mine)
      && d.stream.messages ==
           (if mine && (visit.service.Serves? || visit.service == DeleteFails(true)) then later.messages - {q}
            else if mine && !visit.service.ReadFails? then later.messages else read.messages)
  {
    var later := ApplyAll(ApplyAll(s, visit.before), visit.between);
    if q !in later.messages {
      assert later.messages - {q} == later.messages;
    }
  }
}
