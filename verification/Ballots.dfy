/**
 The vote collector of the two-phase commit, as a value, and what its result means.

 A Ballot is the abstract value of a ConsensusTask.  The functions below say what each of its
 operations does to that value; the lemmas characterise the result of any sequence of votes.
 */
module Ballots {
  import opened SwarmTypes

  const DEFAULT_TIMEOUT_MS: int := 5000

  datatype Ballot = Ballot(
    tx: uint32,
    votes: map<uint8, Vote>,
    timeoutMs: int,
    start: TimePoint,
    result: ConsensusResult,
    byTimeout: bool)

  /** One vote arriving from the network. */
  datatype Cast = Cast(sender: uint8, vote: Vote)

  // ---------------------------------------------------------------------
  //  Operations
  // ---------------------------------------------------------------------

  function Open(tx: uint32, voters: seq<uint8>, timeoutMs: int): Ballot {
    Ballot(tx, map v | v in voters :: Pending, timeoutMs, 0, Undecided, false)
  }

  predicate AllAck(votes: map<uint8, Vote>) {
    forall v | v in votes :: votes[v] == Ack
  }

  predicate SomeNack(votes: map<uint8, Vote>) {
    exists v | v in votes :: votes[v] == Nack
  }

  function Evaluate(b: Ballot): Ballot {
    if AllAck(b.votes) then b.(result := Committed) else b
  }

  function Enter(b: Ballot, now: TimePoint): Ballot {
    var e := b.(start := now, result := Undecided, byTimeout := false);
    if e.votes == map[] then e.(result := Committed)
    else if SomeNack(e.votes) then e.(result := Aborted)
    else Evaluate(e)
  }

  function OnVote(b: Ballot, c: Cast): Ballot {
    if b.result != Undecided || c.sender !in b.votes then b
    else
      var u := b.(votes := b.votes[c.sender := c.vote]);
      if c.vote == Nack then u.(result := Aborted) else Evaluate(u)
  }

  function Run(b: Ballot, now: TimePoint): Ballot {
    if b.result != Undecided || ToMillis(now - b.start) < b.timeoutMs then b
    else b.(result := Aborted, byTimeout := true)
  }

  /** Votes delivered in order. */
  function Collect(b: Ballot, casts: seq<Cast>): Ballot
    decreases |casts|
  {
    if casts == [] then b else Collect(OnVote(b, casts[0]), casts[1..])
  }

  lemma {:induction false} CollectAppend(b: Ballot, s: seq<Cast>, t: seq<Cast>)
    ensures Collect(b, s + t) == Collect(Collect(b, s), t)
    decreases |s|
  {
    if s == [] {
      assert s + t == t;
    } else {
      assert (s + t)[1..] == s[1..] + t;
      CollectAppend(OnVote(b, s[0]), s[1..], t);
    }
  }

  // ---------------------------------------------------------------------
  //  What a sequence of votes decides
  // ---------------------------------------------------------------------

  /** The most recent vote of v in casts; PENDING when it has not voted. */
  function LastVote(casts: seq<Cast>, v: uint8): Vote {
    if casts == [] then Pending
    else if casts[|casts| - 1].sender == v then casts[|casts| - 1].vote
    else LastVote(casts[..|casts| - 1], v)
  }

  ghost predicate VoterNack(voters: set<uint8>, casts: seq<Cast>) {
    exists i :: 0 <= i < |casts| && casts[i].sender in voters && casts[i].vote == Nack
  }

  /** Every voter currently says ACK and no voter has ever said NACK. */
  ghost predicate Unanimous(voters: set<uint8>, casts: seq<Cast>) {
    && (forall v | v in voters :: LastVote(casts, v) == Ack)
    && !VoterNack(voters, casts)
  }

  /** Some moment of the sequence at which the votes were unanimous. */
  ghost predicate EverUnanimous(voters: set<uint8>, casts: seq<Cast>) {
    exists k :: 0 <= k <= |casts| && Unanimous(voters, casts[..k])
  }

  /** A ballot as the constructor leaves it. */
  ghost predicate Fresh(b: Ballot) {
    && b.result == Undecided
    && !b.byTimeout
    && (forall v | v in b.votes :: b.votes[v] == Pending)
  }

  /** What the ballot knows after the votes `casts`, decision included. */
  ghost predicate Reflects(b0: Ballot, casts: seq<Cast>, b: Ballot) {
    && b.votes.Keys == b0.votes.Keys
    && b.tx == b0.tx && b.timeoutMs == b0.timeoutMs && b.start == b0.start && !b.byTimeout
    && (b.result == Committed <==> EverUnanimous(b0.votes.Keys, casts))
    && (b.result == Aborted <==> VoterNack(b0.votes.Keys, casts) && !EverUnanimous(b0.votes.Keys, casts))
    && (b.result == Committed ==> AllAck(b.votes))
    && (b.result == Aborted ==> SomeNack(b.votes))
    && (b.result == Undecided ==> forall v | v in b.votes :: b.votes[v] == LastVote(casts, v))
  }

  lemma UnanimousPrefix(voters: set<uint8>, casts: seq<Cast>, c: Cast)
    ensures EverUnanimous(voters, casts + [c])
       <==> EverUnanimous(voters, casts) || Unanimous(voters, casts + [c])
    ensures VoterNack(voters, casts + [c])
       <==> VoterNack(voters, casts) || (c.sender in voters && c.vote == Nack)
  {
    var all := casts + [c];
    assert all[..|all|] == all;
    forall k | 0 <= k <= |casts| ensures all[..k] == casts[..k] {}
    if VoterNack(voters, casts) {
      var i :| 0 <= i < |casts| && casts[i].sender in voters && casts[i].vote == Nack;
      assert all[i] == casts[i];
    }
    if c.sender in voters && c.vote == Nack {
      assert all[|casts|] == c;
    }
    if EverUnanimous(voters, casts) {
      var k :| 0 <= k <= |casts| && Unanimous(voters, casts[..k]);
      assert Unanimous(voters, all[..k]);
    }
  }

  lemma {:induction false} CollectReflects(b0: Ballot, casts: seq<Cast>)
    requires Fresh(b0) && b0.votes != map[]
    ensures Reflects(b0, casts, Collect(b0, casts))
  {
    if casts == [] {
      var v :| v in b0.votes;
      assert casts[..0] == [];
      assert LastVote([], v) == Pending;
    } else {
      var front, c := casts[..|casts| - 1], casts[|casts| - 1];
      assert casts == front + [c];
      CollectReflects(b0, front);
      CollectAppend(b0, front, [c]);
      var b := Collect(b0, front);
      assert Collect(b, [c]) == OnVote(b, c);
      UnanimousPrefix(b0.votes.Keys, front, c);
      CollectStep(b0, front, b, c);
    }
  }

  lemma CollectStep(b0: Ballot, front: seq<Cast>, b: Ballot, c: Cast)
    requires Fresh(b0) && b0.votes != map[] && Reflects(b0, front, b)
    ensures Reflects(b0, front + [c], OnVote(b, c))
  {
    var voters, all, b' := b0.votes.Keys, front + [c], OnVote(b, c);
    assert all[..|front|] == front;
    UnanimousPrefix(voters, front, c);
    forall v: uint8 ensures LastVote(all, v) == if c.sender == v then c.vote else LastVote(front, v) {}
    if b.result == Undecided {
      assert !VoterNack(voters, front);
      if c.sender in voters {
        assert forall v | v in b'.votes :: b'.votes[v] == LastVote(all, v);
        if c.vote == Nack {
          assert b'.votes[c.sender] == Nack;
          assert LastVote(all, c.sender) == Nack;
        }
      } else {
        assert front[..|front|] == front;
        assert forall v | v in voters :: LastVote(all, v) == LastVote(front, v);
        assert Unanimous(voters, all) ==> Unanimous(voters, front);
      }
    }
  }

  /**
   Delivering on_enter in the middle of the votes changes nothing but the clock: decisions taken
   before it survive it.
   */
  lemma EnterKeepsDecision(b0: Ballot, casts: seq<Cast>, now: TimePoint)
    requires Fresh(b0) && b0.votes != map[]
    ensures Enter(Collect(b0, casts), now) == Collect(b0, casts).(start := now)
  {
    CollectReflects(b0, casts);
    var b := Collect(b0, casts);
    if b.result == Undecided {
      assert casts[..|casts|] == casts;
      assert !VoterNack(b0.votes.Keys, casts) && !Unanimous(b0.votes.Keys, casts[..|casts|]);
      forall v | v in b.votes ensures b.votes[v] != Nack {
        LastVoteOccurs(casts, v);
      }
    }
    assert b.votes != map[] by {
      var v :| v in b0.votes;
      assert v in b.votes;
    }
  }

  lemma {:induction false} LastVoteOccurs(casts: seq<Cast>, v: uint8)
    ensures LastVote(casts, v) != Pending ==> Cast(v, LastVote(casts, v)) in casts
  {
    if casts != [] && casts[|casts| - 1].sender != v {
      LastVoteOccurs(casts[..|casts| - 1], v);
    }
  }

  /** Only the clock differs: votes after on_enter are counted alike. */
  lemma {:induction false} CollectIgnoresStart(b: Ballot, casts: seq<Cast>, now: TimePoint)
    ensures Collect(b.(start := now), casts) == Collect(b, casts).(start := now)
    decreases |casts|
  {
    if casts != [] {
      assert OnVote(b.(start := now), casts[0]) == OnVote(b, casts[0]).(start := now);
      CollectIgnoresStart(OnVote(b, casts[0]), casts[1..], now);
    }
  }

  /**
   The decision of any sequence of votes, wherever on_enter falls in it: COMMITTED exactly when at
   some moment every voter said ACK and none had said NACK; ABORTED exactly when a voter said NACK
   and no such moment came first.
   */
  lemma VotesDecide(b0: Ballot, before: seq<Cast>, now: TimePoint, after: seq<Cast>)
    requires Fresh(b0) && b0.votes != map[]
    ensures var b := Collect(Enter(Collect(b0, before), now), after);
            var voters := b0.votes.Keys;
            && (b.result == Committed <==> EverUnanimous(voters, before + after))
            && (b.result == Aborted <==> VoterNack(voters, before + after) && !EverUnanimous(voters, before + after))
            && b.votes.Keys == voters
  {
    EnterKeepsDecision(b0, before, now);
    CollectIgnoresStart(Collect(b0, before), after, now);
    CollectAppend(b0, before, after);
    CollectReflects(b0, before + after);
  }

  // ---------------------------------------------------------------------
  //  Confluence when every voter is consistent
  // ---------------------------------------------------------------------

  /** Every voter only ever repeats one vote, and it is a vote. */
  ghost predicate Consistent(voters: set<uint8>, casts: seq<Cast>) {
    && (forall i | 0 <= i < |casts| && casts[i].sender in voters :: casts[i].vote != Pending)
    && (forall i, j | 0 <= i < |casts| && 0 <= j < |casts| && casts[i].sender in voters
                      && casts[i].sender == casts[j].sender :: casts[i].vote == casts[j].vote)
  }

  lemma {:induction false} ConsistentLastVote(voters: set<uint8>, casts: seq<Cast>, v: uint8)
    requires Consistent(voters, casts) && v in voters
    ensures LastVote(casts, v) == Ack <==> Cast(v, Ack) in casts
  {
    if Cast(v, Ack) in casts {
      var i :| 0 <= i < |casts| && casts[i] == Cast(v, Ack);
      LastVoteIsSome(casts, i);
      LastVoteOccurs(casts, v);
    } else {
      LastVoteOccurs(casts, v);
    }
  }

  lemma {:induction false} LastVoteIsSome(casts: seq<Cast>, i: nat)
    requires i < |casts|
    ensures exists j :: 0 <= j < |casts| && casts[j].sender == casts[i].sender
                        && LastVote(casts, casts[i].sender) == casts[j].vote
  {
    var v, n := casts[i].sender, |casts| - 1;
    if casts[n].sender == v {
      assert casts[n].sender == casts[i].sender && LastVote(casts, v) == casts[n].vote;
    } else {
      var front := casts[..n];
      LastVoteIsSome(front, i);
      var j :| 0 <= j < |front| && front[j].sender == front[i].sender && LastVote(front, v) == front[j].vote;
      assert casts[j] == front[j];
    }
  }

  /**
   With consistent voters the decision depends only on which votes were cast: not on their order,
   on repetitions, on votes of strangers, or on where on_enter falls.
   */
  lemma VoteConfluence(b0: Ballot, before: seq<Cast>, now: TimePoint, after: seq<Cast>)
    requires Fresh(b0) && b0.votes != map[]
    requires Consistent(b0.votes.Keys, before + after)
    ensures var r := Collect(Enter(Collect(b0, before), now), after).result;
            var voters, casts := b0.votes.Keys, before + after;
            && (r == Committed <==> forall v | v in voters :: Cast(v, Ack) in casts)
            && (r == Aborted <==> exists v | v in voters :: Cast(v, Nack) in casts)
  {
    var voters, casts := b0.votes.Keys, before + after;
    VotesDecide(b0, before, now, after);
    assert casts[..|casts|] == casts;
    forall v | v in voters ensures LastVote(casts, v) == Ack <==> Cast(v, Ack) in casts {
      ConsistentLastVote(voters, casts, v);
    }
    if forall v | v in voters :: Cast(v, Ack) in casts {
      forall i | 0 <= i < |casts| && casts[i].sender in voters ensures casts[i].vote == Ack {
        assert Cast(casts[i].sender, Ack) in casts;
      }
      assert Unanimous(voters, casts);
    }
    if EverUnanimous(voters, casts) {
      var k :| 0 <= k <= |casts| && Unanimous(voters, casts[..k]);
      forall v | v in voters ensures Cast(v, Ack) in casts {
        LastVoteOccurs(casts[..k], v);
      }
    }
  }

  /**
   First votes alone do not decide: both voters answer ACK first, yet the change of mind of one of
   them, heard before the other's ACK, aborts.
   */
  lemma FirstVotesDoNotDecide(now: TimePoint)
    ensures var casts := [Cast(1, Ack), Cast(1, Nack), Cast(2, Ack)];
            Collect(Enter(Open(7, [1, 2], DEFAULT_TIMEOUT_MS), now), casts).result == Aborted
  {
    var b := Enter(Open(7, [1, 2], DEFAULT_TIMEOUT_MS), now);
    assert 1 in b.votes && 2 in b.votes && b.votes[1] == Pending && b.votes[2] == Pending;
    var b1 := OnVote(b, Cast(1, Ack));
    assert b1.votes[2] == Pending;
    var b2 := OnVote(b1, Cast(1, Nack));
    var casts := [Cast(1, Ack), Cast(1, Nack), Cast(2, Ack)];
    assert casts[1..] == [Cast(1, Nack), Cast(2, Ack)] && casts[1..][1..] == [Cast(2, Ack)];
    assert Collect(b2, casts[1..][1..]).result == Aborted;
  }

  // ---------------------------------------------------------------------
  //  Faithful outcome
  // ---------------------------------------------------------------------

  /** The result of an entered ballot says exactly what its vote map says. */
  ghost predicate Faithful(b: Ballot) {
    && (b.result == Committed <==> AllAck(b.votes))
    && (b.result == Aborted && !b.byTimeout <==> SomeNack(b.votes))
    && (b.byTimeout ==> b.result == Aborted && !SomeNack(b.votes) && !AllAck(b.votes))
  }

  datatype BallotEvent = VoteArrives(c: Cast) | Ticks(now: TimePoint)

  function After(b: Ballot, e: BallotEvent): Ballot {
    match e
    case VoteArrives(c) => OnVote(b, c)
    case Ticks(now) => Run(b, now)
  }

  function Replay(b: Ballot, events: seq<BallotEvent>): Ballot
    decreases |events|
  {
    if events == [] then b else Replay(After(b, events[0]), events[1..])
  }

  lemma FaithfulStep(b: Ballot, e: BallotEvent)
    requires Faithful(b)
    ensures Faithful(After(b, e))
  {
    if e.VoteArrives? && b.result == Undecided && e.c.sender in b.votes {
      var votes := b.votes[e.c.sender := e.c.vote];
      assert votes[e.c.sender] == e.c.vote;
      assert forall v | v in b.votes :: b.votes[v] != Nack;
      assert forall v | v in votes && v != e.c.sender :: votes[v] == b.votes[v];
    }
  }

  /** A decided ballot never changes again: neither its result nor its vote map. */
  lemma {:induction false} DecidedIsFrozen(b: Ballot, events: seq<BallotEvent>)
    requires b.result != Undecided
    ensures Replay(b, events) == b
  {
    if events != [] {
      DecidedIsFrozen(b, events[1..]);
    }
  }

  lemma {:induction false} ReplayAppend(b: Ballot, s: seq<BallotEvent>, t: seq<BallotEvent>)
    ensures Replay(b, s + t) == Replay(Replay(b, s), t)
    decreases |s|
  {
    if s == [] {
      assert s + t == t;
    } else {
      assert (s + t)[1..] == s[1..] + t;
      ReplayAppend(After(b, s[0]), s[1..], t);
    }
  }

  lemma {:induction false} FaithfulRun(b: Ballot, events: seq<BallotEvent>)
    requires Faithful(b)
    ensures Faithful(Replay(b, events))
    decreases |events|
  {
    if events != [] {
      FaithfulStep(b, events[0]);
      FaithfulRun(After(b, events[0]), events[1..]);
    }
  }

  /**
   The life of a ballot: whatever votes were heard before on_enter and whatever votes and clock
   ticks follow it, the result agrees with the vote map, and a decision once taken stands.
   */
  lemma FaithfulOutcome(tx: uint32, voters: seq<uint8>, timeoutMs: int, before: seq<Cast>,
                        now: TimePoint, events: seq<BallotEvent>, more: seq<BallotEvent>)
    ensures var b := Replay(Enter(Collect(Open(tx, voters, timeoutMs), before), now), events);
            && Faithful(b)
            && (b.result != Undecided ==>
                  Replay(Enter(Collect(Open(tx, voters, timeoutMs), before), now), events + more) == b)
  {
    var b := Enter(Collect(Open(tx, voters, timeoutMs), before), now);
    FaithfulRun(b, events);
    ReplayAppend(b, events, more);
    if Replay(b, events).result != Undecided {
      DecidedIsFrozen(Replay(b, events), more);
    }
  }

  /** The timeout: an entered, undecided ballot is decided by any tick at or past its deadline. */
  lemma TimeoutDecides(b: Ballot, now: TimePoint)
    requires b.timeoutMs > 0 && now >= b.start + b.timeoutMs * NS_PER_MS
    ensures Run(b, now).result != Undecided
    ensures b.result != Undecided ==> Run(b, now) == b
  {
    MillisReached(now - b.start, b.timeoutMs);
  }

  // ---------------------------------------------------------------------
  //  No early timeout
  // ---------------------------------------------------------------------

  /** The votes among the events, in order. */
  function CastsOf(events: seq<BallotEvent>): seq<Cast> {
    if events == [] then []
    else (if events[0].VoteArrives? then [events[0].c] else []) + CastsOf(events[1..])
  }

  ghost predicate TicksBefore(events: seq<BallotEvent>, deadline: TimePoint) {
    forall i | 0 <= i < |events| && events[i].Ticks? :: events[i].now < deadline
  }

  /** Before its deadline a ballot is untouched by the clock. */
  lemma {:induction false} EarlyTicksDoNothing(b: Ballot, events: seq<BallotEvent>)
    requires b.timeoutMs > 0 && TicksBefore(events, b.start + b.timeoutMs * NS_PER_MS)
    ensures Replay(b, events) == Collect(b, CastsOf(events))
    decreases |events|
  {
    if events != [] {
      assert TicksBefore(events[1..], b.start + b.timeoutMs * NS_PER_MS);
      match events[0]
      case Ticks(now) =>
        MillisReached(now - b.start, b.timeoutMs);
        assert events[0].now < b.start + b.timeoutMs * NS_PER_MS;
        assert Run(b, now) == b && CastsOf(events) == CastsOf(events[1..]);
        EarlyTicksDoNothing(b, events[1..]);
      case VoteArrives(c) =>
        assert ([c] + CastsOf(events[1..]))[1..] == CastsOf(events[1..]);
        EarlyTicksDoNothing(OnVote(b, c), events[1..]);
    }
  }

  /**
   No early timeout.  A vote entered at `now` with the default timeout, whatever votes it heard before:
   as long as every clock tick comes less than 5000 ms later, its result is what the votes demand and
   nothing else.  In particular it is undecided while there is neither a NACK nor unanimity.
   */
  lemma NoEarlyTimeout(tx: uint32, voters: seq<uint8>, before: seq<Cast>, now: TimePoint, events: seq<BallotEvent>)
    requires voters != [] && TicksBefore(events, now + 5_000_000_000)
    ensures var b := Replay(Enter(Collect(Open(tx, voters, DEFAULT_TIMEOUT_MS), before), now), events);
            var keys, casts := (set v | v in voters), before + CastsOf(events);
            && !b.byTimeout
            && (b.result == Committed <==> EverUnanimous(keys, casts))
            && (b.result == Aborted <==> VoterNack(keys, casts) && !EverUnanimous(keys, casts))
  {
    var blank := Open(tx, voters, DEFAULT_TIMEOUT_MS);
    assert voters[0] in blank.votes;
    CollectReflects(blank, before);
    EnterKeepsDecision(blank, before, now);
    var entered := Enter(Collect(blank, before), now);
    EarlyTicksDoNothing(entered, events);
    VotesDecide(blank, before, now, CastsOf(events));
    CollectIgnoresStart(Collect(blank, before), CastsOf(events), now);
    CollectAppend(blank, before, CastsOf(events));
    CollectReflects(blank, before + CastsOf(events));
  }
}
