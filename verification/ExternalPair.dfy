/**
  Two runs of the job at once (extcmd/commands.go): the second loads the command when the first one's
  lease has passed. Every transaction after the first writes what its own run read. A first reach and a
  terminal state last as long as no run writes from a copy the row has left behind, and for every single
  move, stale or not, there is an exact condition.
 */
module ExternalPair {
  import opened Base
  import opened ExternalCommand

  /** The command with one run's place in state.job, and the other's beside it. */
  datatype Pair = Pair(state: State, other: Job)

  function Swapped(p: Pair): Pair { Pair(p.state.(job := p.other), p.state.job) }

  /** A move of one of the two runs; time, registrations and crashes are whoever's. */
  datatype Turn = First(m: Move) | Second(m: Move)

  predicate CanTurn(p: Pair, t: Turn, c: Capabilities) {
    match t
    case First(m) => Enabled(p.state, m, c)
    case Second(m) => Enabled(Swapped(p).state, m, c)
  }

  function Turned(p: Pair, t: Turn, c: Capabilities): Pair
    requires CanTurn(p, t, c)
  {
    match t
    case First(m) => Pair(Do(p.state, m, c, false), p.other)
    case Second(m) => Swapped(Pair(Do(Swapped(p).state, m, c, false), p.state.job))
  }

  predicate CanTake(p: Pair, turns: seq<Turn>, c: Capabilities)
    decreases |turns|, 0
  {
    turns == [] || (CanTake(p, turns[..|turns| - 1], c)
        && CanTurn(After(p, turns[..|turns| - 1], c), turns[|turns| - 1], c))
  }

  function After(p: Pair, turns: seq<Turn>, c: Capabilities): Pair
    requires CanTake(p, turns, c)
    decreases |turns|, 1
  {
    if turns == [] then p else Turned(After(p, turns[..|turns| - 1], c), turns[|turns| - 1], c)
  }

  function RequestedPair(now: int, expiresAt: Time): Pair { Pair(Requested(now, expiresAt), Idle) }

  lemma TakeMore(p: Pair, turns: seq<Turn>, t: Turn, c: Capabilities)
    requires CanTake(p, turns, c) && CanTurn(After(p, turns, c), t, c)
    ensures CanTake(p, turns + [t], c) && After(p, turns + [t], c) == Turned(After(p, turns, c), t, c)
  {
    assert (turns + [t])[..|turns + [t]| - 1] == turns;
  }

  // ------------------------------------------------------------------ when a copy is stale

  /** The copy a run goes on with, if it is to write from it. */
  function CopyOf(j: Job): Option<Facts> {
    match j
    case Idle => None
    case Claimed(r) => Some(r)
    case Checked(r, _, _) => Some(r)
    case Sent(r) => Some(r)
    case Querying(r) => Some(r)
  }

  /** The move writes the row from the run's copy. */
  predicate WritesCopy(m: Move) {
    m == Check || m.NoEvidence? || m.Result? || m.Answer?
  }

  /** The row is where the run's copy left it: its stage and its reaches. */
  predicate Fresh(s: State) {
    CopyOf(s.job).Some? ==>
      s.row.facts.stage == CopyOf(s.job).value.stage && SameReach(CopyOf(s.job).value, s.row.facts)
  }

  /** No run writes from a copy the row has left behind. */
  predicate FreshTurn(p: Pair, t: Turn) {
    match t
    case First(m) => WritesCopy(m) ==> Fresh(p.state)
    case Second(m) => WritesCopy(m) ==> Fresh(Swapped(p).state)
  }

  predicate AllFresh(p: Pair, turns: seq<Turn>, c: Capabilities)
    requires CanTake(p, turns, c)
    decreases |turns|
  {
    turns == [] || (AllFresh(p, turns[..|turns| - 1], c)
        && FreshTurn(After(p, turns[..|turns| - 1], c), turns[|turns| - 1]))
  }

  lemma FreshSettles(s: State, m: Move, c: Capabilities)
    requires Enabled(s, m, c) && (WritesCopy(m) ==> Fresh(s)) && CopyStages(s.job)
    ensures Settles(s, Do(s, m, c, false)) && CopyStages(Do(s, m, c, false).job)
  {
  }

  /** A run's copy is of a command it claimed, or of one it asks about. */
  predicate CopyStages(j: Job) {
    match j
    case Idle => true
    case Querying(r) => r.stage == Unknown || r.stage == Accepted
    case _ => CopyOf(j).value.stage == Sending
  }

  /** Two runs at once keep every first reach and every terminal state, as long as no run writes from a stale copy. */
  lemma {:induction false} FreshPairsSettle(p: Pair, turns: seq<Turn>, c: Capabilities)
    requires CopyStages(p.state.job) && CopyStages(p.other) && CanTake(p, turns, c) && AllFresh(p, turns, c)
    ensures Settles(p.state, After(p, turns, c).state) && CopyStages(After(p, turns, c).state.job)
        && CopyStages(After(p, turns, c).other)
    decreases |turns|
  {
    if turns != [] {
      var n := |turns| - 1;
      var q := After(p, turns[..n], c);
      FreshPairsSettle(p, turns[..n], c);
      match turns[n]
      case First(m) => FreshSettles(q.state, m, c);
      case Second(m) => FreshSettles(Swapped(q).state, m, c);
    }
  }

  /**
    A result recorded from a copy: a first reach recorded meanwhile stays exactly when the copy had it, or
    had none and reaches at that very instant; a stage reached meanwhile stays exactly when the result is it.
   */
  lemma StaleRecord(row: Row, r: Facts, how: Class, c: Capabilities, nextAt: int, now: int)
    requires r.stage == Sending
    ensures row.facts.first.Some? ==>
              (Record(row, r, how, c, nextAt, now).facts.first == row.facts.first
               <==> r.first == row.facts.first || (r.first.None? && Reached(how) && now == row.facts.first.value))
    ensures Terminal(row.facts.stage) ==>
        (Record(row, r, how, c, nextAt, now).facts.stage == row.facts.stage <==> how == Final(row.facts.stage))
  {
  }

  // ------------------------------------------------------------------ what any move keeps

  /** The conditions under which a move leaves a terminal stage, told from its copy, its result and the clock. */
  predicate StageSafe(s: State, m: Move) {
    match m
    case Check => s.job.Claimed? ==> !PastDeadline(s.job.r, s.now)
    case Result(how, _) => how == Final(s.row.facts.stage)
    case Answer(e, _) => e == QueryFound(Some(s.row.facts.stage))
    case NoEvidence(_) => false
    case _ => true
  }

  /** The same for a recorded first reach: only a result can move it. */
  predicate FirstSafe(s: State, m: Move) {
    m.Result? && s.job.Sent? && s.row.facts.first.Some? ==>
      s.job.r.first == s.row.facts.first || (s.job.r.first.None? && Reached(m.how) && s.now == s.row.facts.first.value)
  }

  /** Every move, of whatever copy, keeps a terminal stage and a first reach exactly under these conditions. */
  lemma KeepsExactly(s: State, m: Move, c: Capabilities)
    requires Enabled(s, m, c) && CopyStages(s.job)
    ensures CopyStages(Do(s, m, c, false).job)
    ensures Terminal(s.row.facts.stage) ==>
              (Do(s, m, c, false).row.facts.stage == s.row.facts.stage <==> StageSafe(s, m))
    ensures s.row.facts.first.Some? ==>
              (Do(s, m, c, false).row.facts.first == s.row.facts.first <==> FirstSafe(s, m))
  {
  }

  /** The run a turn belongs to, and its move. */
  function Mover(p: Pair, t: Turn): State { if t.First? then p.state else Swapped(p).state }

  predicate AllStageSafe(p: Pair, turns: seq<Turn>, c: Capabilities)
    requires CanTake(p, turns, c)
    decreases |turns|
  {
    turns == [] || (AllStageSafe(p, turns[..|turns| - 1], c)
        && StageSafe(Mover(After(p, turns[..|turns| - 1], c), turns[|turns| - 1]), turns[|turns| - 1].m))
  }

  predicate AllFirstSafe(p: Pair, turns: seq<Turn>, c: Capabilities)
    requires CanTake(p, turns, c)
    decreases |turns|
  {
    turns == [] || (AllFirstSafe(p, turns[..|turns| - 1], c)
        && FirstSafe(Mover(After(p, turns[..|turns| - 1], c), turns[|turns| - 1]), turns[|turns| - 1].m))
  }

  /** The command has the stage at every point of the run. */
  predicate StageThroughout(p: Pair, turns: seq<Turn>, c: Capabilities, stage: Stage)
    requires CanTake(p, turns, c)
    decreases |turns|
  {
    After(p, turns, c).state.row.facts.stage == stage
    && (turns == [] || StageThroughout(p, turns[..|turns| - 1], c, stage))
  }

  predicate FirstThroughout(p: Pair, turns: seq<Turn>, c: Capabilities, first: Time)
    requires CanTake(p, turns, c)
    decreases |turns|
  {
    After(p, turns, c).state.row.facts.first == first
    && (turns == [] || FirstThroughout(p, turns[..|turns| - 1], c, first))
  }

  lemma TurnKeepsExactly(p: Pair, t: Turn, c: Capabilities)
    requires CanTurn(p, t, c) && CopyStages(p.state.job) && CopyStages(p.other)
    ensures CopyStages(Turned(p, t, c).state.job) && CopyStages(Turned(p, t, c).other)
    ensures Terminal(p.state.row.facts.stage) ==>
              (Turned(p, t, c).state.row.facts.stage == p.state.row.facts.stage <==> StageSafe(Mover(p, t), t.m))
    ensures p.state.row.facts.first.Some? ==>
              (Turned(p, t, c).state.row.facts.first == p.state.row.facts.first <==> FirstSafe(Mover(p, t), t.m))
  {
    KeepsExactly(Mover(p, t), t.m, c);
  }

  /** Through a whole run of two, a terminal stage and a first reach last if and only if every turn is safe for them. */
  lemma {:induction false} PairKeepsExactly(p: Pair, turns: seq<Turn>, c: Capabilities)
    requires CopyStages(p.state.job) && CopyStages(p.other) && CanTake(p, turns, c)
    ensures CopyStages(After(p, turns, c).state.job) && CopyStages(After(p, turns, c).other)
    ensures Terminal(p.state.row.facts.stage) ==>
              (StageThroughout(p, turns, c, p.state.row.facts.stage) <==> AllStageSafe(p, turns, c))
    ensures p.state.row.facts.first.Some? ==>
              (FirstThroughout(p, turns, c, p.state.row.facts.first) <==> AllFirstSafe(p, turns, c))
    decreases |turns|
  {
    if turns != [] {
      var n := |turns| - 1;
      PairKeepsExactly(p, turns[..n], c);
      TurnKeepsExactly(After(p, turns[..n], c), turns[n], c);
    }
  }

  // ------------------------------------------------------------------ both go wrong from the request on

  /** Turns taken one after the other, with the states they lead to. */
  ghost predicate Taken(ps: seq<Pair>, turns: seq<Turn>, c: Capabilities) {
    |ps| == |turns| + 1 && forall i :: 0 <= i < |turns| ==>
        CanTurn(ps[i], turns[i], c) && ps[i + 1] == Turned(ps[i], turns[i], c)
  }

  lemma {:induction false} TakenAfter(ps: seq<Pair>, turns: seq<Turn>, c: Capabilities)
    requires Taken(ps, turns, c)
    ensures CanTake(ps[0], turns, c) && After(ps[0], turns, c) == ps[|turns|]
    decreases |turns|
  {
    if turns != [] {
      var n := |turns| - 1;
      assert Taken(ps[..n + 1], turns[..n], c);
      TakenAfter(ps[..n + 1], turns[..n], c);
    }
  }

  /** The first run claims the command, checks and sends it; its lease passes, and the second takes it for lost. */
  lemma LeasePasses(now: int, expiresAt: Time, c: Capabilities) returns (turns: seq<Turn>, p: Pair)
    ensures CanTake(RequestedPair(now, expiresAt), turns, c) && After(RequestedPair(now, expiresAt), turns, c) == p
    ensures var f := Facts(Sending, None, expiresAt, None, None, None, None, None);
            && p.state.job == Sent(f) && p.other == Idle && p.state.now == now + SEND_LEASE
            && p.state.row == Row(f.(stage := Unknown, unknownSince := Some(p.state.now)), p.state.now)
  {
    var p0 := RequestedPair(now, expiresAt);
    var p1 := Turned(p0, First(Load), c);
    var p2 := Turned(p1, First(Check), c);
    var issue := if c.irrevocable then First(Issue) else First(Elapse(now));
    var p3 := Turned(p2, issue, c);
    var p4 := Turned(p3, First(Out), c);
    var p5 := Turned(p4, First(Elapse(now + SEND_LEASE)), c);
    p := Turned(p5, Second(Load), c);
    turns := [First(Load), First(Check), issue, First(Out), First(Elapse(now + SEND_LEASE)), Second(Load)];
    TakenAfter([p0, p1, p2, p3, p4, p5, p], turns, c);
  }

  /** The second run's query finds it succeeded; then the first run records its own result, and the command is sent
      again. */
  lemma StaleRunLeavesATerminalState(now: int, expiresAt: Time, c: Capabilities)
      returns (turns: seq<Turn>, more: seq<Turn>)
    ensures CanTake(RequestedPair(now, expiresAt), turns, c)
        && After(RequestedPair(now, expiresAt), turns, c).state.row.facts.stage == Succeeded
    ensures CanTake(After(RequestedPair(now, expiresAt), turns, c), more, c)
    ensures After(After(RequestedPair(now, expiresAt), turns, c), more, c).state.row.facts.stage == RetryWait
  {
    var start := RequestedPair(now, expiresAt);
    var p;
    turns, p := LeasePasses(now, expiresAt, c);
    var t := p.state.now;
    TakeMore(start, turns, Second(Load), c);
    turns := turns + [Second(Load)];
    TakeMore(start, turns, Second(Answer(QueryFound(Some(Succeeded)), t)), c);
    turns := turns + [Second(Answer(QueryFound(Some(Succeeded)), t))];
    var q := After(start, turns, c);
    more := [First(Result(NotReached, t))];
    TakenAfter([q, Turned(q, more[0], c)], more, c);
  }

  lemma {:induction false} TakeOn(p: Pair, a: seq<Turn>, b: seq<Turn>, c: Capabilities)
    requires CanTake(p, a, c) && CanTake(After(p, a, c), b, c)
    ensures CanTake(p, a + b, c) && After(p, a + b, c) == After(After(p, a, c), b, c)
    decreases |b|
  {
    if b == [] {
      assert a + b == a;
    } else {
      var n := |b| - 1;
      TakeOn(p, a, b[..n], c);
      TakeMore(p, a + b[..n], b[n], c);
      assert a + b == a + b[..n] + [b[n]];
    }
  }

  /** Nothing of the command is known to have reached anyone, and one run still waits for its send's result. */
  predicate Waiting(p: Pair, stage: Stage) {
    && p.other == Idle && p.state.job.Sent? && p.state.row.nextAt <= p.state.now && p.state.row.facts.stage == stage
    && p.state.row.facts.first.None? && p.state.row.facts.last.None? && p.state.row.facts.deadline.None?
  }

  /** Nobody answers for a day, and a person says it did not happen. */
  lemma HandedBack(p: Pair, c: Capabilities) returns (turns: seq<Turn>, q: Pair)
    requires Waiting(p, Unknown) && p.state.row.facts.unknownSince == Some(p.state.now)
    ensures CanTake(p, turns, c) && After(p, turns, c) == q && Waiting(q, RetryWait) && q.state.job == p.state.job
  {
    var later := p.state.now + MANUAL_AFTER + 1;
    var p1 := Turned(p, Second(Load), c);
    var p2 := Turned(p1, First(Elapse(later)), c);
    var p3 := Turned(p2, Second(Answer(QueryDown, later)), c);
    q := Turned(p3, First(Register(RetryWait)), c);
    turns := [Second(Load), First(Elapse(later)), Second(Answer(QueryDown, later)), First(Register(RetryWait))];
    TakenAfter([p, p1, p2, p3, q], turns, c);
  }

  /** The second run sends it again, and records the reach. */
  lemma SentAgain(p: Pair, c: Capabilities) returns (turns: seq<Turn>, q: Pair)
    requires Waiting(p, RetryWait)
    ensures CanTake(p, turns, c) && After(p, turns, c) == q
    ensures q.state.job == p.state.job && q.other == Idle && q.state.row.facts.first == Some(q.state.now)
  {
    var front, sent := SendsAgain(p, c);
    var result := Second(Result(MaybeReached, p.state.now));
    TakeMore(p, front, result, c);
    turns, q := front + [result], Turned(sent, result, c);
  }

  lemma SendsAgain(p: Pair, c: Capabilities) returns (turns: seq<Turn>, q: Pair)
    requires Waiting(p, RetryWait)
    ensures CanTake(p, turns, c) && After(p, turns, c) == q
    ensures q.state.job == p.state.job && q.state.now == p.state.now && q.other.Sent? && q.other.r.first.None?
  {
    var t := p.state.now;
    var issue := if c.irrevocable then Second(Issue) else First(Elapse(t));
    var p1 := Turned(p, Second(Load), c);
    var p2 := Turned(p1, Second(Check), c);
    var p3 := Turned(p2, issue, c);
    q := Turned(p3, Second(Out), c);
    turns := [Second(Load), Second(Check), issue, Second(Out)];
    TakenAfter([p, p1, p2, p3, q], turns, c);
  }

  /** Then the first run, whose copy has no reach, records its own as the first. */
  lemma StaleRunMovesTheFirstReach(now: int, expiresAt: Time, c: Capabilities)
      returns (turns: seq<Turn>, more: seq<Turn>)
    ensures CanTake(RequestedPair(now, expiresAt), turns, c)
    ensures var q := After(RequestedPair(now, expiresAt), turns, c);
            && CanTake(q, more, c) && q.state.row.facts.first.Some? && After(q, more, c).state.row.facts.first.Some?
            && q.state.row.facts.first.value < After(q, more, c).state.row.facts.first.value
  {
    var start := RequestedPair(now, expiresAt);
    var a, p := LeasePasses(now, expiresAt, c);
    var b, v := HandedBack(p, c);
    var d, q := SentAgain(v, c);
    TakeOn(start, a, b, c);
    TakeOn(start, a + b, d, c);
    turns := a + b + d;
    var t := q.state.now + 1;
    more := [First(Elapse(t)), First(Result(MaybeReached, t))];
    var q1 := Turned(q, more[0], c);
    TakenAfter([q, q1, Turned(q1, more[1], c)], more, c);
  }
}
