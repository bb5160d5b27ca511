/**
  The job's control flow (extcmd/commands.go), in place: which transactions and calls one pass over a
  command makes, in which order, given how long each takes and what the adapter and the evidence store
  answer. A pass is a run of the model's moves, so all that is proved of every run holds of it.
 */
module ExternalJob {
  import opened Base
  import opened ExternalCommand

  // ------------------------------------------------------------------ backoff

  function Doubled(d: int, n: nat): int { if n == 0 then d else 2 * Doubled(d, n - 1) }

  /** The wait before the next attempt: doubled from a minute with each attempt, an hour at most. */
  function BackoffFor(attempts: int): int { Min(Doubled(BACKOFF_START, if attempts > 1 then attempts - 1 else 0),
      BACKOFF_CAP) }

  lemma {:induction false} DoubledGrows(d: int, m: nat, n: nat)
    requires d > 0 && m <= n
    ensures 0 < Doubled(d, m) <= Doubled(d, n)
  {
    if m < n {
      DoubledGrows(d, m, n - 1);
    } else if m > 0 {
      DoubledGrows(d, m - 1, n - 1);
    }
  }

  method Backoff(attempts: int) returns (d: int)
    ensures d == BackoffFor(attempts)
  {
    d := BACKOFF_START;
    var i := 1;
    while i < attempts && d < BACKOFF_CAP
      invariant 1 <= i && (i <= attempts || i == 1) && d == Doubled(BACKOFF_START, i - 1)
    {
      d := d * 2;
      i := i + 1;
    }
    if i < attempts {
      DoubledGrows(BACKOFF_START, i - 1, attempts - 1);
    }
    d := Min(d, BACKOFF_CAP);
  }

  /** When a command in a stage is next due. */
  function DueAt(stage: Stage, attempts: int, now: int, c: Capabilities): int {
    match stage
    case RetryWait => now + BackoffFor(attempts)
    case Unknown => now
    case Sending => now
    case Accepted => now + (if c.finality > 0 then c.finality else BACKOFF_START)
    case _ => now + BACKOFF_CAP
  }

  /** When a queried command is next due: unknown and accepted back off. */
  function QueriedDueAt(stage: Stage, attempts: int, now: int, c: Capabilities): int {
    if stage == Unknown || stage == Accepted then now + BackoffFor(attempts) else DueAt(stage, attempts, now, c)
  }

  // ------------------------------------------------------------------ what a pass does

  /** What the run meets: how long until each transaction, the evidence store, the external system's answers. */
  datatype World = World(attempts: nat, untilCheck: nat, issued: bool, untilResult: nat, how: Class, untilAnswer: nat,
      answer: Event)

  predicate Answers(w: World) {
    w.answer.QueryFound? || w.answer == QueryNotFound || w.answer == QueryDown
  }

  function Waited(s: State, d: nat): State { s.(now := s.now + d) }

  /** The call's result, recorded when it is there. */
  function ReportState(s: State, w: World, attempts: nat, c: Capabilities, queryOnly: bool): State
    requires s.job.Sent?
  {
    var t := Waited(s, w.untilResult);
    var next := Step(Learned(t.job.r, w.how, c, t.now), SendResult(w.how), c, t.now);
    Do(t, Result(w.how, DueAt(next, attempts, t.now, c)), c, queryOnly)
  }

  /** After a passed check: the issue record if one is needed, the call, its result; without the record, no call. */
  function CallState(s: State, w: World, attempts: nat, c: Capabilities, queryOnly: bool): State
    requires s.job.Checked? && s.job.issue.None?
  {
    if c.irrevocable && !w.issued then Do(s, NoEvidence(s.now + BackoffFor(attempts)), c, queryOnly)
    else ReportState(Do(if c.irrevocable then Do(s, Issue, c, queryOnly) else s, Out, c, queryOnly), w, attempts, c,
        queryOnly)
  }

  /** A send of the claimed copy: the last check, and the call if it passes. */
  function SendState(s: State, w: World, attempts: nat, c: Capabilities, queryOnly: bool): State
    requires s.job.Claimed?
  {
    var t := Do(Waited(s, w.untilCheck), Check, c, queryOnly);
    if t.job.Checked? then CallState(t, w, attempts, c, queryOnly) else t
  }

  /** A query's answer, taken in when it is there. */
  function AnswerState(s: State, w: World, e: Event, c: Capabilities, queryOnly: bool): State
    requires s.job.Querying? && (e.QueryFound? || e == QueryNotFound || e == QueryDown)
  {
    var t := Waited(s, w.untilAnswer);
    var next := Step(t.job.r, e, c, t.now);
    Do(t, Answer(e, QueriedDueAt(if next == Sending then Unknown else next, w.attempts + 1, t.now, c)), c, queryOnly)
  }

  /** A query, and the send it may lead to. */
  function QueryState(s: State, w: World, c: Capabilities, queryOnly: bool): State
    requires s.job.Querying? && Answers(w)
  {
    var t := AnswerState(s, w, if c.query then w.answer else QueryDown, c, queryOnly);
    if t.job.Claimed? then SendState(t, w, w.attempts + 2, c, queryOnly) else t
  }

  /** A pass over a command: nothing if it is not due, else the first transaction and what it calls for. */
  function PassState(s: State, w: World, c: Capabilities, queryOnly: bool): State
    requires s.job == Idle && Answers(w)
  {
    if s.row.nextAt > s.now then s
    else
      var t := Do(s, Load, c, queryOnly);
      match t.job
      case Claimed(_) => SendState(t, w, w.attempts + 1, c, queryOnly)
      case Querying(_) => QueryState(t, w, c, queryOnly)
      case _ => t
  }

  // ------------------------------------------------------------------ a pass is a run of the model

  ghost predicate Leads(s: State, moves: seq<Move>, t: State, c: Capabilities, queryOnly: bool) {
    Runnable(s, moves, c, queryOnly) && From(s, moves, c, queryOnly) == t
  }

  lemma One(s: State, m: Move, c: Capabilities, queryOnly: bool)
    requires Enabled(s, m, c)
    ensures Leads(s, [m], Do(s, m, c, queryOnly), c, queryOnly)
  {
    RunMore(s, [], m, c, queryOnly);
    assert [] + [m] == [m];
  }

  lemma Then(s: State, a: seq<Move>, t: State, b: seq<Move>, u: State, c: Capabilities, queryOnly: bool)
    requires Leads(s, a, t, c, queryOnly) && Leads(t, b, u, c, queryOnly)
    ensures Leads(s, a + b, u, c, queryOnly)
  {
    RunOn(s, a, b, c, queryOnly);
  }

  lemma WaitLeads(s: State, d: nat, c: Capabilities, queryOnly: bool)
    ensures Leads(s, [Elapse(s.now + d)], Waited(s, d), c, queryOnly)
  {
    One(s, Elapse(s.now + d), c, queryOnly);
  }

  lemma ReportLeads(s: State, w: World, attempts: nat, c: Capabilities, queryOnly: bool) returns (moves: seq<Move>)
    requires s.job.Sent?
    ensures Leads(s, moves, ReportState(s, w, attempts, c, queryOnly), c, queryOnly) && Out !in moves
  {
    var t := Waited(s, w.untilResult);
    var m := Result(w.how, DueAt(Step(Learned(t.job.r, w.how, c, t.now), SendResult(w.how), c, t.now), attempts, t.now,
        c));
    WaitLeads(s, w.untilResult, c, queryOnly);
    One(t, m, c, queryOnly);
    Then(s, [Elapse(t.now)], t, [m], Do(t, m, c, queryOnly), c, queryOnly);
    moves := [Elapse(t.now)] + [m];
  }

  lemma OutLeads(s: State, w: World, attempts: nat, c: Capabilities, queryOnly: bool) returns (moves: seq<Move>)
    requires Enabled(s, Out, c)
    ensures Leads(s, moves, ReportState(Do(s, Out, c, queryOnly), w, attempts, c, queryOnly), c, queryOnly)
  {
    One(s, Out, c, queryOnly);
    var back := ReportLeads(Do(s, Out, c, queryOnly), w, attempts, c, queryOnly);
    Then(s, [Out], Do(s, Out, c, queryOnly), back, ReportState(Do(s, Out, c, queryOnly), w, attempts, c, queryOnly), c,
        queryOnly);
    moves := [Out] + back;
  }

  lemma CallLeads(s: State, w: World, attempts: nat, c: Capabilities, queryOnly: bool) returns (moves: seq<Move>)
    requires s.job.Checked? && s.job.issue.None?
    ensures Leads(s, moves, CallState(s, w, attempts, c, queryOnly), c, queryOnly)
  {
    if c.irrevocable && !w.issued {
      One(s, NoEvidence(s.now + BackoffFor(attempts)), c, queryOnly);
      moves := [NoEvidence(s.now + BackoffFor(attempts))];
    } else if c.irrevocable {
      var i := Do(s, Issue, c, queryOnly);
      One(s, Issue, c, queryOnly);
      var back := OutLeads(i, w, attempts, c, queryOnly);
      Then(s, [Issue], i, back, ReportState(Do(i, Out, c, queryOnly), w, attempts, c, queryOnly), c, queryOnly);
      moves := [Issue] + back;
    } else {
      moves := OutLeads(s, w, attempts, c, queryOnly);
    }
  }

  lemma SendLeads(s: State, w: World, attempts: nat, c: Capabilities, queryOnly: bool) returns (moves: seq<Move>)
    requires s.job.Claimed?
    ensures Leads(s, moves, SendState(s, w, attempts, c, queryOnly), c, queryOnly)
  {
    var t := Waited(s, w.untilCheck);
    var u := Do(t, Check, c, queryOnly);
    WaitLeads(s, w.untilCheck, c, queryOnly);
    One(t, Check, c, queryOnly);
    Then(s, [Elapse(t.now)], t, [Check], u, c, queryOnly);
    moves := [Elapse(t.now)] + [Check];
    if u.job.Checked? {
      var back := CallLeads(u, w, attempts, c, queryOnly);
      Then(s, moves, u, back, CallState(u, w, attempts, c, queryOnly), c, queryOnly);
      moves := moves + back;
    }
  }

  lemma AnswerLeads(s: State, w: World, e: Event, c: Capabilities, queryOnly: bool) returns (moves: seq<Move>)
    requires s.job.Querying? && (e.QueryFound? || e == QueryNotFound || e == QueryDown)
    ensures Leads(s, moves, AnswerState(s, w, e, c, queryOnly), c, queryOnly)
  {
    var t := Waited(s, w.untilAnswer);
    var next := Step(t.job.r, e, c, t.now);
    var m := Answer(e, QueriedDueAt(if next == Sending then Unknown else next, w.attempts + 1, t.now, c));
    WaitLeads(s, w.untilAnswer, c, queryOnly);
    One(t, m, c, queryOnly);
    Then(s, [Elapse(t.now)], t, [m], Do(t, m, c, queryOnly), c, queryOnly);
    moves := [Elapse(t.now)] + [m];
  }

  lemma QueryLeads(s: State, w: World, c: Capabilities, queryOnly: bool) returns (moves: seq<Move>)
    requires s.job.Querying? && Answers(w)
    ensures Leads(s, moves, QueryState(s, w, c, queryOnly), c, queryOnly)
  {
    var e := if c.query then w.answer else QueryDown;
    var t := AnswerState(s, w, e, c, queryOnly);
    moves := AnswerLeads(s, w, e, c, queryOnly);
    if t.job.Claimed? {
      var back := SendLeads(t, w, w.attempts + 2, c, queryOnly);
      Then(s, moves, t, back, SendState(t, w, w.attempts + 2, c, queryOnly), c, queryOnly);
      moves := moves + back;
    }
  }

  /** Whatever the run meets, a pass over a command is a run of the model: what holds of every run holds of it. */
  lemma PassIsARun(s: State, w: World, c: Capabilities, queryOnly: bool) returns (moves: seq<Move>)
    requires s.job == Idle && Answers(w)
    ensures Runnable(s, moves, c, queryOnly) && From(s, moves, c, queryOnly) == PassState(s, w, c, queryOnly)
  {
    moves := [];
    if s.row.nextAt <= s.now {
      var t := Do(s, Load, c, queryOnly);
      One(s, Load, c, queryOnly);
      moves := [Load];
      if t.job.Claimed? {
        var back := SendLeads(t, w, w.attempts + 1, c, queryOnly);
        Then(s, [Load], t, back, SendState(t, w, w.attempts + 1, c, queryOnly), c, queryOnly);
        moves := [Load] + back;
      } else if t.job.Querying? {
        var back := QueryLeads(t, w, c, queryOnly);
        Then(s, [Load], t, back, QueryState(t, w, c, queryOnly), c, queryOnly);
        moves := [Load] + back;
      }
    }
  }

  // ------------------------------------------------------------------ what a pass comes to

  /** A claimed command goes out exactly when its last check is within the deadline and, if irrevocable, its issue
      record is written. */
  lemma SendsExactly(s: State, w: World, attempts: nat, c: Capabilities, queryOnly: bool)
    requires s.job.Claimed? && s.job.r.stage == Sending
    ensures var t, goes := SendState(s, w, attempts, c, queryOnly), !PastDeadline(s.job.r, s.now + w.untilCheck)
        && (c.irrevocable ==> w.issued);
            && t.job == Idle && |t.sends| == |s.sends| + (if goes then 1 else 0)
            && (goes ==> t.sends[|s.sends|] == Send(s.now + w.untilCheck, s.row.facts.first, s.row.facts.last,
                if c.irrevocable then Some(s.issues) else None))
            && t.issues == s.issues + (if goes && c.irrevocable then 1 else 0)
  {
  }

  /** One pass sends at most once, and never in query-only mode or for a command that is not due. */
  lemma PassSendsAtMostOnce(s: State, w: World, c: Capabilities, queryOnly: bool)
    requires s.job == Idle && Answers(w)
    ensures var t := PassState(s, w, c, queryOnly);
            t.job == Idle && |t.sends| <= |s.sends| + 1 && (queryOnly || s.row.nextAt > s.now ==> t.sends == s.sends)
  {
    if s.row.nextAt <= s.now {
      var t := Do(s, Load, c, queryOnly);
      if t.job.Claimed? {
        SendsExactly(t, w, w.attempts + 1, c, queryOnly);
      } else if t.job.Querying? {
        QuerySendsAtMostOnce(t, w, c, queryOnly);
      }
    }
  }

  lemma QuerySendsAtMostOnce(s: State, w: World, c: Capabilities, queryOnly: bool)
    requires s.job.Querying? && Answers(w)
    ensures var t := QueryState(s, w, c, queryOnly);
            t.job == Idle && |t.sends| <= |s.sends| + 1 && (queryOnly ==> t.sends == s.sends)
  {
    var t := AnswerState(s, w, if c.query then w.answer else QueryDown, c, queryOnly);
    if t.job.Claimed? {
      SendsExactly(t, w, w.attempts + 2, c, queryOnly);
    }
  }

  // ------------------------------------------------------------------ the run, in place

  /** One command under one run of the job; a crash is a run that goes no further. */
  class JobRun {
    const caps: Capabilities
    const queryOnly: bool
    var now: int
    var row: Row
    var r: Facts
    ghost var state: State

    /** What the run has at hand is the model's. */
    ghost predicate Tracks()
      reads this
    {
      now == state.now && row == state.row
    }

    constructor (s: State, caps: Capabilities, queryOnly: bool)
      ensures Tracks() && state == s && this.caps == caps && this.queryOnly == queryOnly
    {
      this.caps, this.queryOnly, now, row, r, state := caps, queryOnly, s.now, s.row, s.row.facts, s;
    }

    ghost method Took(m: Move)
      requires Enabled(state, m, caps)
      modifies this`state
      ensures state == Do(old(state), m, caps, queryOnly)
    {
      state := Do(state, m, caps, queryOnly);
    }

    method Wait(d: nat)
      requires Tracks()
      modifies this`now, this`state
      ensures Tracks() && state == Waited(old(state), d)
    {
      Took(Elapse(now + d));
      now := now + d;
    }

    /** process: a claim and a send, a takeover, a query. */
    method Process(w: World)
      requires Tracks() && state.job == Idle && Answers(w)
      modifies this
      ensures Tracks() && state == PassState(old(state), w, caps, queryOnly)
    {
      if row.nextAt > now {
        return;
      }
      var send, query := LoadDue();
      if send {
        SendOut(w, w.attempts + 1);
      } else if query {
        Query(w);
      }
    }

    /** process's first transaction. */
    method LoadDue() returns (send: bool, query: bool)
      requires Tracks() && state.job == Idle && row.nextAt <= now
      modifies this`row, this`r, this`state
      ensures Tracks() && state == Do(old(state), Load, caps, queryOnly)
      ensures state.job == if send then Claimed(r) else if query then Querying(r) else Idle
    {
      r := row.facts;
      send, query := false, false;
      match r.stage {
      case Prepared => send := Claiming();
      case RetryWait => send := Claiming();
      case Sending =>
        row := Set(row, Step(r, LeaseLost, caps, now), now, now);
        Took(Load);
      case Unknown =>
        query := true;
        Took(Load);
      case Accepted => query := AwaitFinality();
      case _ => Took(Load);
      }
    }

    /** An accepted command: waits, or asks once the adapter's limit has passed. */
    method AwaitFinality() returns (query: bool)
      requires Tracks() && state.job == Idle && row.nextAt <= now && r == row.facts && r.stage == Accepted
      modifies this`row, this`state
      ensures Tracks() && state == Do(old(state), Load, caps, queryOnly)
      ensures query
          <==> caps.query && !(caps.finality > 0 && r.acceptedSince.Some?
                               && now - r.acceptedSince.value < caps.finality)
      ensures state.job == if query then Querying(r) else Idle
    {
      query := false;
      if caps.finality > 0 && r.acceptedSince.Some? && now - r.acceptedSince.value < caps.finality {
        row := Set(row, Accepted, r.acceptedSince.value + caps.finality, now);
      } else {
        var next := Step(r, FinalityPassed, caps, now);
        if next == Accepted && caps.query {
          query := true;
        } else {
          row := Set(row, next, now + BACKOFF_CAP, now);
        }
      }
      Took(Load);
    }

    method Claiming() returns (send: bool)
      requires Tracks() && state.job == Idle && row.nextAt <= now && r == row.facts
          && (r.stage == Prepared || r.stage == RetryWait)
      modifies this`row, this`r, this`state
      ensures Tracks() && state == Do(old(state), Load, caps, queryOnly)
      ensures send <==> !queryOnly && !PastDeadline(old(r), now)
      ensures state.job == if send then Claimed(r) else Idle
    {
      send := false;
      if queryOnly {
        row := Set(row, r.stage, now + BACKOFF_START, now);
      } else {
        var next := Step(r, Claim, caps, now);
        if next == Unknown {
          row := Set(row, Unknown, now, now);
        } else {
          send := true;
          row := Set(row, Sending, now + SEND_LEASE, now);
          r := r.(stage := Sending);
        }
      }
      Took(Load);
    }

    /** send: the last check, the issue record, the call, the result. */
    method SendOut(w: World, attempts: nat)
      requires Tracks() && state.job == Claimed(r)
      modifies this
      ensures Tracks() && state == SendState(old(state), w, attempts, caps, queryOnly)
    {
      var ok := LastCheck(w);
      if ok {
        Call(w, attempts);
      }
    }

    method LastCheck(w: World) returns (ok: bool)
      requires Tracks() && state.job == Claimed(r)
      modifies this`now, this`row, this`state
      ensures Tracks() && state == Do(Waited(old(state), w.untilCheck), Check, caps, queryOnly)
      ensures ok <==> Step(r, BeforeSend, caps, now) != Unknown
      ensures state.job == if ok then Checked(r, now, None) else Idle
    {
      Wait(w.untilCheck);
      ok := Step(r, BeforeSend, caps, now) != Unknown;
      if !ok {
        row := Set(row, Unknown, now, now);
      }
      Took(Check);
    }

    /** The issue record of an irrevocable command, and the call; without one, neither. */
    method Call(w: World, attempts: nat)
      requires Tracks() && state.job == Checked(r, now, None)
      modifies this
      ensures Tracks() && state == CallState(old(state), w, attempts, caps, queryOnly)
    {
      if caps.irrevocable {
        if !w.issued {
          var d := Backoff(attempts);
          row := Set(row, RetryWait, now + d, now);
          Took(NoEvidence(now + d));
          return;
        }
        Took(Issue);
      }
      Took(Out);
      Report(w, attempts);
    }

    /** The result's transaction. */
    method Report(w: World, attempts: nat)
      requires Tracks() && state.job == Sent(r)
      modifies this
      ensures Tracks() && state == ReportState(old(state), w, attempts, caps, queryOnly)
    {
      Wait(w.untilResult);
      r := Learned(r, w.how, caps, now);
      var next := Step(r, SendResult(w.how), caps, now);
      var due := NextAt(next, attempts);
      row := Set(Row(row.facts.(first := r.first, last := r.last, deadline := r.deadline), row.nextAt), next, due, now);
      Took(Result(w.how, due));
    }

    method Query(w: World)
      requires Tracks() && state.job == Querying(r) && Answers(w)
      modifies this
      ensures Tracks() && state == QueryState(old(state), w, caps, queryOnly)
    {
      var send := TakeAnswer(w, if caps.query then w.answer else QueryDown);
      if send {
        SendOut(w, w.attempts + 2);
      }
    }

    /** The answer's transaction. */
    method TakeAnswer(w: World, e: Event) returns (send: bool)
      requires Tracks() && state.job == Querying(r) && (e.QueryFound? || e == QueryNotFound || e == QueryDown)
      modifies this
      ensures Tracks() && state == AnswerState(old(state), w, e, caps, queryOnly)
      ensures send <==> Step(old(r), e, caps, now) == Sending && !queryOnly
      ensures state.job == if send then Claimed(r) else Idle
    {
      Wait(w.untilAnswer);
      var next := Step(r, e, caps, now);
      var due := QueryAgain(if next == Sending then Unknown else next, w.attempts + 1);
      send := next == Sending && !queryOnly;
      if send {
        row := Set(row, Sending, now + SEND_LEASE, now);
      } else {
        row := Set(row, if next == Sending then Unknown else next, due, now);
      }
      Took(Answer(e, due));
      if send {
        r := r.(stage := Sending);
      }
    }

    method QueryAgain(stage: Stage, attempts: nat) returns (at: int)
      ensures at == QueriedDueAt(stage, attempts, now, caps)
    {
      if stage == Unknown || stage == Accepted {
        var d := Backoff(attempts);
        at := now + d;
      } else {
        at := NextAt(stage, attempts);
      }
    }

    method NextAt(stage: Stage, attempts: nat) returns (at: int)
      ensures at == DueAt(stage, attempts, now, caps)
    {
      var d := Backoff(attempts);
      at := now + match stage
      case RetryWait => d
      case Unknown => 0
      case Sending => 0
      case Accepted => if caps.finality > 0 then caps.finality else BACKOFF_START
      case _ => BACKOFF_CAP;
    }
  }
}
