/**
  External commands (extcmd/state.go, extcmd/commands.go): the state table, and the job that takes a
  command forward in transactions with sends and queries between them, may crash between any two, and
  must not send again once the external system may have forgotten the reference.
  Times are nanoseconds.
 */
module ExternalCommand {
  import opened Base

  const MINUTE := 60_000_000_000
  const HOUR := 3_600_000_000_000
  const MANUAL_AFTER := 86_400_000_000_000
  const MIN_MARGIN := HOUR
  const SEND_LEASE := 2 * MINUTE
  const BACKOFF_START := MINUTE
  const BACKOFF_CAP := HOUR

  datatype Stage = Prepared | RetryWait | Sending | Unknown | Accepted | Manual | Succeeded | Failed | Rejected

  predicate Terminal(s: Stage) { s == Succeeded || s == Failed || s == Rejected }

  /** How an adapter classifies a send; Unclassified is a class the table has no row for. */
  datatype Class = NotReached | MaybeReached | Final(stage: Stage) | Unclassified

  datatype Event = Claim | BeforeSend | LeaseLost | SendResult(how: Class) | QueryFound(external: Option<Stage>)
                 | QueryNotFound | QueryDown | FinalityPassed | Registered(stage: Stage)

  datatype Capabilities = Capabilities(dedupeWindow: int, lastUse: bool, query: bool, maxProcessing: int,
      finality: int, irrevocable: bool)

  type Time = Option<int>

  datatype Facts = Facts(stage: Stage, deadline: Time, expiresAt: Time, first: Time, last: Time,
                         unknownSince: Time, acceptedSince: Time, unrecordedUntil: Time)

  // ------------------------------------------------------------------ the table

  /** The margin before the end of the window. */
  function Margin(c: Capabilities): int
    requires c.dedupeWindow > 0
  {
    Max(c.dedupeWindow / 10, MIN_MARGIN)
  }

  /** The reach a window counts from: the last for last-use operations, else the first. */
  function CountsFrom(f: Facts, c: Capabilities): Time {
    if c.lastUse && f.last.Some? then f.last else f.first
  }

  function Deadline(f: Facts, c: Capabilities): Time {
    if c.dedupeWindow <= 0 || CountsFrom(f, c).None? then None
        else Some(CountsFrom(f, c).value + c.dedupeWindow - Margin(c))
  }

  function Latest(f: Facts): Time {
    if f.unrecordedUntil.Some? && (f.last.None? || f.unrecordedUntil.value > f.last.value) then f.unrecordedUntil
        else f.last
  }

  /** A "not found" answer allows sending again only when the earlier request can no longer land, or is deduplicated. */
  predicate Resendable(f: Facts, c: Capabilities, now: int) {
    || (Deadline(f, c).Some? && now <= Deadline(f, c).value)
    || (f.expiresAt.Some? && now > f.expiresAt.value)
    || (c.maxProcessing > 0 && Latest(f).Some? && now - Latest(f).value > c.maxProcessing)
  }

  predicate PastDeadline(f: Facts, now: int) { f.deadline.Some? && now > f.deadline.value }

  function Step(f: Facts, e: Event, c: Capabilities, now: int): Stage {
    var s := f.stage;
    if Terminal(s) then s
    else match e
      case Claim => if s == Prepared || s == RetryWait then (if PastDeadline(f, now) then Unknown else Sending) else s
      case BeforeSend => if s == Sending && PastDeadline(f, now) then Unknown else s
      case LeaseLost => if s == Sending then Unknown else s
      case SendResult(how) =>
        if s != Sending then s
        else (match how
          case NotReached => RetryWait
          case MaybeReached => Unknown
          case Final(t) => if t == Accepted || Terminal(t) then t else s
          case Unclassified => s)
      case QueryFound(external) =>
        if (s == Unknown || s == Accepted) && external.Some?
            && (Terminal(external.value) || external.value == Accepted) then external.value else s
      case QueryDown =>
        if s == Unknown || s == Accepted then
          var since := if s == Accepted then f.acceptedSince else f.unknownSince;
          if since.Some? && now - since.value > MANUAL_AFTER then Manual else s
        else s
      case QueryNotFound => if s == Unknown then (if Resendable(f, c, now) then Sending else Manual) else s
      case FinalityPassed =>
        if s == Accepted && !c.query && f.acceptedSince.Some?
            && now - f.acceptedSince.value > MANUAL_AFTER then Manual else s
      case Registered(stage) => if s == Manual then stage else s
  }

  /** The only ways into sending: a claim or a check within the deadline, and a query that found nothing. */
  lemma EntersSending(f: Facts, e: Event, c: Capabilities, now: int)
    requires Step(f, e, c, now) == Sending && f.stage != Sending && !e.Registered?
    ensures (e == Claim && f.stage in {Prepared, RetryWait} && !PastDeadline(f, now))
        || (e == QueryNotFound && f.stage == Unknown && Resendable(f, c, now))
  {
  }

  // ------------------------------------------------------------------ the job

  datatype Row = Row(facts: Facts, nextAt: int)

  /** set: the transition, when the command is next due, and since when it has been unknown or accepted. */
  function Set(row: Row, stage: Stage, nextAt: int, now: int): Row {
    Row(row.facts.(stage := stage,
                   unknownSince := if stage == Unknown then (if row.facts.unknownSince.Some?
                       then row.facts.unknownSince else Some(now)) else None,
                   acceptedSince := if stage == Accepted then (if row.facts.acceptedSince.Some?
                       then row.facts.acceptedSince else Some(now)) else None),
        nextAt)
  }

  predicate Reached(how: Class) { how != NotReached }

  /** The facts after a send's result, from the copy its run read. */
  function Learned(r: Facts, how: Class, c: Capabilities, now: int): Facts {
    var f := if Reached(how) then r.(first := if r.first.Some? then r.first else Some(now), last := Some(now)) else r;
    f.(deadline := Deadline(f, c))
  }

  /** The recording transaction: reach times and deadline from the run's copy, then the transition. */
  function Record(row: Row, r: Facts, how: Class, c: Capabilities, nextAt: int, now: int): Row {
    var f := Learned(r, how, c, now);
    Set(Row(row.facts.(first := f.first, last := f.last, deadline := f.deadline), row.nextAt),
        Step(f, SendResult(how), c, now), nextAt, now)
  }

  /** Where the job's one run is with this command; r is the copy it read. */
  datatype Job = Idle | Claimed(r: Facts) | Checked(r: Facts, at: int,
      issue: Option<nat>) | Sent(r: Facts) | Querying(r: Facts)

  /** A send: when its last check passed, the reaches recorded by then, and its issue record. */
  datatype Send = Send(checkedAt: int, first: Time, last: Time, issue: Option<nat>)

  /** issues counts the issue records of irrevocable sends, in the evidence store or on the alert channel. */
  datatype State = State(now: int, row: Row, job: Job, sends: seq<Send>, issues: nat)

  /**
    The job's transactions and calls, a crash at any point, time, and a person's registration. nextAt is
    when a transaction makes the command due again where the source computes a backoff.
   */
  datatype Move = Elapse(now: int) | Load | Check | Issue | NoEvidence(nextAt: int) | Out | Result(how: Class,
      nextAt: int)
                | Answer(e: Event, nextAt: int) | Crash | Register(stage: Stage)

  predicate Enabled(s: State, m: Move, c: Capabilities) {
    match m
    case Elapse(now) => now >= s.now
    case Load => s.job == Idle && s.row.nextAt <= s.now
    case Check => s.job.Claimed?
    case Issue => s.job.Checked? && s.job.issue.None? && c.irrevocable
    case NoEvidence(_) => s.job.Checked? && s.job.issue.None? && c.irrevocable
    case Out => s.job.Checked? && (c.irrevocable ==> s.job.issue.Some?)
    case Result(_, _) => s.job.Sent?
    case Answer(e, _) => s.job.Querying? && (e.QueryFound? || e == QueryNotFound || e == QueryDown)
    case Crash => true
    case Register(stage) => s.row.facts.stage == Manual && (Terminal(stage) || stage == RetryWait)
  }

  /** process's first transaction. */
  function Loaded(s: State, c: Capabilities, queryOnly: bool): State {
    var f := s.row.facts;
    match f.stage
    case Unknown => s.(job := Querying(f))
    case Sending => s.(row := Set(s.row, Step(f, LeaseLost, c, s.now), s.now, s.now))
    case Accepted =>
      if c.finality > 0 && f.acceptedSince.Some? && s.now - f.acceptedSince.value < c.finality then
        s.(row := Set(s.row, Accepted, f.acceptedSince.value + c.finality, s.now))
      else if Step(f, FinalityPassed, c, s.now) == Accepted && c.query then s.(job := Querying(f))
      else s.(row := Set(s.row, Step(f, FinalityPassed, c, s.now), s.now + BACKOFF_CAP, s.now))
    case _ =>
      if f.stage != Prepared && f.stage != RetryWait then s
      else if queryOnly then s.(row := Set(s.row, f.stage, s.now + BACKOFF_START, s.now))
      else if Step(f, Claim, c, s.now) == Unknown then s.(row := Set(s.row, Unknown, s.now, s.now))
      else
        var row := Set(s.row, Sending, s.now + SEND_LEASE, s.now);
        s.(row := row, job := Claimed(f.(stage := Sending)))
  }

  function Do(s: State, m: Move, c: Capabilities, queryOnly: bool): State
    requires Enabled(s, m, c)
  {
    match m
    case Elapse(now) => s.(now := now)
    case Load => Loaded(s, c, queryOnly)
    case Check =>
      if Step(s.job.r, BeforeSend, c, s.now) == Unknown then s.(row := Set(s.row, Unknown, s.now, s.now), job := Idle)
      else s.(job := Checked(s.job.r, s.now, None))
    case Issue => s.(job := s.job.(issue := Some(s.issues)), issues := s.issues + 1)
    case NoEvidence(nextAt) => s.(row := Set(s.row, RetryWait, nextAt, s.now), job := Idle)
    case Out => s.(job := Sent(s.job.r), sends :=
        s.sends + [Send(s.job.at, s.row.facts.first, s.row.facts.last, s.job.issue)])
    case Result(how, nextAt) => s.(row := Record(s.row, s.job.r, how, c, nextAt, s.now), job := Idle)
    case Answer(e, nextAt) =>
      var next := Step(s.job.r, e, c, s.now);
      if next == Sending && queryOnly then s.(row := Set(s.row, Unknown, nextAt, s.now), job := Idle)
      else if next == Sending then s.(row := Set(s.row, Sending, s.now + SEND_LEASE, s.now), job :=
          Claimed(s.job.r.(stage := Sending)))
      else s.(row := Set(s.row, next, nextAt, s.now), job := Idle)
    case Crash => s.(job := Idle)
    case Register(stage) => s.(row := Set(s.row, stage, s.now, s.now))
  }

  predicate Runnable(s: State, moves: seq<Move>, c: Capabilities, queryOnly: bool)
    decreases |moves|, 0
  {
    moves == [] || (Runnable(s, moves[..|moves| - 1], c, queryOnly)
        && Enabled(From(s, moves[..|moves| - 1], c, queryOnly), moves[|moves| - 1], c))
  }

  function From(s: State, moves: seq<Move>, c: Capabilities, queryOnly: bool): State
    requires Runnable(s, moves, c, queryOnly)
    decreases |moves|, 1
  {
    if moves == [] then s else Do(From(s, moves[..|moves| - 1], c, queryOnly), moves[|moves| - 1], c, queryOnly)
  }

  /** A command as it is requested. */
  function Requested(now: int, expiresAt: Time): State {
    State(now, Row(Facts(Prepared, None, expiresAt, None, None, None, None, None), now), Idle, [], 0)
  }

  // ------------------------------------------------------------------ resend timing

  /** The reach times and the deadline a run read are the row's. */
  predicate SameReach(r: Facts, f: Facts) {
    r.first == f.first && r.last == f.last && r.deadline == f.deadline
  }

  predicate Timely(send: Send, c: Capabilities) {
    var base := if c.lastUse && send.last.Some? then send.last else send.first;
    c.dedupeWindow > 0 && send.first.Some? ==> base.Some? && send.checkedAt <= base.value + c.dedupeWindow - Margin(c)
  }

  predicate JobOk(s: State) {
    match s.job
    case Idle => true
    case Claimed(r) => SameReach(r, s.row.facts) && r.stage == Sending && s.row.facts.stage == Sending
    case Checked(r, at, _) => SameReach(r, s.row.facts) && !PastDeadline(r, at) && s.row.facts.stage == Sending
    case Sent(r) => SameReach(r, s.row.facts) && s.row.facts.stage == Sending
    case Querying(r) =>
      SameReach(r, s.row.facts) && r.stage == s.row.facts.stage && (r.stage == Unknown || r.stage == Accepted)
  }

  /** Each send of an irrevocable operation has an issue record of its own; one just written is no send's yet. */
  predicate Issued(s: State, c: Capabilities) {
    && (forall i :: 0 <= i < |s.sends| && c.irrevocable ==> s.sends[i].issue.Some? && s.sends[i].issue.value < s.issues)
    && (forall i, j :: 0 <= i < j < |s.sends| && c.irrevocable ==> s.sends[i].issue != s.sends[j].issue)
    && (s.job.Checked? && s.job.issue.Some? ==>
          s.job.issue.value < s.issues && forall i :: 0 <= i < |s.sends| ==> s.sends[i].issue != s.job.issue)
  }

  predicate Inv(s: State, c: Capabilities) {
    && s.row.facts.deadline == Deadline(s.row.facts, c)
    && (s.row.facts.first.Some? <==> s.row.facts.last.Some?)
    && JobOk(s) && (forall i :: 0 <= i < |s.sends| ==> Timely(s.sends[i], c)) && Issued(s, c)
  }

  lemma LoadKeeps(s: State, c: Capabilities, queryOnly: bool)
    requires Inv(s, c) && Enabled(s, Load, c)
    ensures Inv(Do(s, Load, c, queryOnly), c)
  {
    var t := Loaded(s, c, queryOnly);
    LoadedFacts(s, c, queryOnly);
    assert JobOk(t);
    assert Issued(t, c);
  }

  /** process's first transaction changes the stage and its times only, and a copy it takes is the row's. */
  lemma LoadedFacts(s: State, c: Capabilities, queryOnly: bool)
    requires s.job == Idle
    ensures var t := Loaded(s, c, queryOnly);
            && SameReach(t.row.facts, s.row.facts) && t.sends == s.sends && t.issues == s.issues
            && (t.job == Idle
                || (t.job.Claimed? && t.job.r.stage == Sending == t.row.facts.stage && SameReach(t.job.r, s.row.facts))
                || (t.job == Querying(s.row.facts) && t.row == s.row
                    && (s.row.facts.stage == Unknown || s.row.facts.stage == Accepted)))
  {
  }

  lemma ResultKeeps(s: State, how: Class, nextAt: int, c: Capabilities, queryOnly: bool)
    requires Inv(s, c) && s.job.Sent?
    ensures Inv(Do(s, Result(how, nextAt), c, queryOnly), c)
  {
  }

  lemma AnswerKeeps(s: State, e: Event, nextAt: int, c: Capabilities, queryOnly: bool)
    requires Inv(s, c) && Enabled(s, Answer(e, nextAt), c)
    ensures Inv(Do(s, Answer(e, nextAt), c, queryOnly), c)
  {
  }

  lemma OutKeeps(s: State, c: Capabilities, queryOnly: bool)
    requires Inv(s, c) && Enabled(s, Out, c)
    ensures Inv(Do(s, Out, c, queryOnly), c)
  {
    assert Timely(Send(s.job.at, s.row.facts.first, s.row.facts.last, s.job.issue), c);
  }

  lemma IssueKeeps(s: State, c: Capabilities, queryOnly: bool)
    requires Inv(s, c) && Enabled(s, Issue, c)
    ensures Inv(Do(s, Issue, c, queryOnly), c)
  {
  }

  lemma MoveKeeps(s: State, m: Move, c: Capabilities, queryOnly: bool)
    requires Inv(s, c) && Enabled(s, m, c)
    ensures Inv(Do(s, m, c, queryOnly), c)
  {
    match m
    case Load => LoadKeeps(s, c, queryOnly);
    case Result(how, nextAt) => ResultKeeps(s, how, nextAt, c, queryOnly);
    case Out => OutKeeps(s, c, queryOnly);
    case Issue => IssueKeeps(s, c, queryOnly);
    case Answer(e, nextAt) => AnswerKeeps(s, e, nextAt, c, queryOnly);
    case _ =>
  }

  /**
    Every send of every run, whatever crashes and registrations: once a reach is recorded, the send's last
    check passed no later than that reach (the last one, for last-use operations) plus the window less
    its margin.
   */
  lemma {:induction false} EverySendIsTimely(now: int, expiresAt: Time, moves: seq<Move>, c: Capabilities,
      queryOnly: bool)
    requires Runnable(Requested(now, expiresAt), moves, c, queryOnly)
    ensures Inv(From(Requested(now, expiresAt), moves, c, queryOnly), c)
    ensures var s := From(Requested(now, expiresAt), moves, c, queryOnly); forall i :: 0 <= i < |s.sends| ==>
        Timely(s.sends[i], c)
    decreases |moves|
  {
    if moves != [] {
      var front := moves[..|moves| - 1];
      EverySendIsTimely(now, expiresAt, front, c, queryOnly);
      MoveKeeps(From(Requested(now, expiresAt), front, c, queryOnly), moves[|moves| - 1], c, queryOnly);
    }
  }

  /** What never changes again: a recorded first reach, a terminal state; reaches only move on. */
  predicate Settles(a: State, b: State) {
    && a.now <= b.now && a.sends <= b.sends
    && (a.row.facts.first.Some? ==> b.row.facts.first == a.row.facts.first)
    && (Terminal(a.row.facts.stage) ==> b.row.facts.stage == a.row.facts.stage)
  }

  lemma MoveSettles(s: State, m: Move, c: Capabilities, queryOnly: bool)
    requires Inv(s, c) && Enabled(s, m, c)
    ensures Settles(s, Do(s, m, c, queryOnly))
  {
  }

  lemma {:induction false} EveryRunSettles(s: State, moves: seq<Move>, c: Capabilities, queryOnly: bool)
    requires Inv(s, c) && Runnable(s, moves, c, queryOnly)
    ensures Inv(From(s, moves, c, queryOnly), c) && Settles(s, From(s, moves, c, queryOnly))
    decreases |moves|
  {
    if moves != [] {
      var front := moves[..|moves| - 1];
      EveryRunSettles(s, front, c, queryOnly);
      MoveKeeps(From(s, front, c, queryOnly), moves[|moves| - 1], c, queryOnly);
      MoveSettles(From(s, front, c, queryOnly), moves[|moves| - 1], c, queryOnly);
    }
  }

  /** In query-only mode nothing is sent, from any state without a send already under way, for as long as it lasts. */
  lemma {:induction false} QueryOnlyNeverSends(s: State, moves: seq<Move>, c: Capabilities)
    requires Runnable(s, moves, c, true) && (s.job == Idle || s.job.Querying?)
    ensures From(s, moves, c, true).sends == s.sends
        && (From(s, moves, c, true).job == Idle || From(s, moves, c, true).job.Querying?)
    decreases |moves|
  {
    if moves != [] {
      QueryOnlyNeverSends(s, moves[..|moves| - 1], c);
    }
  }

  /** A terminal command is never sent again. */
  lemma {:induction false} TerminalNeverSends(s: State, moves: seq<Move>, c: Capabilities, queryOnly: bool)
    requires Inv(s, c) && s.job == Idle && Terminal(s.row.facts.stage) && Runnable(s, moves, c, queryOnly)
    ensures From(s, moves, c, queryOnly).sends == s.sends && From(s, moves, c, queryOnly).job == Idle
        && From(s, moves, c, queryOnly).row.facts.stage == s.row.facts.stage
    decreases |moves|
  {
    if moves != [] {
      TerminalNeverSends(s, moves[..|moves| - 1], c, queryOnly);
    }
  }

  /** In every run, each send of an irrevocable operation has an issue record of its own, written before it. */
  lemma EverySendIsIssued(now: int, expiresAt: Time, moves: seq<Move>, c: Capabilities, queryOnly: bool)
    requires Runnable(Requested(now, expiresAt), moves, c, queryOnly) && c.irrevocable
    ensures var s := From(Requested(now, expiresAt), moves, c, queryOnly);
            && |s.sends| <= s.issues
            && (forall i :: 0 <= i < |s.sends| ==> s.sends[i].issue.Some? && s.sends[i].issue.value < s.issues)
            && forall i, j :: 0 <= i < j < |s.sends| ==> s.sends[i].issue != s.sends[j].issue
  {
    EverySendIsTimely(now, expiresAt, moves, c, queryOnly);
    var s := From(Requested(now, expiresAt), moves, c, queryOnly);
    FewerThan(seq(|s.sends|, i requires 0 <= i < |s.sends| => s.sends[i].issue.value), s.issues);
  }

  lemma {:induction false} FewerThan(xs: seq<nat>, n: nat)
    requires (forall i :: 0 <= i < |xs| ==> xs[i] < n) && forall i, j :: 0 <= i < j < |xs| ==> xs[i] != xs[j]
    ensures |xs| <= n
    decreases n
  {
    if xs != [] {
      assert 0 <= xs[0] < n;
      if exists k :: 0 <= k < |xs| && xs[k] == n - 1 {
        var k :| 0 <= k < |xs| && xs[k] == n - 1;
        var ys := xs[..k] + xs[k + 1..];
        assert forall i :: 0 <= i < |ys| ==> ys[i] == xs[if i < k then i else i + 1];
        FewerThan(ys, n - 1);
      } else {
        FewerThan(xs, n - 1);
      }
    }
  }

  // ------------------------------------------------------------------ a query that finds nothing

  /** What a query that finds nothing leads to, on an unknown command, with the last check at its time. */
  lemma NotFoundLeads(s: State, nextAt: int, check: int, c: Capabilities)
    requires s.job.Querying? && s.job.r == s.row.facts && s.row.facts.stage == Unknown && check >= s.now
    ensures Enabled(s, Answer(QueryNotFound, nextAt), c)
    ensures var f, a := s.row.facts, Do(s, Answer(QueryNotFound, nextAt), c, false);
            if !Resendable(f, c, s.now) then a.row.facts.stage == Manual && a.job == Idle && a.sends == s.sends
            else
              && Enabled(a, Elapse(check), c) && Enabled(Do(a, Elapse(check), c, false), Check, c)
              && var b := Do(Do(a, Elapse(check), c, false), Check, c, false);
                 && b.sends == s.sends && b.now == check
                 && (PastDeadline(f, check) ==>
                     b.job == Idle && b.row == Row(f.(stage := Unknown, unknownSince := Some(check), acceptedSince :=
                     None), check))
                 && (!PastDeadline(f, check) ==> b.job.Checked? && b.job.at == check)
  {
  }

  /** An unknown command that is due, with no run at it. */
  predicate Due(s: State) {
    s.job == Idle && s.row.facts.stage == Unknown && s.row.nextAt <= s.now
  }

  /** Past its resend deadline, while its expiry or its longest processing time allows sending again for good. */
  predicate Stuck(s: State, c: Capabilities) {
    var f := s.row.facts;
    && Due(s) && PastDeadline(f, s.now)
    && ((f.expiresAt.Some? && s.now > f.expiresAt.value)
        || (c.maxProcessing > 0 && Latest(f).Some? && s.now - Latest(f).value > c.maxProcessing))
  }

  function RoundMoves(s: State, check: int): seq<Move> {
    [Load, Answer(QueryNotFound, s.now), Elapse(check), Check]
  }

  lemma StuckRound(s: State, check: int, c: Capabilities)
    requires Stuck(s, c) && check >= s.now
    ensures Runnable(s, RoundMoves(s, check), c, false)
    ensures var t := From(s, RoundMoves(s, check), c, false);
            Stuck(t, c) && t.sends == s.sends && t.row.facts.unknownSince == Some(check) && t.now == check
  {
    var a := Do(s, Load, c, false);
    NotFoundLeads(a, s.now, check, c);
    FourMoves(s, RoundMoves(s, check), c);
  }

  lemma FourMoves(s: State, ms: seq<Move>, c: Capabilities)
    requires |ms| == 4 && Enabled(s, ms[0], c)
    requires var a := Do(s, ms[0], c, false); Enabled(a, ms[1], c)
    requires var b := Do(Do(s, ms[0], c, false), ms[1], c, false); Enabled(b, ms[2], c)
    requires var d := Do(Do(Do(s, ms[0], c, false), ms[1], c, false), ms[2], c, false); Enabled(d, ms[3], c)
    ensures Runnable(s, ms, c, false) && From(s, ms, c, false)
        == Do(Do(Do(Do(s, ms[0], c, false), ms[1], c, false), ms[2], c, false), ms[3], c, false)
  {
    RunMore(s, [], ms[0], c, false);
    RunMore(s, [] + [ms[0]], ms[1], c, false);
    RunMore(s, [] + [ms[0]] + [ms[1]], ms[2], c, false);
    RunMore(s, [] + [ms[0]] + [ms[1]] + [ms[2]], ms[3], c, false);
    assert ms == [] + [ms[0]] + [ms[1]] + [ms[2]] + [ms[3]];
  }

  lemma RunMore(s: State, moves: seq<Move>, m: Move, c: Capabilities, queryOnly: bool)
    requires Runnable(s, moves, c, queryOnly) && Enabled(From(s, moves, c, queryOnly), m, c)
    ensures Runnable(s, moves + [m], c, queryOnly)
        && From(s, moves + [m], c, queryOnly) == Do(From(s, moves, c, queryOnly), m, c, queryOnly)
  {
    assert (moves + [m])[..|moves + [m]| - 1] == moves;
  }

  lemma {:induction false} RunOn(s: State, a: seq<Move>, b: seq<Move>, c: Capabilities, queryOnly: bool)
    requires Runnable(s, a, c, queryOnly) && Runnable(From(s, a, c, queryOnly), b, c, queryOnly)
    ensures Runnable(s, a + b, c, queryOnly) && From(s, a + b, c, queryOnly)
        == From(From(s, a, c, queryOnly), b, c, queryOnly)
    decreases |b|
  {
    if b == [] {
      assert a + b == a;
    } else {
      var n := |b| - 1;
      RunOn(s, a, b[..n], c, queryOnly);
      RunMore(s, a + b[..n], b[n], c, queryOnly);
      assert a + b == a + b[..n] + [b[n]];
    }
  }

  /**
    Such a command never settles: for any number of rounds there is a run of so many queries, each finding
    nothing, in which it is not sent, not given to a person, and unknown only since its latest round.
   */
  lemma {:induction false} StuckNeverSettles(s: State, checks: seq<int>, c: Capabilities) returns (moves: seq<Move>)
    requires Stuck(s, c) && (forall i :: 0 <= i < |checks| ==> checks[i] >= s.now)
        && forall i, j :: 0 <= i < j < |checks| ==> checks[i] <= checks[j]
    ensures |moves| == 4 * |checks| && Runnable(s, moves, c, false)
    ensures var t := From(s, moves, c, false);
            && Stuck(t, c) && t.sends == s.sends
            && (checks != [] ==> t.now == checks[|checks| - 1] && t.row.facts.unknownSince == Some(t.now))
    decreases |checks|
  {
    moves := [];
    if checks != [] {
      var n := |checks| - 1;
      var front := StuckNeverSettles(s, checks[..n], c);
      var t := From(s, front, c, false);
      StuckRound(t, checks[n], c);
      moves := front + RoundMoves(t, checks[n]);
      RunOn(s, front, RoundMoves(t, checks[n]), c, false);
    }
  }

  // ------------------------------------------------------------------ when that happens

  function AskMoves(s: State): seq<Move> { [Load, Answer(QueryNotFound, s.now)] }

  lemma TwoMoves(s: State, ms: seq<Move>, c: Capabilities)
    requires |ms| == 2 && Enabled(s, ms[0], c)
    requires var a := Do(s, ms[0], c, false); Enabled(a, ms[1], c)
    ensures Runnable(s, ms, c, false) && From(s, ms, c, false) == Do(Do(s, ms[0], c, false), ms[1], c, false)
  {
    RunMore(s, [], ms[0], c, false);
    RunMore(s, [] + [ms[0]], ms[1], c, false);
    assert ms == [] + [ms[0]] + [ms[1]];
  }

  /** A query that finds nothing gives the command to a person, if and only if it may not be sent again. */
  lemma AskSettlesExactly(s: State, c: Capabilities)
    requires Due(s)
    ensures Runnable(s, AskMoves(s), c, false)
    ensures var t := From(s, AskMoves(s), c, false);
            && t.sends == s.sends && (t.row.facts.stage == Manual <==> !Resendable(s.row.facts, c, s.now))
            && (t.row.facts.stage == Manual ==> t.job == Idle)
  {
    NotFoundLeads(Do(s, Load, c, false), s.now, s.now, c);
    TwoMoves(s, AskMoves(s), c);
  }

  /**
    A round that may send again passes its last check exactly within the deadline; otherwise the command is
    due again, stuck exactly if it would have been at that time, and if not its next query gives it to a person.
   */
  lemma RoundSettlesExactly(s: State, check: int, c: Capabilities)
    requires Inv(s, c) && Due(s) && check >= s.now && Resendable(s.row.facts, c, s.now)
    ensures Runnable(s, RoundMoves(s, check), c, false)
    ensures var t := From(s, RoundMoves(s, check), c, false);
            && t.sends == s.sends && t.now == check && (t.job.Checked? <==> !PastDeadline(s.row.facts, check))
            && (PastDeadline(s.row.facts, check) ==>
                  && Due(t) && (Stuck(t, c) <==> Stuck(s.(now := check), c))
                  && (Stuck(t, c) <==> Resendable(t.row.facts, c, check)))
  {
    NotFoundLeads(Do(s, Load, c, false), s.now, check, c);
    FourMoves(s, RoundMoves(s, check), c);
  }

  /** What is not stuck by its first check is given to a person or passes its last check within two such queries. */
  lemma NotStuckSettles(s: State, check: int, c: Capabilities) returns (moves: seq<Move>)
    requires Inv(s, c) && Due(s) && check >= s.now && !Stuck(s.(now := check), c)
    ensures Runnable(s, moves, c, false)
    ensures var t := From(s, moves, c, false);
            t.sends == s.sends && (t.job.Checked? || (t.row.facts.stage == Manual && t.job == Idle))
    ensures || moves == AskMoves(s) || moves == RoundMoves(s, check)
            || moves == RoundMoves(s, check) + [Load, Answer(QueryNotFound, check)]
  {
    if !Resendable(s.row.facts, c, s.now) {
      AskSettlesExactly(s, c);
      moves := AskMoves(s);
    } else {
      RoundSettlesExactly(s, check, c);
      moves := RoundMoves(s, check);
      if PastDeadline(s.row.facts, check) {
        var t := From(s, moves, c, false);
        AskSettlesExactly(t, c);
        RunOn(s, moves, AskMoves(t), c, false);
        moves := moves + AskMoves(t);
      }
    }
  }

  /** From the request to the send. */
  function SendMoves(now: int, c: Capabilities): seq<Move> {
    [Load, Check, if c.irrevocable then Issue else Elapse(now), Out]
  }

  lemma SentAtOnce(now: int, expiresAt: Time, c: Capabilities)
    ensures Runnable(Requested(now, expiresAt), SendMoves(now, c), c, false)
    ensures var f := Facts(Sending, None, expiresAt, None, None, None, None, None);
            var t := From(Requested(now, expiresAt), SendMoves(now, c), c, false);
            t.now == now && t.job == Sent(f) && t.row.facts == f
  {
    FourMoves(Requested(now, expiresAt), SendMoves(now, c), c);
  }

  /** Its result may have reached the system, and time passes. */
  function LateMoves(now: int, late: int): seq<Move> { [Result(MaybeReached, now), Elapse(late)] }

  lemma ResultIsLate(s: State, late: int, c: Capabilities)
    requires s.job.Sent? && s.job.r == s.row.facts && s.row.facts.stage == Sending && s.row.facts.first.None?
        && late >= s.now
    ensures Runnable(s, LateMoves(s.now, late), c, false)
    ensures var t := From(s, LateMoves(s.now, late), c, false);
            && Due(t) && t.now == late && t.row.facts.expiresAt == s.row.facts.expiresAt
            && t.row.facts.first == t.row.facts.last == Some(s.now)
            && t.row.facts.deadline == Deadline(t.row.facts, c)
            && t.row.facts.unrecordedUntil == s.row.facts.unrecordedUntil
  {
    TwoMoves(s, LateMoves(s.now, late), c);
  }

  /** A request gets stuck: with a window, and an expiry or a longest processing time, some run does it. */
  lemma StuckIsReached(now: int, expiresAt: Time, c: Capabilities) returns (moves: seq<Move>)
    requires c.dedupeWindow > 0 && (expiresAt.Some? || c.maxProcessing > 0)
    ensures Runnable(Requested(now, expiresAt), moves, c, false)
    ensures Stuck(From(Requested(now, expiresAt), moves, c, false), c)
  {
    SentAtOnce(now, expiresAt, c);
    var due := now + c.dedupeWindow;
    var late := if expiresAt.Some? then Max(due, expiresAt.value + 1) else due + c.maxProcessing;
    var sent := From(Requested(now, expiresAt), SendMoves(now, c), c, false);
    ResultIsLate(sent, late, c);
    RunOn(Requested(now, expiresAt), SendMoves(now, c), LateMoves(now, late), c, false);
    moves := SendMoves(now, c) + LateMoves(now, late);
  }

  lemma {:induction false} ExpiryStays(s: State, moves: seq<Move>, c: Capabilities, queryOnly: bool)
    requires Runnable(s, moves, c, queryOnly)
    ensures From(s, moves, c, queryOnly).row.facts.expiresAt == s.row.facts.expiresAt
    decreases |moves|
  {
    if moves != [] {
      ExpiryStays(s, moves[..|moves| - 1], c, queryOnly);
    }
  }

  /** No other request does, on any run. */
  lemma OnlyThenStuck(now: int, expiresAt: Time, moves: seq<Move>, c: Capabilities, queryOnly: bool)
    requires Runnable(Requested(now, expiresAt), moves, c, queryOnly)
    requires Stuck(From(Requested(now, expiresAt), moves, c, queryOnly), c)
    ensures c.dedupeWindow > 0 && (expiresAt.Some? || c.maxProcessing > 0)
  {
    EverySendIsTimely(now, expiresAt, moves, c, queryOnly);
    ExpiryStays(Requested(now, expiresAt), moves, c, queryOnly);
  }
}
