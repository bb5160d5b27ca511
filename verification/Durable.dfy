/**
  The in-process transport's durables (events/memory.go): a log, and for each durable a cursor, a ready
  queue, the items in flight with their acknowledgement deadlines, redelivery and its limit, and the
  order of an ordered durable. An item is named by its position in the log.
 */
module Durable {
  import opened Base

  datatype Message = Message(subject: string, id: string)

  /** A subscription with its defaults applied. */
  datatype Spec = Spec(matches: string -> bool, maxDeliver: nat, ackWait: nat, backoff: nat -> nat, ordered: bool)

  datatype Item = Item(attempt: nat, deadline: int, notBefore: int)

  /** A delivery that was handed to a worker. */
  datatype Sent = Sent(pos: nat, attempt: nat)

  datatype State = State(log: seq<Message>, seen: set<string>, cursor: nat, ready: seq<nat>, inflight: set<nat>,
      items: map<nat, Item>, sent: seq<Sent>)

  datatype Outcome = Ack | Nak | Term

  function Init(): State { State([], {}, 0, [], {}, map[], []) }

  // ------------------------------------------------------------------ the operations

  /** fill, one entry: a matching one becomes an item, due at once. */
  function Consider(s: State, d: Spec): State
    requires s.cursor < |s.log|
  {
    var p := s.cursor;
    if d.matches(s.log[p].subject) then s.(cursor := p + 1, ready := s.ready + [p], items :=
        s.items[p := Item(0, 0, 0)])
    else s.(cursor := p + 1)
  }

  function Fill(s: State, d: Spec): State
    requires s.cursor <= |s.log|
    decreases |s.log| - s.cursor
  {
    if s.cursor == |s.log| then s else Fill(Consider(s, d), d)
  }

  /** Publish: a message ID published before is not stored again. */
  function Publish(s: State, d: Spec, m: Message): State
    requires s.cursor <= |s.log|
  {
    if m.id != "" && m.id in s.seen then s
    else Fill(s.(log := s.log + [m], seen := if m.id != "" then s.seen + {m.id} else s.seen), d)
  }

  /** An item in flight past its deadline goes back to the queue, unless it was delivered as often as it may be. */
  function ExpireOne(s: State, d: Spec, p: nat, now: int): State
    requires p in s.items
  {
    if s.items[p].attempt < d.maxDeliver then
      s.(inflight := s.inflight - {p}, ready := s.ready + [p], items := s.items[p := s.items[p].(notBefore := now)])
    else s.(inflight := s.inflight - {p})
  }

  predicate KnownAll(s: State, ps: seq<nat>) { forall i :: 0 <= i < |ps| ==> ps[i] in s.items }

  /** The expired items, in the order the map happens to give them. */
  function Expire(s: State, d: Spec, ps: seq<nat>, now: int): (r: State)
    requires KnownAll(s, ps)
    ensures r.items.Keys == s.items.Keys && r.sent == s.sent && r.cursor == s.cursor
    decreases |ps|
  {
    if ps == [] then s else
      var front := Expire(s, d, ps[..|ps| - 1], now);
      ExpireOne(front, d, ps[|ps| - 1], now)
  }

  predicate Due(s: State, p: nat, now: int) { p in s.items && s.items[p].notBefore <= now }

  /** The first due item of the queue. */
  function FirstDue(s: State, now: int, i: nat): Option<nat>
    requires i <= |s.ready|
    decreases |s.ready| - i
  {
    if i == |s.ready| then None else if Due(s, s.ready[i], now) then Some(i) else FirstDue(s, now, i + 1)
  }

  /** Where the earliest item of the queue is. */
  function EarliestOf(ready: seq<nat>): (e: nat)
    requires ready != []
    ensures e < |ready|
  {
    if |ready| == 1 then 0
    else
      var n := |ready| - 1;
      var e := EarliestOf(ready[..n]);
      if ready[n] < ready[..n][e] then n else e
  }

  /** Which queue entry next hands out: for an ordered durable the earliest, alone and when it is due. */
  function Choice(s: State, d: Spec, now: int): Option<nat> {
    if d.ordered then
      if s.inflight != {} || s.ready == [] then None
      else
        EarliestIs(s.ready);
        if Due(s, s.ready[EarliestOf(s.ready)], now) then Some(EarliestOf(s.ready)) else None
    else FirstDue(s, now, 0)
  }

  lemma {:induction false} EarliestIs(ready: seq<nat>)
    requires ready != []
    ensures EarliestOf(ready) < |ready| && forall i :: 0 <= i < |ready| ==> ready[EarliestOf(ready)] <= ready[i]
    decreases |ready|
  {
    if |ready| > 1 {
      var n := |ready| - 1;
      EarliestIs(ready[..n]);
      assert forall i :: 0 <= i < n ==> ready[..n][i] == ready[i];
    }
  }

  lemma {:induction false} FirstDueIs(s: State, now: int, i: nat)
    requires i <= |s.ready|
    ensures var c := FirstDue(s, now, i);
            (c.Some? ==> i <= c.value < |s.ready| && Due(s, s.ready[c.value], now))
                && (forall j :: i <= j < (if c.Some? then c.value else |s.ready|) ==> !Due(s, s.ready[j], now))
    decreases |s.ready| - i
  {
    if i < |s.ready| && !Due(s, s.ready[i], now) {
      FirstDueIs(s, now, i + 1);
    }
  }

  lemma ChoiceIs(s: State, d: Spec, now: int)
    ensures var c := Choice(s, d, now); c.Some? ==> c.value < |s.ready| && Due(s, s.ready[c.value], now)
  {
    if d.ordered {
      if s.ready != [] {
        EarliestIs(s.ready);
      }
    } else {
      FirstDueIs(s, now, 0);
    }
  }

  function Without(ready: seq<nat>, i: nat): seq<nat>
    requires i < |ready|
  {
    ready[..i] + ready[i + 1..]
  }

  /** The i-th queue entry is delivered. */
  function Deliver(s: State, d: Spec, i: nat, now: int): State
    requires i < |s.ready| && s.ready[i] in s.items
  {
    var p := s.ready[i];
    var it := s.items[p];
    s.(ready := Without(s.ready, i), inflight := s.inflight + {p},
       items := s.items[p := it.(attempt := it.attempt + 1, deadline := now + d.ackWait)], sent :=
           s.sent + [Sent(p, it.attempt + 1)])
  }

  /** next: the expired go back, then one item is handed out, if there is one to hand out. */
  function Next(s: State, d: Spec, expired: seq<nat>, now: int): State
    requires KnownAll(s, expired)
  {
    var e := Expire(s, d, expired, now);
    ChoiceIs(e, d, now);
    var c := Choice(e, d, now);
    if c.None? then e else Deliver(e, d, c.value, now)
  }

  /** The delivery is still the item's current one. */
  predicate Current(s: State, p: nat, attempt: nat) {
    p in s.inflight && p in s.items && s.items[p].attempt == attempt
  }

  /** A worker's outcome of a delivery. */
  function Settle(s: State, d: Spec, p: nat, attempt: nat, out: Outcome, now: int): State {
    if !Current(s, p, attempt) then s
    else if out == Nak && attempt < d.maxDeliver then
      s.(inflight := s.inflight - {p}, ready := s.ready + [p], items :=
          s.items[p := s.items[p].(notBefore := now + d.backoff(attempt))])
    else s.(inflight := s.inflight - {p})
  }

  /** A worker asks for more time. */
  function Extend(s: State, d: Spec, p: nat, attempt: nat, now: int): State {
    if !Current(s, p, attempt) then s else s.(items := s.items[p := s.items[p].(deadline := now + d.ackWait)])
  }

  // ------------------------------------------------------------------ runs

  /** Steps of publishers and workers in any order; an outcome or an extension may be of any delivery, however late. */
  datatype Step = DoPublish(m: Message) | DoNext(expired: seq<nat>, now: int) | DoSettle(p: nat, attempt: nat,
      out: Outcome, now: int)
                | DoExtend(p: nat, attempt: nat, now: int)

  predicate Distinct(ps: seq<nat>) { forall i, j :: 0 <= i < j < |ps| ==> ps[i] != ps[j] }

  /** The expired items are those in flight past their deadline, each once, in any order. */
  predicate AreExpired(s: State, ps: seq<nat>, now: int) {
    && Distinct(ps) && (forall i :: 0 <= i < |ps| ==>
        ps[i] in s.inflight && ps[i] in s.items && now > s.items[ps[i]].deadline)
    && forall p :: p in s.inflight && p in s.items && now > s.items[p].deadline ==> p in ps
  }

  predicate Enabled(s: State, step: Step) {
    s.cursor <= |s.log| && (step.DoNext? ==> AreExpired(s, step.expired, step.now))
  }

  function Do(s: State, d: Spec, step: Step): State
    requires Enabled(s, step)
  {
    match step
    case DoPublish(m) => Publish(s, d, m)
    case DoNext(expired, now) => Next(s, d, expired, now)
    case DoSettle(p, attempt, out, now) => Settle(s, d, p, attempt, out, now)
    case DoExtend(p, attempt, now) => Extend(s, d, p, attempt, now)
  }

  predicate Runnable(s: State, d: Spec, steps: seq<Step>)
    decreases |steps|, 0
  {
    steps == [] || (Runnable(s, d, steps[..|steps| - 1])
        && Enabled(From(s, d, steps[..|steps| - 1]), steps[|steps| - 1]))
  }

  function From(s: State, d: Spec, steps: seq<Step>): State
    requires Runnable(s, d, steps)
    decreases |steps|, 1
  {
    if steps == [] then s else Do(From(s, d, steps[..|steps| - 1]), d, steps[|steps| - 1])
  }

  // ------------------------------------------------------------------ every run

  function Times(sent: seq<Sent>, p: nat): nat {
    if sent == [] then 0 else Times(sent[..|sent| - 1], p) + (if sent[|sent| - 1].pos == p then 1 else 0)
  }

  lemma TimesMore(sent: seq<Sent>, e: Sent, p: nat)
    ensures Times(sent + [e], p) == Times(sent, p) + (if e.pos == p then 1 else 0)
  {
    assert (sent + [e])[..|sent|] == sent;
  }

  /** Where an item is: waiting, in flight, or settled; never in two places. */
  ghost predicate Placed(s: State, d: Spec) {
    && s.cursor <= |s.log| && Distinct(s.ready)
    && (forall p: nat :: p in s.items <==> p < s.cursor && d.matches(s.log[p].subject))
    && (forall i :: 0 <= i < |s.ready| ==> s.ready[i] in s.items && s.ready[i] !in s.inflight)
    && (forall p :: p in s.inflight ==> p in s.items)
  }

  /** How often an item was delivered: as often as its attempts say, never more than the limit; one that waits may be
      delivered again. */
  ghost predicate Counted(s: State, d: Spec) {
    && (forall p: nat :: Times(s.sent, p) == if p in s.items then s.items[p].attempt else 0)
    && (forall p :: p in s.items ==> s.items[p].attempt <= d.maxDeliver)
    && (forall i :: 0 <= i < |s.ready| && s.ready[i] in s.items ==> s.items[s.ready[i]].attempt < d.maxDeliver)
  }

  /** An ordered durable: one item in flight at most, and what is open is not before what was handed out. */
  predicate InOrder(s: State, d: Spec) {
    d.ordered ==>
      && (forall i, j :: 0 <= i < j < |s.sent| ==> s.sent[i].pos <= s.sent[j].pos)
      && (s.sent == [] ==> s.inflight == {})
      && (s.sent != [] ==> var last := s.sent[|s.sent| - 1].pos;
                           && last < s.cursor && s.inflight <= {last} && forall i :: 0 <= i < |s.ready| ==>
                               last <= s.ready[i])
  }

  ghost predicate Inv(s: State, d: Spec) {
    Placed(s, d) && Counted(s, d) && InOrder(s, d)
  }

  lemma ConsiderPlaces(s: State, d: Spec)
    requires Placed(s, d) && s.cursor < |s.log|
    ensures Placed(Consider(s, d), d)
  {
    assert s.cursor !in s.items;
  }

  lemma ConsiderKeeps(s: State, d: Spec)
    requires Inv(s, d) && s.cursor < |s.log| && d.maxDeliver > 0
    ensures Inv(Consider(s, d), d)
  {
    ConsiderPlaces(s, d);
    assert s.cursor !in s.items;
  }

  lemma {:induction false} FillKeeps(s: State, d: Spec)
    requires Inv(s, d) && d.maxDeliver > 0
    ensures Inv(Fill(s, d), d) && Fill(s, d).cursor == |s.log| == |Fill(s, d).log|
    decreases |s.log| - s.cursor
  {
    if s.cursor < |s.log| {
      ConsiderKeeps(s, d);
      FillKeeps(Consider(s, d), d);
    }
  }

  lemma PublishKeeps(s: State, d: Spec, m: Message)
    requires Inv(s, d) && d.maxDeliver > 0
    ensures Inv(Publish(s, d, m), d)
  {
    if !(m.id != "" && m.id in s.seen) {
      var t := s.(log := s.log + [m], seen := if m.id != "" then s.seen + {m.id} else s.seen);
      assert forall p :: 0 <= p < |s.log| ==> t.log[p] == s.log[p];
      FillKeeps(t, d);
    }
  }

  lemma ExpireOneKeeps(s: State, d: Spec, p: nat, now: int)
    requires Inv(s, d) && p in s.inflight
    ensures Inv(ExpireOne(s, d, p, now), d)
  {
    LeaveKeeps(s, d, p, s.items[p].attempt < d.maxDeliver, now);
  }

  lemma {:induction false} ExpiredLeave(s: State, d: Spec, ps: seq<nat>, now: int)
    requires KnownAll(s, ps)
    ensures forall p :: p in Expire(s, d, ps, now).inflight <==> p in s.inflight && p !in ps
    decreases |ps|
  {
    if ps != [] {
      var n := |ps| - 1;
      ExpiredLeave(s, d, ps[..n], now);
      assert ps == ps[..n] + [ps[n]];
    }
  }

  lemma NotBefore(ps: seq<nat>, n: nat)
    requires n < |ps| && Distinct(ps)
    ensures ps[n] !in ps[..n]
  {
  }

  lemma {:induction false} ExpireKeeps(s: State, d: Spec, ps: seq<nat>, now: int)
    requires Inv(s, d) && KnownAll(s, ps) && Distinct(ps) && forall i :: 0 <= i < |ps| ==> ps[i] in s.inflight
    ensures Inv(Expire(s, d, ps, now), d)
    decreases |ps|
  {
    if ps != [] {
      var n := |ps| - 1;
      var front := Expire(s, d, ps[..n], now);
      ExpireKeeps(s, d, ps[..n], now);
      ExpiredLeave(s, d, ps[..n], now);
      NotBefore(ps, n);
      assert ps[n] in front.inflight;
      ExpireOneKeeps(front, d, ps[n], now);
    }
  }

  lemma WithoutIs(ready: seq<nat>, i: nat)
    requires i < |ready| && Distinct(ready)
    ensures Distinct(Without(ready, i)) && forall j :: 0 <= j < |Without(ready, i)| ==>
        Without(ready, i)[j] in ready && Without(ready, i)[j] != ready[i]
  {
    var w := Without(ready, i);
    forall j | 0 <= j < |w| ensures w[j] in ready && w[j] != ready[i] {
      assert w[j] == if j < i then ready[j] else ready[j + 1];
    }
  }

  lemma DeliverPlaces(s: State, d: Spec, i: nat, now: int)
    requires Placed(s, d) && Counted(s, d) && i < |s.ready|
    ensures Placed(Deliver(s, d, i, now), d) && forall j :: 0 <= j < |Deliver(s, d, i, now).ready| ==>
        Deliver(s, d, i, now).ready[j] in s.ready && Deliver(s, d, i, now).ready[j] != s.ready[i]
  {
    WithoutIs(s.ready, i);
    var t := Deliver(s, d, i, now);
    forall j | 0 <= j < |t.ready| ensures t.ready[j] in s.items && t.ready[j] !in t.inflight {
      assert t.ready[j] in s.ready;
      var k :| 0 <= k < |s.ready| && s.ready[k] == t.ready[j];
    }
  }

  lemma DeliverCounts(s: State, d: Spec, i: nat, now: int)
    requires Placed(s, d) && Counted(s, d) && i < |s.ready|
    requires forall j :: 0 <= j < |Deliver(s, d, i, now).ready| ==>
        Deliver(s, d, i, now).ready[j] in s.ready && Deliver(s, d, i, now).ready[j] != s.ready[i]
    ensures Counted(Deliver(s, d, i, now), d)
  {
    var t := Deliver(s, d, i, now);
    forall p: nat ensures Times(t.sent, p) == if p in t.items then t.items[p].attempt else 0 {
      TimesMore(s.sent, t.sent[|s.sent|], p);
    }
    forall j | 0 <= j < |t.ready| ensures t.ready[j] in t.items && t.items[t.ready[j]].attempt < d.maxDeliver {
      var k :| 0 <= k < |s.ready| && s.ready[k] == t.ready[j];
    }
  }

  lemma DeliverKeeps(s: State, d: Spec, i: nat, now: int)
    requires Inv(s, d) && i < |s.ready|
    requires d.ordered ==> s.inflight == {} && forall j :: 0 <= j < |s.ready| ==> s.ready[i] <= s.ready[j]
    ensures Inv(Deliver(s, d, i, now), d)
  {
    DeliverPlaces(s, d, i, now);
    DeliverCounts(s, d, i, now);
  }

  lemma NextKeeps(s: State, d: Spec, expired: seq<nat>, now: int)
    requires Inv(s, d) && AreExpired(s, expired, now)
    ensures Inv(Next(s, d, expired, now), d)
  {
    ExpireKeeps(s, d, expired, now);
    var e := Expire(s, d, expired, now);
    ChoiceIs(e, d, now);
    var c := Choice(e, d, now);
    if c.Some? {
      if d.ordered {
        EarliestIs(e.ready);
      }
      DeliverKeeps(e, d, c.value, now);
    }
  }

  /** An item that leaves flight keeps its place in all counts; back in the queue, it may be delivered again. */
  lemma LeaveKeeps(s: State, d: Spec, p: nat, back: bool, notBefore: int)
    requires Inv(s, d) && p in s.inflight && (back ==> s.items[p].attempt < d.maxDeliver)
    ensures Inv(if back then s.(inflight := s.inflight - {p}, ready := s.ready + [p], items :=
        s.items[p := s.items[p].(notBefore := notBefore)])
                else s.(inflight := s.inflight - {p}), d)
  {
  }

  lemma SettleKeeps(s: State, d: Spec, p: nat, attempt: nat, out: Outcome, now: int)
    requires Inv(s, d)
    ensures Inv(Settle(s, d, p, attempt, out, now), d)
  {
    if Current(s, p, attempt) {
      LeaveKeeps(s, d, p, out == Nak && attempt < d.maxDeliver, now + d.backoff(attempt));
    }
  }

  lemma ExtendKeeps(s: State, d: Spec, p: nat, attempt: nat, now: int)
    requires Inv(s, d)
    ensures Inv(Extend(s, d, p, attempt, now), d)
  {
  }

  lemma StepKeeps(s: State, d: Spec, step: Step)
    requires Inv(s, d) && Enabled(s, step) && d.maxDeliver > 0
    ensures Inv(Do(s, d, step), d)
  {
    match step
    case DoPublish(m) => PublishKeeps(s, d, m);
    case DoNext(expired, now) => NextKeeps(s, d, expired, now);
    case DoSettle(p, attempt, out, now) => SettleKeeps(s, d, p, attempt, out, now);
    case DoExtend(p, attempt, now) => ExtendKeeps(s, d, p, attempt, now);
  }

  /**
    Every run: each matching entry considered is in exactly one place, delivered as often as its attempts
    say and never more than the limit, and an ordered durable has one item in flight at most and hands
    positions out in non-decreasing order.
   */
  lemma {:induction false} EveryRunKeeps(d: Spec, steps: seq<Step>)
    requires Runnable(Init(), d, steps) && d.maxDeliver > 0
    ensures Inv(From(Init(), d, steps), d)
    decreases |steps|
  {
    if steps != [] {
      EveryRunKeeps(d, steps[..|steps| - 1]);
      StepKeeps(From(Init(), d, steps[..|steps| - 1]), d, steps[|steps| - 1]);
    }
  }

  // ------------------------------------------------------------------ what is over stays over

  /** Considered, and neither waiting nor in flight: acknowledged, terminated, or delivered as often as it may be. */
  predicate Settled(s: State, p: nat) {
    p in s.items && p !in s.ready && p !in s.inflight
  }

  /** A delivery that is not its item's current one and never will be again. */
  predicate Over(s: State, p: nat, attempt: nat) {
    p in s.items && s.items[p].attempt >= attempt && !Current(s, p, attempt)
  }

  /** An item at rest: its attempts only grow, and grow with the very delivery that puts it in flight again. */
  predicate MovesOn(s: State, t: State, p: nat) {
    p in s.items ==>
      && p in t.items && s.items[p].attempt <= t.items[p].attempt
      && (Settled(s, p) ==> Settled(t, p) && t.items[p] == s.items[p])
      && (p in t.inflight ==> p in s.inflight || t.items[p].attempt > s.items[p].attempt)
  }

  lemma MovesOnFurther(s: State, t: State, u: State, p: nat)
    requires MovesOn(s, t, p) && MovesOn(t, u, p)
    ensures MovesOn(s, u, p)
  {
  }

  lemma {:induction false} FillMovesOn(s: State, d: Spec, p: nat)
    requires s.cursor <= |s.log| && (p in s.items ==> p < s.cursor)
    ensures MovesOn(s, Fill(s, d), p)
    decreases |s.log| - s.cursor
  {
    if s.cursor < |s.log| {
      FillMovesOn(Consider(s, d), d, p);
      MovesOnFurther(s, Consider(s, d), Fill(s, d), p);
    }
  }

  lemma {:induction false} ExpireMovesOn(s: State, d: Spec, ps: seq<nat>, now: int, p: nat)
    requires KnownAll(s, ps) && Distinct(ps) && forall i :: 0 <= i < |ps| ==> ps[i] in s.inflight
    ensures MovesOn(s, Expire(s, d, ps, now), p)
    decreases |ps|
  {
    if ps != [] {
      var n := |ps| - 1;
      var front := Expire(s, d, ps[..n], now);
      ExpireMovesOn(s, d, ps[..n], now, p);
      ExpiredLeave(s, d, ps[..n], now);
      assert ps[n] !in ps[..n];
      assert MovesOn(front, ExpireOne(front, d, ps[n], now), p);
      MovesOnFurther(s, front, Expire(s, d, ps, now), p);
    }
  }

  lemma DeliverMovesOn(s: State, d: Spec, i: nat, now: int, p: nat)
    requires i < |s.ready| && s.ready[i] in s.items && Distinct(s.ready)
    ensures MovesOn(s, Deliver(s, d, i, now), p)
  {
    WithoutIs(s.ready, i);
  }

  lemma NextMovesOn(s: State, d: Spec, expired: seq<nat>, now: int, p: nat)
    requires Inv(s, d) && AreExpired(s, expired, now)
    ensures MovesOn(s, Next(s, d, expired, now), p)
  {
    ExpireKeeps(s, d, expired, now);
    ExpireMovesOn(s, d, expired, now, p);
    var e := Expire(s, d, expired, now);
    ChoiceIs(e, d, now);
    var c := Choice(e, d, now);
    if c.Some? {
      DeliverMovesOn(e, d, c.value, now, p);
      MovesOnFurther(s, e, Deliver(e, d, c.value, now), p);
    }
  }

  lemma StepMovesOn(s: State, d: Spec, step: Step, p: nat)
    requires Inv(s, d) && Enabled(s, step)
    ensures MovesOn(s, Do(s, d, step), p)
  {
    match step
    case DoPublish(m) =>
      if !(m.id != "" && m.id in s.seen) {
        FillMovesOn(s.(log := s.log + [m], seen := if m.id != "" then s.seen + {m.id} else s.seen), d, p);
      }
    case DoNext(expired, now) => NextMovesOn(s, d, expired, now, p);
    case _ =>
  }

  lemma {:induction false} EveryRunMovesOn(s: State, d: Spec, steps: seq<Step>, p: nat)
    requires Inv(s, d) && Runnable(s, d, steps) && d.maxDeliver > 0
    ensures Inv(From(s, d, steps), d) && MovesOn(s, From(s, d, steps), p)
    decreases |steps|
  {
    if steps != [] {
      var front := steps[..|steps| - 1];
      EveryRunMovesOn(s, d, front, p);
      StepKeeps(From(s, d, front), d, steps[|steps| - 1]);
      StepMovesOn(From(s, d, front), d, steps[|steps| - 1], p);
      MovesOnFurther(s, From(s, d, front), From(s, d, steps), p);
    }
  }

  /** A settled item is never delivered again, whatever follows. */
  lemma SettledForGood(s: State, d: Spec, steps: seq<Step>, p: nat)
    requires Inv(s, d) && Runnable(s, d, steps) && d.maxDeliver > 0 && Settled(s, p)
    ensures Settled(From(s, d, steps), p) && Times(From(s, d, steps).sent, p) == Times(s.sent, p)
  {
    EveryRunMovesOn(s, d, steps, p);
  }

  /** The outcome of a delivery that is over, and a request for more time for it, change nothing, then or at any later
      time. */
  lemma LateOutcomeChangesNothing(s: State, d: Spec, steps: seq<Step>, p: nat, attempt: nat, out: Outcome, now: int)
    requires Inv(s, d) && Runnable(s, d, steps) && d.maxDeliver > 0 && Over(s, p, attempt)
    ensures var t := From(s, d, steps);
            && Over(t, p, attempt) && Settle(t, d, p, attempt, out, now) == t
            && Extend(t, d, p, attempt, now) == t
  {
    EveryRunMovesOn(s, d, steps, p);
  }

  /** A delivery is over once its item left flight: expired, settled or refused. */
  lemma LeavingFlightIsOver(s: State, d: Spec, step: Step, p: nat)
    requires Inv(s, d) && Enabled(s, step) && p in s.inflight && p !in Do(s, d, step).inflight
    ensures Over(Do(s, d, step), p, s.items[p].attempt)
  {
    StepMovesOn(s, d, step, p);
  }

  // ------------------------------------------------------------------ nothing is lost

  /**
    The step ends the item: its current delivery is acknowledged, terminated, or refused for the last time, or
    runs out after the last delivery it may have.
   */
  predicate Ends(s: State, d: Spec, step: Step, p: nat) {
    match step
    case DoSettle(q, attempt, out, _) => q == p && Current(s, p, attempt) && (out == Nak ==> attempt >= d.maxDeliver)
    case DoNext(_, now) =>
      p in s.inflight && p in s.items && now > s.items[p].deadline && s.items[p].attempt >= d.maxDeliver
    case _ => false
  }

  lemma {:induction false} FillEndsNone(s: State, d: Spec, p: nat)
    requires Placed(s, d)
    ensures Settled(Fill(s, d), p) <==> Settled(s, p)
    decreases |s.log| - s.cursor
  {
    if s.cursor < |s.log| {
      ConsiderPlaces(s, d);
      FillEndsNone(Consider(s, d), d, p);
    }
  }

  /** The expired that may be delivered again are back in the queue. */
  lemma {:induction false} ExpiredReturn(s: State, d: Spec, ps: seq<nat>, now: int, p: nat)
    requires KnownAll(s, ps)
    ensures p in s.items ==> Expire(s, d, ps, now).items[p].attempt == s.items[p].attempt
    ensures p in Expire(s, d, ps, now).ready
            <==> p in s.ready || (p in ps && s.items[p].attempt < d.maxDeliver)
    decreases |ps|
  {
    if ps != [] {
      var n := |ps| - 1;
      ExpiredReturn(s, d, ps[..n], now, p);
      assert ps == ps[..n] + [ps[n]];
    }
  }

  lemma ExpireEnds(s: State, d: Spec, ps: seq<nat>, now: int, p: nat)
    requires Placed(s, d) && KnownAll(s, ps) && forall i :: 0 <= i < |ps| ==> ps[i] in s.inflight
    ensures Settled(Expire(s, d, ps, now), p)
            <==> Settled(s, p) || (p in ps && s.items[p].attempt >= d.maxDeliver)
  {
    ExpiredReturn(s, d, ps, now, p);
    ExpiredLeave(s, d, ps, now);
  }

  lemma DeliverEndsNone(s: State, d: Spec, i: nat, now: int, p: nat)
    requires Placed(s, d) && i < |s.ready|
    ensures Settled(Deliver(s, d, i, now), p) <==> Settled(s, p)
  {
    WithoutIs(s.ready, i);
    if p in s.ready && p != s.ready[i] {
      var j :| 0 <= j < |s.ready| && s.ready[j] == p;
      assert Without(s.ready, i)[if j < i then j else j - 1] == p;
    }
  }

  lemma NextSettlesExactly(s: State, d: Spec, expired: seq<nat>, now: int, p: nat)
    requires Inv(s, d) && AreExpired(s, expired, now)
    ensures Settled(Next(s, d, expired, now), p)
            <==> Settled(s, p) || Ends(s, d, DoNext(expired, now), p)
  {
    ExpireEnds(s, d, expired, now, p);
    ExpireKeeps(s, d, expired, now);
    NextEndsExpired(s, d, expired, now, p);
  }

  lemma NextEndsExpired(s: State, d: Spec, expired: seq<nat>, now: int, p: nat)
    requires KnownAll(s, expired) && Placed(Expire(s, d, expired, now), d)
    ensures Settled(Next(s, d, expired, now), p) <==> Settled(Expire(s, d, expired, now), p)
  {
    var e := Expire(s, d, expired, now);
    ChoiceIs(e, d, now);
    var c := Choice(e, d, now);
    if c.Some? {
      DeliverEndsNone(e, d, c.value, now, p);
    }
  }

  /** A step settles an item that was not if and only if it ends it. */
  lemma StepSettlesExactly(s: State, d: Spec, step: Step, p: nat)
    requires Inv(s, d) && Enabled(s, step)
    ensures Settled(Do(s, d, step), p) <==> Settled(s, p) || Ends(s, d, step, p)
  {
    match step
    case DoPublish(m) =>
      if !(m.id != "" && m.id in s.seen) {
        FillEndsNone(s.(log := s.log + [m], seen := if m.id != "" then s.seen + {m.id} else s.seen), d, p);
      }
    case DoNext(expired, now) => NextSettlesExactly(s, d, expired, now, p);
    case _ =>
  }

  /** Some step of the run ended the item. */
  predicate Ended(s: State, d: Spec, steps: seq<Step>, p: nat)
    requires Runnable(s, d, steps)
    decreases |steps|
  {
    steps != [] && (Ended(s, d, steps[..|steps| - 1], p)
        || Ends(From(s, d, steps[..|steps| - 1]), d, steps[|steps| - 1], p))
  }

  /** In every run an item is settled if and only if some step ended it: none is lost, and none comes back. */
  lemma {:induction false} EveryRunSettlesExactly(d: Spec, steps: seq<Step>, p: nat)
    requires Runnable(Init(), d, steps) && d.maxDeliver > 0
    ensures Settled(From(Init(), d, steps), p) <==> Ended(Init(), d, steps, p)
    decreases |steps|
  {
    if steps != [] {
      var front := steps[..|steps| - 1];
      EveryRunSettlesExactly(d, front, p);
      EveryRunKeeps(d, front);
      StepSettlesExactly(From(Init(), d, front), d, steps[|steps| - 1], p);
    }
  }
}
