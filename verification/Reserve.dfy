/**
  A reservation participant (reserve/lifecycle.go, reserve/reserve.go): the table of transitions, the
  commands that carry it out on branches, consumptions and the component's resource, and what every run
  of them conserves.
 */
module Reserve {
  import opened Base

  // ------------------------------------------------------------------ the table

  datatype BranchState = Held | Committed | Consumed | Released | Expired | Rejected | Cancelled | Absent

  predicate Ended(s: BranchState) { s != Held && s != Committed && s != Absent }

  datatype Command = OnQuery | OnConfirm | OnCancel | OnExpire
                   | OnHoldEnough | OnHoldShort | OnHoldSame | OnHoldOther
                   | OnConsumeWithin | OnConsumeExact | OnConsumeBeyond | OnConsumeUsedSame | OnConsumeUsedOther

  datatype Resource = Untouched | Takes | GivesBack | Consumes

  datatype Refusal = NoRefusal | NoBranch | NotCommitted | BeyondRemaining

  datatype Decision = Decision(to: BranchState, conflict: bool, refused: Refusal, resource: Resource, changed: bool)

  function Stay(s: BranchState): Decision { Decision(s, false, NoRefusal, Untouched, false) }

  function Moves(s: BranchState, r: Resource): Decision { Decision(s, false, NoRefusal, r, true) }

  function Decide(s: BranchState, past: bool, c: Command): Decision {
    match c
    case OnQuery => Stay(s)
    case OnHoldEnough => if s != Absent then Stay(s) else Moves(Held, Takes)
    case OnHoldShort => if s != Absent then Stay(s) else Moves(Rejected, Untouched)
    case OnHoldSame => Stay(s)
    case OnHoldOther => if s == Cancelled then Stay(s) else Stay(s).(conflict := true)
    case OnConfirm => if s != Held then Stay(s) else if past then Moves(Expired, GivesBack)
        else Moves(Committed, Untouched)
    case OnCancel =>
      if s == Absent then Moves(Cancelled, Untouched)
      else if s == Held || s == Committed then Moves(Released, GivesBack)
      else Stay(s)
    case OnExpire => if s == Held && past then Moves(Expired, GivesBack) else Stay(s)
    case OnConsumeUsedSame => Stay(s)
    case OnConsumeUsedOther => Stay(s).(conflict := true)
    case _ =>
      if s == Absent then Stay(s).(refused := NoBranch)
      else if s != Committed then Stay(s).(refused := NotCommitted)
      else if c == OnConsumeBeyond then Stay(s).(refused := BeyondRemaining)
      else if c == OnConsumeExact then Moves(Consumed, Consumes)
      else Moves(Committed, Consumes)
  }

  /** The order of a branch's life: a transition only moves forward along it, or consumes and stays committed. */
  function Stage(s: BranchState): nat {
    match s
    case Absent => 0
    case Held => 1
    case Committed => 2
    case _ => 3
  }

  /** What every cell of the table obeys. */
  lemma TableObeys(s: BranchState, past: bool, c: Command)
    ensures var d := Decide(s, past, c);
            && (!d.changed ==> d.to == s && d.resource == Untouched)
            && (d.changed ==> Stage(s) < Stage(d.to) || (s == Committed && d.to == Committed && d.resource == Consumes))
            && (d.resource == Takes <==> s == Absent && d.to == Held)
            && (d.resource == GivesBack <==> d.changed && Stage(s) in {1, 2} && d.to in {Released, Expired})
            && (d.to == Cancelled && d.changed ==> s == Absent)
            && (d.conflict || d.refused != NoRefusal ==> !d.changed)
  {
  }

  // ------------------------------------------------------------------ the participant's tables

  datatype Branch = Branch(kind: string, state: BranchState, digest: string, expiresAt: Option<int>,
      confirmedAt: Option<int>, version: nat)

  datatype Used = Used(branch: string, digest: string)

  /** What happened to the component's resource, in order. */
  datatype Entry = Took(id: string, n: nat) | GaveBack(id: string, n: nat) | UsedUp(id: string, consumption: string,
      n: nat)

  /**
    The runtime's tables (branches, consumptions) and the component's: what is free, what each branch of
    this kind holds, what each consumption took off; and the history of its resource.
   */
  datatype State = State(now: int, branches: map<string, Branch>, consumptions: map<string, Used>,
                         free: nat, held: map<string, nat>, used: map<string, nat>, log: seq<Entry>)

  datatype Kind = Kind(name: string, period: int)

  datatype Answer = Answer(state: BranchState, conflict: bool, refused: Refusal, repeated: bool)

  datatype Fault = OtherKind

  function StateOf(s: State, id: string): BranchState {
    if id in s.branches then s.branches[id].state else Absent
  }

  predicate Past(b: Branch, now: int) {
    b.state == Held && b.expiresAt.Some? && b.expiresAt.value <= now
  }

  predicate Foreign(s: State, k: Kind, id: string) {
    id in s.branches && s.branches[id].kind != k.name
  }

  /** move: the decided state, a version more, the hold period's end kept only while held, the first confirmation's
      time. */
  function Move(s: State, id: string, to: BranchState): State
    requires id in s.branches
  {
    var b := s.branches[id];
    s.(branches := s.branches[id := b.(state := to, version := b.version + 1,
                                       expiresAt := if to == Held then b.expiresAt else None,
                                       confirmedAt := if to == Committed && b.confirmedAt.None? then Some(s.now)
                                           else b.confirmedAt)])
  }

  function HeldBy(s: State, id: string): nat { if id in s.held then s.held[id] else 0 }

  /** GiveBack's contract: what the branch has not consumed is free again. */
  function GiveBack(s: State, id: string): State {
    s.(free := s.free + HeldBy(s, id), held := s.held[id := 0], log := s.log + [GaveBack(id, HeldBy(s, id))])
  }

  /** Take's contract: all of the hold's content, from what is free. */
  function Take(s: State, id: string, n: nat): State
    requires n <= s.free
  {
    s.(free := s.free - n, held := s.held[id := n], log := s.log + [Took(id, n)])
  }

  /** Use's contract: a consumption is taken off what the branch holds. */
  function Use(s: State, id: string, consumption: string, n: nat): State
    requires n <= HeldBy(s, id)
  {
    s.(held := s.held[id := HeldBy(s, id) - n], used := s.used[consumption := n], log :=
        s.log + [UsedUp(id, consumption, n)])
  }

  /** apply: gives back, moves. */
  function ApplyDecision(s: State, id: string, d: Decision): (State, Answer)
    requires id in s.branches
  {
    var given := if d.resource == GivesBack then GiveBack(s, id) else s;
    if d.changed then (Move(given, id, d.to), Answer(d.to, false, NoRefusal, false))
    else (given, Answer(s.branches[id].state, d.conflict, d.refused, false))
  }

  // ------------------------------------------------------------------ the commands

  /** Hold with content of n; the component may find the content short for reasons of its own. */
  function Hold(s: State, k: Kind, id: string, digest: string, n: nat, willing: bool): Result<(State, Answer), Fault> {
    if Foreign(s, k, id) then Err(OtherKind)
    else if id in s.branches then
      var d := Decide(s.branches[id].state, Past(s.branches[id], s.now), if s.branches[id].digest == digest
          then OnHoldSame else OnHoldOther);
      Ok((s, Answer(s.branches[id].state, d.conflict, NoRefusal, !d.conflict)))
    else
      var enough := willing && n <= s.free;
      var d := Decide(Absent, false, if enough then OnHoldEnough else OnHoldShort);
      var taken := if enough then Take(s, id, n) else s;
      var b := Branch(k.name, d.to, digest, if d.to == Held then Some(s.now + k.period) else None, None, 1);
      Ok((taken.(branches := s.branches[id := b]), Answer(d.to, false, NoRefusal, false)))
  }

  function Confirm(s: State, k: Kind, id: string): Result<(State, Answer), Fault> {
    if Foreign(s, k, id) then Err(OtherKind)
    else if id !in s.branches then Ok((s, Answer(Absent, false, NoRefusal, false)))
    else Ok(ApplyDecision(s, id, Decide(s.branches[id].state, Past(s.branches[id], s.now), OnConfirm)))
  }

  function Cancel(s: State, k: Kind, id: string): Result<(State, Answer), Fault> {
    if Foreign(s, k, id) then Err(OtherKind)
    else if id !in s.branches then
      Ok((s.(branches := s.branches[id := Branch(k.name, Cancelled, "", None, None, 1)]),
          Answer(Cancelled, false, NoRefusal, false)))
    else Ok(ApplyDecision(s, id, Decide(s.branches[id].state, Past(s.branches[id], s.now), OnCancel)))
  }

  /** Consume n; the component may refuse it as beyond what is left, and must when it is. */
  function Consume(s: State, k: Kind, id: string, consumption: string, digest: string, n: nat,
      willing: bool): Result<(State, Answer), Fault> {
    if Foreign(s, k, id) then Err(OtherKind)
    else if consumption in s.consumptions then
      var same := s.consumptions[consumption] == Used(id, digest);
      Ok((s, Answer(StateOf(s, id), !same, NoRefusal, same)))
    else if StateOf(s, id) != Committed then
      Ok((s, Answer(StateOf(s, id), false, Decide(StateOf(s, id), false, OnConsumeWithin).refused, false)))
    else
      var beyond := !willing || n > HeldBy(s, id);
      var c := if beyond then OnConsumeBeyond else if HeldBy(s, id) > n then OnConsumeWithin else OnConsumeExact;
      var d := Decide(Committed, false, c);
      if beyond then Ok((s, Answer(Committed, false, d.refused, false)))
      else
        var taken := Use(s, id, consumption, n);
        Ok(ApplyDecision(taken.(consumptions := s.consumptions[consumption := Used(id, digest)]), id, d))
  }

  /** One branch's transaction of the expiry job, judged again under the lock. */
  function Expire(s: State, k: Kind, id: string): Result<(State, Answer), Fault> {
    if Foreign(s, k, id) then Err(OtherKind)
    else if id !in s.branches then Ok((s, Answer(Absent, false, NoRefusal, false)))
    else Ok(ApplyDecision(s, id, Decide(s.branches[id].state, Past(s.branches[id], s.now), OnExpire)))
  }

  // ------------------------------------------------------------------ runs

  /** A committed transaction, in any order; a fault or a component's own error rolls back and is no step. Other kinds
      share the branch table and the consumption table. */
  datatype Step = DoHold(id: string, digest: string, n: nat,
      willing: bool) | DoConfirm(id: string) | DoCancel(id: string)
                | DoConsume(id: string, consumption: string, digest: string, n: nat, willing: bool)
                | DoExpire(id: string) | Elapse(now: int)
                | OtherKinds(id: string, b: Branch, consumed: Option<string>, digest: string)

  /** A consumption row, of an id not used yet. */
  function Inserted(consumptions: map<string, Used>, consumed: Option<string>, id: string,
      digest: string): map<string, Used> {
    if consumed.None? || consumed.value in consumptions then consumptions
    else consumptions[consumed.value := Used(id, digest)]
  }

  function Outcome(s: State, k: Kind, step: Step): Result<(State, Answer), Fault> {
    match step
    case DoHold(id, digest, n, willing) => Hold(s, k, id, digest, n, willing)
    case DoConfirm(id) => Confirm(s, k, id)
    case DoCancel(id) => Cancel(s, k, id)
    case DoConsume(id, consumption, digest, n, willing) => Consume(s, k, id, consumption, digest, n, willing)
    case DoExpire(id) => Expire(s, k, id)
    case Elapse(now) => Ok((s.(now := Max(s.now, now)), Answer(Absent, false, NoRefusal, false)))
    case OtherKinds(id, b, consumed, digest) =>
      Ok((if b.kind == k.name || (id in s.branches && s.branches[id].kind == k.name) then s
          else s.(branches := s.branches[id := b], consumptions := Inserted(s.consumptions, consumed, id, digest)),
          Answer(Absent, false, NoRefusal, false)))
  }

  function After(s: State, k: Kind, step: Step): State {
    var r := Outcome(s, k, step);
    if r.Ok? then r.value.0 else s
  }

  function From(s: State, k: Kind, steps: seq<Step>): State
    decreases |steps|
  {
    if steps == [] then s else After(From(s, k, steps[..|steps| - 1]), k, steps[|steps| - 1])
  }

  function Init(now: int, free: nat): State { State(now, map[], map[], free, map[], map[], []) }

  // ------------------------------------------------------------------ sums

  ghost function Sum(m: map<string, nat>): nat
    decreases m.Keys
  {
    if m == map[] then 0 else
      var k :| k in m;
      m[k] + Sum(m - {k})
  }

  lemma {:induction false} SumWithout(m: map<string, nat>, k: string)
    requires k in m
    ensures Sum(m) == m[k] + Sum(m - {k})
    decreases m.Keys
  {
    var j :| j in m && Sum(m) == m[j] + Sum(m - {j});
    if j != k {
      SumWithout(m - {j}, k);
      SumWithout(m - {k}, j);
      assert m - {j} - {k} == m - {k} - {j};
    }
  }

  lemma SumPut(m: map<string, nat>, k: string, n: nat)
    ensures Sum(m[k := n]) == Sum(m) - (if k in m then m[k] else 0) + n
  {
    SumWithout(m[k := n], k);
    assert m[k := n] - {k} == m - {k};
    if k in m {
      SumWithout(m, k);
    } else {
      assert m - {k} == m;
    }
  }

  // ------------------------------------------------------------------ what every run keeps

  /** How much a branch took, gave back and had consumed, from the history. */
  function TakenBy(log: seq<Entry>, id: string): nat
    decreases |log|
  {
    if log == [] then 0
    else
      var last := log[|log| - 1];
      TakenBy(log[..|log| - 1], id) + (if last.Took? && last.id == id then last.n else 0)
  }

  function GivenBackBy(log: seq<Entry>, id: string): nat
    decreases |log|
  {
    if log == [] then 0
    else
      var last := log[|log| - 1];
      GivenBackBy(log[..|log| - 1], id) + (if last.GaveBack? && last.id == id then last.n else 0)
  }

  function UsedBy(log: seq<Entry>, id: string): nat
    decreases |log|
  {
    if log == [] then 0
    else
      var last := log[|log| - 1];
      UsedBy(log[..|log| - 1], id) + (if last.UsedUp? && last.id == id then last.n else 0)
  }

  lemma LogMore(log: seq<Entry>, e: Entry, id: string)
    ensures TakenBy(log + [e], id) == TakenBy(log, id) + (if e.Took? && e.id == id then e.n else 0)
    ensures GivenBackBy(log + [e], id) == GivenBackBy(log, id) + (if e.GaveBack? && e.id == id then e.n else 0)
    ensures UsedBy(log + [e], id) == UsedBy(log, id) + (if e.UsedUp? && e.id == id then e.n else 0)
  {
    assert (log + [e])[..|log|] == log;
  }

  /** No branch takes twice or gives back twice; no consumption ID takes twice. */
  predicate Once(log: seq<Entry>) {
    forall i, j :: 0 <= i < j < |log| ==>
      && !(log[i].Took? && log[j].Took? && log[i].id == log[j].id)
      && !(log[i].GaveBack? && log[j].GaveBack? && log[i].id == log[j].id)
      && !(log[i].UsedUp? && log[j].UsedUp? && log[i].consumption == log[j].consumption)
  }

  /** Nothing is lost or made: what is free, outstanding and consumed adds up to the whole. */
  ghost predicate Conserved(s: State, total: nat) {
    s.free + Sum(s.held) + Sum(s.used) == total
  }

  /** Each branch's own account. */
  predicate Balanced(s: State, id: string) {
    TakenBy(s.log, id) == HeldBy(s, id) + GivenBackBy(s.log, id) + UsedBy(s.log, id)
  }

  /** What a branch of this kind may have done, by its state; a branch of none, or of another kind, did nothing here. */
  predicate Traced(s: State, k: Kind, e: Entry) {
    && e.id in s.branches && s.branches[e.id].kind == k.name
    && (e.Took? ==> s.branches[e.id].state !in {Absent, Rejected, Cancelled})
    && (e.GaveBack? ==> s.branches[e.id].state in {Released, Expired})
    && (e.UsedUp? ==> e.consumption in s.consumptions && s.branches[e.id].state !in {Absent, Rejected, Cancelled, Held})
  }

  predicate HeldOk(s: State, k: Kind, id: string) {
    HeldBy(s, id) > 0 ==>
      && id in s.branches && s.branches[id].kind == k.name && !Ended(s.branches[id].state)
      && s.branches[id].state != Absent
  }

  ghost predicate Inv(s: State, k: Kind, total: nat) {
    && Conserved(s, total) && Once(s.log)
    && (forall id :: Balanced(s, id))
    && (forall i :: 0 <= i < |s.log| ==> Traced(s, k, s.log[i]))
    && (forall id :: id in s.held ==> HeldOk(s, k, id))
    && (forall c :: c in s.used ==> c in s.consumptions)
    && (forall id :: id in s.branches && s.branches[id].kind == k.name ==> s.branches[id].state != Absent)
  }

  // the resource's own moves

  lemma TakeConserves(s: State, id: string, n: nat, total: nat)
    requires Conserved(s, total) && n <= s.free && HeldBy(s, id) == 0
    ensures Conserved(Take(s, id, n), total)
  {
    SumPut(s.held, id, n);
  }

  lemma GiveBackConserves(s: State, id: string, total: nat)
    requires Conserved(s, total)
    ensures Conserved(GiveBack(s, id), total)
  {
    SumPut(s.held, id, 0);
  }

  lemma UseConserves(s: State, id: string, c: string, n: nat, total: nat)
    requires Conserved(s, total) && n <= HeldBy(s, id) && c !in s.used
    ensures Conserved(Use(s, id, c, n), total)
  {
    SumPut(s.held, id, HeldBy(s, id) - n);
    SumPut(s.used, c, n);
  }

  /** An entry more, with its effect on the branch's line, keeps every branch's account. */
  lemma StillBalanced(s: State, next: State, e: Entry, id: string)
    requires next.log == s.log + [e] && Balanced(s, id)
    requires id != e.id ==> HeldBy(next, id) == HeldBy(s, id)
    requires HeldBy(next, e.id) == match e case Took(_, n) => HeldBy(s, e.id)
        + n case GaveBack(_, n) => HeldBy(s, e.id) - n case UsedUp(_, _, n) => HeldBy(s, e.id) - n
    ensures Balanced(next, id)
  {
    LogMore(s.log, e, id);
  }

  lemma OnceMore(log: seq<Entry>, e: Entry)
    requires Once(log)
    requires forall i :: 0 <= i < |log| ==>
      && !(log[i].Took? && e.Took? && log[i].id == e.id)
      && !(log[i].GaveBack? && e.GaveBack? && log[i].id == e.id)
      && !(log[i].UsedUp? && e.UsedUp? && log[i].consumption == e.consumption)
    ensures Once(log + [e])
  {
  }

  /** A step on one branch: its row, at most one entry more of its own, its line; what it held before an end is gone. */
  ghost predicate Effect(s: State, next: State, k: Kind, id: string, more: seq<Entry>) {
    && id in next.branches && next.branches == s.branches[id := next.branches[id]]
    && next.branches[id].kind == k.name && next.branches[id].state != Absent
    && (id in s.branches ==>
          && s.branches[id].kind == k.name && !Ended(s.branches[id].state)
          && next.branches[id].state in {Committed, Consumed, Released, Expired})
    && next.log == s.log + more && |more| <= 1 && (more != [] ==> more[0].id == id && Traced(next, k, more[0]))
    && (forall c :: c in s.consumptions ==> c in next.consumptions)
        && (forall c :: c in next.used ==> c in next.consumptions)
    && (forall j :: j != id ==> HeldBy(next, j) == HeldBy(s, j))
    && (HeldBy(next, id) > 0 ==> !Ended(next.branches[id].state))
  }

  lemma EffectKeeps(s: State, next: State, k: Kind, id: string, more: seq<Entry>, total: nat)
    requires Inv(s, k, total) && Effect(s, next, k, id, more)
    requires Conserved(next, total) && Once(next.log) && forall j :: Balanced(next, j)
    ensures Inv(next, k, total)
  {
    forall i | 0 <= i < |next.log| ensures Traced(next, k, next.log[i]) {
      if i < |s.log| {
        assert next.log[i] == s.log[i] && Traced(s, k, s.log[i]);
      } else {
        assert next.log[i] == more[0];
      }
    }
    forall j | j in next.held ensures HeldOk(next, k, j) {
      if j != id && HeldBy(next, j) > 0 {
        assert j in s.held && HeldOk(s, k, j);
      }
    }
  }

  /** Before a branch of this kind is stored, nothing happened in its name, and it holds nothing. */
  lemma UnknownDidNothing(s: State, k: Kind, total: nat, id: string)
    requires Inv(s, k, total) && id !in s.branches
    ensures HeldBy(s, id) == 0 && forall i :: 0 <= i < |s.log| ==> s.log[i].id != id
  {
    forall i | 0 <= i < |s.log| ensures s.log[i].id != id {
      assert Traced(s, k, s.log[i]);
    }
    assert id in s.held ==> HeldOk(s, k, id);
  }

  lemma OpenGaveNothingBack(s: State, k: Kind, total: nat, id: string)
    requires Inv(s, k, total) && id in s.branches && !Ended(s.branches[id].state)
    ensures forall i :: 0 <= i < |s.log| && s.log[i].id == id ==> !s.log[i].GaveBack?
  {
    forall i | 0 <= i < |s.log| && s.log[i].id == id ensures !s.log[i].GaveBack? {
      assert Traced(s, k, s.log[i]);
    }
  }

  /** A new branch that took its content. */
  lemma TakenKeeps(s: State, k: Kind, id: string, b: Branch, n: nat, total: nat)
    requires Inv(s, k, total) && id !in s.branches && n <= s.free && b.kind == k.name && b.state == Held
    ensures Inv(Take(s, id, n).(branches := s.branches[id := b]), k, total)
  {
    var next, e := Take(s, id, n).(branches := s.branches[id := b]), Took(id, n);
    UnknownDidNothing(s, k, total, id);
    TakeConserves(s, id, n, total);
    OnceMore(s.log, e);
    forall j ensures Balanced(next, j) {
      StillBalanced(s, next, e, j);
    }
    EffectKeeps(s, next, k, id, [e], total);
  }

  /** A new branch that took nothing: refused, or cancelled before its hold. */
  lemma EmptyKeeps(s: State, k: Kind, id: string, b: Branch, total: nat)
    requires Inv(s, k, total) && id !in s.branches && b.kind == k.name && b.state in {Rejected, Cancelled}
    ensures Inv(s.(branches := s.branches[id := b]), k, total)
  {
    var next := s.(branches := s.branches[id := b]);
    UnknownDidNothing(s, k, total, id);
    assert s.log + [] == s.log;
    assert forall j :: Balanced(s, j) ==> Balanced(next, j);
    EffectKeeps(s, next, k, id, [], total);
  }

  lemma HoldIs(s: State, k: Kind, id: string, digest: string, n: nat, willing: bool)
    ensures After(s, k, DoHold(id, digest, n, willing))
            == if id in s.branches then s
               else if willing && n <= s.free then Take(s, id, n).(branches :=
                   s.branches[id := Branch(k.name, Held, digest, Some(s.now + k.period), None, 1)])
               else s.(branches := s.branches[id := Branch(k.name, Rejected, digest, None, None, 1)])
  {
  }

  lemma HoldKeeps(s: State, k: Kind, id: string, digest: string, n: nat, willing: bool, total: nat)
    requires Inv(s, k, total)
    ensures Inv(After(s, k, DoHold(id, digest, n, willing)), k, total)
  {
    HoldIs(s, k, id, digest, n, willing);
    if id !in s.branches {
      if willing && n <= s.free {
        TakenKeeps(s, k, id, Branch(k.name, Held, digest, Some(s.now + k.period), None, 1), n, total);
      } else {
        EmptyKeeps(s, k, id, Branch(k.name, Rejected, digest, None, None, 1), total);
      }
    }
  }

  /** A move that gives back returns all the branch holds. */
  lemma GiveBackKeeps(s: State, k: Kind, id: string, to: BranchState, total: nat)
    requires Inv(s, k, total) && id in s.branches && s.branches[id].kind == k.name && !Ended(s.branches[id].state)
        && to in {Released, Expired}
    ensures Inv(Move(GiveBack(s, id), id, to), k, total)
  {
    var next := Move(GiveBack(s, id), id, to);
    var e := GaveBack(id, HeldBy(s, id));
    OpenGaveNothingBack(s, k, total, id);
    GiveBackConserves(s, id, total);
    OnceMore(s.log, e);
    forall j ensures Balanced(next, j) {
      StillBalanced(s, next, e, j);
    }
    EffectKeeps(s, next, k, id, [e], total);
  }

  lemma CommitKeeps(s: State, k: Kind, id: string, total: nat)
    requires Inv(s, k, total) && id in s.branches && s.branches[id].kind == k.name && s.branches[id].state == Held
    ensures Inv(Move(s, id, Committed), k, total)
  {
    var next := Move(s, id, Committed);
    assert s.log + [] == s.log;
    assert forall j :: Balanced(s, j) ==> Balanced(next, j);
    EffectKeeps(s, next, k, id, [], total);
  }

  lemma DecisionKeeps(s: State, k: Kind, id: string, past: bool, c: Command, total: nat)
    requires Inv(s, k, total) && id in s.branches && s.branches[id].kind == k.name
        && c in {OnConfirm, OnCancel, OnExpire}
    ensures Inv(ApplyDecision(s, id, Decide(s.branches[id].state, past, c)).0, k, total)
  {
    var d := Decide(s.branches[id].state, past, c);
    if d.resource == GivesBack {
      GiveBackKeeps(s, k, id, d.to, total);
    } else if d.changed {
      CommitKeeps(s, k, id, total);
    }
  }

  function Consuming(s: State, id: string, c: string, digest: string, n: nat, to: BranchState): State
    requires n <= HeldBy(s, id) && id in s.branches
  {
    Move(Use(s, id, c, n).(consumptions := s.consumptions[c := Used(id, digest)]), id, to)
  }

  lemma UseKeeps(s: State, k: Kind, id: string, c: string, digest: string, n: nat, to: BranchState, total: nat)
    requires Inv(s, k, total) && id in s.branches && s.branches[id].kind == k.name && s.branches[id].state == Committed
    requires c !in s.consumptions && n <= HeldBy(s, id) && (to == Committed || (to == Consumed && n == HeldBy(s, id)))
    ensures Inv(Consuming(s, id, c, digest, n, to), k, total)
  {
    var next := Consuming(s, id, c, digest, n, to);
    var e := UsedUp(id, c, n);
    UseConserves(s, id, c, n, total);
    forall i | 0 <= i < |s.log| && s.log[i].UsedUp? ensures s.log[i].consumption != c {
      assert Traced(s, k, s.log[i]);
    }
    OnceMore(s.log, e);
    forall j ensures Balanced(next, j) {
      StillBalanced(s, next, e, j);
    }
    EffectKeeps(s, next, k, id, [e], total);
  }

  predicate Consumable(s: State, k: Kind, id: string, c: string, n: nat, willing: bool) {
    !Foreign(s, k, id) && c !in s.consumptions && id in s.branches && s.branches[id].state == Committed && willing
        && n <= HeldBy(s, id)
  }

  lemma ConsumeIs(s: State, k: Kind, id: string, c: string, digest: string, n: nat, willing: bool)
    ensures After(s, k, DoConsume(id, c, digest, n, willing))
            == if Consumable(s, k, id, c, n, willing) then Consuming(s, id, c, digest, n, if HeldBy(s, id) > n
                then Committed else Consumed) else s
  {
  }

  lemma ConsumeKeeps(s: State, k: Kind, id: string, c: string, digest: string, n: nat, willing: bool, total: nat)
    requires Inv(s, k, total)
    ensures Inv(After(s, k, DoConsume(id, c, digest, n, willing)), k, total)
  {
    ConsumeIs(s, k, id, c, digest, n, willing);
    if Consumable(s, k, id, c, n, willing) {
      UseKeeps(s, k, id, c, digest, n, if HeldBy(s, id) > n then Committed else Consumed, total);
    }
  }

  lemma OthersKeep(s: State, k: Kind, step: Step, total: nat)
    requires Inv(s, k, total) && step.OtherKinds?
    ensures Inv(After(s, k, step), k, total)
  {
    var next := After(s, k, step);
    if next != s {
      forall i | 0 <= i < |s.log| ensures Traced(next, k, s.log[i]) {
        assert Traced(s, k, s.log[i]);
      }
      forall j | j in s.held ensures HeldOk(next, k, j) {
        assert HeldOk(s, k, j);
      }
      assert forall j :: Balanced(s, j) ==> Balanced(next, j);
    }
  }

  lemma ElapseKeeps(s: State, k: Kind, now: int, total: nat)
    requires Inv(s, k, total)
    ensures Inv(After(s, k, Elapse(now)), k, total)
  {
    var next := After(s, k, Elapse(now));
    assert forall j :: Balanced(s, j) ==> Balanced(next, j);
    assert forall e :: Traced(s, k, e) ==> Traced(next, k, e);
    assert forall j :: HeldOk(s, k, j) ==> HeldOk(next, k, j);
  }

  lemma StepKeeps(s: State, k: Kind, step: Step, total: nat)
    requires Inv(s, k, total)
    ensures Inv(After(s, k, step), k, total)
  {
    match step
    case DoHold(id, digest, n, willing) => HoldKeeps(s, k, id, digest, n, willing, total);
    case DoConsume(id, c, digest, n, willing) => ConsumeKeeps(s, k, id, c, digest, n, willing, total);
    case DoConfirm(id) =>
      if id in s.branches && !Foreign(s, k, id) { DecisionKeeps(s, k, id, Past(s.branches[id], s.now), OnConfirm,
          total); }
    case DoCancel(id) =>
      if id in s.branches {
        if !Foreign(s, k, id) { DecisionKeeps(s, k, id, Past(s.branches[id], s.now), OnCancel, total); }
      } else {
        EmptyKeeps(s, k, id, Branch(k.name, Cancelled, "", None, None, 1), total);
      }
    case DoExpire(id) =>
      if id in s.branches && !Foreign(s, k, id) { DecisionKeeps(s, k, id, Past(s.branches[id], s.now), OnExpire,
          total); }
    case Elapse(now) => ElapseKeeps(s, k, now, total);
    case OtherKinds(_, _, _, _) => OthersKeep(s, k, step, total);
  }

  /**
    Conservation over every run of the commands, in any order and with any content: what is free,
    outstanding and consumed adds up to what there was; each branch's account balances; each branch takes
    and gives back at most once and each consumption ID counts once; what has ended holds nothing.
   */
  lemma {:induction false} EveryRunConserves(now: int, total: nat, k: Kind, steps: seq<Step>)
    ensures Inv(From(Init(now, total), k, steps), k, total)
    decreases |steps|
  {
    if steps != [] {
      EveryRunConserves(now, total, k, steps[..|steps| - 1]);
      StepKeeps(From(Init(now, total), k, steps[..|steps| - 1]), k, steps[|steps| - 1], total);
    }
  }

  lemma EndedHoldsNothing(now: int, total: nat, k: Kind, steps: seq<Step>, id: string)
    requires var s := From(Init(now, total), k, steps); id in s.branches && Ended(s.branches[id].state)
    ensures HeldBy(From(Init(now, total), k, steps), id) == 0
  {
    EveryRunConserves(now, total, k, steps);
    var s := From(Init(now, total), k, steps);
    assert id in s.held ==> HeldOk(s, k, id);
  }

  /** Nothing of the branch changed: not its row, not what it holds, no entry in its name. */
  predicate LeavesAlone(s: State, next: State, id: string) {
    && id in s.branches && id in next.branches && next.branches[id] == s.branches[id]
        && HeldBy(next, id) == HeldBy(s, id)
    && s.log <= next.log && forall i :: |s.log| <= i < |next.log| ==> next.log[i].id != id
  }

  lemma OnAnother(s: State, j: string, d: Decision, id: string)
    requires id in s.branches && j in s.branches && j != id
    ensures LeavesAlone(s, ApplyDecision(s, j, d).0, id)
  {
  }

  lemma StepLeavesEnded(s: State, k: Kind, step: Step, id: string)
    requires id in s.branches && s.branches[id].kind == k.name && Ended(s.branches[id].state)
    ensures LeavesAlone(s, After(s, k, step), id)
  {
    match step
    case DoConfirm(j) => if j in s.branches && j != id { OnAnother(s, j,
        Decide(s.branches[j].state, Past(s.branches[j], s.now), OnConfirm), id); }
    case DoCancel(j) => if j in s.branches && j != id { OnAnother(s, j,
        Decide(s.branches[j].state, Past(s.branches[j], s.now), OnCancel), id); }
    case DoExpire(j) => if j in s.branches && j != id { OnAnother(s, j,
        Decide(s.branches[j].state, Past(s.branches[j], s.now), OnExpire), id); }
    case DoConsume(j, c, digest, n, willing) => ConsumeLeavesEnded(s, k, j, c, digest, n, willing, id);
    case _ =>
  }

  lemma ConsumeLeavesEnded(s: State, k: Kind, j: string, c: string, digest: string, n: nat, willing: bool, id: string)
    requires id in s.branches && s.branches[id].kind == k.name && Ended(s.branches[id].state)
    ensures LeavesAlone(s, After(s, k, DoConsume(j, c, digest, n, willing)), id)
  {
    ConsumeIs(s, k, j, c, digest, n, willing);
  }

  /** An ended branch never moves again, in no field, and its resource is never touched again, whatever commands follow.
      */
  lemma {:induction false} EndedNeverMoves(s: State, k: Kind, steps: seq<Step>, id: string)
    requires id in s.branches && s.branches[id].kind == k.name && Ended(s.branches[id].state)
    ensures LeavesAlone(s, From(s, k, steps), id)
    decreases |steps|
  {
    if steps != [] {
      EndedNeverMoves(s, k, steps[..|steps| - 1], id);
      StepLeavesEnded(From(s, k, steps[..|steps| - 1]), k, steps[|steps| - 1], id);
    }
  }

  /** A branch cancelled before its hold arrived never takes anything, in the whole run before and after. */
  lemma CancelledNeverTakes(now: int, total: nat, k: Kind, steps: seq<Step>, id: string, i: nat)
    requires StateOf(From(Init(now, total), k, steps), id) == Cancelled
    requires From(Init(now, total), k, steps).branches[id].kind == k.name && i < |From(Init(now, total), k, steps).log|
    ensures From(Init(now, total), k, steps).log[i].id != id
  {
    EveryRunConserves(now, total, k, steps);
    var s := From(Init(now, total), k, steps);
    assert Traced(s, k, s.log[i]);
  }
}
