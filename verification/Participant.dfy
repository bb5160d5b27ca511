/** The participant's commands as they run: each one a transaction over its tables, in the order of its statements. */
module Participant {
  import opened Base
  import opened Reserve

  class Tables {
    const kind: Kind
    var now: int
    var branches: map<string, Branch>
    var consumptions: map<string, Used>
    var free: nat
    var held: map<string, nat>
    var used: map<string, nat>
    ghost var log: seq<Entry>

    ghost function Model(): State
      reads this
    {
      State(now, branches, consumptions, free, held, used, log)
    }

    /** A command's answer and new state are what its function says; a fault changes nothing. */
    ghost predicate Did(before: State, spec: Result<(State, Answer), Fault>, r: Result<Answer, Fault>)
      reads this
    {
      if spec.Err? then r == Err(spec.error) && Model() == before else r == Ok(spec.value.1) && Model() == spec.value.0
    }

    constructor (kind: Kind, now: int, free: nat)
      ensures this.kind == kind && Model() == Init(now, free)
    {
      this.kind, this.now, this.free := kind, now, free;
      branches, consumptions, held, used, log := map[], map[], map[], map[], [];
    }

    /** Take, from the component. */
    method TakeContent(id: string, n: nat, willing: bool) returns (enough: bool)
      modifies this`free, this`held, this`log
      ensures enough == (willing && n <= old(free))
      ensures Model() == if enough then Take(old(Model()), id, n) else old(Model())
    {
      enough := willing && n <= free;
      if enough {
        free, held, log := free - n, held[id := n], log + [Took(id, n)];
      }
    }

    method HoldBranch(id: string, digest: string, n: nat, willing: bool) returns (r: Result<Answer, Fault>)
      modifies this
      ensures Did(old(Model()), Hold(old(Model()), kind, id, digest, n, willing), r)
    {
      if id in branches {
        var b := branches[id];
        if b.kind != kind.name {
          return Err(OtherKind);
        }
        var d := Decide(b.state, Past(b, now), if b.digest == digest then OnHoldSame else OnHoldOther);
        return Ok(Answer(b.state, d.conflict, NoRefusal, !d.conflict));
      }
      branches := branches[id := Branch(kind.name, BranchState.Held, digest, None, None, 1)];
      var enough := TakeContent(id, n, willing);
      var d := Decide(Absent, false, if enough then OnHoldEnough else OnHoldShort);
      branches := branches[id := branches[id].(state := d.to, expiresAt := if d.to == BranchState.Held
          then Some(now + kind.period) else None)];
      assert branches == old(branches)[id := branches[id]];
      r := Ok(Answer(d.to, false, NoRefusal, false));
    }

    /** apply: gives back, then moves. */
    method ApplyTo(id: string, d: Decision) returns (a: Answer)
      requires id in branches
      modifies this`branches, this`free, this`held, this`log
      ensures (Model(), a) == ApplyDecision(old(Model()), id, d)
    {
      var b := branches[id];
      if d.resource == GivesBack {
        var n := if id in held then held[id] else 0;
        free, held, log := free + n, held[id := 0], log + [GaveBack(id, n)];
      }
      if !d.changed {
        return Answer(b.state, d.conflict, d.refused, false);
      }
      branches := branches[id := b.(state := d.to, version := b.version + 1,
                                    expiresAt := if d.to == BranchState.Held then b.expiresAt else None,
                                    confirmedAt := if d.to == Committed && b.confirmedAt.None? then Some(now)
                                        else b.confirmedAt)];
      a := Answer(d.to, false, NoRefusal, false);
    }

    method ConfirmBranch(id: string) returns (r: Result<Answer, Fault>)
      modifies this
      ensures Did(old(Model()), Confirm(old(Model()), kind, id), r)
    {
      if id !in branches {
        return Ok(Answer(Absent, false, NoRefusal, false));
      }
      if branches[id].kind != kind.name {
        return Err(OtherKind);
      }
      var a := ApplyTo(id, Decide(branches[id].state, Past(branches[id], now), OnConfirm));
      r := Ok(a);
    }

    method CancelBranch(id: string) returns (r: Result<Answer, Fault>)
      modifies this
      ensures Did(old(Model()), Cancel(old(Model()), kind, id), r)
    {
      if id !in branches {
        branches := branches[id := Branch(kind.name, Cancelled, "", None, None, 1)];
        return Ok(Answer(Cancelled, false, NoRefusal, false));
      }
      if branches[id].kind != kind.name {
        return Err(OtherKind);
      }
      var a := ApplyTo(id, Decide(branches[id].state, Past(branches[id], now), OnCancel));
      r := Ok(a);
    }

    /** Use, from the component. */
    method UseContent(id: string, consumption: string, n: nat, willing: bool) returns (left: bool, beyond: bool)
      modifies this`held, this`used, this`log
      ensures beyond == (!willing || n > HeldBy(old(Model()), id)) && left == (HeldBy(old(Model()), id) > n)
      ensures Model() == if beyond then old(Model()) else Use(old(Model()), id, consumption, n)
    {
      var has := if id in held then held[id] else 0;
      left, beyond := has > n, !willing || n > has;
      if !beyond {
        held, used, log := held[id := has - n], used[consumption := n], log + [UsedUp(id, consumption, n)];
      }
    }

    method ConsumeBranch(id: string, consumption: string, digest: string, n: nat, willing: bool)
        returns (r: Result<Answer, Fault>)
      modifies this
      ensures Did(old(Model()), Consume(old(Model()), kind, id, consumption, digest, n, willing), r)
    {
      if id in branches && branches[id].kind != kind.name {
        return Err(OtherKind);
      }
      var state := if id in branches then branches[id].state else Absent;
      if consumption in consumptions {
        var c := if consumptions[consumption] == Used.Used(id, digest) then OnConsumeUsedSame else OnConsumeUsedOther;
        var d := Decide(state, false, c);
        return Ok(Answer(state, d.conflict, NoRefusal, !d.conflict));
      }
      var first := Decide(state, false, OnConsumeWithin);
      if first.refused != NoRefusal {
        return Ok(Answer(state, false, first.refused, false));
      }
      var a := TakeOff(id, consumption, digest, n, willing);
      r := Ok(a);
    }

    /** A new consumption of a committed branch. */
    method TakeOff(id: string, consumption: string, digest: string, n: nat, willing: bool) returns (a: Answer)
      requires id in branches && branches[id].kind == kind.name && branches[id].state == Committed
          && consumption !in consumptions
      modifies this
      ensures Did(old(Model()), Consume(old(Model()), kind, id, consumption, digest, n, willing), Ok(a))
    {
      var left, beyond := UseContent(id, consumption, n, willing);
      var c := if beyond then OnConsumeBeyond else if left then OnConsumeWithin else OnConsumeExact;
      var d := Decide(Committed, false, c);
      if d.refused != NoRefusal {
        return Answer(Committed, false, d.refused, false);
      }
      consumptions := consumptions[consumption := Used.Used(id, digest)];
      a := ApplyTo(id, d);
    }

    method ExpireBranch(id: string)
      modifies this
      ensures Model() == After(old(Model()), kind, DoExpire(id))
      ensures id in old(Due()) ==> now == old(now) && JustExpired(old(branches), branches, {id})
    {
      if id in branches && branches[id].kind == kind.name {
        var a := ApplyTo(id, Decide(branches[id].state, Past(branches[id], now), OnExpire));
      }
    }

    /** The held branches of this kind past their period. */
    function Due(): set<string>
      reads this
    {
      DueIn(branches, kind.name, now)
    }

    /** A batch: the due branches with the earliest ends, at most limit of them. */
    method SelectDue(limit: nat) returns (ids: seq<string>)
      ensures |ids| == Min(limit, |Due()|) && (forall i :: 0 <= i < |ids| ==> ids[i] in Due())
      ensures forall i, j :: 0 <= i < j < |ids| ==>
          ids[i] != ids[j] && branches[ids[i]].expiresAt.value <= branches[ids[j]].expiresAt.value
      ensures forall i, id :: 0 <= i < |ids| && id in Due() && id !in ids ==>
          branches[ids[i]].expiresAt.value <= branches[id].expiresAt.value
    {
      ids := [];
      var rest := Due();
      while |ids| < limit && rest != {}
        invariant rest <= Due() && |ids| + |rest| == |Due()| && |ids| <= limit
        invariant forall id :: id in Due() <==> id in rest || id in ids
        invariant forall i :: 0 <= i < |ids| ==> ids[i] in Due() && ids[i] !in rest
        invariant forall i, j :: 0 <= i < j < |ids| ==>
            ids[i] != ids[j] && branches[ids[i]].expiresAt.value <= branches[ids[j]].expiresAt.value
        invariant forall i, id :: 0 <= i < |ids| && id in rest ==>
            branches[ids[i]].expiresAt.value <= branches[id].expiresAt.value
        decreases rest
      {
        var first := Earliest(rest);
        rest, ids := rest - {first}, ids + [first];
      }
    }

    method Earliest(ids: set<string>) returns (first: string)
      requires ids != {} && ids <= Due()
      ensures first in ids && forall id :: id in ids ==> branches[first].expiresAt.value <= branches[id].expiresAt.value
    {
      first :| first in ids;
      var rest := ids - {first};
      while rest != {}
        invariant first in ids && rest <= ids
        invariant forall id :: id in ids - rest ==> branches[first].expiresAt.value <= branches[id].expiresAt.value
        decreases rest
      {
        var id :| id in rest;
        if branches[id].expiresAt.value < branches[first].expiresAt.value {
          first := id;
        }
        rest := rest - {id};
      }
    }

    /** The transactions of one batch, one by one. */
    method ExpireBatch(due: seq<string>) returns (ghost steps: seq<Step>)
      requires forall i :: 0 <= i < |due| ==> due[i] in Due()
      requires forall i, j :: 0 <= i < j < |due| ==> due[i] != due[j]
      modifies this
      ensures now == old(now) && JustExpired(old(branches), branches, Members(due, |due|))
          && Ran(old(Model()), kind, steps, Model())
    {
      steps := [];
      for i := 0 to |due|
        invariant now == old(now) && JustExpired(old(branches), branches, Members(due, i))
            && Ran(old(Model()), kind, steps, Model())
      {
        ghost var before, was := branches, Model();
        StillDue(old(branches), before, due, i, kind.name, now);
        ExpireBranch(due[i]);
        ExpiredMore(old(branches), before, branches, Members(due, i), {due[i]});
        RanOne(was, kind, due[i], Model());
        RanOn(old(Model()), kind, steps, was, [DoExpire(due[i])], Model());
        steps := steps + [DoExpire(due[i])];
      }
    }

    /** One turn of the job: a batch selected and expired; a short one was the last. */
    method ExpireSome(batch: nat) returns (last: bool, ghost steps: seq<Step>, ghost gone: set<string>)
      requires batch > 0
      modifies this
      ensures gone <= old(Due()) && now == old(now) && JustExpired(old(branches), branches, gone)
      ensures if last then Due() == {} else |Due()| < |old(Due())|
      ensures Ran(old(Model()), kind, steps, Model())
    {
      var due := SelectDue(batch);
      steps := ExpireBatch(due);
      gone := Members(due, |due|);
      Fewer(old(Due()), due, |due|);
      DueAfter(old(branches), branches, gone, kind.name, now);
      last := |due| < batch;
    }

    /** ExpireDue: batch after batch until a short one; it ends with nothing due, and expires what was due and nothing
        else. */
    method ExpireDue(batch: nat) returns (ghost steps: seq<Step>)
      requires batch > 0
      modifies this
      ensures Due() == {} && now == old(now) && JustExpired(old(branches), branches, old(Due()))
          && Ran(old(Model()), kind, steps, Model())
    {
      var last: bool;
      ghost var gone: set<string>;
      last, steps, gone := ExpireSome(batch);
      while !last
        invariant gone <= old(Due()) && now == old(now) && JustExpired(old(branches), branches, gone)
            && (last ==> Due() == {})
        invariant Ran(old(Model()), kind, steps, Model())
        decreases |Due()|, !last
      {
        ghost var before, was := branches, Model();
        ghost var more, hence;
        DueAfter(old(branches), branches, gone, kind.name, now);
        last, more, hence := ExpireSome(batch);
        RanOn(old(Model()), kind, steps, was, more, Model());
        ExpiredMore(old(branches), before, branches, gone, hence);
        steps, gone := steps + more, gone + hence;
      }
      DueAfter(old(branches), branches, gone, kind.name, now);
    }
  }

  /** The first n of a list. */
  function Members(ids: seq<string>, n: nat): set<string>
    requires n <= |ids|
  {
    if n == 0 then {} else Members(ids, n - 1) + {ids[n - 1]}
  }

  lemma {:induction false} NotYet(ids: seq<string>, n: nat, k: nat)
    requires n <= k < |ids| && forall i, j :: 0 <= i < j < |ids| ==> ids[i] != ids[j]
    ensures ids[k] !in Members(ids, n)
  {
    if n > 0 {
      NotYet(ids, n - 1, k);
    }
  }

  /** A run of expiries from one state to another. */
  ghost predicate Ran(s: State, k: Kind, steps: seq<Step>, t: State) {
    t == From(s, k, steps) && forall i :: 0 <= i < |steps| ==> steps[i].DoExpire?
  }

  lemma RanOn(s: State, k: Kind, a: seq<Step>, t: State, b: seq<Step>, u: State)
    requires Ran(s, k, a, t) && Ran(t, k, b, u)
    ensures Ran(s, k, a + b, u)
  {
    FromMore(s, k, a, b);
  }

  lemma RanOne(s: State, k: Kind, id: string, t: State)
    requires t == After(s, k, DoExpire(id))
    ensures Ran(s, k, [DoExpire(id)], t)
  {
    assert From(s, k, []) == s;
    assert [DoExpire(id)][..0] == [];
  }

  /** Between two times these branches expired, and nothing else of the table changed. */
  ghost predicate JustExpired(was: map<string, Branch>, now: map<string, Branch>, gone: set<string>) {
    && now.Keys == was.Keys
    && (forall id :: id in was && id !in gone ==> now[id] == was[id])
    && (forall id :: id in gone ==> id in now && now[id].state == Expired)
  }

  lemma ExpiredMore(a: map<string, Branch>, b: map<string, Branch>, c: map<string, Branch>, g: set<string>,
      h: set<string>)
    requires JustExpired(a, b, g) && JustExpired(b, c, h)
    ensures JustExpired(a, c, g + h)
  {
  }

  function DueIn(branches: map<string, Branch>, kind: string, now: int): set<string> {
    set id | id in branches && branches[id].kind == kind && Past(branches[id], now)
  }

  lemma DueAfter(was: map<string, Branch>, now: map<string, Branch>, gone: set<string>, kind: string, at: int)
    requires JustExpired(was, now, gone)
    ensures DueIn(now, kind, at) == DueIn(was, kind, at) - gone
  {
  }

  lemma StillDue(was: map<string, Branch>, now: map<string, Branch>, due: seq<string>, i: nat, kind: string, at: int)
    requires i < |due| && JustExpired(was, now, Members(due, i)) && due[i] in DueIn(was, kind, at)
    requires forall x, y :: 0 <= x < y < |due| ==> due[x] != due[y]
    ensures due[i] in DueIn(now, kind, at) && Members(due, i + 1) == Members(due, i) + {due[i]}
  {
    DueAfter(was, now, Members(due, i), kind, at);
    NotYet(due, i, i);
  }

  lemma {:induction false} FromMore(s: State, k: Kind, a: seq<Step>, b: seq<Step>)
    ensures From(s, k, a + b) == From(From(s, k, a), k, b)
    decreases |b|
  {
    if b == [] {
      assert a + b == a;
    } else {
      FromMore(s, k, a, b[..|b| - 1]);
      assert (a + b)[..|a + b| - 1] == a + b[..|b| - 1];
    }
  }

  lemma {:induction false} Fewer(was: set<string>, due: seq<string>, n: nat)
    requires n <= |due| && (forall i :: 0 <= i < n ==> due[i] in was) && forall i, j :: 0 <= i < j < |due| ==>
        due[i] != due[j]
    ensures Members(due, n) <= was && |Members(due, n)| == n && |was - Members(due, n)| == |was| - n
  {
    if n > 0 {
      Fewer(was, due, n - 1);
      NotYet(due, n - 1, n - 1);
    }
  }
}
