/**
  Receiving inputs into a projection (projection/projection.go): the state table of one row, and the
  transaction that applies one input to the projection table.
 */
module Receive {
  import opened Base
  import opened Numbering

  datatype RowState = Complete | Incomplete | Tombstone

  /** Kinds of input; Purged is a by-ID read that found not even a tombstone. */
  datatype InputKind = IsFull | IsPartial | IsDelete | IsPurged

  datatype Action = Write | Overwrite | MergeAndFetch | WriteAndFetch | Ignore

  /** A row's receiving state; `stale`: of an older epoch or instance than the adopted one. */
  datatype Seen = Seen(state: RowState, version: int, need: int, stale: bool)

  function Next(state: RowState, v: int): Seen {
    Seen(state, v, if state == Incomplete then v else 0, false)
  }

  function Target(kind: InputKind): RowState {
    match kind
    case IsFull => Complete
    case IsPartial => Incomplete
    case _ => Tombstone
  }

  /** The state table for one row. */
  function Decide(cur: Option<Seen>, kind: InputKind, v: int): (Seen, Action) {
    if kind == IsPurged then (Next(Tombstone, 0), Write)
    else if cur.None? then (Next(Target(kind), v), if kind == IsPartial then WriteAndFetch else Write)
    else if cur.value.stale then (Next(Target(kind), v), if kind == IsPartial then WriteAndFetch else Overwrite)
    else
      var c := cur.value;
      if c.state == Tombstone && v <= c.version then (c, Ignore)
      else if c.state == Tombstone then
        (Next(Target(kind), v), if kind == IsFull then Overwrite else if kind == IsPartial then WriteAndFetch
            else Write)
      else if (kind == IsFull && c.state == Complete && v > c.version)
          || (kind == IsFull && c.state == Incomplete && v >= c.need) then
        (Next(Complete, v), Overwrite)
      else if kind == IsPartial && v > c.version then (Next(Incomplete, v), MergeAndFetch)
      else if kind == IsDelete && v >= c.version then (Next(Tombstone, v), Write)
      else (c, Ignore)
  }

  // ------------------------------------------------------------------ receiving is a join

  function Rung(s: RowState): int {
    match s
    case Incomplete => 0
    case Complete => 1
    case Tombstone => 2
  }

  /** The order of receiving: the version, then partial < full < delete. */
  predicate Above(v: int, s: RowState, w: int, t: RowState) {
    v > w || (v == w && Rung(s) > Rung(t))
  }

  /** need_version equals version on incomplete rows, and the row is of the adopted epoch. */
  predicate Settled(c: Seen) {
    !c.stale && c == Next(c.state, c.version)
  }

  /** An input takes effect exactly when it is above the row, and then the row becomes what the input says. */
  lemma DecideIsJoin(c: Seen, kind: InputKind, v: int)
    requires Settled(c) && kind != IsPurged
    ensures var (next, action) := Decide(Some(c), kind, v);
            && (action != Ignore <==> Above(v, Target(kind), c.version, c.state))
            && next == (if Above(v, Target(kind), c.version, c.state) then Next(Target(kind), v) else c)
            && Settled(next)
  {
  }

  datatype Arrival = Arrival(kind: InputKind, version: int)

  function Fold(cur: Option<Seen>, ins: seq<Arrival>): Option<Seen>
    decreases |ins|
  {
    if ins == [] then cur else Fold(Some(Decide(cur, ins[0].kind, ins[0].version).0), ins[1..])
  }

  ghost predicate Largest(a: Arrival, ins: seq<Arrival>) {
    a in ins && forall b :: b in ins ==> !Above(b.version, Target(b.kind), a.version, Target(a.kind))
  }

  lemma {:induction false} FoldFrom(c: Seen, ins: seq<Arrival>)
    requires Settled(c) && forall a :: a in ins ==> a.kind != IsPurged
    ensures Fold(Some(c), ins).Some? && Settled(Fold(Some(c), ins).value)
    ensures var r := Fold(Some(c), ins).value;
            && (r == c || exists a :: a in ins && r == Next(Target(a.kind), a.version))
            && !Above(c.version, c.state, r.version, r.state)
            && forall a :: a in ins ==> !Above(a.version, Target(a.kind), r.version, r.state)
    decreases |ins|
  {
    if ins != [] {
      DecideIsJoin(c, ins[0].kind, ins[0].version);
      FoldFrom(Decide(Some(c), ins[0].kind, ins[0].version).0, ins[1..]);
    }
  }

  /**
    Receiving is a join: whatever the order and however often inputs repeat, the row ends in the
    state of the largest input; an incomplete row waits for exactly its version.
   */
  lemma FoldIsLargest(ins: seq<Arrival>, a: Arrival)
    requires forall b :: b in ins ==> b.kind != IsPurged
    requires Largest(a, ins)
    ensures Fold(None, ins) == Some(Next(Target(a.kind), a.version))
  {
    FoldFrom(Decide(None, ins[0].kind, ins[0].version).0, ins[1..]);
    var r := Fold(None, ins).value;
    assert exists b :: b in ins && r == Next(Target(b.kind), b.version);
    var b :| b in ins && r == Next(Target(b.kind), b.version);
    assert forall x :: x in ins ==> x == ins[0] || x in ins[1..];
    assert !Above(a.version, Target(a.kind), b.version, Target(b.kind));
    assert !Above(b.version, Target(b.kind), a.version, Target(a.kind));
  }

  lemma {:induction false} LargestExists(ins: seq<Arrival>) returns (a: Arrival)
    requires ins != []
    ensures Largest(a, ins)
  {
    a := ins[0];
    if |ins| > 1 {
      var b := LargestExists(ins[1..]);
      if Above(b.version, Target(b.kind), a.version, Target(a.kind)) {
        a := b;
      }
    }
  }

  /** Two histories with the same inputs, in any order and multiplicity, end alike. */
  lemma OrderAndRepeatsDoNotMatter(ins: seq<Arrival>, other: seq<Arrival>)
    requires forall b :: b in ins ==> b.kind != IsPurged
    requires forall b :: b in ins <==> b in other
    ensures Fold(None, ins) == Fold(None, other)
  {
    if ins != [] {
      var a := LargestExists(ins);
      assert Largest(a, other);
      FoldIsLargest(ins, a);
      FoldIsLargest(other, a);
    } else {
      assert other != [] ==> other[0] in other;
    }
  }

  // ------------------------------------------------------------------ the projection table

  /** Content, symbolically: a record whole at a version, a change's fields, or fields merged over a row. */
  datatype Data = Whole(id: nat, version: int) | Fields(id: nat, version: int) | Merge(under: Option<Data>, over: Data)

  datatype Rec = Rec(state: RowState, version: int, need: Option<int>, impl: nat, epoch: Epoch, gen: Option<nat>,
                     minRead: Option<nat>, data: Option<Data>)

  datatype Status = Aligned | Aligning | Stalled | Blocked

  datatype Identity = Identity(impl: nat, epoch: Epoch)

  /** The projection's tables: be_projection_source and be_projection. */
  datatype Projection = Projection(adopted: Option<Identity>, status: Status, gen: nat, rows: map<nat, Rec>)

  /** One input; at: its position in its partition, 0 when it has none. */
  datatype Input = Input(id: nat, kind: InputKind, version: int, impl: nat, epoch: Epoch, data: Data, at: nat)

  datatype Skip = Taken | OtherInstance | OlderEpoch | NewerEpoch

  datatype Outcome = Outcome(fetch: bool, changed: bool, skipped: Skip)

  /** The generation a row written now carries: only a source shown as aligning marks its rows. */
  function DuringAlignment(p: Projection): Option<nat> {
    if p.status == Aligning then Some(p.gen) else None
  }

  function Local(p: Projection, input: Input): Option<Seen> {
    if input.id !in p.rows then None
    else
      var r := p.rows[input.id];
      Some(Seen(r.state, r.version, if r.need.Some? then r.need.value else 0, r.impl != input.impl
          || r.epoch != input.epoch))
  }

  /** A purged record's tombstone takes only inputs read past it. */
  predicate ReadBefore(p: Projection, input: Input) {
    && input.id in p.rows && p.rows[input.id].state == Tombstone && p.rows[input.id].minRead.Some?
    && 0 < input.at <= p.rows[input.id].minRead.value
  }

  /** The row a decision writes. */
  function Written(p: Projection, input: Input): Rec {
    var cur := Local(p, input);
    var (next, action) := Decide(cur, input.kind, input.version);
    var need := if next.state == Incomplete then Some(next.need) else None;
    var data := if action == MergeAndFetch && input.id in p.rows then Some(Merge(p.rows[input.id].data, input.data))
                else if next.state == Complete || (next.state == Incomplete && cur.None?) then Some(input.data)
                else None;
    Rec(next.state, next.version, need, input.impl, input.epoch, DuringAlignment(p), None, data)
  }

  /** What applying an input makes of the projection. */
  function Apply(p: Projection, input: Input): (Projection, Outcome) {
    if p.adopted.Some? && input.impl != p.adopted.value.impl then
      (p.(status := Blocked), Outcome(false, false, OtherInstance))
    else if p.adopted.Some? && EpochLess(input.epoch, p.adopted.value.epoch) then (p, Outcome(false, false, OlderEpoch))
    else if p.adopted.Some? && EpochLess(p.adopted.value.epoch, input.epoch) then (p, Outcome(false, false, NewerEpoch))
    else if ReadBefore(p, input) then (p, Outcome(false, false, Taken))
    else
      var (next, action) := Decide(Local(p, input), input.kind, input.version);
      if action == Ignore then (p, Outcome(false, false, Taken))
      else (p.(rows := p.rows[input.id := Written(p, input)]), Outcome(next.state == Incomplete, true, Taken))
  }

  /** A row as this code writes them: it waits for its own version exactly when incomplete. */
  predicate WellKept(r: Rec) {
    r.need == if r.state == Incomplete then Some(r.version) else None
  }

  /** A complete row holds the record whole, at its version. */
  predicate Truthful(id: nat, r: Rec) {
    r.state == Complete ==> r.data == Some(Whole(id, r.version))
  }

  /** What an input may do to a row of the adopted source: its version never falls, and reaches the input's. */
  lemma ApplyRaises(p: Projection, input: Input)
    requires p.adopted == Some(Identity(input.impl, input.epoch)) && input.kind != IsPurged
    requires forall id :: id in p.rows ==> WellKept(p.rows[id])
    requires input.kind == IsFull ==> input.data == Whole(input.id, input.version)
    ensures var q := Apply(p, input).0;
            && q.(rows := p.rows) == p && p.rows.Keys <= q.rows.Keys
            && (forall id :: id in p.rows && id != input.id ==> q.rows[id] == p.rows[id])
            && (forall id :: id in q.rows ==> id in p.rows || id == input.id)
            && (forall id :: id in q.rows ==> WellKept(q.rows[id]))
            && (input.id in q.rows && (input.id !in p.rows || q.rows[input.id] != p.rows[input.id]) ==>
                  && q.rows[input.id].version == input.version && q.rows[input.id].state == Target(input.kind)
                  && q.rows[input.id].impl == input.impl && q.rows[input.id].epoch == input.epoch
                  && q.rows[input.id].gen == DuringAlignment(p) && q.rows[input.id].minRead.None?
                  && Truthful(input.id, q.rows[input.id]))
            && (!ReadBefore(p, input) ==>
                  && input.id in q.rows && q.rows[input.id].version >= input.version
                  && (input.id in p.rows && p.rows[input.id].impl == input.impl
                      && p.rows[input.id].epoch == input.epoch ==>
                        q.rows[input.id].version >= p.rows[input.id].version))
  {
  }

  /** Applying a whole history to one projection: rows stay well kept, and complete rows true to the source. */
  function ApplyAll(p: Projection, ins: seq<Input>): Projection
    decreases |ins|
  {
    if ins == [] then p else ApplyAll(Apply(p, ins[0]).0, ins[1..])
  }

  lemma {:induction false} CompleteRowsAreTrue(p: Projection, ins: seq<Input>)
    requires p.adopted.Some?
    requires forall i :: i in ins ==> i.kind == IsFull ==> i.data == Whole(i.id, i.version)
    requires forall id :: id in p.rows ==> WellKept(p.rows[id]) && Truthful(id, p.rows[id])
    ensures var q := ApplyAll(p, ins);
            forall id :: id in q.rows ==> WellKept(q.rows[id]) && Truthful(id, q.rows[id])
    decreases |ins|
  {
    if ins != [] {
      var p1 := Apply(p, ins[0]).0;
      assert forall id :: id in p1.rows ==> WellKept(p1.rows[id]) && Truthful(id, p1.rows[id]);
      CompleteRowsAreTrue(p1, ins[1..]);
      assert ApplyAll(p, ins) == ApplyAll(p1, ins[1..]);
    }
  }

  class Store {
    var adopted: Option<Identity>
    var status: Status
    var gen: nat
    var rows: map<nat, Rec>

    function View(): Projection
      reads this
    {
      Projection(adopted, status, gen, rows)
    }

    /** Applies one input inside the consumer's transaction, the record's inputs serialized by its advisory lock. */
    method ApplyInput(input: Input) returns (out: Outcome)
      modifies this
      ensures (View(), out) == Apply(old(View()), input)
    {
      if adopted.Some? {
        if input.impl != adopted.value.impl {
          status := Blocked;
          return Outcome(false, false, OtherInstance);
        }
        if EpochLess(input.epoch, adopted.value.epoch) {
          return Outcome(false, false, OlderEpoch);
        }
        if EpochLess(adopted.value.epoch, input.epoch) {
          return Outcome(false, false, NewerEpoch);
        }
      }
      var cur: Option<Seen> := None;
      if input.id in rows {
        var r := rows[input.id];
        if r.state == Tombstone && r.minRead.Some? && 0 < input.at <= r.minRead.value {
          return Outcome(false, false, Taken);
        }
        var stale := r.impl != input.impl || r.epoch != input.epoch;
        cur := Some(Seen(r.state, r.version, if r.need.Some? then r.need.value else 0, stale));
      }
      var (next, action) := Decide(cur, input.kind, input.version);
      if action == Ignore {
        return Outcome(false, false, Taken);
      }
      WriteRow(input, cur, next, action);
      out := Outcome(next.state == Incomplete, true, Taken);
    }

    method WriteRow(input: Input, cur: Option<Seen>, next: Seen, action: Action)
      requires cur == Local(View(), input) && (next, action) == Decide(cur, input.kind, input.version)
      modifies this
      ensures View() == old(View()).(rows := old(rows)[input.id := Written(old(View()), input)])
    {
      var need := if next.state == Incomplete then Some(next.need) else None;
      var marked := if status == Aligning then Some(gen) else None;
      if action == MergeAndFetch {
        var merged := Merge(rows[input.id].data, input.data);
        rows := rows[input.id := Rec(next.state, next.version, need, input.impl, input.epoch, marked, None,
            Some(merged))];
        return;
      }
      var data := if next.state == Complete || (next.state == Incomplete && cur.None?) then Some(input.data) else None;
      rows := rows[input.id := Rec(next.state, next.version, need, input.impl, input.epoch, marked, None, data)];
    }
  }
}
