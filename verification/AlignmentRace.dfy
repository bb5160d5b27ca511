/**
  Each clause of the guard is needed. From every state in which a generation has begun and waits for its
  P0, one delivery the guard excludes is enough, with every other step guarded, to complete an alignment
  with a deletion at or below P0 missing: a row that slips in before P0 is saved, from a page or past the
  P0 an earlier attempt left, or a page's row at or below P0 afterwards. And an alignment that completes
  under another identity leaves a change of that identity missing. In one loop, whose pulls and alignments
  exclude each other, only the leftover P0 remains.
 */
module AlignmentRace {
  import opened Base
  import opened Numbering
  import opened SourceLog
  import opened Receive
  import opened Protocol
  import opened Freshness
  import opened Watermark
  import opened Runs

  /** Aligned, with a change in the contiguous range that the projection does not show. */
  ghost predicate Missing(t: Sys, p: nat, k: nat) {
    && t.con.proj.status == Aligned && Live(t.con) && p < |t.con.parts| == |t.src.parts| && k < |t.src.parts[p].rows|
    && t.src.parts[p].rows[k].body.Change? && t.src.parts[p].rows[k].fate.Committed?
        && Within(t.src.parts[p].rows[k], Reach(t.con, p))
    && !Shows(t.src, t.con.proj.rows, t.src.parts[p].rows[k].body.id, t.src.parts[p].rows[k].body.version)
  }

  /** The partition still shows the P0 of an earlier attempt in the adopted epoch. */
  predicate Leftover(s: Sys, p: nat) {
    && p < |s.con.parts| && p < |s.src.parts| && s.con.parts[p].p0.Some?
    && UnderCounter(s.src.parts[p], Place(s.src.epoch, s.con.parts[p].p0.value))
  }

  /**
    Every retry of an alignment that failed after saving its P0 begins with one left on every partition,
    whether the alignment returned or still runs in another loop.
   */
  lemma RetryLeavesP0(s: Sys, p: nat)
    requires Inv(s.src, s.con, s.readings) && Underway(s.con) && s.con.runs[s.con.proj.gen].since.Some?
    requires s.con.runs[s.con.proj.gen].epoch == s.src.epoch && p < |s.con.parts|
    ensures RetriedLeaves(s, p)
    ensures CanStep(s, Abandon(s.con.proj.gen)) && Orderly(s, Abandon(s.con.proj.gen))
    ensures var returned := Do(s, Abandon(s.con.proj.gen));
            RetriedLeaves(returned, p) && Alone(returned, StartGen(returned.src.epoch, Aligning))
  {
    assert Based(s.src, s.con.runs[s.con.proj.gen], p);
    assert Leftover(s, p);
    RetryLeaves(s, p);
    var returned := Do(s, Abandon(s.con.proj.gen));
    Stands(s, Abandon(s.con.proj.gen));
    assert Leftover(returned, p);
    RetryLeaves(returned, p);
  }

  lemma RetryLeaves(s: Sys, p: nat)
    requires |s.src.parts| > 0 && s.con.proj.adopted.Some? && Leftover(s, p)
    ensures RetriedLeaves(s, p)
  {
    Stands(s, StartGen(s.src.epoch, Aligning));
  }

  ghost predicate RetriedLeaves(s: Sys, p: nat)
    requires |s.src.parts| > 0
  {
    var retry := StartGen(s.src.epoch, Aligning);
    CanStep(s, retry) && Guarded(s, retry) && Begun(Do(s, retry)) && Leftover(Do(s, retry), p)
  }

  // ------------------------------------------------------------------ one loop

  /** The stream writes a row of the running generation before its P0 is saved. */
  ghost predicate PastLeftover(s: Sys, step: Step) {
    var c := s.con;
    && step.Deliver? && !step.page && step.p < |s.src.parts| && step.i < |s.src.parts[step.p].rows|
    && c.proj.status == Aligning && Underway(c) && c.runs[c.proj.gen].since.None?
    && Writes(c, step.p, s.src.parts[step.p].rows[step.i], step.quarantine, false)
  }

  ghost predicate NonePastLeftover(s: Sys, steps: seq<Step>)
    decreases |steps|
  {
    steps == [] ||
    var front, last := steps[..|steps| - 1], steps[|steps| - 1];
    NonePastLeftover(s, front) && (From(s, front).Some? ==> !PastLeftover(From(s, front).value, last))
  }

  /** It is past a P0 that an earlier attempt left. */
  lemma PastLeftoverIs(s: Sys, step: Step)
    requires PastLeftover(s, step)
    ensures s.con.parts[step.p].p0.Some?
        && s.src.parts[step.p].rows[step.i].place.value.n > s.con.parts[step.p].p0.value
  {
  }

  /** The current generation's alignment is of the adopted identity. */
  predicate Mine(c: Consumer) { c.proj.gen in c.runs ==> Underway(c) }

  lemma AloneKeepsMine(s: Sys, step: Step)
    requires |s.src.parts| > 0 && Mine(s.con) && CanStep(s, step) && Alone(s, step)
    ensures Mine(Do(s, step).con)
  {
  }

  lemma AloneGuardedExactly(s: Sys, step: Step)
    requires Inv(s.src, s.con, s.readings) && Mine(s.con) && CanStep(s, step) && Alone(s, step)
    ensures Guarded(s, step) <==> !PastLeftover(s, step)
  {
    if step.Deliver? && Underway(s.con) && s.con.runs[s.con.proj.gen].since.Some? {
      assert RunOk(s.src, s.con, s.con.runs[s.con.proj.gen], s.con.proj.gen);
    }
  }

  /**
    In every run of one loop, whose pulls and alignments exclude each other, the steps are guarded if and only
    if the stream never writes past a P0 that an earlier attempt left: the other races take a second loop.
   */
  lemma {:induction false} OneLoopGuardsExactly(start: Sys, run: seq<Step>)
    requires Installed(start) && From(start, run).Some? && AllAlone(start, run)
    ensures Mine(From(start, run).value.con) && (AllGuarded(start, run) <==> NonePastLeftover(start, run))
    decreases |run|
  {
    if run != [] {
      var n := |run| - 1;
      GuardedLast(start, run);
      OneLoopGuardsExactly(start, run[..n]);
      OneLoopStep(start, run[..n], run[n]);
    }
  }

  lemma OneLoopStep(start: Sys, front: seq<Step>, step: Step)
    requires Installed(start) && From(start, front).Some? && CanStep(From(start, front).value, step)
    requires Mine(From(start, front).value.con) && Alone(From(start, front).value, step)
    ensures var s := From(start, front).value;
            Mine(Do(s, step).con) && (AllGuarded(start, front) ==> (Guarded(s, step) <==> !PastLeftover(s, step)))
  {
    var s := From(start, front).value;
    AloneKeepsMine(s, step);
    if AllGuarded(start, front) {
      EveryGuardedRun(start, front);
      AloneGuardedExactly(s, step);
    }
  }

  lemma GuardedLast(start: Sys, run: seq<Step>)
    requires run != [] && From(start, run).Some?
    ensures var front, last := run[..|run| - 1], run[|run| - 1];
            AllGuarded(start, run) <==> AllGuarded(start, front) && Guarded(From(start, front).value, last)
  {
    var n := |run| - 1;
    if AllGuarded(start, run[..n]) && Guarded(From(start, run[..n]).value, run[n]) {
      forall k | 0 <= k < |run| && From(start, run[..k]).Some? ensures Guarded(From(start, run[..k]).value, run[k]) {
        assert k < n ==> run[..n][..k] == run[..k];
      }
    } else if AllGuarded(start, run) {
      GuardedBefore(start, run, n);
    }
  }

  // ------------------------------------------------------------------ one record's life

  /** What the partition says of the record is committed, with versions below the given one. */
  ghost predicate Only(rows: seq<Row>, id: nat, below: int) {
    forall i :: 0 <= i < |rows| && rows[i].body.Change? && rows[i].body.id == id ==>
        rows[i].fate.Committed? && rows[i].body.version < below
  }

  lemma PublishRecord(s: Sys, steps: seq<Step>, t: Sys, bad: set<Step>, p: nat, id: nat, v: nat, kind: Kind)
    returns (more: seq<Step>, u: Sys)
    requires Path(s, steps, t, bad) && p < |t.src.parts| && Home(t.src, id) == p && id !in t.src.purged && v >= 1
        && Only(t.src.parts[p].rows, id, v)
    ensures Path(s, more, u, bad) && u.con == t.con && p < |u.src.parts| && Changed(t.src, u.src, p, u.src.parts[p])
    ensures Grown(t.src.parts[p], u.src.parts[p], Change(id, v, kind), t.src.epoch)
        && Only(u.src.parts[p].rows, id, v + 1)
  {
    more, u := Publish(s, steps, t, bad, p, Change(id, v, kind));
    OnlyGrown(t.src.parts[p], u.src.parts[p], id, v, kind, t.src.epoch);
  }

  lemma OnlyGrown(p: Part, q: Part, id: nat, v: nat, kind: Kind, e: Epoch)
    requires Only(p.rows, id, v) && Grown(p, q, Change(id, v, kind), e)
    ensures Only(q.rows, id, v + 1)
  {
    forall i | 0 <= i < |q.rows| && q.rows[i].body.Change? && q.rows[i].body.id == id
      ensures q.rows[i].fate.Committed? && q.rows[i].body.version < v + 1
    {
      if i < |p.rows| {
        assert q.rows[i].(place := None) == p.rows[i].(place := None);
      }
    }
  }

  /** Row k of partition p, numbered, deletes the record, and only echoes follow it. */
  ghost predicate Deletes(src: Source, p: nat, k: nat, id: nat) {
    && p < |src.parts| && Home(src, id) == p && id !in src.purged && k < |src.parts[p].rows|
    && src.parts[p].rows[k].body == Change(id, 2, Delete) && src.parts[p].rows[k].fate.Committed?
    && src.parts[p].rows[k].place.Some? && src.parts[p].rows[k].place.value.epoch == src.epoch
    && forall i :: k < i < |src.parts[p].rows| ==> src.parts[p].rows[i].body.Echo?
  }

  lemma DeletesOn(a: Source, b: Source, p: nat, k: nat, id: nat)
    requires Deletes(a, p, k, id) && SameRecords(a, b)
    ensures Deletes(b, p, k, id)
  {
    assert Same(a.parts[p], b.parts[p]);
    forall i | k < i < |b.parts[p].rows| ensures b.parts[p].rows[i].body.Echo? {
      assert i < |a.parts[p].rows| ==> b.parts[p].rows[i].(place := None) == a.parts[p].rows[i].(place := None);
    }
    assert b.parts[p].rows[k].(place := None) == a.parts[p].rows[k].(place := None);
  }

  lemma DeletedReadsGone(src: Source, p: nat, k: nat, id: nat)
    requires SourceOk(src) && Deletes(src, p, k, id)
    ensures Read(src, id, src.now).Gone?
  {
    var rows := src.parts[p].rows;
    assert PartOk(src.parts[p], src.now);
    LastIsLatest(rows, |rows|, id, src.now, k);
  }

  // ------------------------------------------------------------------ the row that slips in

  /** The record's first row was written while the generation aligned, and is marked as its own. */
  predicate Slipped(con: Consumer, id: nat) {
    && id in con.proj.rows && con.proj.rows[id].state == Complete && con.proj.rows[id].version == 1
    && con.proj.rows[id].gen == Some(con.proj.gen)
  }

  lemma FirstRowIn(con: Consumer, p: nat, r: Row, id: nat, page: bool)
    requires p < |con.parts| && r.body == Change(id, 1, Full) && r.place.Some? && id !in con.proj.rows
        && Admitted(con, r)
    requires con.proj.status == Aligning && con.proj.adopted.value.impl == IMPL
    requires page || (con.parts[p].p0.Some? && r.place.value.n > con.parts[p].p0.value)
    ensures var next := Handle(con, p, r, false, page);
            next == con.(proj := con.proj.(rows := next.proj.rows)) && Slipped(next, id)
  {
  }

  lemma SlipIn(s: Sys, steps: seq<Step>, t: Sys, p: nat, k: nat, id: nat, page: bool) returns (more: seq<Step>, u: Sys)
    requires var bad := Deliver(p, k, false, page);
             && Path(s, steps, t, {bad}) && p < |t.src.parts| && k < |t.src.parts[p].rows|
                 && t.src.parts[p].rows[k].body == Change(id, 1, Full)
             && t.src.parts[p].rows[k].place.Some? && t.src.parts[p].rows[k].place.value.epoch == t.src.epoch
                 && id !in t.con.proj.rows
             && t.con.proj.status == Aligning && t.con.proj.adopted == Some(Identity(IMPL, t.src.epoch))
             && (page || (t.con.parts[p].p0.Some? && t.src.parts[p].rows[k].place.value.n > t.con.parts[p].p0.value))
    ensures Path(s, more, u, {Deliver(p, k, false, page)}) && u.src == t.src.(now := t.src.now + 1)
    ensures u.con == t.con.(proj := t.con.proj.(rows := u.con.proj.rows)) && Slipped(u.con, id)
  {
    FirstRowIn(t.con, p, t.src.parts[p].rows[k], id, page);
    more, u := Consuming(s, steps, t, {Deliver(p, k, false, page)}, Deliver(p, k, false, page));
  }

  lemma DeletionMissing(u: Sys, v: Sys, t: Sys, p: nat, k: nat, id: nat)
    requires Deletes(u.src, p, k, id) && Slipped(u.con, id) && Fetching(u, Counters(u.src), {id}) && SourceOk(u.src)
    requires Swept(u, v, Counters(u.src), {id}) && CompletedAt(v, t, Counters(u.src))
        && t.src == v.src.(now := t.src.now)
    ensures Missing(t, p, k) && t.src.parts[p].rows[k].body.kind == Delete
  {
    assert PartOk(u.src.parts[p], u.src.now);
    assert t.con.parts[p] == PartState(Some(u.src.parts[p].last), None, None);
    assert id in v.con.proj.rows && v.con.proj.rows[id] == u.con.proj.rows[id];
  }

  /** From the saved P0 to a completed alignment that misses the deletion. */
  lemma FinishWithout(s: Sys, steps: seq<Step>, u: Sys, bad: set<Step>, p: nat, k: nat, id: nat)
      returns (more: seq<Step>, t: Sys)
    requires Path(s, steps, u, bad) && Fetching(u, Counters(u.src), {id}) && Slipped(u.con, id)
        && Deletes(u.src, p, k, id)
    ensures Path(s, more, t, bad) && Missing(t, p, k) && t.src.parts[p].rows[k].body.kind == Delete
  {
    DeletedReadsGone(u.src, p, k, id);
    var v;
    more, v := Sweep(s, steps, u, bad, Counters(u.src), {id});
    more, t := CompleteRun(s, more, v, bad, Counters(u.src));
    DeletionMissing(u, v, t, p, k, id);
  }

  lemma UnheardOnly(s: Sys, p: nat, id: nat)
    requires Unheard(s, p, id)
    ensures Only(s.src.parts[p].rows, id, 1)
  {
  }

  /** A record nobody has heard of is published. */
  lemma FirstPublished(s: Sys, bad: set<Step>, p: nat, id: nat) returns (steps: seq<Step>, t: Sys)
    requires Tabled(s) && Unheard(s, p, id)
    ensures Path(s, steps, t, bad) && t.con == s.con && t.src.epoch == s.src.epoch
    ensures p < |t.src.parts| && Home(t.src, id) == p && id !in t.src.purged && Only(t.src.parts[p].rows, id, 2)
    ensures Grown(s.src.parts[p], t.src.parts[p], Change(id, 1, Full), s.src.epoch)
  {
    UnheardOnly(s, p, id);
    NoPath(s, bad);
    steps, t := PublishRecord(s, [], s, bad, p, id, 1, Full);
  }

  /** The record is published and its row slips in. */
  lemma Opening(s: Sys, p: nat, id: nat, page: bool) returns (steps: seq<Step>, t: Sys)
    requires Tabled(s) && Begun(s) && Unheard(s, p, id) && (page || Leftover(s, p))
    ensures Path(s, steps, t, {Deliver(p, |s.src.parts[p].rows|, false, page)}) && Begun(t) && Slipped(t.con, id)
    ensures p < |t.src.parts| && Home(t.src, id) == p && id !in t.src.purged && Only(t.src.parts[p].rows, id, 2)
    ensures |t.src.parts[p].rows| == |s.src.parts[p].rows| + 1 && t.con.parts == s.con.parts
  {
    var bad := {Deliver(p, |s.src.parts[p].rows|, false, page)};
    assert Current(s.src.parts[p], s.src.epoch);
    var u;
    steps, u := FirstPublished(s, bad, p, id);
    steps, t := SlipIn(s, steps, u, p, |s.src.parts[p].rows|, id, page);
  }

  /** The record is deleted, and the generation's P0 saved above the deletion. */
  lemma Deleting(s: Sys, steps: seq<Step>, t: Sys, bad: set<Step>, p: nat, id: nat, kept: set<nat>)
      returns (more: seq<Step>, u: Sys)
    requires Path(s, steps, t, bad) && Begun(t) && p < |t.src.parts| && Home(t.src, id) == p && id !in t.src.purged
        && Only(t.src.parts[p].rows, id, 2)
    requires forall x :: x in kept ==> x in t.con.proj.rows && t.con.proj.rows[x].gen == Some(t.con.proj.gen)
    ensures Path(s, more, u, bad) && Fetching(u, Counters(u.src), kept) && u.con.proj == t.con.proj
    ensures Deletes(u.src, p, |t.src.parts[p].rows|, id) && u.src.epoch == t.src.epoch
    ensures forall i :: 0 <= i < |t.src.parts[p].rows| && t.src.parts[p].rows[i].place.Some? ==>
        u.src.parts[p].rows[i] == t.src.parts[p].rows[i]
  {
    var k, v := |t.src.parts[p].rows|, t;
    more, v := PublishRecord(s, steps, t, bad, p, id, 2, Delete);
    assert Deletes(v.src, p, k, id);
    more, u := SaveCounters(s, more, v, bad, kept);
    DeletesOn(v.src, u.src, p, k, id);
    assert Same(v.src.parts[p], u.src.parts[p]);
    forall i | 0 <= i < k && t.src.parts[p].rows[i].place.Some?
        ensures u.src.parts[p].rows[i] == t.src.parts[p].rows[i] {
      assert u.src.parts[p].rows[i].(place := None) == v.src.parts[p].rows[i].(place := None)
          == t.src.parts[p].rows[i].(place := None);
    }
  }

  /**
    A row that slips in early: from every state in which a generation waits for its P0, one new record's
    row, from a page or past a leftover P0, leads to an alignment that misses the record's deletion.
   */
  lemma EarlyRowLosesADeletion(s: Sys, p: nat, page: bool) returns (steps: seq<Step>, t: Sys, j: nat, k: nat)
    requires Tabled(s) && Begun(s) && p < |s.src.parts| && (page || Leftover(s, p))
    ensures Path(s, steps, t, {Deliver(p, j, false, page)}) && Missing(t, p, k)
        && t.src.parts[p].rows[k].body.kind == Delete
  {
    var id := SomeoneUnheard(s, p);
    j := |s.src.parts[p].rows|;
    steps, t := Opening(s, p, id, page);
    k := |t.src.parts[p].rows|;
    steps, t := Deleting(s, steps, t, {Deliver(p, j, false, page)}, p, id, {id});
    steps, t := FinishWithout(s, steps, t, {Deliver(p, j, false, page)}, p, k, id);
  }

  /** The page's row, at or below P0, slips in after it was saved. */
  lemma SlipLate(s: Sys, steps: seq<Step>, u: Sys, p: nat, j: nat, k: nat, id: nat) returns (more: seq<Step>, t: Sys)
    requires Path(s, steps, u, {Deliver(p, j, false, true)}) && Fetching(u, Counters(u.src), {})
        && Deletes(u.src, p, k, id)
    requires j < k && u.src.parts[p].rows[j].body == Change(id, 1, Full) && u.src.parts[p].rows[j].place.Some?
    requires u.src.parts[p].rows[j].place.value.epoch == u.src.epoch && id !in u.con.proj.rows
    ensures Path(s, more, t, {Deliver(p, j, false, true)}) && Fetching(t, Counters(t.src), {id}) && Slipped(t.con, id)
        && Deletes(t.src, p, k, id)
  {
    more, t := SlipIn(s, steps, u, p, j, id, true);
    StillFetching(u, t, id);
    DeletesStill(u.src, t.src, p, k, id);
  }

  lemma StillFetching(u: Sys, t: Sys, id: nat)
    requires Fetching(u, Counters(u.src), {}) && t.src == u.src.(now := u.src.now + 1)
    requires t.con == u.con.(proj := u.con.proj.(rows := t.con.proj.rows)) && Slipped(t.con, id)
    ensures Fetching(t, Counters(t.src), {id})
  {
    assert Counters(t.src) == Counters(u.src);
  }

  lemma DeletesStill(a: Source, b: Source, p: nat, k: nat, id: nat)
    requires Deletes(a, p, k, id) && b == a.(now := b.now)
    ensures Deletes(b, p, k, id)
  {
  }

  /** The record is published and deleted before the P0 is saved. */
  lemma BothBelowP0(s: Sys, p: nat, id: nat) returns (steps: seq<Step>, u: Sys)
    requires Tabled(s) && Begun(s) && Unheard(s, p, id)
    ensures Path(s, steps, u, {Deliver(p, |s.src.parts[p].rows|, false, true)})
    ensures Fetching(u, Counters(u.src), {}) && id !in u.con.proj.rows
    ensures var j := |s.src.parts[p].rows|;
            && Deletes(u.src, p, j + 1, id) && u.src.parts[p].rows[j].body == Change(id, 1, Full)
            && u.src.parts[p].rows[j].place.Some? && u.src.parts[p].rows[j].place.value.epoch == u.src.epoch
  {
    var bad := {Deliver(p, |s.src.parts[p].rows|, false, true)};
    var j, t := |s.src.parts[p].rows|, s;
    steps, t := FirstPublished(s, bad, p, id);
    assert |t.src.parts[p].rows| == j + 1 && t.src.parts[p].rows[j].place.Some?;
    steps, u := Deleting(s, steps, t, bad, p, id, {});
    assert u.src.parts[p].rows[j] == t.src.parts[p].rows[j];
  }

  /**
    A page's row at or below P0: from every state in which a generation waits for its P0, there is a run
    whose only unguarded step applies such a row after P0 was saved, and that misses a deletion.
   */
  lemma LatePageLosesADeletion(s: Sys, p: nat) returns (steps: seq<Step>, t: Sys, j: nat, k: nat)
    requires Tabled(s) && Begun(s) && p < |s.src.parts|
    ensures Path(s, steps, t, {Deliver(p, j, false, true)}) && Missing(t, p, k)
        && t.src.parts[p].rows[k].body.kind == Delete
  {
    var id := SomeoneUnheard(s, p);
    j := |s.src.parts[p].rows|;
    k := j + 1;
    steps, t := BothBelowP0(s, p, id);
    steps, t := SlipLate(s, steps, t, p, j, k, id);
    steps, t := FinishWithout(s, steps, t, {Deliver(p, j, false, true)}, p, k, id);
  }

  // ------------------------------------------------------------------ another identity

  /** What the rows say of the record says all of it. */
  predicate AllFull(rows: seq<Row>, id: nat) {
    forall i :: 0 <= i < |rows| && rows[i].body.Change? && rows[i].body.id == id ==> rows[i].body.kind == Full
  }

  function NextEpoch(e: Epoch): Epoch { Epoch(e.generation + 1, 0) }

  lemma Adopting(s: Sys, steps: seq<Step>, u: Sys, bad: set<Step>) returns (more: seq<Step>, t: Sys)
    requires Path(s, steps, u, bad) && u.con.proj.adopted == Some(Identity(IMPL, u.src.epoch))
        && Adopt(NextEpoch(u.src.epoch)) in bad
    ensures Path(s, more, t, bad) && t.con.runs == u.con.runs && |t.con.parts| == |u.con.parts|
    ensures t.con.proj == u.con.proj.(adopted := Some(Identity(IMPL, NextEpoch(u.src.epoch))))
    ensures t.src.parts == u.src.parts && t.src.epoch == NextEpoch(u.src.epoch)
  {
    var e := NextEpoch(u.src.epoch);
    more, t := Moving(s, steps, u, bad, Advance(e));
    assert t.src.parts == u.src.parts;
    more, t := Consuming(s, more, t, bad, Adopt(e));
  }

  /** The source enters a new epoch, another loop adopts it, and a record is published there at its first position. */
  lemma MovesOn(s: Sys, steps: seq<Step>, u: Sys, bad: set<Step>, p: nat) returns (more: seq<Step>, t: Sys, id: nat)
    requires Path(s, steps, u, bad) && p < |u.src.parts| && Echoed(u.src.parts[p], u.src.epoch)
    requires u.con.proj.adopted == Some(Identity(IMPL, u.src.epoch)) && Adopt(NextEpoch(u.src.epoch)) in bad
    ensures Path(s, more, t, bad) && t.con.runs == u.con.runs && |t.con.parts| == |u.con.parts|
    ensures t.con.proj == u.con.proj.(adopted := Some(Identity(IMPL, NextEpoch(u.src.epoch))))
    ensures id !in t.con.proj.rows && p < |t.src.parts| && Only(t.src.parts[p].rows, id, 2) && Home(t.src, id) == p
    ensures var k := |u.src.parts[p].rows|;
            && |t.src.parts[p].rows| == k + 1 && t.src.parts[p].rows[k].body == Change(id, 1, Full)
                && t.src.parts[p].rows[k].fate.Committed?
            && t.src.parts[p].rows[k].place == Some(Place(NextEpoch(u.src.epoch), 1))
    ensures AllFull(t.src.parts[p].rows, id)
  {
    var v;
    more, v := Adopting(s, steps, u, bad);
    id := SomeoneUnheard(v, p);
    more, t := PublishRecord(s, more, v, bad, p, id, 1, Full);
    SameBodies(v.src.parts[p], t.src.parts[p], Change(id, 1, Full), v.src.epoch);
  }

  lemma SameBodies(a: Part, b: Part, body: Body, e: Epoch)
    requires Grown(a, b, body, e)
    ensures forall i :: 0 <= i < |a.rows| ==> b.rows[i].body == a.rows[i].body
  {
    forall i | 0 <= i < |a.rows| ensures b.rows[i].body == a.rows[i].body {
      assert b.rows[i].(place := None) == a.rows[i].(place := None);
    }
  }

  /**
    Completion under another identity: from every state in which a generation waits for its P0, there is
    a run in which another loop adopts the next epoch meanwhile, whose only unguarded step completes the
    generation, and that misses a change.
   */
  lemma OtherIdentityLosesAChange(s: Sys, p: nat) returns (steps: seq<Step>, t: Sys, k: nat)
    requires Tabled(s) && Begun(s) && p < |s.src.parts|
    ensures Path(s, steps, t, {Finish(s.con.proj.gen, Aligned), Adopt(NextEpoch(s.src.epoch))}) && Missing(t, p, k)
  {
    var bad := {Finish(s.con.proj.gen, Aligned), Adopt(NextEpoch(s.src.epoch))};
    NoPath(s, bad);
    var u, v, w, id;
    steps, u := SaveCounters(s, [], s, bad, {});
    steps, v := Sweep(s, steps, u, bad, Counters(u.src), {});
    k := |v.src.parts[p].rows|;
    steps, w, id := MovesOn(s, steps, v, bad, p);
    steps, t := CompleteRun(s, steps, w, bad, Counters(u.src));
    assert Counters(u.src)[p] >= 1;
    ChangeMissing(w, t, Counters(u.src), p, k, id);
  }

  lemma ChangeMissing(w: Sys, t: Sys, p0: seq<nat>, p: nat, k: nat, id: nat)
    requires CompletedAt(w, t, p0) && t.src == w.src.(now := t.src.now) && p < |p0| && p0[p] >= 1
        && k < |w.src.parts[p].rows|
    requires id !in w.con.proj.rows && Home(w.src, id) == p && w.con.proj.adopted.Some?
    requires w.src.parts[p].rows[k].body == Change(id, 1, Full) && w.src.parts[p].rows[k].fate.Committed?
    requires w.src.parts[p].rows[k].place == Some(Place(w.con.proj.adopted.value.epoch, 1))
    requires AllFull(w.src.parts[p].rows, id)
    ensures Missing(t, p, k)
  {
    assert t.con.parts[p] == PartState(Some(p0[p]), None, None);
  }

  /** Row i of partition p is of the adopted epoch, and committed before the pull of the partition's mark. */
  predicate Marked(s: Sys, p: nat, i: nat) {
    && p < |s.src.parts| && p < |s.con.parts| && s.con.parts[p].mark.Some? && s.con.proj.adopted.Some?
    && i < |s.src.parts[p].rows| && s.src.parts[p].rows[i].place.Some?
    && s.src.parts[p].rows[i].place.value.epoch == s.con.proj.adopted.value.epoch
    && s.src.parts[p].rows[i].fate.Committed? && s.src.parts[p].rows[i].fate.at < s.con.parts[p].mark.value.at
  }

  /** The mark still stands, and a row committed before its pull is not within the contiguous range. */
  predicate Outdated(s: Sys, t: Sys, p: nat, i: nat)
    requires Marked(s, p, i)
  {
    && Live(t.con) && p < |t.con.parts| && p < |t.src.parts| && i < |t.src.parts[p].rows|
    && t.con.parts[p].mark == s.con.parts[p].mark && t.con.proj.status != Aligned
    && t.src.parts[p].rows[i] == s.src.parts[p].rows[i] && !Within(t.src.parts[p].rows[i], Reach(t.con, p))
  }

  /**
    Why marks are claims of an aligned source only: a generation started for an earlier identity leaves the
    positions and marks as they are, and no row of the later epoch is then within the contiguous range, those
    committed before the marked pull included.
   */
  lemma EarlierIdentityOutdatesTheMark(s: Sys, e: Epoch, status: Status, p: nat, i: nat)
    requires |s.src.parts| > 0 && CanStep(s, StartGen(e, status)) && Live(s.con) && Marked(s, p, i)
    requires EpochLess(e, s.con.proj.adopted.value.epoch)
    ensures Outdated(s, Do(s, StartGen(e, status)), p, i)
  {
    Stands(s, StartGen(e, status));
  }
}
