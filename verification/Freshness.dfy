/**
  What every guarded run of the watermark protocol keeps, and what a consumer may conclude from its
  watermark: everything the source committed before a recorded pull is in the projection.
 */
module Freshness {
  import opened Base
  import opened Numbering
  import opened SourceLog
  import opened Receive
  import opened Protocol

  /** The projection is not behind version v of a record: a row at v or above, a purged record's tombstone, or no row of
      a deleted one. */
  ghost predicate Shows(src: Source, rows: map<nat, Rec>, id: nat, v: int)
    requires |src.parts| > 0
  {
    if id in rows then Shown(src, rows[id], id, v) else Deleted(src, id, v)
  }

  predicate Shown(src: Source, rec: Rec, id: nat, v: int) {
    rec.version >= v || (rec.state == Tombstone && id in src.purged)
  }

  /** A stored row says what the source once committed: a tombstone exactly for a deletion, or a purged record. */
  ghost predicate Sourced(src: Source, id: nat, rec: Rec)
    requires |src.parts| > 0
  {
    || (rec.version == 0 && rec.state == Tombstone && id in src.purged)
    || exists i: nat :: SaysSo(src, id, rec, i)
  }

  predicate SaysSo(src: Source, id: nat, rec: Rec, i: nat)
    requires |src.parts| > 0
  {
    var rows := src.parts[Home(src, id)].rows;
    && i < |rows| && Changes(rows[i], id) && rows[i].fate.Committed? && rows[i].body.version == rec.version
    && (rows[i].body.kind == Delete <==> rec.state == Tombstone)
  }

  ghost predicate TableOk(src: Source, rows: map<nat, Rec>, gen: nat)
    requires |src.parts| > 0
  {
    forall id :: id in rows ==> RecOk(src, gen, id, rows[id])
  }

  ghost predicate RecOk(src: Source, gen: nat, id: nat, rec: Rec)
    requires |src.parts| > 0
  {
    && WellKept(rec) && Truthful(id, rec) && rec.impl == IMPL && Sourced(src, id, rec)
    && (rec.gen.Some? ==> rec.gen.value <= gen)
  }

  predicate Live(con: Consumer) {
    con.proj.adopted.Some? && forall p :: 0 <= p < |con.parts| ==> con.parts[p].pos.Some? && con.parts[p].p0.None?
  }

  predicate Quiet(con: Consumer) {
    forall p :: 0 <= p < |con.parts| ==> con.parts[p].pos.None? && con.parts[p].mark.None?
  }

  ghost predicate Shape(src: Source, con: Consumer) {
    && |con.parts| == |src.parts| > 0
    && (con.proj.adopted.Some? ==>
        con.proj.adopted.value.impl == IMPL && !EpochLess(src.epoch, con.proj.adopted.value.epoch))
    && (Live(con) || Quiet(con))
    && (forall g :: g in con.runs ==> g <= con.proj.gen)
    && (con.proj.gen in con.runs ==> RunShape(con, con.runs[con.proj.gen]))
  }

  /** The current generation began for the adopted identity or an earlier one; with its P0 saved, no position is set. */
  predicate RunShape(con: Consumer, run: Run) {
    && con.proj.adopted.Some? && !EpochLess(con.proj.adopted.value.epoch, run.epoch)
    && (run.since.Some? ==> Quiet(con) && |run.p0| == |con.parts|) && (run.emptied ==> run.since.Some?)
  }

  /** Pulls were recorded before any echo of theirs was written. */
  ghost predicate PullsOk(src: Source, pulls: map<nat, Mark>, readings: seq<int>) {
    && (forall n :: n in pulls ==>
        pulls[n].at <= src.now && pulls[n].at < |readings| && readings[pulls[n].at] == pulls[n].mp)
    && (forall p, i :: 0 <= p < |src.parts| && 0 <= i < |src.parts[p].rows| ==> EchoLater(pulls, src.parts[p].rows[i]))
  }

  predicate EchoLater(pulls: map<nat, Mark>, r: Row) {
    r.body.Echo? && r.body.nonce in pulls ==> r.born >= pulls[r.body.nonce].at
  }

  /** The place up to which the consumer claims partition p. */
  function Reach(con: Consumer, p: nat): Place
    requires p < |con.parts| && Live(con)
  {
    Place(con.proj.adopted.value.epoch, con.parts[p].pos.value)
  }

  predicate Within(r: Row, to: Place) {
    r.place.Some? && AtMost(r.place.value, to)
  }

  predicate UnderCounter(p: Part, at: Place) {
    p.epoch.Some? && AtMost(at, Place(p.epoch.value, p.last))
  }

  /** Every change up to the contiguous position is in the projection, or quarantined. */
  ghost predicate Claim(src: Source, con: Consumer, p: nat)
    requires |src.parts| == |con.parts| > 0 && p < |con.parts| && Live(con)
  {
    forall i :: 0 <= i < |src.parts[p].rows| ==>
      var r := src.parts[p].rows[i];
      r.body.Change? && Within(r, Reach(con, p)) ==>
          (p, r.place.value) in con.quarantined || Shows(src, con.proj.rows, r.body.id, r.body.version)
  }

  ghost predicate LiveOk(src: Source, con: Consumer)
    requires |src.parts| == |con.parts| > 0 && Live(con)
  {
    && (forall p :: 0 <= p < |con.parts| ==> UnderCounter(src.parts[p], Reach(con, p)) && Claim(src, con, p))
    && (forall id :: id in con.proj.rows ==> RecLive(src, con, id, con.proj.rows[id]))
  }

  predicate RecLive(src: Source, con: Consumer, id: nat, rec: Rec)
    requires |src.parts| == |con.parts| > 0 && Live(con)
  {
    rec.epoch == con.proj.adopted.value.epoch && (rec.minRead.Some? ==>
        rec.minRead.value <= con.parts[Home(src, id)].pos.value)
  }

  /** A mark is the m_p of a recorded pull whose echo lies within the contiguous range. */
  ghost predicate MarksOk(src: Source, con: Consumer, readings: seq<int>)
    requires |src.parts| == |con.parts|
  {
    forall p :: 0 <= p < |con.parts| && con.parts[p].mark.Some? ==>
        Live(con) && MarkOk(src, con, readings, p, con.parts[p].mark.value)
  }

  ghost predicate MarkOk(src: Source, con: Consumer, readings: seq<int>, p: nat, m: Mark)
    requires |src.parts| == |con.parts| && p < |con.parts| && Live(con)
  {
    && m.at < |readings| && readings[m.at] == m.mp
    && exists x: nat :: Backs(src.parts[p].rows, x, m, Reach(con, p))
  }

  predicate Backs(rows: seq<Row>, x: nat, m: Mark, to: Place) {
    x < |rows| && Within(rows[x], to) && rows[x].born >= m.at
  }

  // ------------------------------------------------------------------ alignment

  ghost predicate Based(src: Source, run: Run, p: nat)
    requires p < |src.parts| && |run.p0| == |src.parts| && run.since.Some?
  {
    && UnderCounter(src.parts[p], Place(run.epoch, run.p0[p]))
    && forall i :: 0 <= i < |src.parts[p].rows| && Within(src.parts[p].rows[i], Place(run.epoch, run.p0[p])) ==>
         src.parts[p].rows[i].fate.Committed? && src.parts[p].rows[i].fate.at < run.since.value
  }

  /** A row of this generation is not behind any change at or below its partition's P0. */
  ghost predicate RowAligned(src: Source, run: Run, id: nat, rec: Rec)
    requires |run.p0| == |src.parts| > 0
  {
    var h := Home(src, id);
    && rec.epoch == run.epoch && (rec.minRead.Some? ==> rec.minRead.value == run.p0[h])
    && forall i :: 0 <= i < |src.parts[h].rows| ==>
         var r := src.parts[h].rows[i];
         r.body.Change? && r.body.id == id && Within(r, Place(run.epoch, run.p0[h])) ==>
             Shown(src, rec, id, r.body.version)
  }

  /** A record the snapshot passed over was deleted past every change at or below P0. */
  ghost predicate AbsentAligned(src: Source, run: Run, id: nat)
    requires |run.p0| == |src.parts| > 0
  {
    var h := Home(src, id);
    forall i :: 0 <= i < |src.parts[h].rows| ==>
      var r := src.parts[h].rows[i];
      r.body.Change? && r.body.id == id && Within(r, Place(run.epoch, run.p0[h])) ==> Deleted(src, id, r.body.version)
  }

  ghost predicate RunOk(src: Source, con: Consumer, run: Run, g: nat)
    requires |src.parts| == |con.parts| > 0 && run.since.Some?
  {
    && Quiet(con) && |run.p0| == |src.parts| && run.since.value <= src.now
    && (forall p :: 0 <= p < |src.parts| ==> Based(src, run, p))
    && (forall p :: 0 <= p < |con.parts| ==> con.parts[p].p0 == Some(run.p0[p]))
    && (forall id :: id in con.proj.rows && con.proj.rows[id].gen == Some(g) ==>
        RowAligned(src, run, id, con.proj.rows[id]))
    && (forall id :: id in run.covered && id !in con.proj.rows ==> AbsentAligned(src, run, id))
    && (run.emptied ==>
          && (forall id :: id in con.proj.rows ==> con.proj.rows[id].gen == Some(g))
          && (forall p, i :: 0 <= p < |src.parts| && 0 <= i < |src.parts[p].rows| ==>
              SpannedBy(run, src.parts[p].rows[i])))
  }

  predicate SpannedBy(run: Run, r: Row)
    requires run.since.Some?
  {
    r.body.Change? && r.fate.Committed? && r.fate.at < run.since.value ==> r.body.id in run.covered
  }

  /** The run of the current generation: before its P0 it has marked no row; after, it is sound. */
  ghost predicate CurrentRunOk(src: Source, con: Consumer)
    requires |src.parts| == |con.parts| > 0
  {
    var g := con.proj.gen;
    Underway(con) ==>
      if con.runs[g].since.None? then
        !con.runs[g].emptied && con.runs[g].covered == {} && forall id :: id in con.proj.rows ==>
            con.proj.rows[id].gen != Some(g)
      else RunOk(src, con, con.runs[g], g)
  }

  /** What an aligned consumer claims by its positions and marks. */
  ghost predicate Claims(src: Source, con: Consumer, readings: seq<int>)
    requires |src.parts| == |con.parts| > 0
  {
    con.proj.status == Aligned ==> (Live(con) ==> LiveOk(src, con)) && MarksOk(src, con, readings)
  }

  ghost predicate Inv(src: Source, con: Consumer, readings: seq<int>) {
    && SourceOk(src) && Shape(src, con) && PullsOk(src, con.pulls, readings)
        && TableOk(src, con.proj.rows, con.proj.gen)
    && Claims(src, con, readings) && CurrentRunOk(src, con)
  }

  /** A row the source once wrote is answered by a by-ID read. */
  lemma ReadAnswers(src: Source, id: nat, rec: Rec)
    requires SourceOk(src) && Sourced(src, id, rec)
    ensures Read(src, id, src.now) != NotThere
  {
    if !(id in src.purged) {
      var i: nat :| SaysSo(src, id, rec, i);
      var h := Home(src, id);
      assert PartOk(src.parts[h], src.now);
      LastIsLatest(src.parts[h].rows, |src.parts[h].rows|, id, src.now, i);
    }
  }

  // ------------------------------------------------------------------ the source moves on

  lemma ReachStable(src: Source, t: Source, p: nat, i: nat, to: Place)
    requires Grows(src, t) && p < |src.parts| && UnderCounter(src.parts[p], to)
    requires i < |t.parts[p].rows| && Within(t.parts[p].rows[i], to)
    ensures i < |src.parts[p].rows| && src.parts[p].rows[i].place == t.parts[p].rows[i].place
    ensures src.parts[p].rows[i].body == t.parts[p].rows[i].body && src.parts[p].rows[i].born == t.parts[p].rows[i].born
    ensures src.parts[p].rows[i].fate.Committed? ==> t.parts[p].rows[i].fate == src.parts[p].rows[i].fate
  {
    assert PartGrows(src.parts[p], t.parts[p], src.now);
    assert i < |src.parts[p].rows|;
    assert RowGrows(src.parts[p], src.parts[p].rows[i], t.parts[p].rows[i], src.now);
  }

  lemma ShowsStable(src: Source, t: Source, rows: map<nat, Rec>, id: nat, v: int)
    requires Grows(src, t) && Shows(src, rows, id, v)
    ensures Shows(t, rows, id, v)
  {
    if id !in rows {
      DeletedStays(src, t, id, v);
    }
  }

  lemma SourcedGrows(src: Source, t: Source, id: nat, rec: Rec)
    requires Grows(src, t) && Sourced(src, id, rec)
    ensures Sourced(t, id, rec)
  {
    if exists i: nat :: SaysSo(src, id, rec, i) {
      var i: nat :| SaysSo(src, id, rec, i);
      var h := Home(src, id);
      assert PartGrows(src.parts[h], t.parts[h], src.now);
      assert RowGrows(src.parts[h], src.parts[h].rows[i], t.parts[h].rows[i], src.now);
      assert SaysSo(t, id, rec, i);
    }
  }

  lemma TableGrows(src: Source, t: Source, rows: map<nat, Rec>, gen: nat)
    requires Grows(src, t) && TableOk(src, rows, gen)
    ensures TableOk(t, rows, gen)
  {
    forall id | id in rows
      ensures RecOk(t, gen, id, rows[id])
    {
      assert RecOk(src, gen, id, rows[id]);
      SourcedGrows(src, t, id, rows[id]);
    }
  }

  lemma PullsGrow(src: Source, t: Source, pulls: map<nat, Mark>, readings: seq<int>)
    requires Grows(src, t) && PullsOk(src, pulls, readings)
    ensures PullsOk(t, pulls, readings)
  {
    forall p, i | 0 <= p < |t.parts| && 0 <= i < |t.parts[p].rows|
      ensures EchoLater(pulls, t.parts[p].rows[i])
    {
      assert PartGrows(src.parts[p], t.parts[p], src.now);
      if i < |src.parts[p].rows| {
        assert RowGrows(src.parts[p], src.parts[p].rows[i], t.parts[p].rows[i], src.now);
        assert EchoLater(pulls, src.parts[p].rows[i]);
      }
    }
  }

  lemma ClaimGrows(src: Source, t: Source, con: Consumer, p: nat)
    requires Grows(src, t) && |src.parts| == |con.parts| && Live(con) && p < |con.parts|
    requires UnderCounter(src.parts[p], Reach(con, p)) && Claim(src, con, p)
    ensures UnderCounter(t.parts[p], Reach(con, p)) && Claim(t, con, p)
  {
    assert PartGrows(src.parts[p], t.parts[p], src.now);
    forall i | 0 <= i < |t.parts[p].rows| && t.parts[p].rows[i].body.Change?
        && Within(t.parts[p].rows[i], Reach(con, p))
      ensures (p, t.parts[p].rows[i].place.value) in con.quarantined
              || Shows(t, con.proj.rows, t.parts[p].rows[i].body.id, t.parts[p].rows[i].body.version)
    {
      ReachStable(src, t, p, i, Reach(con, p));
      var r := src.parts[p].rows[i];
      if (p, r.place.value) !in con.quarantined {
        ShowsStable(src, t, con.proj.rows, r.body.id, r.body.version);
      }
    }
  }

  lemma LiveGrows(src: Source, t: Source, con: Consumer)
    requires Grows(src, t) && |src.parts| == |con.parts| && Live(con) && LiveOk(src, con)
    ensures LiveOk(t, con)
  {
    forall p | 0 <= p < |con.parts|
      ensures UnderCounter(t.parts[p], Reach(con, p)) && Claim(t, con, p)
    {
      ClaimGrows(src, t, con, p);
    }
    forall id | id in con.proj.rows
      ensures RecLive(t, con, id, con.proj.rows[id])
    {
      assert RecLive(src, con, id, con.proj.rows[id]);
    }
  }

  lemma MarksGrow(src: Source, t: Source, con: Consumer, readings: seq<int>)
    requires Grows(src, t) && |src.parts| == |con.parts| && MarksOk(src, con, readings)
    ensures MarksOk(t, con, readings)
  {
    forall p | 0 <= p < |con.parts| && con.parts[p].mark.Some?
      ensures MarkOk(t, con, readings, p, con.parts[p].mark.value)
    {
      var m := con.parts[p].mark.value;
      var x: nat :| Backs(src.parts[p].rows, x, m, Reach(con, p));
      assert PartGrows(src.parts[p], t.parts[p], src.now);
      assert RowGrows(src.parts[p], src.parts[p].rows[x], t.parts[p].rows[x], src.now);
      assert Backs(t.parts[p].rows, x, m, Reach(con, p));
    }
  }

  lemma BasedGrows(src: Source, t: Source, run: Run, p: nat)
    requires Grows(src, t) && p < |src.parts| && |run.p0| == |src.parts| && run.since.Some? && Based(src, run, p)
    ensures Based(t, run, p)
  {
    assert PartGrows(src.parts[p], t.parts[p], src.now);
    forall i | 0 <= i < |t.parts[p].rows| && Within(t.parts[p].rows[i], Place(run.epoch, run.p0[p]))
      ensures t.parts[p].rows[i].fate.Committed? && t.parts[p].rows[i].fate.at < run.since.value
    {
      ReachStable(src, t, p, i, Place(run.epoch, run.p0[p]));
    }
  }

  lemma RowAlignedGrows(src: Source, t: Source, run: Run, id: nat, rec: Rec)
    requires Grows(src, t) && |run.p0| == |src.parts| && run.since.Some? && Based(src, run, Home(src, id))
        && RowAligned(src, run, id, rec)
    ensures RowAligned(t, run, id, rec)
  {
    var h := Home(src, id);
    forall i | 0 <= i < |t.parts[h].rows| && t.parts[h].rows[i].body.Change? && t.parts[h].rows[i].body.id == id
                && Within(t.parts[h].rows[i], Place(run.epoch, run.p0[h]))
      ensures Shown(t, rec, id, t.parts[h].rows[i].body.version)
    {
      ReachStable(src, t, h, i, Place(run.epoch, run.p0[h]));
      assert Shown(src, rec, id, src.parts[h].rows[i].body.version);
    }
  }

  lemma AbsentGrows(src: Source, t: Source, run: Run, id: nat)
    requires Grows(src, t) && |run.p0| == |src.parts| && run.since.Some? && Based(src, run, Home(src, id))
        && AbsentAligned(src, run, id)
    ensures AbsentAligned(t, run, id)
  {
    var h := Home(src, id);
    forall i | 0 <= i < |t.parts[h].rows| && t.parts[h].rows[i].body.Change? && t.parts[h].rows[i].body.id == id
                && Within(t.parts[h].rows[i], Place(run.epoch, run.p0[h]))
      ensures Deleted(t, id, t.parts[h].rows[i].body.version)
    {
      ReachStable(src, t, h, i, Place(run.epoch, run.p0[h]));
      DeletedStays(src, t, id, src.parts[h].rows[i].body.version);
    }
  }

  lemma RunGrows(src: Source, t: Source, con: Consumer, run: Run, g: nat)
    requires Grows(src, t) && |src.parts| == |con.parts| && run.since.Some? && RunOk(src, con, run, g)
    ensures RunOk(t, con, run, g)
  {
    forall p | 0 <= p < |src.parts|
      ensures Based(t, run, p)
    {
      BasedGrows(src, t, run, p);
    }
    forall id | id in con.proj.rows && con.proj.rows[id].gen == Some(g)
      ensures RowAligned(t, run, id, con.proj.rows[id])
    {
      RowAlignedGrows(src, t, run, id, con.proj.rows[id]);
    }
    forall id | id in run.covered && id !in con.proj.rows
      ensures AbsentAligned(t, run, id)
    {
      AbsentGrows(src, t, run, id);
    }
    forall p, i | run.emptied && 0 <= p < |t.parts| && 0 <= i < |t.parts[p].rows|
      ensures SpannedBy(run, t.parts[p].rows[i])
    {
      assert PartGrows(src.parts[p], t.parts[p], src.now);
      if i < |src.parts[p].rows| {
        assert RowGrows(src.parts[p], src.parts[p].rows[i], t.parts[p].rows[i], src.now);
        assert SpannedBy(run, src.parts[p].rows[i]);
      }
    }
  }

  /** Whatever the source does, everything the consumer holds stays true. */
  lemma SourceMoveKeeps(src: Source, m: Move, con: Consumer, readings: seq<int>)
    requires Inv(src, con, readings) && CanMove(src, m)
    ensures Inv(Moved(src, m), con, readings)
  {
    var t := Moved(src, m);
    MoveOk(src, m);
    MoveGrows(src, m);
    TableGrows(src, t, con.proj.rows, con.proj.gen);
    PullsGrow(src, t, con.pulls, readings);
    if con.proj.status == Aligned {
      if Live(con) {
        LiveGrows(src, t, con);
      }
      MarksGrow(src, t, con, readings);
    }
    var g := con.proj.gen;
    if Underway(con) && con.runs[g].since.Some? {
      RunGrows(src, t, con, con.runs[g], g);
    }
  }
}
