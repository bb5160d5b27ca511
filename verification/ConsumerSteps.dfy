/**
  Every guarded step of the consumer keeps the protocol's invariant: one lemma per transaction.
 */
module ConsumerSteps {
  import opened Base
  import opened Numbering
  import opened SourceLog
  import opened Receive
  import opened Protocol
  import opened Freshness

  lemma ReadingKeeps(src: Source, con: Consumer, readings: seq<int>, clock: int)
    requires Inv(src, con, readings)
    ensures Inv(src, con, readings + [clock])
  {
    forall p | con.proj.status == Aligned && 0 <= p < |con.parts| && con.parts[p].mark.Some?
      ensures MarkOk(src, con, readings + [clock], p, con.parts[p].mark.value)
    {
      assert MarkOk(src, con, readings, p, con.parts[p].mark.value);
    }
  }

  lemma StatusKeeps(src: Source, con: Consumer, readings: seq<int>, status: Status)
    requires Inv(src, con, readings) && (status == Aligned ==> con.proj.status == Aligned)
    ensures Inv(src, con.(proj := con.proj.(status := status)), readings)
  {
    var next := con.(proj := con.proj.(status := status));
    assert status == Aligned ==> next == con;
    RelabelRun(src, con, next);
  }

  /** Two consumers with the same rows, positions, quarantine and identity make the same claims. */
  lemma RelabelLive(src: Source, con: Consumer, next: Consumer)
    requires |src.parts| == |con.parts| > 0 && Live(con) && LiveOk(src, con)
    requires next.parts == con.parts || (|next.parts| == |con.parts| && forall p :: 0 <= p < |con.parts| ==>
               next.parts[p].pos == con.parts[p].pos && next.parts[p].p0 == con.parts[p].p0)
    requires next.proj.rows == con.proj.rows && next.proj.adopted == con.proj.adopted
        && con.quarantined <= next.quarantined
    ensures Live(next) && LiveOk(src, next)
  {
    forall p | 0 <= p < |con.parts|
      ensures UnderCounter(src.parts[p], Reach(next, p)) && Claim(src, next, p)
    {
      assert Reach(next, p) == Reach(con, p);
      assert Claim(src, con, p);
    }
    forall id | id in next.proj.rows
      ensures RecLive(src, next, id, next.proj.rows[id])
    {
      assert RecLive(src, con, id, con.proj.rows[id]);
    }
  }

  /** ... and with the same marks, back them alike. */
  lemma SameClaims(src: Source, con: Consumer, next: Consumer, readings: seq<int>)
    requires |src.parts| == |con.parts| > 0 && Claims(src, con, readings)
    requires next.parts == con.parts && next.proj == con.proj && con.quarantined <= next.quarantined
    ensures Claims(src, next, readings)
  {
    if con.proj.status == Aligned {
      if Live(con) {
        RelabelLive(src, con, next);
      }
      forall p | 0 <= p < |con.parts| && con.parts[p].mark.Some?
        ensures MarkOk(src, next, readings, p, con.parts[p].mark.value)
      {
        assert MarkOk(src, con, readings, p, con.parts[p].mark.value);
        assert Reach(next, p) == Reach(con, p);
      }
    }
  }

  lemma RelabelRun(src: Source, con: Consumer, next: Consumer)
    requires |src.parts| == |con.parts| > 0 && CurrentRunOk(src, con)
    requires next.parts == con.parts && next.runs == con.runs
    requires next.proj.rows == con.proj.rows && next.proj.adopted == con.proj.adopted && next.proj.gen == con.proj.gen
    ensures CurrentRunOk(src, next)
  {
  }

  // ------------------------------------------------------------------ pulls

  lemma RecordKeeps(s: Sys, nonce: nat, epochChanged: bool)
    requires Inv(s.src, s.con, s.readings) && s.src.now == |s.readings| && FreshNonce(s, nonce)
    ensures Inv(s.src, DoRecord(s.con, s.clock, s.src.now, nonce, epochChanged), s.readings + [s.clock])
  {
    var con, next, readings := s.con, DoRecord(s.con, s.clock, s.src.now, nonce, epochChanged), s.readings + [s.clock];
    assert forall p :: 0 <= p < |con.parts| ==>
        next.parts[p].pos == con.parts[p].pos && next.parts[p].p0 == con.parts[p].p0;
    assert Live(con) ==> Live(next);
    assert Quiet(con) ==> Quiet(next);
    if con.proj.status == Aligned && Live(next) {
      assert Live(con);
      RelabelLive(s.src, con, next);
    }
    assert PullsOk(s.src, next.pulls, readings) by {
      forall p, i | 0 <= p < |s.src.parts| && 0 <= i < |s.src.parts[p].rows|
        ensures EchoLater(next.pulls, s.src.parts[p].rows[i])
      {
        assert EchoLater(con.pulls, s.src.parts[p].rows[i]);
      }
    }
    assert Claims(s.src, next, readings) by {
      forall p | con.proj.status == Aligned && 0 <= p < |next.parts| && next.parts[p].mark.Some?
        ensures Live(next) && MarkOk(s.src, next, readings, p, next.parts[p].mark.value)
      {
        assert next.parts[p] == con.parts[p];
        assert MarkOk(s.src, con, s.readings, p, con.parts[p].mark.value);
        assert Reach(next, p) == Reach(con, p);
      }
    }
  }

  // ------------------------------------------------------------------ identity

  lemma AdoptKeeps(src: Source, con: Consumer, readings: seq<int>, e: Epoch)
    requires Inv(src, con, readings) && !EpochLess(src.epoch, e)
    requires con.proj.adopted.Some? ==> EpochLess(con.proj.adopted.value.epoch, e)
    ensures Inv(src, con.(proj := con.proj.(adopted := Some(Identity(IMPL, e))),
                          parts := seq(|con.parts|, i requires 0 <= i < |con.parts| => BLANK)), readings)
  {
    var next := con.(proj := con.proj.(adopted := Some(Identity(IMPL, e))),
                     parts := seq(|con.parts|, i requires 0 <= i < |con.parts| => BLANK));
    assert forall p :: 0 <= p < |next.parts| ==> next.parts[p] == BLANK;
    assert !Live(next) by { assert next.parts[0].pos.None?; }
  }

  // ------------------------------------------------------------------ alignment

  lemma StartKeeps(src: Source, con: Consumer, readings: seq<int>, e: Epoch, status: Status)
    requires Inv(src, con, readings) && !EpochLess(src.epoch, e) && status != Aligned
    ensures Inv(src, DoStart(con, e, status), readings)
  {
    var next := DoStart(con, e, status);
    forall id | id in con.proj.rows ensures RecOk(src, next.proj.gen, id, con.proj.rows[id])
        && con.proj.rows[id].gen != Some(next.proj.gen) {
      assert RecOk(src, con.proj.gen, id, con.proj.rows[id]);
    }
  }

  lemma HandedIsBased(src: Source, run: Run, p: nat)
    requires SourceOk(src) && p < |src.parts| && |run.p0| == |src.parts| && run.since == Some(src.now)
    requires Handed(src.parts[p], Place(run.epoch, run.p0[p]))
    ensures Based(src, run, p)
  {
    var i :| 0 <= i < |src.parts[p].rows| && src.parts[p].rows[i].place == Some(Place(run.epoch, run.p0[p]));
    assert PartOk(src.parts[p], src.now);
  }

  lemma SaveP0Keeps(src: Source, con: Consumer, readings: seq<int>, g: nat, p0: seq<nat>)
    requires Inv(src, con, readings) && g == con.proj.gen && g in con.runs && con.runs[g].since.None?
    requires |p0| == |src.parts| && forall p :: 0 <= p < |p0| ==> Handed(src.parts[p], Place(con.runs[g].epoch, p0[p]))
    ensures Inv(src, DoSaveP0(con, g, p0, src.now), readings)
  {
    var next := DoSaveP0(con, g, p0, src.now);
    var run := next.runs[g];
    assert forall p :: 0 <= p < |next.parts| ==> next.parts[p] == PartState(None, Some(p0[p]), None);
    assert !Live(next) by { assert next.parts[0].pos.None?; }
    assert Underway(next) <==> Underway(con);
    forall p | 0 <= p < |src.parts| ensures Based(src, run, p) {
      HandedIsBased(src, run, p);
    }
  }

  /** One answer written by an alignment says what the source said. */
  lemma FetchedSays(src: Source, gen: nat, run: Run, g: nat, id: nat, t: nat, byId: bool)
    requires SourceOk(src) && g <= gen
    ensures var f := Fetched(run, g, Home(src, id), id, Read(src, id, t), byId);
            f.Some? ==> f.value.gen == Some(g) && RecOk(src, gen, id, f.value)
  {
    var h := Home(src, id);
    var f := Fetched(run, g, h, id, Read(src, id, t), byId);
    if f.Some? && !Read(src, id, t).Purged? {
      assert SaysSo(src, id, f.value, Last(src.parts[h].rows, |src.parts[h].rows|, id, t).value);
    }
  }

  /** ... and, read after P0 was saved, is not behind it. */
  lemma FetchedAligned(src: Source, run: Run, g: nat, id: nat, t: nat, byId: bool)
    requires SourceOk(src) && |run.p0| == |src.parts| && run.since.Some? && run.since.value <= t
        && Based(src, run, Home(src, id))
    ensures var f := Fetched(run, g, Home(src, id), id, Read(src, id, t), byId);
            f.Some? ==> f.value.gen == Some(g) && RowAligned(src, run, id, f.value)
  {
    var h := Home(src, id);
    var rows := src.parts[h].rows;
    var f := Fetched(run, g, h, id, Read(src, id, t), byId);
    if f.Some? {
      forall i | 0 <= i < |rows| && rows[i].body.Change? && rows[i].body.id == id
          && Within(rows[i], Place(run.epoch, run.p0[h]))
        ensures Shown(src, f.value, id, rows[i].body.version)
      {
        ReadCovers(src, id, t, i);
      }
    }
  }

  lemma PassedOver(src: Source, run: Run, id: nat, t: nat)
    requires SourceOk(src) && |run.p0| == |src.parts| && run.since.Some? && run.since.value <= t
        && Based(src, run, Home(src, id))
    requires !Read(src, id, t).There?
    ensures AbsentAligned(src, run, id)
  {
    var h := Home(src, id);
    var rows := src.parts[h].rows;
    forall i | 0 <= i < |rows| && rows[i].body.Change? && rows[i].body.id == id
        && Within(rows[i], Place(run.epoch, run.p0[h]))
      ensures Deleted(src, id, rows[i].body.version)
    {
      ReadCovers(src, id, t, i);
    }
  }

  /** Each row after a write of the alignment is the old one or a fetched one; fetched rows replace those of other
      generations. */
  lemma PutAllAt(rows: map<nat, Rec>, src: Source, run: Run, g: nat, ids: set<nat>, t: nat, byId: bool, id: nat)
    requires |src.parts| > 0
    ensures var next, f := PutAll(rows, src, run, g, ids, t, byId),
        Fetched(run, g, Home(src, id), id, Read(src, id, t), byId);
            && (id in rows ==> id in next)
            && (id in next ==> (id in rows && next[id] == rows[id]) || (id in ids && f.Some? && next[id] == f.value))
            && (id in ids && f.Some? ==> id in next && next[id].gen == Some(g))
  {
    var next, f := PutAll(rows, src, run, g, ids, t, byId), Fetched(run, g, Home(src, id), id, Read(src, id, t), byId);
    assert id in next <==> id in rows.Keys + ids && (id in rows || f.Some?);
  }

  lemma FetchTable(src: Source, rows: map<nat, Rec>, gen: nat, run: Run, g: nat, ids: set<nat>, t: nat, byId: bool)
    requires SourceOk(src) && TableOk(src, rows, gen) && g <= gen
    ensures TableOk(src, PutAll(rows, src, run, g, ids, t, byId), gen)
  {
    var next := PutAll(rows, src, run, g, ids, t, byId);
    forall id | id in next ensures RecOk(src, gen, id, next[id]) {
      PutAllAt(rows, src, run, g, ids, t, byId, id);
      FetchedSays(src, gen, run, g, id, t, byId);
      if id in rows {
        assert RecOk(src, gen, id, rows[id]);
      }
    }
  }

  lemma FetchKeeps(s: Sys, g: nat, ids: set<nat>, t: nat, byId: bool)
    requires Inv(s.src, s.con, s.readings) && g == s.con.proj.gen && g in s.con.runs
    requires s.con.runs[g].since.Some? && s.con.runs[g].since.value <= t <= s.src.now
    ensures Inv(s.src, DoFetch(s, g, ids, t, byId), s.readings)
  {
    var src, con, next := s.src, s.con, DoFetch(s, g, ids, t, byId);
    assert Quiet(con) && Quiet(next);
    assert !Live(next) by { assert next.parts[0].pos.None?; }
    FetchTable(src, con.proj.rows, con.proj.gen, con.runs[g], g, ids, t, byId);
    if Underway(con) {
      FetchRun(s, g, ids, t, byId);
    }
  }

  lemma FetchRun(s: Sys, g: nat, ids: set<nat>, t: nat, byId: bool)
    requires SourceOk(s.src) && |s.src.parts| == |s.con.parts| && g in s.con.runs && g == s.con.proj.gen
    requires s.con.runs[g].since.Some? && s.con.runs[g].since.value <= t && RunOk(s.src, s.con, s.con.runs[g], g)
    ensures var next := DoFetch(s, g, ids, t, byId); RunOk(s.src, next, next.runs[g], g)
  {
    var src, con, run, next := s.src, s.con, s.con.runs[g], DoFetch(s, g, ids, t, byId);
    forall id | id in next.proj.rows
      ensures next.proj.rows[id].gen == Some(g) ==> RowAligned(src, next.runs[g], id, next.proj.rows[id])
      ensures run.emptied ==> next.proj.rows[id].gen == Some(g)
    {
      PutAllAt(con.proj.rows, src, run, g, ids, t, byId, id);
      FetchedAligned(src, run, g, id, t, byId);
    }
    forall id | id in next.runs[g].covered && id !in next.proj.rows
      ensures AbsentAligned(src, next.runs[g], id)
    {
      PutAllAt(con.proj.rows, src, run, g, ids, t, byId, id);
      if id !in run.covered {
        PassedOver(src, run, id, t);
      } else {
        assert AbsentAligned(src, run, id);
      }
    }
    forall p | 0 <= p < |src.parts| ensures Based(src, next.runs[g], p) {
      assert Based(src, run, p);
    }
  }

  lemma EmptiedKeeps(s: Sys, g: nat)
    requires Inv(s.src, s.con, s.readings) && CanStep(s, Emptied(g))
    ensures Inv(s.src, s.con.(runs := s.con.runs[g := s.con.runs[g].(emptied := true)]), s.readings)
  {
    var src, con, run := s.src, s.con, s.con.runs[g];
    var next := con.(runs := con.runs[g := run.(emptied := true)]);
    SameClaims(src, con, next, s.readings);
    if g == con.proj.gen && Underway(con) {
      assert RunOk(src, next, next.runs[g], g) by { EmptiedRun(s, g); }
    }
  }

  lemma EmptiedRun(s: Sys, g: nat)
    requires |s.src.parts| == |s.con.parts| > 0 && CanStep(s, Emptied(g)) && RunOk(s.src, s.con, s.con.runs[g], g)
    ensures var next := s.con.(runs := s.con.runs[g := s.con.runs[g].(emptied := true)]);
            RunOk(s.src, next, next.runs[g], g)
  {
    var src, con, run := s.src, s.con, s.con.runs[g];
    var done := run.(emptied := true);
    forall p | 0 <= p < |src.parts| ensures Based(src, done, p) { assert Based(src, run, p); }
    forall id | id in con.proj.rows ensures RowAligned(src, done, id,
        con.proj.rows[id]) { assert RowAligned(src, run, id, con.proj.rows[id]); }
    forall id | id in done.covered && id !in con.proj.rows
        ensures AbsentAligned(src, done, id) { assert AbsentAligned(src, run, id); }
  }

  /** Completion: every change at or below P0 is in the projection, whatever interleaved. */
  lemma FinishClaims(src: Source, con: Consumer, next: Consumer, run: Run, g: nat, p: nat)
    requires SourceOk(src) && |src.parts| == |con.parts| && run.since.Some? && run.emptied && RunOk(src, con, run, g)
    requires next.proj.rows == con.proj.rows && |next.parts| == |con.parts| && Live(next) && p < |next.parts|
    requires Reach(next, p) == Place(run.epoch, run.p0[p])
    ensures Claim(src, next, p)
  {
    forall i | 0 <= i < |src.parts[p].rows| && src.parts[p].rows[i].body.Change?
        && Within(src.parts[p].rows[i], Reach(next, p))
      ensures Shows(src, next.proj.rows, src.parts[p].rows[i].body.id, src.parts[p].rows[i].body.version)
    {
      var id := src.parts[p].rows[i].body.id;
      assert Homed(src, p);
      assert Based(src, run, p);
      assert SpannedBy(run, src.parts[p].rows[i]);
      if id in con.proj.rows {
        assert RowAligned(src, run, id, con.proj.rows[id]);
      } else {
        assert AbsentAligned(src, run, id);
      }
    }
  }

  lemma FinishLive(src: Source, con: Consumer, next: Consumer, run: Run, g: nat)
    requires SourceOk(src) && |src.parts| == |con.parts| && run.since.Some? && run.emptied && RunOk(src, con, run, g)
    requires next.proj.rows == con.proj.rows && next.proj.adopted == Some(Identity(IMPL, run.epoch))
        && |next.parts| == |con.parts|
    requires forall p :: 0 <= p < |next.parts| ==> next.parts[p] == PartState(Some(run.p0[p]), None, None)
    ensures Live(next) && LiveOk(src, next)
  {
    forall p | 0 <= p < |next.parts|
      ensures UnderCounter(src.parts[p], Reach(next, p)) && Claim(src, next, p)
    {
      assert Based(src, run, p);
      FinishClaims(src, con, next, run, g, p);
    }
    forall id | id in next.proj.rows ensures RecLive(src, next, id, next.proj.rows[id]) {
      assert RowAligned(src, run, id, con.proj.rows[id]);
    }
  }

  lemma FinishKeeps(src: Source, con: Consumer, readings: seq<int>, g: nat, status: Status)
    requires Inv(src, con, readings) && g == con.proj.gen && g in con.runs && con.runs[g].emptied
    requires status == Aligned ==> Underway(con)
    ensures Inv(src, DoFinish(con, g, status), readings)
  {
    var run, next := con.runs[g], DoFinish(con, g, status);
    if Underway(con) {
      assert RunOk(src, con, run, g);
      FinishLive(src, con, next, run, g);
    }
    assert forall p :: 0 <= p < |next.parts| ==> next.parts[p] == PartState(Some(run.p0[p]), None, None);
    assert g !in next.runs;
  }

  lemma AbandonKeeps(src: Source, con: Consumer, readings: seq<int>, g: nat)
    requires Inv(src, con, readings)
    ensures Inv(src, con.(runs := con.runs - {g}), readings)
  {
    var next := con.(runs := con.runs - {g});
    SameClaims(src, con, next, readings);
    if Underway(next) {
      assert Underway(con);
      if con.runs[con.proj.gen].since.Some? {
        SameRun(src, con, next, con.runs[con.proj.gen], con.proj.gen);
      }
    }
  }

  lemma SameRun(src: Source, con: Consumer, next: Consumer, run: Run, g: nat)
    requires |src.parts| == |con.parts| > 0 && run.since.Some? && RunOk(src, con, run, g)
    requires next == con.(runs := next.runs)
    ensures RunOk(src, next, run, g)
  {
  }

  // ------------------------------------------------------------------ delivery

  predicate Replaced(con: Consumer, next: Consumer, id: nat) {
    id in next.proj.rows && !(id in con.proj.rows && next.proj.rows[id] == con.proj.rows[id])
  }

  /** What one applied change does: only its record's row moves, up to the change's version. */
  ghost predicate Taken(con: Consumer, next: Consumer, r: Row)
    requires r.body.Change? && r.place.Some?
  {
    var id := r.body.id;
    && next == con.(proj := con.proj.(rows := next.proj.rows))
    && con.proj.rows.Keys <= next.proj.rows.Keys
    && (forall k :: Replaced(con, next, k) ==> k == id)
    && (Replaced(con, next, id) ==>
          var rec := next.proj.rows[id];
          rec.version == r.body.version && rec.epoch == r.place.value.epoch && rec.minRead.None?
              && rec.gen == DuringAlignment(con.proj))
    && (!ReadBefore(con.proj, InputOf(r)) ==>
          && id in next.proj.rows && next.proj.rows[id].version >= r.body.version
          && (id in con.proj.rows && con.proj.rows[id].epoch == r.place.value.epoch ==>
                next.proj.rows[id].version >= con.proj.rows[id].version))
  }

  lemma TakenRows(src: Source, con: Consumer, p: nat, i: nat)
    requires SourceOk(src) && TableOk(src, con.proj.rows, con.proj.gen) && p < |src.parts| && i < |src.parts[p].rows|
    requires src.parts[p].rows[i].place.Some? && src.parts[p].rows[i].body.Change?
    requires Admitted(con, src.parts[p].rows[i]) && con.proj.adopted.value.impl == IMPL
    ensures var next := TakeIn(con, p, src.parts[p].rows[i], false);
            Taken(con, next, src.parts[p].rows[i]) && TableOk(src, next.proj.rows, next.proj.gen)
  {
    var r := src.parts[p].rows[i];
    var next := TakeIn(con, p, r, false);
    forall id | id in con.proj.rows ensures WellKept(con.proj.rows[id]) && con.proj.rows[id].impl == IMPL {
      assert RecOk(src, con.proj.gen, id, con.proj.rows[id]);
    }
    ApplyRaises(con.proj, InputOf(r));
    forall id | id in next.proj.rows ensures RecOk(src, next.proj.gen, id, next.proj.rows[id]) {
      if id in con.proj.rows {
        assert RecOk(src, con.proj.gen, id, con.proj.rows[id]);
      }
      if Replaced(con, next, id) {
        assert Homed(src, p);
        assert PartOk(src.parts[p], src.now);
        assert SaysSo(src, id, next.proj.rows[id], i);
      }
    }
  }

  /** While aligning: a row above P0 is newer than everything at or below it. */
  lemma AlignTaken(src: Source, con: Consumer, next: Consumer, run: Run, g: nat, p: nat, i: nat)
    requires SourceOk(src) && |src.parts| == |con.parts| && p < |src.parts| && i < |src.parts[p].rows|
    requires src.parts[p].rows[i].place.Some? && src.parts[p].rows[i].body.Change?
    requires src.parts[p].rows[i].place.value.epoch == run.epoch
    requires con.proj.status == Aligning && g == con.proj.gen && run.since.Some? && RunOk(src, con, run, g)
    requires src.parts[p].rows[i].place.value.n > run.p0[p]
    requires Taken(con, next, src.parts[p].rows[i])
    ensures RunOk(src, next, run, g)
  {
    forall id | id in next.proj.rows && run.emptied
      ensures next.proj.rows[id].gen == Some(g)
    {
      assert Replaced(con, next, id) || con.proj.rows[id].gen == Some(g);
    }
    forall id | id in next.proj.rows && next.proj.rows[id].gen == Some(g)
      ensures RowAligned(src, run, id, next.proj.rows[id])
    {
      if !Replaced(con, next, id) {
        assert RowAligned(src, run, id, con.proj.rows[id]);
      } else {
        assert Homed(src, p);
        forall k | 0 <= k < |src.parts[p].rows| && src.parts[p].rows[k].body.Change?
            && src.parts[p].rows[k].body.id == id
                    && Within(src.parts[p].rows[k], Place(run.epoch, run.p0[p]))
          ensures src.parts[p].rows[k].body.version <= next.proj.rows[id].version
        {
          VersionFollowsPlace(src, p, k, i);
        }
      }
    }
  }

  lemma AligningKeeps(src: Source, con: Consumer, next: Consumer, readings: seq<int>, p: nat, i: nat)
    requires Inv(src, con, readings) && p < |src.parts| && i < |src.parts[p].rows| && src.parts[p].rows[i].place.Some?
    requires src.parts[p].rows[i].body.Change? && Admitted(con, src.parts[p].rows[i]) && con.proj.status == Aligning
    requires Underway(con) ==> var run := con.runs[con.proj.gen];
                               run.since.Some? && p < |run.p0| && src.parts[p].rows[i].place.value.n > run.p0[p]
    requires Taken(con, next, src.parts[p].rows[i]) && TableOk(src, next.proj.rows, next.proj.gen)
    ensures Inv(src, next, readings)
  {
    assert Shape(src, next) && PullsOk(src, next.pulls, readings);
    if Underway(con) {
      AlignTaken(src, con, next, con.runs[con.proj.gen], con.proj.gen, p, i);
    }
    assert CurrentRunOk(src, next);
  }

  lemma QuarantineKeeps(src: Source, con: Consumer, readings: seq<int>, q: (nat, Place))
    requires Inv(src, con, readings)
    ensures Inv(src, con.(quarantined := con.quarantined + {q}), readings)
  {
    var next := con.(quarantined := con.quarantined + {q});
    SameClaims(src, con, next, readings);
    RelabelRun(src, con, next);
  }

  /** The row i of partition p is the next one of a live consumer. */
  ghost predicate Due(src: Source, con: Consumer, p: nat, i: nat) {
    && |src.parts| == |con.parts| > 0 && Live(con) && p < |src.parts| && i < |src.parts[p].rows|
        && src.parts[p].rows[i].place.Some?
    && Admitted(con, src.parts[p].rows[i]) && src.parts[p].rows[i].place.value.n == con.parts[p].pos.value + 1
  }

  /** What taking the row in did, before the position moved. */
  ghost predicate Effect(con: Consumer, taken: Consumer, p: nat, r: Row, quarantine: bool)
    requires r.place.Some?
  {
    if quarantine then taken == con.(quarantined := con.quarantined + {(p, r.place.value)})
    else if r.body.Change? then Taken(con, taken, r)
    else taken == con
  }

  /** A change applied at the next position is newer than every claimed change of its record. */
  lemma LiveTaken(src: Source, con: Consumer, taken: Consumer, p: nat, i: nat, k: nat)
    requires SourceOk(src) && Due(src, con, p, i) && LiveOk(src, con) && k < |src.parts[p].rows|
    requires src.parts[p].rows[i].body.Change? && Taken(con, taken, src.parts[p].rows[i])
    requires src.parts[p].rows[k].body.Change? && (k == i || Within(src.parts[p].rows[k], Reach(con, p)))
    requires k == i || Shows(src, con.proj.rows, src.parts[p].rows[k].body.id, src.parts[p].rows[k].body.version)
    ensures Shows(src, taken.proj.rows, src.parts[p].rows[k].body.id, src.parts[p].rows[k].body.version)
  {
    var r, id := src.parts[p].rows[i], src.parts[p].rows[k].body.id;
    assert Homed(src, p);
    if r.body.id in con.proj.rows {
      assert RecLive(src, con, r.body.id, con.proj.rows[r.body.id]);
    }
    assert !ReadBefore(con.proj, InputOf(r));
    if k != i && id == r.body.id {
      VersionFollowsPlace(src, p, k, i);
    }
    assert id != r.body.id ==> !Replaced(con, taken, id);
  }

  lemma SamePlaceSameRow(src: Source, p: nat, i: nat, k: nat, to: Place)
    requires SourceOk(src) && p < |src.parts| && i < |src.parts[p].rows| && k < |src.parts[p].rows|
    requires src.parts[p].rows[i].place == Some(Place(to.epoch, to.n + 1))
        && Within(src.parts[p].rows[k], Place(to.epoch, to.n + 1))
    ensures k == i || Within(src.parts[p].rows[k], to)
  {
    assert Distinct(src.parts[p]) by { assert PartOk(src.parts[p], src.now); }
  }

  lemma NextUnderCounter(src: Source, p: nat, i: nat)
    requires SourceOk(src) && p < |src.parts| && i < |src.parts[p].rows| && src.parts[p].rows[i].place.Some?
    ensures UnderCounter(src.parts[p], src.parts[p].rows[i].place.value)
  {
    assert Distinct(src.parts[p]) by { assert PartOk(src.parts[p], src.now); }
  }

  /** The claim of the partition that moved. */
  lemma MovedClaim(src: Source, con: Consumer, taken: Consumer, p: nat, i: nat, quarantine: bool)
    requires SourceOk(src) && Due(src, con, p, i) && LiveOk(src, con)
        && Effect(con, taken, p, src.parts[p].rows[i], quarantine)
    ensures var next := MoveTo(taken, p, src.parts[p].rows[i], quarantine);
            Live(next) && |next.parts| == |con.parts| && UnderCounter(src.parts[p], Reach(next, p))
                && Claim(src, next, p)
  {
    var r := src.parts[p].rows[i];
    var next := MoveTo(taken, p, r, quarantine);
    NextUnderCounter(src, p, i);
    assert Claim(src, con, p);
    forall k | 0 <= k < |src.parts[p].rows| && src.parts[p].rows[k].body.Change?
        && Within(src.parts[p].rows[k], Reach(next, p))
      ensures (p, src.parts[p].rows[k].place.value) in next.quarantined
              || Shows(src, next.proj.rows, src.parts[p].rows[k].body.id, src.parts[p].rows[k].body.version)
    {
      SamePlaceSameRow(src, p, i, k, Reach(con, p));
      if !quarantine && r.body.Change? && (p, src.parts[p].rows[k].place.value) !in next.quarantined {
        LiveTaken(src, con, taken, p, i, k);
      }
    }
  }

  /** Claims of the other partitions are about other records. */
  lemma OtherClaims(src: Source, con: Consumer, taken: Consumer, p: nat, i: nat, quarantine: bool, q: nat)
    requires SourceOk(src) && Due(src, con, p, i) && LiveOk(src, con)
        && Effect(con, taken, p, src.parts[p].rows[i], quarantine)
    requires q < |src.parts| && p != q
    ensures var next := MoveTo(taken, p, src.parts[p].rows[i], quarantine);
            Live(next) && |next.parts| == |con.parts| && UnderCounter(src.parts[q], Reach(next, q))
                && Claim(src, next, q)
  {
    var r := src.parts[p].rows[i];
    var next := MoveTo(taken, p, r, quarantine);
    assert Claim(src, con, q);
    assert Reach(next, q) == Reach(con, q);
    assert Homed(src, p) && Homed(src, q);
    forall k | 0 <= k < |src.parts[q].rows| && src.parts[q].rows[k].body.Change?
        && Within(src.parts[q].rows[k], Reach(next, q))
      ensures (q, src.parts[q].rows[k].place.value) in next.quarantined
              || Shows(src, next.proj.rows, src.parts[q].rows[k].body.id, src.parts[q].rows[k].body.version)
    {
      assert !Replaced(con, taken, src.parts[q].rows[k].body.id);
    }
  }

  lemma MovedRecs(src: Source, con: Consumer, taken: Consumer, p: nat, i: nat, quarantine: bool)
    requires Due(src, con, p, i) && LiveOk(src, con) && Effect(con, taken, p, src.parts[p].rows[i], quarantine)
        && TableOk(src, taken.proj.rows, taken.proj.gen)
    ensures var next := MoveTo(taken, p, src.parts[p].rows[i], quarantine);
            && Live(next) && TableOk(src, next.proj.rows, next.proj.gen) && |next.parts| == |con.parts|
            && forall id :: id in next.proj.rows ==> RecLive(src, next, id, next.proj.rows[id])
  {
    var next := MoveTo(taken, p, src.parts[p].rows[i], quarantine);
    forall id | id in next.proj.rows ensures RecLive(src, next, id, next.proj.rows[id]) {
      assert RecOk(src, taken.proj.gen, id, taken.proj.rows[id]);
      if !Replaced(con, taken, id) {
        assert RecLive(src, con, id, con.proj.rows[id]);
      }
    }
  }

  lemma MovedMarks(src: Source, con: Consumer, taken: Consumer, readings: seq<int>, p: nat, i: nat, quarantine: bool)
    requires Due(src, con, p, i) && MarksOk(src, con, readings) && PullsOk(src, con.pulls, readings)
    requires Effect(con, taken, p, src.parts[p].rows[i], quarantine)
    ensures var next := MoveTo(taken, p, src.parts[p].rows[i], quarantine);
            |next.parts| == |src.parts| && MarksOk(src, next, readings)
  {
    var r := src.parts[p].rows[i];
    var next := MoveTo(taken, p, r, quarantine);
    forall q | 0 <= q < |next.parts| && next.parts[q].mark.Some?
      ensures Live(next) && MarkOk(src, next, readings, q, next.parts[q].mark.value)
    {
      var m := next.parts[q].mark.value;
      if con.parts[q].mark == Some(m) {
        assert MarkOk(src, con, readings, q, m);
        var x: nat :| Backs(src.parts[q].rows, x, m, Reach(con, q));
        assert Backs(src.parts[q].rows, x, m, Reach(next, q));
      } else {
        assert q == p && EchoLater(con.pulls, r);
        assert Backs(src.parts[p].rows, i, m, Reach(next, p));
      }
    }
  }

  /** While contiguous rows come in, the current generation has no open run with a P0, and no row is marked. */
  lemma MovedRun(src: Source, con: Consumer, taken: Consumer, p: nat, i: nat, quarantine: bool)
    requires Due(src, con, p, i) && CurrentRunOk(src, con) && con.proj.status != Aligning
    requires Effect(con, taken, p, src.parts[p].rows[i], quarantine)
    ensures var next := MoveTo(taken, p, src.parts[p].rows[i], quarantine);
            |next.parts| == |src.parts| && CurrentRunOk(src, next)
  {
    var next := MoveTo(taken, p, src.parts[p].rows[i], quarantine);
    assert con.parts[0].pos.Some?;
    forall id | id in next.proj.rows
      ensures Replaced(con, taken, id) ==> next.proj.rows[id].gen.None?
    {
    }
  }

  lemma MovedLive(src: Source, con: Consumer, taken: Consumer, p: nat, i: nat, quarantine: bool)
    requires SourceOk(src) && Due(src, con, p, i) && LiveOk(src, con)
    requires Effect(con, taken, p, src.parts[p].rows[i], quarantine) && TableOk(src, taken.proj.rows, taken.proj.gen)
    ensures var next := MoveTo(taken, p, src.parts[p].rows[i], quarantine);
            Live(next) && |next.parts| == |con.parts| && LiveOk(src, next)
  {
    var next := MoveTo(taken, p, src.parts[p].rows[i], quarantine);
    MovedRecs(src, con, taken, p, i, quarantine);
    forall q | 0 <= q < |src.parts|
      ensures UnderCounter(src.parts[q], Reach(next, q)) && Claim(src, next, q)
    {
      if q == p {
        MovedClaim(src, con, taken, p, i, quarantine);
      } else {
        OtherClaims(src, con, taken, p, i, quarantine, q);
      }
    }
  }

  lemma MovedShape(src: Source, con: Consumer, taken: Consumer, p: nat, i: nat, quarantine: bool)
    requires Shape(src, con) && Due(src, con, p, i) && Effect(con, taken, p, src.parts[p].rows[i], quarantine)
    ensures var next := MoveTo(taken, p, src.parts[p].rows[i], quarantine);
            Shape(src, next) && next.pulls == con.pulls && next.proj.rows == taken.proj.rows
                && next.proj.gen == taken.proj.gen
  {
  }

  lemma ContiguousKeeps(src: Source, con: Consumer, taken: Consumer, readings: seq<int>, p: nat, i: nat,
      quarantine: bool)
    requires Inv(src, con, readings) && Due(src, con, p, i) && con.proj.status != Aligning
    requires Effect(con, taken, p, src.parts[p].rows[i], quarantine) && TableOk(src, taken.proj.rows, taken.proj.gen)
    ensures Inv(src, MoveTo(taken, p, src.parts[p].rows[i], quarantine), readings)
  {
    MovedShape(src, con, taken, p, i, quarantine);
    if con.proj.status == Aligned {
      MovedLive(src, con, taken, p, i, quarantine);
      MovedMarks(src, con, taken, readings, p, i, quarantine);
    }
    MovedRun(src, con, taken, p, i, quarantine);
  }

  /** A delivered row, guarded, keeps everything. */
  lemma DeliverKeeps(s: Sys, p: nat, i: nat, quarantine: bool, page: bool)
    requires Inv(s.src, s.con, s.readings) && CanStep(s, Deliver(p, i, quarantine, page))
        && Guarded(s, Deliver(p, i, quarantine, page))
    ensures Inv(s.src, Handle(s.con, p, s.src.parts[p].rows[i], quarantine, page), s.readings)
  {
    var src, con, r := s.src, s.con, s.src.parts[p].rows[i];
    var taken := TakeIn(con, p, r, quarantine);
    if Handle(con, p, r, quarantine, page) != con {
      if quarantine {
        QuarantineKeeps(src, con, s.readings, (p, r.place.value));
      } else if r.body.Change? {
        TakenRows(src, con, p, i);
      }
      if con.proj.status != Aligning {
        assert Live(con) by { assert con.parts[p].pos.Some?; }
        ContiguousKeeps(src, con, taken, s.readings, p, i, quarantine);
      } else if !quarantine {
        assert taken.proj.rows != con.proj.rows;
        AligningKeeps(src, con, taken, s.readings, p, i);
      }
    }
  }
}
