/**
  When a yes of the watermark is right. A yes can only be wrong about what was committed since the marked
  pulls while the clock read less than the time asked for, so it is right while the clock has not been
  there; and a right yes stays right, whatever the source commits next, exactly when the clock is not there.
 */
module Answers {
  import opened Base
  import opened Numbering
  import opened SourceLog
  import opened Protocol
  import opened Freshness
  import opened Watermark
  import opened Runs

  /** Row i of partition p is a change committed while the clock read less than at. */
  predicate Before(s: Sys, at: int, p: nat, i: nat) {
    && p < |s.src.parts| && i < |s.src.parts[p].rows| && s.src.parts[p].rows[i].body.Change?
        && s.src.parts[p].rows[i].fate.Committed?
    && s.src.parts[p].rows[i].fate.at < |s.readings| && s.readings[s.src.parts[p].rows[i].fate.at] < at
  }

  /** Every such change is in. */
  ghost predicate Right(s: Sys, at: int) {
    forall p: nat, i: nat :: Before(s, at, p, i) ==> Entered(s.src, s.con, p, s.src.parts[p].rows[i])
  }

  /** ... that was committed since its partition's marked pull. */
  ghost predicate RightSince(s: Sys, at: int) {
    forall p: nat, i: nat :: Before(s, at, p, i) && p < |s.con.parts| && s.con.parts[p].mark.Some?
                             && s.src.parts[p].rows[i].fate.at >= s.con.parts[p].mark.value.at ==>
                               Entered(s.src, s.con, p, s.src.parts[p].rows[i])
  }

  lemma MarksCover(s: Sys, at: int)
    requires Inv(s.src, s.con, s.readings) && NoOlderThan(s.con, at)
    ensures Right(s, at) <==> RightSince(s, at)
  {
    forall p: nat, i: nat | Before(s, at, p, i) && s.src.parts[p].rows[i].fate.at < s.con.parts[p].mark.value.at
      ensures Entered(s.src, s.con, p, s.src.parts[p].rows[i])
    {
      MarkReaches(s.src, s.con, s.readings, p, i);
    }
  }

  /** In every guarded run, a yes is right if and only if it misses nothing committed since the pulls. */
  lemma YesIsRightExactly(start: Sys, run: seq<Step>, at: int)
    requires Installed(start) && From(start, run).Some? && AllGuarded(start, run)
        && NoOlderThan(From(start, run).value.con, at)
    ensures Right(From(start, run).value, at) <==> RightSince(From(start, run).value, at)
  {
    EveryGuardedRun(start, run);
    MarksCover(From(start, run).value, at);
  }

  /** The clock has read no less than at since any partition's marked pull. */
  predicate NotBack(s: Sys, at: int) {
    forall p, c :: 0 <= p < |s.con.parts| && s.con.parts[p].mark.Some?
                   && s.con.parts[p].mark.value.at <= c < |s.readings| ==>
      s.readings[c] >= at
  }

  /** So it is right as long as the clock has read no less than the time asked for since the pulls. */
  lemma YesIsRight(start: Sys, run: seq<Step>, at: int)
    requires Installed(start) && From(start, run).Some? && AllGuarded(start, run)
        && NoOlderThan(From(start, run).value.con, at)
    requires NotBack(From(start, run).value, at)
    ensures Right(From(start, run).value, at)
  {
    YesIsRightExactly(start, run, at);
  }

  // ------------------------------------------------------------------ a yes over time

  predicate OnlySource(steps: seq<Step>) {
    forall k :: 0 <= k < |steps| ==> steps[k].Src?
  }

  lemma SourceKeepsRight(t: Sys, m: Move, at: int)
    requires SourceOk(t.src) && t.src.now == |t.readings| && Right(t, at) && t.clock >= at && CanMove(t.src, m)
    ensures Right(Do(t, Src(m)), at)
  {
    var u := Do(t, Src(m));
    MoveGrows(t.src, m);
    forall p: nat, i: nat | Before(u, at, p, i) ensures Entered(u.src, u.con, p, u.src.parts[p].rows[i]) {
      var r := u.src.parts[p].rows[i];
      assert PartGrows(t.src.parts[p], u.src.parts[p], t.src.now);
      assert r.fate.at != t.src.now;
      assert RowGrows(t.src.parts[p], t.src.parts[p].rows[i], r, t.src.now);
      assert Before(t, at, p, i);
      if Shows(t.src, t.con.proj.rows, r.body.id, r.body.version) {
        ShowsStable(t.src, u.src, t.con.proj.rows, r.body.id, r.body.version);
      }
    }
  }

  lemma {:induction false} SourceRunKeepsRight(s: Sys, steps: seq<Step>, at: int)
    requires SourceOk(s.src) && s.src.now == |s.readings| && Right(s, at) && s.clock >= at && OnlySource(steps)
        && From(s, steps).Some?
    ensures var t := From(s, steps).value;
            SourceOk(t.src) && t.src.now == |t.readings| && t.clock == s.clock && Right(t, at)
    decreases |steps|
  {
    if steps != [] {
      var front, last := steps[..|steps| - 1], steps[|steps| - 1];
      SourceRunKeepsRight(s, front, at);
      MoveOk(From(s, front).value.src, last.move);
      SourceKeepsRight(From(s, front).value, last.move, at);
    }
  }

  /** A new record, inserted and committed: nobody has it. */
  lemma NewRecord(s: Sys, id: nat) returns (a: Source, b: Source)
    requires Unheard(s, 0, id)
    ensures var k := |s.src.parts[0].rows|;
            && CanMove(s.src, Insert(0, Change(id, 1, Full))) && a == Moved(s.src, Insert(0, Change(id, 1, Full)))
            && |a.parts| > 0 && CanMove(a, Commit(0, k)) && b == Moved(a, Commit(0, k)) && |b.parts| > 0
            && k < |b.parts[0].rows| && b.parts[0].rows[k]
                == Row(Change(id, 1, Full), s.src.now, Committed(s.src.now + 1), None)
            && !Shows(b, s.con.proj.rows, id, 1)
  {
    var k := |s.src.parts[0].rows|;
    a := Moved(s.src, Insert(0, Change(id, 1, Full)));
    PartChanged(s.src, Insert(0, Change(id, 1, Full)), 0);
    b := Moved(a, Commit(0, k));
    PartChanged(a, Commit(0, k), 0);
  }

  /** A change nobody has, committed in the instant before at a reading less than at. */
  lemma NewIsMissing(u: Sys, at: int, id: nat, k: nat)
    requires 0 < u.src.now == |u.readings| && u.readings[u.src.now - 1] < at
    requires |u.src.parts| > 0 && k < |u.src.parts[0].rows| && !Shows(u.src, u.con.proj.rows, id, 1)
    requires u.src.parts[0].rows[k].body == Change(id, 1, Full) && u.src.parts[0].rows[k].place.None?
    requires u.src.parts[0].rows[k].fate == Committed(u.src.now - 1)
    ensures !Right(u, at)
  {
    assert Before(u, at, 0, k);
  }

  lemma CommitIsMissing(t: Sys, at: int) returns (id: nat, k: nat)
    requires |t.src.parts| > 0 && t.src.now == |t.readings| && t.clock < at
    ensures CanStep(t, Src(Insert(0, Change(id, 1, Full))))
    ensures var v := Do(t, Src(Insert(0, Change(id, 1, Full))));
            |v.src.parts| > 0 && CanStep(v, Src(Commit(0, k))) && v.con == t.con
    ensures var u := Do(Do(t, Src(Insert(0, Change(id, 1, Full)))), Src(Commit(0, k)));
            u.con == t.con && !Right(u, at)
  {
    id := SomeoneUnheard(t, 0);
    k := |t.src.parts[0].rows|;
    var a, b := NewRecord(t, id);
    var v := Do(t, Src(Insert(0, Change(id, 1, Full))));
    assert v == Sys(a, t.con, t.clock, t.readings + [t.clock]);
    NewIsMissing(Do(v, Src(Commit(0, k))), at, id, k);
  }

  /** An insert and a commit while the clock reads less than at: the change is not in, and nothing else happened. */
  lemma CommitBreaksRight(s: Sys, steps: seq<Step>, t: Sys, at: int)
    returns (more: seq<Step>, u: Sys, id: nat, k: nat)
    requires Path(s, steps, t, {}) && t.src.now == |t.readings| && t.clock < at
    ensures Path(s, more, u, {}) && u.con == t.con && !Right(u, at)
    ensures more == steps + [Src(Insert(0, Change(id, 1, Full)))] + [Src(Commit(0, k))]
  {
    id, k := CommitIsMissing(t, at);
    var v;
    var insert, commit := Src(Insert(0, Change(id, 1, Full))), Src(Commit(0, k));
    assert Orderly(t, insert) && Orderly(Do(t, insert), commit);
    more, v := Longer(s, steps, t, {}, insert);
    more, u := Longer(s, more, v, {}, commit);
  }

  /** A right answer stays right, whatever the source does next, exactly when the clock reads no less than the time
      asked for. */
  lemma RightStaysExactly(s: Sys, at: int)
    requires Tabled(s) && s.src.now == |s.readings| && Right(s, at)
    ensures (forall steps :: OnlySource(steps) && From(s, steps).Some? ==> Right(From(s, steps).value, at))
        <==> s.clock >= at
  {
    if s.clock >= at {
      forall steps | OnlySource(steps) && From(s, steps).Some? ensures Right(From(s, steps).value, at) {
        SourceRunKeepsRight(s, steps, at);
      }
    } else {
      NoPath(s, {});
      var steps, t, id, k := CommitBreaksRight(s, [], s, at);
      assert OnlySource(steps);
    }
  }

  /** A clock that goes back makes any yes wrong, at any time, in three guarded steps. */
  lemma ClockBackBreaksYes(s: Sys, at: int) returns (steps: seq<Step>, t: Sys)
    requires Tabled(s) && s.src.now == |s.readings| && NoOlderThan(s.con, at)
    ensures From(s, steps) == Some(t) && AllGuarded(s, steps)
    ensures exists id, k :: steps == [] + [Tick(at - 1)] + [Src(Insert(0, Change(id, 1, Full)))] + [Src(Commit(0, k))]
    ensures NoOlderThan(t.con, at) && !Right(t, at)
  {
    NoPath(s, {});
    var u, id, k;
    steps, u := Longer(s, [], s, {}, Tick(at - 1));
    steps, t, id, k := CommitBreaksRight(s, steps, u, at);
    PathIsGuarded(s, steps, t);
  }
}
