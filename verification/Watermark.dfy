/**
  The watermark's meaning, over every guarded run: what was committed before the recorded pulls is in
  the projection; a completed alignment left nothing at or below P0 behind; a replaced alignment
  writes nothing; the by-ID loop ends.
 */
module Watermark {
  import opened Base
  import opened Numbering
  import opened SourceLog
  import opened Receive
  import opened Protocol
  import opened Freshness
  import opened ConsumerSteps

  /** Every consumer transaction keeps the invariant. */
  lemma ConsumedKeeps(s: Sys, step: Step)
    requires Inv(s.src, s.con, s.readings) && s.src.now == |s.readings| && CanStep(s, step) && Guarded(s, step)
    ensures Inv(s.src, Consumed(s, step), s.readings + [s.clock])
  {
    var readings := s.readings + [s.clock];
    ReadingKeeps(s.src, s.con, s.readings, s.clock);
    var t := s.(readings := readings);
    match step
    case Src(_) =>
    case Tick(_) =>
    case Record(nonce, epochChanged) => RecordKeeps(s, nonce, epochChanged);
    case SetStatus(status) => StatusKeeps(s.src, s.con, readings, status);
    case Adopt(e) => AdoptKeeps(s.src, s.con, readings, e);
    case Deliver(p, i, quarantine, page) => DeliverKeeps(t, p, i, quarantine, page);
    case StartGen(e, status) => StartKeeps(s.src, s.con, readings, e, status);
    case SaveP0(g, p0) => if g == s.con.proj.gen { SaveP0Keeps(s.src, s.con, readings, g, p0); }
    case Fetch(g, ids, t', byId) => if g == s.con.proj.gen { FetchKeeps(t, g, ids, t', byId); }
    case Emptied(g) => EmptiedKeeps(t, g);
    case Finish(g, status) => if g == s.con.proj.gen { FinishKeeps(s.src, s.con, readings, g, status); }
    case Abandon(g) => AbandonKeeps(s.src, s.con, readings, g);
  }

  lemma StepKeeps(s: Sys, step: Step)
    requires Inv(s.src, s.con, s.readings) && s.src.now == |s.readings| && CanStep(s, step) && Guarded(s, step)
    ensures Inv(Do(s, step).src, Do(s, step).con, Do(s, step).readings) && Do(s, step).src.now == |Do(s, step).readings|
  {
    ConsumedKeeps(s, step);
    SourceMoveKeeps(s.src, if step.Src? then step.move else Pass, Consumed(s, step), s.readings + [s.clock]);
  }

  /** The first state of any run: a stream of some partitions, nothing adopted. */
  predicate Installed(s: Sys) {
    s == Init(|s.src.parts|, s.src.epoch, s.clock)
  }

  lemma InitOk(s: Sys)
    requires Installed(s) && |s.src.parts| > 0
    ensures Inv(s.src, s.con, s.readings) && s.src.now == |s.readings|
  {
    assert !Live(s.con);
    forall p | 0 <= p < |s.src.parts|
      ensures PartOk(s.src.parts[p], 0) && Current(s.src.parts[p], s.src.epoch) && Disciplined(s.src.parts[p].rows)
          && Homed(s.src, p)
    {
      assert s.src.parts[p] == EMPTY_PART;
    }
  }

  lemma GuardedBefore(start: Sys, run: seq<Step>, k: nat)
    requires k < |run| && AllGuarded(start, run)
    ensures AllGuarded(start, run[..k]) && (From(start, run[..k]).Some? ==>
        Guarded(From(start, run[..k]).value, run[k]))
  {
    forall j | 0 <= j < k && From(start, run[..k][..j]).Some?
        ensures Guarded(From(start, run[..k][..j]).value, run[..k][j]) {
      assert run[..k][..j] == run[..j];
    }
  }

  lemma {:induction false} EveryGuardedRun(start: Sys, run: seq<Step>)
    requires Installed(start) && From(start, run).Some? && AllGuarded(start, run)
    ensures var s := From(start, run).value; Inv(s.src, s.con, s.readings) && s.src.now == |s.readings|
    decreases |run|
  {
    if run == [] {
      InitOk(start);
    } else {
      var k := |run| - 1;
      GuardedBefore(start, run, k);
      EveryGuardedRun(start, run[..k]);
      StepKeeps(From(start, run[..k]).value, run[k]);
    }
  }

  // ------------------------------------------------------------------ what a mark means

  /** The change is in the projection, or its subjects are quarantined. */
  ghost predicate Entered(src: Source, con: Consumer, p: nat, r: Row)
    requires |src.parts| > 0 && r.body.Change?
  {
    (r.place.Some? && (p, r.place.value) in con.quarantined) || Shows(src, con.proj.rows, r.body.id, r.body.version)
  }

  /** Every row committed before the marked pull was recorded has a position within an aligned source's contiguous
      range. */
  lemma MarkReaches(src: Source, con: Consumer, readings: seq<int>, p: nat, i: nat)
    requires Inv(src, con, readings) && con.proj.status == Aligned && p < |con.parts| && con.parts[p].mark.Some?
        && i < |src.parts[p].rows|
    requires src.parts[p].rows[i].fate.Committed? && src.parts[p].rows[i].fate.at < con.parts[p].mark.value.at
    ensures Live(con) && Within(src.parts[p].rows[i], Reach(con, p))
    ensures src.parts[p].rows[i].body.Change? ==> Entered(src, con, p, src.parts[p].rows[i])
  {
    var m := con.parts[p].mark.value;
    assert MarkOk(src, con, readings, p, m);
    var x: nat :| Backs(src.parts[p].rows, x, m, Reach(con, p));
    assert Precedes(src.parts[p].rows, i, x);
    assert PartOk(src.parts[p], src.now);
    assert Claim(src, con, p);
  }

  /** The consumer's answer to "is the watermark no older than at". */
  predicate NoOlderThan(con: Consumer, at: int) {
    && con.proj.status == Aligned && |con.parts| > 0
    && forall p :: 0 <= p < |con.parts| ==> con.parts[p].mark.Some? && con.parts[p].mark.value.mp >= at
  }

  /** The clock went back: at instant c it read less than at the earlier instant from. */
  predicate WentBack(readings: seq<int>, from: nat, c: nat) {
    from <= c < |readings| && readings[c] < readings[from]
  }

  /**
    Watermark soundness. In every guarded run, a yes of NoOlderThan(at) means that each change the
    source committed while the consumer's clock read less than `at` is in the projection or
    quarantined, unless the clock had gone back below a mark by the time of the commit.
   */
  lemma YesMeansApplied(start: Sys, run: seq<Step>, at: int, p: nat, i: nat)
    requires Installed(start) && From(start, run).Some? && AllGuarded(start, run)
    requires var s := From(start, run).value;
             && NoOlderThan(s.con, at) && p < |s.src.parts| && p < |s.con.parts| && i < |s.src.parts[p].rows|
             && s.src.parts[p].rows[i].body.Change? && s.src.parts[p].rows[i].fate.Committed?
             && s.src.parts[p].rows[i].fate.at < |s.readings| && s.readings[s.src.parts[p].rows[i].fate.at] < at
    ensures var s := From(start, run).value;
            || Entered(s.src, s.con, p, s.src.parts[p].rows[i])
            || WentBack(s.readings, s.con.parts[p].mark.value.at, s.src.parts[p].rows[i].fate.at)
  {
    EveryGuardedRun(start, run);
    var s := From(start, run).value;
    var m := s.con.parts[p].mark.value;
    assert MarkOk(s.src, s.con, s.readings, p, m);
    if s.src.parts[p].rows[i].fate.at < m.at {
      MarkReaches(s.src, s.con, s.readings, p, i);
    }
  }

  predicate Steady(readings: seq<int>) {
    forall i, j :: 0 <= i <= j < |readings| ==> readings[i] <= readings[j]
  }

  /** On a clock that never goes back, no change committed before `at` is missing. */
  lemma FreshOnASteadyClock(start: Sys, run: seq<Step>, at: int)
    requires Installed(start) && From(start, run).Some? && AllGuarded(start, run)
    requires var s := From(start, run).value; NoOlderThan(s.con, at) && Steady(s.readings)
    ensures var s := From(start, run).value;
            forall p, i :: 0 <= p < |s.src.parts| && 0 <= i < |s.src.parts[p].rows|
                           && s.src.parts[p].rows[i].body.Change? && s.src.parts[p].rows[i].fate.Committed?
                           && s.src.parts[p].rows[i].fate.at < |s.readings|
                           && s.readings[s.src.parts[p].rows[i].fate.at] < at ==>
              Entered(s.src, s.con, p, s.src.parts[p].rows[i])
  {
    EveryGuardedRun(start, run);
    var s := From(start, run).value;
    forall p, i | 0 <= p < |s.src.parts| && 0 <= i < |s.src.parts[p].rows| && s.src.parts[p].rows[i].body.Change?
                  && s.src.parts[p].rows[i].fate.Committed? && s.src.parts[p].rows[i].fate.at < |s.readings|
                  && s.readings[s.src.parts[p].rows[i].fate.at] < at
      ensures Entered(s.src, s.con, p, s.src.parts[p].rows[i])
    {
      YesMeansApplied(start, run, at, p, i);
      assert MarkOk(s.src, s.con, s.readings, p, s.con.parts[p].mark.value);
    }
  }

  /** What every run keeps, guarded or not: each stored row says what the source once committed. */
  ghost predicate Tabled(s: Sys) {
    SourceOk(s.src) && Tables(s.src, s.con)
  }

  ghost predicate Tables(src: Source, con: Consumer) {
    && |con.parts| == |src.parts| > 0 && (con.proj.adopted.Some? ==> con.proj.adopted.value.impl == IMPL)
    && TableOk(src, con.proj.rows, con.proj.gen)
  }

  lemma DeliverTables(src: Source, con: Consumer, p: nat, i: nat, quarantine: bool, page: bool)
    requires SourceOk(src) && Tables(src, con) && p < |src.parts| && i < |src.parts[p].rows|
        && src.parts[p].rows[i].place.Some?
    ensures Tables(src, Handle(con, p, src.parts[p].rows[i], quarantine, page))
  {
    if Admitted(con, src.parts[p].rows[i]) {
      TakeTables(src, con, p, i, quarantine);
    }
  }

  lemma TakeTables(src: Source, con: Consumer, p: nat, i: nat, quarantine: bool)
    requires SourceOk(src) && Tables(src, con) && p < |src.parts| && i < |src.parts[p].rows|
        && src.parts[p].rows[i].place.Some?
    requires Admitted(con, src.parts[p].rows[i])
    ensures var next := TakeIn(con, p, src.parts[p].rows[i], quarantine); Tables(src, next) && next.parts == con.parts
  {
    if !quarantine && src.parts[p].rows[i].body.Change? {
      TakenRows(src, con, p, i);
    }
  }

  lemma StartTables(src: Source, con: Consumer, e: Epoch, status: Status)
    requires Tables(src, con)
    ensures Tables(src, DoStart(con, e, status))
  {
    forall id | id in con.proj.rows ensures RecOk(src, con.proj.gen + 1, id, con.proj.rows[id]) {
      assert RecOk(src, con.proj.gen, id, con.proj.rows[id]);
    }
  }

  lemma ConsumedTables(s: Sys, step: Step)
    requires Tabled(s) && CanStep(s, step)
    ensures Tables(s.src, Consumed(s, step))
  {
    var src, con := s.src, s.con;
    match step
    case Deliver(p, i, quarantine, page) => DeliverTables(src, con, p, i, quarantine, page);
    case StartGen(e, status) => StartTables(src, con, e, status);
    case Fetch(g, ids, t, byId) => if g == con.proj.gen { FetchTable(src, con.proj.rows, con.proj.gen, con.runs[g], g,
        ids, t, byId); }
    case _ =>
  }

  lemma StepTabled(s: Sys, step: Step)
    requires Tabled(s) && CanStep(s, step)
    ensures Tabled(Do(s, step))
  {
    var m, c, t := if step.Src? then step.move else Pass, Consumed(s, step), Do(s, step);
    ConsumedTables(s, step);
    MoveOk(s.src, m);
    MoveGrows(s.src, m);
    TableGrows(s.src, t.src, c.proj.rows, c.proj.gen);
  }

  lemma {:induction false} EveryRunTabled(start: Sys, run: seq<Step>)
    requires Installed(start) && From(start, run).Some?
    ensures Tabled(From(start, run).value)
    decreases |run|
  {
    if run == [] {
      InitOk(start);
    } else {
      EveryRunTabled(start, run[..|run| - 1]);
      StepTabled(From(start, run[..|run| - 1]).value, run[|run| - 1]);
    }
  }

  /** In every run, a complete row is the record whole at its version, and a tombstone a deletion or a purge. */
  lemma RowsAreTrue(start: Sys, run: seq<Step>, id: nat)
    requires Installed(start) && From(start, run).Some? && id in From(start, run).value.con.proj.rows
    ensures var s := From(start, run).value;
            |s.src.parts| > 0 && WellKept(s.con.proj.rows[id]) && Truthful(id, s.con.proj.rows[id])
                && Sourced(s.src, id, s.con.proj.rows[id])
  {
    EveryRunTabled(start, run);
    var s := From(start, run).value;
    assert RecOk(s.src, s.con.proj.gen, id, s.con.proj.rows[id]);
  }

  // ------------------------------------------------------------------ alignment

  /** A change within the completed generation's P0 is shown when it completes. */
  lemma FinishedShows(src: Source, con: Consumer, g: nat, p: nat, i: nat)
    requires SourceOk(src) && |src.parts| == |con.parts| && g in con.runs && con.runs[g].since.Some?
        && con.runs[g].emptied
    requires RunOk(src, con, con.runs[g], g)
    requires p < |src.parts| && i < |src.parts[p].rows| && src.parts[p].rows[i].body.Change?
    requires Within(src.parts[p].rows[i], Place(con.runs[g].epoch, con.runs[g].p0[p]))
    ensures Shows(src, con.proj.rows, src.parts[p].rows[i].body.id, src.parts[p].rows[i].body.version)
  {
    var r, row := con.runs[g], src.parts[p].rows[i];
    assert Based(src, r, p) && SpannedBy(r, row) && Homed(src, p);
    if row.body.id in con.proj.rows {
      assert RowAligned(src, r, row.body.id, con.proj.rows[row.body.id]);
    } else {
      assert AbsentAligned(src, r, row.body.id);
    }
  }

  lemma FinishStepShows(s: Sys, g: nat, status: Status, p: nat, i: nat)
    requires Inv(s.src, s.con, s.readings) && CanStep(s, Finish(g, status)) && g == s.con.proj.gen && Underway(s.con)
    requires var t := Do(s, Finish(g, status));
             && p < |t.src.parts| && i < |t.src.parts[p].rows| && t.src.parts[p].rows[i].body.Change?
             && p < |t.con.parts| && Live(t.con) && Within(t.src.parts[p].rows[i], Reach(t.con, p))
    ensures var t := Do(s, Finish(g, status));
            Shows(t.src, t.con.proj.rows, t.src.parts[p].rows[i].body.id, t.src.parts[p].rows[i].body.version)
  {
    var t := Do(s, Finish(g, status));
    MoveGrows(s.src, Pass);
    assert t.src.parts == s.src.parts;
    assert CurrentRunOk(s.src, s.con);
    FinishedShows(s.src, s.con, g, p, i);
    var row := s.src.parts[p].rows[i];
    ShowsStable(s.src, t.src, s.con.proj.rows, row.body.id, row.body.version);
  }

  /**
    Alignment correctness. However stream rows, pages and by-ID reads interleaved, the completion
    transaction of the current generation leaves no record behind a change at or below its partition's P0.
   */
  lemma AlignmentIsComplete(start: Sys, run: seq<Step>, g: nat, status: Status, p: nat, i: nat)
    requires Installed(start) && From(start, run + [Finish(g, status)]).Some?
    requires AllGuarded(start, run + [Finish(g, status)])
    requires From(start, run).Some? && g == From(start, run).value.con.proj.gen
        && (status == Aligned || Underway(From(start, run).value.con))
    requires var s := From(start, run + [Finish(g, status)]).value;
             && p < |s.src.parts| && i < |s.src.parts[p].rows| && s.src.parts[p].rows[i].body.Change?
             && p < |s.con.parts| && Live(s.con) && Within(s.src.parts[p].rows[i], Reach(s.con, p))
    ensures var s := From(start, run + [Finish(g, status)]).value;
            Shows(s.src, s.con.proj.rows, s.src.parts[p].rows[i].body.id, s.src.parts[p].rows[i].body.version)
  {
    var all := run + [Finish(g, status)];
    assert all[..|run|] == run;
    GuardedBefore(start, all, |run|);
    EveryGuardedRun(start, run);
    FinishStepShows(From(start, run).value, g, status, p, i);
  }

  predicate ByRun(step: Step, g: nat) {
    match step
    case SaveP0(h, _) => h == g
    case Fetch(h, _, _, _) => h == g
    case Finish(h, _) => h == g
    case _ => false
  }

  /** Once a newer generation began, nothing the older alignment still does changes the consumer, ever. */
  lemma {:induction false} ReplacedWritesNothing(s: Sys, steps: seq<Step>, g: nat, step: Step)
    requires |s.src.parts| > 0 && g < s.con.proj.gen && From(s, steps).Some?
    requires ByRun(step, g) && CanStep(From(s, steps).value, step)
    ensures Do(From(s, steps).value, step).con == From(s, steps).value.con
  {
    GenerationsOnlyGrow(s, steps);
  }

  lemma GenerationGrows(s: Sys, step: Step)
    requires |s.src.parts| > 0 && CanStep(s, step)
    ensures Do(s, step).con.proj.gen >= s.con.proj.gen
  {
  }

  lemma {:induction false} GenerationsOnlyGrow(s: Sys, steps: seq<Step>)
    requires |s.src.parts| > 0 && From(s, steps).Some?
    ensures From(s, steps).value.con.proj.gen >= s.con.proj.gen
    decreases |steps|
  {
    if steps != [] {
      GenerationsOnlyGrow(s, steps[..|steps| - 1]);
      GenerationGrows(From(s, steps[..|steps| - 1]).value, steps[|steps| - 1]);
    }
  }

  /** The rows the by-ID loop still has to read. */
  function Outside(con: Consumer, g: nat): set<nat> {
    set id | id in con.proj.rows && con.proj.rows[id].gen != Some(g)
  }

  lemma DeliverOutside(s: Sys, p: nat, i: nat, quarantine: bool, page: bool, g: nat)
    requires Inv(s.src, s.con, s.readings) && CanStep(s, Deliver(p, i, quarantine, page)) && g == s.con.proj.gen
        && g in s.con.runs && s.con.runs[g].since.Some?
    ensures Outside(Handle(s.con, p, s.src.parts[p].rows[i], quarantine, page), g) <= Outside(s.con, g)
  {
    assert RunShape(s.con, s.con.runs[g]);
    var r := s.src.parts[p].rows[i];
    if Handle(s.con, p, r, quarantine, page) != s.con && !quarantine && r.body.Change? {
      assert s.con.parts[p].pos.None?;
      TakenRows(s.src, s.con, p, i);
      var next := TakeIn(s.con, p, r, false);
      forall id | id in Outside(next, g) ensures id in Outside(s.con, g) {
        assert Replaced(s.con, next, id) || next.proj.rows[id] == s.con.proj.rows[id];
      }
    }
  }

  lemma FetchOutside(s: Sys, g: nat, ids: set<nat>, t: nat, byId: bool)
    requires |s.src.parts| > 0 && g in s.con.runs
    ensures Outside(DoFetch(s, g, ids, t, byId), g) <= Outside(s.con, g)
  {
    forall id | id in Outside(DoFetch(s, g, ids, t, byId), g) ensures id in Outside(s.con, g) {
      PutAllAt(s.con.proj.rows, s.src, s.con.runs[g], g, ids, t, byId, id);
    }
  }

  /** While a generation re-fetches, nothing puts a row outside it ... */
  lemma OutsideNeverGrows(s: Sys, step: Step, g: nat)
    requires Inv(s.src, s.con, s.readings) && CanStep(s, step) && g == s.con.proj.gen && g in s.con.runs
        && s.con.runs[g].since.Some?
    requires !(step.Finish? && step.g == g) && !step.StartGen?
    ensures Outside(Do(s, step).con, g) <= Outside(s.con, g)
  {
    match step
    case Deliver(p, i, quarantine, page) => DeliverOutside(s, p, i, quarantine, page, g);
    case Fetch(h, ids, t, byId) => if h == g { FetchOutside(s, g, ids, t, byId); }
    case _ =>
  }

  /** ... and a by-ID batch that the source answered takes its rows out of the rest: the loop ends. */
  lemma ByIdBatchShrinks(s: Sys, ids: set<nat>, t: nat, g: nat, id: nat)
    requires Inv(s.src, s.con, s.readings) && CanStep(s, Fetch(g, ids, t, true)) && g == s.con.proj.gen
    requires id in ids && id in Outside(s.con, g) && Read(s.src, id, t) != NotThere
    ensures Outside(Do(s, Fetch(g, ids, t, true)).con, g) < Outside(s.con, g)
  {
    BatchOutside(s, ids, t, g, id);
  }

  lemma BatchOutside(s: Sys, ids: set<nat>, t: nat, g: nat, id: nat)
    requires |s.src.parts| > 0 && g in s.con.runs && id in ids && id in Outside(s.con, g)
        && Read(s.src, id, t) != NotThere
    ensures Outside(DoFetch(s, g, ids, t, true), g) < Outside(s.con, g)
  {
    FetchOutside(s, g, ids, t, true);
    PutAllAt(s.con.proj.rows, s.src, s.con.runs[g], g, ids, t, true, id);
    assert id !in Outside(DoFetch(s, g, ids, t, true), g);
  }
}
