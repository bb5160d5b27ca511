/**
  The alignment state table of a watermark source (projection/decide.go): which inputs move it between
  aligned, aligning, stalled and blocked, and the only way back to aligned after a rollback.
 */
module SourceStates {
  import opened Base
  import opened Receive

  /** What the consumer keeps of a source's alignment state. */
  datatype SourceState = SourceState(state: Status, confirmed: bool, rollback: bool, stalledGen: Option<int>,
                                     blockedGen: Option<int>, prior: Option<Status>)

  datatype EventKind = FirstContact | AdoptEpoch | BeyondRetention | Rollback | Foreign | OperatorConfirms
                     | PrimaryResponse(matches: bool, rowCheckFailed: bool) | AlignmentDone | EnvironmentCopy

  /** An input and the recovery generation it declares. */
  datatype SourceEvent = SourceEvent(kind: EventKind, gen: int)

  datatype Act = Refetch | KeepRefetching | WatermarkFromEchoes | Alert | AlertAndHold | Hold | RecordConfirmation
               | RowCheckThenRefetch | ClearAndRefetch

  predicate Beyond(gen: int, p: Option<int>) {
    p.None? || gen > p.value
  }

  /** The table; the first matching row wins. */
  function NextState(cur: SourceState, ev: SourceEvent): (SourceState, Act) {
    var gen := ev.gen;
    if ev.kind == EnvironmentCopy then (cur.(state := Aligning, rollback := false, confirmed := false), ClearAndRefetch)
    else if ev.kind == Foreign && cur.state == Blocked then (cur, Alert)
    else if ev.kind == Foreign then (cur.(state := Blocked, prior := Some(cur.state), blockedGen := Some(gen)),
        AlertAndHold)
    else if cur.state == Blocked then
      if ev.kind == OperatorConfirms then (cur.(confirmed := true), RecordConfirmation)
      else if !cur.confirmed || !ev.kind.PrimaryResponse? then (cur, Hold)
      else if !ev.kind.matches then (cur.(confirmed := false), Alert)
      else if cur.prior == Some(Stalled) && !Beyond(gen, cur.stalledGen)
          then (cur.(state := Stalled, confirmed := false), Refetch)
      else if ev.kind.rowCheckFailed then (cur.(state := Stalled, confirmed := false, rollback := true, stalledGen :=
          Some(gen)), Refetch)
      else (cur.(state := Aligning, confirmed := false), RowCheckThenRefetch)
    else if ev.kind == Rollback then (cur.(state := Stalled, rollback := true, stalledGen := Some(gen)), Refetch)
    else if cur.state == Stalled && ev.kind == AdoptEpoch
        && Beyond(gen, cur.stalledGen) then (cur.(state := Aligning), Refetch)
    else if cur.state == Stalled then (cur, KeepRefetching)
    else if ev.kind == AdoptEpoch || ev.kind == FirstContact
        || ev.kind == BeyondRetention then (cur.(state := Aligning), Refetch)
    else if cur.state == Aligning && ev.kind == AlignmentDone then
      if cur.rollback && !Beyond(gen, cur.stalledGen) then (cur.(state := Stalled), Alert)
      else (cur.(state := Aligned, rollback := false), WatermarkFromEchoes)
    else (cur, Alert)
  }

  /** The state after the first k inputs of a run. */
  function StateAt(start: SourceState, run: seq<SourceEvent>, k: nat): SourceState
    requires k <= |run|
  {
    if k == 0 then start else NextState(StateAt(start, run, k - 1), run[k - 1]).0
  }

  /** The input is recorded as a rollback: a rollback outside blocked, or a failed row check of a confirmed correction.
      */
  predicate Records(s: SourceState, ev: SourceEvent) {
    || (ev.kind == Rollback && s.state != Blocked)
    || (s.state == Blocked && s.confirmed && ev.kind.PrimaryResponse? && ev.kind.matches && ev.kind.rowCheckFailed
        && !(s.prior == Some(Stalled) && !Beyond(ev.gen, s.stalledGen)))
  }

  /** The completed alignment that ends a rollback recorded at generation gen. */
  predicate Ends(start: SourceState, run: seq<SourceEvent>, k: nat, gen: int)
    requires k < |run|
  {
    run[k].kind == AlignmentDone && run[k].gen > gen && StateAt(start, run, k).state == Aligning
        && StateAt(start, run, k + 1).state == Aligned
  }

  /** No input in [from, to) is a recorded rollback or an environment copy. */
  predicate Undisturbed(start: SourceState, run: seq<SourceEvent>, from: nat, to: nat)
    requires from <= to <= |run|
  {
    forall k :: from <= k < to ==> !Records(StateAt(start, run, k), run[k]) && run[k].kind != EnvironmentCopy
  }

  /** A rollback at generation gen is recorded, and the source is not aligned since. */
  predicate Held(s: SourceState, gen: int) {
    s.state != Aligned && s.rollback && s.stalledGen == Some(gen)
  }

  lemma RecordHolds(s: SourceState, ev: SourceEvent)
    requires Records(s, ev)
    ensures Held(NextState(s, ev).0, ev.gen) && NextState(s, ev).0.state == Stalled
  {
  }

  lemma StepHolds(s: SourceState, ev: SourceEvent, gen: int)
    requires Held(s, gen) && !Records(s, ev) && ev.kind != EnvironmentCopy
    requires !(ev.kind == AlignmentDone && ev.gen > gen && s.state == Aligning)
    ensures Held(NextState(s, ev).0, gen)
  {
  }

  lemma {:induction false} RollbackHolds(start: SourceState, run: seq<SourceEvent>, i: nat, j: nat)
    requires i < j <= |run| && Records(StateAt(start, run, i), run[i]) && Undisturbed(start, run, i + 1, j)
    requires forall k :: i < k < j ==> !Ends(start, run, k, run[i].gen)
    ensures Held(StateAt(start, run, j), run[i].gen)
    decreases j
  {
    var s := StateAt(start, run, j - 1);
    assert StateAt(start, run, j) == NextState(s, run[j - 1]).0;
    if j == i + 1 {
      RecordHolds(s, run[i]);
    } else {
      RollbackHolds(start, run, i, j - 1);
      assert !Ends(start, run, j - 1, run[i].gen);
      if !(run[j - 1].kind == AlignmentDone && run[j - 1].gen > run[i].gen && s.state == Aligning) {
        StepHolds(s, run[j - 1], run[i].gen);
      } else {
        CompletionAligns(s, run[j - 1], run[i].gen);
      }
    }
  }

  lemma CompletionAligns(s: SourceState, ev: SourceEvent, gen: int)
    requires Held(s, gen) && s.state == Aligning && ev.kind == AlignmentDone && ev.gen > gen
    ensures NextState(s, ev).0.state == Aligned && !Records(s, ev)
  {
  }

  lemma AdoptionAligns(s: SourceState, ev: SourceEvent, gen: int)
    requires Held(s, gen) && s.state == Stalled && ev.kind == AdoptEpoch && ev.gen > gen
    ensures NextState(s, ev).0 == s.(state := Aligning) && !Records(s, ev)
  {
  }

  /**
    Rollback exit. On every run of the table, whatever blocked, confirmed and foreign detours it
    takes, a source that is aligned again after a recorded rollback got there through the completion
    of an alignment whose generation exceeds the one recorded at the latest rollback.
   */
  lemma RollbackExit(start: SourceState, run: seq<SourceEvent>, i: nat, j: nat)
    requires i < j <= |run| && Records(StateAt(start, run, i), run[i]) && Undisturbed(start, run, i + 1, j)
    requires StateAt(start, run, j).state == Aligned
    ensures exists k :: i < k < j && Ends(start, run, k, run[i].gen)
  {
    if forall k :: i < k < j ==> !Ends(start, run, k, run[i].gen) {
      RollbackHolds(start, run, i, j);
    }
  }

  /** The exit is possible: from any recorded rollback, adopting and completing a larger generation aligns the source.
      */
  lemma RollbackCanExit(s: SourceState, gen: int, larger: int)
    requires s.state != Blocked && larger > gen
    ensures StateAt(s, [SourceEvent(Rollback, gen), SourceEvent(AdoptEpoch, larger),
        SourceEvent(AlignmentDone, larger)], 3).state == Aligned
  {
    var run := [SourceEvent(Rollback, gen), SourceEvent(AdoptEpoch, larger), SourceEvent(AlignmentDone, larger)];
    assert StateAt(s, run, 1).state == Stalled && StateAt(s, run, 1).stalledGen == Some(gen);
    assert StateAt(s, run, 2).state == Aligning;
  }

  /** Input h was recorded as a rollback. */
  predicate Recorded(start: SourceState, run: seq<SourceEvent>, h: nat) {
    h < |run| && Records(StateAt(start, run, h), run[h])
  }

  lemma {:induction false} SameStates(start: SourceState, run: seq<SourceEvent>, more: seq<SourceEvent>, k: nat)
    requires k <= |run| && run <= more
    ensures StateAt(start, more, k) == StateAt(start, run, k)
    decreases k
  {
    if k > 0 {
      SameStates(start, run, more, k - 1);
    }
  }

  lemma SameRecorded(start: SourceState, run: seq<SourceEvent>, more: seq<SourceEvent>)
    requires run <= more
    ensures forall h: nat :: h < |run| ==> (Recorded(start, more, h) <==> Recorded(start, run, h))
  {
    forall h: nat | h < |run| ensures Recorded(start, more, h) <==> Recorded(start, run, h) {
      SameStates(start, run, more, h);
    }
  }

  /** Generation gen exceeds every rollback recorded among the first n inputs. */
  predicate ExceedsAll(start: SourceState, run: seq<SourceEvent>, n: nat, gen: int) {
    forall h: nat :: h < n && Recorded(start, run, h) ==> run[h].gen < gen
  }

  /** No rollback recorded before the last input was of a larger generation. */
  predicate LatestIsLargest(start: SourceState, run: seq<SourceEvent>) {
    forall h: nat :: h < |run| - 1 && Recorded(start, run, h) ==> run[h].gen <= run[|run| - 1].gen
  }

  /** Between the first n inputs and j, an alignment of a generation beyond all recorded ones completed. */
  ghost predicate Exceeds(start: SourceState, run: seq<SourceEvent>, n: nat, j: nat) {
    exists k: nat :: n <= k < j <= |run| && run[k].kind == AlignmentDone && ExceedsAll(start, run, n, run[k].gen)
  }

  /** The source, whatever inputs follow those of run, is aligned again. */
  predicate Exit(start: SourceState, run: seq<SourceEvent>, more: seq<SourceEvent>, j: nat) {
    run < more && |run| < j <= |more| && Undisturbed(start, more, |run|, j) && StateAt(start, more, j).state == Aligned
  }

  /** Every way back to aligned completes an alignment of a generation beyond all that were recorded. */
  ghost predicate EveryExitExceeds(start: SourceState, run: seq<SourceEvent>) {
    forall more, j: nat :: Exit(start, run, more, j) ==> Exceeds(start, more, |run|, j)
  }

  lemma ExitEnds(start: SourceState, run: seq<SourceEvent>, more: seq<SourceEvent>, j: nat) returns (k: nat)
    requires run != [] && Recorded(start, run, |run| - 1) && Exit(start, run, more, j)
    ensures |run| <= k < j && more[k].kind == AlignmentDone && more[k].gen > run[|run| - 1].gen
  {
    SameStates(start, run, more, |run| - 1);
    RollbackExit(start, more, |run| - 1, j);
    k :| |run| - 1 < k < j && Ends(start, more, k, more[|run| - 1].gen);
  }

  lemma BeyondTheLatest(start: SourceState, run: seq<SourceEvent>, more: seq<SourceEvent>, gen: int)
    requires run != [] && run <= more && LatestIsLargest(start, run) && gen > run[|run| - 1].gen
    ensures ExceedsAll(start, more, |run|, gen)
  {
    forall h: nat | h < |run| && Recorded(start, more, h) ensures more[h].gen < gen {
      SameStates(start, run, more, h);
      assert h < |run| - 1 ==> Recorded(start, run, h);
    }
  }

  lemma RisingExceeds(start: SourceState, run: seq<SourceEvent>, more: seq<SourceEvent>, j: nat)
    requires run != [] && Recorded(start, run, |run| - 1) && LatestIsLargest(start, run) && Exit(start, run, more, j)
    ensures Exceeds(start, more, |run|, j)
  {
    var k := ExitEnds(start, run, more, j);
    BeyondTheLatest(start, run, more, more[k].gen);
  }

  /** After a recorded rollback, adopting and completing the next generation aligns the source. */
  lemma NextGenerationAligns(start: SourceState, run: seq<SourceEvent>) returns (more: seq<SourceEvent>)
    requires run != [] && Recorded(start, run, |run| - 1)
    ensures var next := run[|run| - 1].gen + 1;
            more == run + [SourceEvent(AdoptEpoch, next), SourceEvent(AlignmentDone, next)]
    ensures Exit(start, run, more, |more|)
  {
    var n, gen := |run|, run[|run| - 1].gen;
    more := run + [SourceEvent(AdoptEpoch, gen + 1), SourceEvent(AlignmentDone, gen + 1)];
    SameStates(start, run, more, n);
    RecordHolds(StateAt(start, run, n - 1), run[n - 1]);
    TwoMore(start, more, n, gen);
  }

  lemma TwoMore(start: SourceState, more: seq<SourceEvent>, n: nat, gen: int)
    requires |more| == n + 2 && more[n] == SourceEvent(AdoptEpoch, gen + 1)
        && more[n + 1] == SourceEvent(AlignmentDone, gen + 1)
    requires Held(StateAt(start, more, n), gen) && StateAt(start, more, n).state == Stalled
    ensures Undisturbed(start, more, n, n + 2) && StateAt(start, more, n + 2).state == Aligned
  {
    var s, t := StateAt(start, more, n), StateAt(start, more, n + 1);
    AdoptionAligns(s, more[n], gen);
    CompletionAligns(t, more[n + 1], gen);
    forall k | n <= k < n + 2 ensures !Records(StateAt(start, more, k), more[k]) && more[k].kind != EnvironmentCopy {
      assert k == n || k == n + 1;
    }
  }

  /** That exit does not exceed a larger generation recorded before. */
  lemma LargerForgotten(start: SourceState, run: seq<SourceEvent>, h: nat)
    requires h < |run| - 1 && Recorded(start, run, |run| - 1) && Recorded(start, run, h)
        && run[h].gen > run[|run| - 1].gen
    ensures !EveryExitExceeds(start, run)
  {
    var more := NextGenerationAligns(start, run);
    SameRecorded(start, run, more);
    forall k: nat | |run| <= k < |more| ensures !ExceedsAll(start, more, |run|, more[k].gen) {
      assert Recorded(start, more, h);
    }
    assert Exit(start, run, more, |more|) && !Exceeds(start, more, |run|, |more|);
  }

  /**
    The stronger reading, "exceeds every rollback's generation", has its exact condition: the latest
    rollback overwrites the recorded generation, so every way back exceeds all of them if and only if
    none recorded before it was larger.
   */
  lemma ExitExceedsAllExactly(start: SourceState, run: seq<SourceEvent>)
    requires run != [] && Recorded(start, run, |run| - 1)
    ensures EveryExitExceeds(start, run) <==> LatestIsLargest(start, run)
  {
    if LatestIsLargest(start, run) {
      forall more, j: nat | Exit(start, run, more, j) ensures Exceeds(start, more, |run|, j) {
        RisingExceeds(start, run, more, j);
      }
    } else {
      var h: nat :| h < |run| - 1 && Recorded(start, run, h) && run[h].gen > run[|run| - 1].gen;
      LargerForgotten(start, run, h);
    }
  }
}
