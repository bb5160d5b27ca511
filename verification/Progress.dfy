/**
  Where a redelivery starts (events/progress.go, events/redelivery.go): the cut of a subscription's
  handlings below which every position has an outcome, and the least progress of a stream's readers.
 */
module Progress {
  import opened Base
  import opened Numbering

  /** One partition of a source stream, within one implementation instance. */
  datatype SourceKey = SourceKey(component: string, impl: string, stream: string, partition: int)

  /** An inbox row: its source partition, its position (None: kept before positions were) and when it was handled. */
  datatype Handled = Handled(key: SourceKey, pos: Option<Place>, at: int)

  lemma LessIsTotal(a: Place, b: Place)
    ensures !(Less(a, b) && Less(b, a)) && (a == b || Less(a, b) || Less(b, a))
  {
  }

  // ------------------------------------------------------------------ the cut

  /** A time in the run that starts at s: from s until the next start. */
  predicate InRun(runs: seq<int>, s: int, t: int) {
    s <= t && forall i :: 0 <= i < |runs| && runs[i] > s ==> t < runs[i]
  }

  /** The run's last handling. */
  predicate LastIn(runs: seq<int>, times: seq<int>, s: int, last: int) {
    last in times && InRun(runs, s, last) && forall i :: 0 <= i < |times| && InRun(runs, s, times[i]) ==>
        times[i] <= last
  }

  /** The run lasted the lifetime from its start to its last handling. */
  predicate Lasted(runs: seq<int>, times: seq<int>, lifetime: int, s: int, last: int) {
    s in runs && LastIn(runs, times, s, last) && s <= last - lifetime
  }

  /** The latest run that lasted the lifetime. */
  ghost predicate LatestLasted(runs: seq<int>, times: seq<int>, lifetime: int, s: int, last: int) {
    Lasted(runs, times, lifetime, s, last) && forall s2, last2 :: Lasted(runs, times, lifetime, s2, last2) ==> s2 <= s
  }

  /** The cut: the last handling of the latest run that lasted the lifetime, less the lifetime. */
  ghost predicate IsCut(runs: seq<int>, times: seq<int>, lifetime: int, cut: Option<int>) {
    if cut.None? then forall s, last :: !Lasted(runs, times, lifetime, s, last)
    else exists s, last :: LatestLasted(runs, times, lifetime, s, last) && cut.value == last - lifetime
  }

  predicate Ascends(a: seq<int>) { forall i, j :: 0 <= i < j < |a| ==> a[i] <= a[j] }

  method InsertInto(b: seq<int>, x: int) returns (c: seq<int>)
    requires Ascends(b)
    ensures |c| == |b| + 1 && Ascends(c) && forall y :: y in c <==> y in b || y == x
  {
    var j := 0;
    while j < |b| && b[j] <= x
      invariant 0 <= j <= |b| && forall i :: 0 <= i < j ==> b[i] <= x
    {
      j := j + 1;
    }
    c := b[..j] + [x] + b[j..];
    InsertAscends(b, j, x);
  }

  lemma InsertAscends(b: seq<int>, j: nat, x: int)
    requires Ascends(b) && j <= |b| && (forall i :: 0 <= i < j ==> b[i] <= x) && (j < |b| ==> b[j] > x)
    ensures var c := b[..j] + [x] + b[j..]; Ascends(c) && forall y :: y in c <==> y in b || y == x
  {
    var c := b[..j] + [x] + b[j..];
    assert b == b[..j] + b[j..];
    assert forall i :: 0 <= i < |c| ==> c[i] == if i < j then b[i] else if i == j then x else b[i - 1];
  }

  method Sorted(a: seq<int>) returns (b: seq<int>)
    ensures |b| == |a| && Ascends(b) && forall x :: x in b <==> x in a
  {
    b := [];
    for i := 0 to |a|
      invariant |b| == i && Ascends(b) && forall x :: x in b <==> x in a[..i]
    {
      assert a[..i + 1] == a[..i] + [a[i]];
      b := InsertInto(b, a[i]);
    }
    assert a[..|a|] == a;
  }

  /** lastIn over the inbox: the last handling at or after from and before to, if there is one. */
  method LastBetween(times: seq<int>, from: int, to: Option<int>) returns (last: Option<int>)
    ensures last.None? ==> forall i :: 0 <= i < |times| ==> !(from <= times[i] && (to.None? || times[i] < to.value))
    ensures last.Some? ==> last.value in times && from <= last.value && (to.None? || last.value < to.value)
    ensures last.Some? ==> forall i :: 0 <= i < |times| && from <= times[i] && (to.None? || times[i] < to.value) ==>
        times[i] <= last.value
  {
    last := None;
    for k := 0 to |times|
      invariant last.None? ==> forall i :: 0 <= i < k ==> !(from <= times[i] && (to.None? || times[i] < to.value))
      invariant last.Some? ==> last.value in times && from <= last.value && (to.None? || last.value < to.value)
      invariant last.Some? ==> forall i :: 0 <= i < k && from <= times[i] && (to.None? || times[i] < to.value) ==>
          times[i] <= last.value
    {
      if times[k] >= from && (to.None? || times[k] < to.value) && (last.None? || times[k] > last.value) {
        last := Some(times[k]);
      }
    }
  }

  /** The k-th start's window in the sorted starts is its run; of equal starts only the last has one. */
  lemma WindowIsRun(runs: seq<int>, starts: seq<int>, k: nat, t: int)
    requires Ascends(starts) && (forall x :: x in starts <==> x in runs) && k < |starts|
        && (k + 1 < |starts| ==> starts[k] < starts[k + 1])
    ensures InRun(runs, starts[k], t) <==> starts[k] <= t && (k + 1 < |starts| ==> t < starts[k + 1])
  {
    if InRun(runs, starts[k], t) && k + 1 < |starts| {
      assert starts[k + 1] in runs;
    }
    if starts[k] <= t && (k + 1 < |starts| ==> t < starts[k + 1]) {
      forall i | 0 <= i < |runs| && runs[i] > starts[k] ensures t < runs[i] {
        assert runs[i] in starts;
        var j :| 0 <= j < |starts| && starts[j] == runs[i];
      }
    }
  }

  method CutOf(runs: seq<int>, times: seq<int>, lifetime: int) returns (cut: Option<int>)
    ensures IsCut(runs, times, lifetime, cut)
  {
    var starts := Sorted(runs);
    var k := |starts|;
    while k > 0
      invariant 0 <= k <= |starts|
      invariant forall s, last, j :: k <= j < |starts| && Lasted(runs, times, lifetime, s, last) ==> s != starts[j]
    {
      k := k - 1;
      var to := if k + 1 < |starts| then Some(starts[k + 1]) else None;
      var last := LastBetween(times, starts[k], to);
      if k + 1 == |starts| || starts[k] < starts[k + 1] {
        forall t ensures InRun(runs, starts[k], t) <==> starts[k] <= t && (to.None? || t < to.value) {
          WindowIsRun(runs, starts, k, t);
        }
      }
      if last.Some? && starts[k] <= last.value - lifetime {
        assert starts[k] in starts;
        assert Lasted(runs, times, lifetime, starts[k], last.value);
        forall s, l | Lasted(runs, times, lifetime, s, l) ensures s <= starts[k] {
          assert s in starts;
          var j :| 0 <= j < |starts| && starts[j] == s;
        }
        assert LatestLasted(runs, times, lifetime, starts[k], last.value);
        return Some(last.value - lifetime);
      }
      forall s, l | Lasted(runs, times, lifetime, s, l) ensures s != starts[k] {
        if k + 1 < |starts| && starts[k] == starts[k + 1] {
          assert s != starts[k + 1];
        }
      }
    }
    cut := None;
  }

  // ------------------------------------------------------------------ the progress

  function Times(rows: seq<Handled>): seq<int> { seq(|rows|, i requires 0 <= i < |rows| => rows[i].at) }

  /** A row that counts towards a partition's progress. */
  predicate Counts(r: Handled, key: SourceKey, cut: int) {
    r.key == key && r.pos.Some? && r.at <= cut
  }

  /** The partition's progress: the largest position handled at or before the cut. */
  ghost predicate IsProgress(rows: seq<Handled>, cut: int, key: SourceKey, p: Place) {
    && (exists i :: 0 <= i < |rows| && Counts(rows[i], key, cut) && rows[i].pos.value == p)
    && forall i :: 0 <= i < |rows| && Counts(rows[i], key, cut) ==> AtMost(rows[i].pos.value, p)
  }

  ghost predicate IsProgressMap(rows: seq<Handled>, cut: Option<int>, out: map<SourceKey, Place>) {
    if cut.None? then out == map[]
    else forall key :: (key in out <==> exists i :: 0 <= i < |rows| && Counts(rows[i], key, cut.value))
                       && (key in out ==> IsProgress(rows, cut.value, key, out[key]))
  }

  /** The progress of every partition at the cut of these runs and handlings. */
  ghost predicate ProgressAt(runs: seq<int>, rows: seq<Handled>, lifetime: int, out: map<SourceKey, Place>) {
    exists cut :: IsCut(runs, Times(rows), lifetime, cut) && IsProgressMap(rows, cut, out)
  }

  method ProgressOf(runs: seq<int>, rows: seq<Handled>, lifetime: int) returns (out: map<SourceKey, Place>)
    ensures ProgressAt(runs, rows, lifetime, out)
  {
    var cut := CutOf(runs, Times(rows), lifetime);
    out := map[];
    if cut.Some? {
      out := LargestBy(rows, cut.value);
    }
  }

  method LargestBy(rows: seq<Handled>, cut: int) returns (out: map<SourceKey, Place>)
    ensures IsProgressMap(rows, Some(cut), out)
  {
    out := map[];
    for k := 0 to |rows|
      invariant IsProgressMap(rows[..k], Some(cut), out)
    {
      ghost var before := out;
      out := TakeRow(out, rows[k], cut);
      OneMore(rows, k, cut, before, out);
    }
    assert rows[..|rows|] == rows;
  }

  method TakeRow(out: map<SourceKey, Place>, r: Handled, cut: int) returns (next: map<SourceKey, Place>)
    ensures next == if r.pos.Some? && r.at <= cut
        && (r.key !in out || Less(out[r.key], r.pos.value)) then out[r.key := r.pos.value] else out
  {
    next := out;
    if r.pos.None? || r.at > cut {
      return;
    }
    if r.key !in out || Less(out[r.key], r.pos.value) {
      next := out[r.key := r.pos.value];
    }
  }

  lemma OneMore(rows: seq<Handled>, k: nat, cut: int, before: map<SourceKey, Place>, out: map<SourceKey, Place>)
    requires k < |rows| && IsProgressMap(rows[..k], Some(cut), before)
    requires var r := rows[k];
             out == if r.pos.Some? && r.at <= cut && (r.key !in before || Less(before[r.key], r.pos.value))
                 then before[r.key := r.pos.value] else before
    ensures IsProgressMap(rows[..k + 1], Some(cut), out)
  {
    var r, more := rows[k], rows[..k + 1];
    assert more == rows[..k] + [r];
    forall key
      ensures key in out <==> exists i :: 0 <= i < |more| && Counts(more[i], key, cut)
      ensures key in out ==> IsProgress(more, cut, key, out[key])
    {
      if key in before {
        var i :| 0 <= i < k && Counts(rows[..k][i], key, cut) && rows[..k][i].pos.value == before[key];
        assert Counts(more[i], key, cut);
      }
      if Counts(r, key, cut) {
        assert Counts(more[k], key, cut);
        LessIsTotal(if key in before then before[key] else r.pos.value, r.pos.value);
      }
      forall i | 0 <= i < |more| && Counts(more[i], key, cut) ensures key in out
          && AtMost(more[i].pos.value, out[key]) {
        if i < k {
          assert Counts(rows[..k][i], key, cut);
        }
      }
    }
  }

  // ------------------------------------------------------------------ nothing below the progress is without an outcome

  /**
    What really happened to one source partition's messages: when each position was first delivered, when
    it had an outcome (handled, a dead letter, or not this subscription's), and when instances ran.
   */
  datatype History = History(stream: iset<Place>, delivered: Place -> Option<int>, outcome: Place -> Option<int>,
      alive: (int, int) -> bool)

  /** First deliveries follow the positions: before a position is delivered, every smaller one of the stream is. */
  ghost predicate InOrder(h: History) {
    forall p, q :: p in h.stream && q in h.stream && AtMost(q, p) && h.delivered(p).Some?
                   ==> h.delivered(q).Some? && h.delivered(q).value <= h.delivered(p).value
  }

  /** A message that was delivered before a stretch of running time as long as the lifetime has an outcome by its end.
      */
  ghost predicate WithinLifetime(h: History, lifetime: int) {
    forall q, x, y :: q in h.stream && h.delivered(q).Some? && h.delivered(q).value <= x && h.alive(x, y)
                      && y - x >= lifetime ==>
      h.outcome(q).Some? && h.outcome(q).value <= y
  }

  /** What is handled in a run was handled by an instance that ran from the run's start on. */
  ghost predicate RunsAreReal(h: History, runs: seq<int>, times: seq<int>) {
    forall s, t :: s in runs && t in times && InRun(runs, s, t) ==> h.alive(s, t)
  }

  /** Who runs over a stretch runs over every part of it. */
  ghost predicate RunningIsContinuous(h: History) {
    forall a, b, c :: h.alive(a, c) && a <= b <= c ==> h.alive(b, c)
  }

  /** The inbox rows of the partition are handlings of delivered messages. */
  ghost predicate RowsAreReal(h: History, rows: seq<Handled>, key: SourceKey) {
    forall i :: 0 <= i < |rows| && rows[i].key == key && rows[i].pos.Some?
                ==> rows[i].pos.value in h.stream && h.delivered(rows[i].pos.value).Some?
                    && h.delivered(rows[i].pos.value).value <= rows[i].at
  }

  /** An instance ran over the lifetime that follows the cut. */
  lemma RanAfterTheCut(h: History, runs: seq<int>, times: seq<int>, lifetime: int, cut: int)
    requires RunsAreReal(h, runs, times) && RunningIsContinuous(h) && lifetime >= 0
        && IsCut(runs, times, lifetime, Some(cut))
    ensures h.alive(cut, cut + lifetime)
  {
    var s, last :| LatestLasted(runs, times, lifetime, s, last) && cut == last - lifetime;
    assert h.alive(s, last);
  }

  /** No position at or below a partition's progress is without an outcome. */
  lemma CutIsSafe(h: History, runs: seq<int>, rows: seq<Handled>, lifetime: int, out: map<SourceKey, Place>,
      key: SourceKey, q: Place)
    requires InOrder(h) && WithinLifetime(h, lifetime) && RunsAreReal(h, runs, Times(rows)) && RunningIsContinuous(h)
        && lifetime >= 0
    requires RowsAreReal(h, rows, key)
    requires ProgressAt(runs, rows, lifetime, out) && key in out && q in h.stream && AtMost(q, out[key])
    ensures h.outcome(q).Some?
  {
    var cut :| IsCut(runs, Times(rows), lifetime, cut) && IsProgressMap(rows, cut, out);
    RanAfterTheCut(h, runs, Times(rows), lifetime, cut.value);
    DeliveredByTheCut(h, rows, cut.value, key, out[key], q);
  }

  lemma DeliveredByTheCut(h: History, rows: seq<Handled>, cut: int, key: SourceKey, p: Place, q: Place)
    requires InOrder(h) && RowsAreReal(h, rows, key) && IsProgress(rows, cut, key, p) && q in h.stream && AtMost(q, p)
    ensures h.delivered(q).Some? && h.delivered(q).value <= cut
  {
    var i :| 0 <= i < |rows| && Counts(rows[i], key, cut) && rows[i].pos.value == p;
    assert h.delivered(p).Some? && h.delivered(p).value <= cut;
  }
}
