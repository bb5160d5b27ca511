/**
  Building runs of the watermark protocol: a path is a run whose steps are guarded and those of one loop,
  except those named; it is made longer step by step, and every path keeps the stored rows true.
 */
module Runs {
  import opened Base
  import opened Numbering
  import opened SourceLog
  import opened Receive
  import opened Protocol
  import opened Freshness
  import opened ConsumerSteps
  import opened Watermark

  /** Guarded, and a step of one loop. */
  ghost predicate Orderly(s: Sys, step: Step) { Guarded(s, step) && Alone(s, step) }

  /** Every step is orderly where it is taken, but for the bad ones. */
  ghost predicate OrderlyBut(s: Sys, steps: seq<Step>, bad: set<Step>) {
    forall k :: 0 <= k < |steps| && From(s, steps[..k]).Some? ==>
        steps[k] in bad || Orderly(From(s, steps[..k]).value, steps[k])
  }

  ghost predicate Path(s: Sys, steps: seq<Step>, t: Sys, bad: set<Step>) {
    From(s, steps) == Some(t) && Tabled(s) && Tabled(t) && OrderlyBut(s, steps, bad)
  }

  lemma NoPath(s: Sys, bad: set<Step>)
    requires Tabled(s)
    ensures Path(s, [], s, bad)
  {
  }

  /** A path without exceptions is a guarded run, of one loop. */
  lemma PathIsGuarded(s: Sys, steps: seq<Step>, t: Sys)
    requires Path(s, steps, t, {})
    ensures AllGuarded(s, steps) && AllAlone(s, steps)
  {
    forall k | 0 <= k < |steps| && From(s, steps[..k]).Some? ensures Guarded(From(s, steps[..k]).value, steps[k]) {
      assert Orderly(From(s, steps[..k]).value, steps[k]);
    }
    StreamIsAlone(s, steps, {});
  }

  /** Deliveries of the stream are steps of one loop wherever they fall. */
  lemma {:induction false} StreamIsAlone(s: Sys, steps: seq<Step>, bad: set<Step>)
    requires OrderlyBut(s, steps, bad) && forall step :: step in bad ==> step.Deliver? && !step.page
    ensures AllAlone(s, steps)
    decreases |steps|
  {
    if steps != [] {
      var n := |steps| - 1;
      OrderlyBefore(s, steps, bad);
      StreamIsAlone(s, steps[..n], bad);
      if From(s, steps[..n]).Some? {
        assert steps[n] in bad || Orderly(From(s, steps[..n]).value, steps[n]);
      }
    }
  }

  lemma OrderlyBefore(s: Sys, steps: seq<Step>, bad: set<Step>)
    requires steps != [] && OrderlyBut(s, steps, bad)
    ensures OrderlyBut(s, steps[..|steps| - 1], bad)
  {
    var front := steps[..|steps| - 1];
    forall k | 0 <= k < |front| && From(s, front[..k]).Some? ensures front[k] in bad
        || Orderly(From(s, front[..k]).value, front[k]) {
      assert front[..k] == steps[..k];
    }
  }

  lemma Longer(s: Sys, steps: seq<Step>, t: Sys, bad: set<Step>, step: Step) returns (more: seq<Step>, u: Sys)
    requires Path(s, steps, t, bad) && CanStep(t, step) && (step in bad || Orderly(t, step))
    ensures u == Do(t, step) && more == steps + [step] && Path(s, more, u, bad)
  {
    more, u := steps + [step], Do(t, step);
    StepTabled(t, step);
    FromMore(s, steps, t, step);
    OrderlyMore(s, steps, t, step, bad);
  }

  lemma FromMore(s: Sys, steps: seq<Step>, t: Sys, step: Step)
    requires From(s, steps) == Some(t) && |t.src.parts| > 0 && CanStep(t, step)
    ensures From(s, steps + [step]) == Some(Do(t, step))
  {
    assert (steps + [step])[..|steps|] == steps;
  }

  lemma OrderlyMore(s: Sys, steps: seq<Step>, t: Sys, step: Step, bad: set<Step>)
    requires From(s, steps) == Some(t) && OrderlyBut(s, steps, bad) && (step in bad || Orderly(t, step))
    ensures OrderlyBut(s, steps + [step], bad)
  {
    var more := steps + [step];
    forall k | 0 <= k < |more| && From(s, more[..k]).Some? ensures more[k] in bad
        || Orderly(From(s, more[..k]).value, more[k]) {
      assert if k < |steps| then more[..k] == steps[..k] else more[..k] == steps;
    }
  }

  lemma Moving(s: Sys, steps: seq<Step>, t: Sys, bad: set<Step>, m: Move) returns (more: seq<Step>, u: Sys)
    requires Path(s, steps, t, bad) && CanMove(t.src, m)
    ensures Path(s, more, u, bad) && u.con == t.con && u.src == Moved(t.src, m) && u.clock == t.clock
  {
    more, u := Longer(s, steps, t, bad, Src(m));
  }

  lemma Consuming(s: Sys, steps: seq<Step>, t: Sys, bad: set<Step>, step: Step) returns (more: seq<Step>, u: Sys)
    requires Path(s, steps, t, bad) && CanStep(t, step) && (step in bad || Orderly(t, step)) && !step.Src?
        && !step.Tick?
    ensures Path(s, more, u, bad) && u.con == Consumed(t, step) && u.src == t.src.(now := t.src.now + 1)
        && u.clock == t.clock
  {
    more, u := Longer(s, steps, t, bad, step);
    Stands(t, step);
  }

  /** A step of the consumer leaves the source as it is, but for the time. */
  lemma Stands(t: Sys, step: Step)
    requires |t.src.parts| > 0 && CanStep(t, step) && !step.Src? && !step.Tick?
    ensures var u := Do(t, step);
            u.con == Consumed(t, step) && u.src == t.src.(now := t.src.now + 1) && u.clock == t.clock
  {
    assert Moved(t.src, Pass).parts == t.src.parts;
  }

  // ------------------------------------------------------------------ the source publishes

  lemma {:induction false} RankBound(rows: seq<Row>, k: nat)
    requires k <= |rows|
    ensures Rank(rows, k) <= k
  {
    if k > 0 {
      RankBound(rows, k - 1);
    }
  }

  /** One row more, committed and numbered at the counter; everything that waited is numbered before it. */
  ghost predicate Grown(p: Part, q: Part, body: Body, e: Epoch) {
    var k := |p.rows|;
    && |q.rows| == k + 1 && q.epoch == Some(e) && q.rows[k].body == body && q.rows[k].fate.Committed?
    && q.rows[k].place == Some(Place(e, q.last)) && q.last >= Start(p, e) + 1
    && (forall i :: 0 <= i < k ==> q.rows[i].(place := None) == p.rows[i].(place := None))
    && (forall i :: 0 <= i < k && p.rows[i].place.Some? ==> q.rows[i].place == p.rows[i].place)
    && (forall i :: 0 <= i <= k ==> !Pending(q.rows[i]))
    && ((forall i :: 0 <= i < k ==> !Pending(p.rows[i])) ==> q.last == Start(p, e) + 1)
  }

  lemma {:induction false} NothingPending(rows: seq<Row>, k: nat)
    requires k <= |rows| && forall i :: 0 <= i < k ==> !Pending(rows[i])
    ensures Rank(rows, k) == 0
  {
    if k > 0 {
      NothingPending(rows, k - 1);
    }
  }

  lemma AllPicked(r: Part, e: Epoch, i: nat)
    requires i < |r.rows|
    ensures var q := Number(r, e, |r.rows|);
            && !Pending(q.rows[i]) && (Pending(r.rows[i]) ==>
                q.rows[i] == r.rows[i].(place := Some(Place(e, Start(r, e) + 1 + Rank(r.rows, i)))))
            && (!Pending(r.rows[i]) ==> q.rows[i] == r.rows[i])
  {
    RankBound(r.rows, i);
  }

  lemma RowsNumbered(p: Part, r: Part, e: Epoch)
    requires |r.rows| == |p.rows| + 1 && forall i :: 0 <= i < |p.rows| ==> r.rows[i] == p.rows[i]
    ensures var q := Number(r, e, |r.rows|);
            && (forall i :: 0 <= i < |p.rows| ==> q.rows[i].(place := None) == p.rows[i].(place := None))
            && (forall i :: 0 <= i < |p.rows| && p.rows[i].place.Some? ==> q.rows[i].place == p.rows[i].place)
            && (forall i :: 0 <= i < |r.rows| ==> !Pending(q.rows[i]))
  {
    var q := Number(r, e, |r.rows|);
    forall i | 0 <= i < |r.rows| ensures !Pending(q.rows[i]) && q.rows[i].(place := None) == r.rows[i].(place := None)
      ensures r.rows[i].place.Some? ==> q.rows[i].place == r.rows[i].place
    {
      AllPicked(r, e, i);
    }
  }

  lemma LastNumbered(r: Part, e: Epoch)
    requires r.rows != [] && Pending(r.rows[|r.rows| - 1])
    ensures var k, q := |r.rows| - 1, Number(r, e, |r.rows|);
            && q.rows[k] == r.rows[k].(place := Some(Place(e, q.last))) && q.last >= Start(r, e) + 1
            && ((forall i :: 0 <= i < k ==> !Pending(r.rows[i])) ==> q.last == Start(r, e) + 1)
  {
    var k := |r.rows| - 1;
    RankBound(r.rows, k);
    AllPicked(r, e, k);
    if forall i :: 0 <= i < k ==> !Pending(r.rows[i]) {
      NothingPending(r.rows, k);
    }
  }

  lemma PublishedPart(p: Part, body: Body, now: nat, e: Epoch)
    ensures var k := |p.rows|;
            Grown(p, Number(SettleRow(InsertRow(p, body, now), k, Committed(now + 1)), e, k + 1), body, e)
  {
    var k := |p.rows|;
    var r := SettleRow(InsertRow(p, body, now), k, Committed(now + 1));
    RowsNumbered(p, r, e);
    LastNumbered(r, e);
  }

  /** Only partition p of the source changed, and how. */
  predicate Changed(src: Source, t: Source, p: nat, part: Part) {
    p < |src.parts| && t == Source(src.parts[p := part], src.epoch, src.purged, t.now)
  }

  lemma PartChanged(src: Source, m: Move, p: nat)
    requires p < |src.parts| && (forall k :: 0 <= k < |src.parts| && k != p ==> Share(src, m, k) == Keep)
        && !m.Advance? && !m.Purge?
    ensures Changed(src, Moved(src, m), p, PartMoved(src.parts[p], Share(src, m, p), src.now))
        && Moved(src, m).now == src.now + 1
  {
    assert Moved(src, m).parts == src.parts[p := PartMoved(src.parts[p], Share(src, m, p), src.now)];
  }

  /** Numbered, after it was inserted and committed. */
  lemma NumberedLast(src: Source, b: Source, p: nat, body: Body) returns (c: Source)
    requires p < |src.parts|
    requires Changed(src, b, p,
                     SettleRow(InsertRow(src.parts[p], body, src.now), |src.parts[p].rows|, Committed(src.now + 1)))
    ensures |b.parts| == |src.parts| && c == Moved(b, NumberBatch(p, |src.parts[p].rows| + 1)) && c.now == b.now + 1
    ensures p < |c.parts| && Changed(src, c, p, c.parts[p]) && Grown(src.parts[p], c.parts[p], body, src.epoch)
  {
    var k := |src.parts[p].rows|;
    c := Moved(b, NumberBatch(p, k + 1));
    PartChanged(b, NumberBatch(p, k + 1), p);
    ChangedTwice(src, b, c, p);
    PublishedPart(src.parts[p], body, src.now, src.epoch);
  }

  lemma ChangedTwice(src: Source, b: Source, c: Source, p: nat)
    requires p < |src.parts| && p < |b.parts| && p < |c.parts| && Changed(src, b, p, b.parts[p])
        && Changed(b, c, p, c.parts[p])
    ensures Changed(src, c, p, c.parts[p])
  {
    assert c.parts == src.parts[p := c.parts[p]];
  }

  /** Inserted and committed. */
  lemma Committing(src: Source, p: nat, body: Body) returns (a: Source, b: Source)
    requires p < |src.parts| && CanMove(src, Insert(p, body))
    ensures a == Moved(src, Insert(p, body)) && |a.parts| == |src.parts| && CanMove(a, Commit(p, |src.parts[p].rows|))
    ensures b == Moved(a, Commit(p, |src.parts[p].rows|)) && b.now == src.now + 2
    ensures Changed(src, b, p, SettleRow(InsertRow(src.parts[p], body, src.now), |src.parts[p].rows|,
        Committed(src.now + 1)))
  {
    var k := |src.parts[p].rows|;
    a := Moved(src, Insert(p, body));
    PartChanged(src, Insert(p, body), p);
    b := Moved(a, Commit(p, k));
    PartChanged(a, Commit(p, k), p);
    ChangedTwice(src, a, b, p);
  }

  lemma CommitsRow(s: Sys, steps: seq<Step>, t: Sys, bad: set<Step>, p: nat, body: Body)
      returns (more: seq<Step>, u: Sys)
    requires Path(s, steps, t, bad) && p < |t.src.parts| && CanMove(t.src, Insert(p, body))
    ensures Path(s, more, u, bad) && u.con == t.con && u.clock == t.clock && u.src.now == t.src.now + 2
    ensures Changed(t.src, u.src, p,
                    SettleRow(InsertRow(t.src.parts[p], body, t.src.now), |t.src.parts[p].rows|,
                              Committed(t.src.now + 1)))
  {
    var a, b := Committing(t.src, p, body);
    var v;
    more, v := Moving(s, steps, t, bad, Insert(p, body));
    more, u := Moving(s, more, v, bad, Commit(p, |t.src.parts[p].rows|));
  }

  /** The source publishes a row: inserted, committed, numbered. */
  lemma Publish(s: Sys, steps: seq<Step>, t: Sys, bad: set<Step>, p: nat, body: Body) returns (more: seq<Step>, u: Sys)
    requires Path(s, steps, t, bad) && p < |t.src.parts| && CanMove(t.src, Insert(p, body))
    ensures Path(s, more, u, bad) && u.con == t.con && u.clock == t.clock && u.src.now == t.src.now + 3
    ensures p < |u.src.parts| && Changed(t.src, u.src, p, u.src.parts[p])
        && Grown(t.src.parts[p], u.src.parts[p], body, t.src.epoch)
  {
    var v;
    more, v := CommitsRow(s, steps, t, bad, p, body);
    more, u := NumbersRow(s, more, t.src, v, bad, p, body);
  }

  lemma NumbersRow(s: Sys, steps: seq<Step>, src: Source, v: Sys, bad: set<Step>, p: nat, body: Body)
      returns (more: seq<Step>, u: Sys)
    requires Path(s, steps, v, bad) && p < |src.parts|
    requires Changed(src, v.src, p,
                     SettleRow(InsertRow(src.parts[p], body, src.now), |src.parts[p].rows|, Committed(src.now + 1)))
    ensures Path(s, more, u, bad) && u.con == v.con && u.clock == v.clock && u.src.now == v.src.now + 1
    ensures p < |u.src.parts| && Changed(src, u.src, p, u.src.parts[p])
        && Grown(src.parts[p], u.src.parts[p], body, src.epoch)
  {
    var c := NumberedLast(src, v.src, p, body);
    more, u := Moving(s, steps, v, bad, NumberBatch(p, |src.parts[p].rows| + 1));
    assert u.src == c;
  }

  // ------------------------------------------------------------------ a record nobody has heard of

  ghost predicate Unheard(s: Sys, p: nat, id: nat) {
    && p < |s.src.parts| && Home(s.src, id) == p && id !in s.src.purged && id !in s.con.proj.rows
    && forall i :: 0 <= i < |s.src.parts[p].rows| && s.src.parts[p].rows[i].body.Change? ==>
        s.src.parts[p].rows[i].body.id != id
  }

  lemma {:induction false} Bounded(ids: set<nat>) returns (top: nat)
    ensures forall id :: id in ids ==> id < top
    decreases |ids|
  {
    if ids == {} {
      top := 0;
    } else {
      var id :| id in ids;
      var rest := Bounded(ids - {id});
      top := Max(rest, id + 1);
      forall x | x in ids ensures x < top {
        assert x == id || x in ids - {id};
      }
    }
  }

  /** There always is one, on every partition. */
  lemma SomeoneUnheard(s: Sys, p: nat) returns (id: nat)
    requires p < |s.src.parts|
    ensures Unheard(s, p, id)
  {
    var rows, n := s.src.parts[p].rows, |s.src.parts|;
    var told := set i | 0 <= i < |rows| && rows[i].body.Change? :: rows[i].body.id;
    var top := Bounded(told + s.src.purged.Keys + s.con.proj.rows.Keys);
    id := Above(p, n, top);
    forall i | 0 <= i < |rows| && rows[i].body.Change? ensures rows[i].body.id != id {
      assert rows[i].body.id in told;
    }
  }

  /** Quotient and remainder are what they are. */
  lemma Remainder(x: nat, n: nat, q: int, r: nat)
    requires r < n && x == q * n + r
    ensures x % n == r
  {
    var d := x / n - q;
    assert d * n == (x / n) * n - q * n;
    assert d >= 1 ==> d * n >= n;
    assert d <= -1 ==> d * n <= 0 - n;
  }

  lemma Above(p: nat, n: nat, top: nat) returns (id: nat)
    requires p < n
    ensures id >= top && id % n == p
  {
    id := top * n + p;
    assert top * n >= top * 1;
    Remainder(id, n, top, p);
  }

  // ------------------------------------------------------------------ an alignment

  /** A generation has begun on a source in the adopted epoch, and waits for its P0. */
  ghost predicate Begun(s: Sys) {
    var g := s.con.proj.gen;
    && s.con.proj.status == Aligning && g in s.con.runs && s.con.runs[g].since.None?
    && s.con.proj.adopted == Some(Identity(IMPL, s.src.epoch)) && s.con.runs[g].epoch == s.src.epoch
  }

  /** The partition's counter stands at a position of the epoch that was handed out, and nothing waits. */
  ghost predicate Echoed(part: Part, e: Epoch) {
    && part.epoch == Some(e) && part.last >= 1 && Handed(part, Place(e, part.last))
    && forall i :: 0 <= i < |part.rows| ==> !Pending(part.rows[i])
  }

  lemma GrownEchoed(p: Part, q: Part, body: Body, e: Epoch)
    requires Grown(p, q, body, e)
    ensures Echoed(q, e)
  {
    assert q.rows[|p.rows|].place == Some(Place(e, q.last));
  }

  /** The rows of an echoed source are those it had, and echoes. */
  ghost predicate Same(a: Part, b: Part) {
    && |a.rows| <= |b.rows| && (forall i :: 0 <= i < |a.rows| ==>
        b.rows[i].(place := None) == a.rows[i].(place := None))
    && (forall i :: 0 <= i < |a.rows| && a.rows[i].place.Some? ==> b.rows[i].place == a.rows[i].place)
    && (forall i :: |a.rows| <= i < |b.rows| ==> b.rows[i].body.Echo?)
  }

  ghost predicate SameRecords(a: Source, b: Source) {
    && |a.parts| == |b.parts| && a.epoch == b.epoch && a.purged == b.purged && a.now <= b.now
    && forall p :: 0 <= p < |a.parts| ==> Same(a.parts[p], b.parts[p])
  }

  lemma GrownSame(src: Source, t: Source, p: nat, nonce: nat)
    requires p < |src.parts| && p < |t.parts| && Changed(src, t, p, t.parts[p]) && src.now <= t.now
    requires Grown(src.parts[p], t.parts[p], Echo(nonce), src.epoch)
    ensures SameRecords(src, t) && Echoed(t.parts[p], t.epoch) && forall q :: 0 <= q < |t.parts| && q != p ==>
        t.parts[q] == src.parts[q]
  {
    GrownEchoed(src.parts[p], t.parts[p], Echo(nonce), src.epoch);
  }

  lemma EchoOn(s: Sys, steps: seq<Step>, t: Sys, bad: set<Step>, nonce: nat, n: nat) returns (more: seq<Step>, u: Sys)
    requires Path(s, steps, t, bad) && n < |t.src.parts|
    ensures Path(s, more, u, bad) && u.con == t.con && u.clock == t.clock && SameRecords(t.src, u.src)
        && Echoed(u.src.parts[n], u.src.epoch)
    ensures forall q :: 0 <= q < |u.src.parts| && q != n ==> u.src.parts[q] == t.src.parts[q]
  {
    more, u := Publish(s, steps, t, bad, n, Echo(nonce));
    GrownSame(t.src, u.src, n, nonce);
  }

  lemma SameRecordsTrans(a: Source, b: Source, c: Source)
    requires SameRecords(a, b) && SameRecords(b, c)
    ensures SameRecords(a, c)
  {
    forall p | 0 <= p < |a.parts| ensures Same(a.parts[p], c.parts[p]) {
      SameTrans(a.parts[p], b.parts[p], c.parts[p]);
    }
  }

  /** An echo on partition n and every later one. */
  lemma {:induction false} EchoFrom(s: Sys, steps: seq<Step>, t: Sys, bad: set<Step>, nonce: nat, n: nat)
      returns (more: seq<Step>, u: Sys)
    requires Path(s, steps, t, bad) && n <= |t.src.parts| && forall q :: 0 <= q < n ==>
        Echoed(t.src.parts[q], t.src.epoch)
    ensures Path(s, more, u, bad) && u.con == t.con && u.clock == t.clock && SameRecords(t.src, u.src)
    ensures forall q :: 0 <= q < |u.src.parts| ==> Echoed(u.src.parts[q], u.src.epoch)
    decreases |t.src.parts| - n
  {
    if n == |t.src.parts| {
      more, u := steps, t;
    } else {
      var v;
      more, v := EchoOn(s, steps, t, bad, nonce, n);
      more, u := EchoFrom(s, more, v, bad, nonce, n + 1);
      SameRecordsTrans(t.src, v.src, u.src);
    }
  }

  lemma SameTrans(a: Part, b: Part, c: Part)
    requires Same(a, b) && Same(b, c)
    ensures Same(a, c)
  {
    forall i | |a.rows| <= i < |c.rows| ensures c.rows[i].body.Echo? {
      assert i < |b.rows| ==> c.rows[i].(place := None) == b.rows[i].(place := None);
    }
    forall i | 0 <= i < |a.rows| ensures c.rows[i].(place := None) == a.rows[i].(place := None) {
      assert c.rows[i].(place := None) == b.rows[i].(place := None);
    }
  }

  /** The counters of an echoed source: the P0 of an echo-only pull. */
  function Counters(src: Source): seq<nat> {
    seq(|src.parts|, q requires 0 <= q < |src.parts| => src.parts[q].last)
  }

  /** Between the saved P0 and the first page; the rows of `kept` are in the generation already. */
  ghost predicate Fetching(s: Sys, p0: seq<nat>, kept: set<nat>) {
    var g := s.con.proj.gen;
    && |s.con.parts| == |s.src.parts| == |p0| > 0 && s.con.proj.status == Aligning && Underway(s.con)
    && s.con.runs[g].p0 == p0 && s.con.runs[g].since.Some? && s.con.runs[g].since.value <= s.src.now
    && s.con.runs[g].epoch == s.src.epoch
    && forall id :: id in kept ==> id in s.con.proj.rows && s.con.proj.rows[id].gen == Some(g)
  }

  /** The echo-only pull, and its P0 saved: the counters of the moment. */
  lemma SaveCounters(s: Sys, steps: seq<Step>, t: Sys, bad: set<Step>, kept: set<nat>) returns (more: seq<Step>, u: Sys)
    requires Path(s, steps, t, bad) && Begun(t)
    requires forall id :: id in kept ==> id in t.con.proj.rows && t.con.proj.rows[id].gen == Some(t.con.proj.gen)
    ensures Path(s, more, u, bad) && Fetching(u, Counters(u.src), kept) && u.con.proj == t.con.proj
        && u.clock == t.clock
    ensures SameRecords(t.src, u.src) && forall q :: 0 <= q < |u.src.parts| ==> Echoed(u.src.parts[q], u.src.epoch)
    ensures forall q :: 0 <= q < |u.con.parts| ==> u.con.parts[q].p0 == Some(u.src.parts[q].last)
  {
    var v;
    more, v := EchoFrom(s, steps, t, bad, 0, 0);
    more, u := Consuming(s, more, v, bad, SaveP0(v.con.proj.gen, Counters(v.src)));
    assert Counters(u.src) == Counters(v.src);
  }

  // ------------------------------------------------------------------ pages, the by-ID round, completion

  /** Every record a change speaks of. */
  function AllIds(src: Source): set<nat> {
    set p, i | 0 <= p < |src.parts| && 0 <= i < |src.parts[p].rows|
        && src.parts[p].rows[i].body.Change? :: src.parts[p].rows[i].body.id
  }

  lemma AllPagesDone(s: Sys, run: Run)
    requires run.since.Some? && AllIds(s.src) <= run.covered
    ensures PagesDone(s, run)
  {
    forall p, i | 0 <= p < |s.src.parts| && 0 <= i < |s.src.parts[p].rows| && s.src.parts[p].rows[i].body.Change?
      ensures s.src.parts[p].rows[i].body.id in run.covered
    {
      assert s.src.parts[p].rows[i].body.id in AllIds(s.src);
    }
  }

  /** After the pages: kept rows, passed over as deleted, and rows outside the generation are as they were. */
  ghost predicate Paged(u: Sys, c: Consumer, kept: set<nat>) {
    var g := u.con.proj.gen;
    && c.parts == u.con.parts && c.proj == u.con.proj.(rows := c.proj.rows) && g in u.con.runs
    && c.runs == u.con.runs[g := u.con.runs[g].(covered := u.con.runs[g].covered + AllIds(u.src))]
    && (forall id :: id in kept ==>
        id in u.con.proj.rows && id in c.proj.rows && c.proj.rows[id] == u.con.proj.rows[id])
    && (forall x :: x in Outside(c, g) ==> x in u.con.proj.rows && u.con.proj.rows[x] == c.proj.rows[x])
    && (forall x :: x in c.proj.rows ==> x in u.con.proj.rows || x in AllIds(u.src))
  }

  lemma PagesRead(u: Sys, p0: seq<nat>, kept: set<nat>)
    requires Fetching(u, p0, kept) && forall id :: id in kept ==> Read(u.src, id, u.src.now).Gone?
    ensures Paged(u, DoFetch(u, u.con.proj.gen, AllIds(u.src), u.src.now, false), kept)
  {
    var g := u.con.proj.gen;
    var c := DoFetch(u, g, AllIds(u.src), u.src.now, false);
    forall x | x in c.proj.rows || x in u.con.proj.rows
      ensures x in u.con.proj.rows ==> x in c.proj.rows
      ensures x in kept ==> c.proj.rows[x] == u.con.proj.rows[x]
      ensures x in Outside(c, g) ==> x in u.con.proj.rows && u.con.proj.rows[x] == c.proj.rows[x]
      ensures x in c.proj.rows ==> x in u.con.proj.rows || x in AllIds(u.src)
    {
      PutAllAt(u.con.proj.rows, u.src, u.con.runs[g], g, AllIds(u.src), u.src.now, false, x);
    }
  }

  /** Everything local is of the generation, and every page was read; kept rows are as they were. */
  ghost predicate Swept(u: Sys, v: Sys, p0: seq<nat>, kept: set<nat>) {
    var g := u.con.proj.gen;
    && v.src == u.src.(now := v.src.now) && |v.src.parts| == |v.con.parts| == |p0| > 0
        && v.con.proj == u.con.proj.(rows := v.con.proj.rows)
    && v.con.proj.status == Aligning && Underway(v.con) && v.con.runs[g].p0 == p0 && v.con.runs[g].since.Some?
    && v.con.runs[g].epoch == u.src.epoch && AllIds(v.src) <= v.con.runs[g].covered
    && (forall x :: x in v.con.proj.rows ==>
        v.con.proj.rows[x].gen == Some(g) && (x in u.con.proj.rows || x in AllIds(u.src)))
    && (forall id :: id in kept ==>
        id in v.con.proj.rows && id in u.con.proj.rows && v.con.proj.rows[id] == u.con.proj.rows[id])
  }

  lemma RoundBringsOne(v: Sys, g: nat, x: nat)
    requires |v.src.parts| > 0 && g in v.con.runs
    requires x in Outside(v.con, g) ==> Read(v.src, x, v.src.now) != NotThere
    requires x in DoFetch(v, g, Outside(v.con, g), v.src.now, true).proj.rows
    ensures DoFetch(v, g, Outside(v.con, g), v.src.now, true).proj.rows[x].gen == Some(g) && x in v.con.proj.rows
  {
    PutAllAt(v.con.proj.rows, v.src, v.con.runs[g], g, Outside(v.con, g), v.src.now, true, x);
  }

  lemma RoundBrings(u: Sys, v: Sys, kept: set<nat>)
    requires Paged(u, v.con, kept) && SourceOk(v.src) && Tables(v.src, v.con)
    ensures var g := u.con.proj.gen;
            var c := DoFetch(v, g, Outside(v.con, g), v.src.now, true);
            forall x :: x in c.proj.rows ==>
              c.proj.rows[x].gen == Some(g) && (x in u.con.proj.rows || x in AllIds(u.src))
  {
    var g := u.con.proj.gen;
    var c := DoFetch(v, g, Outside(v.con, g), v.src.now, true);
    forall x | x in c.proj.rows
      ensures c.proj.rows[x].gen == Some(g) && (x in u.con.proj.rows || x in AllIds(u.src))
    {
      if x in v.con.proj.rows {
        StoredIsAnswered(v, x);
      }
      RoundBringsOne(v, g, x);
    }
  }

  lemma StoredIsAnswered(v: Sys, x: nat)
    requires SourceOk(v.src) && Tables(v.src, v.con) && x in v.con.proj.rows
    ensures Read(v.src, x, v.src.now) != NotThere
  {
    assert RecOk(v.src, v.con.proj.gen, x, v.con.proj.rows[x]);
    ReadAnswers(v.src, x, v.con.proj.rows[x]);
  }

  lemma RoundRead(u: Sys, v: Sys, p0: seq<nat>, kept: set<nat>)
    requires Fetching(u, p0, kept) && Paged(u, v.con, kept) && v.src == u.src.(now := v.src.now) && SourceOk(v.src)
        && Tables(v.src, v.con)
    ensures var c := DoFetch(v, u.con.proj.gen, Outside(v.con, u.con.proj.gen), v.src.now, true);
            Swept(u, v.(con := c), p0, kept)
  {
    var g := u.con.proj.gen;
    var left := Outside(v.con, g);
    var c := DoFetch(v, g, left, v.src.now, true);
    RoundBrings(u, v, kept);
    forall id | id in kept ensures id in c.proj.rows && c.proj.rows[id] == u.con.proj.rows[id] {
      PutAllAt(v.con.proj.rows, v.src, v.con.runs[g], g, left, v.src.now, true, id);
    }
    assert AllIds(v.src) == AllIds(u.src);
  }

  /** From the saved P0 to a by-ID round that found nothing left. */
  lemma Sweep(s: Sys, steps: seq<Step>, u: Sys, bad: set<Step>, p0: seq<nat>, kept: set<nat>)
      returns (more: seq<Step>, t: Sys)
    requires Path(s, steps, u, bad) && Fetching(u, p0, kept) && forall id :: id in kept ==>
        Read(u.src, id, u.src.now).Gone?
    ensures Path(s, more, t, bad) && Swept(u, t, p0, kept) && t.con.runs[u.con.proj.gen].emptied && t.clock == u.clock
  {
    var g := u.con.proj.gen;
    var v, w;
    more, v := ReadPages(s, steps, u, bad, p0, kept);
    more, w := ReadRest(s, more, u, v, bad, p0, kept);
    AllPagesDone(w, w.con.runs[g]);
    more, t := Consuming(s, more, w, bad, Emptied(g));
    assert AllIds(t.src) == AllIds(w.src);
  }

  lemma ReadPages(s: Sys, steps: seq<Step>, u: Sys, bad: set<Step>, p0: seq<nat>, kept: set<nat>)
      returns (more: seq<Step>, v: Sys)
    requires Path(s, steps, u, bad) && Fetching(u, p0, kept) && forall id :: id in kept ==>
        Read(u.src, id, u.src.now).Gone?
    ensures Path(s, more, v, bad) && Paged(u, v.con, kept) && v.src == u.src.(now := u.src.now + 1)
        && v.clock == u.clock
  {
    PagesRead(u, p0, kept);
    more, v := Consuming(s, steps, u, bad, Fetch(u.con.proj.gen, AllIds(u.src), u.src.now, false));
  }

  lemma ReadRest(s: Sys, steps: seq<Step>, u: Sys, v: Sys, bad: set<Step>, p0: seq<nat>, kept: set<nat>)
      returns (more: seq<Step>, t: Sys)
    requires Path(s, steps, v, bad) && Fetching(u, p0, kept) && Paged(u, v.con, kept)
        && v.src == u.src.(now := u.src.now + 1)
    ensures Path(s, more, t, bad) && Swept(u, t, p0, kept) && t.clock == v.clock
  {
    var g := u.con.proj.gen;
    RoundRead(u, v, p0, kept);
    more, t := Consuming(s, steps, v, bad, Fetch(g, Outside(v.con, g), v.src.now, true));
    assert AllIds(t.src) == AllIds(u.src);
  }

  /** Aligned at the P0; the rows are those of the swept generation. */
  ghost predicate CompletedAt(u: Sys, t: Sys, p0: seq<nat>) {
    && |t.con.parts| == |t.src.parts| == |p0| > 0 && t.con.proj == u.con.proj.(status := Aligned)
    && forall q :: 0 <= q < |p0| ==> t.con.parts[q] == PartState(Some(p0[q]), None, None)
  }

  lemma CompleteRun(s: Sys, steps: seq<Step>, u: Sys, bad: set<Step>, p0: seq<nat>) returns (more: seq<Step>, t: Sys)
    requires var g := u.con.proj.gen;
             && Path(s, steps, u, bad) && g in u.con.runs && u.con.runs[g].emptied && u.con.runs[g].p0 == p0
                 && |p0| == |u.con.parts|
             && u.con.proj.status == Aligning && (Underway(u.con) || Finish(g, Aligned) in bad)
    ensures Path(s, more, t, bad) && CompletedAt(u, t, p0) && t.src == u.src.(now := u.src.now + 1)
        && t.clock == u.clock
  {
    more, t := Consuming(s, steps, u, bad, Finish(u.con.proj.gen, Aligned));
  }
}
