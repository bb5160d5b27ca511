/**
  The consumer's transactions as they are carried out (projection/watermark.go, projection/align.go,
  projection/decide.go): fields updated in place, rows written one by one, proved equal to the steps
  of the protocol.
 */
module Upkeep {
  import opened Base
  import opened Numbering
  import opened SourceLog
  import opened Receive
  import opened Protocol
  import opened Freshness
  import opened ConsumerSteps
  import opened Watermark

  /** The minimum of the partitions' marks; none when a partition has none. */
  method WatermarkOf(marks: seq<Option<int>>) returns (w: Option<int>)
    ensures w.Some? <==> |marks| > 0 && forall i :: 0 <= i < |marks| ==> marks[i].Some?
    ensures w.Some? ==> w in marks && forall i :: 0 <= i < |marks| ==> w.value <= marks[i].value
  {
    w := None;
    for i := 0 to |marks|
      invariant w.Some? <==> i > 0
      invariant forall k :: 0 <= k < i ==> marks[k].Some? && w.value <= marks[k].value
      invariant i > 0 ==> w in marks[..i]
    {
      if marks[i].None? {
        return None;
      }
      if i == 0 || marks[i].value < w.value {
        w := marks[i];
      }
    }
  }

  function MarkOf(part: PartState): Option<int> {
    if part.mark.Some? then Some(part.mark.value.mp) else None
  }

  function Marks(con: Consumer): seq<Option<int>> {
    seq(|con.parts|, i requires 0 <= i < |con.parts| => MarkOf(con.parts[i]))
  }

  /** NoOlderThan is the comparison of that minimum. */
  lemma NoOlderThanComparesTheMinimum(con: Consumer, w: Option<int>, at: int)
    requires w.Some? <==> |Marks(con)| > 0 && forall i :: 0 <= i < |Marks(con)| ==> Marks(con)[i].Some?
    requires w.Some? ==> w in Marks(con) && forall i :: 0 <= i < |Marks(con)| ==> w.value <= Marks(con)[i].value
    ensures NoOlderThan(con, at) <==> con.proj.status == Aligned && w.Some? && w.value >= at
  {
    var marks := Marks(con);
    assert forall i :: 0 <= i < |con.parts| ==> marks[i] == MarkOf(con.parts[i]);
    if w.Some? {
      var k :| 0 <= k < |marks| && marks[k] == w;
      assert MarkOf(con.parts[k]) == w;
      assert forall i :: 0 <= i < |con.parts| ==> MarkOf(con.parts[i]).Some?;
    } else if |marks| > 0 {
      var k :| 0 <= k < |marks| && marks[k].None?;
      assert MarkOf(con.parts[k]).None?;
    }
  }

  /** An echo the consumer applied: its position, and its pull's m_p while that is still recorded. */
  datatype Echoed = Echoed(n: nat, mp: int, recorded: bool)

  predicate Counts(e: Echoed, contiguous: nat) {
    e.recorded && e.n <= contiguous
  }

  /** A partition's mark: the largest m_p among the recorded echoes within the contiguous range. */
  method LastEcho(contiguous: nat, echoes: seq<Echoed>) returns (mark: Option<int>)
    ensures mark.Some? <==> exists e :: e in echoes && Counts(e, contiguous)
    ensures mark.Some? ==> exists e :: e in echoes && Counts(e, contiguous) && e.mp == mark.value
    ensures mark.Some? ==> forall e :: e in echoes && Counts(e, contiguous) ==> e.mp <= mark.value
  {
    mark := None;
    for i := 0 to |echoes|
      invariant mark.Some? <==> exists e :: e in echoes[..i] && Counts(e, contiguous)
      invariant mark.Some? ==> exists e :: e in echoes[..i] && Counts(e, contiguous) && e.mp == mark.value
      invariant mark.Some? ==> forall e :: e in echoes[..i] && Counts(e, contiguous) ==> e.mp <= mark.value
    {
      var e := echoes[i];
      assert echoes[..i + 1] == echoes[..i] + [e];
      if e.recorded && e.n <= contiguous && (mark.None? || e.mp > mark.value) {
        mark := Some(e.mp);
        assert e in echoes[..i + 1] && Counts(e, contiguous);
      }
    }
  }

  // ------------------------------------------------------------------ one answer at a time

  /** put, for one answer. */
  function Put(rows: map<nat, Rec>, run: Run, g: nat, home: nat, id: nat, a: Answer, byId: bool): map<nat, Rec> {
    var f := Fetched(run, g, home, id, a, byId);
    if f.Some? && Puts(rows, id, f.value, g) then rows[id := f.value] else rows
  }

  /** Writing answers one after the other, in any order, is the page written at once. */
  lemma PutOneMore(rows: map<nat, Rec>, src: Source, run: Run, g: nat, ids: set<nat>, id: nat, t: nat, byId: bool)
    requires |src.parts| > 0 && id !in ids
    ensures Put(PutAll(rows, src, run, g, ids, t, byId), run, g, Home(src, id), id, Read(src, id, t), byId)
            == PutAll(rows, src, run, g, ids + {id}, t, byId)
  {
    var one, all := PutAll(rows, src, run, g, ids, t, byId), PutAll(rows, src, run, g, ids + {id}, t, byId);
    var next := Put(one, run, g, Home(src, id), id, Read(src, id, t), byId);
    forall x: nat ensures (x in next <==> x in all) && (x in next ==> next[x] == all[x]) {
      PutOneMoreAt(rows, src, run, g, ids, id, t, byId, x);
    }
  }

  lemma PutOneMoreAt(rows: map<nat, Rec>, src: Source, run: Run, g: nat, ids: set<nat>, id: nat, t: nat, byId: bool,
      x: nat)
    requires |src.parts| > 0 && id !in ids
    ensures var next := Put(PutAll(rows, src, run, g, ids, t, byId), run, g, Home(src, id), id, Read(src, id, t), byId);
            var all := PutAll(rows, src, run, g, ids + {id}, t, byId);
            (x in next <==> x in all) && (x in next ==> next[x] == all[x])
  {
    var one := PutAll(rows, src, run, g, ids, t, byId);
    assert id in one <==> id in rows;
    assert id in rows ==> one[id] == rows[id];
    assert x != id ==> (x in ids <==> x in ids + {id});
  }

  function IdsOf(page: seq<nat>): set<nat> {
    set id | id in page
  }

  /** The source answers for every local row: a batch read never omits an ID. */
  ghost predicate Answered(src: Source, rows: map<nat, Rec>, t: nat)
    requires |src.parts| > 0
  {
    forall id :: id in rows ==> Read(src, id, t) != NotThere
  }

  lemma RowsAreAnswered(src: Source, rows: map<nat, Rec>, gen: nat)
    requires SourceOk(src) && TableOk(src, rows, gen)
    ensures Answered(src, rows, src.now)
  {
    forall id | id in rows ensures Read(src, id, src.now) != NotThere {
      assert RecOk(src, gen, id, rows[id]);
      ReadAnswers(src, id, rows[id]);
    }
  }

  /** A batch of rows outside the generation comes in, and touches nothing else. */
  lemma BatchBringsIn(src: Source, con: Consumer, g: nat, batch: seq<nat>, t: nat)
    requires |src.parts| > 0 && Answered(src, con.proj.rows, t) && g in con.runs
    requires batch != [] && IdsOf(batch) <= Outside(con, g)
    ensures var next := DoFetch(Sys(src, con, 0, []), g, IdsOf(batch), t, true);
            && next == con.(proj := con.proj.(rows := next.proj.rows))
            && next.proj.rows.Keys == con.proj.rows.Keys && Outside(next, g) < Outside(con, g)
            && forall id :: id in con.proj.rows && con.proj.rows[id].gen == Some(g) ==>
                next.proj.rows[id] == con.proj.rows[id]
  {
    var next, ids := DoFetch(Sys(src, con, 0, []), g, IdsOf(batch), t, true), IdsOf(batch);
    assert batch[0] in ids;
    forall id: nat ensures Batched(con.proj.rows, next.proj.rows, g, ids, id) {
      BatchAt(src, con, g, ids, t, id);
    }
    assert next.runs == con.runs;
    assert Batched(con.proj.rows, next.proj.rows, g, ids, batch[0]);
    assert batch[0] in Outside(con, g) && batch[0] !in Outside(next, g);
    forall id | id in Outside(next, g) ensures id in Outside(con, g) {
      assert Batched(con.proj.rows, next.proj.rows, g, ids, id);
    }
  }

  /** What a batch does to a row: those of the batch come in, the others stay as they are. */
  predicate Batched(rows: map<nat, Rec>, next: map<nat, Rec>, g: nat, ids: set<nat>, id: nat) {
    && (id in next <==> id in rows)
    && (id in rows && rows[id].gen == Some(g) ==> next[id] == rows[id])
    && (id in rows && id in ids ==> next[id].gen == Some(g))
    && (id in rows && id !in ids ==> next[id] == rows[id])
  }

  lemma BatchAt(src: Source, con: Consumer, g: nat, ids: set<nat>, t: nat, id: nat)
    requires |src.parts| > 0 && Answered(src, con.proj.rows, t) && g in con.runs && ids <= Outside(con, g)
    ensures Batched(con.proj.rows, DoFetch(Sys(src, con, 0, []), g, ids, t, true).proj.rows, g, ids, id)
  {
    PutAllAt(con.proj.rows, src, con.runs[g], g, ids, t, true, id);
  }

  class Watermarked {
    var proj: Projection
    var parts: seq<PartState>
    var pulls: map<nat, Mark>
    var maxSeen: Option<int>
    var runs: map<nat, Run>
    var quarantined: set<(nat, Place)>

    function View(): Consumer
      reads this
    {
      Consumer(proj, parts, pulls, maxSeen, runs, quarantined)
    }

    /** A pull's nonce and m_p, after the clock check. */
    method RecordPull(nonce: nat, clock: int, now: nat, epochChanged: bool)
      modifies this
      ensures View() == DoRecord(old(View()), clock, now, nonce, epochChanged)
    {
      var back := maxSeen.Some? && clock < maxSeen.value;
      if back || epochChanged {
        pulls := map[];
        parts := seq(|parts|, i requires 0 <= i < |parts| reads this => parts[i].(mark := None));
      }
      maxSeen := Some(if maxSeen.Some? then Max(maxSeen.value, clock) else clock);
      pulls := pulls[nonce := Mark(clock, now)];
    }

    /** The subscription's handler; fails: the row failed often enough and is quarantined instead of applied. */
    method HandleRow(p: nat, r: Row, fails: bool, page: bool)
      requires r.place.Some?
      modifies this
      ensures View() == if p < |old(parts)| then Protocol.Handle(old(View()), p, r, fails, page) else old(View())
    {
      if proj.adopted.None? || r.place.value.epoch != proj.adopted.value.epoch || proj.status == Blocked
          || p >= |parts| {
        return;
      }
      var ps, n := parts[p], r.place.value.n;
      if proj.status == Aligning && !page && (ps.p0.None? || n <= ps.p0.value) {
        return;
      }
      var contiguous := proj.status != Aligning;
      if contiguous && (ps.pos.None? || n != ps.pos.value + 1) {
        return;
      }
      if fails {
        quarantined := quarantined + {(p, r.place.value)};
      } else if r.body.Echo? {
        if r.body.nonce in pulls {
          ps := ps.(mark := Some(pulls[r.body.nonce]));
        }
      } else {
        proj := Apply(proj, InputOf(r)).0;
      }
      if contiguous {
        parts := parts[p := ps.(pos := Some(n))];
      }
    }

    /** One page of the snapshot, or one batch of by-ID answers, written row by row under the generation check. */
    method WritePage(src: Source, g: nat, page: seq<nat>, t: nat, byId: bool) returns (ok: bool)
      requires |src.parts| > 0 && g in runs && forall i, j :: 0 <= i < j < |page| ==> page[i] != page[j]
      modifies this
      ensures ok <==> g == old(proj.gen)
      ensures !ok ==> View() == old(View())
      ensures ok ==> View() == DoFetch(Sys(src, old(View()), 0, []), g, IdsOf(page), t, byId)
    {
      ok := g == proj.gen;
      if !ok {
        return;
      }
      ghost var rows, run := proj.rows, runs[g];
      assert proj.rows == PutAll(rows, src, run, g, IdsOf(page[..0]), t, byId);
      for k := 0 to |page|
        invariant View() == old(View()).(proj := old(proj).(rows := proj.rows))
        invariant proj.rows == PutAll(rows, src, run, g, IdsOf(page[..k]), t, byId)
      {
        var id := page[k];
        assert page[..k + 1] == page[..k] + [id];
        assert IdsOf(page[..k + 1]) == IdsOf(page[..k]) + {id};
        PutOneMore(rows, src, run, g, IdsOf(page[..k]), id, t, byId);
        var f := Fetched(runs[g], g, Home(src, id), id, Read(src, id, t), byId);
        if f.Some? && (id !in proj.rows || proj.rows[id].gen != Some(g) || proj.rows[id].version < f.value.version) {
          proj := proj.(rows := proj.rows[id := f.value]);
        }
      }
      assert page[..|page|] == page;
      if byId {
        runs := runs[g := runs[g]];
      } else {
        runs := runs[g := runs[g].(covered := runs[g].covered + IdsOf(page))];
      }
    }

    /**
      The by-ID loop, without interference: batches of rows outside the generation are read and
      written until none is left. Every round takes its rows out of the rest, so the loop ends.
     */
    method ReadTheRest(src: Source, g: nat, t: nat, limit: nat)
      requires |src.parts| > 0 && Answered(src, proj.rows, t) && g == proj.gen && g in runs && limit > 0
      modifies this
      ensures Outside(View(), g) == {} && proj.rows.Keys == old(proj.rows.Keys)
      ensures View() == old(View()).(proj := old(proj).(rows := proj.rows))
      ensures forall id :: id in proj.rows && old(proj.rows)[id].gen == Some(g) ==> proj.rows[id] == old(proj.rows)[id]
    {
      while Outside(View(), g) != {}
        invariant View() == old(View()).(proj := old(proj).(rows := proj.rows))
        invariant proj.rows.Keys == old(proj.rows.Keys)
        invariant forall id :: id in proj.rows && old(proj.rows)[id].gen == Some(g) ==>
            proj.rows[id] == old(proj.rows)[id]
        decreases Outside(View(), g)
      {
        var batch := SelectSome(Outside(View(), g), limit);
        BatchBringsIn(src, View(), g, batch, t);
        var _ := WritePage(src, g, batch, t, true);
      }
    }

    /** The completion transaction. */
    method Complete(g: nat, status: Status) returns (ok: bool)
      requires g in runs
      modifies this
      ensures ok <==> g == old(proj.gen)
      ensures View() == if ok then DoFinish(old(View()), g, status) else old(View())
    {
      ok := g == proj.gen;
      if !ok {
        return;
      }
      var run := runs[g];
      parts := seq(|parts|, i requires 0 <= i < |parts| reads this => PartState(if i < |run.p0| then Some(run.p0[i])
          else None, None, None));
      quarantined := set q | q in quarantined && proj.adopted.Some? && q.1.epoch == proj.adopted.value.epoch
                               && q.0 < |run.p0| && q.1.n > run.p0[q.0];
      proj := proj.(status := status);
      runs := runs - {g};
    }
  }

  /** SELECT ... LIMIT: some of the rows, each once. */
  method SelectSome(ids: set<nat>, limit: nat) returns (batch: seq<nat>)
    requires ids != {} && limit > 0
    ensures batch != [] && |batch| <= limit && IdsOf(batch) <= ids
    ensures forall i, j :: 0 <= i < j < |batch| ==> batch[i] != batch[j]
  {
    batch := [];
    var rest := ids;
    while rest != {} && |batch| < limit
      invariant rest <= ids && IdsOf(batch) <= ids && IdsOf(batch) !! rest && |batch| <= limit
      invariant forall i, j :: 0 <= i < j < |batch| ==> batch[i] != batch[j]
      invariant batch == [] ==> rest == ids
      decreases rest
    {
      var id :| id in rest;
      batch := batch + [id];
      rest := rest - {id};
    }
  }
}
