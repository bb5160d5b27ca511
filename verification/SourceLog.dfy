/**
  A watermark source as its consumers see it: the partitions of one stream, the record reads
  (snapshot and by-ID), and what time does to all of it.
 */
module SourceLog {
  import opened Base
  import opened Numbering

  /** purged: when the source forgot even a deleted record's tombstone; now: the next instant. */
  datatype Source = Source(parts: seq<Part>, epoch: Epoch, purged: map<nat, nat>, now: nat)

  function Home(s: Source, id: nat): nat
    requires |s.parts| > 0
    ensures Home(s, id) < |s.parts|
  {
    id % |s.parts|
  }

  predicate Changes(r: Row, id: nat) {
    r.body.Change? && r.body.id == id && !r.fate.Aborted?
  }

  /** A record's row lock: its next change is written only after its last one committed, with a larger version. */
  ghost predicate Disciplined(rows: seq<Row>) {
    && (forall i :: 0 <= i < |rows| && rows[i].body.Change? ==> rows[i].body.version >= 1)
    && (forall i, j :: 0 <= i < j < |rows| && rows[j].body.Change? && Changes(rows[i], rows[j].body.id)
                       && !rows[j].fate.Aborted? ==>
          Precedes(rows, i, j) && rows[i].body.version < rows[j].body.version)
  }

  ghost predicate Homed(s: Source, p: nat)
    requires p < |s.parts|
  {
    forall i :: 0 <= i < |s.parts[p].rows| && s.parts[p].rows[i].body.Change? ==>
        Home(s, s.parts[p].rows[i].body.id) == p
  }

  /** A committed deletion of the record at version v or above. */
  ghost predicate Deleted(s: Source, id: nat, v: int)
    requires |s.parts| > 0
  {
    var rows := s.parts[Home(s, id)].rows;
    exists i :: 0 <= i < |rows| && Changes(rows[i], id) && rows[i].fate.Committed? && rows[i].body.kind == Delete
        && rows[i].body.version >= v
  }

  /** Purged records were deleted for good. */
  ghost predicate Forgotten(s: Source, id: nat)
    requires |s.parts| > 0
  {
    var rows := s.parts[Home(s, id)].rows;
    && (forall i :: 0 <= i < |rows| && Changes(rows[i], id) ==>
        rows[i].fate.Committed? && Deleted(s, id, rows[i].body.version))
  }

  ghost predicate SourceOk(s: Source) {
    && |s.parts| > 0
    && (forall p :: 0 <= p < |s.parts| ==> PartOk(s.parts[p], s.now) && Current(s.parts[p], s.epoch))
    && (forall p :: 0 <= p < |s.parts| ==> Disciplined(s.parts[p].rows) && Homed(s, p))
    && (forall id :: id in s.purged ==> Forgotten(s, id) && s.purged[id] < s.now)
  }

  // ------------------------------------------------------------------ reading records

  /** The last change of a record among the first k rows, committed before instant t. */
  function Last(rows: seq<Row>, k: nat, id: nat, t: nat): Option<nat>
    requires k <= |rows|
    ensures Last(rows, k, id, t).Some? ==>
              var i := Last(rows, k, id, t).value;
              i < k && Changes(rows[i], id) && rows[i].fate.Committed? && rows[i].fate.at < t
  {
    if k == 0 then None
    else if Changes(rows[k - 1], id) && rows[k - 1].fate.Committed? && rows[k - 1].fate.at < t then Some(k - 1)
    else Last(rows, k - 1, id, t)
  }

  datatype Answer = NotThere | There(version: nat) | Gone(version: nat) | Purged

  /** What the source answers for a record, read at instant t. */
  function Read(s: Source, id: nat, t: nat): Answer
    requires |s.parts| > 0
  {
    var rows := s.parts[Home(s, id)].rows;
    if id in s.purged && s.purged[id] < t then Purged
    else match Last(rows, |rows|, id, t)
         case None => NotThere
         case Some(i) => if rows[i].body.kind == Delete then Gone(rows[i].body.version) else There(rows[i].body.version)
  }

  lemma {:induction false} LastIsLatest(rows: seq<Row>, k: nat, id: nat, t: nat, i: nat)
    requires i < k <= |rows| && Changes(rows[i], id) && rows[i].fate.Committed? && rows[i].fate.at < t
    ensures Last(rows, k, id, t).Some? && i <= Last(rows, k, id, t).value
  {
    if i < k - 1 {
      LastIsLatest(rows, k - 1, id, t, i);
    }
  }

  /** A read at t answers a version no smaller than any change committed before t. */
  lemma ReadCovers(s: Source, id: nat, t: nat, i: nat)
    requires SourceOk(s)
    requires i < |s.parts[Home(s, id)].rows|
    requires var r := s.parts[Home(s, id)].rows[i]; Changes(r, id) && r.fate.Committed? && r.fate.at < t
    ensures var v := s.parts[Home(s, id)].rows[i].body.version;
            match Read(s, id, t)
            case NotThere => false
            case There(w) => w >= v
            case Gone(w) => w >= v && Deleted(s, id, v)
            case Purged => id in s.purged && Deleted(s, id, v)
  {
    var h := Home(s, id);
    assert Disciplined(s.parts[h].rows);
    assert id in s.purged ==> Forgotten(s, id);
    ReadCoversAt(s, h, id, t, i);
  }

  lemma ReadCoversAt(s: Source, h: nat, id: nat, t: nat, i: nat)
    requires |s.parts| > 0 && h == Home(s, id) && Disciplined(s.parts[h].rows) && (id in s.purged ==> Forgotten(s, id))
    requires i < |s.parts[h].rows|
    requires var r := s.parts[h].rows[i]; Changes(r, id) && r.fate.Committed? && r.fate.at < t
    ensures var v := s.parts[h].rows[i].body.version;
            match Read(s, id, t)
            case NotThere => false
            case There(w) => w >= v
            case Gone(w) => w >= v && Deleted(s, id, v)
            case Purged => id in s.purged && Deleted(s, id, v)
  {
    var rows := s.parts[h].rows;
    LastIsLatest(rows, |rows|, id, t, i);
    var k := Last(rows, |rows|, id, t).value;
    assert rows[i].body.version <= rows[k].body.version;
  }

  /** Along one record's changes, positions and versions grow together. */
  lemma VersionFollowsPlace(s: Source, p: nat, i: nat, j: nat)
    requires SourceOk(s) && p < |s.parts|
    requires i < |s.parts[p].rows| && j < |s.parts[p].rows|
    requires s.parts[p].rows[i].place.Some? && s.parts[p].rows[j].place.Some?
    requires s.parts[p].rows[i].body.Change? && s.parts[p].rows[j].body.Change?
    requires s.parts[p].rows[i].body.id == s.parts[p].rows[j].body.id
    requires Less(s.parts[p].rows[i].place.value, s.parts[p].rows[j].place.value)
    ensures s.parts[p].rows[i].body.version < s.parts[p].rows[j].body.version
  {
  }

  // ------------------------------------------------------------------ one partition moves on

  predicate Committing(rows: seq<Row>, id: nat) {
    forall i :: 0 <= i < |rows| && Changes(rows[i], id) ==> rows[i].fate.Committed?
  }

  predicate Below(rows: seq<Row>, id: nat, v: int) {
    forall i :: 0 <= i < |rows| && Changes(rows[i], id) ==> rows[i].body.version < v
  }

  datatype PartMove = Keep | Append(body: Body) | Settle(i: nat, fate: Fate) | Batch(epoch: Epoch, batch: nat)

  ghost predicate CanPart(p: Part, m: PartMove, now: nat) {
    match m
    case Keep => true
    case Append(body) => body.Change? ==>
        body.version >= 1 && Committing(p.rows, body.id) && Below(p.rows, body.id, body.version)
    case Settle(i, fate) => i < |p.rows| && p.rows[i].fate.Open? && (fate == Committed(now) || fate == Aborted)
    case Batch(epoch, _) => Current(p, epoch)
  }

  function PartMoved(p: Part, m: PartMove, now: nat): Part {
    match m
    case Keep => p
    case Append(body) => InsertRow(p, body, now)
    case Settle(i, fate) => if i < |p.rows| then SettleRow(p, i, fate) else p
    case Batch(epoch, batch) => Number(p, epoch, batch)
  }

  lemma PartMoveOk(p: Part, m: PartMove, now: nat)
    requires PartOk(p, now) && CanPart(p, m, now)
    ensures PartOk(PartMoved(p, m, now), now + 1)
  {
    match m
    case Keep => LaterOk(p, now);
    case Append(body) => InsertOk(p, body, now);
    case Settle(i, fate) => SettleOk(p, i, fate, now);
    case Batch(epoch, batch) =>
      NumberOk(p, epoch, now, batch);
      LaterOk(Number(p, epoch, batch), now);
  }

  /** What a consumer can rely on: rows are kept, and new positions lie above the counter. */
  ghost predicate PartGrows(p: Part, q: Part, now: nat) {
    && |p.rows| <= |q.rows|
    && (p.epoch.Some? ==> q.epoch.Some? && AtMost(Place(p.epoch.value, p.last), Place(q.epoch.value, q.last)))
    && (forall i :: 0 <= i < |p.rows| ==> RowGrows(p, p.rows[i], q.rows[i], now))
    && (forall i :: |p.rows| <= i < |q.rows| ==> q.rows[i].born >= now && q.rows[i].place.None? && q.rows[i].fate.Open?)
  }

  predicate RowGrows(p: Part, r: Row, next: Row, now: nat) {
    && next.body == r.body && next.born == r.born
    && (!r.fate.Open? ==> next.fate == r.fate)
    && (r.fate.Open? && next.fate.Committed? ==> next.fate.at >= now)
    && (r.place.Some? ==> next.place == r.place)
    && (r.place.None? && next.place.Some? && p.epoch.Some? ==> Less(Place(p.epoch.value, p.last), next.place.value))
  }

  lemma PartMoveGrows(p: Part, m: PartMove, now: nat)
    requires PartOk(p, now) && CanPart(p, m, now)
    ensures PartGrows(p, PartMoved(p, m, now), now)
  {
    match m
    case Batch(epoch, batch) =>
      forall i | 0 <= i < |p.rows|
        ensures RowGrows(p, p.rows[i], Number(p, epoch, batch).rows[i], now)
      {
        NewPlaces(p, epoch, batch, i);
      }
    case _ =>
  }

  lemma PartMoveDisciplined(p: Part, m: PartMove, now: nat)
    requires PartOk(p, now) && CanPart(p, m, now) && Disciplined(p.rows)
    ensures Disciplined(PartMoved(p, m, now).rows)
  {
    PartMoveGrows(p, m, now);
    var rows, next := p.rows, PartMoved(p, m, now).rows;
    forall i | 0 <= i < |next| && next[i].body.Change?
      ensures next[i].body.version >= 1
    {
      assert i < |rows| ==> RowGrows(p, rows[i], next[i], now);
    }
    forall i, j | 0 <= i < j < |next| && next[j].body.Change? && Changes(next[i], next[j].body.id)
        && !next[j].fate.Aborted?
      ensures Precedes(next, i, j) && next[i].body.version < next[j].body.version
    {
      assert RowGrows(p, rows[i], next[i], now);
      assert Changes(rows[i], next[j].body.id);
      if j < |rows| {
        assert RowGrows(p, rows[j], next[j], now);
        assert Precedes(rows, i, j);
      }
    }
  }

  // ------------------------------------------------------------------ the source moves on

  datatype Move = Insert(p: nat, body: Body) | Commit(p: nat, i: nat) | Abort(p: nat, i: nat) | NumberBatch(p: nat,
      batch: nat)
                | Advance(epoch: Epoch) | Purge(id: nat) | Pass

  /** What a move of the source does to its partition k. */
  function Share(s: Source, m: Move, k: nat): PartMove {
    match m
    case Insert(p, body) => if p == k then Append(body) else Keep
    case Commit(p, i) => if p == k then Settle(i, Committed(s.now)) else Keep
    case Abort(p, i) => if p == k then Settle(i, Aborted) else Keep
    case NumberBatch(p, batch) => if p == k then Batch(s.epoch, batch) else Keep
    case _ => Keep
  }

  ghost predicate CanMove(s: Source, m: Move)
    requires |s.parts| > 0
  {
    match m
    case Insert(p, body) =>
      && p < |s.parts| && CanPart(s.parts[p], Append(body), s.now)
      && (body.Change? ==> Home(s, body.id) == p && body.id !in s.purged)
    case Commit(p, i) => p < |s.parts| && CanPart(s.parts[p], Settle(i, Committed(s.now)), s.now)
    case Abort(p, i) => p < |s.parts| && CanPart(s.parts[p], Settle(i, Aborted), s.now)
    case NumberBatch(p, _) => p < |s.parts|
    case Advance(epoch) => EpochLess(s.epoch, epoch)
    case Purge(id) => id !in s.purged && Committing(s.parts[Home(s, id)].rows, id) && Read(s, id, s.now).Gone?
    case Pass => true
  }

  function Moved(s: Source, m: Move): Source {
    Source(seq(|s.parts|, k requires 0 <= k < |s.parts| => PartMoved(s.parts[k], Share(s, m, k), s.now)),
           if m.Advance? then m.epoch else s.epoch,
           if m.Purge? then s.purged[m.id := s.now] else s.purged,
           s.now + 1)
  }

  ghost predicate Grows(s: Source, t: Source) {
    && |s.parts| == |t.parts| > 0 && t.now == s.now + 1
    && (t.epoch == s.epoch || EpochLess(s.epoch, t.epoch))
    && (forall p :: 0 <= p < |s.parts| ==> PartGrows(s.parts[p], t.parts[p], s.now))
    && (forall id :: id in s.purged ==> id in t.purged && t.purged[id] == s.purged[id])
    && (forall id :: id in t.purged && id !in s.purged ==> t.purged[id] >= s.now)
  }

  lemma MoveGrows(s: Source, m: Move)
    requires SourceOk(s) && CanMove(s, m)
    ensures Grows(s, Moved(s, m))
  {
    forall p | 0 <= p < |s.parts|
      ensures PartGrows(s.parts[p], Moved(s, m).parts[p], s.now)
    {
      PartMoveGrows(s.parts[p], Share(s, m, p), s.now);
    }
  }

  lemma DeletedStays(s: Source, t: Source, id: nat, v: int)
    requires Grows(s, t) && Deleted(s, id, v)
    ensures Deleted(t, id, v)
  {
    var h := Home(s, id);
    var rows := s.parts[h].rows;
    var i :| 0 <= i < |rows| && Changes(rows[i], id) && rows[i].fate.Committed? && rows[i].body.kind == Delete
        && rows[i].body.version >= v;
    assert RowGrows(s.parts[h], rows[i], t.parts[h].rows[i], s.now);
    assert Changes(t.parts[h].rows[i], id);
  }

  lemma ForgottenGrows(s: Source, t: Source, h: nat, id: nat)
    requires Grows(s, t) && h == Home(s, id) && Forgotten(s, id)
    requires forall i :: |s.parts[h].rows| <= i < |t.parts[h].rows| ==> !Changes(t.parts[h].rows[i], id)
    ensures Forgotten(t, id)
  {
    assert PartGrows(s.parts[h], t.parts[h], s.now);
    forall i | 0 <= i < |t.parts[h].rows| && Changes(t.parts[h].rows[i], id)
      ensures t.parts[h].rows[i].fate.Committed? && Deleted(t, id, t.parts[h].rows[i].body.version)
    {
      assert i < |s.parts[h].rows|;
      assert RowGrows(s.parts[h], s.parts[h].rows[i], t.parts[h].rows[i], s.now);
      assert Changes(s.parts[h].rows[i], id);
      DeletedStays(s, t, id, s.parts[h].rows[i].body.version);
    }
  }

  lemma ForgottenStays(s: Source, m: Move, id: nat)
    requires SourceOk(s) && CanMove(s, m) && id in s.purged
    ensures Forgotten(Moved(s, m), id)
  {
    MoveGrows(s, m);
    NothingNewOf(s, m, Home(s, id), id);
    ForgottenGrows(s, Moved(s, m), Home(s, id), id);
  }

  /** A purged record gets no new change. */
  lemma NothingNewOf(s: Source, m: Move, h: nat, id: nat)
    requires |s.parts| > 0 && CanMove(s, m) && id in s.purged && h == Home(s, id)
    ensures forall i :: |s.parts[h].rows| <= i < |Moved(s, m).parts[h].rows| ==>
        !Changes(Moved(s, m).parts[h].rows[i], id)
  {
  }

  lemma PurgeForgets(s: Source, id: nat)
    requires SourceOk(s) && CanMove(s, Purge(id))
    ensures Forgotten(Moved(s, Purge(id)), id)
  {
    var t := Moved(s, Purge(id));
    assert t.parts == s.parts;
    var rows := s.parts[Home(s, id)].rows;
    var k := Last(rows, |rows|, id, s.now).value;
    forall i | 0 <= i < |rows| && Changes(rows[i], id)
      ensures Deleted(t, id, rows[i].body.version)
    {
      LastIsLatest(rows, |rows|, id, s.now, i);
      assert rows[k].body.version >= rows[i].body.version;
    }
  }

  lemma MovedHomed(s: Source, m: Move, p: nat)
    requires SourceOk(s) && CanMove(s, m) && p < |s.parts|
    ensures Homed(Moved(s, m), p)
  {
    PartMoveGrows(s.parts[p], Share(s, m, p), s.now);
    var t := Moved(s, m);
    forall i | 0 <= i < |t.parts[p].rows| && t.parts[p].rows[i].body.Change?
      ensures Home(t, t.parts[p].rows[i].body.id) == p
    {
      assert i < |s.parts[p].rows| ==> RowGrows(s.parts[p], s.parts[p].rows[i], t.parts[p].rows[i], s.now);
    }
  }

  /** The source keeps its promises whatever it does next. */
  lemma MovedPartOk(s: Source, m: Move, p: nat)
    requires |s.parts| > 0 && CanMove(s, m) && p < |s.parts| && PartOk(s.parts[p], s.now)
        && Current(s.parts[p], s.epoch)
    ensures var t := Moved(s, m); PartOk(t.parts[p], t.now) && Current(t.parts[p], t.epoch)
  {
    PartMoveOk(s.parts[p], Share(s, m, p), s.now);
  }

  lemma MovedDisciplined(s: Source, m: Move, p: nat)
    requires |s.parts| > 0 && CanMove(s, m) && p < |s.parts| && PartOk(s.parts[p], s.now)
        && Current(s.parts[p], s.epoch) && Disciplined(s.parts[p].rows)
    ensures Disciplined(Moved(s, m).parts[p].rows)
  {
    PartMoveDisciplined(s.parts[p], Share(s, m, p), s.now);
  }

  lemma MovedForgets(s: Source, m: Move, id: nat)
    requires SourceOk(s) && CanMove(s, m) && id in Moved(s, m).purged
    ensures Forgotten(Moved(s, m), id) && Moved(s, m).purged[id] < Moved(s, m).now
  {
    if id in s.purged {
      ForgottenStays(s, m, id);
    } else {
      PurgeForgets(s, id);
    }
  }

  lemma MoveOk(s: Source, m: Move)
    requires SourceOk(s) && CanMove(s, m)
    ensures SourceOk(Moved(s, m))
  {
    var t := Moved(s, m);
    forall p | 0 <= p < |t.parts|
      ensures PartOk(t.parts[p], t.now) && Current(t.parts[p], t.epoch) && Disciplined(t.parts[p].rows) && Homed(t, p)
    {
      MovedPartOk(s, m, p);
      MovedDisciplined(s, m, p);
      MovedHomed(s, m, p);
    }
    forall id | id in t.purged ensures Forgotten(t, id) && t.purged[id] < t.now {
      MovedForgets(s, m, id);
    }
  }
}
