/**
  The outbox of one stream partition and its numbering (events/number.go): rows are inserted in `ord`
  order by concurrent transactions, commit in any order, and receive publish positions in limited
  batches under the counter's lock, one run of positions per database epoch.
 */
module Numbering {
  import opened Base

  /** A database epoch: recovery generation, then timeline. */
  datatype Epoch = Epoch(generation: nat, timeline: nat)

  predicate EpochLess(a: Epoch, b: Epoch) {
    a.generation < b.generation || (a.generation == b.generation && a.timeline < b.timeline)
  }

  /** A publish position. */
  datatype Place = Place(epoch: Epoch, n: nat)

  predicate Less(a: Place, b: Place) {
    EpochLess(a.epoch, b.epoch) || (a.epoch == b.epoch && a.n < b.n)
  }

  predicate AtMost(a: Place, b: Place) {
    a == b || Less(a, b)
  }

  datatype Kind = Full | Partial | Delete

  /** What a row says: an echo of a pull, or a change of one record. */
  datatype Body = Echo(nonce: nat) | Change(id: nat, version: nat, kind: Kind)

  /** The fate of the transaction that inserted a row; instants count the events of the whole run. */
  datatype Fate = Open | Committed(at: nat) | Aborted

  datatype Row = Row(body: Body, born: nat, fate: Fate, place: Option<Place>)

  /** One entry of the epoch history: where the old epoch's positions ended. */
  datatype Fork = Fork(left: Epoch, upTo: nat, entered: Epoch)

  /** A partition: its outbox rows (the index is `ord`), its counter and its epoch history. */
  datatype Part = Part(rows: seq<Row>, epoch: Option<Epoch>, last: nat, history: seq<Fork>)

  const EMPTY_PART := Part([], None, 0, [])

  predicate Pending(r: Row) {
    r.fate.Committed? && r.place.None?
  }

  /** How many rows before index i are visible and unnumbered: `row_number() OVER (ORDER BY ord)`, from 0. */
  function Rank(rows: seq<Row>, i: nat): nat
    requires i <= |rows|
  {
    if i == 0 then 0 else Rank(rows, i - 1) + (if Pending(rows[i - 1]) then 1 else 0)
  }

  /** Where this epoch's positions go on: a new epoch starts again at 0. */
  function Start(p: Part, now: Epoch): nat {
    if p.epoch == Some(now) then p.last else 0
  }

  predicate Picked(rows: seq<Row>, batch: nat, i: nat)
    requires i < |rows|
  {
    Pending(rows[i]) && Rank(rows, i) < batch
  }

  /** The UPDATE of the first `batch` visible unnumbered rows, in insertion order. */
  function NumberRows(rows: seq<Row>, now: Epoch, start: nat, batch: nat): seq<Row> {
    seq(|rows|, i requires 0 <= i < |rows| =>
      if Picked(rows, batch, i) then rows[i].(place := Some(Place(now, start + 1 + Rank(rows, i)))) else rows[i])
  }

  function Numbered(rows: seq<Row>, batch: nat): nat {
    Min(batch, Rank(rows, |rows|))
  }

  /** What one numbering transaction makes of a partition. */
  function Number(p: Part, now: Epoch, batch: nat): Part {
    var history := if p.epoch.Some? && p.epoch != Some(now) then p.history + [Fork(p.epoch.value, p.last, now)]
        else p.history;
    Part(NumberRows(p.rows, now, Start(p, now), batch), Some(now), Start(p, now) + Numbered(p.rows, batch), history)
  }

  function InsertRow(p: Part, body: Body, at: nat): Part {
    p.(rows := p.rows + [Row(body, at, Open, None)])
  }

  function SettleRow(p: Part, i: nat, fate: Fate): Part
    requires i < |p.rows|
  {
    p.(rows := p.rows[i := p.rows[i].(fate := fate)])
  }

  /** Every instant in the partition lies before `now`, and rows are born in insertion order. */
  ghost predicate Dated(p: Part, now: nat) {
    && (forall i :: 0 <= i < |p.rows| ==> p.rows[i].born < now)
    && (forall i :: 0 <= i < |p.rows| && p.rows[i].fate.Committed? ==> p.rows[i].born < p.rows[i].fate.at < now)
    && (forall i, j :: 0 <= i < j < |p.rows| ==> p.rows[i].born < p.rows[j].born)
    && (forall i :: 0 <= i < |p.rows| && p.rows[i].place.Some? ==> p.rows[i].fate.Committed?)
  }

  /** Positions never lie above the counter, and no two rows share one. */
  ghost predicate Distinct(p: Part) {
    && (forall i :: 0 <= i < |p.rows| && p.rows[i].place.Some? ==>
          p.epoch.Some? && p.rows[i].place.value.n >= 1 && AtMost(p.rows[i].place.value, Place(p.epoch.value, p.last)))
    && (forall i, j :: 0 <= i < j < |p.rows| && p.rows[i].place.Some? ==> p.rows[i].place != p.rows[j].place)
  }

  /** Row i was committed before row j was inserted. */
  predicate Precedes(rows: seq<Row>, i: nat, j: nat)
    requires i < |rows| && j < |rows|
  {
    rows[i].fate.Committed? && rows[i].fate.at < rows[j].born
  }

  /** A row committed before another was inserted is numbered no later, and at a smaller position. */
  ghost predicate InOrder(p: Part) {
    forall i, j :: 0 <= i < |p.rows| && 0 <= j < |p.rows| && Precedes(p.rows, i, j) && p.rows[j].place.Some? ==>
      p.rows[i].place.Some? && Less(p.rows[i].place.value, p.rows[j].place.value)
  }

  ghost predicate Handed(p: Part, at: Place) {
    exists i :: 0 <= i < |p.rows| && p.rows[i].place == Some(at)
  }

  /** The positions 1..top of an epoch were all handed out. */
  ghost predicate Dense(p: Part, e: Epoch, top: nat) {
    forall k :: 1 <= k <= top ==> Handed(p, Place(e, k))
  }

  /** ... and no others. */
  ghost predicate Exact(p: Part, e: Epoch, top: nat) {
    && Dense(p, e, top)
    && forall i :: 0 <= i < |p.rows| && p.rows[i].place.Some? && p.rows[i].place.value.epoch == e ==>
        1 <= p.rows[i].place.value.n <= top
  }

  /** In the counter's epoch and in every epoch of the history, the positions are exactly 1 up to where it ended. */
  ghost predicate Gapless(p: Part) {
    && (p.epoch.Some? ==> Exact(p, p.epoch.value, p.last))
    && (forall f :: f in p.history ==> p.epoch.Some? && EpochLess(f.left, p.epoch.value) && Exact(p, f.left, f.upTo))
  }

  ghost predicate PartOk(p: Part, now: nat) {
    Dated(p, now) && Distinct(p) && InOrder(p) && Gapless(p)
  }

  // ------------------------------------------------------------------ ranks

  lemma {:induction false} RankMonotone(rows: seq<Row>, i: nat, j: nat)
    requires i <= j <= |rows|
    ensures Rank(rows, i) <= Rank(rows, j)
    ensures i < j && Pending(rows[i]) ==> Rank(rows, i) < Rank(rows, j)
    decreases j
  {
    if i < j {
      RankMonotone(rows, i, j - 1);
    }
  }

  /** Every rank below the number of pending rows is some pending row's. */
  lemma {:induction false} RankAttained(rows: seq<Row>, n: nat, k: nat) returns (i: nat)
    requires n <= |rows| && k < Rank(rows, n)
    ensures i < n && Pending(rows[i]) && Rank(rows, i) == k
  {
    if k < Rank(rows, n - 1) {
      i := RankAttained(rows, n - 1, k);
    } else {
      i := n - 1;
    }
  }

  // ------------------------------------------------------------------ numbering

  /** The epoch the database declares is the counter's or a later one: epochs never come back. */
  predicate Current(p: Part, now: Epoch) {
    p.epoch.None? || p.epoch == Some(now) || EpochLess(p.epoch.value, now)
  }

  lemma NewPlaces(p: Part, now: Epoch, batch: nat, i: nat)
    requires i < |p.rows| && Current(p, now) && Distinct(p)
    ensures var q := Number(p, now, batch);
            && q.rows[i].(place := None) == p.rows[i].(place := None)
            && (p.rows[i].place.Some? ==> q.rows[i] == p.rows[i])
            && (q.rows[i] != p.rows[i] ==> Picked(p.rows, batch, i))
            && (Picked(p.rows, batch, i) ==>
                  && q.rows[i].place == Some(Place(now, Start(p, now) + 1 + Rank(p.rows, i)))
                  && Start(p, now) < q.rows[i].place.value.n <= q.last
                  && (p.epoch.Some? ==> Less(Place(p.epoch.value, p.last), q.rows[i].place.value)))
  {
    if Picked(p.rows, batch, i) {
      RankMonotone(p.rows, i, |p.rows|);
    }
  }

  lemma NumberDistinct(p: Part, now: Epoch, batch: nat)
    requires Current(p, now) && Distinct(p)
    ensures Distinct(Number(p, now, batch))
  {
    var q := Number(p, now, batch);
    forall i | 0 <= i < |q.rows| && q.rows[i].place.Some?
      ensures q.rows[i].place.value.n >= 1 && AtMost(q.rows[i].place.value, Place(now, q.last))
    {
      NewPlaces(p, now, batch, i);
    }
    forall i, j | 0 <= i < j < |q.rows| && q.rows[i].place.Some?
      ensures q.rows[i].place != q.rows[j].place
    {
      NewPlaces(p, now, batch, i);
      NewPlaces(p, now, batch, j);
      RankMonotone(p.rows, i, j);
    }
  }

  lemma NumberInOrder(p: Part, now: Epoch, at: nat, batch: nat)
    requires Current(p, now) && Dated(p, at) && Distinct(p) && InOrder(p)
    ensures InOrder(Number(p, now, batch))
  {
    var q := Number(p, now, batch);
    forall i, j | 0 <= i < |q.rows| && 0 <= j < |q.rows| && Precedes(q.rows, i, j) && q.rows[j].place.Some?
      ensures q.rows[i].place.Some? && Less(q.rows[i].place.value, q.rows[j].place.value)
    {
      NewPlaces(p, now, batch, i);
      NewPlaces(p, now, batch, j);
      assert Precedes(p.rows, i, j);
      assert p.rows[i].born < p.rows[j].born;
      assert i < j;
      if p.rows[j].place.None? {
        RankMonotone(p.rows, i, j);
      }
    }
  }

  lemma ExactKept(p: Part, now: Epoch, batch: nat, e: Epoch, top: nat)
    requires Current(p, now) && Distinct(p) && Exact(p, e, top) && EpochLess(e, now)
    ensures Exact(Number(p, now, batch), e, top)
  {
    var q := Number(p, now, batch);
    forall k | 1 <= k <= top
      ensures Handed(q, Place(e, k))
    {
      assert Handed(p, Place(e, k));
      var i :| 0 <= i < |p.rows| && p.rows[i].place == Some(Place(e, k));
      NewPlaces(p, now, batch, i);
      assert q.rows[i].place == Some(Place(e, k));
    }
    forall i | 0 <= i < |q.rows| && q.rows[i].place.Some? && q.rows[i].place.value.epoch == e
      ensures 1 <= q.rows[i].place.value.n <= top
    {
      NewPlaces(p, now, batch, i);
    }
  }

  lemma ExactExtended(p: Part, now: Epoch, batch: nat)
    requires Current(p, now) && Distinct(p) && (p.epoch == Some(now) ==> Exact(p, now, p.last))
    requires p.epoch != Some(now) ==> Exact(p, now, 0)
    ensures Exact(Number(p, now, batch), now, Number(p, now, batch).last)
  {
    var q := Number(p, now, batch);
    var start := Start(p, now);
    forall k | 1 <= k <= q.last
      ensures Handed(q, Place(now, k))
    {
      if k <= start {
        assert Handed(p, Place(now, k));
        var i :| 0 <= i < |p.rows| && p.rows[i].place == Some(Place(now, k));
        NewPlaces(p, now, batch, i);
        assert q.rows[i].place == Some(Place(now, k));
      } else {
        var i := RankAttained(p.rows, |p.rows|, k - start - 1);
        NewPlaces(p, now, batch, i);
        assert q.rows[i].place == Some(Place(now, k));
      }
    }
    forall i | 0 <= i < |q.rows| && q.rows[i].place.Some? && q.rows[i].place.value.epoch == now
      ensures 1 <= q.rows[i].place.value.n <= q.last
    {
      NewPlaces(p, now, batch, i);
    }
  }

  lemma NumberGapless(p: Part, now: Epoch, batch: nat)
    requires Current(p, now) && Distinct(p) && Gapless(p)
    ensures Gapless(Number(p, now, batch))
  {
    var q := Number(p, now, batch);
    if p.epoch != Some(now) {
      assert Exact(p, now, 0);
    }
    ExactExtended(p, now, batch);
    forall f | f in q.history
      ensures EpochLess(f.left, now) && Exact(q, f.left, f.upTo)
    {
      assert f in p.history || (p.epoch.Some? && f == Fork(p.epoch.value, p.last, now));
      ExactKept(p, now, batch, f.left, f.upTo);
    }
  }

  /** Numbering keeps everything a partition promises. */
  lemma NumberOk(p: Part, now: Epoch, at: nat, batch: nat)
    requires PartOk(p, at) && Current(p, now)
    ensures PartOk(Number(p, now, batch), at)
  {
    NumberDistinct(p, now, batch);
    NumberInOrder(p, now, at, batch);
    NumberGapless(p, now, batch);
    var q := Number(p, now, batch);
    forall i | 0 <= i < |q.rows|
      ensures q.rows[i].born == p.rows[i].born && q.rows[i].fate == p.rows[i].fate
      ensures q.rows[i].place.Some? ==> q.rows[i].fate.Committed?
    {
      NewPlaces(p, now, batch, i);
    }
  }

  /** The assumption `Current` is exact: under an epoch before the counter's, no batch keeps the promises. */
  lemma NumberOkExactly(p: Part, now: Epoch, at: nat, batch: nat)
    requires PartOk(p, at)
    ensures PartOk(Number(p, now, batch), at) <==> Current(p, now)
  {
    if Current(p, now) {
      NumberOk(p, now, at, batch);
    } else {
      var q := Number(p, now, batch);
      assert q.history[|p.history|] == Fork(p.epoch.value, p.last, now);
    }
  }

  /** Numbering under an epoch that was left hands its first position out again: two rows have it. */
  lemma ReturningEpochRepeats(p: Part, now: Epoch, batch: nat, f: Fork) returns (i: nat, j: nat)
    requires Gapless(p) && Distinct(p) && f in p.history && f.left == now && f.upTo >= 1
    requires Numbered(p.rows, batch) >= 1
    ensures i < |p.rows| && j < |p.rows| && i != j
    ensures Number(p, now, batch).rows[i].place == Number(p, now, batch).rows[j].place == Some(Place(now, 1))
  {
    assert Handed(p, Place(now, 1));
    i :| 0 <= i < |p.rows| && p.rows[i].place == Some(Place(now, 1));
    j := FirstPlace(p, now, batch);
  }

  /** The first pending row gets the epoch's next position. */
  lemma FirstPlace(p: Part, now: Epoch, batch: nat) returns (j: nat)
    requires Numbered(p.rows, batch) >= 1
    ensures j < |p.rows| && p.rows[j].place.None?
        && Number(p, now, batch).rows[j].place == Some(Place(now, Start(p, now) + 1))
  {
    j := RankAttained(p.rows, |p.rows|, 0);
    assert Picked(p.rows, batch, j);
  }

  lemma SamePlacesExact(p: Part, q: Part, e: Epoch, top: nat)
    requires |p.rows| <= |q.rows| && Exact(p, e, top)
    requires forall i :: 0 <= i < |p.rows| ==> q.rows[i].place == p.rows[i].place
    requires forall i :: |p.rows| <= i < |q.rows| ==> q.rows[i].place.None?
    ensures Exact(q, e, top)
  {
    forall k | 1 <= k <= top
      ensures Handed(q, Place(e, k))
    {
      assert Handed(p, Place(e, k));
      var i :| 0 <= i < |p.rows| && p.rows[i].place == Some(Place(e, k));
      assert q.rows[i].place == Some(Place(e, k));
    }
  }

  lemma InsertOk(p: Part, body: Body, at: nat)
    requires PartOk(p, at)
    ensures PartOk(InsertRow(p, body, at), at + 1)
  {
    var q := InsertRow(p, body, at);
    forall e, top | Exact(p, e, top)
      ensures Exact(q, e, top)
    {
      SamePlacesExact(p, q, e, top);
    }
    assert InOrder(q) by {
      forall i, j | 0 <= i < |q.rows| && 0 <= j < |q.rows| && Precedes(q.rows, i, j) && q.rows[j].place.Some?
        ensures q.rows[i].place.Some? && Less(q.rows[i].place.value, q.rows[j].place.value)
      {
        assert Precedes(p.rows, i, j);
      }
    }
  }

  lemma SettleOk(p: Part, i: nat, fate: Fate, at: nat)
    requires PartOk(p, at) && i < |p.rows| && p.rows[i].fate.Open?
    requires fate == Committed(at) || fate == Aborted
    ensures PartOk(SettleRow(p, i, fate), at + 1)
  {
    var q := SettleRow(p, i, fate);
    forall e, top | Exact(p, e, top)
      ensures Exact(q, e, top)
    {
      SamePlacesExact(p, q, e, top);
    }
    assert InOrder(q) by {
      forall k, j | 0 <= k < |q.rows| && 0 <= j < |q.rows| && Precedes(q.rows, k, j) && q.rows[j].place.Some?
        ensures q.rows[k].place.Some? && Less(q.rows[k].place.value, q.rows[j].place.value)
      {
        assert k != i;
        assert Precedes(p.rows, k, j);
      }
    }
  }

  lemma LaterOk(p: Part, at: nat)
    requires PartOk(p, at)
    ensures PartOk(p, at + 1)
  {
  }

  // ------------------------------------------------------------------ every run

  /** What may happen to a partition: concurrent inserts, commits in any order, aborts, batches, a new epoch. */
  datatype Event = Inserts(body: Body) | Commits(i: nat) | Aborts(i: nat) | NumbersBatch(batch: nat)
                 | Advances(to: Epoch)

  datatype World = World(part: Part, epoch: Epoch, now: nat)

  predicate Possible(w: World, e: Event) {
    match e
    case Inserts(_) => true
    case Commits(i) => i < |w.part.rows| && w.part.rows[i].fate.Open?
    case Aborts(i) => i < |w.part.rows| && w.part.rows[i].fate.Open?
    case NumbersBatch(_) => true
    case Advances(to) => EpochLess(w.epoch, to)
  }

  function After(w: World, e: Event): World
    requires Possible(w, e)
  {
    match e
    case Inserts(body) => World(InsertRow(w.part, body, w.now), w.epoch, w.now + 1)
    case Commits(i) => World(SettleRow(w.part, i, Committed(w.now)), w.epoch, w.now + 1)
    case Aborts(i) => World(SettleRow(w.part, i, Aborted), w.epoch, w.now + 1)
    case NumbersBatch(batch) => World(Number(w.part, w.epoch, batch), w.epoch, w.now + 1)
    case Advances(to) => World(w.part, to, w.now + 1)
  }

  /** Where a run of events leads from an empty outbox; nowhere when one of them could not happen. */
  function End(start: Epoch, run: seq<Event>): Option<World>
    decreases |run|
  {
    if run == [] then Some(World(EMPTY_PART, start, 0))
    else match End(start, run[..|run| - 1])
         case None => None
         case Some(w) => if Possible(w, run[|run| - 1]) then Some(After(w, run[|run| - 1])) else None
  }

  /**
    Numbering, over every run: within each epoch the positions handed out are exactly 1 up to the
    counter (or to the recorded fork), no position is handed out twice, and a row committed before
    another was inserted is numbered whenever that other is, at a smaller position.
   */
  lemma EventNumbers(v: World, e: Event)
    requires Possible(v, e) && PartOk(v.part, v.now) && Current(v.part, v.epoch)
    ensures PartOk(After(v, e).part, After(v, e).now) && Current(After(v, e).part, After(v, e).epoch)
  {
    match e
    case Inserts(body) => InsertOk(v.part, body, v.now);
    case Commits(i) => SettleOk(v.part, i, Committed(v.now), v.now);
    case Aborts(i) => SettleOk(v.part, i, Aborted, v.now);
    case NumbersBatch(batch) => BatchNumbers(v.part, v.epoch, v.now, batch);
    case Advances(_) => LaterOk(v.part, v.now);
  }

  lemma BatchNumbers(p: Part, e: Epoch, now: nat, batch: nat)
    requires PartOk(p, now) && Current(p, e)
    ensures PartOk(Number(p, e, batch), now + 1) && Current(Number(p, e, batch), e)
  {
    NumberOk(p, e, now, batch);
    LaterOk(Number(p, e, batch), now);
  }

  lemma {:induction false} EveryRunNumbers(start: Epoch, run: seq<Event>)
    requires End(start, run).Some?
    ensures var w := End(start, run).value;
            PartOk(w.part, w.now) && Current(w.part, w.epoch)
    decreases |run|
  {
    if run != [] {
      EveryRunNumbers(start, run[..|run| - 1]);
      EventNumbers(End(start, run[..|run| - 1]).value, run[|run| - 1]);
    }
  }

  // ------------------------------------------------------------------ the transactions

  /** A batch takes the pending rows in front of index k away, the earliest first. */
  lemma {:induction false} RankAfter(rows: seq<Row>, now: Epoch, start: nat, batch: nat, k: nat)
    requires k <= |rows|
    ensures Rank(NumberRows(rows, now, start, batch), k) == Rank(rows, k) - Min(batch, Rank(rows, k))
  {
    if k > 0 {
      RankAfter(rows, now, start, batch, k - 1);
    }
  }

  /** One round of numbering towards row i: nothing but places changes, new ones are of this epoch, and the row comes
      nearer. */
  lemma EchoRound(was: Part, now: Epoch, i: nat, batch: nat, at: nat)
    requires batch > 0 && PartOk(was, at) && Current(was, now) && i < |was.rows| && Pending(was.rows[i])
    ensures var next := Number(was, now, batch);
            && PartOk(next, at) && Current(next, now) && |next.rows| == |was.rows|
                && Rank(next.rows, i + 1) < Rank(was.rows, i + 1)
            && forall k :: 0 <= k < |was.rows| ==> next.rows[k].(place := None) == was.rows[k].(place := None)
                                                   && (next.rows[k] != was.rows[k] ==>
                                                       next.rows[k].place.Some? && next.rows[k].place.value.epoch
                                                       == now)
  {
    NumberOk(was, now, at, batch);
    RankAfter(was.rows, now, Start(was, now), batch, i + 1);
    forall k | 0 <= k < |was.rows|
      ensures Number(was, now, batch).rows[k].(place := None) == was.rows[k].(place := None)
      ensures Number(was, now, batch).rows[k] != was.rows[k] ==>
          Number(was, now, batch).rows[k].place.Some? && Number(was, now, batch).rows[k].place.value.epoch == now
    {
      NewPlaces(was, now, batch, k);
    }
  }

  class Outbox {
    var rows: seq<Row>
    var epoch: Option<Epoch>
    var last: nat
    var history: seq<Fork>

    function View(): Part
      reads this
    {
      Part(rows, epoch, last, history)
    }

    constructor ()
      ensures View() == EMPTY_PART
    {
      rows, epoch, last, history := [], None, 0, [];
    }

    /** One numbering transaction; the counter row is locked, so nothing comes between its statements. */
    method NumberIn(now: Epoch, batch: nat) returns (n: nat)
      modifies this
      ensures View() == Number(old(View()), now, batch)
      ensures n == Numbered(old(rows), batch)
    {
      var from := last;
      if epoch != Some(now) {
        if epoch.Some? {
          history := history + [Fork(epoch.value, last, now)];
        }
        from := 0;
      }
      n := Numbered(rows, batch);
      rows := NumberRows(rows, now, from, batch);
      epoch, last := Some(now), from + n;
    }

    /**
      Numbers the partition until the committed row i (an echo) has its position. Whatever the batch
      size, the loop ends, and everything committed before the row was inserted lies before it.
     */
    method NumberEcho(now: Epoch, i: nat, batch: nat, ghost at: nat) returns (place: Place)
      requires batch > 0 && PartOk(View(), at) && Current(View(), now)
      requires i < |rows| && rows[i].fate.Committed?
      modifies this
      ensures PartOk(View(), at) && Current(View(), now)
      ensures |rows| == |old(rows)| && rows[i].place == Some(place)
      ensures forall k :: 0 <= k < |rows| ==> rows[k].(place := None) == old(rows)[k].(place := None)
      ensures forall k :: 0 <= k < |rows| && Precedes(rows, k, i) ==>
          rows[k].place.Some? && Less(rows[k].place.value, place)
      ensures old(rows)[i].place.None? ==> place.epoch == now
    {
      while rows[i].place.None?
        invariant PartOk(View(), at) && Current(View(), now)
        invariant |rows| == |old(rows)|
        invariant forall k :: 0 <= k < |rows| ==> rows[k].(place := None) == old(rows)[k].(place := None)
        invariant old(rows)[i].place.None? && rows[i].place.Some? ==> rows[i].place.value.epoch == now
        decreases Rank(rows, i + 1)
      {
        ghost var was := View();
        var _ := NumberIn(now, batch);
        EchoRound(was, now, i, batch, at);
      }
      place := rows[i].place.value;
    }
  }
}
