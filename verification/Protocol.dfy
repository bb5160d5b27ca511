/**
  A watermark source and one consumer of it, as a system of atomic steps (projection/watermark.go,
  projection/align.go, events/watermark.go): every transaction is one step, and steps of the source,
  the stream, the pulls and the alignments interleave freely. Delivery is modelled as "any numbered
  row, any time, any number of times, in any order", which covers the stream and the pages of a pull.
 */
module Protocol {
  import opened Base
  import opened Numbering
  import opened SourceLog
  import opened Receive

  const IMPL: nat := 1

  /** A recorded pull: m_p on the consumer primary's clock, and the instant of the recording. */
  datatype Mark = Mark(mp: int, at: nat)

  /** be_watermark_partition: the contiguous position, P0 while aligning, the last own echo's m_p. */
  datatype PartState = PartState(pos: Option<nat>, p0: Option<nat>, mark: Option<Mark>)

  const BLANK := PartState(None, None, None)

  /** One run of alignTo: its identity, P0 and when it was saved, the IDs its pages spanned, an empty by-ID round. */
  datatype Run = Run(epoch: Epoch, since: Option<nat>, p0: seq<nat>, covered: set<nat>, emptied: bool)

  datatype Consumer = Consumer(proj: Projection, parts: seq<PartState>, pulls: map<nat, Mark>, maxSeen: Option<int>,
                               runs: map<nat, Run>, quarantined: set<(nat, Place)>)

  /** readings[i] is the consumer primary's clock at instant i. */
  datatype Sys = Sys(src: Source, con: Consumer, clock: int, readings: seq<int>)

  // ------------------------------------------------------------------ the stream's handler

  function KindOf(k: Kind): InputKind {
    match k
    case Full => IsFull
    case Partial => IsPartial
    case Delete => IsDelete
  }

  function InputOf(r: Row): Input
    requires r.body.Change? && r.place.Some?
  {
    Input(r.body.id, KindOf(r.body.kind), r.body.version, IMPL, r.place.value.epoch,
          if r.body.kind == Full then Whole(r.body.id, r.body.version)
              else Fields(r.body.id, r.body.version), r.place.value.n)
  }

  /** The row's effect on the projection: applied, or its subjects quarantined when it keeps failing. */
  function TakeIn(c: Consumer, p: nat, r: Row, quarantine: bool): Consumer
    requires r.place.Some?
  {
    if quarantine then c.(quarantined := c.quarantined + {(p, r.place.value)})
    else if r.body.Change? then c.(proj := Apply(c.proj, InputOf(r)).0)
    else c
  }

  /** The contiguous position moves to the row; an echo of a pull still recorded becomes the partition's mark. */
  function MoveTo(c: Consumer, p: nat, r: Row, quarantine: bool): Consumer
    requires r.place.Some? && p < |c.parts|
  {
    var mark := if !quarantine && r.body.Echo? && r.body.nonce in c.pulls then Some(c.pulls[r.body.nonce])
        else c.parts[p].mark;
    c.(parts := c.parts[p := c.parts[p].(pos := Some(r.place.value.n), mark := mark)])
  }

  /** The row is of the adopted instance and epoch, and the source is not blocked. */
  predicate Admitted(c: Consumer, r: Row)
    requires r.place.Some?
  {
    c.proj.adopted.Some? && r.place.value.epoch == c.proj.adopted.value.epoch && c.proj.status != Blocked
  }

  /** Handle (page: applyPage) for one row that does not fail now. */
  function Handle(c: Consumer, p: nat, r: Row, quarantine: bool, page: bool): Consumer
    requires r.place.Some? && p < |c.parts|
  {
    var ps, n := c.parts[p], r.place.value.n;
    if !Admitted(c, r) then c
    else if c.proj.status == Aligning then
      if !page && (ps.p0.None? || n <= ps.p0.value) then c else TakeIn(c, p, r, quarantine)
    else if ps.pos.None? || n != ps.pos.value + 1 then c
    else MoveTo(TakeIn(c, p, r, quarantine), p, r, quarantine)
  }

  // ------------------------------------------------------------------ alignment

  /** What an alignment writes for one answer: the snapshot only what exists, a by-ID read deletions and purges too. */
  function Fetched(run: Run, g: nat, home: nat, id: nat, a: Answer, byId: bool): Option<Rec>
  {
    match a
    case There(v) => Some(Rec(Complete, v, None, IMPL, run.epoch, Some(g), None, Some(Whole(id, v))))
    case Gone(v) => if byId then Some(Rec(Tombstone, v, None, IMPL, run.epoch, Some(g), None, None)) else None
    case Purged =>
      if byId then Some(Rec(Tombstone, 0, None, IMPL, run.epoch, Some(g), if home < |run.p0| then Some(run.p0[home])
          else None, None))
      else None
    case NotThere => None
  }

  /** put: overwrites without comparing versions, except a row of this generation, only by a newer one. */
  predicate Puts(rows: map<nat, Rec>, id: nat, f: Rec, g: nat) {
    id !in rows || rows[id].gen != Some(g) || rows[id].version < f.version
  }

  function PutAll(rows: map<nat, Rec>, src: Source, run: Run, g: nat, ids: set<nat>, t: nat, byId: bool): map<nat, Rec>
    requires |src.parts| > 0
  {
    map id | id in rows.Keys + ids && (id in rows
        || Fetched(run, g, Home(src, id), id, Read(src, id, t), byId).Some?) ::
      var f := Fetched(run, g, Home(src, id), id, Read(src, id, t), byId);
      if id in ids && f.Some? && Puts(rows, id, f.value, g) then f.value
      else if id in rows then rows[id] else f.value
  }

  // ------------------------------------------------------------------ steps

  datatype Step =
    | Src(move: Move)                                             // the source
    | Tick(clock: int)                                            // the consumer's clock, forwards or back
    | Record(nonce: nat, epochChanged: bool)                      // a pull is recorded before it is sent
    | SetStatus(status: Status)                                   // a transition of the alignment state table
    | Adopt(epoch: Epoch)                                         // a pull's answer establishes or adopts an epoch
    | Deliver(p: nat, i: nat, quarantine: bool, page: bool)       // one row reaches the consumer
    | StartGen(epoch: Epoch, status: Status)                      // alignTo begins a generation
    | SaveP0(g: nat, p0: seq<nat>)                                // the echo-only pull's answer is saved
    | Fetch(g: nat, ids: set<nat>, t: nat, byId: bool)            // a page, or a by-ID batch, read at t and now written
    // a by-ID round that found no row outside the generation
    | Emptied(g: nat)
    | Finish(g: nat, status: Status)                              // the completion transaction
    | Abandon(g: nat)                                             // an alignment returned without completing

  /** No echo carries the nonce yet: 128 random bits. */
  ghost predicate FreshNonce(s: Sys, nonce: nat) {
    && nonce !in s.con.pulls
    && forall p, i :: 0 <= p < |s.src.parts| && 0 <= i < |s.src.parts[p].rows| ==>
        s.src.parts[p].rows[i].body != Echo(nonce)
  }

  /** Every page of the snapshot was read: each record with a change before the snapshot lies in one of them. */
  ghost predicate PagesDone(s: Sys, run: Run)
  {
    run.since.Some? &&
    forall p, i :: 0 <= p < |s.src.parts| && 0 <= i < |s.src.parts[p].rows| ==>
      var r := s.src.parts[p].rows[i];
      r.body.Change? && r.fate.Committed? && r.fate.at < run.since.value ==> r.body.id in run.covered
  }

  ghost predicate CanStep(s: Sys, step: Step)
    requires |s.src.parts| > 0
  {
    match step
    case Src(m) => CanMove(s.src, m)
    case Record(nonce, _) => FreshNonce(s, nonce)
    case SetStatus(status) => status == Aligned ==> s.con.proj.status == Aligned  // only a completion aligns
    case Adopt(e) =>
      && !EpochLess(s.src.epoch, e)
      && (s.con.proj.adopted.Some? ==> EpochLess(s.con.proj.adopted.value.epoch, e))
    case Deliver(p, i, quarantine, _) =>
      && p < |s.src.parts| && p < |s.con.parts| && i < |s.src.parts[p].rows| && s.src.parts[p].rows[i].place.Some?
      && (quarantine ==> s.src.parts[p].rows[i].body.Change?)  // an echo lists no subjects
    case StartGen(e, status) => s.con.proj.adopted.Some? && !EpochLess(s.src.epoch, e) && status != Aligned
    case SaveP0(g, p0) =>
      && g in s.con.runs && s.con.runs[g].since.None? && |p0| == |s.src.parts|
      && forall p :: 0 <= p < |p0| ==> Handed(s.src.parts[p], Place(s.con.runs[g].epoch, p0[p]))
    case Fetch(g, _, t, _) => g in s.con.runs && s.con.runs[g].since.Some?
        && s.con.runs[g].since.value <= t <= s.src.now
    case Emptied(g) =>
      && g in s.con.runs && PagesDone(s, s.con.runs[g])
      && forall id :: id in s.con.proj.rows ==> s.con.proj.rows[id].gen == Some(g)
    case Finish(g, status) =>
      && g in s.con.runs && s.con.runs[g].emptied
      && (if s.con.proj.status == Aligning then status == Aligned || status == Stalled else status == s.con.proj.status)
    case Abandon(g) => g in s.con.runs
    case _ => true
  }

  /** record: every watermark is dropped when the clock went back or the consumer's own epoch changed. */
  function DoRecord(c: Consumer, clock: int, now: nat, nonce: nat, epochChanged: bool): Consumer {
    var reset := (c.maxSeen.Some? && clock < c.maxSeen.value) || epochChanged;
    var pulls := if reset then map[] else c.pulls;
    var parts := if reset then seq(|c.parts|, i requires 0 <= i < |c.parts| => c.parts[i].(mark := None)) else c.parts;
    var seen := if c.maxSeen.Some? then Max(c.maxSeen.value, clock) else clock;
    c.(pulls := pulls[nonce := Mark(clock, now)], parts := parts, maxSeen := Some(seen))
  }

  function DoStart(c: Consumer, e: Epoch, status: Status): Consumer {
    var g := c.proj.gen + 1;
    c.(proj := c.proj.(gen := g, adopted := Some(Identity(IMPL, e)), status := status), runs :=
        c.runs[g := Run(e, None, [], {}, false)])
  }

  function DoSaveP0(c: Consumer, g: nat, p0: seq<nat>, now: nat): Consumer
    requires g in c.runs
  {
    c.(parts := seq(|c.parts|, i requires 0 <= i < |c.parts| => PartState(None, if i < |p0| then Some(p0[i])
        else None, None)),
       runs := c.runs[g := c.runs[g].(since := Some(now), p0 := p0)])
  }

  function DoFetch(s: Sys, g: nat, ids: set<nat>, t: nat, byId: bool): Consumer
    requires |s.src.parts| > 0 && g in s.con.runs
  {
    var c, run := s.con, s.con.runs[g];
    c.(proj := c.proj.(rows := PutAll(c.proj.rows, s.src, run, g, ids, t, byId)),
       runs := c.runs[g := run.(covered := if byId then run.covered else run.covered + ids)])
  }

  function DoFinish(c: Consumer, g: nat, status: Status): Consumer
    requires g in c.runs
  {
    var run := c.runs[g];
    c.(parts := seq(|c.parts|, i requires 0 <= i < |c.parts| => PartState(if i < |run.p0| then Some(run.p0[i])
        else None, None, None)),
       proj := c.proj.(status := status), runs := c.runs - {g},
       quarantined := set q | q in c.quarantined && c.proj.adopted.Some? && q.1.epoch == c.proj.adopted.value.epoch
                                && q.0 < |run.p0| && q.1.n > run.p0[q.0])
  }

  /** The consumer after a step. Every write of an alignment first checks that its generation is still the current one.
      */
  function Consumed(s: Sys, step: Step): Consumer
    requires |s.src.parts| > 0 && CanStep(s, step)
  {
    var c := s.con;
    match step
    case Src(_) => c
    case Tick(_) => c
    case Record(nonce, epochChanged) => DoRecord(c, s.clock, s.src.now, nonce, epochChanged)
    case SetStatus(status) => c.(proj := c.proj.(status := status))
    case Adopt(e) =>
      c.(proj := c.proj.(adopted := Some(Identity(IMPL, e))), parts :=
          seq(|c.parts|, i requires 0 <= i < |c.parts| => BLANK))
    case Deliver(p, i, quarantine, page) => Handle(c, p, s.src.parts[p].rows[i], quarantine, page)
    case StartGen(e, status) => DoStart(c, e, status)
    case SaveP0(g, p0) => if g == c.proj.gen then DoSaveP0(c, g, p0, s.src.now) else c
    case Fetch(g, ids, t, byId) => if g == c.proj.gen then DoFetch(s, g, ids, t, byId) else c
    case Emptied(g) => c.(runs := c.runs[g := c.runs[g].(emptied := true)])
    case Finish(g, status) => if g == c.proj.gen then DoFinish(c, g, status) else c
    case Abandon(g) => c.(runs := c.runs - {g})
  }

  function Do(s: Sys, step: Step): Sys
    requires |s.src.parts| > 0 && CanStep(s, step)
  {
    Sys(Moved(s.src, if step.Src? then step.move else Pass), Consumed(s, step), if step.Tick? then step.clock
        else s.clock,
        s.readings + [s.clock])
  }

  /** Installed: aligning, nothing adopted. */
  function Init(partitions: nat, epoch: Epoch, clock: int): Sys {
    Sys(Source(seq(partitions, i => EMPTY_PART), epoch, map[], 0),
        Consumer(Projection(None, Aligning, 0, map[]), seq(partitions, i => BLANK), map[], None, map[], {}), clock, [])
  }

  /** Where steps lead from a state; nowhere when one of them could not happen. */
  ghost function From(s: Sys, steps: seq<Step>): Option<Sys>
    ensures From(s, steps).Some? ==> |From(s, steps).value.src.parts| == |s.src.parts| > 0
    decreases |steps|
  {
    if |s.src.parts| == 0 then None
    else if steps == [] then Some(s)
    else match From(s, steps[..|steps| - 1])
         case None => None
         case Some(t) => if CanStep(t, steps[|steps| - 1]) then Some(Do(t, steps[|steps| - 1])) else None
  }

  // ------------------------------------------------------------------ what the code leaves to its callers

  /** The delivery writes a row of the projection. */
  predicate Writes(c: Consumer, p: nat, r: Row, quarantine: bool, page: bool) {
    r.place.Some? && p < |c.parts| && Handle(c, p, r, quarantine, page).proj.rows != c.proj.rows
  }

  /** The current generation's alignment is under way, for the identity that is still the adopted one. */
  predicate Underway(c: Consumer) {
    c.proj.gen in c.runs && c.proj.adopted == Some(Identity(IMPL, c.runs[c.proj.gen].epoch))
  }

  /**
    The races the generation check does not close. While aligning, no row is written from the stream or a
    page before the generation's P0 is saved, nor from a position at or below it; and an alignment that
    makes the source aligned finds the identity it was started for.
   */
  ghost predicate Guarded(s: Sys, step: Step) {
    var c := s.con;
    match step
    case Deliver(p, i, quarantine, page) =>
      p < |s.src.parts| && i < |s.src.parts[p].rows| && c.proj.status == Aligning && Underway(c)
      && Writes(c, p, s.src.parts[p].rows[i], quarantine, page) ==>
        var run := c.runs[c.proj.gen];
        run.since.Some? && p < |run.p0| && s.src.parts[p].rows[i].place.value.n > run.p0[p]
    case Finish(g, status) => g == c.proj.gen && status == Aligned ==> Underway(c)
    case _ => true
  }

  ghost predicate AllGuarded(s: Sys, steps: seq<Step>) {
    forall k :: 0 <= k < |steps| && From(s, steps[..k]).Some? ==> Guarded(From(s, steps[..k]).value, steps[k])
  }

  /**
    One loop does one pull or alignment at a time: a pull's pages and adoptions, and the start of an
    alignment, come when the current generation's alignment has completed or returned.
   */
  predicate Alone(s: Sys, step: Step) {
    (step.Deliver? && step.page) || step.Adopt? || step.StartGen? ==> s.con.proj.gen !in s.con.runs
  }

  ghost predicate AllAlone(s: Sys, steps: seq<Step>)
    decreases |steps|
  {
    steps == [] ||
    var front, last := steps[..|steps| - 1], steps[|steps| - 1];
    AllAlone(s, front) && (From(s, front).Some? ==> Alone(From(s, front).value, last))
  }
}
