/**
  The watermark's claim can always be made: from every state in which the consumer is aligned and has
  taken in what the source numbered, one pull, echoed on every partition and delivered, makes the answer
  "no older than the pull" yes. Such a state is reached from every installation, and so is the state in
  which a retried alignment shows the P0 of an earlier attempt.
 */
module PullRound {
  import opened Base
  import opened Numbering
  import opened SourceLog
  import opened Receive
  import opened Protocol
  import opened Freshness
  import opened Watermark
  import opened Runs
  import opened AlignmentRace

  /** Nothing waits on partition p: every committed row is numbered, and the consumer stands at the counter. */
  predicate CaughtUp(s: Sys, p: nat) {
    && p < |s.src.parts| && p < |s.con.parts| && s.src.parts[p].epoch == Some(s.src.epoch)
    && (forall i :: 0 <= i < |s.src.parts[p].rows| ==> !Pending(s.src.parts[p].rows[i]))
    && s.con.parts[p].pos == Some(s.src.parts[p].last)
  }

  predicate Settled(s: Sys) {
    && |s.src.parts| == |s.con.parts| > 0
    && s.con.proj.adopted == Some(Identity(IMPL, s.src.epoch)) && s.con.proj.status == Aligned
  }

  predicate AllCaughtUp(s: Sys) {
    Settled(s) && forall p :: 0 <= p < |s.con.parts| ==> CaughtUp(s, p)
  }

  /** Within a pull's round: the partitions before n have its echo, the others wait for it. */
  predicate Round(s: Sys, nonce: nat, m: Mark, n: nat) {
    && Settled(s) && n <= |s.con.parts| && nonce in s.con.pulls && s.con.pulls[nonce] == m
    && (forall p :: 0 <= p < n ==> s.con.parts[p].mark == Some(m))
    && (forall p :: n <= p < |s.con.parts| ==> CaughtUp(s, p))
  }

  /** A row of the adopted epoch at the next position, an echo of a recorded pull: it becomes the partition's mark. */
  lemma EchoHandled(c: Consumer, n: nat, r: Row)
    requires n < |c.parts| && r.place.Some? && r.body.Echo? && r.body.nonce in c.pulls && Admitted(c, r)
    requires c.proj.status == Aligned && c.parts[n].pos == Some(r.place.value.n - 1)
    ensures Handle(c, n, r, false, false) ==
        c.(parts := c.parts[n := c.parts[n].(pos := Some(r.place.value.n), mark := Some(c.pulls[r.body.nonce]))])
  {
  }

  lemma RoundNext(t: Sys, u: Sys, nonce: nat, m: Mark, n: nat)
    requires Round(t, nonce, m, n) && n < |t.con.parts| && n < |u.src.parts|
    requires Changed(t.src, u.src, n, u.src.parts[n])
    requires |u.con.parts| == |t.con.parts| && u.con.parts[n].mark == Some(m)
    requires u.con == t.con.(parts := t.con.parts[n := u.con.parts[n]])
    ensures Round(u, nonce, m, n + 1)
  {
    forall p | n + 1 <= p < |u.con.parts| ensures CaughtUp(u, p) {
      assert CaughtUp(t, p);
    }
  }

  /** The echo, published where nothing waited, is the consumer's next row. */
  lemma EchoDelivered(s: Sys, steps: seq<Step>, t: Sys, c: Sys, nonce: nat, m: Mark, n: nat)
    returns (more: seq<Step>, u: Sys)
    requires Round(t, nonce, m, n) && n < |t.con.parts| && Path(s, steps, c, {}) && c.con == t.con && n < |c.src.parts|
    requires Changed(t.src, c.src, n, c.src.parts[n])
    requires Grown(t.src.parts[n], c.src.parts[n], Echo(nonce), t.src.epoch)
    ensures Path(s, more, u, {}) && Round(u, nonce, m, n + 1) && u.src == c.src.(now := c.src.now + 1)
  {
    var k := |t.src.parts[n].rows|;
    assert CaughtUp(t, n);
    EchoHandled(c.con, n, c.src.parts[n].rows[k]);
    more, u := Consuming(s, steps, c, {}, Deliver(n, k, false, false));
    RoundNext(t, u, nonce, m, n);
  }

  lemma EchoedOn(s: Sys, steps: seq<Step>, t: Sys, nonce: nat, m: Mark, n: nat) returns (more: seq<Step>, u: Sys)
    requires Path(s, steps, t, {}) && Round(t, nonce, m, n) && n < |t.con.parts|
    ensures Path(s, more, u, {}) && Round(u, nonce, m, n + 1) && |u.con.parts| == |t.con.parts|
    ensures PlacedStay(t.src, u.src)
  {
    var c;
    more, c := Publish(s, steps, t, {}, n, Echo(nonce));
    more, u := EchoDelivered(s, more, t, c, nonce, m, n);
    PathParts(s, steps, t, {}, more, u);
    GrownStay(t.src, u.src, n, Echo(nonce));
  }

  /** Numbered rows stay as they are. */
  predicate PlacedStay(a: Source, b: Source) {
    && |a.parts| == |b.parts| && a.epoch == b.epoch
    && forall p, i :: 0 <= p < |a.parts| && 0 <= i < |a.parts[p].rows| && a.parts[p].rows[i].place.Some? ==>
        i < |b.parts[p].rows| && b.parts[p].rows[i] == a.parts[p].rows[i]
  }

  lemma GrownStay(a: Source, b: Source, n: nat, body: Body)
    requires n < |a.parts| && n < |b.parts| && Changed(a, b, n, b.parts[n])
        && Grown(a.parts[n], b.parts[n], body, a.epoch)
    ensures PlacedStay(a, b)
  {
    forall p, i | 0 <= p < |a.parts| && 0 <= i < |a.parts[p].rows| && a.parts[p].rows[i].place.Some?
      ensures i < |b.parts[p].rows| && b.parts[p].rows[i] == a.parts[p].rows[i]
    {
      if p == n {
        assert b.parts[p].rows[i].(place := None) == a.parts[p].rows[i].(place := None);
      }
    }
  }

  lemma PathParts(s: Sys, steps: seq<Step>, t: Sys, bad: set<Step>, more: seq<Step>, u: Sys)
    requires Path(s, steps, t, bad) && Path(s, more, u, bad)
    ensures |t.con.parts| == |u.con.parts|
  {
  }

  lemma {:induction false} Rounded(s: Sys, steps: seq<Step>, t: Sys, nonce: nat, m: Mark, n: nat)
      returns (more: seq<Step>, u: Sys)
    requires Path(s, steps, t, {}) && Round(t, nonce, m, n)
    ensures Path(s, more, u, {}) && Round(u, nonce, m, |u.con.parts|) && PlacedStay(t.src, u.src)
    decreases |t.con.parts| - n
  {
    if n == |t.con.parts| {
      more, u := steps, t;
    } else {
      var v;
      more, v := EchoedOn(s, steps, t, nonce, m, n);
      more, u := Rounded(s, more, v, nonce, m, n + 1);
    }
  }

  /** There always is an unused nonce. */
  lemma SomeNonce(s: Sys) returns (nonce: nat)
    ensures FreshNonce(s, nonce)
  {
    var used := set p, i | 0 <= p < |s.src.parts| && 0 <= i < |s.src.parts[p].rows| && s.src.parts[p].rows[i].body.Echo?
                  :: s.src.parts[p].rows[i].body.nonce;
    nonce := Bounded(used + s.con.pulls.Keys);
    forall p, i | 0 <= p < |s.src.parts| && 0 <= i < |s.src.parts[p].rows|
        ensures s.src.parts[p].rows[i].body != Echo(nonce) {
      assert s.src.parts[p].rows[i].body.Echo? ==> s.src.parts[p].rows[i].body.nonce in used;
    }
  }

  lemma Recorded(s: Sys, steps: seq<Step>, t: Sys, nonce: nat) returns (more: seq<Step>, u: Sys)
    requires Path(s, steps, t, {}) && AllCaughtUp(t) && FreshNonce(t, nonce)
    ensures Path(s, more, u, {}) && Round(u, nonce, Mark(t.clock, t.src.now), 0)
        && u.src == t.src.(now := t.src.now + 1)
  {
    more, u := Consuming(s, steps, t, {}, Record(nonce, false));
    forall p | 0 <= p < |u.con.parts| ensures CaughtUp(u, p) {
      assert CaughtUp(t, p);
    }
  }

  /** One pull from a settled, caught-up state: a guarded run after which the watermark is no older than the pull. */
  lemma PullAnswersYes(s: Sys, steps: seq<Step>, t: Sys) returns (more: seq<Step>, u: Sys)
    requires Path(s, steps, t, {}) && AllCaughtUp(t)
    ensures Path(s, more, u, {}) && NoOlderThan(u.con, t.clock)
    ensures Settled(u) && PlacedStay(t.src, u.src) && forall p :: 0 <= p < |u.con.parts| ==>
        u.con.parts[p].mark == Some(Mark(t.clock, t.src.now))
  {
    var nonce := SomeNonce(t);
    var v;
    more, v := Recorded(s, steps, t, nonce);
    more, u := Rounded(s, more, v, nonce, Mark(t.clock, t.src.now), 0);
  }

  // ------------------------------------------------------------------ from installation

  /** First contact and a generation begun. */
  lemma Begins(start: Sys) returns (steps: seq<Step>, t: Sys)
    requires Installed(start) && |start.src.parts| > 0
    ensures Path(start, steps, t, {}) && Begun(t) && t.clock == start.clock
  {
    InitOk(start);
    NoPath(start, {});
    steps, t := Consuming(start, [], start, {}, Adopt(start.src.epoch));
    steps, t := Consuming(start, steps, t, {}, StartGen(start.src.epoch, Aligning));
  }

  /** Every installation can complete an alignment ... */
  lemma AlignmentIsReached(start: Sys) returns (steps: seq<Step>, t: Sys)
    requires Installed(start) && |start.src.parts| > 0
    ensures Path(start, steps, t, {}) && AllCaughtUp(t) && t.clock == start.clock
  {
    var s;
    steps, s := Begins(start);
    steps, t := Completes(start, steps, s);
  }

  /** From a generation begun to its completion, with an echo at every counter. */
  lemma Completes(start: Sys, steps: seq<Step>, s: Sys) returns (more: seq<Step>, t: Sys)
    requires Path(start, steps, s, {}) && Begun(s)
    ensures Path(start, more, t, {}) && AllCaughtUp(t) && t.clock == s.clock && t.src.epoch == s.src.epoch
    ensures forall p :: 0 <= p < |t.src.parts| ==> Echoed(t.src.parts[p], t.src.epoch)
  {
    var u, v;
    more, u := SaveCounters(start, steps, s, {}, {});
    more, v := Sweep(start, more, u, {}, Counters(u.src), {});
    more, t := CompleteRun(start, more, v, {}, Counters(u.src));
    forall p | 0 <= p < |t.con.parts| ensures CaughtUp(t, p) {
      assert Echoed(u.src.parts[p], u.src.epoch);
    }
  }

  /** ... and answer yes ... */
  lemma YesIsReached(start: Sys) returns (steps: seq<Step>, t: Sys)
    requires Installed(start) && |start.src.parts| > 0
    ensures From(start, steps) == Some(t) && AllGuarded(start, steps) && NoOlderThan(t.con, start.clock)
  {
    var u;
    steps, u := AlignmentIsReached(start);
    steps, t := PullAnswersYes(start, steps, u);
    PathIsGuarded(start, steps, t);
  }

  lemma FetchingIsReached(start: Sys) returns (steps: seq<Step>, t: Sys)
    requires Installed(start) && |start.src.parts| > 0
    ensures Path(start, steps, t, {}) && Fetching(t, Counters(t.src), {})
  {
    steps, t := Begins(start);
    steps, t := SaveCounters(start, steps, t, {}, {});
  }

  /** ... or fail after its P0 was saved and try again, with that P0 left. */
  lemma LeftoverIsReached(start: Sys, p: nat) returns (steps: seq<Step>, t: Sys)
    requires Installed(start) && p < |start.src.parts|
    ensures From(start, steps) == Some(t) && AllGuarded(start, steps) && AllAlone(start, steps)
    ensures Tabled(t) && Begun(t) && Leftover(t, p)
  {
    var u;
    steps, u := FetchingIsReached(start);
    PathIsGuarded(start, steps, u);
    EveryGuardedRun(start, steps);
    RetryLeavesP0(u, p);
    var returned;
    steps, returned := Longer(start, steps, u, {}, Abandon(u.con.proj.gen));
    steps, t := Longer(start, steps, returned, {}, StartGen(returned.src.epoch, Aligning));
    PathIsGuarded(start, steps, t);
  }

  /** So one loop alone, from every installation, can complete an alignment with a deletion missing. */
  lemma OneLoopLosesADeletion(start: Sys, p: nat)
      returns (steps: seq<Step>, s: Sys, more: seq<Step>, t: Sys, j: nat, k: nat)
    requires Installed(start) && p < |start.src.parts|
    ensures From(start, steps) == Some(s) && AllGuarded(start, steps) && AllAlone(start, steps)
    ensures Path(s, more, t, {Deliver(p, j, false, false)}) && AllAlone(s, more)
    ensures Missing(t, p, k) && t.src.parts[p].rows[k].body.kind == Delete
  {
    steps, s := LeftoverIsReached(start, p);
    more, t, j, k := EarlyRowLosesADeletion(s, p, false);
    StreamIsAlone(s, more, {Deliver(p, j, false, false)});
  }

  /** First contact in one epoch; the source then enters the next. */
  lemma AdoptsFirst(start: Sys) returns (steps: seq<Step>, t: Sys)
    requires Installed(start) && |start.src.parts| > 0
    ensures Path(start, steps, t, {}) && t.src.epoch == NextEpoch(start.src.epoch) && t.con.runs == map[]
    ensures t.con.proj == start.con.proj.(adopted := Some(Identity(IMPL, start.src.epoch)))
  {
    InitOk(start);
    NoPath(start, {});
    var s;
    steps, s := Consuming(start, [], start, {}, Adopt(start.src.epoch));
    steps, t := Moving(start, steps, s, {}, Advance(NextEpoch(start.src.epoch)));
  }

  /** Which is adopted in turn, and a generation begun in it. */
  lemma BeginsAgain(start: Sys) returns (steps: seq<Step>, t: Sys)
    requires Installed(start) && |start.src.parts| > 0
    ensures Path(start, steps, t, {}) && Begun(t) && t.src.epoch == NextEpoch(start.src.epoch)
  {
    var s, u;
    steps, s := AdoptsFirst(start);
    steps, u := Consuming(start, steps, s, {}, Adopt(s.src.epoch));
    steps, t := Consuming(start, steps, u, {}, StartGen(u.src.epoch, Aligning));
  }

  lemma EchoIsMarked(t: Sys, u: Sys, p: nat) returns (i: nat)
    requires Tabled(t) && p < |t.src.parts| && Echoed(t.src.parts[p], t.src.epoch) && PlacedStay(t.src, u.src)
    requires Settled(u) && p < |u.con.parts| && u.con.parts[p].mark == Some(Mark(t.clock, t.src.now))
    ensures Marked(u, p, i)
  {
    assert PartOk(t.src.parts[p], t.src.now);
    i :| 0 <= i < |t.src.parts[p].rows| && t.src.parts[p].rows[i].place
        == Some(Place(t.src.epoch, t.src.parts[p].last));
  }

  /**
    From every installation a guarded run of one loop adopts an epoch, adopts and aligns the next, and marks
    a pull; a generation started for the first epoch then outdates the mark.
   */
  lemma MarkIsOutdated(start: Sys, p: nat) returns (steps: seq<Step>, t: Sys, i: nat)
    requires Installed(start) && p < |start.src.parts|
    ensures From(start, steps) == Some(t) && AllGuarded(start, steps) && AllAlone(start, steps)
    ensures Marked(t, p, i) && Live(t.con) && CanStep(t, StartGen(start.src.epoch, Aligning))
    ensures Outdated(t, Do(t, StartGen(start.src.epoch, Aligning)), p, i)
  {
    var s, u;
    steps, s := BeginsAgain(start);
    steps, u := Completes(start, steps, s);
    steps, t := PullAnswersYes(start, steps, u);
    i := EchoIsMarked(u, t, p);
    PathIsGuarded(start, steps, t);
    EveryGuardedRun(start, steps);
    EarlierIdentityOutdatesTheMark(t, start.src.epoch, Aligning, p, i);
  }
}
