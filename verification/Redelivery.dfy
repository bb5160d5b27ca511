/** Where each partition's redelivery starts (events/redelivery.go): the least progress of a stream's readers. */
module Redelivery {
  import opened Numbering
  import opened Progress

  type Points = map<SourceKey, Place>

  /** A partition of the source stream asked about. */
  predicate On(k: SourceKey, component: string, stream: string, n: int) {
    k.component == component && k.stream == stream && k.partition == n
  }

  function PointsOf(progress: map<string, Points>, sub: string): Points {
    if sub in progress then progress[sub] else map[]
  }

  datatype Start = Start(impl: string, point: Place)

  // ------------------------------------------------------------------ what is asked

  /** A reader's progress on the partition. */
  ghost predicate Reads(points: Points, k: SourceKey, component: string, stream: string, n: int) {
    k in points && On(k, component, stream, n)
  }

  ghost predicate HasProgress(points: Points, component: string, stream: string, n: int) {
    exists k :: Reads(points, k, component, stream, n)
  }

  /** Every reader has progress there, all of it on one implementation instance. */
  ghost predicate Listable(all: seq<Points>, component: string, stream: string, n: int) {
    && all != []
    && (forall i :: 0 <= i < |all| ==> HasProgress(all[i], component, stream, n))
    && (forall i, j, k, l :: 0 <= i < |all| && 0 <= j < |all| && Reads(all[i], k, component, stream, n)
                             && Reads(all[j], l, component, stream, n) ==>
          k.impl == l.impl)
  }

  /** The start is some reader's point there, and no reader's point is before it. */
  ghost predicate IsLeast(all: seq<Points>, component: string, stream: string, n: int, st: Start) {
    && (exists i, k :: 0 <= i < |all| && Reads(all[i], k, component, stream, n) && all[i][k] == st.point
                       && k.impl == st.impl)
    && (forall i, k :: 0 <= i < |all| && Reads(all[i], k, component, stream, n) ==>
        AtMost(st.point, all[i][k]) && k.impl == st.impl)
  }

  // ------------------------------------------------------------------ the loops

  /** What has been visited: all of the readers before the i-th, and some keys of the i-th. */
  ghost predicate Visited(all: seq<Points>, i: nat, done: set<SourceKey>, j: int, k: SourceKey, component: string,
      stream: string, n: int) {
    0 <= j < |all| && Reads(all[j], k, component, stream, n) && (j < i || (j == i && k in done))
  }

  /** Why a partition is left open: two instances, or a reader without progress there. */
  ghost predicate Spoiled(all: seq<Points>, component: string, stream: string, n: int) {
    || (exists i, j, k, l :: 0 <= i < |all| && 0 <= j < |all| && Reads(all[i], k, component, stream, n)
                             && Reads(all[j], l, component, stream, n) && k.impl != l.impl)
    || (exists i :: 0 <= i < |all| && !HasProgress(all[i], component, stream, n))
  }

  /** What the loops know of one partition. */
  ghost predicate Knows(all: seq<Points>, i: nat, done: set<SourceKey>, starts: map<int, Start>, open: set<int>,
      component: string, stream: string, n: int) {
    && (n in open ==> n in starts && Spoiled(all, component, stream, n))
    && (n in starts ==>
          exists j, k :: Visited(all, i, done, j, k, component, stream, n) && all[j][k] == starts[n].point
                         && k.impl == starts[n].impl)
    && (n in starts && n !in open ==>
          forall j, k :: Visited(all, i, done, j, k, component, stream, n) ==>
              AtMost(starts[n].point, all[j][k]) && k.impl == starts[n].impl)
    && (n in starts && n !in open ==> forall j :: 0 <= j < i && j < |all| ==> HasProgress(all[j], component, stream, n))
    && (n !in starts ==> forall k :: !Visited(all, i, done, 0, k, component, stream, n))
  }

  /** One key more of the i-th reader, as the switch treats it. */
  function Take(i: nat, starts: map<int, Start>, open: set<int>, k: SourceKey, p: Place): (map<int, Start>, set<int>) {
    var n := k.partition;
    if n in open then (starts, open)
    else if n !in starts then (if i > 0 then starts else starts[n := Start(k.impl, p)], open)
    else if starts[n].impl != k.impl then (starts, open + {n})
    else if Less(p, starts[n].point) then (starts[n := starts[n].(point := p)], open)
    else (starts, open)
  }

  lemma VisitedMore(all: seq<Points>, i: nat, done: set<SourceKey>, k: SourceKey, component: string, stream: string,
      n: int)
    requires i < |all| && Reads(all[i], k, component, stream, k.partition)
    ensures forall j, l :: Visited(all, i, done + {k}, j, l, component, stream, n)
                           <==> Visited(all, i, done, j, l, component, stream, n)
                                || (j == i && l == k && n == k.partition)
  {
  }

  lemma TakeKnowsHere(all: seq<Points>, i: nat, done: set<SourceKey>, starts: map<int, Start>, open: set<int>,
      component: string, stream: string, k: SourceKey)
    requires i < |all| && Reads(all[i], k, component, stream, k.partition)
        && Knows(all, i, done, starts, open, component, stream, k.partition)
    ensures var next := Take(i, starts, open, k, all[i][k]); Knows(all, i, done + {k}, next.0, next.1, component,
        stream, k.partition)
  {
    var n := k.partition;
    VisitedMore(all, i, done, k, component, stream, n);
    assert Visited(all, i, done + {k}, i, k, component, stream, n);
    if n in starts {
      var j, l :| Visited(all, i, done, j, l, component, stream, n) && all[j][l] == starts[n].point
          && l.impl == starts[n].impl;
      assert Visited(all, i, done + {k}, j, l, component, stream, n);
      LessIsTotal(all[i][k], starts[n].point);
    }
  }

  lemma TakeKnows(all: seq<Points>, i: nat, done: set<SourceKey>, starts: map<int, Start>, open: set<int>,
      component: string, stream: string, k: SourceKey, n: int)
    requires i < |all| && Reads(all[i], k, component, stream, k.partition)
        && Knows(all, i, done, starts, open, component, stream, n)
    ensures var next := Take(i, starts, open, k, all[i][k]); Knows(all, i, done + {k}, next.0, next.1, component,
        stream, n)
  {
    if n == k.partition {
      TakeKnowsHere(all, i, done, starts, open, component, stream, k);
    } else {
      var next := Take(i, starts, open, k, all[i][k]);
      VisitedMore(all, i, done, k, component, stream, n);
      SameVisits(all, i, done, i, done + {k}, starts, open, open, component, stream, n);
      SameStart(all, i, done + {k}, starts, next.0, open, next.1, component, stream, n);
    }
  }

  /** What is known of a partition depends on its own start and on whether it is open. */
  lemma SameStart(all: seq<Points>, i: nat, done: set<SourceKey>, starts: map<int, Start>, starts2: map<int, Start>,
      open: set<int>, open2: set<int>, component: string, stream: string, n: int)
    requires Knows(all, i, done, starts, open, component, stream, n) && (n in open <==> n in open2)
    requires (n in starts <==> n in starts2) && (n in starts ==> starts2[n] == starts[n])
    ensures Knows(all, i, done, starts2, open2, component, stream, n)
  {
  }

  ghost predicate KnowsAll(all: seq<Points>, i: nat, done: set<SourceKey>, starts: map<int, Start>, open: set<int>,
      component: string, stream: string) {
    forall n :: Knows(all, i, done, starts, open, component, stream, n)
  }

  /** Other bounds of the same visits, and an open set that agrees here, know the same. */
  lemma SameVisits(all: seq<Points>, i: nat, done: set<SourceKey>, i2: nat, done2: set<SourceKey>, starts: map<int,
      Start>, open: set<int>, open2: set<int>,
                   component: string, stream: string, n: int)
    requires Knows(all, i, done, starts, open, component, stream, n) && (n in open <==> n in open2)
    requires forall j, l :: Visited(all, i2, done2, j, l, component, stream, n)
                            <==> Visited(all, i, done, j, l, component, stream, n)
    requires n in starts && n !in open ==> forall j :: 0 <= j < i2 && j < |all| ==>
        HasProgress(all[j], component, stream, n)
    ensures Knows(all, i2, done2, starts, open2, component, stream, n)
  {
    if n in starts {
      var j, l :| Visited(all, i, done, j, l, component, stream, n) && all[j][l] == starts[n].point
          && l.impl == starts[n].impl;
      assert Visited(all, i2, done2, j, l, component, stream, n);
    }
  }

  /** After a reader: a partition that has a start but none of the reader's progress is left open. */
  lemma DoneKnows(all: seq<Points>, i: nat, starts: map<int, Start>, open: set<int>, wider: set<int>,
      component: string, stream: string, mine: set<int>, n: int)
    requires i < |all| && Knows(all, i, all[i].Keys, starts, open, component, stream, n)
    requires n in mine <==> HasProgress(all[i], component, stream, n)
    requires n in wider <==> n in open || (n in starts && n !in mine)
    ensures Knows(all, i + 1, {}, starts, wider, component, stream, n)
  {
    assert forall j, l :: Visited(all, i + 1, {}, j, l, component, stream, n)
                          <==> Visited(all, i, all[i].Keys, j, l, component, stream, n);
    assert Knows(all, i, all[i].Keys, starts, wider, component, stream, n);
    SameVisits(all, i, all[i].Keys, i + 1, {}, starts, wider, wider, component, stream, n);
  }

  /** One reader: its keys in any order, then the partitions it has nothing for. */
  method Visit(all: seq<Points>, i: nat, starts0: map<int, Start>, open0: set<int>, component: string, stream: string)
    returns (starts: map<int, Start>, open: set<int>)
    requires i < |all| && KnowsAll(all, i, {}, starts0, open0, component, stream)
    ensures KnowsAll(all, i + 1, {}, starts, open, component, stream)
  {
    starts, open := starts0, open0;
    var mine: set<int> := {};
    var rest := all[i].Keys;
    ghost var done: set<SourceKey> := {};
    while rest != {}
      invariant rest <= all[i].Keys && done == all[i].Keys - rest
      invariant forall n :: n in mine <==> exists k :: Reads(all[i], k, component, stream, n) && k in done
      invariant KnowsAll(all, i, done, starts, open, component, stream)
      decreases rest
    {
      var k :| k in rest;
      rest := rest - {k};
      KeyKnows(all, i, done, starts, open, component, stream, k);
      if k.component == component && k.stream == stream {
        assert Reads(all[i], k, component, stream, k.partition);
        mine := mine + {k.partition};
        starts, open := TakeKey(i, starts, open, k, all[i][k]);
      }
      done := done + {k};
    }
    assert done == all[i].Keys;
    var wider := open + set n | n in starts && n !in mine;
    ghost var next := i + 1;
    forall n ensures Knows(all, next, {}, starts, wider, component, stream, n) {
      DoneKnows(all, i, starts, open, wider, component, stream, mine, n);
    }
    open := wider;
  }

  /** A key more is visited: taken if it is of the stream, passed over if not. */
  lemma KeyKnows(all: seq<Points>, i: nat, done: set<SourceKey>, starts: map<int, Start>, open: set<int>,
      component: string, stream: string, k: SourceKey)
    requires i < |all| && k in all[i] && k !in done && KnowsAll(all, i, done, starts, open, component, stream)
    ensures var next := if k.component == component
        && k.stream == stream then Take(i, starts, open, k, all[i][k]) else (starts, open);
            KnowsAll(all, i, done + {k}, next.0, next.1, component, stream)
  {
    var next := if k.component == component && k.stream == stream then Take(i, starts, open, k, all[i][k])
        else (starts, open);
    forall n ensures Knows(all, i, done + {k}, next.0, next.1, component, stream, n) {
      assert Knows(all, i, done, starts, open, component, stream, n);
      if k.component == component && k.stream == stream {
        TakeKnows(all, i, done, starts, open, component, stream, k, n);
      } else {
        SameVisits(all, i, done, i, done + {k}, starts, open, open, component, stream, n);
      }
    }
  }

  method TakeKey(i: nat, starts0: map<int, Start>, open0: set<int>, k: SourceKey, p: Place)
      returns (starts: map<int, Start>, open: set<int>)
    ensures (starts, open) == Take(i, starts0, open0, k, p)
  {
    starts, open := starts0, open0;
    var n := k.partition;
    if n in open {
    } else if i > 0 && n !in starts {
    } else if n !in starts {
      starts := starts[n := Start(k.impl, p)];
    } else if starts[n].impl != k.impl {
      open := open + {n};
    } else if Less(p, starts[n].point) {
      starts := starts[n := Start(starts[n].impl, p)];
    }
  }

  /**
    fromOf: a partition is listed exactly when every reader has progress there, all on one instance, with
    the least of their points, in whatever order the maps are visited.
   */
  method FromOf(component: string, stream: string, subs: seq<string>, progress: map<string, Points>)
      returns (out: map<int, Start>)
    ensures var all := seq(|subs|, i requires 0 <= i < |subs| => PointsOf(progress, subs[i]));
            forall n :: (n in out <==> Listable(all, component, stream, n))
                && (n in out ==> IsLeast(all, component, stream, n, out[n]))
  {
    var all := seq(|subs|, i requires 0 <= i < |subs| => PointsOf(progress, subs[i]));
    var starts: map<int, Start>, open: set<int> := map[], {};
    for i := 0 to |subs|
      invariant KnowsAll(all, i, {}, starts, open, component, stream)
    {
      starts, open := Visit(all, i, starts, open, component, stream);
    }
    out := map n | n in starts && n !in open :: starts[n];
    forall n ensures (n in out <==> Listable(all, component, stream, n))
        && (n in out ==> IsLeast(all, component, stream, n, out[n])) {
      Listed(all, starts, open, component, stream, n);
    }
  }

  lemma Listed(all: seq<Points>, starts: map<int, Start>, open: set<int>, component: string, stream: string, n: int)
    requires Knows(all, |all|, {}, starts, open, component, stream, n)
    ensures n in starts && n !in open <==> Listable(all, component, stream, n)
    ensures n in starts && n !in open ==> IsLeast(all, component, stream, n, starts[n])
  {
    assert forall j, k :: 0 <= j < |all| && Reads(all[j], k, component, stream, n) ==>
        Visited(all, |all|, {}, j, k, component, stream, n);
    if Listable(all, component, stream, n) {
      assert HasProgress(all[0], component, stream, n);
      var k :| Reads(all[0], k, component, stream, n);
      assert Visited(all, |all|, {}, 0, k, component, stream, n);
    }
  }

  /** A redelivery never starts after any reader's progress. */
  lemma NeverAfterAReader(all: seq<Points>, component: string, stream: string, n: int, st: Start, i: nat, k: SourceKey)
    requires IsLeast(all, component, stream, n, st) && i < |all| && Reads(all[i], k, component, stream, n)
    ensures !Less(all[i][k], st.point)
  {
    LessIsTotal(all[i][k], st.point);
  }

  /** A reader of the partition: its run starts and inbox rows, and what really happened to the partition's messages
      there. */
  datatype Reader = Reader(runs: seq<int>, rows: seq<Handled>, history: History)

  /** The reader's progress is computed from its inbox, which tells the truth, under the cut's assumptions. */
  ghost predicate Reports(reader: Reader, points: Points, lifetime: int, k: SourceKey) {
    var h := reader.history;
    && Progress.InOrder(h) && WithinLifetime(h, lifetime) && RunsAreReal(h, reader.runs, Times(reader.rows))
        && RunningIsContinuous(h)
    && RowsAreReal(h, reader.rows, k) && ProgressAt(reader.runs, reader.rows, lifetime, points)
  }

  /** Of all that a redelivery leaves out, nothing is without an outcome for any reader of the stream. */
  lemma NothingLeftOutIsOpen(all: seq<Points>, readers: seq<Reader>, lifetime: int, component: string, stream: string,
      n: int, st: Start, i: nat, q: Place)
    requires |readers| == |all| && i < |all| && lifetime >= 0 && Listable(all, component, stream, n)
        && IsLeast(all, component, stream, n, st)
    requires forall k :: Reads(all[i], k, component, stream, n) ==> Reports(readers[i], all[i], lifetime, k)
    requires q in readers[i].history.stream && AtMost(q, st.point)
    ensures readers[i].history.outcome(q).Some?
  {
    assert HasProgress(all[i], component, stream, n);
    var k :| Reads(all[i], k, component, stream, n);
    CutIsSafe(readers[i].history, readers[i].runs, readers[i].rows, lifetime, all[i], k, q);
  }
}
