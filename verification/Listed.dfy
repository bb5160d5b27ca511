/**
  What a built list selects and shows: the rows its parts ask for, page by page, each with every
  non-ordinary field it was queried by.
 */
module Listed {
  import opened Base
  import opened Sql
  import opened Sorting
  import opened Chains
  import opened Authz
  import opened Authorized
  import opened Paging
  import opened ListQuery

  // ------------------------------------------------------------------ the parts

  lemma {:induction false} NarrowMeans(l: List, fs: seq<string>, row: Columns, all: seq<Arg>)
    requires |l.plan.sets| == |l.plan.hits| && Narrow(l, fs).Ok?
    ensures EvalAll(Narrow(l, fs).value, row, all) == True <==> forall f :: f in fs ==>
        f in PlanFields(l.plan, Bits(l.plan, row, all))
    ensures forall f :: f in fs ==> Narrowable(l.r, f)
    decreases |fs|
  {
    if fs != [] {
      var n := |fs| - 1;
      NarrowMeans(l, fs[..n], row, all);
      assert fs == fs[..n] + [fs[n]];
      ReadableWhereIsReadable(l.plan, fs[n], row, all);
      AllOfBoth(Narrow(l, fs[..n]).value, [ReadableWhere(l.plan, fs[n])], row, all);
      AllOfOne(ReadableWhere(l.plan, fs[n]), row, all);
    }
  }

  lemma FilterMeans(l: List, narrowed: set<string>, f: Filter, row: Columns, all: seq<Arg>)
    ensures PartMeans(FilterPart(l, narrowed), f, Passing(l, row), row, all)
  {
    forall m: nat | CompileFilter(l, narrowed, f, m).Ok? && Binds(all, m, CompileFilter(l, narrowed, f, m).value.args)
      ensures EvalAll(CompileFilter(l, narrowed, f, m).value.preds, row, all) == True <==> Passes(l, f, row)
    {
      var c := CompileFilter(l, narrowed, f, m).value;
      assert c.args + [] == c.args;
      BindsPart(all, m, c.args, []);
      assert c.args != [] ==> Given(all, m + 1 + 0) == Some(c.args[0]);
      AllOfOne(c.preds[0], row, all);
    }
  }

  lemma FiltersMean(l: List, narrowed: set<string>, filters: seq<Filter>, n: nat, row: Columns, all: seq<Arg>)
    requires Chain(FilterPart(l, narrowed), filters, n).Ok?
        && Binds(all, n, Chain(FilterPart(l, narrowed), filters, n).value.args)
    ensures EvalAll(Chain(FilterPart(l, narrowed), filters, n).value.preds, row, all) == True
            <==> forall i :: 0 <= i < |filters| ==> Passes(l, filters[i], row)
  {
    forall i | 0 <= i < |filters| ensures PartMeans(FilterPart(l, narrowed), filters[i], Passing(l, row), row, all) {
      FilterMeans(l, narrowed, filters[i], row, all);
    }
    ChainAll(FilterPart(l, narrowed), filters, n, Passing(l, row), row, all);
  }

  function Finding(l: List, narrowed: set<string>, q: string, row: Columns): SearchColumn -> bool {
    (sc: SearchColumn) => Searchable(l, narrowed, sc) && Contains(At(row, sc.column), q)
  }

  lemma SearchColumnMeans(l: List, narrowed: set<string>, q: string, sc: SearchColumn, row: Columns, all: seq<Arg>)
    ensures PartOffers(SearchPart(l, narrowed, q), sc, Finding(l, narrowed, q, row), row, all)
  {
    var part := SearchPart(l, narrowed, q);
    forall m: nat | part(sc, m).Ok? && Binds(all, m, part(sc, m).value.args)
      ensures EvalAny(part(sc, m).value.preds, row, all) == True <==> Finding(l, narrowed, q, row)(sc)
    {
      var c := part(sc, m).value;
      if Searchable(l, narrowed, sc) {
        assert c.args + [] == c.args;
        BindsPart(all, m, c.args, []);
        assert Given(all, m + 1 + 0) == Some(c.args[0]);
        AnyOfOne(c.preds[0], row, all);
        if At(row, sc.column).VText? {
          SearchPattern(q, At(row, sc.column).s);
        }
      }
    }
  }

  lemma SearchMeans(l: List, narrowed: set<string>, q: string, n: nat, row: Columns, all: seq<Arg>)
    requires CompileSearch(l, narrowed, q, n).Ok? && Binds(all, n, CompileSearch(l, narrowed, q, n).value.args)
    ensures EvalAll(CompileSearch(l, narrowed, q, n).value.preds, row, all) == True <==> Found(l, narrowed, q, row)
  {
    if q != "" {
      var part := SearchPart(l, narrowed, q);
      forall i | 0 <= i < |l.spec.search| ensures PartOffers(part, l.spec.search[i], Finding(l, narrowed, q, row), row,
          all) {
        SearchColumnMeans(l, narrowed, q, l.spec.search[i], row, all);
      }
      ChainAny(part, l.spec.search, n, Finding(l, narrowed, q, row), row, all);
      OneOfAny(Chain(part, l.spec.search, n).value.preds, row, all);
      FindingIsFound(l, narrowed, q, row);
    }
  }

  lemma OneOfAny(preds: seq<Pred>, row: Columns, all: seq<Arg>)
    ensures EvalAll([OrAll(preds)], row, all) == True <==> EvalAny(preds, row, all) == True
  {
    AllOfOne(OrAll(preds), row, all);
  }

  lemma FindingIsFound(l: List, narrowed: set<string>, q: string, row: Columns)
    requires q != ""
    ensures (exists i :: 0 <= i < |l.spec.search| && Finding(l, narrowed, q, row)(l.spec.search[i]))
        <==> Found(l, narrowed, q, row)
  {
  }

  function Beyond(sorts: seq<Sort>, key: Key, row: Columns, idColumn: string): nat -> bool
    requires |key.vals| == |sorts|
  {
    (i: nat) => i <= |sorts| && Alternative(sorts, i, key, KeyOf(row, sorts, idColumn))
  }

  lemma AlternativeMeans(sorts: seq<Sort>, idColumn: string, key: Key, i: nat, row: Columns, all: seq<Arg>)
    requires |key.vals| == |sorts| && i <= |sorts|
    ensures PartOffers(AlternativePart(sorts, idColumn, key), i, Beyond(sorts, key, row, idColumn), row, all)
  {
    forall m: nat | Binds(all, m, CompileAlternative(sorts, idColumn, key, i, m).args)
      ensures EvalAny(CompileAlternative(sorts, idColumn, key, i, m).preds, row, all) == True
              <==> Alternative(sorts, i, key, KeyOf(row, sorts, idColumn))
    {
      AlternativeAt(sorts, idColumn, key, i, m, row, all);
    }
  }

  /** The conditions of one alternative, and the values they compare with. */
  ghost predicate AndsAre(ands: seq<Pred>, sorts: seq<Sort>, idColumn: string, key: Key, i: nat, row: Columns,
      all: seq<Arg>)
    requires |key.vals| == |sorts| && i <= |sorts|
  {
    var k := KeyOf(row, sorts, idColumn);
    && |ands| == i + 1
    && (forall j :: 0 <= j < i ==> Eval(ands[j], row, all) == RelatesTo(k.vals[j], Eq, key.vals[j]))
    && Eval(ands[i], row, all) == if i < |sorts| then RelatesTo(k.vals[i], if sorts[i].desc then Lt
        else Gt, key.vals[i]) else RelatesTo(k.id, Gt, key.id)
  }

  lemma AndsMean(ands: seq<Pred>, sorts: seq<Sort>, idColumn: string, key: Key, i: nat, row: Columns, all: seq<Arg>)
    requires |key.vals| == |sorts| && i <= |sorts| && AndsAre(ands, sorts, idColumn, key, i, row, all)
    ensures EvalAll(ands, row, all) == True <==> Alternative(sorts, i, key, KeyOf(row, sorts, idColumn))
  {
    AllIsTrue(ands, row, all);
    if EvalAll(ands, row, all) == True {
      assert Eval(ands[i], row, all) == True;
      forall j | 0 <= j < i ensures RelatesTo(KeyOf(row, sorts, idColumn).vals[j], Eq, key.vals[j]) == True {
        assert Eval(ands[j], row, all) == True;
      }
    }
  }

  lemma AlternativeArgs(sorts: seq<Sort>, idColumn: string, key: Key, i: nat, m: nat, row: Columns, all: seq<Arg>)
    requires |key.vals| == |sorts| && i <= |sorts| && Binds(all, m, CompileAlternative(sorts, idColumn, key, i, m).args)
    ensures AndsAre(CompileAlternative(sorts, idColumn, key, i, m).preds[0].ps, sorts, idColumn, key, i, row, all)
  {
    var c := CompileAlternative(sorts, idColumn, key, i, m);
    var ands := c.preds[0].ps;
    assert c.args + [] == c.args;
    BindsPart(all, m, c.args, []);
    forall j | 0 <= j < i ensures Eval(ands[j], row, all)
        == RelatesTo(KeyOf(row, sorts, idColumn).vals[j], Eq, key.vals[j]) {
      assert ands[j] == Relates(sorts[j].column, Eq, m + 1 + j);
      assert Given(all, m + 1 + j) == Some(c.args[j]);
    }
    assert Given(all, m + 1 + i) == Some(c.args[i]);
    assert ands[i] == if i < |sorts| then Relates(sorts[i].column, if sorts[i].desc then Lt else Gt, m + 1 + i)
        else Relates(idColumn, Gt, m + 1 + i);
  }

  lemma AlternativeAt(sorts: seq<Sort>, idColumn: string, key: Key, i: nat, m: nat, row: Columns, all: seq<Arg>)
    requires |key.vals| == |sorts| && i <= |sorts| && Binds(all, m, CompileAlternative(sorts, idColumn, key, i, m).args)
    ensures EvalAny(CompileAlternative(sorts, idColumn, key, i, m).preds, row, all) == True
            <==> Alternative(sorts, i, key, KeyOf(row, sorts, idColumn))
  {
    var ands := CompileAlternative(sorts, idColumn, key, i, m).preds[0].ps;
    AnyOfOne(All(ands), row, all);
    AlternativeArgs(sorts, idColumn, key, i, m, row, all);
    AndsMean(ands, sorts, idColumn, key, i, row, all);
  }

  lemma {:induction false} AlternativesCompile(part: Part<nat>, xs: seq<nat>, n: nat)
    requires forall i, m: nat :: 0 <= i < |xs| ==> part(xs[i], m).Ok?
    ensures Chain(part, xs, n).Ok?
  {
    ChainOk(part, xs, n, (x: nat) => true);
  }

  lemma CursorMeans(sorts: seq<Sort>, idColumn: string, key: Key, n: nat, row: Columns, all: seq<Arg>)
    requires |key.vals| == |sorts| && Alike(key, KeyOf(row, sorts, idColumn), sorts)
    requires Chain(AlternativePart(sorts, idColumn, key), Alternatives(|sorts|), n).Ok?
    requires Binds(all, n, Chain(AlternativePart(sorts, idColumn, key), Alternatives(|sorts|), n).value.args)
    ensures EvalAny(Chain(AlternativePart(sorts, idColumn, key), Alternatives(|sorts|), n).value.preds, row, all)
                == True
            <==> Precedes(sorts, 0, key, KeyOf(row, sorts, idColumn))
  {
    var part, xs, beyond := AlternativePart(sorts, idColumn, key), Alternatives(|sorts|),
        Beyond(sorts, key, row, idColumn);
    forall i | 0 <= i < |xs| ensures PartOffers(part, xs[i], beyond, row, all) {
      AlternativeMeans(sorts, idColumn, key, xs[i], row, all);
    }
    ChainAny(part, xs, n, beyond, row, all);
    KeysetIsAfter(sorts, key, KeyOf(row, sorts, idColumn));
    if exists i :: 0 <= i <= |sorts| && Alternative(sorts, i, key, KeyOf(row, sorts, idColumn)) {
      var i :| 0 <= i <= |sorts| && Alternative(sorts, i, key, KeyOf(row, sorts, idColumn));
      assert xs[i] == i && beyond(xs[i]);
    }
  }

  // ------------------------------------------------------------------ the statement

  /** The pieces of an accepted request, in the order their arguments stand. */
  ghost predicate Pieces(l: List, req: Request, q: Query, n: seq<Pred>, f: Preds, s: Preds, c: Preds) {
    var narrowed := SetOf(req.readableOnly);
    && Narrow(l, req.readableOnly) == Ok(n)
    && Chain(FilterPart(l, narrowed), req.filters, |l.plan.args|) == Ok(f)
    && CompileSearch(l, narrowed, req.q, |l.plan.args| + |f.args|) == Ok(s)
    && CheckSorts(l, narrowed, req.sort).None?
    && q.sorts == SortsOf(l, req.sort) && q.asked == AskedOf(req)
    && CompileCursor(l, q.asked, q.sorts, req.cursor, |l.plan.args| + |f.args| + |s.args|) == Ok(c)
    && q.where == All([l.plan.where] + n + f.preds + s.preds + c.preds)
    && q.args == l.plan.args + f.args + s.args + c.args
  }

  lemma PiecesOf(l: List, req: Request, q: Query) returns (n: seq<Pred>, f: Preds, s: Preds, c: Preds)
    requires Build(l, req) == Ok(q)
    ensures Pieces(l, req, q, n, f, s, c) && 1 <= q.limit <= MAX_LIMIT
  {
    var narrowed := SetOf(req.readableOnly);
    n := Narrow(l, req.readableOnly).value;
    f := Chain(FilterPart(l, narrowed), req.filters, |l.plan.args|).value;
    s := CompileSearch(l, narrowed, req.q, |l.plan.args| + |f.args|).value;
    c := CompileCursor(l, AskedOf(req), SortsOf(l, req.sort), req.cursor, |l.plan.args| + |f.args| + |s.args|).value;
  }

  lemma PiecesBind(l: List, f: Preds, s: Preds, c: Preds, all: seq<Arg>)
    requires all == l.plan.args + f.args + s.args + c.args
    ensures Binds(all, 0, l.plan.args) && Binds(all, |l.plan.args|, f.args)
    ensures Binds(all, |l.plan.args| + |f.args|, s.args) && Binds(all, |l.plan.args| + |f.args| + |s.args|, c.args)
  {
  }

  lemma AllOfPieces(w: Pred, n: seq<Pred>, f: seq<Pred>, s: seq<Pred>, c: seq<Pred>, row: Columns, all: seq<Arg>)
    ensures EvalAll([w] + n + f + s + c, row, all) == True
            <==> && Eval(w, row, all) == True && EvalAll(n, row, all) == True && EvalAll(f, row, all) == True
                 && EvalAll(s, row, all) == True && EvalAll(c, row, all) == True
  {
    AllOfBoth([w] + n + f + s, c, row, all);
    AllOfBoth([w] + n + f, s, row, all);
    AllOfBoth([w] + n, f, row, all);
    AllOfBoth([w], n, row, all);
    AllOfOne(w, row, all);
  }

  lemma CursorPieceMeans(l: List, req: Request, q: Query, c: Preds, n: nat, row: Columns)
    requires CompileCursor(l, q.asked, q.sorts, req.cursor, n) == Ok(c) && Binds(q.args, n, c.args)
    requires Fitting(req, q.sorts, l.spec.idColumn, row)
    ensures EvalAll(c.preds, row, q.args) == True <==> After(req, q.sorts, l.spec.idColumn, row)
  {
    if req.cursor.Some? {
      var key := req.cursor.value.key;
      CursorMeans(q.sorts, l.spec.idColumn, key, n, row, q.args);
      AllOfOne(c.preds[0], row, q.args);
    }
  }

  /** The statement selects a row exactly when the row belongs to the list and comes strictly after the cursor. */
  lemma StatementSelects(l: List, req: Request, q: Query, row: Columns)
    requires |l.plan.sets| == |l.plan.hits| && Build(l, req) == Ok(q) && Fitting(req, q.sorts, l.spec.idColumn, row)
    ensures Eval(q.where, row, q.args) == True
        <==> Belongs(l, req, row, q.args) && After(req, q.sorts, l.spec.idColumn, row)
    ensures Binds(q.args, 0, l.plan.args)
  {
    var n, f, s, c := PiecesOf(l, req, q);
    PiecesMean(l, req, q, n, f, s, c, row);
  }

  lemma PiecesMean(l: List, req: Request, q: Query, n: seq<Pred>, f: Preds, s: Preds, c: Preds, row: Columns)
    requires |l.plan.sets| == |l.plan.hits| && Pieces(l, req, q, n, f, s, c)
        && Fitting(req, q.sorts, l.spec.idColumn, row)
    ensures Eval(q.where, row, q.args) == True
        <==> Belongs(l, req, row, q.args) && After(req, q.sorts, l.spec.idColumn, row)
    ensures Binds(q.args, 0, l.plan.args)
  {
    PiecesBind(l, f, s, c, q.args);
    NarrowMeans(l, req.readableOnly, row, q.args);
    PieceOfFilters(l, req, q, n, f, s, c, row);
    PieceOfSearch(l, req, q, n, f, s, c, row);
    PieceOfCursor(l, req, q, n, f, s, c, row);
    Together(l, req, q, n, f.preds, s.preds, c.preds, row);
  }

  lemma Together(l: List, req: Request, q: Query, n: seq<Pred>, f: seq<Pred>, s: seq<Pred>, c: seq<Pred>, row: Columns)
    requires q.where == All([l.plan.where] + n + f + s + c)
    requires EvalAll(n, row, q.args) == True <==> forall x :: x in req.readableOnly ==>
        x in PlanFields(l.plan, Bits(l.plan, row, q.args))
    requires EvalAll(f, row, q.args) == True <==> forall i :: 0 <= i < |req.filters| ==> Passes(l, req.filters[i], row)
    requires EvalAll(s, row, q.args) == True <==> Found(l, SetOf(req.readableOnly), req.q, row)
    requires EvalAll(c, row, q.args) == True <==> After(req, q.sorts, l.spec.idColumn, row)
    ensures Eval(q.where, row, q.args) == True
        <==> Belongs(l, req, row, q.args) && After(req, q.sorts, l.spec.idColumn, row)
  {
    AllOfPieces(l.plan.where, n, f, s, c, row, q.args);
  }

  lemma PieceOfFilters(l: List, req: Request, q: Query, n: seq<Pred>, f: Preds, s: Preds, c: Preds, row: Columns)
    requires Pieces(l, req, q, n, f, s, c)
    ensures EvalAll(f.preds, row, q.args) == True <==> forall i :: 0 <= i < |req.filters| ==>
        Passes(l, req.filters[i], row)
  {
    PiecesBind(l, f, s, c, q.args);
    FiltersMean(l, SetOf(req.readableOnly), req.filters, |l.plan.args|, row, q.args);
  }

  lemma PieceOfCursor(l: List, req: Request, q: Query, n: seq<Pred>, f: Preds, s: Preds, c: Preds, row: Columns)
    requires Pieces(l, req, q, n, f, s, c) && Fitting(req, q.sorts, l.spec.idColumn, row)
    ensures EvalAll(c.preds, row, q.args) == True <==> After(req, q.sorts, l.spec.idColumn, row)
  {
    PiecesBind(l, f, s, c, q.args);
    CursorPieceMeans(l, req, q, c, |l.plan.args| + |f.args| + |s.args|, row);
  }

  lemma PieceOfSearch(l: List, req: Request, q: Query, n: seq<Pred>, f: Preds, s: Preds, c: Preds, row: Columns)
    requires Pieces(l, req, q, n, f, s, c)
    ensures EvalAll(s.preds, row, q.args) == True <==> Found(l, SetOf(req.readableOnly), req.q, row)
  {
    PiecesBind(l, f, s, c, q.args);
    SearchMeans(l, SetOf(req.readableOnly), req.q, |l.plan.args| + |f.args|, row, q.args);
  }

  /** A request with a cursor is accepted exactly when it is without one and the cursor is this query's own. */
  lemma CursorIsBound(l: List, req: Request, c: Cursor)
    ensures Build(l, req.(cursor := Some(c))).Ok?
            <==> Build(l, req.(cursor := None)).Ok? && c.Cursor? && |c.key.vals| == |req.sort|
                 && c.asked == AskedOf(req) && c.plan == l.digest
    ensures Build(l, req.(cursor := Some(c))).Ok? ==>
        Build(l, req.(cursor := Some(c))).value.sorts == Build(l, req.(cursor := None)).value.sorts
  {
    if c.Cursor? {
      var sorts := SortsOf(l, req.sort);
      if |c.key.vals| == |sorts| {
        forall n: nat ensures Chain(AlternativePart(sorts, l.spec.idColumn, c.key), Alternatives(|sorts|), n).Ok? {
          AlternativesCompile(AlternativePart(sorts, l.spec.idColumn, c.key), Alternatives(|sorts|), n);
        }
      }
    }
  }

  // ------------------------------------------------------------------ what a listed row shows

  /** One of the assembled hit bits is set when one of the predicates is TRUE. */
  lemma SomeHit(r: Resource, where: Pred, args: seq<Arg>, mine: seq<Segment>, preds: seq<Pred>, row: Columns,
      all: seq<Arg>)
    requires Eval(OrAll(preds), row, all) == True
    ensures var p := Assemble(r, where, args, mine, preds);
            exists i :: 0 <= i < |p.hits| && Eval(p.hits[i], row, all) == True
  {
    OrAllMeans(preds, row, all);
    var i :| 0 <= i < |preds| && Eval(preds[i], row, all) == True;
    var p := Assemble(r, where, args, mine, preds);
    assert p.hits[i] == Hit(preds[i]);
  }

  lemma ActiveAreOne(f: Part<Segment>, segs: seq<Segment>, op: string, at: int)
    requires forall i :: 0 <= i < |segs| ==> PartIsOne(f, segs[i])
    ensures forall i :: 0 <= i < |ActiveSegs(segs, op, at)| ==> PartIsOne(f, ActiveSegs(segs, op, at)[i])
  {
    var mine := ActiveSegs(segs, op, at);
    ActiveSegsAre(segs, op, at);
    forall i | 0 <= i < |mine| ensures PartIsOne(f, mine[i]) {
      assert mine[i] in mine;
      var j :| 0 <= j < |segs| && segs[j] == mine[i];
    }
  }

  /** Some hit bit is set on every row a plan's Where selects. */
  lemma PlanHit(f: Part<Segment>, r: Resource, segs: seq<Segment>, op: string, at: int, base: nat, row: Columns,
      all: seq<Arg>)
    requires CompileWith(f, r, segs, op, at, base).Ok? && forall i :: 0 <= i < |segs| ==> PartIsOne(f, segs[i])
    ensures var p := CompileWith(f, r, segs, op, at, base).value;
            |p.hits| == |p.sets| && (Eval(p.where, row, all) == True ==>
                exists i :: 0 <= i < |p.hits| && Eval(p.hits[i], row, all) == True)
  {
    var p := CompileWith(f, r, segs, op, at, base).value;
    var view, mine := ActiveSegs(segs, r.viewOperation, at), ActiveSegs(segs, op, at);
    ActiveAreOne(f, segs, op, at);
    var v := Chain(f, view, base).value;
    var n := if op == r.viewOperation then base else base + |v.args|;
    var o := Chain(f, mine, n).value;
    ChainSize(f, mine, n);
    AllOfTwo(OrAll(v.preds), OrAll(o.preds), row, all);
    if Eval(p.where, row, all) == True {
      SomeHit(r, p.where, p.args, mine, o.preds, row, all);
    }
  }

  lemma SegmentsAreOne(r: Resource, principal: string, segs: seq<Segment>)
    ensures forall i :: 0 <= i < |segs| ==> PartIsOne(SegmentPart(r, principal), segs[i])
  {
    forall s: Segment, m: nat | CompileSegment(r, s, principal, m).Ok?
        ensures |CompileSegment(r, s, principal, m).value.preds| == 1 {
    }
  }

  /** A field the request filters, sorts or searches by. */
  ghost predicate QueriedBy(l: List, req: Request, f: string) {
    || (exists i :: 0 <= i < |req.filters| && req.filters[i].field == f)
    || (exists i :: 0 <= i < |req.sort| && req.sort[i].field == f)
    || (req.q != "" && exists sc :: sc in l.spec.search && Searchable(l, SetOf(req.readableOnly), sc) && f in sc.fields)
  }

  lemma {:induction false} SortsUsable(l: List, narrowed: set<string>, sort: seq<SortKey>)
    requires CheckSorts(l, narrowed, sort).None?
    ensures forall i :: 0 <= i < |sort| ==> Usable(l, narrowed, sort[i].field)
    decreases |sort|
  {
    if sort != [] {
      SortsUsable(l, narrowed, sort[1..]);
      assert forall i :: 1 <= i < |sort| ==> sort[i] == sort[1..][i - 1];
    }
  }

  lemma FiltersUsable(l: List, narrowed: set<string>, filters: seq<Filter>, n: nat)
    requires Chain(FilterPart(l, narrowed), filters, n).Ok?
    ensures forall i :: 0 <= i < |filters| ==> Usable(l, narrowed, filters[i].field)
  {
    var part := FilterPart(l, narrowed);
    var ok := (f: Filter) => part(f, 0).Ok?;
    assert forall i, m: nat :: 0 <= i < |filters| ==> (part(filters[i], m).Ok? <==> ok(filters[i]));
    ChainOk(part, filters, n, ok);
    forall i | 0 <= i < |filters| ensures Usable(l, narrowed, filters[i].field) {
      assert ok(filters[i]);
    }
  }

  lemma QueriedIsUsable(l: List, req: Request, q: Query, f: string)
    requires Build(l, req) == Ok(q) && QueriedBy(l, req, f)
    ensures Usable(l, SetOf(req.readableOnly), f)
  {
    FiltersUsable(l, SetOf(req.readableOnly), req.filters, |l.plan.args|);
    SortsUsable(l, SetOf(req.readableOnly), req.sort);
  }

  /** Whatever the cursor: a selected row satisfies the plan, and shows every field the list is narrowed to. */
  lemma SelectedIsNarrowed(l: List, req: Request, q: Query, row: Columns)
    requires |l.plan.sets| == |l.plan.hits| && Build(l, req) == Ok(q) && Eval(q.where, row, q.args) == True
    ensures Eval(l.plan.where, row, q.args) == True
    ensures forall f :: f in req.readableOnly ==> f in PlanFields(l.plan, Bits(l.plan, row, q.args))
  {
    var n, f, s, c := PiecesOf(l, req, q);
    NarrowMeans(l, req.readableOnly, row, q.args);
    AllOfPieces(l.plan.where, n, f.preds, s.preds, c.preds, row, q.args);
  }

  /**
    Every row listed can show what it was queried by: a non-ordinary field used to filter, sort or
    search is among the readable fields of every row the statement selects.
   */
  lemma QueriedFieldsAreShown(l: List, req: Request, q: Query, segs: seq<Segment>, op: string, principal: string,
      at: int, row: Columns, f: string)
    requires Compile(l.r, segs, op, principal, at, 0) == Ok(l.plan) && Build(l, req) == Ok(q)
    requires Eval(q.where, row, q.args) == True && QueriedBy(l, req, f)
        && (f !in l.r.fields || l.r.fields[f] != Ordinary)
    ensures f in PlanFields(l.plan, Bits(l.plan, row, q.args))
  {
    SegmentsAreOne(l.r, principal, segs);
    PlanHit(SegmentPart(l.r, principal), l.r, segs, op, at, 0, row, q.args);
    SelectedIsNarrowed(l, req, q, row);
    QueriedIsUsable(l, req, q, f);
    HitShows(l, SetOf(req.readableOnly), row, q.args, f);
  }

  lemma HitShows(l: List, narrowed: set<string>, row: Columns, all: seq<Arg>, f: string)
    requires |l.plan.hits| == |l.plan.sets|
    requires exists i :: 0 <= i < |l.plan.hits| && Eval(l.plan.hits[i], row, all) == True
    requires Usable(l, narrowed, f) && (f !in l.r.fields || l.r.fields[f] != Ordinary)
    requires f in narrowed ==> f in PlanFields(l.plan, Bits(l.plan, row, all))
    ensures f in PlanFields(l.plan, Bits(l.plan, row, all))
  {
    if f !in narrowed {
      var bits := Bits(l.plan, row, all);
      var i :| 0 <= i < |l.plan.hits| && Eval(l.plan.hits[i], row, all) == True;
      assert bits[i] && f in l.plan.sets[i];
    }
  }

  // ------------------------------------------------------------------ the list, from authorization to its last page

  /** Who asks: the segments, the operation, the principal and the instant; and what each row's facts are. */
  datatype Caller = Caller(segs: seq<Segment>, op: string, principal: string, at: int)

  ghost predicate Authorizes(l: List, who: Caller) {
    Compile(l.r, who.segs, who.op, who.principal, who.at, 0) == Ok(l.plan)
  }

  ghost predicate Agrees(l: List, who: Caller, row: Columns, facts: Facts) {
    ReadsAll(facts, row, l.r) && AllAgreeable(l.r, who.segs, who.op, who.at, facts, row)
  }

  function Decided(l: List, who: Caller, facts: Facts): Decision {
    Evaluate(l.r, who.segs, who.op, facts, who.principal, who.at)
  }

  /** A row of the list, in the evaluator's terms. */
  ghost predicate Permitted(l: List, req: Request, who: Caller, row: Columns, facts: Facts) {
    && Decided(l, who, facts).action == True
    && (forall f :: f in req.readableOnly ==> f in Decided(l, who, facts).fields)
    && (forall i :: 0 <= i < |req.filters| ==> Passes(l, req.filters[i], row))
    && Found(l, SetOf(req.readableOnly), req.q, row)
  }

  /** The statement selects exactly the rows the evaluator permits, narrowed, filtered and searched, after the cursor.
      */
  lemma StatementSelectsPermitted(l: List, req: Request, q: Query, who: Caller, row: Columns, facts: Facts)
    requires Authorizes(l, who) && Agrees(l, who, row, facts)
    requires Build(l, req) == Ok(q) && Fitting(req, q.sorts, l.spec.idColumn, row)
    ensures Eval(q.where, row, q.args) == True
        <==> Permitted(l, req, who, row, facts) && After(req, q.sorts, l.spec.idColumn, row)
  {
    PlanSizes(l, who, row);
    StatementSelects(l, req, q, row);
    PlanDecides(l, who, row, facts, q.args);
  }

  lemma PlanSizes(l: List, who: Caller, row: Columns)
    requires Authorizes(l, who)
    ensures |l.plan.hits| == |l.plan.sets|
  {
    SegmentsAreOne(l.r, who.principal, who.segs);
    PlanHit(SegmentPart(l.r, who.principal), l.r, who.segs, who.op, who.at, 0, row, []);
  }

  lemma PlanDecides(l: List, who: Caller, row: Columns, facts: Facts, all: seq<Arg>)
    requires Authorizes(l, who) && Agrees(l, who, row, facts) && Binds(all, 0, l.plan.args)
    ensures Eval(l.plan.where, row, all) == True <==> Decided(l, who, facts).action == True
    ensures Decided(l, who, facts).action == True ==>
        PlanFields(l.plan, Bits(l.plan, row, all)) == Decided(l, who, facts).fields
  {
    WhereMeansAllowed(l.r, who.segs, who.op, who.principal, who.at, 0, row, facts, all);
    if Decided(l, who, facts).action == True {
      FieldsMeanReadable(l.r, who.segs, who.op, who.principal, who.at, 0, row, facts, all);
    }
  }

  /** A fixed table a list reads: orderable rows, each with the facts its columns say, on which SQL and evaluator can
      agree. */
  ghost predicate Readable(l: List, who: Caller, table: map<Columns, Facts>, sorts: seq<Sort>) {
    && Orderable(table.Keys, sorts, l.spec.idColumn)
    && forall row :: row in table ==> Agrees(l, who, row, table[row])
  }

  ghost function PermittedRows(l: List, req: Request, who: Caller, table: map<Columns, Facts>): set<Columns> {
    set row | row in table && Permitted(l, req, who, row, table[row])
  }

  ghost function Selected(q: Query, table: map<Columns, Facts>): set<Columns> {
    set row | row in table && Eval(q.where, row, q.args) == True
  }

  /** The request for the page after a key: the same list, its own cursor, any page size. */
  function Continue(l: List, req: Request, key: Option<Key>, limit: nat): Request {
    req.(cursor := if key.None? then None else Some(Next(l, AskedOf(req), key.value)), limit := limit)
  }

  /** A page as the database answers it; a refused request gets none. */
  ghost function Answered(l: List, req: Request, table: map<Columns, Facts>, key: Option<Key>, limit: nat): Page {
    var q := Build(l, Continue(l, req, key, limit));
    if q.Err? || q.value.limit == 0 || !Orderable(table.Keys, q.value.sorts, l.spec.idColumn) then Page([], None)
    else Cut(Listing(Selected(q.value, table), q.value.sorts, l.spec.idColumn), q.value.limit, q.value.sorts,
        l.spec.idColumn)
  }

  /** The statement for the page after a listed row's key selects the permitted rows after it. */
  lemma SelectedArePermitted(l: List, req: Request, q: Query, who: Caller, table: map<Columns, Facts>,
      key: Option<Key>, limit: nat, p: Query)
    requires Authorizes(l, who) && Build(l, Continue(l, req, key, limit)) == Ok(p) && p.sorts == q.sorts
        && Readable(l, who, table, q.sorts)
    requires key.Some? ==> exists row :: row in table && key.value == KeyOf(row, q.sorts, l.spec.idColumn)
    ensures Selected(p, table) == set r | r in PermittedRows(l, req, who, table)
        && Asks(key, r, q.sorts, l.spec.idColumn)
  {
    var asked, rows := Continue(l, req, key, limit), PermittedRows(l, req, who, table);
    forall row | row in table ensures Eval(p.where, row, p.args) == True
        <==> row in rows && Asks(key, row, q.sorts, l.spec.idColumn) {
      StatementSelectsPermitted(l, asked, p, who, row, table[row]);
    }
  }

  /** One page is the permitted rows after the cursor. */
  lemma AnswerIsPage(l: List, req: Request, q: Query, who: Caller, table: map<Columns, Facts>, key: Option<Key>,
      limit: nat)
    requires Authorizes(l, who) && Build(l, req.(cursor := None)) == Ok(q) && Readable(l, who, table, q.sorts)
        && 1 <= limit <= MAX_LIMIT
    requires key.Some? ==> exists row :: row in table && key.value == KeyOf(row, q.sorts, l.spec.idColumn)
    ensures Orderable(PermittedRows(l, req, who, table), q.sorts, l.spec.idColumn)
    ensures Build(l, Continue(l, req, key, limit)).Ok?
    ensures Answered(l, req, table, key, limit) == PageAfter(PermittedRows(l, req, who, table), key, limit, q.sorts,
        l.spec.idColumn)
  {
    PermittedOrderable(l, req, who, table, q.sorts);
    SortsAreMany(l, req, q);
    ContinueIsAccepted(l, req, q, key, limit);
    SelectedArePermitted(l, req, q, who, table, key, limit, Build(l, Continue(l, req, key, limit)).value);
  }

  lemma SortsAreMany(l: List, req: Request, q: Query)
    requires Build(l, req.(cursor := None)) == Ok(q)
    ensures |q.sorts| == |req.sort|
  {
  }

  lemma ContinueIsAccepted(l: List, req: Request, q: Query, key: Option<Key>, limit: nat)
    requires Build(l, req.(cursor := None)) == Ok(q) && 1 <= limit <= MAX_LIMIT
        && (key.Some? ==> |key.value.vals| == |req.sort|)
    ensures Build(l, Continue(l, req, key, limit)).Ok? && Build(l, Continue(l, req, key, limit)).value.sorts == q.sorts
    ensures Build(l, Continue(l, req, key, limit)).value.limit == limit
  {
    var first := req.(cursor := None, limit := limit);
    assert Build(l, first).Ok? && Build(l, first).value.sorts == q.sorts;
    if key.Some? {
      CursorIsBound(l, first, Cursor(key.value, AskedOf(req), l.digest));
      assert Continue(l, req, key, limit) == first.(cursor := Some(Cursor(key.value, AskedOf(req), l.digest)));
    } else {
      assert Continue(l, req, key, limit) == first;
    }
  }

  lemma PermittedOrderable(l: List, req: Request, who: Caller, table: map<Columns, Facts>, sorts: seq<Sort>)
    requires Readable(l, who, table, sorts)
    ensures Orderable(PermittedRows(l, req, who, table), sorts, l.spec.idColumn)
  {
  }

  type Answering = (Option<Key>, nat) -> Page

  /** A run of requests, each with the cursor of the answer before it, whatever answers them. */
  ghost predicate RunsWith(answer: Answering, pages: seq<Page>, limits: seq<nat>)
    decreases |pages|
  {
    |pages| == |limits| && (pages != [] ==>
      var n := |pages| - 1;
      && RunsWith(answer, pages[..n], limits[..n]) && 1 <= limits[n] <= MAX_LIMIT
      && (n > 0 ==> pages[n - 1].next.Some?)
      && pages[n] == answer(if n == 0 then None else pages[n - 1].next, limits[n]))
  }

  ghost function AnswerOf(l: List, req: Request, table: map<Columns, Facts>): Answering {
    (key: Option<Key>, limit: nat) => Answered(l, req, table, key, limit)
  }

  /** A run of requests that follows the list's own cursors. */
  ghost predicate Runs(l: List, req: Request, table: map<Columns, Facts>, pages: seq<Page>, limits: seq<nat>) {
    RunsWith(AnswerOf(l, req, table), pages, limits)
  }

  /** Answers with the rows after each cursor that is a row's. */
  ghost predicate Answers(answer: Answering, rows: set<Columns>, sorts: seq<Sort>, idColumn: string)
    requires Orderable(rows, sorts, idColumn)
  {
    forall key: Option<Key>, limit: nat ::
      1 <= limit <= MAX_LIMIT && (key.Some? ==> exists row :: row in rows && key.value == KeyOf(row, sorts, idColumn))
      ==> answer(key, limit) == PageAfter(rows, key, limit, sorts, idColumn)
  }

  /** The cursor a run stands at is a listed row's. */
  lemma NextIsARows(pages: seq<Page>, limits: seq<nat>, rows: set<Columns>, sorts: seq<Sort>, idColumn: string)
    requires Orderable(rows, sorts, idColumn) && Follows(pages, limits, rows, sorts, idColumn) && pages != []
        && pages[|pages| - 1].next.Some?
    ensures exists row :: row in rows && pages[|pages| - 1].next.value == KeyOf(row, sorts, idColumn)
  {
    var all := Listing(rows, sorts, idColumn);
    var k := PagesEnumerate(pages, limits, rows, all, sorts, idColumn);
    assert all[k - 1] in all;
  }

  lemma {:induction false} RunFollows(answer: Answering, pages: seq<Page>, limits: seq<nat>, rows: set<Columns>,
      sorts: seq<Sort>, idColumn: string)
    requires Orderable(rows, sorts, idColumn) && Answers(answer, rows, sorts, idColumn)
        && RunsWith(answer, pages, limits)
    ensures Follows(pages, limits, rows, sorts, idColumn)
    decreases |pages|
  {
    if pages != [] {
      var n := |pages| - 1;
      var front := pages[..n];
      RunFollows(answer, front, limits[..n], rows, sorts, idColumn);
      if n > 0 {
        assert front[n - 1] == pages[n - 1];
        NextIsARows(front, limits[..n], rows, sorts, idColumn);
      }
    }
  }

  lemma ListAnswers(l: List, req: Request, q: Query, who: Caller, table: map<Columns, Facts>)
    requires Authorizes(l, who) && Build(l, req.(cursor := None)) == Ok(q) && Readable(l, who, table, q.sorts)
    ensures Orderable(PermittedRows(l, req, who, table), q.sorts, l.spec.idColumn)
    ensures Answers(AnswerOf(l, req, table), PermittedRows(l, req, who, table), q.sorts, l.spec.idColumn)
  {
    var rows := PermittedRows(l, req, who, table);
    PermittedOrderable(l, req, who, table, q.sorts);
    forall key: Option<Key>, limit: nat
      | 1 <= limit <= MAX_LIMIT
        && (key.Some? ==> exists row :: row in rows && key.value == KeyOf(row, q.sorts, l.spec.idColumn))
      ensures Answered(l, req, table, key, limit) == PageAfter(rows, key, limit, q.sorts, l.spec.idColumn)
    {
      AnswerIsPage(l, req, q, who, table, key, limit);
    }
  }

  /**
    Over a fixed table, following a list's cursors yields every row the evaluator permits, narrowed,
    filtered and searched as asked, exactly once and in order, and ends.
   */
  lemma ListIsExact(l: List, req: Request, q: Query, who: Caller, table: map<Columns, Facts>, pages: seq<Page>,
      limits: seq<nat>)
    requires Authorizes(l, who) && Build(l, req.(cursor := None)) == Ok(q) && Readable(l, who, table, q.sorts)
    requires Runs(l, req, table, pages, limits) && pages != []
    ensures Orderable(PermittedRows(l, req, who, table), q.sorts, l.spec.idColumn)
    ensures |pages| <= |Listing(PermittedRows(l, req, who, table), q.sorts, l.spec.idColumn)| + 1
    ensures pages[|pages| - 1].next.None? ==>
        Rows(pages) == Listing(PermittedRows(l, req, who, table), q.sorts, l.spec.idColumn)
  {
    ListAnswers(l, req, q, who, table);
    RunFollows(AnswerOf(l, req, table), pages, limits, PermittedRows(l, req, who, table), q.sorts, l.spec.idColumn);
    PagingIsExact(pages, limits, PermittedRows(l, req, who, table), q.sorts, l.spec.idColumn);
  }
}
