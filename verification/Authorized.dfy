/**
  The query compiler preserves the evaluator's meaning, row by row: which rows are listed, and which
  fields each of them shows.
 */
module Authorized {
  import opened Base
  import opened Sql
  import opened Sorting
  import opened Chains
  import opened Authz

  /** A segment that passed Check, and a row and its facts on which evaluator and SQL can agree. */
  ghost predicate Agreeable(s: Segment, r: Resource, facts: Facts, row: Columns) {
    Fits(s, r) && forall dim :: dim in s.atoms && dim in r.dimensions ==>
        Comparable(s.atoms[dim], r.dimensions[dim], FactOf(facts, dim), row)
  }

  // ------------------------------------------------------------------ segments and unions

  ghost function AtomHolds(s: Segment, facts: Facts, principal: string): string -> bool {
    (dim: string) => AtomTri(AtomOf(s, dim), FactOf(facts, dim), principal) == True
  }

  ghost function Holding(facts: Facts, principal: string, at: int): Segment -> bool {
    (s: Segment) => SegmentTri(s, facts, principal, at) == True
  }

  lemma DimMeans(r: Resource, s: Segment, principal: string, dim: string, row: Columns, facts: Facts, all: seq<Arg>)
    requires Agreeable(s, r, facts, row) && ReadsAll(facts, row, r) && dim in s.atoms
    ensures PartMeans(DimPart(r, s, principal), dim, AtomHolds(s, facts, principal), row, all)
  {
    forall m: nat | CompileDim(r, s, principal, dim, m).Ok?
        && Binds(all, m, CompileDim(r, s, principal, dim, m).value.args)
      ensures EvalAll(CompileDim(r, s, principal, dim, m).value.preds, row, all) == True
          <==> AtomHolds(s, facts, principal)(dim)
    {
      var c := CompileAtom(r.dimensions[dim], s.atoms[dim], principal, m).value;
      AtomMeans(r.dimensions[dim], s.atoms[dim], principal, m, row, facts[dim], all);
      if c.pred.Some? {
        AllOfOne(c.pred.value, row, all);
      }
    }
  }

  lemma SegmentIsTrue(s: Segment, dims: seq<string>, facts: Facts, principal: string, at: int)
    requires ActiveAt(s, at) && forall dim :: dim in dims <==> dim in s.atoms
    ensures SegmentTri(s, facts, principal, at) == True
            <==> forall i :: 0 <= i < |dims| ==> AtomHolds(s, facts, principal)(dims[i])
  {
    forall dim | dim in s.atoms ensures exists i :: 0 <= i < |dims| && dims[i] == dim {
      assert dim in dims;
    }
  }

  lemma SegmentMeansAt(r: Resource, s: Segment, dims: seq<string>, principal: string, n: nat, row: Columns,
      facts: Facts, all: seq<Arg>, at: int)
    requires Agreeable(s, r, facts, row) && ReadsAll(facts, row, r) && ActiveAt(s, at)
    requires forall dim :: dim in dims <==> dim in s.atoms
    requires var c := Chain(DimPart(r, s, principal), dims, n); c.Ok? && Binds(all, n, c.value.args)
    ensures var c := Chain(DimPart(r, s, principal), dims, n).value;
            EvalAll([Conjunction(c.preds)], row, all) == True <==> SegmentTri(s, facts, principal, at) == True
  {
    forall i | 0 <= i < |dims| ensures PartMeans(DimPart(r, s, principal), dims[i], AtomHolds(s, facts, principal),
        row, all) {
      assert dims[i] in dims;
      DimMeans(r, s, principal, dims[i], row, facts, all);
    }
    ChainAll(DimPart(r, s, principal), dims, n, AtomHolds(s, facts, principal), row, all);
    SegmentIsTrue(s, dims, facts, principal, at);
    ConjunctionIs(Chain(DimPart(r, s, principal), dims, n).value.preds, row, all);
  }

  lemma SegmentMeans(r: Resource, s: Segment, principal: string, row: Columns, facts: Facts, all: seq<Arg>, at: int)
    requires Agreeable(s, r, facts, row) && ReadsAll(facts, row, r) && ActiveAt(s, at)
    ensures PartMeans(SegmentPart(r, principal), s, Holding(facts, principal, at), row, all)
        && PartIsOne(SegmentPart(r, principal), s)
  {
    forall m: nat | CompileSegment(r, s, principal, m).Ok?
        && Binds(all, m, CompileSegment(r, s, principal, m).value.args)
      ensures EvalAll(CompileSegment(r, s, principal, m).value.preds, row, all) == True
          <==> SegmentTri(s, facts, principal, at) == True
    {
      SegmentMeansAt(r, s, DimsOf(s), principal, m, row, facts, all, at);
    }
  }

  // ------------------------------------------------------------------ plans

  /** The segment takes part in a plan: it is active, and of the view or the operation. */
  predicate Concerns(s: Segment, r: Resource, op: string, at: int) {
    ActiveAt(s, at) && (s.operation == r.viewOperation || s.operation == op)
  }

  /** However segments compile and whatever they mean: each one concerned compiles to one predicate with its meaning. */
  ghost predicate Meaning(f: Part<Segment>, r: Resource, op: string, segs: seq<Segment>, holds: Segment -> bool,
      row: Columns, all: seq<Arg>, at: int) {
    forall i :: 0 <= i < |segs| && Concerns(segs[i], r, op, at) ==>
        PartMeans(f, segs[i], holds, row, all) && PartIsOne(f, segs[i])
  }

  ghost predicate SomeHolds(segs: seq<Segment>, op: string, holds: Segment -> bool, at: int) {
    exists i :: 0 <= i < |segs| && segs[i].operation == op && ActiveAt(segs[i], at) && holds(segs[i])
  }

  lemma ActiveMean(f: Part<Segment>, r: Resource, main: string, segs: seq<Segment>, op: string, holds: Segment -> bool,
      at: int, n: nat,
                   row: Columns, all: seq<Arg>, p: Preds)
    requires Meaning(f, r, main, segs, holds, row, all, at) && (op == main || op == r.viewOperation)
    requires Chain(f, ActiveSegs(segs, op, at), n) == Ok(p) && Binds(all, n, p.args)
    ensures EachMeans(p.preds, ActiveSegs(segs, op, at), holds, row, all)
  {
    var mine := ActiveSegs(segs, op, at);
    ActiveSegsAre(segs, op, at);
    forall i | 0 <= i < |mine| ensures PartMeans(f, mine[i], holds, row, all) && PartIsOne(f, mine[i]) {
      assert mine[i] in mine;
      var j :| 0 <= j < |segs| && segs[j] == mine[i];
    }
    ChainEach(f, mine, n, holds, row, all);
  }

  lemma UnionMeans(preds: seq<Pred>, segs: seq<Segment>, op: string, holds: Segment -> bool, row: Columns,
      all: seq<Arg>, at: int)
    requires EachMeans(preds, ActiveSegs(segs, op, at), holds, row, all)
    ensures Eval(OrAll(preds), row, all) == True <==> SomeHolds(segs, op, holds, at)
  {
    var mine := ActiveSegs(segs, op, at);
    ActiveSegsAre(segs, op, at);
    OrAllMeans(preds, row, all);
    if SomeHolds(segs, op, holds, at) {
      var i :| 0 <= i < |segs| && segs[i].operation == op && ActiveAt(segs[i], at) && holds(segs[i]);
      assert segs[i] in mine;
      var j :| 0 <= j < |mine| && mine[j] == segs[i];
      assert Eval(preds[j], row, all) == True;
    }
    if Eval(OrAll(preds), row, all) == True {
      var j :| 0 <= j < |preds| && Eval(preds[j], row, all) == True;
      assert mine[j] in mine;
      var i :| 0 <= i < |segs| && segs[i] == mine[j];
    }
  }

  /** Each hit bit says whether its segment holds for the row, and is never NULL. */
  ghost predicate HitsAre(p: Plan, r: Resource, mine: seq<Segment>, holds: Segment -> bool, row: Columns,
      all: seq<Arg>) {
    && |p.hits| == |p.sets| == |mine|
    && (forall i :: 0 <= i < |mine| ==> p.sets[i] == FieldsOf(r, mine[i]))
    && (forall i :: 0 <= i < |mine| ==> Eval(p.hits[i], row, all) == Of(holds(mine[i])))
  }

  lemma AssembledHits(r: Resource, where: Pred, args: seq<Arg>, mine: seq<Segment>, preds: seq<Pred>,
      holds: Segment -> bool, row: Columns, all: seq<Arg>)
    requires EachMeans(preds, mine, holds, row, all)
    ensures HitsAre(Assemble(r, where, args, mine, preds), r, mine, holds, row, all)
  {
    var p := Assemble(r, where, args, mine, preds);
    forall i | 0 <= i < |mine| ensures Eval(p.hits[i], row, all) == Of(holds(mine[i])) {
      assert p.hits[i] == Hit(preds[i]);
    }
  }

  /** What a plan means: its Where, and its bits. */
  ghost predicate PlanIs(p: Plan, r: Resource, segs: seq<Segment>, op: string, holds: Segment -> bool, at: int,
      row: Columns, all: seq<Arg>) {
    && (Eval(p.where, row, all) == True
        <==> SomeHolds(segs, r.viewOperation, holds, at) && SomeHolds(segs, op, holds, at))
    && HitsAre(p, r, ActiveSegs(segs, op, at), holds, row, all)
  }

  lemma ViewPlanMeans(r: Resource, segs: seq<Segment>, holds: Segment -> bool, at: int, row: Columns, all: seq<Arg>,
      v: Preds)
    requires EachMeans(v.preds, ActiveSegs(segs, r.viewOperation, at), holds, row, all)
    ensures PlanIs(Assemble(r, OrAll(v.preds), v.args, ActiveSegs(segs, r.viewOperation, at), v.preds), r, segs,
        r.viewOperation, holds, at, row, all)
  {
    AssembledHits(r, OrAll(v.preds), v.args, ActiveSegs(segs, r.viewOperation, at), v.preds, holds, row, all);
    UnionMeans(v.preds, segs, r.viewOperation, holds, row, all, at);
  }

  lemma OtherPlanMeans(r: Resource, segs: seq<Segment>, op: string, holds: Segment -> bool, at: int, row: Columns,
      all: seq<Arg>, v: Preds, o: Preds)
    requires EachMeans(v.preds, ActiveSegs(segs, r.viewOperation, at), holds, row, all)
        && EachMeans(o.preds, ActiveSegs(segs, op, at), holds, row, all)
    ensures PlanIs(Assemble(r, All([OrAll(v.preds), OrAll(o.preds)]), v.args + o.args, ActiveSegs(segs, op, at),
        o.preds), r, segs, op, holds, at, row, all)
  {
    BothUnionsMean(v.preds, o.preds, r, segs, op, holds, at, row, all);
    AssembledHits(r, All([OrAll(v.preds), OrAll(o.preds)]), v.args + o.args, ActiveSegs(segs, op, at), o.preds, holds,
        row, all);
  }

  lemma BothUnionsMean(v: seq<Pred>, o: seq<Pred>, r: Resource, segs: seq<Segment>, op: string, holds: Segment -> bool,
      at: int, row: Columns, all: seq<Arg>)
    requires EachMeans(v, ActiveSegs(segs, r.viewOperation, at), holds, row, all)
        && EachMeans(o, ActiveSegs(segs, op, at), holds, row, all)
    ensures Eval(All([OrAll(v), OrAll(o)]), row, all) == True
        <==> SomeHolds(segs, r.viewOperation, holds, at) && SomeHolds(segs, op, holds, at)
  {
    UnionMeans(v, segs, r.viewOperation, holds, row, all, at);
    UnionMeans(o, segs, op, holds, row, all, at);
    AllOfTwo(OrAll(v), OrAll(o), row, all);
  }

  /** A plan's Where holds for a row when the view and the operation each have a segment that does; its bits are the
      operation's segments. */
  lemma PlanMeans(f: Part<Segment>, r: Resource, segs: seq<Segment>, op: string, holds: Segment -> bool, at: int,
      base: nat, row: Columns, all: seq<Arg>)
    requires Meaning(f, r, op, segs, holds, row, all, at)
    requires CompileWith(f, r, segs, op, at, base).Ok?
        && Binds(all, base, CompileWith(f, r, segs, op, at, base).value.args)
    ensures PlanIs(CompileWith(f, r, segs, op, at, base).value, r, segs, op, holds, at, row, all)
  {
    var v := Chain(f, ActiveSegs(segs, r.viewOperation, at), base).value;
    if op == r.viewOperation {
      ActiveMean(f, r, op, segs, op, holds, at, base, row, all, v);
      ViewPlanMeans(r, segs, holds, at, row, all, v);
    } else {
      var o := Chain(f, ActiveSegs(segs, op, at), base + |v.args|).value;
      assert EachMeans(v.preds, ActiveSegs(segs, r.viewOperation, at), holds, row, all)
          && EachMeans(o.preds, ActiveSegs(segs, op, at), holds, row, all) by {
        BindsBoth(all, base, v.args, o.args);
        ActiveMean(f, r, op, segs, r.viewOperation, holds, at, base, row, all, v);
        ActiveMean(f, r, op, segs, op, holds, at, base + |v.args|, row, all, o);
      }
      OtherPlanMeans(r, segs, op, holds, at, row, all, v, o);
    }
  }

  lemma SomeHoldsIsEntitled(segs: seq<Segment>, op: string, facts: Facts, principal: string, at: int)
    ensures SomeHolds(segs, op, Holding(facts, principal, at), at) <==> Entitled(segs, op, facts, principal, at) == True
  {
    EntitledIsTrue(segs, op, facts, principal, at);
  }

  ghost predicate AllAgreeable(r: Resource, segs: seq<Segment>, op: string, at: int, facts: Facts, row: Columns) {
    forall i :: 0 <= i < |segs| && Concerns(segs[i], r, op, at) ==> Agreeable(segs[i], r, facts, row)
  }

  lemma SegmentsMean(r: Resource, segs: seq<Segment>, op: string, principal: string, at: int, row: Columns,
      facts: Facts, all: seq<Arg>)
    requires AllAgreeable(r, segs, op, at, facts, row) && ReadsAll(facts, row, r)
    ensures Meaning(SegmentPart(r, principal), r, op, segs, Holding(facts, principal, at), row, all, at)
  {
    forall i | 0 <= i < |segs| && Concerns(segs[i], r, op, at)
      ensures PartMeans(SegmentPart(r, principal), segs[i], Holding(facts, principal, at), row, all)
          && PartIsOne(SegmentPart(r, principal), segs[i])
    {
      SegmentMeans(r, segs[i], principal, row, facts, all, at);
    }
  }

  /**
    The compiled Where is TRUE for a row exactly when Evaluate permits the action on it, whatever
    columns the row has and wherever the plan's arguments stand in the statement.
   */
  lemma WhereMeansAllowed(r: Resource, segs: seq<Segment>, op: string, principal: string, at: int, base: nat,
      row: Columns, facts: Facts, all: seq<Arg>)
    requires AllAgreeable(r, segs, op, at, facts, row) && ReadsAll(facts, row, r)
    requires Compile(r, segs, op, principal, at, base).Ok?
        && Binds(all, base, Compile(r, segs, op, principal, at, base).value.args)
    ensures Eval(Compile(r, segs, op, principal, at, base).value.where, row, all) == True
            <==> Evaluate(r, segs, op, facts, principal, at).action == True
    ensures HitsAre(Compile(r, segs, op, principal, at, base).value, r, ActiveSegs(segs, op, at),
        Holding(facts, principal, at), row, all)
  {
    SegmentsMean(r, segs, op, principal, at, row, facts, all);
    PlanMeans(SegmentPart(r, principal), r, segs, op, Holding(facts, principal, at), at, base, row, all);
    SomeHoldsIsEntitled(segs, r.viewOperation, facts, principal, at);
    SomeHoldsIsEntitled(segs, op, facts, principal, at);
  }

  /** A row's fields from its hit bitmap are the fields Evaluate gives, on every row the list shows. */
  lemma FieldsMeanReadable(r: Resource, segs: seq<Segment>, op: string, principal: string, at: int, base: nat,
      row: Columns, facts: Facts, all: seq<Arg>)
    requires AllAgreeable(r, segs, op, at, facts, row) && ReadsAll(facts, row, r)
    requires Compile(r, segs, op, principal, at, base).Ok?
        && Binds(all, base, Compile(r, segs, op, principal, at, base).value.args)
    requires Evaluate(r, segs, op, facts, principal, at).action == True
    ensures var p := Compile(r, segs, op, principal, at, base).value;
            PlanFields(p, Bits(p, row, all)) == Evaluate(r, segs, op, facts, principal, at).fields
  {
    WhereMeansAllowed(r, segs, op, principal, at, base, row, facts, all);
    HitFields(Compile(r, segs, op, principal, at, base).value, r, segs, op, row, facts, principal, all, at);
  }

  lemma HitField(p: Plan, r: Resource, segs: seq<Segment>, op: string, row: Columns, facts: Facts, principal: string,
      all: seq<Arg>, at: int, f: string)
    requires HitsAre(p, r, ActiveSegs(segs, op, at), Holding(facts, principal, at), row, all)
    ensures f in PlanFields(p, Bits(p, row, all))
        <==> Showable(r, f) && exists j :: 0 <= j < |segs| && Grants(segs[j], op, f, facts, principal, at)
  {
    var mine, bits := ActiveSegs(segs, op, at), Bits(p, row, all);
    ActiveSegsAre(segs, op, at);
    if f in PlanFields(p, bits) {
      var i :| 0 <= i < |bits| && i < |p.sets| && bits[i] && f in p.sets[i];
      assert mine[i] in mine;
      var j :| 0 <= j < |segs| && segs[j] == mine[i];
      assert Grants(segs[j], op, f, facts, principal, at);
    }
    if Showable(r, f) && exists j :: 0 <= j < |segs| && Grants(segs[j], op, f, facts, principal, at) {
      var j :| 0 <= j < |segs| && Grants(segs[j], op, f, facts, principal, at);
      GrantsIsActive(segs[j], op, f, facts, principal, at);
      assert segs[j] in mine;
      var i :| 0 <= i < |mine| && mine[i] == segs[j];
      assert bits[i] && f in p.sets[i];
    }
  }

  lemma GrantsIsActive(s: Segment, op: string, f: string, facts: Facts, principal: string, at: int)
    requires Grants(s, op, f, facts, principal, at)
    ensures ActiveAt(s, at) && s.operation == op && Holding(facts, principal, at)(s)
  {
  }

  lemma HitFields(p: Plan, r: Resource, segs: seq<Segment>, op: string, row: Columns, facts: Facts, principal: string,
      all: seq<Arg>, at: int)
    requires HitsAre(p, r, ActiveSegs(segs, op, at), Holding(facts, principal, at), row, all)
        && Evaluate(r, segs, op, facts, principal, at).action == True
    ensures PlanFields(p, Bits(p, row, all)) == Evaluate(r, segs, op, facts, principal, at).fields
  {
    forall f ensures f in PlanFields(p, Bits(p, row, all))
        <==> f in Evaluate(r, segs, op, facts, principal, at).fields {
      HitField(p, r, segs, op, row, facts, principal, all, at, f);
    }
  }

  // ------------------------------------------------------------------ the compiler never drops a segment

  predicate Pushes(a: Atom, d: Dimension) {
    a == Everything || (d.pushdownable && a != Other)
  }

  lemma AtomRefused(d: Dimension, a: Atom, principal: string, n: nat)
    ensures CompileAtom(d, a, principal, n).Ok? <==> Pushes(a, d)
  {
    if a.Tree? {
      ItemsCompile(a.items, d.column, n);
    }
  }

  predicate PushesAll(s: Segment, r: Resource) {
    forall dim :: dim in s.atoms ==> Pushes(s.atoms[dim], DimensionOf(r, dim))
  }

  ghost function Pushing(r: Resource): Segment -> bool {
    (s: Segment) => PushesAll(s, r)
  }

  lemma SegmentRefused(r: Resource, s: Segment, dims: seq<string>, principal: string, n: nat)
    requires forall dim :: dim in dims <==> dim in s.atoms
    ensures Chain(DimPart(r, s, principal), dims, n).Ok? <==> PushesAll(s, r)
  {
    forall i, m: nat | 0 <= i < |dims| ensures CompileDim(r, s, principal, dims[i], m).Ok?
        <==> Pushes(AtomOf(s, dims[i]), DimensionOf(r, dims[i])) {
      AtomRefused(DimensionOf(r, dims[i]), AtomOf(s, dims[i]), principal, m);
    }
    ChainOk(DimPart(r, s, principal), dims, n, (dim: string) => Pushes(AtomOf(s, dim), DimensionOf(r, dim)));
    forall dim | dim in s.atoms ensures exists i :: 0 <= i < |dims| && dims[i] == dim {
      assert dim in dims;
    }
    forall i | 0 <= i < |dims| ensures dims[i] in s.atoms {
      assert dims[i] in dims;
    }
  }

  /** A plan is refused exactly when an active segment of the view or the operation is. */
  lemma PlanRefused(f: Part<Segment>, r: Resource, segs: seq<Segment>, op: string, ok: Segment -> bool, at: int,
      base: nat)
    requires forall i, m: nat :: 0 <= i < |segs| ==> (f(segs[i], m).Ok? <==> ok(segs[i]))
    ensures CompileWith(f, r, segs, op, at, base).Ok?
            <==> forall s :: s in segs && (s.operation == r.viewOperation || s.operation == op) && ActiveAt(s, at) ==>
                 ok(s)
  {
    var view, mine := ActiveSegs(segs, r.viewOperation, at), ActiveSegs(segs, op, at);
    ActiveRefused(f, segs, r.viewOperation, ok, at, base);
    var v := Chain(f, view, base);
    if v.Ok? {
      ActiveRefused(f, segs, op, ok, at, base + |v.value.args|);
    }
  }

  lemma ActiveRefused(f: Part<Segment>, segs: seq<Segment>, op: string, ok: Segment -> bool, at: int, n: nat)
    requires forall i, m: nat :: 0 <= i < |segs| ==> (f(segs[i], m).Ok? <==> ok(segs[i]))
    ensures Chain(f, ActiveSegs(segs, op, at), n).Ok?
        <==> forall s :: s in segs && s.operation == op && ActiveAt(s, at) ==> ok(s)
  {
    var mine := ActiveSegs(segs, op, at);
    ActiveSegsAre(segs, op, at);
    forall i, m: nat | 0 <= i < |mine| ensures f(mine[i], m).Ok? <==> ok(mine[i]) {
      assert mine[i] in mine;
      var j :| 0 <= j < |segs| && segs[j] == mine[i];
    }
    ChainOk(f, mine, n, ok);
    forall s | s in mine ensures exists i :: 0 <= i < |mine| && mine[i] == s {
    }
  }

  /** A plan is refused exactly when some active segment it needs has an atom the database cannot decide. */
  lemma RefusedExactly(r: Resource, segs: seq<Segment>, op: string, principal: string, at: int, base: nat)
    ensures Compile(r, segs, op, principal, at, base).Ok?
            <==> forall s :: s in segs && (s.operation == r.viewOperation || s.operation == op) && ActiveAt(s, at) ==>
                 PushesAll(s, r)
  {
    forall s, m: nat ensures CompileSegment(r, s, principal, m).Ok? <==> PushesAll(s, r) {
      SegmentRefused(r, s, DimsOf(s), principal, m);
    }
    PlanRefused(SegmentPart(r, principal), r, segs, op, Pushing(r), at, base);
  }

  // ------------------------------------------------------------------ the loops

  /** The map's atoms are visited in any order; the answer does not depend on it. */
  method SegmentLoop(s: Segment, facts: Facts, principal: string, at: int) returns (out: Tri)
    ensures out == SegmentTri(s, facts, principal, at)
  {
    if !ActiveAt(s, at) {
      return False;
    }
    out := True;
    var rest := s.atoms.Keys;
    while rest != {}
      invariant rest <= s.atoms.Keys && out != False
      invariant forall dim :: dim in s.atoms.Keys - rest ==>
          AtomTri(s.atoms[dim], FactOf(facts, dim), principal) != False
      invariant out == Unknown
          <==> exists dim :: dim in s.atoms.Keys - rest
                             && AtomTri(s.atoms[dim], FactOf(facts, dim), principal) == Unknown
      decreases rest
    {
      var dim :| dim in rest;
      var t := AtomTri(s.atoms[dim], FactOf(facts, dim), principal);
      if t == False {
        return False;
      }
      if t == Unknown {
        out := Unknown;
      }
      rest := rest - {dim};
      assert s.atoms.Keys - rest == s.atoms.Keys - (rest + {dim}) + {dim};
    }
    assert s.atoms.Keys - rest == s.atoms.Keys;
  }

  method EntitledLoop(segs: seq<Segment>, op: string, facts: Facts, principal: string, at: int)
      returns (res: Tri, fields: set<string>)
    ensures res == Entitled(segs, op, facts, principal, at)
    ensures forall f :: f in fields <==> exists i :: 0 <= i < |segs| && Grants(segs[i], op, f, facts, principal, at)
  {
    res, fields := False, {};
    for k := 0 to |segs|
      invariant res == Entitled(segs[..k], op, facts, principal, at)
      invariant forall f :: f in fields <==> exists i :: 0 <= i < k && Grants(segs[i], op, f, facts, principal, at)
    {
      assert segs[..k + 1][..k] == segs[..k];
      if segs[k].operation == op {
        var t := SegmentLoop(segs[k], facts, principal, at);
        if t == True {
          res := True;
          fields := fields + SetOf(segs[k].readFields);
        } else if t == Unknown && res == False {
          res := Unknown;
        }
      }
    }
    assert segs[..|segs|] == segs;
  }

  method EvaluateRecord(r: Resource, segs: seq<Segment>, op: string, facts: Facts, principal: string, at: int)
      returns (d: Decision)
    ensures d == Evaluate(r, segs, op, facts, principal, at)
  {
    var visible, fields := EntitledLoop(segs, r.viewOperation, facts, principal, at);
    var action := visible;
    if op != r.viewOperation {
      var act;
      act, fields := EntitledLoop(segs, op, facts, principal, at);
      action := And(visible, act);
    }
    var shown := {};
    if visible == True {
      shown := set f | f in fields && Showable(r, f);
    }
    d := Decision(visible, action, shown);
  }

  /** compiler: its arguments grow as predicates are written. */
  class Compiler {
    const r: Resource
    const principal: string
    const base: nat
    var args: seq<Arg>

    constructor (r: Resource, principal: string, base: nat)
      ensures this.r == r && this.principal == principal && this.base == base && args == []
    {
      this.r, this.principal, this.base, args := r, principal, base, [];
    }

    /** arg: appends an argument and answers its placeholder. */
    method Give(v: Arg) returns (n: nat)
      modifies this
      ensures args == old(args) + [v] && n == base + |args|
    {
      args := args + [v];
      n := base + |args|;
    }

    method TreePreds(items: seq<TreeItem>, col: string) returns (parts: seq<Pred>)
      modifies this
      ensures Did(Chain(ItemPart(col), items, base + |old(args)|), old(args), Ok(parts))
    {
      ghost var given: seq<Arg> := [];
      parts := [];
      for k := 0 to |items|
        invariant args == old(args) + given && Chain(ItemPart(col), items[..k], base + |old(args)|)
            == Ok(Preds(parts, given))
      {
        ghost var one := CompileItem(items[k], col, base + |args|);
        ChainNext(ItemPart(col), items, k, base + |old(args)|, Preds(parts, given), Ok(one));
        var p := ItemPred(items[k], col);
        assert one.preds == [p];
        parts := parts + [p];
        Appended(old(args), given, one.args);
        given := given + one.args;
      }
      assert items[..|items|] == items;
    }

    method ItemPred(it: TreeItem, col: string) returns (p: Pred)
      modifies this
      ensures var c := CompileItem(it, col, base + |old(args)|); [p] == c.preds && args == old(args) + c.args
    {
      if it.subtree {
        var a := Give(AText(it.path));
        var b := Give(AText(Escape(it.path) + "/%"));
        p := Any([Equals(col, a), Like(col, b)]);
      } else {
        var a := Give(AText(it.path));
        p := Equals(col, a);
      }
    }

    method AtomPred(dim: string, a: Atom) returns (c: Result<Option<Pred>, Refusal>)
      modifies this
      ensures var spec := CompileAtom(DimensionOf(r, dim), a, principal, base + |old(args)|);
              if spec.Err? then c == Err(spec.error) && args == old(args)
              else c == Ok(spec.value.pred) && args == old(args) + spec.value.args
    {
      var d := DimensionOf(r, dim);
      if a != Everything && !d.pushdownable {
        return Err(NotCompletable);
      }
      match a
      case Everything => c := Ok(None);
      case In(values) =>
        if values == [] {
          return Ok(Some(PFalse));
        }
        var n := Give(ATexts(values));
        c := Ok(Some(EqualsAny(d.column, n)));
      case Self =>
        var n := Give(AText(principal));
        c := Ok(Some(Equals(d.column, n)));
      case Tree(items) =>
        var parts := TreePreds(items, d.column);
        c := Ok(Some(OrAll(parts)));
      case Interval(currency, lo, hi) =>
        var n := Give(AText(currency));
        var parts := [NotNull(d.column), Equals(d.currencyColumn, n)];
        if lo.Some? {
          var m := Give(ANum(lo.value.at));
          parts := parts + [Compare(d.column, if lo.value.closed then Ge else Gt, m)];
        }
        if hi.Some? {
          var m := Give(ANum(hi.value.at));
          parts := parts + [Compare(d.column, if hi.value.closed then Le else Lt, m)];
        }
        ghost var l := LoPred(d, lo, base + |old(args)| + 1);
        ghost var h := HiPred(d, hi, base + |old(args)| + 1 + |l.args|);
        assert parts == [NotNull(d.column), Equals(d.currencyColumn, n)] + l.preds + h.preds;
        assert args == old(args) + ([AText(currency)] + l.args + h.args);
        c := Ok(Some(All(parts)));
      case Other => c := Err(NotCompletable);
    }

    /** What a loop over parts has done: all that their chain prescribes. */
    ghost predicate Did(spec: Result<Preds, Refusal>, before: seq<Arg>, c: Result<seq<Pred>, Refusal>)
      reads this
    {
      if spec.Err? then c == Err(spec.error) else c == Ok(spec.value.preds) && args == before + spec.value.args
    }

    ghost predicate CompilesDims(f: Part<string>, s: Segment) {
      forall dim: string, m: nat {:trigger CompileDim(r, s, principal, dim, m)} ::
          f(dim, m) == CompileDim(r, s, principal, dim, m)
    }

    ghost predicate CompilesSegments(f: Part<Segment>) {
      forall s: Segment, m: nat {:trigger CompileSegment(r, s, principal, m)} ::
          f(s, m) == CompileSegment(r, s, principal, m)
    }

    method DimPreds(s: Segment, dims: seq<string>, ghost f: Part<string>) returns (c: Result<seq<Pred>, Refusal>)
      requires CompilesDims(f, s) && forall i :: 0 <= i < |dims| ==> dims[i] in s.atoms
      modifies this
      ensures Did(Chain(f, dims, base + |old(args)|), old(args), c)
    {
      ghost var given: seq<Arg> := [];
      var parts := [];
      for k := 0 to |dims|
        invariant args == old(args) + given && Chain(f, dims[..k], base + |old(args)|) == Ok(Preds(parts, given))
      {
        ghost var one := f(dims[k], base + |args|);
        ChainNext(f, dims, k, base + |old(args)|, Preds(parts, given), one);
        var p := DimPred(s, dims[k], f);
        if p.Err? {
          return p;
        }
        parts := parts + p.value;
        Appended(old(args), given, one.value.args);
        given := given + one.value.args;
      }
      assert dims[..|dims|] == dims;
      c := Ok(parts);
    }

    method DimPred(s: Segment, dim: string, ghost f: Part<string>) returns (c: Result<seq<Pred>, Refusal>)
      requires CompilesDims(f, s) && dim in s.atoms
      modifies this
      ensures Did(f(dim, base + |old(args)|), old(args), c)
    {
      assert f(dim, base + |args|) == CompileDim(r, s, principal, dim, base + |args|);
      var p := AtomPred(dim, s.atoms[dim]);
      c := if p.Err? then Err(p.error) else if p.value.Some? then Ok([p.value.value]) else Ok([]);
    }

    method SegmentPred(s: Segment, ghost f: Part<Segment>) returns (c: Result<seq<Pred>, Refusal>)
      requires CompilesSegments(f)
      modifies this
      ensures Did(f(s, base + |old(args)|), old(args), c)
    {
      assert f(s, base + |args|) == CompileSegment(r, s, principal, base + |args|);
      var dims := Sort(s.atoms.Keys);
      assert dims == DimsOf(s);
      forall i | 0 <= i < |dims| ensures dims[i] in s.atoms {
        assert dims[i] in dims;
      }
      var parts := DimPreds(s, dims, DimPart(r, s, principal));
      c := if parts.Err? then parts else Ok([Conjunction(parts.value)]);
    }

    method UnionPreds(segs: seq<Segment>, ghost f: Part<Segment>) returns (c: Result<seq<Pred>, Refusal>)
      requires CompilesSegments(f)
      modifies this
      ensures Did(Chain(f, segs, base + |old(args)|), old(args), c)
    {
      ghost var given: seq<Arg> := [];
      var preds := [];
      for k := 0 to |segs|
        invariant args == old(args) + given && Chain(f, segs[..k], base + |old(args)|) == Ok(Preds(preds, given))
      {
        ghost var one := f(segs[k], base + |args|);
        ChainNext(f, segs, k, base + |old(args)|, Preds(preds, given), one);
        var p := SegmentPred(segs[k], f);
        if p.Err? {
          return p;
        }
        preds := preds + p.value;
        Appended(old(args), given, one.value.args);
        given := given + one.value.args;
      }
      assert segs[..|segs|] == segs;
      c := Ok(preds);
    }

    /** Compile: the view's segments, then the operation's own when it is another, into one argument list. */
    method PlanFor(segs: seq<Segment>, op: string, at: int, ghost f: Part<Segment>) returns (c: Result<Plan, Refusal>)
      requires CompilesSegments(f) && args == []
      modifies this
      ensures c == CompileWith(f, r, segs, op, at, base)
    {
      var view := Active(segs, r.viewOperation, at);
      var v := UnionPreds(view, f);
      if v.Err? {
        return Err(v.error);
      }
      assert args == Chain(f, view, base).value.args;
      var where, mine, hits := OrAll(v.value), view, v.value;
      if op != r.viewOperation {
        mine := Active(segs, op, at);
        var o := UnionPreds(mine, f);
        if o.Err? {
          return Err(o.error);
        }
        where, hits := All([where, OrAll(o.value)]), o.value;
      }
      c := Ok(Assemble(r, where, args, mine, hits));
    }
  }

  method Active(segs: seq<Segment>, op: string, at: int) returns (out: seq<Segment>)
    ensures out == ActiveSegs(segs, op, at)
  {
    out := [];
    for k := 0 to |segs|
      invariant out == ActiveSegs(segs[..k], op, at)
    {
      assert segs[..k + 1][..k] == segs[..k];
      if segs[k].operation == op && ActiveAt(segs[k], at) {
        out := out + [segs[k]];
      }
    }
    assert segs[..|segs|] == segs;
  }

  method CompilePlan(r: Resource, segs: seq<Segment>, op: string, principal: string, at: int, base: nat)
      returns (c: Result<Plan, Refusal>)
    ensures c == Compile(r, segs, op, principal, at, base)
  {
    var compiler := new Compiler(r, principal, base);
    c := compiler.PlanFor(segs, op, at, SegmentPart(r, principal));
  }

}
