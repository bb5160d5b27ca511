/**
  Authorization of one record and of a list (authz/eval.go, authz/sql.go, authz/segment.go): a
  three-valued evaluator over a record's facts, and a compiler of the same segments into a SQL
  predicate with a hit bitmap, proved to decide alike.
 */
module Authz {
  import opened Base
  import opened Sql
  import opened Sorting
  import opened Chains

  datatype DimensionKind = ValueSet | OrgTree | Principal | Amount

  datatype Dimension = Dimension(kind: DimensionKind, column: string, currencyColumn: string, pushdownable: bool)

  datatype FieldClass = Ordinary | Restricted | Secret

  datatype Resource = Resource(viewOperation: string, dimensions: map<string, Dimension>, fields: map<string,
      FieldClass>)

  datatype TreeItem = TreeItem(path: string, subtree: bool)

  datatype Bound = Bound(at: real, closed: bool)

  /** A segment's condition on one dimension; Other is a kind this code does not understand. */
  datatype Atom = Everything | In(values: seq<string>) | Self | Tree(items: seq<TreeItem>)
                | Interval(currency: string, lo: Option<Bound>, hi: Option<Bound>) | Other

  /** An edge of a validity window: absent, an instant, or a text that is not one. */
  datatype Edge = Open | Instant(t: int) | Garbled

  datatype Segment = Segment(operation: string, atoms: map<string, Atom>, readFields: seq<string>,
      writeFields: seq<string>,
                             from: Edge, until: Edge)

  /** A fact: not obtained, a known null, or a value; amount is the number its text denotes, if any. */
  datatype Fact = Unobtained | Null | Value(text: string, amount: Option<real>, currency: string)

  type Facts = map<string, Fact>

  function FactOf(facts: Facts, dim: string): Fact {
    if dim in facts then facts[dim] else Unobtained
  }

  predicate ActiveAt(s: Segment, t: int) {
    && s.from.Instant? && t >= s.from.t
    && (s.until.Open? || (s.until.Instant? && t < s.until.t))
  }

  predicate FitsDimension(a: Atom, d: Dimension) {
    match a
    case Tree(_) => d.kind == OrgTree
    case Self => d.kind == Principal
    case Interval(_, lo, hi) => d.kind == Amount && (lo.Some? || hi.Some?)
    case Other => false
    case _ => true
  }

  /** Check: exactly one well-formed atom per declared dimension, written fields readable. */
  predicate Fits(s: Segment, r: Resource) {
    && |s.atoms| == |r.dimensions|
    && (forall dim :: dim in s.atoms ==> dim in r.dimensions && FitsDimension(s.atoms[dim], r.dimensions[dim]))
    && (forall f :: f in s.writeFields ==> f in s.readFields)
  }

  /** A segment that passed Check constrains every dimension. */
  lemma FitsMeansEveryDimension(s: Segment, r: Resource)
    requires Fits(s, r)
    ensures s.atoms.Keys == r.dimensions.Keys
  {
    assert s.atoms.Keys <= r.dimensions.Keys;
    SameSize(s.atoms.Keys, r.dimensions.Keys);
  }

  lemma SameSize<T>(a: set<T>, b: set<T>)
    requires a <= b && |a| == |b|
    ensures a == b
  {
    assert |b - a| == |b| - |a|;
  }

  // ------------------------------------------------------------------ the evaluator

  predicate Covers(it: TreeItem, path: string) {
    path == it.path || (it.subtree && it.path + "/" <= path)
  }

  function IntervalTri(a: Atom, f: Fact): Tri
    requires a.Interval? && f.Value?
  {
    if f.currency != a.currency then False
    else if f.amount.None? then Unknown
    else
      var x := f.amount.value;
      if a.lo.Some? && (x < a.lo.value.at || (x == a.lo.value.at && !a.lo.value.closed)) then False
      else if a.hi.Some? && (x > a.hi.value.at || (x == a.hi.value.at && !a.hi.value.closed)) then False
      else True
  }

  function AtomTri(a: Atom, f: Fact, principal: string): Tri {
    if a == Everything then True
    else match f
      case Unobtained => Unknown
      case Null => False
      case Value(text, _, _) =>
        match a
        case In(values) => Of(text in values)
        case Self => Of(text == principal)
        case Tree(items) => if text == "" then False else Of(exists i :: 0 <= i < |items| && Covers(items[i], text))
        case Interval(_, _, _) => IntervalTri(a, f)
        case _ => Unknown
  }

  /** A segment holds when it is active and every atom does; a definite mismatch wins over anything unknown. */
  function SegmentTri(s: Segment, facts: Facts, principal: string, at: int): Tri {
    if !ActiveAt(s, at) then False
    else if exists dim :: dim in s.atoms && AtomTri(s.atoms[dim], FactOf(facts, dim), principal) == False then False
    else if exists dim :: dim in s.atoms && AtomTri(s.atoms[dim], FactOf(facts, dim), principal) == Unknown then Unknown
    else True
  }

  /** OR over the operation's segments. */
  function Entitled(segs: seq<Segment>, op: string, facts: Facts, principal: string, at: int): Tri {
    if segs == [] then False
    else
      var last := segs[|segs| - 1];
      var rest := Entitled(segs[..|segs| - 1], op, facts, principal, at);
      if last.operation != op then rest else Or(rest, SegmentTri(last, facts, principal, at))
  }

  /** A true segment of the operation that reads the field. */
  predicate Grants(s: Segment, op: string, f: string, facts: Facts, principal: string, at: int) {
    s.operation == op && SegmentTri(s, facts, principal, at) == True && f in s.readFields
  }

  predicate Showable(r: Resource, f: string) {
    f in r.fields && r.fields[f] != Secret
  }

  datatype Decision = Decision(visible: Tri, action: Tri, fields: set<string>)

  function Action(r: Resource, segs: seq<Segment>, op: string, facts: Facts, principal: string, at: int): Tri {
    var visible := Entitled(segs, r.viewOperation, facts, principal, at);
    if op == r.viewOperation then visible else And(visible, Entitled(segs, op, facts, principal, at))
  }

  /** Evaluate's decision: visibility, permission, and the fields readable for the operation once visible. */
  function Evaluate(r: Resource, segs: seq<Segment>, op: string, facts: Facts, principal: string, at: int): Decision {
    var visible := Entitled(segs, r.viewOperation, facts, principal, at);
    Decision(visible, Action(r, segs, op, facts, principal, at),
             if visible == True then
               set f | f in r.fields && r.fields[f] != Secret
                   && (exists i :: 0 <= i < |segs| && Grants(segs[i], op, f, facts, principal, at))
             else {})
  }

  lemma {:induction false} EntitledIsTrue(segs: seq<Segment>, op: string, facts: Facts, principal: string, at: int)
    ensures Entitled(segs, op, facts, principal, at) == True
            <==> exists i :: 0 <= i < |segs| && segs[i].operation == op
                             && SegmentTri(segs[i], facts, principal, at) == True
  {
    if segs != [] {
      var n := |segs| - 1;
      EntitledIsTrue(segs[..n], op, facts, principal, at);
      if exists i :: 0 <= i < |segs| && segs[i].operation == op && SegmentTri(segs[i], facts, principal, at) == True {
        var i :| 0 <= i < |segs| && segs[i].operation == op && SegmentTri(segs[i], facts, principal, at) == True;
        assert i < n ==> segs[..n][i] == segs[i];
      }
      if Entitled(segs[..n], op, facts, principal, at) == True {
        var i :| 0 <= i < n && segs[..n][i].operation == op && SegmentTri(segs[..n][i], facts, principal, at) == True;
        assert segs[i] == segs[..n][i];
      }
    }
  }

  // ------------------------------------------------------------------ the compiler

  datatype Compiled = Compiled(pred: Option<Pred>, args: seq<Arg>)

  function CompileItem(it: TreeItem, col: string, n: nat): Preds {
    if it.subtree then Preds([Any([Equals(col, n + 1), Like(col, n + 2)])],
        [AText(it.path), AText(Escape(it.path) + "/%")])
    else Preds([Equals(col, n + 1)], [AText(it.path)])
  }

  function ItemPart(col: string): Part<TreeItem> {
    (it: TreeItem, n: nat) => Ok(CompileItem(it, col, n))
  }

  function LoPred(d: Dimension, lo: Option<Bound>, n: nat): Preds {
    if lo.None? then Preds([], []) else Preds([Compare(d.column, if lo.value.closed then Ge else Gt, n + 1)],
        [ANum(lo.value.at)])
  }

  function HiPred(d: Dimension, hi: Option<Bound>, n: nat): Preds {
    if hi.None? then Preds([], []) else Preds([Compare(d.column, if hi.value.closed then Le else Lt, n + 1)],
        [ANum(hi.value.at)])
  }

  function CompileAtom(d: Dimension, a: Atom, principal: string, n: nat): Result<Compiled, Refusal> {
    if a != Everything && !d.pushdownable then Err(NotCompletable)
    else match a
      case Everything => Ok(Compiled(None, []))
      case In(values) =>
        if values == [] then Ok(Compiled(Some(PFalse), []))
            else Ok(Compiled(Some(EqualsAny(d.column, n + 1)), [ATexts(values)]))
      case Self => Ok(Compiled(Some(Equals(d.column, n + 1)), [AText(principal)]))
      case Tree(items) =>
        var c := Chain(ItemPart(d.column), items, n);
        if c.Err? then Err(c.error) else Ok(Compiled(Some(OrAll(c.value.preds)), c.value.args))
      case Interval(currency, lo, hi) =>
        var l := LoPred(d, lo, n + 1);
        var h := HiPred(d, hi, n + 1 + |l.args|);
        Ok(Compiled(Some(All([NotNull(d.column), Equals(d.currencyColumn, n + 1)] + l.preds + h.preds)),
            [AText(currency)] + l.args + h.args))
      case Other => Err(NotCompletable)
  }

  /** An undeclared dimension is the zero one. */
  function DimensionOf(r: Resource, dim: string): Dimension {
    if dim in r.dimensions then r.dimensions[dim] else Dimension(ValueSet, "", "", true)
  }

  function AtomOf(s: Segment, dim: string): Atom {
    if dim in s.atoms then s.atoms[dim] else Other
  }

  /** One dimension's part of a segment: a predicate, or none when every value will do. */
  function CompileDim(r: Resource, s: Segment, principal: string, dim: string, n: nat): Result<Preds, Refusal> {
    var c := CompileAtom(DimensionOf(r, dim), AtomOf(s, dim), principal, n);
    if c.Err? then Err(c.error) else Ok(Preds(if c.value.pred.Some? then [c.value.pred.value] else [], c.value.args))
  }

  /** The segment's dimensions, sorted: a stable text for the same segment. */
  ghost function DimsOf(s: Segment): (dims: seq<string>)
    ensures forall dim :: dim in dims <==> dim in s.atoms
  {
    var dims := Sorted(s.atoms.Keys);
    assert forall dim :: dim in dims <==> dim in SetOf(dims);
    dims
  }

  function DimPart(r: Resource, s: Segment, principal: string): Part<string> {
    (dim: string, m: nat) => CompileDim(r, s, principal, dim, m)
  }

  /** A segment is one predicate: the conjunction over its dimensions. */
  ghost function CompileSegment(r: Resource, s: Segment, principal: string, n: nat): Result<Preds, Refusal> {
    var c := Chain(DimPart(r, s, principal), DimsOf(s), n);
    if c.Err? then c else Ok(Preds([Conjunction(c.value.preds)], c.value.args))
  }

  ghost function SegmentPart(r: Resource, principal: string): Part<Segment> {
    (s: Segment, m: nat) => CompileSegment(r, s, principal, m)
  }

  function ActiveSegs(segs: seq<Segment>, op: string, at: int): seq<Segment>
    decreases |segs|
  {
    if segs == [] then []
    else
      var k := |segs| - 1;
      ActiveSegs(segs[..k], op, at) + (if segs[k].operation == op && ActiveAt(segs[k], at) then [segs[k]] else [])
  }

  lemma {:induction false} ActiveSegsAre(segs: seq<Segment>, op: string, at: int)
    ensures forall s :: s in ActiveSegs(segs, op, at) <==> s in segs && s.operation == op && ActiveAt(s, at)
    decreases |segs|
  {
    if segs != [] {
      var k := |segs| - 1;
      ActiveSegsAre(segs[..k], op, at);
      assert segs == segs[..k] + [segs[k]];
    }
  }

  /** A compiled list authorization: the predicate, its arguments, one hit bit and one field set per segment. */
  datatype Plan = Plan(where: Pred, args: seq<Arg>, hits: seq<Pred>, sets: seq<set<string>>)

  function Hit(p: Pred): Pred { OrFalse(p) }

  function FieldsOf(r: Resource, s: Segment): set<string> {
    set f | f in s.readFields && Showable(r, f)
  }

  /** The plan of an operation whose list is visible and permitted: one predicate per active segment, given how a
      segment compiles. */
  function CompileWith(f: Part<Segment>, r: Resource, segs: seq<Segment>, op: string, at: int, base: nat): Result<Plan,
      Refusal> {
    var view := ActiveSegs(segs, r.viewOperation, at);
    var v := Chain(f, view, base);
    if v.Err? then Err(v.error)
    else if op == r.viewOperation then Ok(Assemble(r, OrAll(v.value.preds), v.value.args, view, v.value.preds))
    else
      var mine := ActiveSegs(segs, op, at);
      var o := Chain(f, mine, base + |v.value.args|);
      if o.Err? then Err(o.error)
      else Ok(Assemble(r, All([OrAll(v.value.preds), OrAll(o.value.preds)]), v.value.args + o.value.args, mine,
          o.value.preds))
  }

  ghost function Compile(r: Resource, segs: seq<Segment>, op: string, principal: string, at: int,
      base: nat): Result<Plan, Refusal> {
    CompileWith(SegmentPart(r, principal), r, segs, op, at, base)
  }

  function Assemble(r: Resource, where: Pred, args: seq<Arg>, segs: seq<Segment>, preds: seq<Pred>): Plan {
    Plan(where, args, seq(|preds|, i requires 0 <= i < |preds| => Hit(preds[i])),
         seq(|segs|, i requires 0 <= i < |segs| => FieldsOf(r, segs[i])))
  }

  /** Plan.Fields: a row's readable fields from its hit bitmap. */
  function PlanFields(p: Plan, hits: seq<bool>): set<string> {
    set i, f | 0 <= i < |hits| && i < |p.sets| && hits[i] && f in p.sets[i] :: f
  }

  function Bits(p: Plan, row: Columns, args: seq<Arg>): seq<bool> {
    seq(|p.hits|, i requires 0 <= i < |p.hits| => Eval(p.hits[i], row, args) == True)
  }

  // ------------------------------------------------------------------ facts read from columns

  /** The fact is what the columns say: NULL as known null; an amount with its currency column. */
  predicate Reads(f: Fact, row: Columns, d: Dimension) {
    match At(row, d.column)
    case VNull => f == Null
    case VText(s) => d.kind != Amount && f.Value? && f.text == s
    case VNum(x) => d.kind == Amount && f.Value? && f.amount == Some(x) && f.currency == CurrencyOf(row, d)
  }

  function CurrencyOf(row: Columns, d: Dimension): string {
    match At(row, d.currencyColumn)
    case VText(c) => c
    case _ => ""
  }

  ghost predicate ReadsAll(facts: Facts, row: Columns, r: Resource) {
    forall dim :: dim in r.dimensions ==> dim in facts && Reads(facts[dim], row, r.dimensions[dim])
  }

  /**
    What evaluator and SQL tell apart: the empty text under a tree item with the empty path, an amount
    whose currency column has no text under an interval with the empty currency, and an amount in a list of
    texts, where the evaluator compares texts and SQL the numbers they denote.
   */
  predicate Comparable(a: Atom, d: Dimension, f: Fact, row: Columns) {
    match a
    case In(values) => d.kind == Amount && f.Value? && f.amount.Some? && values != [] ==>
                         AllNumbers(values) && (f.text in values <==> Denoted(values, f.amount.value))
    case Tree(items) => f.Value? && f.text == "" ==> forall i :: 0 <= i < |items| ==> items[i].path != ""
    case Interval(currency, lo, hi) =>
      f.Value? && f.amount.Some? && currency == "" && !At(row, d.currencyColumn).VText? ==>
        !InRange(f.amount.value, lo, hi)
    case _ => true
  }

  function Outcome(c: Compiled, row: Columns, all: seq<Arg>): Tri {
    if c.pred.None? then True else Eval(c.pred.value, row, all)
  }

  // ------------------------------------------------------------------ they decide alike

  function Covering(v: Val): TreeItem -> bool {
    (it: TreeItem) => v.VText? && Covers(it, v.s)
  }

  lemma ItemMeansAt(it: TreeItem, col: string, n: nat, row: Columns, all: seq<Arg>)
    requires Binds(all, n, CompileItem(it, col, n).args)
    ensures EvalAny(CompileItem(it, col, n).preds, row, all) == True <==> Covering(At(row, col))(it)
  {
    var c := CompileItem(it, col, n);
    AnyOfOne(c.preds[0], row, all);
    assert c.args + [] == c.args;
    BindsPart(all, n, c.args, []);
    assert Given(all, n + 1 + 0) == Some(c.args[0]);
    if it.subtree {
      assert Given(all, n + 1 + 1) == Some(c.args[1]);
      if At(row, col).VText? {
        SubtreePattern(it.path, At(row, col).s);
      }
      AnyOfTwo(Equals(col, n + 1), Like(col, n + 2), row, all);
    }
  }

  lemma ItemMeans(it: TreeItem, col: string, row: Columns, all: seq<Arg>)
    ensures PartOffers(ItemPart(col), it, Covering(At(row, col)), row, all)
  {
    forall m: nat | Binds(all, m, CompileItem(it, col, m).args)
      ensures EvalAny(CompileItem(it, col, m).preds, row, all) == True <==> Covering(At(row, col))(it)
    {
      ItemMeansAt(it, col, m, row, all);
    }
  }

  lemma ItemsCompile(items: seq<TreeItem>, col: string, n: nat)
    ensures Chain(ItemPart(col), items, n).Ok?
  {
    ChainOk(ItemPart(col), items, n, (it: TreeItem) => true);
  }

  /** The tree atom in SQL: some item covers the path. */
  lemma TreeMeans(items: seq<TreeItem>, col: string, n: nat, row: Columns, all: seq<Arg>)
    requires Chain(ItemPart(col), items, n).Ok? && Binds(all, n, Chain(ItemPart(col), items, n).value.args)
    ensures Eval(OrAll(Chain(ItemPart(col), items, n).value.preds), row, all) == True
            <==> At(row, col).VText? && exists i :: 0 <= i < |items| && Covers(items[i], At(row, col).s)
  {
    forall i | 0 <= i < |items| ensures PartOffers(ItemPart(col), items[i], Covering(At(row, col)), row, all) {
      ItemMeans(items[i], col, row, all);
    }
    ChainAny(ItemPart(col), items, n, Covering(At(row, col)), row, all);
  }

  predicate InRange(x: real, lo: Option<Bound>, hi: Option<Bound>) {
    && (lo.Some? ==> Holds(x, if lo.value.closed then Ge else Gt, lo.value.at))
    && (hi.Some? ==> Holds(x, if hi.value.closed then Le else Lt, hi.value.at))
  }

  /** The interval atom in SQL: the currency column names the currency and the amount lies within the bounds. */
  lemma IntervalMeans(d: Dimension, currency: string, lo: Option<Bound>, hi: Option<Bound>, principal: string, n: nat,
      row: Columns, all: seq<Arg>)
    requires d.pushdownable && Binds(all, n, CompileAtom(d, Interval(currency, lo, hi), principal, n).value.args)
    requires (lo.Some? || hi.Some?)
    ensures Outcome(CompileAtom(d, Interval(currency, lo, hi), principal, n).value, row, all) == True
            <==> At(row, d.currencyColumn) == VText(currency) && At(row, d.column).VNum?
                 && InRange(At(row, d.column).x, lo, hi)
  {
    var l := LoPred(d, lo, n + 1);
    var h := HiPred(d, hi, n + 1 + |l.args|);
    var front := [NotNull(d.column), Equals(d.currencyColumn, n + 1)];
    IntervalArgs(currency, l.args, h.args, n, all);
    FrontMeans(d, currency, n, row, all);
    LoMeans(d, lo, n + 1, row, all);
    HiMeans(d, hi, n + 1 + |l.args|, row, all);
    AllOfBoth(front, l.preds, row, all);
    AllOfBoth(front + l.preds, h.preds, row, all);
  }

  lemma IntervalArgs(currency: string, lo: seq<Arg>, hi: seq<Arg>, n: nat, all: seq<Arg>)
    requires Binds(all, n, [AText(currency)] + lo + hi)
    ensures Given(all, n + 1) == Some(AText(currency)) && Binds(all, n + 1, lo) && Binds(all, n + 1 + |lo|, hi)
  {
    assert [AText(currency)] + lo + hi == [AText(currency)] + (lo + hi);
    BindsPart(all, n, [AText(currency)], lo + hi);
    assert Given(all, n + 1 + 0) == Some(AText(currency));
    BindsBoth(all, n + 1, lo, hi);
  }

  lemma FrontMeans(d: Dimension, currency: string, n: nat, row: Columns, all: seq<Arg>)
    requires Given(all, n + 1) == Some(AText(currency))
    ensures EvalAll([NotNull(d.column), Equals(d.currencyColumn, n + 1)], row, all) == True
            <==> At(row, d.column) != VNull && At(row, d.currencyColumn) == VText(currency)
  {
    AllOfTwo(NotNull(d.column), Equals(d.currencyColumn, n + 1), row, all);
  }

  lemma LoMeans(d: Dimension, lo: Option<Bound>, n: nat, row: Columns, all: seq<Arg>)
    requires Binds(all, n, LoPred(d, lo, n).args)
    ensures EvalAll(LoPred(d, lo, n).preds, row, all) == True
            <==> (lo.Some? ==> At(row, d.column).VNum? && Holds(At(row, d.column).x, if lo.value.closed then Ge
                 else Gt, lo.value.at))
  {
    if lo.Some? {
      var c := LoPred(d, lo, n);
      assert c.args + [] == c.args;
      BindsPart(all, n, c.args, []);
      assert Given(all, n + 1 + 0) == Some(c.args[0]);
      AllOfOne(c.preds[0], row, all);
    }
  }

  lemma HiMeans(d: Dimension, hi: Option<Bound>, n: nat, row: Columns, all: seq<Arg>)
    requires Binds(all, n, HiPred(d, hi, n).args)
    ensures EvalAll(HiPred(d, hi, n).preds, row, all) == True
            <==> (hi.Some? ==> At(row, d.column).VNum? && Holds(At(row, d.column).x, if hi.value.closed then Le
                 else Lt, hi.value.at))
  {
    if hi.Some? {
      var c := HiPred(d, hi, n);
      assert c.args + [] == c.args;
      BindsPart(all, n, c.args, []);
      assert Given(all, n + 1 + 0) == Some(c.args[0]);
      AllOfOne(c.preds[0], row, all);
    }
  }

  /** An atom that both understand: the compiled predicate is TRUE exactly when the evaluator says True. */
  lemma AtomMeans(d: Dimension, a: Atom, principal: string, n: nat, row: Columns, f: Fact, all: seq<Arg>)
    requires CompileAtom(d, a, principal, n).Ok? && Binds(all, n, CompileAtom(d, a, principal, n).value.args)
    requires Reads(f, row, d) && Comparable(a, d, f, row) && FitsDimension(a, d)
    ensures Outcome(CompileAtom(d, a, principal, n).value, row, all) == True <==> AtomTri(a, f, principal) == True
  {
    var c := CompileAtom(d, a, principal, n).value;
    match a
    case Tree(items) => TreeMeans(items, d.column, n, row, all);
    case Interval(currency, lo, hi) => IntervalMeans(d, currency, lo, hi, principal, n, row, all);
    case In(values) =>
      if values != [] {
        BindsPart(all, n, c.args, []);
        assert c.args + [] == c.args && Given(all, n + 1 + 0) == Some(c.args[0]);
      }
    case Self =>
      BindsPart(all, n, c.args, []);
      assert c.args + [] == c.args && Given(all, n + 1 + 0) == Some(c.args[0]);
    case _ =>
  }

  // ------------------------------------------------------------------ the conditions are exact

  /** A text column's value, as a row and as a fact. */
  function TextRow(d: Dimension, s: string): Columns { map[d.column := VText(s)] }

  /** A tree atom decides alike on every text exactly when no item has the empty path. */
  lemma TreeAgreesExactly(d: Dimension, items: seq<TreeItem>, principal: string, n: nat, all: seq<Arg>)
    requires d.kind == OrgTree && d.pushdownable && CompileAtom(d, Tree(items), principal, n).Ok?
    requires Binds(all, n, CompileAtom(d, Tree(items), principal, n).value.args)
    ensures (forall i :: 0 <= i < |items| ==> items[i].path != "")
            <==> forall s: string ::
                   (Outcome(CompileAtom(d, Tree(items), principal, n).value, TextRow(d, s), all) == True
                    <==> AtomTri(Tree(items), Value(s, None, ""), principal) == True)
  {
    forall s: string
      ensures Outcome(CompileAtom(d, Tree(items), principal, n).value, TextRow(d, s), all) == True
              <==> exists i :: 0 <= i < |items| && Covers(items[i], s)
    {
      TreeMeans(items, d.column, n, TextRow(d, s), all);
    }
    if exists i :: 0 <= i < |items| && items[i].path == "" {
      var i :| 0 <= i < |items| && items[i].path == "";
      assert Covers(items[i], "");
      assert AtomTri(Tree(items), Value("", None, ""), principal) == False;
    }
  }

  /** An amount column and its currency column; no currency is a NULL there. */
  function AmountRow(d: Dimension, x: real, currency: string): Columns {
    map[d.column := VNum(x)][d.currencyColumn := if currency == "" then VNull else VText(currency)]
  }

  /** An interval atom decides alike on every amount exactly when its currency is not empty, or its bounds admit no
      amount. */
  lemma IntervalAgreesExactly(d: Dimension, currency: string, lo: Option<Bound>, hi: Option<Bound>, principal: string,
      n: nat, all: seq<Arg>)
    requires d.kind == Amount && d.pushdownable && d.column != d.currencyColumn && (lo.Some? || hi.Some?)
    requires Binds(all, n, CompileAtom(d, Interval(currency, lo, hi), principal, n).value.args)
    ensures (currency != "" || forall x: real :: !InRange(x, lo, hi))
            <==> forall x: real, c: string ::
                   (Outcome(CompileAtom(d, Interval(currency, lo, hi), principal, n).value, AmountRow(d, x, c), all)
                       == True
                    <==> AtomTri(Interval(currency, lo, hi), Value("", Some(x), c), principal) == True)
  {
    forall x: real, c: string
      ensures Outcome(CompileAtom(d, Interval(currency, lo, hi), principal, n).value, AmountRow(d, x, c), all) == True
              <==> c != "" && c == currency && InRange(x, lo, hi)
      ensures AtomTri(Interval(currency, lo, hi), Value("", Some(x), c), principal) == True
          <==> c == currency && InRange(x, lo, hi)
    {
      IntervalMeans(d, currency, lo, hi, principal, n, AmountRow(d, x, c), all);
    }
    if currency == "" && exists x: real :: InRange(x, lo, hi) {
      var x: real :| InRange(x, lo, hi);
      assert AtomTri(Interval(currency, lo, hi), Value("", Some(x), ""), principal) == True;
      assert Outcome(CompileAtom(d, Interval(currency, lo, hi), principal, n).value, AmountRow(d, x, ""), all) != True;
    }
  }

  /** On every row an interval decides alike exactly when the two are comparable there. */
  lemma IntervalComparableExactly(d: Dimension, currency: string, lo: Option<Bound>, hi: Option<Bound>,
      principal: string, n: nat, row: Columns, f: Fact, all: seq<Arg>)
    requires d.pushdownable && Reads(f, row, d) && FitsDimension(Interval(currency, lo, hi), d)
    requires Binds(all, n, CompileAtom(d, Interval(currency, lo, hi), principal, n).value.args)
    ensures Comparable(Interval(currency, lo, hi), d, f, row)
            <==> (Outcome(CompileAtom(d, Interval(currency, lo, hi), principal, n).value, row, all) == True
                  <==> AtomTri(Interval(currency, lo, hi), f, principal) == True)
  {
    IntervalMeans(d, currency, lo, hi, principal, n, row, all);
  }

  /** How the facts write amounts: one text for each number a text denotes, and that number's. */
  ghost predicate Renders(canon: string -> string) {
    && (forall t {:trigger canon(t)} :: NumberOf(t).Some? ==> NumberOf(canon(t)) == NumberOf(t))
    && (forall t, u {:trigger canon(t), canon(u)} :: NumberOf(t).Some? && NumberOf(t) == NumberOf(u) ==>
        canon(t) == canon(u))
  }

  lemma InMeans(d: Dimension, values: seq<string>, principal: string, n: nat, x: real, row: Columns, all: seq<Arg>)
    requires d.pushdownable && At(row, d.column) == VNum(x) && AllNumbers(values)
    requires Binds(all, n, CompileAtom(d, In(values), principal, n).value.args)
    ensures Outcome(CompileAtom(d, In(values), principal, n).value, row, all) == True <==> Denoted(values, x)
  {
    var c := CompileAtom(d, In(values), principal, n).value;
    if values != [] {
      BindsPart(all, n, c.args, []);
      assert c.args + [] == c.args && Given(all, n + 1 + 0) == Some(c.args[0]);
    }
  }

  /**
    A list of numbers on an amount, however facts write amounts: it decides alike on every amount exactly
    when it lists each of its numbers the way facts write it.
   */
  lemma InAgreesExactly(d: Dimension, values: seq<string>, canon: string -> string, principal: string, n: nat,
      all: seq<Arg>)
    requires d.kind == Amount && d.pushdownable && d.column != d.currencyColumn && AllNumbers(values) && Renders(canon)
    requires Binds(all, n, CompileAtom(d, In(values), principal, n).value.args)
    ensures (forall v :: v in values ==> canon(v) in values)
            <==> forall t, c: string :: NumberOf(t).Some? ==>
                   (Outcome(CompileAtom(d, In(values), principal, n).value, AmountRow(d, NumberOf(t).value, c), all)
                       == True
                    <==> AtomTri(In(values), Value(canon(t), NumberOf(t), c), principal) == True)
  {
    forall t, c: string | NumberOf(t).Some?
      ensures Outcome(CompileAtom(d, In(values), principal, n).value, AmountRow(d, NumberOf(t).value, c), all) == True
              <==> Denoted(values, NumberOf(t).value)
    {
      InMeans(d, values, principal, n, NumberOf(t).value, AmountRow(d, NumberOf(t).value, c), all);
    }
    forall t | NumberOf(t).Some? && canon(t) in values ensures Denoted(values, NumberOf(t).value) {
      var i :| 0 <= i < |values| && values[i] == canon(t);
      assert NumberOf(values[i]) == NumberOf(t);
    }
    if forall v :: v in values ==> canon(v) in values {
      forall t | NumberOf(t).Some? && Denoted(values, NumberOf(t).value) ensures canon(t) in values {
        var i :| 0 <= i < |values| && NumberOf(values[i]) == Some(NumberOf(t).value);
        assert canon(values[i]) == canon(t);
      }
    } else {
      var v :| v in values && canon(v) !in values;
      assert Denoted(values, NumberOf(v).value);
      assert AtomTri(In(values), Value(canon(v), NumberOf(v), ""), principal) == False;
    }
  }
}
