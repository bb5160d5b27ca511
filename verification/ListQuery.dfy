/**
  Building a list's page (list/list.go): the authorization plan, the narrowing to readable rows, the
  filters, the search and the cursor, in one statement.
 */
module ListQuery {
  import opened Base
  import opened Sql
  import opened Sorting
  import opened Chains
  import opened Authz
  import opened Paging

  const DEFAULT_LIMIT := 50
  const MAX_LIMIT := 200

  datatype Column = Column(field: string, column: string, sortable: bool, filterable: bool)

  /** A stored search column made of some fields. */
  datatype SearchColumn = SearchColumn(column: string, fields: seq<string>)

  datatype Spec = Spec(idColumn: string, columns: seq<Column>, search: seq<SearchColumn>)

  datatype FilterOp = AnyOf | Rel(op: Op) | Unsupported

  /** A condition; its values are already cast to the column's kind. */
  datatype Filter = Filter(field: string, op: FilterOp, values: seq<Val>)

  datatype SortKey = SortKey(field: string, desc: bool)

  /** What a cursor's filter digest stands for. */
  datatype Asked = Asked(filters: seq<Filter>, q: string, sort: seq<SortKey>, readable: set<string>)

  datatype Cursor = Unreadable | Cursor(key: Key, asked: Asked, plan: string)

  /** A list request; q is already folded and trimmed. */
  datatype Request = Request(sort: seq<SortKey>, filters: seq<Filter>, q: string, cursor: Option<Cursor>, limit: int,
      readableOnly: seq<string>)

  datatype Query = Query(where: Pred, args: seq<Arg>, sorts: seq<Sort>, limit: nat, asked: Asked)

  /** The list: its resource, the caller's compiled plan with its digest, and what may be queried. */
  datatype List = List(r: Resource, plan: Plan, digest: string, spec: Spec)

  // ------------------------------------------------------------------ which fields may be queried by

  /** The columns by field: a later declaration replaces an earlier one. */
  function ColumnOf(columns: seq<Column>, field: string): Option<Column> {
    if columns == [] then None
    else if columns[|columns| - 1].field == field then Some(columns[|columns| - 1])
    else ColumnOf(columns[..|columns| - 1], field)
  }

  /** A field that is not ordinary (an undeclared one is not) and to whose readers the list is not narrowed. */
  predicate IsRestricted(r: Resource, narrowed: set<string>, f: string) {
    (f !in r.fields || r.fields[f] != Ordinary) && f !in narrowed
  }

  predicate ReadableEverywhere(p: Plan, f: string) {
    p.sets != [] && forall i :: 0 <= i < |p.sets| ==> f in p.sets[i]
  }

  predicate Usable(l: List, narrowed: set<string>, f: string) {
    IsRestricted(l.r, narrowed, f) ==> ReadableEverywhere(l.plan, f)
  }

  /** The hit bits of the first k segments that read the field. */
  function Reading(p: Plan, f: string, k: nat): seq<Pred>
    requires k <= |p.sets|
  {
    if k == 0 then []
    else Reading(p, f, k - 1) + (if f in p.sets[k - 1] && k <= |p.hits| then [p.hits[k - 1]] else [])
  }

  function ReadableWhere(p: Plan, f: string): Pred {
    OrAll(Reading(p, f, |p.sets|))
  }

  lemma {:induction false} ReadingIs(p: Plan, f: string, k: nat, row: Columns, all: seq<Arg>)
    requires k <= |p.sets| == |p.hits|
    ensures (exists j :: 0 <= j < |Reading(p, f, k)| && Eval(Reading(p, f, k)[j], row, all) == True)
            <==> exists i :: 0 <= i < k && f in p.sets[i] && Eval(p.hits[i], row, all) == True
  {
    if k > 0 {
      ReadingIs(p, f, k - 1, row, all);
      var before, now := Reading(p, f, k - 1), Reading(p, f, k);
      if exists j :: 0 <= j < |before| && Eval(before[j], row, all) == True {
        var j :| 0 <= j < |before| && Eval(before[j], row, all) == True;
        assert now[j] == before[j];
      }
      if f in p.sets[k - 1] && Eval(p.hits[k - 1], row, all) == True {
        assert now[|before|] == p.hits[k - 1];
      }
    }
  }

  /** The narrowing condition holds on a row exactly when the row's hit bits make the field readable. */
  lemma ReadableWhereIsReadable(p: Plan, f: string, row: Columns, all: seq<Arg>)
    requires |p.sets| == |p.hits|
    ensures Eval(ReadableWhere(p, f), row, all) == True <==> f in PlanFields(p, Bits(p, row, all))
  {
    var bits := Bits(p, row, all);
    ReadingIs(p, f, |p.sets|, row, all);
    OrAllMeans(Reading(p, f, |p.sets|), row, all);
    assert forall i :: 0 <= i < |p.sets| ==> (bits[i] <==> Eval(p.hits[i], row, all) == True);
  }

  // ------------------------------------------------------------------ the parts of the statement

  predicate Narrowable(r: Resource, f: string) {
    f in r.fields && r.fields[f] != Secret
  }

  /** The narrowing to readable rows, each field once. */
  function Narrow(l: List, fs: seq<string>): Result<seq<Pred>, Refusal>
    decreases |fs|
  {
    if fs == [] then Ok([])
    else
      var n := |fs| - 1;
      var rest := Narrow(l, fs[..n]);
      if rest.Err? then rest
      else if !Narrowable(l.r, fs[n]) then Err(Invalid(fs[n]))
      else if fs[n] in fs[..n] then rest
      else Ok(rest.value + [ReadableWhere(l.plan, fs[n])])
  }

  function CompileFilter(l: List, narrowed: set<string>, f: Filter, n: nat): Result<Preds, Refusal> {
    var c := ColumnOf(l.spec.columns, f.field);
    if c.None? || !c.value.filterable then Err(Invalid(f.field))
    else if !Usable(l, narrowed, f.field) then Err(NotQueryable(f.field))
    else match f.op
      case AnyOf => if f.values == [] then Ok(Preds([PFalse], []))
          else Ok(Preds([Among(c.value.column, n + 1)], [AVals(f.values)]))
      case Rel(op) => if |f.values| != 1 then Err(Invalid(f.field))
          else Ok(Preds([Relates(c.value.column, op, n + 1)], [AVal(f.values[0])]))
      case Unsupported => Err(Invalid(f.field))
  }

  function FilterPart(l: List, narrowed: set<string>): Part<Filter> {
    (f: Filter, n: nat) => CompileFilter(l, narrowed, f, n)
  }

  predicate Searchable(l: List, narrowed: set<string>, sc: SearchColumn) {
    forall f :: f in sc.fields ==> Usable(l, narrowed, f)
  }

  /** A search column the caller may not search is left out. */
  function SearchPart(l: List, narrowed: set<string>, q: string): Part<SearchColumn> {
    (sc: SearchColumn, n: nat) =>
      if Searchable(l, narrowed, sc) then Ok(Preds([Like(sc.column, n + 1)], [AText("%" + Escape(q) + "%")]))
          else Ok(Preds([], []))
  }

  /** The search condition; no column this caller may search: nothing matches. */
  function CompileSearch(l: List, narrowed: set<string>, q: string, n: nat): Result<Preds, Refusal> {
    if q == "" then Ok(Preds([], []))
    else
      var c := Chain(SearchPart(l, narrowed, q), l.spec.search, n);
      if c.Err? then c else Ok(Preds([OrAll(c.value.preds)], c.value.args))
  }

  function CheckSort(l: List, narrowed: set<string>, o: SortKey): Option<Refusal> {
    var c := ColumnOf(l.spec.columns, o.field);
    if c.None? || !c.value.sortable then Some(Invalid(o.field))
    else if !Usable(l, narrowed, o.field) then Some(NotQueryable(o.field))
    else None
  }

  function CheckSorts(l: List, narrowed: set<string>, sort: seq<SortKey>): Option<Refusal> {
    if sort == [] then None
    else
      var first := CheckSort(l, narrowed, sort[0]);
      if first.Some? then first else CheckSorts(l, narrowed, sort[1..])
  }

  function SortOf(l: List, o: SortKey): Sort {
    var c := ColumnOf(l.spec.columns, o.field);
    Sort(if c.Some? then c.value.column else "", o.desc)
  }

  function SortsOf(l: List, sort: seq<SortKey>): seq<Sort> {
    seq(|sort|, i requires 0 <= i < |sort| => SortOf(l, sort[i]))
  }

  /** One alternative of resume's condition. */
  function CompileAlternative(sorts: seq<Sort>, idColumn: string, key: Key, i: nat, n: nat): Preds
    requires |key.vals| == |sorts|
  {
    var eqs := Min(i, |sorts|);
    var last := if i < |sorts| then Relates(sorts[i].column, if sorts[i].desc then Lt else Gt, n + 1 + eqs)
        else Relates(idColumn, Gt, n + 1 + eqs);
    Preds([All(seq(eqs, j requires 0 <= j < eqs => Relates(sorts[j].column, Eq, n + 1 + j)) + [last])],
          seq(eqs, j requires 0 <= j < eqs => AVal(key.vals[j])) + [AVal(if i < |sorts| then key.vals[i] else key.id)])
  }

  function AlternativePart(sorts: seq<Sort>, idColumn: string, key: Key): Part<nat>
    requires |key.vals| == |sorts|
  {
    (i: nat, n: nat) => Ok(CompileAlternative(sorts, idColumn, key, i, n))
  }

  function Alternatives(n: nat): seq<nat> {
    seq(n + 1, i requires 0 <= i < n + 1 => i)
  }

  /** resume: refuses what is not this query's cursor, and asks for the rows strictly after it. */
  function CompileCursor(l: List, asked: Asked, sorts: seq<Sort>, cursor: Option<Cursor>, n: nat): Result<Preds,
      Refusal> {
    match cursor
    case None => Ok(Preds([], []))
    case Some(Unreadable) => Err(CursorInvalid)
    case Some(Cursor(key, a, p)) =>
      if |key.vals| != |sorts| || a != asked then Err(CursorInvalid)
      else if p != l.digest then Err(PlanChanged)
      else
        var c := Chain(AlternativePart(sorts, l.spec.idColumn, key), Alternatives(|sorts|), n);
        if c.Err? then c else Ok(Preds([Any(c.value.preds)], c.value.args))
  }

  function AskedOf(req: Request): Asked {
    Asked(req.filters, req.q, req.sort, SetOf(req.readableOnly))
  }

  function Build(l: List, req: Request): Result<Query, Refusal> {
    var limit := if req.limit == 0 then DEFAULT_LIMIT else req.limit;
    if limit < 1 || limit > MAX_LIMIT then Err(Invalid("limit"))
    else
      var n := Narrow(l, req.readableOnly);
      if n.Err? then Err(n.error)
      else
        var f := Chain(FilterPart(l, SetOf(req.readableOnly)), req.filters, |l.plan.args|);
        if f.Err? then Err(f.error) else BuildRest(l, req, limit, n.value, f.value)
  }

  /** After the narrowing and the filters: the search, the sort keys and the cursor. */
  function BuildRest(l: List, req: Request, limit: nat, n: seq<Pred>, f: Preds): Result<Query, Refusal> {
    var narrowed := SetOf(req.readableOnly);
    var s := CompileSearch(l, narrowed, req.q, |l.plan.args| + |f.args|);
    if s.Err? then Err(s.error)
    else if CheckSorts(l, narrowed, req.sort).Some? then Err(CheckSorts(l, narrowed, req.sort).value)
    else
      var sorts := SortsOf(l, req.sort);
      var c := CompileCursor(l, AskedOf(req), sorts, req.cursor, |l.plan.args| + |f.args| + |s.value.args|);
      if c.Err? then Err(c.error)
      else Ok(Query(All([l.plan.where] + n + f.preds + s.value.preds + c.value.preds),
                    l.plan.args + f.args + s.value.args + c.value.args, sorts, limit, AskedOf(req)))
  }

  /** Next: the cursor that continues after a row's key, bound to the request and the plan. */
  function Next(l: List, asked: Asked, key: Key): Cursor {
    Cursor(key, asked, l.digest)
  }

  // ------------------------------------------------------------------ what the statement selects

  predicate Passes(l: List, f: Filter, row: Columns) {
    var c := ColumnOf(l.spec.columns, f.field);
    c.Some? &&
      match f.op
      case AnyOf => At(row, c.value.column) != VNull && At(row, c.value.column) in f.values
      case Rel(op) => |f.values| == 1 && RelatesTo(At(row, c.value.column), op, f.values[0]) == True
      case Unsupported => false
  }

  function Passing(l: List, row: Columns): Filter -> bool {
    (f: Filter) => Passes(l, f, row)
  }

  predicate Contains(v: Val, q: string) {
    v.VText? && exists k :: 0 <= k <= |v.s| && q <= v.s[k..]
  }

  /** A search finds the row: some column the caller may search contains the query. */
  predicate Found(l: List, narrowed: set<string>, q: string, row: Columns) {
    q == "" || exists sc :: sc in l.spec.search && Searchable(l, narrowed, sc) && Contains(At(row, sc.column), q)
  }

  /** The rows of a list, whatever page: permitted, shown as narrowed, passing every filter, found by the search. */
  ghost predicate Belongs(l: List, req: Request, row: Columns, all: seq<Arg>) {
    && Eval(l.plan.where, row, all) == True
    && (forall f :: f in req.readableOnly ==> f in PlanFields(l.plan, Bits(l.plan, row, all)))
    && (forall i :: 0 <= i < |req.filters| ==> Passes(l, req.filters[i], row))
    && Found(l, SetOf(req.readableOnly), req.q, row)
  }

  predicate After(req: Request, sorts: seq<Sort>, idColumn: string, row: Columns) {
    req.cursor.Some? && req.cursor.value.Cursor? && |req.cursor.value.key.vals| == |sorts|
    ==> Precedes(sorts, 0, req.cursor.value.key, KeyOf(row, sorts, idColumn))
  }

  /** The row's sort values are of the cursor's kinds. */
  predicate Fitting(req: Request, sorts: seq<Sort>, idColumn: string, row: Columns) {
    req.cursor.Some? && req.cursor.value.Cursor? && |req.cursor.value.key.vals| == |sorts|
    ==> Alike(req.cursor.value.key, KeyOf(row, sorts, idColumn), sorts)
  }
}
