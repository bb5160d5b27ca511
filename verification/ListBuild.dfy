/** The statement of a list page as it is written: conditions appended one by one, each argument numbered as it is
    given. */
module ListBuild {
  import opened Base
  import opened Sql
  import opened Sorting
  import opened Chains
  import opened Authz
  import opened Paging
  import opened ListQuery

  class Statement {
    var args: seq<Arg>

    constructor (given: seq<Arg>)
      ensures args == given
    {
      args := given;
    }

    /** arg: appends an argument and answers its placeholder. */
    method Give(v: Arg) returns (n: nat)
      modifies this
      ensures args == old(args) + [v] && n == |args|
    {
      args := args + [v];
      n := |args|;
    }

    /** What a loop has written: all that its parts' chain prescribes. */
    ghost predicate Wrote(spec: Result<Preds, Refusal>, before: seq<Arg>, c: Result<seq<Pred>, Refusal>)
      reads this
    {
      if spec.Err? then c == Err(spec.error) else c == Ok(spec.value.preds) && args == before + spec.value.args
    }

    method AddFilter(l: List, narrowed: set<string>, f: Filter) returns (c: Result<seq<Pred>, Refusal>)
      modifies this
      ensures Wrote(CompileFilter(l, narrowed, f, |old(args)|), old(args), c)
    {
      var col := ColumnOf(l.spec.columns, f.field);
      if col.None? || !col.value.filterable {
        return Err(Invalid(f.field));
      }
      if !Usable(l, narrowed, f.field) {
        return Err(NotQueryable(f.field));
      }
      match f.op
      case AnyOf =>
        if f.values == [] {
          return Ok([PFalse]);
        }
        var n := Give(AVals(f.values));
        c := Ok([Among(col.value.column, n)]);
      case Rel(op) =>
        if |f.values| != 1 {
          return Err(Invalid(f.field));
        }
        var n := Give(AVal(f.values[0]));
        c := Ok([Relates(col.value.column, op, n)]);
      case Unsupported => c := Err(Invalid(f.field));
    }

    method AddFilters(l: List, narrowed: set<string>, filters: seq<Filter>) returns (c: Result<seq<Pred>, Refusal>)
      modifies this
      ensures Wrote(Chain(FilterPart(l, narrowed), filters, |old(args)|), old(args), c)
    {
      ghost var part := FilterPart(l, narrowed);
      ghost var given: seq<Arg> := [];
      var conds := [];
      for k := 0 to |filters|
        invariant args == old(args) + given && Chain(part, filters[..k], |old(args)|) == Ok(Preds(conds, given))
      {
        ghost var one := part(filters[k], |args|);
        ChainNext(part, filters, k, |old(args)|, Preds(conds, given), one);
        var p := AddFilter(l, narrowed, filters[k]);
        if p.Err? {
          return p;
        }
        conds := conds + p.value;
        Appended(old(args), given, one.value.args);
        given := given + one.value.args;
      }
      assert filters[..|filters|] == filters;
      c := Ok(conds);
    }

    method AddSearch(l: List, narrowed: set<string>, q: string) returns (ors: seq<Pred>)
      modifies this
      ensures Wrote(Chain(SearchPart(l, narrowed, q), l.spec.search, |old(args)|), old(args), Ok(ors))
    {
      ghost var part := SearchPart(l, narrowed, q);
      ghost var given: seq<Arg> := [];
      var cols := l.spec.search;
      ors := [];
      for k := 0 to |cols|
        invariant args == old(args) + given && Chain(part, cols[..k], |old(args)|) == Ok(Preds(ors, given))
      {
        ghost var one, before := part(cols[k], |args|), ors;
        ChainNext(part, cols, k, |old(args)|, Preds(ors, given), one);
        if Searchable(l, narrowed, cols[k]) {
          var n := Give(AText("%" + Escape(q) + "%"));
          ors := ors + [Like(cols[k].column, n)];
        }
        assert ors == before + one.value.preds;
        Appended(old(args), given, one.value.args);
        given := given + one.value.args;
      }
      assert cols[..|cols|] == cols;
    }

    /** The search's condition, if anything is searched for. */
    method SearchCondition(l: List, narrowed: set<string>, q: string) returns (conds: seq<Pred>)
      modifies this
      ensures Wrote(CompileSearch(l, narrowed, q, |old(args)|), old(args), Ok(conds))
    {
      conds := [];
      if q != "" {
        var ors := AddSearch(l, narrowed, q);
        conds := [OrAll(ors)];
      }
    }

    /** One alternative of the keyset condition, its inner loop over the keys before it. */
    method AddAlternative(sorts: seq<Sort>, idColumn: string, key: Key, i: nat) returns (p: Pred)
      requires |key.vals| == |sorts| && i <= |sorts|
      modifies this
      ensures var c := CompileAlternative(sorts, idColumn, key, i, |old(args)|);
              [p] == c.preds && args == old(args) + c.args
    {
      var ands := [];
      for j := 0 to i
        invariant ands == seq(j, x requires 0 <= x < j => Relates(sorts[x].column, Eq, |old(args)| + 1 + x))
        invariant args == old(args) + seq(j, x requires 0 <= x < j => AVal(key.vals[x]))
      {
        var n := Give(AVal(key.vals[j]));
        ands := ands + [Relates(sorts[j].column, Eq, n)];
      }
      if i < |sorts| {
        var n := Give(AVal(key.vals[i]));
        ands := ands + [Relates(sorts[i].column, if sorts[i].desc then Lt else Gt, n)];
      } else {
        var n := Give(AVal(key.id));
        ands := ands + [Relates(idColumn, Gt, n)];
      }
      p := All(ands);
    }

    method Resume(sorts: seq<Sort>, idColumn: string, key: Key) returns (ors: seq<Pred>)
      requires |key.vals| == |sorts|
      modifies this
      ensures Wrote(Chain(AlternativePart(sorts, idColumn, key), Alternatives(|sorts|), |old(args)|), old(args),
          Ok(ors))
    {
      ghost var part, xs := AlternativePart(sorts, idColumn, key), Alternatives(|sorts|);
      ghost var given: seq<Arg> := [];
      ors := [];
      for i := 0 to |sorts| + 1
        invariant args == old(args) + given && Chain(part, xs[..i], |old(args)|) == Ok(Preds(ors, given))
      {
        ghost var one := part(xs[i], |args|);
        ChainNext(part, xs, i, |old(args)|, Preds(ors, given), one);
        var p := AddAlternative(sorts, idColumn, key, i);
        ors := ors + [p];
        Appended(old(args), given, one.value.args);
        given := given + one.value.args;
      }
      assert xs[..|xs|] == xs;
    }

    /** The cursor's condition, if there is a cursor; one that is not this query's is refused. */
    method CursorCondition(l: List, asked: Asked, sorts: seq<Sort>, cursor: Option<Cursor>)
        returns (c: Result<seq<Pred>, Refusal>)
      modifies this
      ensures Wrote(CompileCursor(l, asked, sorts, cursor, |old(args)|), old(args), c)
    {
      if cursor.None? {
        return Ok([]);
      }
      var given := cursor.value;
      if given.Unreadable? || |given.key.vals| != |sorts| || given.asked != asked {
        return Err(CursorInvalid);
      }
      if given.plan != l.digest {
        return Err(PlanChanged);
      }
      var ors := Resume(sorts, l.spec.idColumn, given.key);
      c := Ok([Any(ors)]);
    }
  }

  method NarrowTo(l: List, fs: seq<string>) returns (c: Result<seq<Pred>, Refusal>, narrowed: set<string>)
    ensures c == Narrow(l, fs) && (c.Ok? ==> narrowed == SetOf(fs))
  {
    var conds := [];
    narrowed := {};
    for k := 0 to |fs|
      invariant Narrow(l, fs[..k]) == Ok(conds) && narrowed == SetOf(fs[..k])
    {
      assert fs[..k + 1][..k] == fs[..k];
      if !Narrowable(l.r, fs[k]) {
        NarrowRefused(l, fs, k + 1);
        return Err(Invalid(fs[k])), narrowed;
      }
      if fs[k] !in narrowed {
        narrowed := narrowed + {fs[k]};
        var p := ReadableCondition(l.plan, fs[k]);
        conds := conds + [p];
      }
    }
    assert fs[..|fs|] == fs;
    c := Ok(conds);
  }

  lemma {:induction false} NarrowRefused(l: List, fs: seq<string>, k: nat)
    requires k <= |fs| && Narrow(l, fs[..k]).Err?
    ensures Narrow(l, fs) == Narrow(l, fs[..k])
    decreases |fs|
  {
    if k < |fs| {
      var front := fs[..|fs| - 1];
      assert front[..k] == fs[..k];
      NarrowRefused(l, front, k);
    } else {
      assert fs[..k] == fs;
    }
  }

  method ReadableCondition(p: Plan, f: string) returns (c: Pred)
    ensures c == ReadableWhere(p, f)
  {
    var ors := [];
    for k := 0 to |p.sets|
      invariant ors == Reading(p, f, k)
    {
      if f in p.sets[k] && k < |p.hits| {
        ors := ors + [p.hits[k]];
      }
    }
    c := OrAll(ors);
  }

  method SortRefusal(l: List, narrowed: set<string>, sort: seq<SortKey>) returns (c: Option<Refusal>)
    ensures c == CheckSorts(l, narrowed, sort)
  {
    for k := 0 to |sort|
      invariant CheckSorts(l, narrowed, sort) == CheckSorts(l, narrowed, sort[k..])
    {
      assert sort[k..][1..] == sort[k + 1..];
      c := CheckSort(l, narrowed, sort[k]);
      if c.Some? {
        return;
      }
    }
    c := None;
  }

  /** Build, after the plan is compiled. */
  method BuildQuery(l: List, req: Request) returns (q: Result<Query, Refusal>)
    ensures q == Build(l, req)
  {
    var limit := if req.limit == 0 then DEFAULT_LIMIT else req.limit;
    if limit < 1 || limit > MAX_LIMIT {
      return Err(Invalid("limit"));
    }
    var narrow, narrowed := NarrowTo(l, req.readableOnly);
    if narrow.Err? {
      return Err(narrow.error);
    }
    var stmt := new Statement(l.plan.args);
    var filters := stmt.AddFilters(l, narrowed, req.filters);
    if filters.Err? {
      return Err(filters.error);
    }
    ghost var f := Chain(FilterPart(l, narrowed), req.filters, |l.plan.args|).value;
    q := FinishQuery(stmt, l, req, limit, narrow.value, filters.value, narrowed, f);
  }

  method FinishQuery(stmt: Statement, l: List, req: Request, limit: nat, narrow: seq<Pred>, filters: seq<Pred>,
      narrowed: set<string>, ghost f: Preds)
    returns (q: Result<Query, Refusal>)
    requires filters == f.preds && stmt.args == l.plan.args + f.args && narrowed == SetOf(req.readableOnly)
    modifies stmt
    ensures q == BuildRest(l, req, limit, narrow, f)
  {
    var search := stmt.SearchCondition(l, narrowed, req.q);
    var refused := SortRefusal(l, narrowed, req.sort);
    if refused.Some? {
      return Err(refused.value);
    }
    var sorts := SortsOf(l, req.sort);
    var after := stmt.CursorCondition(l, AskedOf(req), sorts, req.cursor);
    if after.Err? {
      return Err(after.error);
    }
    q := Ok(Query(All([l.plan.where] + narrow + filters + search + after.value), stmt.args, sorts, limit,
        AskedOf(req)));
  }
}
