/**
  Parts of a statement compiled one after another (authz/sql.go, list/list.go): predicates whose
  placeholders number the arguments given so far, and what they mean wherever the arguments stand.
 */
module Chains {
  import opened Base
  import opened Sql

  /** Why a list is refused: it cannot be compiled, the request is invalid, a field may not be queried by, or its cursor
      does not fit. */
  datatype Refusal = NotCompletable | Invalid(field: string) | NotQueryable(field: string) | CursorInvalid | PlanChanged

  datatype Preds = Preds(preds: seq<Pred>, args: seq<Arg>)

  type Part<!T> = (T, nat) -> Result<Preds, Refusal>

  /** Compiles one after another, each knowing how many arguments were given before it; the first refusal is final. */
  function Chain<T>(f: Part<T>, xs: seq<T>, n: nat): Result<Preds, Refusal>
    decreases |xs|
  {
    if xs == [] then Ok(Preds([], []))
    else
      var rest := Chain(f, xs[..|xs| - 1], n);
      if rest.Err? then rest
      else
        var c := f(xs[|xs| - 1], n + |rest.value.args|);
        if c.Err? then c else Ok(Preds(rest.value.preds + c.value.preds, rest.value.args + c.value.args))
  }

  function Conjunction(preds: seq<Pred>): Pred {
    if preds == [] then PTrue else All(preds)
  }

  function OrAll(preds: seq<Pred>): Pred {
    if preds == [] then PFalse else Any(preds)
  }

  /** The whole statement's arguments hold these after the first n. */
  predicate Binds(all: seq<Arg>, n: nat, args: seq<Arg>) {
    n + |args| <= |all| && all[n..n + |args|] == args
  }

  lemma BindsPart(all: seq<Arg>, n: nat, a: seq<Arg>, b: seq<Arg>)
    requires Binds(all, n, a + b)
    ensures Binds(all, n, a) && Binds(all, n + |a|, b)
    ensures forall i :: 0 <= i < |a| ==> Given(all, n + 1 + i) == Some(a[i])
    ensures forall i :: 0 <= i < |b| ==> Given(all, n + |a| + 1 + i) == Some(b[i])
  {
    var ab := a + b;
    assert all[n..n + |a|] == ab[..|a|] == a;
    assert all[n + |a|..n + |a| + |b|] == ab[|a|..] == b;
    forall i | 0 <= i < |ab| ensures Given(all, n + 1 + i) == Some(ab[i]) {
      assert all[n..n + |ab|][i] == all[n + i];
    }
    forall i | 0 <= i < |a| ensures Given(all, n + 1 + i) == Some(a[i]) {
      assert ab[i] == a[i];
    }
    forall i | 0 <= i < |b| ensures Given(all, n + |a| + 1 + i) == Some(b[i]) {
      assert ab[|a| + i] == b[i] && Given(all, n + 1 + (|a| + i)) == Some(ab[|a| + i]);
    }
  }

  lemma BindsBoth(all: seq<Arg>, n: nat, a: seq<Arg>, b: seq<Arg>)
    requires Binds(all, n, a + b)
    ensures Binds(all, n, a) && Binds(all, n + |a|, b)
  {
    BindsPart(all, n, a, b);
  }

  /** Each predicate says whether its element holds. */
  ghost predicate EachMeans<T>(preds: seq<Pred>, xs: seq<T>, holds: T -> bool, row: Columns, all: seq<Arg>) {
    |preds| == |xs| && forall i :: 0 <= i < |xs| ==> (Eval(preds[i], row, all) == True <==> holds(xs[i]))
  }

  lemma EachMeansMore<T>(preds: seq<Pred>, xs: seq<T>, holds: T -> bool, row: Columns, all: seq<Arg>, p: Pred, x: T)
    requires EachMeans(preds, xs, holds, row, all) && (Eval(p, row, all) == True <==> holds(x))
    ensures EachMeans(preds + [p], xs + [x], holds, row, all)
  {
  }

  /** A part's predicates, once its arguments are given, hold for the row exactly when holds(x). */
  ghost predicate PartMeans<T>(f: Part<T>, x: T, holds: T -> bool, row: Columns, all: seq<Arg>) {
    forall m: nat :: f(x, m).Ok? && Binds(all, m, f(x, m).value.args) ==>
        (EvalAll(f(x, m).value.preds, row, all) == True <==> holds(x))
  }

  ghost predicate PartIsOne<T>(f: Part<T>, x: T) {
    forall m: nat :: f(x, m).Ok? ==> |f(x, m).value.preds| == 1
  }

  ghost predicate AllOf<T>(xs: seq<T>, holds: T -> bool) { forall i :: 0 <= i < |xs| ==> holds(xs[i]) }

  ghost predicate SomeOf<T>(xs: seq<T>, holds: T -> bool) { exists i :: 0 <= i < |xs| && holds(xs[i]) }

  lemma OfOneMore<T>(xs: seq<T>, holds: T -> bool)
    requires xs != []
    ensures var k := |xs| - 1; AllOf(xs, holds) <==> AllOf(xs[..k], holds) && holds(xs[k])
    ensures var k := |xs| - 1; SomeOf(xs, holds) <==> SomeOf(xs[..k], holds) || holds(xs[k])
  {
    var k := |xs| - 1;
    assert forall i :: 0 <= i < k ==> xs[..k][i] == xs[i];
  }

  /** The last element's part of a chain, and the chain before it. */
  lemma ChainLast<T>(f: Part<T>, xs: seq<T>, n: nat, all: seq<Arg>) returns (rest: Preds, c: Preds)
    requires xs != [] && Chain(f, xs, n).Ok? && Binds(all, n, Chain(f, xs, n).value.args)
    ensures var k := |xs| - 1;
            && Chain(f, xs[..k], n) == Ok(rest) && f(xs[k], n + |rest.args|) == Ok(c)
            && Chain(f, xs, n).value.preds == rest.preds + c.preds && Binds(all, n, rest.args)
                && Binds(all, n + |rest.args|, c.args)
  {
    var k := |xs| - 1;
    rest := Chain(f, xs[..k], n).value;
    c := f(xs[k], n + |rest.args|).value;
    BindsBoth(all, n, rest.args, c.args);
  }

  lemma {:induction false} ChainAll<T>(f: Part<T>, xs: seq<T>, n: nat, holds: T -> bool, row: Columns, all: seq<Arg>)
    requires forall i :: 0 <= i < |xs| ==> PartMeans(f, xs[i], holds, row, all)
    requires Chain(f, xs, n).Ok? && Binds(all, n, Chain(f, xs, n).value.args)
    ensures EvalAll(Chain(f, xs, n).value.preds, row, all) == True <==> AllOf(xs, holds)
    decreases |xs|
  {
    if xs != [] {
      var rest, c := ChainLast(f, xs, n, all);
      ChainAll(f, xs[..|xs| - 1], n, holds, row, all);
      AllOfBoth(rest.preds, c.preds, row, all);
      OfOneMore(xs, holds);
    }
  }

  /** Of a part's predicates, once its arguments are given, one holds for the row exactly when holds(x). */
  ghost predicate PartOffers<T>(f: Part<T>, x: T, holds: T -> bool, row: Columns, all: seq<Arg>) {
    forall m: nat :: f(x, m).Ok? && Binds(all, m, f(x, m).value.args) ==>
        (EvalAny(f(x, m).value.preds, row, all) == True <==> holds(x))
  }

  lemma {:induction false} ChainAny<T>(f: Part<T>, xs: seq<T>, n: nat, holds: T -> bool, row: Columns, all: seq<Arg>)
    requires forall i :: 0 <= i < |xs| ==> PartOffers(f, xs[i], holds, row, all)
    requires Chain(f, xs, n).Ok? && Binds(all, n, Chain(f, xs, n).value.args)
    ensures EvalAny(Chain(f, xs, n).value.preds, row, all) == True <==> SomeOf(xs, holds)
    decreases |xs|
  {
    if xs != [] {
      var rest, c := ChainLast(f, xs, n, all);
      ChainAny(f, xs[..|xs| - 1], n, holds, row, all);
      AnyOfBoth(rest.preds, c.preds, row, all);
      OfOneMore(xs, holds);
    }
  }

  lemma {:induction false} ChainSize<T>(f: Part<T>, xs: seq<T>, n: nat)
    requires Chain(f, xs, n).Ok? && forall i :: 0 <= i < |xs| ==> PartIsOne(f, xs[i])
    ensures |Chain(f, xs, n).value.preds| == |xs|
    decreases |xs|
  {
    if xs != [] {
      ChainSize(f, xs[..|xs| - 1], n);
    }
  }

  /** An element that compiles to one predicate: it says whether the element holds. */
  lemma OnePart<T>(f: Part<T>, x: T, m: nat, c: Preds, holds: T -> bool, row: Columns, all: seq<Arg>)
    requires PartMeans(f, x, holds, row, all) && PartIsOne(f, x) && f(x, m) == Ok(c) && Binds(all, m, c.args)
    ensures |c.preds| == 1 && c.preds == [c.preds[0]] && (Eval(c.preds[0], row, all) == True <==> holds(x))
  {
    assert |f(x, m).value.preds| == 1;
    AllOfOne(c.preds[0], row, all);
    assert c.preds == [c.preds[0]];
  }

  lemma {:induction false} ChainEach<T>(f: Part<T>, xs: seq<T>, n: nat, holds: T -> bool, row: Columns, all: seq<Arg>)
    requires forall i :: 0 <= i < |xs| ==> PartMeans(f, xs[i], holds, row, all) && PartIsOne(f, xs[i])
    requires Chain(f, xs, n).Ok? && Binds(all, n, Chain(f, xs, n).value.args)
    ensures EachMeans(Chain(f, xs, n).value.preds, xs, holds, row, all)
    decreases |xs|
  {
    if xs != [] {
      var k := |xs| - 1;
      var rest, c := ChainLast(f, xs, n, all);
      EachBefore(f, xs, k, holds, row, all);
      ChainEach(f, xs[..k], n, holds, row, all);
      OnePart(f, xs[k], n + |rest.args|, c, holds, row, all);
      EachMeansMore(rest.preds, xs[..k], holds, row, all, c.preds[0], xs[k]);
      assert xs == xs[..k] + [xs[k]];
    }
  }

  lemma EachBefore<T>(f: Part<T>, xs: seq<T>, k: nat, holds: T -> bool, row: Columns, all: seq<Arg>)
    requires k <= |xs| && forall i :: 0 <= i < |xs| ==> PartMeans(f, xs[i], holds, row, all) && PartIsOne(f, xs[i])
    ensures forall i :: 0 <= i < k ==> PartMeans(f, xs[..k][i], holds, row, all) && PartIsOne(f, xs[..k][i])
  {
  }

  lemma {:induction false} ChainOk<T>(f: Part<T>, xs: seq<T>, n: nat, ok: T -> bool)
    requires forall i, m: nat :: 0 <= i < |xs| ==> (f(xs[i], m).Ok? <==> ok(xs[i]))
    ensures Chain(f, xs, n).Ok? <==> forall i :: 0 <= i < |xs| ==> ok(xs[i])
    decreases |xs|
  {
    if xs != [] {
      var k := |xs| - 1;
      ChainOk(f, xs[..k], n, ok);
      assert forall i :: 0 <= i < k ==> xs[..k][i] == xs[i];
    }
  }

  /** A loop that compiles one element more: c is that element's outcome, args all it has given so far. */
  lemma ChainNext<T>(f: Part<T>, xs: seq<T>, k: nat, n: nat, given: Preds, c: Result<Preds, Refusal>)
    requires k < |xs| && Chain(f, xs[..k], n) == Ok(given) && f(xs[k], n + |given.args|) == c
    ensures c.Err? ==> Chain(f, xs, n) == c
    ensures c.Ok? ==> Chain(f, xs[..k + 1], n) == Ok(Preds(given.preds + c.value.preds, given.args + c.value.args))
  {
    assert xs[..k + 1][..k] == xs[..k];
    if c.Err? {
      ChainRefused(f, xs, k + 1, n);
    }
  }

  lemma {:induction false} ChainRefused<T>(f: Part<T>, xs: seq<T>, k: nat, n: nat)
    requires k <= |xs| && Chain(f, xs[..k], n).Err?
    ensures Chain(f, xs, n) == Chain(f, xs[..k], n)
    decreases |xs|
  {
    if k < |xs| {
      var front := xs[..|xs| - 1];
      assert front[..k] == xs[..k];
      ChainRefused(f, front, k, n);
    } else {
      assert xs[..k] == xs;
    }
  }

  lemma OrAllMeans(preds: seq<Pred>, row: Columns, all: seq<Arg>)
    ensures Eval(OrAll(preds), row, all) == True <==> exists i :: 0 <= i < |preds| && Eval(preds[i], row, all) == True
  {
    AnyIsTrue(preds, row, all);
  }

  lemma ConjunctionIs(preds: seq<Pred>, row: Columns, all: seq<Arg>)
    ensures EvalAll([Conjunction(preds)], row, all) == True <==> EvalAll(preds, row, all) == True
  {
    AllOfOne(Conjunction(preds), row, all);
  }

  lemma Appended(a: seq<Arg>, b: seq<Arg>, c: seq<Arg>)
    ensures a + b + c == a + (b + c)
  {
  }
}
