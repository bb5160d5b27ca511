/**
  The SQL the query compiler writes: predicates over one row's columns with numbered placeholders,
  evaluated in SQL's three-valued logic, and LIKE with an escape character.
 */
module Sql {
  import opened Base
  import opened Sorting

  /** Three-valued results; in a predicate, Unknown is NULL. */
  datatype Tri = False | True | Unknown

  /** Both have to hold: a definite False wins over Unknown. */
  function And(a: Tri, b: Tri): Tri {
    if a == False || b == False then False else if a == Unknown || b == Unknown then Unknown else True
  }

  function Or(a: Tri, b: Tri): Tri {
    if a == True || b == True then True else if a == Unknown || b == Unknown then Unknown else False
  }

  function Of(b: bool): Tri { if b then True else False }

  datatype Val = VNull | VText(s: string) | VNum(x: real)

  /** A row as a query sees it: a column it does not have is NULL. */
  type Columns = map<string, Val>

  function At(row: Columns, col: string): Val {
    if col in row then row[col] else VNull
  }

  /** A placeholder's argument; AVal and AVals are texts already cast to their column's kind. */
  datatype Arg = AText(s: string) | ATexts(ss: seq<string>) | ANum(x: real) | AVal(v: Val) | AVals(vs: seq<Val>)

  datatype Op = Gt | Ge | Lt | Le | Eq

  /** A predicate; `arg` is a placeholder's number, from 1. */
  datatype Pred = PTrue | PFalse
                | Equals(col: string, arg: nat)          // col = $n
                | EqualsAny(col: string, arg: nat)       // col = ANY($n)
                | Like(col: string, arg: nat)            // col LIKE $n ESCAPE '\'
                | NotNull(col: string)
                | Compare(col: string, op: Op, arg: nat) // col op $n::numeric
                | Relates(col: string, op: Op, arg: nat) // col op $n::kind
                | Among(col: string, arg: nat)           // col = ANY($n::kind[])
                | All(ps: seq<Pred>)                     // AND
                | Any(ps: seq<Pred>)                     // OR
                | OrFalse(p: Pred)                       // COALESCE(p, FALSE)

  function Digits(s: string): Option<nat> {
    if s == "" then Some(0)
    else
      var front, c := Digits(s[..|s| - 1]), s[|s| - 1];
      if front.None? || !('0' <= c <= '9') then None else Some(10 * front.value + (c as int - '0' as int))
  }

  function Shifted(n: nat, places: nat): real {
    if places == 0 then n as real else Shifted(n, places - 1) / 10.0
  }

  /** The number a decimal text denotes: digits, at most one point among them, a sign in front. */
  function NumberOf(s: string): Option<real> {
    if s != "" && s[0] == '-' then (match Unsigned(s[1..], 0) case Some(x) => Some(-x) case None => None)
    else Unsigned(s, 0)
  }

  /** ... with the point looked for from index i on. */
  function Unsigned(s: string, i: nat): Option<real>
    requires i <= |s|
    decreases |s| - i
  {
    if i == |s| then (if s == "" || Digits(s).None? then None else Some(Digits(s).value as real))
    else if s[i] != '.' then Unsigned(s, i + 1)
    else if i == 0 || i + 1 == |s| || Digits(s[..i] + s[i + 1..]).None? then None
    else Some(Shifted(Digits(s[..i] + s[i + 1..]).value, |s| - i - 1))
  }

  predicate AllNumbers(ts: seq<string>) {
    forall i :: 0 <= i < |ts| ==> NumberOf(ts[i]).Some?
  }

  /** Some text of the list denotes the number. */
  predicate Denoted(ts: seq<string>, x: real) {
    exists i :: 0 <= i < |ts| && NumberOf(ts[i]) == Some(x)
  }

  function Given(args: seq<Arg>, n: nat): Option<Arg> {
    if 1 <= n <= |args| then Some(args[n - 1]) else None
  }

  function Holds(x: real, op: Op, y: real): bool {
    match op
    case Gt => x > y
    case Ge => x >= y
    case Lt => x < y
    case Le => x <= y
    case Eq => x == y
  }

  function HoldsText(s: string, op: Op, t: string): bool {
    match op
    case Gt => Before(t, s)
    case Ge => !Before(s, t)
    case Lt => Before(s, t)
    case Le => !Before(t, s)
    case Eq => s == t
  }

  /** A comparison of two values of one kind; NULL compares as unknown. */
  function RelatesTo(a: Val, op: Op, b: Val): Tri {
    match (a, b)
    case (VNum(x), VNum(y)) => Of(Holds(x, op, y))
    case (VText(s), VText(t)) => Of(HoldsText(s, op, t))
    case _ => Unknown
  }

  function Eval(p: Pred, row: Columns, args: seq<Arg>): Tri
    decreases p, 0
  {
    match p
    case PTrue => True
    case PFalse => False
    case Equals(col, n) =>
      (match (At(row, col), Given(args, n)) case (VText(s), Some(AText(t))) => Of(s == t) case _ => Unknown)
    case EqualsAny(col, n) =>
      (match (At(row, col), Given(args, n))
       case (VText(s), Some(ATexts(ts))) => Of(s in ts)
       // the statement fails on a text that is no number
       case (VNum(x), Some(ATexts(ts))) => if AllNumbers(ts) then Of(Denoted(ts, x)) else Unknown
       case _ => Unknown)
    case Like(col, n) =>
      (match (At(row, col), Given(args, n)) case (VText(s), Some(AText(t))) => Of(Matches(t, s)) case _ => Unknown)
    case NotNull(col) => Of(At(row, col) != VNull)
    case Compare(col, op, n) =>
      (match (At(row, col), Given(args, n)) case (VNum(x), Some(ANum(y))) => Of(Holds(x, op, y)) case _ => Unknown)
    case Relates(col, op, n) => (match Given(args, n) case Some(AVal(v)) => RelatesTo(At(row, col), op,
        v) case _ => Unknown)
    case Among(col, n) =>
      (match Given(args, n) case Some(AVals(vs)) => if At(row, col) == VNull then Unknown
          else Of(At(row, col) in vs) case _ => Unknown)
    case All(ps) => EvalAll(ps, row, args)
    case Any(ps) => EvalAny(ps, row, args)
    case OrFalse(q) => if Eval(q, row, args) == True then True else False
  }

  function EvalAll(ps: seq<Pred>, row: Columns, args: seq<Arg>): Tri
    decreases ps, 1
  {
    if ps == [] then True else And(Eval(ps[0], row, args), EvalAll(ps[1..], row, args))
  }

  function EvalAny(ps: seq<Pred>, row: Columns, args: seq<Arg>): Tri
    decreases ps, 1
  {
    if ps == [] then False else Or(Eval(ps[0], row, args), EvalAny(ps[1..], row, args))
  }

  lemma {:induction false} AllIsTrue(ps: seq<Pred>, row: Columns, args: seq<Arg>)
    ensures EvalAll(ps, row, args) == True <==> forall i :: 0 <= i < |ps| ==> Eval(ps[i], row, args) == True
  {
    if ps != [] {
      AllIsTrue(ps[1..], row, args);
      assert forall i :: 1 <= i < |ps| ==> ps[i] == ps[1..][i - 1];
    }
  }

  lemma {:induction false} AnyIsTrue(ps: seq<Pred>, row: Columns, args: seq<Arg>)
    ensures EvalAny(ps, row, args) == True <==> exists i :: 0 <= i < |ps| && Eval(ps[i], row, args) == True
  {
    if ps != [] {
      AnyIsTrue(ps[1..], row, args);
      if exists i :: 0 <= i < |ps| && Eval(ps[i], row, args) == True {
        var i :| 0 <= i < |ps| && Eval(ps[i], row, args) == True;
        assert i > 0 ==> ps[1..][i - 1] == ps[i];
      }
      if EvalAny(ps[1..], row, args) == True {
        var i :| 0 <= i < |ps[1..]| && Eval(ps[1..][i], row, args) == True;
        assert ps[i + 1] == ps[1..][i];
      }
    }
  }

  lemma AllOfBoth(a: seq<Pred>, b: seq<Pred>, row: Columns, args: seq<Arg>)
    ensures EvalAll(a + b, row, args) == True <==> EvalAll(a, row, args) == True && EvalAll(b, row, args) == True
  {
    AllIsTrue(a + b, row, args);
    AllIsTrue(a, row, args);
    AllIsTrue(b, row, args);
    assert forall i :: 0 <= i < |a| ==> (a + b)[i] == a[i];
    assert forall i :: 0 <= i < |b| ==> (a + b)[|a| + i] == b[i];
  }

  lemma AnyOfBoth(a: seq<Pred>, b: seq<Pred>, row: Columns, args: seq<Arg>)
    ensures EvalAny(a + b, row, args) == True <==> EvalAny(a, row, args) == True || EvalAny(b, row, args) == True
  {
    AnyIsTrue(a + b, row, args);
    AnyIsTrue(a, row, args);
    AnyIsTrue(b, row, args);
    assert forall i :: 0 <= i < |a| ==> (a + b)[i] == a[i];
    assert forall i :: 0 <= i < |b| ==> (a + b)[|a| + i] == b[i];
  }

  lemma AllOfTwo(p: Pred, q: Pred, row: Columns, args: seq<Arg>)
    ensures EvalAll([p, q], row, args) == True <==> Eval(p, row, args) == True && Eval(q, row, args) == True
  {
    AllIsTrue([p, q], row, args);
    assert [p, q][0] == p && [p, q][1] == q;
  }

  lemma AnyOfTwo(p: Pred, q: Pred, row: Columns, args: seq<Arg>)
    ensures EvalAny([p, q], row, args) == True <==> Eval(p, row, args) == True || Eval(q, row, args) == True
  {
    AnyIsTrue([p, q], row, args);
    assert [p, q][0] == p && [p, q][1] == q;
  }

  lemma AnyOfOne(p: Pred, row: Columns, args: seq<Arg>)
    ensures EvalAny([p], row, args) == True <==> Eval(p, row, args) == True
  {
    AnyIsTrue([p], row, args);
    assert [p][0] == p;
  }

  lemma AllOfOne(p: Pred, row: Columns, args: seq<Arg>)
    ensures EvalAll([p], row, args) == True <==> Eval(p, row, args) == True
  {
    AllIsTrue([p], row, args);
    assert [p][0] == p;
  }

  // ------------------------------------------------------------------ LIKE

  /** pattern LIKE with ESCAPE '\': % matches anything, _ one character, an escaped character itself. */
  predicate Matches(pattern: string, s: string)
    decreases |pattern| + |s|
  {
    if pattern == [] then s == []
    else if pattern[0] == '\\' then |pattern| > 1 && s != [] && s[0] == pattern[1] && Matches(pattern[2..], s[1..])
    else if pattern[0] == '%' then Matches(pattern[1..], s) || (s != [] && Matches(pattern, s[1..]))
    else if pattern[0] == '_' then s != [] && Matches(pattern[1..], s[1..])
    else s != [] && s[0] == pattern[0] && Matches(pattern[1..], s[1..])
  }

  predicate Special(c: char) {
    c == '\\' || c == '%' || c == '_'
  }

  function EscapeChar(c: char): string {
    if Special(c) then ['\\', c] else [c]
  }

  /** likeEscape: the characters LIKE reads specially, escaped. */
  function Escape(s: string): string {
    if s == [] then [] else EscapeChar(s[0]) + Escape(s[1..])
  }

  lemma EscapedChar(c: char, rest: string, s: string)
    ensures Matches(EscapeChar(c) + rest, s) <==> s != [] && s[0] == c && Matches(rest, s[1..])
  {
    var p := EscapeChar(c) + rest;
    if Special(c) {
      assert p[0] == '\\' && p[1] == c && p[2..] == rest;
    } else {
      assert p[0] == c && p[1..] == rest;
    }
  }

  /** An escaped text in front of a pattern matches itself, literally. */
  lemma {:induction false} EscapedMatchesItself(t: string, rest: string, s: string)
    ensures Matches(Escape(t) + rest, s) <==> t <= s && Matches(rest, s[|t|..])
    decreases |t|
  {
    if t == [] {
      assert Escape(t) + rest == rest;
    } else {
      assert Escape(t) + rest == EscapeChar(t[0]) + (Escape(t[1..]) + rest);
      EscapedChar(t[0], Escape(t[1..]) + rest, s);
      if s != [] {
        EscapedMatchesItself(t[1..], rest, s[1..]);
        assert |t| <= |s| ==> s[1..][|t| - 1..] == s[|t|..];
        assert t <= s <==> s[0] == t[0] && t[1..] <= s[1..];
      }
    }
  }

  lemma {:induction false} PercentMatchesAnything(s: string)
    ensures Matches("%", s)
    decreases |s|
  {
    if s == [] {
      assert Matches("%"[1..], s);
    } else {
      PercentMatchesAnything(s[1..]);
    }
  }

  /** The compiler's subtree pattern matches exactly the paths below the item's path. */
  lemma SubtreePattern(path: string, s: string)
    ensures Matches(Escape(path) + "/%", s) <==> path + "/" <= s
  {
    EscapedMatchesItself(path, "/%", s);
    if path <= s {
      var rest := s[|path|..];
      assert "/%"[1..] == "%";
      if rest != [] {
        PercentMatchesAnything(rest[1..]);
      }
      assert Matches("/%", rest) <==> rest != [] && rest[0] == '/';
      assert path + "/" <= s <==> rest != [] && rest[0] == '/';
    }
  }

  /** The list search pattern matches exactly the texts that contain the query. */
  lemma SearchPattern(q: string, s: string)
    ensures Matches("%" + Escape(q) + "%", s) <==> exists k :: 0 <= k <= |s| && q <= s[k..]
  {
    assert "%" + Escape(q) + "%" == "%" + (Escape(q) + "%");
    Suffixes(Escape(q) + "%", s);
    forall k | 0 <= k <= |s| ensures Matches(Escape(q) + "%", s[k..]) <==> q <= s[k..] {
      EscapedMatchesItself(q, "%", s[k..]);
      if q <= s[k..] {
        PercentMatchesAnything(s[k..][|q|..]);
      }
    }
  }

  lemma {:induction false} Suffixes(p: string, s: string)
    ensures Matches("%" + p, s) <==> exists k :: 0 <= k <= |s| && Matches(p, s[k..])
    decreases |s|
  {
    assert ("%" + p)[1..] == p;
    assert s[0..] == s;
    if s != [] {
      Suffixes(p, s[1..]);
      if exists k :: 0 <= k <= |s| && Matches(p, s[k..]) {
        var k :| 0 <= k <= |s| && Matches(p, s[k..]);
        assert k > 0 ==> s[1..][k - 1..] == s[k..];
      }
      if exists k :: 0 <= k <= |s[1..]| && Matches(p, s[1..][k..]) {
        var k :| 0 <= k <= |s[1..]| && Matches(p, s[1..][k..]);
        assert s[1..][k..] == s[k + 1..];
      }
    }
  }
}
