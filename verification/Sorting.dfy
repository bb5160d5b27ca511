/** Sorting sets of strings in byte order (UTF-8 keeps the order of code points). */
module Sorting {

  /** Strictly before, lexicographically. */
  predicate Before(a: string, b: string)
    decreases |a|
  {
    b != [] && (a == [] || a[0] < b[0] || (a[0] == b[0] && Before(a[1..], b[1..])))
  }

  lemma {:induction false} BeforeIsStrict(a: string, b: string)
    ensures !(Before(a, b) && Before(b, a))
    ensures a == b || Before(a, b) || Before(b, a)
    decreases |a| + |b|
  {
    if a != [] && b != [] {
      BeforeIsStrict(a[1..], b[1..]);
      assert a == [a[0]] + a[1..] && b == [b[0]] + b[1..];
    }
  }

  lemma {:induction false} BeforeIsTransitive(a: string, b: string, c: string)
    requires Before(a, b) && Before(b, c)
    ensures Before(a, c)
    decreases |a|
  {
    if a != [] && a[0] == b[0] && b[0] == c[0] {
      BeforeIsTransitive(a[1..], b[1..], c[1..]);
    }
  }

  predicate Ascending(ss: seq<string>) {
    forall i, j :: 0 <= i < j < |ss| ==> Before(ss[i], ss[j])
  }

  function SetOf<T>(ss: seq<T>): set<T> {
    set s | s in ss
  }

  lemma NonEmpty<T>(ss: seq<T>)
    ensures ss == [] <==> SetOf(ss) == {}
  {
    assert ss != [] ==> ss[0] in SetOf(ss);
  }

  /** A set has one ascending listing. */
  lemma {:induction false} AscendingIsUnique(a: seq<string>, b: seq<string>)
    requires Ascending(a) && Ascending(b) && SetOf(a) == SetOf(b)
    ensures a == b
    decreases |a|
  {
    NonEmpty(a);
    NonEmpty(b);
    if a != [] {
      assert a[0] in SetOf(b);
      assert b[0] in SetOf(a);
      var i :| 0 <= i < |a| && a[i] == b[0];
      var j :| 0 <= j < |b| && b[j] == a[0];
      BeforeIsStrict(a[0], b[0]);
      assert a[0] == b[0];
      forall x ensures x in SetOf(a[1..]) <==> x in SetOf(b[1..]) {
        if x in SetOf(a[1..]) {
          var k :| 0 <= k < |a[1..]| && a[1..][k] == x;
          BeforeIsStrict(a[0], a[k + 1]);
          assert a[k + 1] in SetOf(b);
        }
        if x in SetOf(b[1..]) {
          var k :| 0 <= k < |b[1..]| && b[1..][k] == x;
          BeforeIsStrict(b[0], b[k + 1]);
          assert b[k + 1] in SetOf(a);
        }
      }
      AscendingIsUnique(a[1..], b[1..]);
      assert a == [a[0]] + a[1..] && b == [b[0]] + b[1..];
    }
  }

  function Insert(x: string, ss: seq<string>): seq<string> {
    if ss == [] then [x] else if Before(x, ss[0]) then [x] + ss else [ss[0]] + Insert(x, ss[1..])
  }

  lemma {:induction false} InsertKeeps(x: string, ss: seq<string>)
    requires Ascending(ss) && x !in ss
    ensures Ascending(Insert(x, ss)) && SetOf(Insert(x, ss)) == SetOf(ss) + {x}
    decreases |ss|
  {
    if ss != [] {
      var rest := Insert(x, ss[1..]);
      InsertKeeps(x, ss[1..]);
      BeforeIsStrict(x, ss[0]);
      if Before(x, ss[0]) {
        forall j | 0 <= j < |ss| ensures Before(x, ss[j]) {
          if j > 0 { BeforeIsTransitive(x, ss[0], ss[j]); }
        }
      } else {
        forall j | 0 <= j < |rest| ensures Before(ss[0], rest[j]) {
          assert rest[j] in SetOf(rest);
          if rest[j] != x {
            var k :| 0 <= k < |ss[1..]| && ss[1..][k] == rest[j];
            assert Before(ss[0], ss[k + 1]);
          }
        }
        assert SetOf([ss[0]] + rest) == SetOf(rest) + {ss[0]};
      }
      assert SetOf(ss) == SetOf(ss[1..]) + {ss[0]} by {
        assert ss == [ss[0]] + ss[1..];
      }
    }
  }

  /** The ascending listing of a set. */
  ghost function Sorted(s: set<string>): (r: seq<string>)
    ensures Ascending(r) && SetOf(r) == s
  {
    if s == {} then []
    else
      var x :| x in s;
      var rest := Sorted(s - {x});
      assert x !in SetOf(rest);
      InsertKeeps(x, rest);
      Insert(x, rest)
  }

  method Sort(s: set<string>) returns (r: seq<string>)
    ensures r == Sorted(s)
  {
    r := [];
    var rest := s;
    while rest != {}
      invariant rest <= s && Ascending(r) && SetOf(r) == s - rest
      decreases rest
    {
      var x :| x in rest;
      assert x !in SetOf(r);
      InsertKeeps(x, r);
      r := Insert(x, r);
      rest := rest - {x};
    }
    AscendingIsUnique(r, Sorted(s));
  }
}
