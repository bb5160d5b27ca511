/** Splitting an amount by weights with the largest-remainder method (money/money.go). */
module Allocation {
  import opened Base

  // ------------------------------------------------------------------ shares

  function Sum(xs: seq<real>): real {
    if xs == [] then 0.0 else Sum(xs[..|xs| - 1]) + xs[|xs| - 1]
  }

  function Total(xs: seq<int>): int {
    if xs == [] then 0 else Total(xs[..|xs| - 1]) + xs[|xs| - 1]
  }

  /** A part's exact share of n units. */
  function Share(n: nat, w: real, sum: real): real
    requires sum > 0.0
  {
    n as real * w / sum
  }

  function Rem(n: nat, w: real, sum: real): real
    requires sum > 0.0
  {
    Share(n, w, sum) - Share(n, w, sum).Floor as real
  }

  function Floors(n: nat, ws: seq<real>, sum: real): seq<int>
    requires sum > 0.0
  {
    seq(|ws|, i requires 0 <= i < |ws| => Share(n, ws[i], sum).Floor)
  }

  function Rems(n: nat, ws: seq<real>, sum: real): seq<real>
    requires sum > 0.0
  {
    seq(|ws|, i requires 0 <= i < |ws| => Rem(n, ws[i], sum))
  }

  predicate NonNegative(ws: seq<real>) { forall i :: 0 <= i < |ws| ==> ws[i] >= 0.0 }

  function Shares(n: nat, ws: seq<real>, sum: real): seq<real>
    requires sum > 0.0
  {
    seq(|ws|, i requires 0 <= i < |ws| => Share(n, ws[i], sum))
  }

  function FloorsOf(xs: seq<real>): seq<int> { seq(|xs|, i requires 0 <= i < |xs| => xs[i].Floor) }

  function RemsOf(xs: seq<real>): seq<real> { seq(|xs|, i requires 0 <= i < |xs| => xs[i] - xs[i].Floor as real) }

  lemma {:induction false} FloorsAndRems(xs: seq<real>)
    ensures Total(FloorsOf(xs)) as real + Sum(RemsOf(xs)) == Sum(xs)
    decreases |xs|
  {
    if xs != [] {
      var k := |xs| - 1;
      FloorsAndRems(xs[..k]);
      assert FloorsOf(xs)[..k] == FloorsOf(xs[..k]);
      assert RemsOf(xs)[..k] == RemsOf(xs[..k]);
    }
  }

  lemma {:induction false} SharesOfSum(n: nat, ws: seq<real>, sum: real)
    requires sum > 0.0
    ensures Sum(Shares(n, ws, sum)) == Share(n, Sum(ws), sum)
    decreases |ws|
  {
    if ws == [] {
      NothingOf(n as real, sum);
    } else {
      var k := |ws| - 1;
      SharesOfSum(n, ws[..k], sum);
      assert Shares(n, ws, sum)[..k] == Shares(n, ws[..k], sum);
      Distributes(n as real, Sum(ws[..k]), ws[k], sum);
    }
  }

  lemma NothingOf(n: real, sum: real)
    requires sum > 0.0
    ensures n * 0.0 / sum == 0.0
  {
  }

  lemma Distributes(n: real, a: real, b: real, sum: real)
    requires sum > 0.0
    ensures n * (a + b) / sum == n * a / sum + n * b / sum
  {
    assert n * (a + b) == n * a + n * b;
  }

  /** The shares add up to all the units. */
  lemma SharesAddUp(n: nat, ws: seq<real>, sum: real)
    requires sum > 0.0 && sum == Sum(ws)
    ensures Sum(Shares(n, ws, sum)) == n as real
  {
    SharesOfSum(n, ws, sum);
    BackAgain(n as real, sum);
  }

  /** What is left after the floors is what the remainders add up to. */
  lemma LeftIsRems(n: nat, ws: seq<real>, sum: real)
    requires sum > 0.0 && sum == Sum(ws)
    ensures (n - Total(Floors(n, ws, sum))) as real == Sum(Rems(n, ws, sum))
  {
    var xs := Shares(n, ws, sum);
    SharesAddUp(n, ws, sum);
    FloorsAndRems(xs);
    assert Floors(n, ws, sum) == FloorsOf(xs);
    assert Rems(n, ws, sum) == RemsOf(xs);
  }

  lemma ShareIsMonotone(n: nat, v: real, w: real, sum: real)
    requires sum > 0.0 && v <= w
    ensures Share(n, v, sum) <= Share(n, w, sum)
    ensures n > 0 && v < w ==> Share(n, v, sum) < Share(n, w, sum)
  {
    var d := w - v;
    Distributes(n as real, v, d, sum);
    assert n as real * d >= 0.0;
    assert v + d == w;
    if n > 0 && v < w {
      assert n as real * d > 0.0;
    }
  }

  // ------------------------------------------------------------------ the order of remainders

  /** Who is before whom: the larger remainder, the earlier part on ties. */
  predicate Before(rems: seq<real>, x: int, y: int)
    requires 0 <= x < |rems| && 0 <= y < |rems|
  {
    rems[x] > rems[y] || (rems[x] == rems[y] && x < y)
  }

  predicate Indices(order: seq<int>, n: nat) {
    && (forall i :: 0 <= i < |order| ==> 0 <= order[i] < n)
    && (forall i, j :: 0 <= i < j < |order| ==> order[i] != order[j])
  }

  predicate Ordered(order: seq<int>, rems: seq<real>)
    requires Indices(order, |rems|)
  {
    forall i, j :: 0 <= i < j < |order| ==> Before(rems, order[i], order[j])
  }

  /** The remainders added up in some order. */
  function SumBy(rems: seq<real>, order: seq<int>): real
    requires forall i :: 0 <= i < |order| ==> 0 <= order[i] < |rems|
  {
    if order == [] then 0.0 else SumBy(rems, order[..|order| - 1]) + rems[order[|order| - 1]]
  }

  lemma {:induction false} SumByParts(rems: seq<real>, a: seq<int>, b: seq<int>)
    requires (forall i :: 0 <= i < |a| ==> 0 <= a[i] < |rems|) && forall i :: 0 <= i < |b| ==> 0 <= b[i] < |rems|
    ensures SumBy(rems, a + b) == SumBy(rems, a) + SumBy(rems, b)
    decreases |b|
  {
    if b == [] {
      assert a + b == a;
    } else {
      SumByParts(rems, a, b[..|b| - 1]);
      assert (a + b)[..|a + b| - 1] == a + b[..|b| - 1];
    }
  }

  lemma SumOfTwo(rems: seq<real>, x: int, y: int)
    requires 0 <= x < |rems| && 0 <= y < |rems|
    ensures SumBy(rems, [x, y]) == rems[x] + rems[y]
  {
    assert [x, y][..1] == [x] && [x][..0] == [];
    assert SumBy(rems, [x]) == SumBy(rems, [x][..0]) + rems[x];
    assert SumBy(rems, [x, y]) == SumBy(rems, [x, y][..1]) + rems[y];
  }

  lemma SwapKeepsSum(rems: seq<real>, order: seq<int>, j: nat)
    requires 0 < j < |order| && forall i :: 0 <= i < |order| ==> 0 <= order[i] < |rems|
    ensures SumBy(rems, order[j := order[j - 1]][j - 1 := order[j]]) == SumBy(rems, order)
  {
    var a, x, y, b := order[..j - 1], order[j - 1], order[j], order[j + 1..];
    assert order == (a + [x, y]) + b;
    assert order[j := x][j - 1 := y] == (a + [y, x]) + b;
    SumByParts(rems, a + [x, y], b);
    SumByParts(rems, a + [y, x], b);
    SumByParts(rems, a, [x, y]);
    SumByParts(rems, a, [y, x]);
    SumOfTwo(rems, x, y);
    SumOfTwo(rems, y, x);
  }

  function Identity(n: nat): seq<int> { seq(n, i requires 0 <= i < n => i) }

  lemma {:induction false} SumByIdentity(rems: seq<real>, n: nat)
    requires n <= |rems|
    ensures SumBy(rems, Identity(n)) == Sum(rems[..n])
  {
    if n > 0 {
      SumByIdentity(rems, n - 1);
      assert Identity(n)[..n - 1] == Identity(n - 1);
      assert rems[..n][..n - 1] == rems[..n - 1];
    }
  }

  lemma {:induction false} SumByBelow(rems: seq<real>, order: seq<int>)
    requires (forall i :: 0 <= i < |order| ==> 0 <= order[i] < |rems|) && forall i :: 0 <= i < |rems| ==>
        0.0 <= rems[i] < 1.0
    ensures 0.0 <= SumBy(rems, order) && (order == [] || SumBy(rems, order) < |order| as real)
    decreases |order|
  {
    if order != [] {
      SumByBelow(rems, order[..|order| - 1]);
    }
  }

  lemma {:induction false} SumByZeros(rems: seq<real>, order: seq<int>)
    requires forall i :: 0 <= i < |order| ==> 0 <= order[i] < |rems| && rems[order[i]] == 0.0
    ensures SumBy(rems, order) == 0.0
    decreases |order|
  {
    if order != [] {
      SumByZeros(rems, order[..|order| - 1]);
    }
  }

  /** The parts that get a unit more all have a remainder: fewer units are left than there are remainders. */
  lemma LeftHaveRems(rems: seq<real>, order: seq<int>, left: int, k: nat)
    requires (forall i :: 0 <= i < |rems| ==> 0.0 <= rems[i] < 1.0) && Indices(order, |rems|) && Ordered(order, rems)
    requires left as real == SumBy(rems, order) && k < |order|
    ensures left < |order| && (k < left ==> rems[order[k]] > 0.0)
  {
    SumByBelow(rems, order);
    if rems[order[k]] == 0.0 {
      var front, back := order[..k], order[k..];
      assert order == front + back;
      forall i | 0 <= i < |back| ensures rems[back[i]] == 0.0 {
        assert back[i] == order[k + i];
      }
      SumByParts(rems, front, back);
      SumByZeros(rems, back);
      SumByBelow(rems, front);
    }
  }

  /** The first i indices, ordered; the others still in place. */
  predicate SortedUpTo(order: seq<int>, rems: seq<real>, i: nat) {
    && |order| == |rems| && Indices(order, |rems|)
    && (forall k :: i <= k < |order| ==> order[k] == k) && (forall k :: 0 <= k < i && k < |order| ==> order[k] < i)
    && (forall a, b :: 0 <= a < b < i && b < |order| ==> Before(rems, order[a], order[b]))
  }

  /** Index i on its way down, now at j: the others ordered, and it before those it passed. */
  predicate Placing(order: seq<int>, rems: seq<real>, i: nat, j: nat) {
    && j <= i < |order| == |rems| && Indices(order, |rems|) && order[j] == i
    && (forall k :: i < k < |order| ==> order[k] == k) && (forall k :: 0 <= k <= i && k != j ==> order[k] < i)
    && (forall a, b :: 0 <= a < b <= i && a != j && b != j ==> Before(rems, order[a], order[b]))
    && (forall b :: j < b <= i ==> Before(rems, i, order[b]))
  }

  function Swapped(order: seq<int>, j: nat): seq<int>
    requires 0 < j < |order|
  {
    order[j := order[j - 1]][j - 1 := order[j]]
  }

  lemma SwapPlaces(order: seq<int>, rems: seq<real>, i: nat, j: nat)
    requires j > 0 && Placing(order, rems, i, j) && rems[order[j]] > rems[order[j - 1]]
    ensures Placing(Swapped(order, j), rems, i, j - 1)
  {
    var next := Swapped(order, j);
    SwapIndices(order, |rems|, j);
    forall a, b | 0 <= a < b <= i && a != j - 1 && b != j - 1 ensures Before(rems, next[a], next[b]) {
      SwapOrder(order, rems, i, j, a, b);
    }
  }

  lemma SwapIndices(order: seq<int>, n: nat, j: nat)
    requires 0 < j < |order| && Indices(order, n)
    ensures Indices(Swapped(order, j), n)
  {
  }

  lemma SwapOrder(order: seq<int>, rems: seq<real>, i: nat, j: nat, a: nat, b: nat)
    requires j > 0 && Placing(order, rems, i, j) && 0 <= a < b <= i && a != j - 1 && b != j - 1
    ensures var next := Swapped(order, j);
            0 <= next[a] < |rems| && 0 <= next[b] < |rems| && Before(rems, next[a], next[b])
  {
    var x, y := if a == j then j - 1 else a, if b == j then j - 1 else b;
    assert Before(rems, order[x], order[y]);
  }

  lemma Placed(order: seq<int>, rems: seq<real>, i: nat, j: nat)
    requires Placing(order, rems, i, j) && (j > 0 ==> rems[order[j]] <= rems[order[j - 1]])
    ensures SortedUpTo(order, rems, i + 1)
  {
    forall a | 0 <= a < j ensures Before(rems, order[a], i) {
      assert a < j - 1 ==> Before(rems, order[a], order[j - 1]);
    }
  }

  /** The inner loop: index i moves down past smaller remainders. */
  method PutInPlace(rems: seq<real>, order: array<int>, i: nat)
    requires i < order.Length && SortedUpTo(order[..], rems, i)
    modifies order
    ensures SortedUpTo(order[..], rems, i + 1) && SumBy(rems, order[..]) == old(SumBy(rems, order[..]))
  {
    var j := i;
    while j > 0 && rems[order[j]] > rems[order[j - 1]]
      invariant 0 <= j <= i && Placing(order[..], rems, i, j) && SumBy(rems, order[..]) == old(SumBy(rems, order[..]))
    {
      ghost var was := order[..];
      SwapPlaces(was, rems, i, j);
      SwapKeepsSum(rems, was, j);
      order[j], order[j - 1] := order[j - 1], order[j];
      assert order[..] == Swapped(was, j);
      j := j - 1;
    }
    Placed(order[..], rems, i, j);
  }

  /** The insertion sort, in place. */
  method SortByRemainder(rems: seq<real>) returns (order: array<int>)
    ensures fresh(order) && order.Length == |rems| && Indices(order[..], |rems|) && Ordered(order[..], rems)
    ensures SumBy(rems, order[..]) == Sum(rems)
  {
    order := new int[|rems|](i => i);
    assert order[..] == Identity(|rems|);
    SumByIdentity(rems, |rems|);
    assert rems[..|rems|] == rems;
    var i := 1;
    while i < order.Length
      invariant 1 <= i && (i <= order.Length || order.Length == 0)
      invariant SortedUpTo(order[..], rems, i) && SumBy(rems, order[..]) == Sum(rems)
    {
      PutInPlace(rems, order, i);
      i := i + 1;
    }
  }

  // ------------------------------------------------------------------ the allocation

  lemma {:induction false} DistinctSize(order: seq<int>, n: nat)
    requires Indices(order, n)
    ensures |set x | x in order| == |order|
    decreases |order|
  {
    if order != [] {
      var k := |order| - 1;
      DistinctSize(order[..k], n);
      assert order == order[..k] + [order[k]];
      assert (set x | x in order) == (set x | x in order[..k]) + {order[k]};
    }
  }

  function Below(n: nat): (r: set<int>)
    ensures |r| == n && forall x :: x in r <==> 0 <= x < n
  {
    if n == 0 then {} else Below(n - 1) + {n - 1}
  }

  /** As many different indices as there are parts are all the parts. */
  lemma EveryPartIsRanked(order: seq<int>, n: nat)
    requires Indices(order, n) && |order| == n
    ensures forall x :: 0 <= x < n ==> x in order
  {
    var all := Below(n);
    var mine := set x | x in order;
    DistinctSize(order, n);
    assert mine <= all && |all - mine| == |all| - |mine|;
    forall x | 0 <= x < n ensures x in order {
      assert x in all && x !in all - mine;
    }
  }

  /** The part is among the first that get a unit more. */
  predicate Gets(order: seq<int>, left: int, i: int) {
    exists k :: 0 <= k < left && k < |order| && order[k] == i
  }

  /** Every part the floor of its share, plus a unit for the first ones in the order. */
  ghost predicate Dealt(n: nat, ws: seq<real>, sum: real, order: seq<int>, left: int, parts: seq<int>)
    requires sum > 0.0
  {
    && |parts| == |ws| && left == n - Total(Floors(n, ws, sum))
    && |order| == |ws| && Indices(order, |ws|) && Ordered(order, Rems(n, ws, sum))
        && SumBy(Rems(n, ws, sum), order) == Sum(Rems(n, ws, sum))
    && forall i :: 0 <= i < |ws| ==> parts[i] == Floors(n, ws, sum)[i] + (if Gets(order, left, i) then 1 else 0)
  }

  /** A whole number of units for each part, next to its exact share. */
  predicate Close(n: nat, ws: seq<real>, sum: real, parts: seq<int>)
    requires sum > 0.0
  {
    |parts| == |ws| && forall i :: 0 <= i < |ws| ==>
        Share(n, ws[i], sum).Floor <= parts[i] <= Share(n, ws[i], sum).Floor + 1
  }

  /** A larger weight, or an equal one given earlier, never gets less; a weight of zero gets nothing. */
  predicate Fair(ws: seq<real>, parts: seq<int>) {
    && |parts| == |ws|
    && (forall i :: 0 <= i < |ws| ==> parts[i] >= 0 && (ws[i] == 0.0 ==> parts[i] == 0))
    && forall i, j :: 0 <= i < |ws| && 0 <= j < |ws| && (ws[i] > ws[j] || (ws[i] == ws[j] && i < j)) ==>
        parts[i] >= parts[j]
  }

  lemma LeftIsSmall(n: nat, ws: seq<real>, sum: real, order: seq<int>, left: int)
    requires sum > 0.0 && sum == Sum(ws) && NonNegative(ws) && ws != [] && left == n - Total(Floors(n, ws, sum))
    requires |order| == |ws| && Indices(order, |ws|) && Ordered(order, Rems(n, ws, sum))
        && SumBy(Rems(n, ws, sum), order) == Sum(Rems(n, ws, sum))
    ensures 0 <= left < |ws| && forall k :: 0 <= k < left ==> Rems(n, ws, sum)[order[k]] > 0.0
  {
    var rems := Rems(n, ws, sum);
    LeftIsRems(n, ws, sum);
    SumByBelow(rems, order);
    forall k | 0 <= k < left && k < |order| ensures rems[order[k]] > 0.0 {
      LeftHaveRems(rems, order, left, k);
    }
  }

  lemma ZeroGetsNothing(n: nat, ws: seq<real>, sum: real, order: seq<int>, left: int, i: nat)
    requires sum > 0.0 && i < |ws| && Indices(order, |ws|) && |order| == |ws| && ws[i] >= 0.0
    requires forall k :: 0 <= k < left && k < |order| ==> Rems(n, ws, sum)[order[k]] > 0.0
    ensures Share(n, ws[i], sum) >= 0.0
    ensures n == 0 || ws[i] == 0.0 ==> Share(n, ws[i], sum) == 0.0 && !Gets(order, left, i)
  {
    ShareIsMonotone(n, 0.0, ws[i], sum);
    if n == 0 {
      assert n as real * ws[i] == 0.0;
    }
  }

  lemma LargerGetsNoLess(n: nat, ws: seq<real>, sum: real, order: seq<int>, left: int, parts: seq<int>, i: nat, j: nat)
    requires sum > 0.0 && Dealt(n, ws, sum, order, left, parts) && i < |ws| && j < |ws|
    requires ws[i] > ws[j] || (ws[i] == ws[j] && i < j)
    requires n == 0 ==> !Gets(order, left, j)
    ensures parts[i] >= parts[j]
  {
    ShareIsMonotone(n, ws[j], ws[i], sum);
    var rems := Rems(n, ws, sum);
    if Floors(n, ws, sum)[i] == Floors(n, ws, sum)[j] && Gets(order, left, j) {
      assert Before(rems, i, j);
      EveryPartIsRanked(order, |ws|);
      assert i in order;
      var a :| 0 <= a < |order| && order[a] == i;
      var b :| 0 <= b < left && b < |order| && order[b] == j;
      assert a != b;
      assert a > b ==> Before(rems, j, i);
      assert Gets(order, left, i);
    }
  }

  lemma DealtIsFair(n: nat, ws: seq<real>, sum: real, order: seq<int>, left: int, parts: seq<int>)
    requires sum > 0.0 && sum == Sum(ws) && NonNegative(ws) && ws != [] && Dealt(n, ws, sum, order, left, parts)
    ensures Close(n, ws, sum, parts) && Fair(ws, parts) && 0 <= left < |ws|
  {
    LeftIsSmall(n, ws, sum, order, left);
    forall i | 0 <= i < |ws| ensures parts[i] >= 0 && (ws[i] == 0.0 ==> parts[i] == 0)
        && (n == 0 ==> !Gets(order, left, i)) {
      ZeroGetsNothing(n, ws, sum, order, left, i);
    }
    forall i, j | 0 <= i < |ws| && 0 <= j < |ws| && (ws[i] > ws[j] || (ws[i] == ws[j] && i < j))
        ensures parts[i] >= parts[j] {
      LargerGetsNoLess(n, ws, sum, order, left, parts, i, j);
    }
  }

  lemma {:induction false} TotalMore(xs: seq<int>, i: nat)
    requires i < |xs|
    ensures Total(xs[i := xs[i] + 1]) == Total(xs) + 1
    decreases |xs|
  {
    var k := |xs| - 1;
    if i == k {
      assert xs[i := xs[i] + 1][..k] == xs[..k];
    } else {
      TotalMore(xs[..k], i);
      assert xs[i := xs[i] + 1][..k] == xs[..k][i := xs[i] + 1];
    }
  }

  lemma {:induction false} SomeWeight(ws: seq<real>)
    requires Sum(ws) > 0.0
    ensures ws != []
  {
  }

  /** The first loop: the floors, the remainders and what the floors give. */
  method TakeFloors(n: nat, ws: seq<real>, sum: real) returns (base: array<int>, rems: seq<real>, given: int)
    requires sum > 0.0
    ensures fresh(base) && base[..] == Floors(n, ws, sum) && rems == Rems(n, ws, sum)
        && given == Total(Floors(n, ws, sum))
  {
    base := new int[|ws|];
    rems, given := [], 0;
    for i := 0 to |ws|
      invariant base[..i] == Floors(n, ws[..i], sum) && rems == Rems(n, ws[..i], sum)
          && given == Total(Floors(n, ws[..i], sum))
    {
      var share := n as real * ws[i] / sum;
      base[i] := share.Floor;
      rems := rems + [share - base[i] as real];
      given := given + base[i];
      assert base[..i + 1] == base[..i] + [base[i]];
      assert Floors(n, ws[..i + 1], sum) == Floors(n, ws[..i], sum) + [Share(n, ws[i], sum).Floor];
    }
    assert ws[..|ws|] == ws && base[..|ws|] == base[..];
  }

  /** The last loop: a unit more for each of the first ones in the order. */
  method GiveOut(base: array<int>, order: seq<int>, left: nat)
    requires Indices(order, base.Length) && left <= |order|
    modifies base
    ensures forall i :: 0 <= i < base.Length ==> base[i] == old(base[i]) + (if Gets(order, left, i) then 1 else 0)
    ensures Total(base[..]) == old(Total(base[..])) + left
  {
    for k := 0 to left
      invariant forall i :: 0 <= i < base.Length ==> base[i] == old(base[i]) + (if Gets(order, k, i) then 1 else 0)
      invariant Total(base[..]) == old(Total(base[..])) + k
    {
      ghost var was := base[..];
      TotalMore(was, order[k]);
      GetsMore(order, k, base.Length);
      base[order[k]] := base[order[k]] + 1;
      assert base[..] == was[order[k] := was[order[k]] + 1];
    }
  }

  /** largestRemainder: floors, the order of the remainders, and a unit more for the first ones. */
  method LargestRemainder(n: nat, ws: seq<real>, sum: real) returns (parts: array<int>)
    requires NonNegative(ws) && sum == Sum(ws) && sum > 0.0
    ensures fresh(parts) && parts.Length == |ws| && Total(parts[..]) == n
    ensures Close(n, ws, sum, parts[..]) && Fair(ws, parts[..])
  {
    SomeWeight(ws);
    var rems, given;
    parts, rems, given := TakeFloors(n, ws, sum);
    var order := SortByRemainder(rems);
    var left := n - given;
    LeftIsSmall(n, ws, sum, order[..], left);
    ghost var ranked := order[..];
    GiveOut(parts, order[..], left);
    DealtIsFair(n, ws, sum, ranked, left, parts[..]);
  }

  lemma GetsMore(order: seq<int>, k: nat, n: nat)
    requires k < |order| && Indices(order, n)
    ensures !Gets(order, k, order[k]) && forall i :: Gets(order, k + 1, i) <==> Gets(order, k, i) || i == order[k]
  {
  }

  // ------------------------------------------------------------------ amounts

  /** A decimal as it is read: a number or not one. */
  datatype Decimal = NotANumber | Number(x: real)

  datatype Fault = BadTotal | TooManyPlaces | BadWeight(i: nat) | ZeroWeights

  function Pow10(k: nat): int { if k == 0 then 1 else 10 * Pow10(k - 1) }

  lemma {:induction false} Pow10IsPositive(k: nat)
    ensures Pow10(k) >= 1 && (k > 0 ==> Pow10(k) >= 10)
  {
    if k > 0 {
      Pow10IsPositive(k - 1);
    }
  }

  /** Minor units per unit; an integer power with a negative exponent is 1. */
  function Units(scale: int): int { if scale > 0 then Pow10(scale) else 1 }

  /** The amount that so many minor units are at a scale. */
  function Amount(p: int, scale: int): real {
    if scale >= 0 then Pow10IsPositive(scale); p as real / Pow10(scale) as real else p as real * Pow10(-scale) as real
  }

  function Abs(x: real): real { if x < 0.0 then -x else x }

  /** The total's magnitude in minor units. */
  function Scaled(x: real, scale: int): real { Abs(x) * Units(scale) as real }

  function UnitCount(x: real, scale: int): nat {
    UnitsAreNatural(x, scale);
    Scaled(x, scale).Floor
  }

  lemma UnitsAreNatural(x: real, scale: int)
    ensures Scaled(x, scale).Floor >= 0
  {
    if scale > 0 {
      Pow10IsPositive(scale);
    }
    assert Abs(x) * Units(scale) as real >= 0.0;
  }

  predicate Whole(x: real) { x == x.Floor as real }

  function Amounts(ps: seq<int>, scale: int): seq<real> { seq(|ps|, i requires 0 <= i < |ps| => Amount(ps[i], scale)) }

  lemma {:induction false} SumOfAmounts(ps: seq<int>, scale: int)
    ensures Sum(Amounts(ps, scale)) == Amount(Total(ps), scale)
    decreases |ps|
  {
    if ps != [] {
      var k := |ps| - 1;
      SumOfAmounts(ps[..k], scale);
      assert Amounts(ps, scale)[..k] == Amounts(ps[..k], scale);
      AmountAdds(Total(ps[..k]), ps[k], scale);
    } else {
      AmountAdds(0, 0, scale);
    }
  }

  lemma AmountAdds(a: int, b: int, scale: int)
    ensures Amount(a + b, scale) == Amount(a, scale) + Amount(b, scale)
  {
    if scale >= 0 {
      Pow10IsPositive(scale);
      Divides(a as real, b as real, Pow10(scale) as real);
    } else {
      assert (a + b) as real * Pow10(-scale) as real
          == a as real * Pow10(-scale) as real + b as real * Pow10(-scale) as real;
    }
  }

  lemma Divides(a: real, b: real, d: real)
    requires d > 0.0
    ensures (a + b) / d == a / d + b / d
  {
  }

  /** So many whole units are the total again exactly when the scale is not negative (or the total is zero). */
  lemma AmountOfTotal(x: real, scale: int)
    requires Whole(Scaled(x, scale))
    ensures Amount(if x < 0.0 then 0 - UnitCount(x, scale) else UnitCount(x, scale), scale) == x
        <==> scale >= 0 || x == 0.0
  {
    var n: int := UnitCount(x, scale);
    AmountNegated(n, scale);
    AmountOfUnits(Abs(x), n, scale);
  }

  lemma AmountNegated(n: int, scale: int)
    ensures Amount(0 - n, scale) == -Amount(n, scale)
  {
    AmountAdds(0 - n, n, scale);
    AmountAdds(0, 0, scale);
  }

  lemma AmountOfUnits(a: real, n: int, scale: int)
    requires a >= 0.0 && n as real == a * Units(scale) as real
    ensures Amount(n, scale) == a <==> scale >= 0 || a == 0.0
  {
    if scale >= 0 {
      Pow10IsPositive(scale);
      BackAgain(a, Pow10(scale) as real);
    } else {
      Pow10IsPositive(-scale);
      Inflated(a, Pow10(-scale) as real);
    }
  }

  lemma BackAgain(a: real, u: real)
    requires u > 0.0
    ensures a * u / u == a
  {
  }

  lemma Inflated(a: real, u: real)
    requires u >= 10.0 && a >= 0.0
    ensures a * u == a <==> a == 0.0
  {
    if a > 0.0 {
      assert a * u >= a * 10.0;
    }
  }

  lemma {:induction false} TotalNegated(ps: seq<int>, ns: seq<int>)
    requires |ns| == |ps| && forall i :: 0 <= i < |ps| ==> ns[i] == -ps[i]
    ensures Total(ns) == -Total(ps)
    decreases |ps|
  {
    if ps != [] {
      TotalNegated(ps[..|ps| - 1], ns[..|ps| - 1]);
    }
  }

  function Weights(weights: seq<Decimal>): seq<real> {
    seq(|weights|, i requires 0 <= i < |weights| => if weights[i].Number? then weights[i].x else 0.0)
  }

  predicate GoodWeights(weights: seq<Decimal>) {
    forall i :: 0 <= i < |weights| ==> weights[i].Number? && weights[i].x >= 0.0
  }

  predicate GoodTotal(total: Decimal, scale: int) {
    total.Number? && Whole(Scaled(total.x, scale))
  }

  lemma {:induction false} SumIsNotNegative(ws: seq<real>)
    requires NonNegative(ws)
    ensures Sum(ws) >= 0.0
    decreases |ws|
  {
    if ws != [] {
      SumIsNotNegative(ws[..|ws| - 1]);
    }
  }

  /** The units of each part, of the total's sign, by magnitude. */
  function Magnitudes(ps: seq<int>, negative: bool): seq<int> {
    seq(|ps|, i requires 0 <= i < |ps| => if negative then -ps[i] else ps[i])
  }

  method ReadWeights(weights: seq<Decimal>) returns (r: Result<(seq<real>, real), Fault>)
    ensures r.Ok? <==> GoodWeights(weights)
    ensures r.Ok? ==> r.value == (Weights(weights), Sum(Weights(weights))) && NonNegative(Weights(weights))
  {
    var ws: seq<real> := [];
    var sum := 0.0;
    for i := 0 to |weights|
      invariant ws == Weights(weights)[..i] && sum == Sum(ws) && NonNegative(ws) && forall k :: 0 <= k < i ==>
          weights[k].Number? && weights[k].x >= 0.0
    {
      if weights[i].NotANumber? || weights[i].x < 0.0 {
        return Err(BadWeight(i));
      }
      ghost var before := ws;
      ws := ws + [weights[i].x];
      sum := sum + weights[i].x;
      assert ws[..|ws| - 1] == before;
    }
    assert ws == Weights(weights);
    r := Ok((ws, sum));
  }

  /**
    Allocate: refused exactly for a total that is not exact at the scale, a weight that is not a
    non-negative number, or weights that sum to zero; otherwise the parts are fair and next to their
    exact shares, and add up to the total exactly (at a negative scale, which no caller is refused, only
    a zero total does).
   */
  method Allocate(total: Decimal, weights: seq<Decimal>, scale: int) returns (r: Result<seq<int>, Fault>)
    ensures r.Ok? <==> GoodTotal(total, scale) && GoodWeights(weights) && Sum(Weights(weights)) > 0.0
    ensures r.Ok? ==> |r.value| == |weights|
    ensures r.Ok? ==> (Sum(Amounts(r.value, scale)) == total.x <==> scale >= 0 || total.x == 0.0)
    ensures r.Ok? ==> var ps := Magnitudes(r.value, total.x < 0.0);
                      Fair(Weights(weights), ps) && Close(UnitCount(total.x, scale), Weights(weights),
                          Sum(Weights(weights)), ps)
  {
    if total.NotANumber? {
      return Err(BadTotal);
    }
    var units := Scaled(total.x, scale);
    if !Whole(units) {
      return Err(TooManyPlaces);
    }
    var read := ReadWeights(weights);
    if read.Err? {
      return Err(read.error);
    }
    var (ws, sum) := read.value;
    SumIsNotNegative(ws);
    if sum == 0.0 {
      return Err(ZeroWeights);
    }
    var parts := LargestRemainder(UnitCount(total.x, scale), ws, sum);
    var out := Signed(parts[..], total.x < 0.0);
    SumOfAmounts(out, scale);
    AmountOfTotal(total.x, scale);
    assert Magnitudes(out, total.x < 0.0) == parts[..];
    r := Ok(out);
  }

  method Signed(parts: seq<int>, negative: bool) returns (out: seq<int>)
    ensures |out| == |parts| && (forall i :: 0 <= i < |parts| ==> out[i] == if negative then -parts[i] else parts[i])
    ensures Total(out) == if negative then -Total(parts) else Total(parts)
  {
    out := [];
    for i := 0 to |parts|
      invariant |out| == i && forall k :: 0 <= k < i ==> out[k] == if negative then -parts[k] else parts[k]
    {
      out := out + [if negative then -parts[i] else parts[i]];
    }
    if negative {
      TotalNegated(parts, out);
    } else {
      assert out == parts;
    }
  }
}
