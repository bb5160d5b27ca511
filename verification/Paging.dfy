/**
  Keyset pages (list/list.go, list/page.go): the mixed-direction order of sort keys ending in the
  unique ID, and what following cursors over a fixed table yields.
 */
module Paging {
  import opened Base
  import opened Sorting
  import opened Sql

  datatype Sort = Sort(column: string, desc: bool)

  /** What a cursor remembers of a row: its sort values, in sort order, and its ID. */
  datatype Key = Key(vals: seq<Val>, id: Val)

  function KeyOf(row: Columns, sorts: seq<Sort>, idColumn: string): Key {
    Key(seq(|sorts|, i requires 0 <= i < |sorts| => At(row, sorts[i].column)), At(row, idColumn))
  }

  // ------------------------------------------------------------------ the order

  predicate SameKind(a: Val, b: Val) {
    (a.VNum? && b.VNum?) || (a.VText? && b.VText?)
  }

  predicate Less(a: Val, b: Val) {
    match (a, b)
    case (VNum(x), VNum(y)) => x < y
    case (VText(s), VText(t)) => Before(s, t)
    case _ => false
  }

  predicate InOrder(desc: bool, a: Val, b: Val) {
    if desc then Less(b, a) else Less(a, b)
  }

  predicate Alike(a: Key, b: Key, sorts: seq<Sort>) {
    && |a.vals| == |b.vals| == |sorts| && SameKind(a.id, b.id)
    && forall i :: 0 <= i < |sorts| ==> SameKind(a.vals[i], b.vals[i])
  }

  /** ORDER BY: the first key that differs decides, in its own direction; the ID decides last, ascending. */
  predicate Precedes(sorts: seq<Sort>, i: nat, a: Key, b: Key)
    requires i <= |sorts| == |a.vals| == |b.vals|
    decreases |sorts| - i
  {
    if i == |sorts| then Less(a.id, b.id)
    else if a.vals[i] == b.vals[i] then Precedes(sorts, i + 1, a, b)
    else InOrder(sorts[i].desc, a.vals[i], b.vals[i])
  }

  lemma LessIsStrict(a: Val, b: Val)
    requires SameKind(a, b)
    ensures !(Less(a, b) && Less(b, a)) && (a == b || Less(a, b) || Less(b, a))
  {
    if a.VText? { BeforeIsStrict(a.s, b.s); }
  }

  lemma LessIsTransitive(a: Val, b: Val, c: Val)
    requires Less(a, b) && Less(b, c)
    ensures Less(a, c)
  {
    if a.VText? { BeforeIsTransitive(a.s, b.s, c.s); }
  }

  /** Of two rows with different IDs, exactly one precedes the other. */
  lemma {:induction false} PrecedesIsStrict(sorts: seq<Sort>, i: nat, a: Key, b: Key)
    requires Alike(a, b, sorts) && i <= |sorts|
    ensures !(Precedes(sorts, i, a, b) && Precedes(sorts, i, b, a))
    ensures a.id != b.id ==> Precedes(sorts, i, a, b) || Precedes(sorts, i, b, a)
    ensures Precedes(sorts, i, a, b) ==> a != b
    decreases |sorts| - i
  {
    if i == |sorts| {
      LessIsStrict(a.id, b.id);
    } else {
      LessIsStrict(a.vals[i], b.vals[i]);
      PrecedesIsStrict(sorts, i + 1, a, b);
    }
  }

  lemma {:induction false} PrecedesIsTransitive(sorts: seq<Sort>, i: nat, a: Key, b: Key, c: Key)
    requires i <= |sorts| && Alike(a, b, sorts) && Alike(b, c, sorts)
    requires Precedes(sorts, i, a, b) && Precedes(sorts, i, b, c)
    ensures Precedes(sorts, i, a, c)
    decreases |sorts| - i
  {
    if i == |sorts| {
      LessIsTransitive(a.id, b.id, c.id);
    } else if a.vals[i] == b.vals[i] && b.vals[i] == c.vals[i] {
      PrecedesIsTransitive(sorts, i + 1, a, b, c);
    } else if a.vals[i] != b.vals[i] && b.vals[i] != c.vals[i] {
      LessIsStrict(a.vals[i], b.vals[i]);
      LessIsStrict(b.vals[i], c.vals[i]);
      if sorts[i].desc {
        LessIsTransitive(c.vals[i], b.vals[i], a.vals[i]);
      } else {
        LessIsTransitive(a.vals[i], b.vals[i], c.vals[i]);
      }
      LessIsStrict(a.vals[i], c.vals[i]);
    }
  }

  // ------------------------------------------------------------------ the keyset condition

  /** The i-th alternative of the keyset condition: the keys before the i-th equal, the i-th (or the ID) beyond. */
  predicate Alternative(sorts: seq<Sort>, i: nat, c: Key, k: Key)
    requires i <= |sorts| == |c.vals| == |k.vals|
  {
    && (forall j :: 0 <= j < i ==> RelatesTo(k.vals[j], Eq, c.vals[j]) == True)
    && if i < |sorts| then RelatesTo(k.vals[i], if sorts[i].desc then Lt else Gt, c.vals[i]) == True
       else RelatesTo(k.id, Gt, c.id) == True
  }

  /** Some alternative holds exactly when the row is strictly after the cursor in the order. */
  lemma KeysetIsAfter(sorts: seq<Sort>, c: Key, k: Key)
    requires Alike(c, k, sorts)
    ensures (exists i :: 0 <= i <= |sorts| && Alternative(sorts, i, c, k)) <==> Precedes(sorts, 0, c, k)
  {
    KeysetFrom(sorts, 0, c, k);
  }

  lemma {:induction false} KeysetFrom(sorts: seq<Sort>, i: nat, c: Key, k: Key)
    requires Alike(c, k, sorts) && i <= |sorts| && forall j :: 0 <= j < i ==> k.vals[j] == c.vals[j]
    ensures (exists m :: i <= m <= |sorts| && Alternative(sorts, m, c, k)) <==> Precedes(sorts, i, c, k)
    decreases |sorts| - i
  {
    if i < |sorts| {
      LessIsStrict(c.vals[i], k.vals[i]);
      if c.vals[i] == k.vals[i] {
        KeysetFrom(sorts, i + 1, c, k);
        assert !Alternative(sorts, i, c, k);
      } else {
        assert forall m :: i < m <= |sorts| && Alternative(sorts, m, c, k) ==>
            RelatesTo(k.vals[i], Eq, c.vals[i]) == True;
        assert Alternative(sorts, i, c, k) <==> InOrder(sorts[i].desc, c.vals[i], k.vals[i]);
      }
    } else {
      assert Alternative(sorts, i, c, k) <==> Less(c.id, k.id);
    }
  }

  // ------------------------------------------------------------------ a fixed table

  /** Rows a list can order: sort values present and of one kind per column, no two rows with one ID. */
  ghost predicate Orderable(rows: set<Columns>, sorts: seq<Sort>, idColumn: string) {
    && (forall a, b :: a in rows && b in rows ==> Alike(KeyOf(a, sorts, idColumn), KeyOf(b, sorts, idColumn), sorts))
    && (forall a, b :: a in rows && b in rows && a != b ==> At(a, idColumn) != At(b, idColumn))
  }

  predicate Ahead(sorts: seq<Sort>, idColumn: string, a: Columns, b: Columns) {
    Precedes(sorts, 0, KeyOf(a, sorts, idColumn), KeyOf(b, sorts, idColumn))
  }

  predicate Ordered(out: seq<Columns>, sorts: seq<Sort>, idColumn: string) {
    forall i, j :: 0 <= i < j < |out| ==> Ahead(sorts, idColumn, out[i], out[j])
  }

  lemma AheadIsStrict(rows: set<Columns>, sorts: seq<Sort>, idColumn: string, a: Columns, b: Columns)
    requires Orderable(rows, sorts, idColumn) && a in rows && b in rows
    ensures !(Ahead(sorts, idColumn, a, b) && Ahead(sorts, idColumn, b, a))
    ensures a != b <==> Ahead(sorts, idColumn, a, b) || Ahead(sorts, idColumn, b, a)
  {
    PrecedesIsStrict(sorts, 0, KeyOf(a, sorts, idColumn), KeyOf(b, sorts, idColumn));
  }

  function Insert(row: Columns, out: seq<Columns>, sorts: seq<Sort>, idColumn: string): seq<Columns> {
    if out == [] then [row]
    else if Ahead(sorts, idColumn, row, out[0]) then [row] + out
    else [out[0]] + Insert(row, out[1..], sorts, idColumn)
  }

  lemma {:induction false} InsertKeeps(rows: set<Columns>, row: Columns, out: seq<Columns>, sorts: seq<Sort>,
      idColumn: string)
    requires Orderable(rows, sorts, idColumn) && row in rows && row !in out && (forall r :: r in out ==> r in rows)
    requires Ordered(out, sorts, idColumn)
    ensures Ordered(Insert(row, out, sorts, idColumn), sorts, idColumn)
    ensures forall r :: r in Insert(row, out, sorts, idColumn) <==> r == row || r in out
    decreases |out|
  {
    if out != [] {
      var rest := Insert(row, out[1..], sorts, idColumn);
      assert out == [out[0]] + out[1..];
      InsertKeeps(rows, row, out[1..], sorts, idColumn);
      AheadIsStrict(rows, sorts, idColumn, row, out[0]);
      if Ahead(sorts, idColumn, row, out[0]) {
        forall j | 0 <= j < |out| ensures Ahead(sorts, idColumn, row, out[j]) {
          if j > 0 {
            PrecedesIsTransitive(sorts, 0, KeyOf(row, sorts, idColumn), KeyOf(out[0], sorts, idColumn),
                KeyOf(out[j], sorts, idColumn));
          }
        }
      } else {
        forall j | 0 <= j < |rest| ensures Ahead(sorts, idColumn, out[0], rest[j]) {
          assert rest[j] in rest;
          if rest[j] != row {
            var k :| 0 <= k < |out[1..]| && out[1..][k] == rest[j];
            assert out[k + 1] == rest[j];
          }
        }
      }
    }
  }

  /** SELECT ... ORDER BY: the rows in order. */
  ghost function Listing(rows: set<Columns>, sorts: seq<Sort>, idColumn: string): (out: seq<Columns>)
    requires Orderable(rows, sorts, idColumn)
    ensures Ordered(out, sorts, idColumn) && forall r :: r in out <==> r in rows
    decreases rows
  {
    if rows == {} then []
    else
      var row :| row in rows;
      var rest := Listing(rows - {row}, sorts, idColumn);
      InsertKeeps(rows, row, rest, sorts, idColumn);
      Insert(row, rest, sorts, idColumn)
  }

  /** There is one such listing. */
  lemma {:induction false} ListingIsUnique(rows: set<Columns>, a: seq<Columns>, b: seq<Columns>, sorts: seq<Sort>,
      idColumn: string)
    requires Orderable(rows, sorts, idColumn) && Ordered(a, sorts, idColumn) && Ordered(b, sorts, idColumn)
    requires (forall r :: r in a <==> r in b) && forall r :: r in a ==> r in rows
    ensures a == b
    decreases |a|
  {
    if b != [] {
      assert b[0] in a;
    }
    if a != [] {
      assert a[0] in b;
      var i :| 0 <= i < |a| && a[i] == b[0];
      var j :| 0 <= j < |b| && b[j] == a[0];
      AheadIsStrict(rows, sorts, idColumn, a[0], b[0]);
      assert a[0] == b[0];
      forall r ensures r in a[1..] <==> r in b[1..] {
        TailMembers(rows, a, r, sorts, idColumn);
        TailMembers(rows, b, r, sorts, idColumn);
      }
      ListingIsUnique(rows, a[1..], b[1..], sorts, idColumn);
      assert a == [a[0]] + a[1..] && b == [b[0]] + b[1..];
    }
  }

  lemma TailMembers(rows: set<Columns>, a: seq<Columns>, r: Columns, sorts: seq<Sort>, idColumn: string)
    requires Orderable(rows, sorts, idColumn) && Ordered(a, sorts, idColumn) && a != [] && forall x :: x in a ==>
        x in rows
    ensures r in a[1..] <==> r in a && r != a[0]
  {
    if r in a[1..] {
      var k :| 0 <= k < |a[1..]| && a[1..][k] == r;
      assert a[k + 1] == r;
      AheadIsStrict(rows, sorts, idColumn, a[0], r);
    }
    if r in a && r != a[0] {
      var k :| 0 <= k < |a| && a[k] == r;
      assert a[1..][k - 1] == r;
    }
  }

  lemma AfterMembers(rows: set<Columns>, all: seq<Columns>, k: nat, r: Columns, sorts: seq<Sort>, idColumn: string)
    requires Orderable(rows, sorts, idColumn) && Ordered(all, sorts, idColumn) && (forall x :: x in all <==> x in rows)
        && 0 < k <= |all|
    ensures r in all[k..] <==> r in rows && Ahead(sorts, idColumn, all[k - 1], r)
  {
    if r in rows && Ahead(sorts, idColumn, all[k - 1], r) {
      var i :| 0 <= i < |all| && all[i] == r;
      AheadIsStrict(rows, sorts, idColumn, all[k - 1], r);
      assert all[k..][i - k] == r;
    }
    if r in all[k..] {
      var i :| 0 <= i < |all[k..]| && all[k..][i] == r;
      assert all[k + i] == r;
    }
  }

  /** What comes strictly after the k-th row is the rest of the listing. */
  lemma RestIsAfter(rows: set<Columns>, k: nat, sorts: seq<Sort>, idColumn: string)
    requires Orderable(rows, sorts, idColumn) && 0 < k <= |Listing(rows, sorts, idColumn)|
    ensures var all := Listing(rows, sorts, idColumn);
            var after := set r | r in rows && Ahead(sorts, idColumn, all[k - 1], r);
            Listing(after, sorts, idColumn) == all[k..]
  {
    var all := Listing(rows, sorts, idColumn);
    var after := set r | r in rows && Ahead(sorts, idColumn, all[k - 1], r);
    forall r ensures r in all[k..] <==> r in after {
      AfterMembers(rows, all, k, r, sorts, idColumn);
    }
    ListingIsUnique(rows, Listing(after, sorts, idColumn), all[k..], sorts, idColumn);
  }

  // ------------------------------------------------------------------ following cursors

  datatype Page = Page(rows: seq<Columns>, next: Option<Key>)

  /** Page's loop: the first rows of the answer, and whether the look-ahead row came. */
  method TakePage(answer: seq<Columns>, limit: nat) returns (out: seq<Columns>, more: bool)
    requires limit > 0
    ensures out == answer[..Min(limit, |answer|)] && (more <==> |answer| > limit)
  {
    out, more := [], false;
    var i := 0;
    while i < |answer|
      invariant 0 <= i <= |answer| && !more && i <= limit && out == answer[..i]
    {
      if |out| == limit {
        more := true;
        break;
      }
      out := out + [answer[i]];
      i := i + 1;
    }
  }

  ghost predicate Asks(cursor: Option<Key>, row: Columns, sorts: seq<Sort>, idColumn: string) {
    cursor.Some? ==> |cursor.value.vals| == |sorts| && Precedes(sorts, 0, cursor.value, KeyOf(row, sorts, idColumn))
  }

  /** LIMIT limit + 1 of an ordered answer; the last row's key is the next cursor when more follow. */
  function Cut(all: seq<Columns>, limit: nat, sorts: seq<Sort>, idColumn: string): Page
    requires limit > 0
  {
    var answer := all[..Min(limit + 1, |all|)];
    if |answer| > limit then Page(answer[..limit], Some(KeyOf(answer[limit - 1], sorts, idColumn)))
        else Page(answer, None)
  }

  /** One page of the rows after a cursor. */
  ghost function PageAfter(rows: set<Columns>, cursor: Option<Key>, limit: nat, sorts: seq<Sort>,
      idColumn: string): Page
    requires Orderable(rows, sorts, idColumn) && limit > 0
  {
    var asked := set r | r in rows && Asks(cursor, r, sorts, idColumn);
    Cut(Listing(asked, sorts, idColumn), limit, sorts, idColumn)
  }

  /** A run that follows cursors from the first page; every page may ask for its own number of rows. */
  ghost predicate Follows(pages: seq<Page>, limits: seq<nat>, rows: set<Columns>, sorts: seq<Sort>, idColumn: string)
    requires Orderable(rows, sorts, idColumn)
    decreases |pages|
  {
    |pages| == |limits| && (pages != [] ==>
      var n := |pages| - 1;
      && Follows(pages[..n], limits[..n], rows, sorts, idColumn) && limits[n] > 0
      && (n > 0 ==> pages[n - 1].next.Some?)
      && pages[n] == PageAfter(rows, if n == 0 then None else pages[n - 1].next, limits[n], sorts, idColumn))
  }

  function Rows(pages: seq<Page>): seq<Columns>
    decreases |pages|
  {
    if pages == [] then [] else Rows(pages[..|pages| - 1]) + pages[|pages| - 1].rows
  }

  ghost function CursorAt(all: seq<Columns>, k: nat, sorts: seq<Sort>, idColumn: string): Option<Key>
    requires k <= |all|
  {
    if k == 0 then None else Some(KeyOf(all[k - 1], sorts, idColumn))
  }

  /** The page that starts at the k-th row of the listing. */
  lemma PageStartingAt(rows: set<Columns>, all: seq<Columns>, k: nat, limit: nat, sorts: seq<Sort>, idColumn: string)
    requires Orderable(rows, sorts, idColumn) && limit > 0 && all == Listing(rows, sorts, idColumn) && k <= |all|
    ensures PageAfter(rows, CursorAt(all, k, sorts, idColumn), limit, sorts, idColumn)
        == Cut(all[k..], limit, sorts, idColumn)
  {
    var asked := set r | r in rows && Asks(CursorAt(all, k, sorts, idColumn), r, sorts, idColumn);
    if k == 0 {
      assert asked == rows && all[0..] == all;
    } else {
      RestIsAfter(rows, k, sorts, idColumn);
      assert asked == set r | r in rows && Ahead(sorts, idColumn, all[k - 1], r);
    }
  }

  /** Where a run stands: it has yielded the first k rows, and goes on exactly while rows are left. */
  ghost predicate Stands(pages: seq<Page>, all: seq<Columns>, k: nat, sorts: seq<Sort>, idColumn: string)
    requires pages != []
  {
    var next := pages[|pages| - 1].next;
    && k <= |all| && Rows(pages) == all[..k] && (next.Some? <==> k < |all|)
    && (next.Some? ==> k >= |pages| && next == CursorAt(all, k, sorts, idColumn))
  }

  lemma CutIs(all: seq<Columns>, k: nat, limit: nat, sorts: seq<Sort>, idColumn: string)
    requires k <= |all| && limit > 0
    ensures var end, page := Min(k + limit, |all|), Cut(all[k..], limit, sorts, idColumn);
            page.rows == all[k..end] && page.next == if end < |all| then Some(KeyOf(all[end - 1], sorts, idColumn))
                else None
  {
    var rest := all[k..];
    var answer := rest[..Min(limit + 1, |rest|)];
    if |rest| > limit {
      assert answer[..limit] == all[k..k + limit];
      assert answer[limit - 1] == all[k + limit - 1];
    } else {
      assert answer == rest == all[k..|all|];
    }
  }

  lemma CutStands(pages: seq<Page>, all: seq<Columns>, k: nat, limit: nat, sorts: seq<Sort>, idColumn: string)
    requires pages != [] && k <= |all| && limit > 0 && k >= |pages| - 1
    requires Rows(pages[..|pages| - 1]) == all[..k] && pages[|pages| - 1] == Cut(all[k..], limit, sorts, idColumn)
    ensures Stands(pages, all, Min(k + limit, |all|), sorts, idColumn)
  {
    var end := Min(k + limit, |all|);
    CutIs(all, k, limit, sorts, idColumn);
    assert all[..k] + all[k..end] == all[..end];
  }

  lemma LastStands(pages: seq<Page>, rows: set<Columns>, all: seq<Columns>, k: nat, limit: nat, sorts: seq<Sort>,
      idColumn: string) returns (end: nat)
    requires Orderable(rows, sorts, idColumn) && all == Listing(rows, sorts, idColumn) && limit > 0
    requires pages != [] && |pages| - 1 <= k <= |all| && Rows(pages[..|pages| - 1]) == all[..k]
    requires pages[|pages| - 1] == PageAfter(rows, CursorAt(all, k, sorts, idColumn), limit, sorts, idColumn)
    ensures Stands(pages, all, end, sorts, idColumn)
  {
    PageStartingAt(rows, all, k, limit, sorts, idColumn);
    CutStands(pages, all, k, limit, sorts, idColumn);
    end := Min(k + limit, |all|);
  }

  /**
    Following cursors yields the listing from its start, without a gap or a repeat; a page has a next
    cursor exactly while rows are left.
   */
  lemma {:induction false} PagesEnumerate(pages: seq<Page>, limits: seq<nat>, rows: set<Columns>, all: seq<Columns>,
      sorts: seq<Sort>, idColumn: string)
    returns (k: nat)
    requires Orderable(rows, sorts, idColumn) && Follows(pages, limits, rows, sorts, idColumn) && pages != []
    requires all == Listing(rows, sorts, idColumn)
    ensures Stands(pages, all, k, sorts, idColumn)
    decreases |pages|
  {
    var n := |pages| - 1;
    if n == 0 {
      assert pages[..0] == [];
      k := LastStands(pages, rows, all, 0, limits[0], sorts, idColumn);
    } else {
      var front := pages[..n];
      var m := PagesEnumerate(front, limits[..n], rows, all, sorts, idColumn);
      assert front[n - 1] == pages[n - 1];
      k := LastStands(pages, rows, all, m, limits[n], sorts, idColumn);
    }
  }

  /** So every run is at most as long as the table. */
  lemma PagingEnds(pages: seq<Page>, limits: seq<nat>, rows: set<Columns>, all: seq<Columns>, sorts: seq<Sort>,
      idColumn: string)
    requires Orderable(rows, sorts, idColumn) && Follows(pages, limits, rows, sorts, idColumn)
        && all == Listing(rows, sorts, idColumn)
    ensures |pages| <= |all| + 1
  {
    if |pages| > 1 {
      var n := |pages| - 1;
      var front := pages[..n];
      var k := PagesEnumerate(front, limits[..n], rows, all, sorts, idColumn);
      assert front[n - 1] == pages[n - 1];
    }
  }

  /** And one that ended has listed every row exactly once, in order. */
  lemma PagingIsExact(pages: seq<Page>, limits: seq<nat>, rows: set<Columns>, sorts: seq<Sort>, idColumn: string)
    requires Orderable(rows, sorts, idColumn) && Follows(pages, limits, rows, sorts, idColumn) && pages != []
    ensures |pages| <= |Listing(rows, sorts, idColumn)| + 1
    ensures pages[|pages| - 1].next.None? ==> Rows(pages) == Listing(rows, sorts, idColumn)
  {
    var all := Listing(rows, sorts, idColumn);
    PagingEnds(pages, limits, rows, all, sorts, idColumn);
    var k := PagesEnumerate(pages, limits, rows, all, sorts, idColumn);
    assert all[..|all|] == all;
  }
}
