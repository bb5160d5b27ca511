/**
  The canonical encoding of security records (canon/canon.go; sections 3.2.2.2 and 3.2.3 of RFC 8785):
  one text for every value, and one value for every text. Text is a sequence of code points; UTF-8 is
  injective on them and keeps their order.
 */
module Canon {
  import opened Sorting

  /** A value; Unsupported is null, floating point or another type. */
  datatype Value = Bool(b: bool) | Int(n: int) | Str(s: string) | Arr(xs: seq<Value>) | Obj(m: map<string,
      Value>) | Unsupported

  /** 2^53. */
  const MAX_INT := 9007199254740992

  predicate Encodable(v: Value) {
    match v
    case Int(n) => -MAX_INT < n < MAX_INT
    case Arr(xs) => forall i :: 0 <= i < |xs| ==> Encodable(xs[i])
    case Obj(m) => forall k :: k in m ==> Encodable(m[k])
    case Unsupported => false
    case _ => true
  }

  // ------------------------------------------------------------------ the encoding

  function Digit(d: int): char
    requires 0 <= d < 16
  {
    if d < 10 then '0' + d as char else 'a' + (d - 10) as char
  }

  function NatText(n: nat): string {
    if n < 10 then [Digit(n)] else NatText(n / 10) + [Digit(n % 10)]
  }

  function IntText(n: int): string {
    if n < 0 then "-" + NatText(-n) else NatText(n)
  }

  /** A character in a string: the short escapes, \u for the other control characters, itself otherwise. */
  function Code(c: char): string {
    if c == '"' then ['\\', '"']
    else if c == '\\' then ['\\', '\\']
    else if c == '\U{8}' then ['\\', 'b']
    else if c == '\U{C}' then ['\\', 'f']
    else if c == '\n' then ['\\', 'n']
    else if c == '\r' then ['\\', 'r']
    else if c == '\t' then ['\\', 't']
    else if c as int < 0x20 then ['\\', 'u', '0', '0', Digit(c as int / 16), Digit(c as int % 16)]
    else [c]
  }

  function Body(s: string): string {
    if s == [] then [] else Code(s[0]) + Body(s[1..])
  }

  function Quoted(s: string): string {
    "\"" + Body(s) + "\""
  }

  ghost function Text(v: Value): string
    decreases v, 1, 0
  {
    match v
    case Bool(b) => if b then "true" else "false"
    case Int(n) => IntText(n)
    case Str(s) => Quoted(s)
    case Arr(xs) => "[" + Items(v, 0)
    case Obj(m) => "{" + Members(v, Sorted(m.Keys), 0)
    case Unsupported => ""
  }

  /** The elements from the i-th on, with the separators before them and the closing bracket. */
  ghost function Items(v: Value, i: nat): string
    requires v.Arr? && i <= |v.xs|
    decreases v, 0, |v.xs| - i
  {
    if i == |v.xs| then "]" else Comma(i) + (Text(v.xs[i]) + Items(v, i + 1))
  }

  /** The members from the i-th key on. */
  ghost function Members(v: Value, keys: seq<string>, i: nat): string
    requires v.Obj? && i <= |keys| && forall j :: 0 <= j < |keys| ==> keys[j] in v.m
    decreases v, 0, |keys| - i
  {
    if i == |keys| then "}" else Comma(i) + (Quoted(keys[i]) + (":" + (Text(v.m[keys[i]]) + Members(v, keys, i + 1))))
  }

  function Comma(i: nat): string { if i > 0 then "," else "" }

  // ------------------------------------------------------------------ numbers

  predicate IsDigit(c: char) { '0' <= c <= '9' }

  /** What may follow a value: nothing, or a character that no number goes on with. */
  predicate Stops(x: string) { x == [] || !IsDigit(x[0]) }

  lemma {:induction false} NatTextIsDigits(n: nat)
    ensures NatText(n) != [] && forall i :: 0 <= i < |NatText(n)| ==> IsDigit(NatText(n)[i])
  {
    if n >= 10 {
      NatTextIsDigits(n / 10);
    }
  }

  lemma {:induction false} NatTextIsInjective(m: nat, n: nat)
    requires NatText(m) == NatText(n)
    ensures m == n
  {
    NatTextIsDigits(m / 10);
    NatTextIsDigits(n / 10);
    var a, b := NatText(m), NatText(n);
    assert a[|a| - 1] == b[|b| - 1];
    if m >= 10 && n >= 10 {
      assert a[..|a| - 1] == NatText(m / 10) && b[..|b| - 1] == NatText(n / 10);
      NatTextIsInjective(m / 10, n / 10);
      assert m % 10 == n % 10;
    } else {
      assert m >= 10 ==> |a| > 1;
      assert n >= 10 ==> |b| > 1;
    }
  }

  /** How many digits a text begins with. */
  function DigitRun(t: string): nat {
    if t == [] || !IsDigit(t[0]) then 0 else 1 + DigitRun(t[1..])
  }

  lemma {:induction false} RunOfDigits(a: string, x: string)
    requires Stops(x) && forall i :: 0 <= i < |a| ==> IsDigit(a[i])
    ensures DigitRun(a + x) == |a|
    decreases |a|
  {
    if a == [] {
      assert a + x == x;
    } else {
      assert (a + x)[1..] == a[1..] + x;
      RunOfDigits(a[1..], x);
    }
  }

  lemma SplitAt(a: string, x: string, b: string, y: string)
    requires a + x == b + y && |a| == |b|
    ensures a == b && x == y
  {
    assert a == (a + x)[..|a|] && b == (b + y)[..|b|];
    assert x == (a + x)[|a|..] && y == (b + y)[|b|..];
  }

  /** The digits of a number end where a character that is none begins. */
  lemma NatTextIsUnique(m: nat, n: nat, x: string, y: string)
    requires Stops(x) && Stops(y) && NatText(m) + x == NatText(n) + y
    ensures m == n && x == y
  {
    NatTextIsDigits(m);
    NatTextIsDigits(n);
    RunOfDigits(NatText(m), x);
    RunOfDigits(NatText(n), y);
    SplitAt(NatText(m), x, NatText(n), y);
    NatTextIsInjective(m, n);
  }

  lemma IntTextStarts(m: int, x: string)
    ensures IntText(m) != [] && (m < 0 ==> IntText(m)[0] == '-' && (IntText(m) + x)[1..] == NatText(-m) + x)
        && (m >= 0 ==> IsDigit(IntText(m)[0]))
  {
    NatTextIsDigits(if m < 0 then -m else m);
  }

  lemma IntTextIsUnique(m: int, n: int, x: string, y: string)
    requires Stops(x) && Stops(y) && IntText(m) + x == IntText(n) + y
    ensures m == n && x == y
  {
    IntTextStarts(m, x);
    IntTextStarts(n, y);
    assert IntText(m)[0] == (IntText(m) + x)[0] && IntText(n)[0] == (IntText(n) + y)[0];
    if m < 0 {
      NatTextIsUnique(-m, -n, x, y);
    } else {
      NatTextIsUnique(m, n, x, y);
    }
  }

  // ------------------------------------------------------------------ strings

  lemma CodeIsUnique(c: char, d: char, x: string, y: string)
    requires Code(c) + x == Code(d) + y
    ensures c == d && x == y
  {
    var s, t := Code(c) + x, Code(d) + y;
    assert s[0] == t[0];
    if Code(c)[0] == '\\' {
      assert s[1] == t[1];
      if Code(c)[1] == 'u' {
        assert s[4] == t[4] && s[5] == t[5];
        assert c as int / 16 == d as int / 16 && c as int % 16 == d as int % 16;
      }
    }
    assert x == s[|Code(c)|..] && y == t[|Code(d)|..];
  }

  lemma CodeIsNoQuote(c: char)
    ensures Code(c) != [] && Code(c)[0] != '"'
  {
  }

  /** A string's body and its end: a quote when nothing is left, else the first character's code, which is none. */
  lemma BodyStarts(s: string, x: string)
    ensures var t := Body(s) + ("\"" + x);
            && t != [] && (s == [] ==> t[0] == '"' && t[1..] == x)
            && (s != [] ==> t == Code(s[0]) + (Body(s[1..]) + ("\"" + x)) && t[0] != '"')
  {
    var q := "\"" + x;
    if s != [] {
      CodeIsNoQuote(s[0]);
      Assoc(Code(s[0]), Body(s[1..]), q);
    } else {
      assert Body(s) + q == q;
    }
  }

  lemma Assoc(a: string, b: string, c: string)
    ensures (a + b) + c == a + (b + c) && (a != [] ==> (a + (b + c))[0] == a[0])
  {
  }

  lemma {:induction false} BodyIsUnique(s: string, t: string, x: string, y: string)
    requires Body(s) + ("\"" + x) == Body(t) + ("\"" + y)
    ensures s == t && x == y
    decreases |s|
  {
    BodyStarts(s, x);
    BodyStarts(t, y);
    if s != [] {
      CodeIsUnique(s[0], t[0], Body(s[1..]) + ("\"" + x), Body(t[1..]) + ("\"" + y));
      BodyIsUnique(s[1..], t[1..], x, y);
      assert s == [s[0]] + s[1..] && t == [t[0]] + t[1..];
    }
  }

  lemma QuotedShape(s: string, x: string)
    ensures Quoted(s) + x == "\"" + (Body(s) + ("\"" + x))
  {
    Assoc("\"", Body(s), "\"");
    Assoc("\"", Body(s) + "\"", x);
    Assoc(Body(s), "\"", x);
  }

  lemma QuotedIsUnique(s: string, t: string, x: string, y: string)
    requires Quoted(s) + x == Quoted(t) + y
    ensures s == t && x == y
  {
    QuotedShape(s, x);
    QuotedShape(t, y);
    SplitAt("\"", Body(s) + ("\"" + x), "\"", Body(t) + ("\"" + y));
    BodyIsUnique(s, t, x, y);
  }

  // ------------------------------------------------------------------ values

  /** The kinds of values start differently. */
  lemma TextStarts(v: Value)
    requires Encodable(v)
    ensures Text(v) != []
    ensures match v
            case Bool(b) => Text(v)[0] == if b then 't' else 'f'
            case Int(_) => Text(v)[0] == '-' || IsDigit(Text(v)[0])
            case Str(_) => Text(v)[0] == '"'
            case Arr(_) => Text(v)[0] == '['
            case Obj(_) => Text(v)[0] == '{'
            case Unsupported => true
  {
    if v.Int? {
      IntTextStarts(v.n, []);
    }
  }

  /**
    One value for every text: two values with the same text, whatever follows (short of another digit),
    are the same value followed by the same.
   */
  lemma {:induction false} TextIsUnique(v: Value, w: Value, x: string, y: string)
    requires Encodable(v) && Encodable(w) && Stops(x) && Stops(y) && Text(v) + x == Text(w) + y
    ensures v == w && x == y
    decreases v, 1, 0
  {
    TextStarts(v);
    TextStarts(w);
    assert (Text(v) + x)[0] == Text(v)[0] && (Text(w) + y)[0] == Text(w)[0];
    match v
    case Bool(b) => SplitAt(Text(v), x, Text(w), y);
    case Int(n) => IntTextIsUnique(n, w.n, x, y);
    case Str(s) => QuotedIsUnique(s, w.s, x, y);
    case Arr(xs) =>
      Inner("[", Items(v, 0), x, Items(w, 0), y);
      ItemsAreUnique(v, w, 0, x, y);
    case Obj(m) =>
      var ks, ls := Sorted(m.Keys), Sorted(w.m.Keys);
      KeysAreIn(m);
      KeysAreIn(w.m);
      Inner("{", Members(v, ks, 0), x, Members(w, ls, 0), y);
      MembersAreUnique(v, w, ks, ls, 0, x, y);
      SameMaps(m, w.m, ks, ls);
  }

  lemma Inner(open: string, a: string, x: string, b: string, y: string)
    requires (open + a) + x == (open + b) + y
    ensures a + x == b + y
  {
    Assoc(open, a, x);
    Assoc(open, b, y);
    SplitAt(open, a + x, open, b + y);
  }

  lemma KeysAreIn(m: map<string, Value>)
    ensures forall i :: 0 <= i < |Sorted(m.Keys)| ==> Sorted(m.Keys)[i] in m
  {
    var keys := Sorted(m.Keys);
    forall i | 0 <= i < |keys| ensures keys[i] in m {
      assert keys[i] in SetOf(keys);
    }
  }

  lemma SameMaps(m: map<string, Value>, n: map<string, Value>, ks: seq<string>, ls: seq<string>)
    requires ks == Sorted(m.Keys) && ls == Sorted(n.Keys) && ks == ls
    requires forall i :: 0 <= i < |ks| ==> ks[i] in m && ks[i] in n && m[ks[i]] == n[ks[i]]
    ensures m == n
  {
    assert m.Keys == SetOf(ks) == n.Keys;
    forall k | k in m ensures k in n && m[k] == n[k] {
      assert k in SetOf(ks);
    }
  }

  /** The elements end at the bracket, which no element and no separator is. */
  lemma {:induction false} ItemsAreUnique(v: Value, w: Value, i: nat, x: string, y: string)
    requires v.Arr? && w.Arr? && Encodable(v) && Encodable(w) && i <= |v.xs| && i <= |w.xs|
    requires Items(v, i) + x == Items(w, i) + y
    ensures |v.xs| == |w.xs| && x == y && forall j :: i <= j < |v.xs| ==> v.xs[j] == w.xs[j]
    decreases v, 0, |v.xs| - i
  {
    ItemsStart(v, i, x);
    ItemsStart(w, i, y);
    if i < |v.xs| {
      var a, b := Items(v, i + 1) + x, Items(w, i + 1) + y;
      SplitAt(Comma(i), Text(v.xs[i]) + a, Comma(i), Text(w.xs[i]) + b);
      TextIsUnique(v.xs[i], w.xs[i], a, b);
      ItemsAreUnique(v, w, i + 1, x, y);
    } else {
      SplitAt("]", x, "]", y);
    }
  }

  lemma ItemsStart(v: Value, i: nat, x: string)
    requires v.Arr? && Encodable(v) && i <= |v.xs|
    ensures var t := Items(v, i) + x;
            && t != [] && (i == |v.xs| <==> t[0] == ']')
            && (i < |v.xs| ==> t == Comma(i) + (Text(v.xs[i]) + (Items(v, i + 1) + x)) && Stops(Items(v, i + 1) + x))
  {
    if i < |v.xs| {
      TextStarts(v.xs[i]);
      Assoc(Comma(i), Text(v.xs[i]) + Items(v, i + 1), x);
      Assoc(Text(v.xs[i]), Items(v, i + 1), x);
      assert Items(v, i + 1)[0] == if i + 1 == |v.xs| then ']' else ',';
    }
  }

  /** The members end at the brace; each key is followed by its value. */
  lemma {:induction false} MembersAreUnique(v: Value, w: Value, ks: seq<string>, ls: seq<string>, i: nat, x: string,
      y: string)
    requires v.Obj? && w.Obj? && Encodable(v) && Encodable(w) && i <= |ks| && i <= |ls|
    requires (forall j :: 0 <= j < |ks| ==> ks[j] in v.m) && forall j :: 0 <= j < |ls| ==> ls[j] in w.m
    requires Members(v, ks, i) + x == Members(w, ls, i) + y
    ensures |ks| == |ls| && x == y && forall j :: i <= j < |ks| ==> ks[j] == ls[j] && v.m[ks[j]] == w.m[ls[j]]
    decreases v, 0, |ks| - i
  {
    MembersStart(v, ks, i, x);
    MembersStart(w, ls, i, y);
    if i < |ks| {
      var a, b := Members(v, ks, i + 1) + x, Members(w, ls, i + 1) + y;
      var p, q := v.m[ks[i]], w.m[ls[i]];
      SplitMember(Comma(i), ks[i], Text(p) + a, ls[i], Text(q) + b);
      TextIsUnique(p, q, a, b);
      MembersAreUnique(v, w, ks, ls, i + 1, x, y);
    } else {
      SplitAt("}", x, "}", y);
    }
  }

  /** Two members with the same separator have the same key, and then the same text follows. */
  lemma SplitMember(comma: string, k: string, x: string, l: string, y: string)
    requires comma + (Quoted(k) + (":" + x)) == comma + (Quoted(l) + (":" + y))
    ensures k == l && x == y
  {
    SplitAt(comma, Quoted(k) + (":" + x), comma, Quoted(l) + (":" + y));
    QuotedIsUnique(k, l, ":" + x, ":" + y);
    SplitAt(":", x, ":", y);
  }

  lemma MembersStart(v: Value, keys: seq<string>, i: nat, x: string)
    requires v.Obj? && Encodable(v) && i <= |keys| && forall j :: 0 <= j < |keys| ==> keys[j] in v.m
    ensures var t := Members(v, keys, i) + x;
            && t != [] && (i == |keys| <==> t[0] == '}')
            && (i < |keys| ==>
                  && t == Comma(i) + (Quoted(keys[i]) + (":" + (Text(v.m[keys[i]]) + (Members(v, keys, i + 1) + x))))
                               && Stops(Members(v, keys, i + 1) + x))
  {
    if i < |keys| {
      var text, rest := Text(v.m[keys[i]]), Members(v, keys, i + 1);
      Assoc(Comma(i), Quoted(keys[i]) + (":" + (text + rest)), x);
      Assoc(Quoted(keys[i]), ":" + (text + rest), x);
      Assoc(":", text + rest, x);
      Assoc(text, rest, x);
      assert rest[0] == if i + 1 == |keys| then '}' else ',';
    }
  }

  /** The encoding is injective. */
  lemma TextIsInjective(v: Value, w: Value)
    requires Encodable(v) && Encodable(w) && Text(v) == Text(w)
    ensures v == w
  {
    assert Text(v) + [] == Text(v) && Text(w) + [] == Text(w);
    TextIsUnique(v, w, [], []);
  }

  // ------------------------------------------------------------------ sets

  ghost function Texts(vs: seq<Value>): seq<string> {
    seq(|vs|, i requires 0 <= i < |vs| => Text(vs[i]))
  }

  /** The elements in the order of their texts, each once. */
  ghost predicate IsSortedSet(items: seq<Value>, out: seq<Value>) {
    Ascending(Texts(out)) && forall v :: v in out <==> v in items
  }

  /** What is returned depends only on which elements there are: not on their order or how often each is given. */
  lemma SortedSetIsUnique(a: seq<Value>, b: seq<Value>, out: seq<Value>, also: seq<Value>)
    requires (forall v :: v in a ==> Encodable(v)) && (forall v :: v in a <==> v in b) && IsSortedSet(a, out)
        && IsSortedSet(b, also)
    ensures out == also
  {
    SameTexts(out, also);
    SameTexts(also, out);
    AscendingIsUnique(Texts(out), Texts(also));
    assert |out| == |Texts(out)| == |also|;
    forall i | 0 <= i < |out| ensures out[i] == also[i] {
      assert Texts(out)[i] == Texts(also)[i] && out[i] in out && also[i] in also;
      TextIsInjective(out[i], also[i]);
    }
  }

  lemma SameTexts(a: seq<Value>, b: seq<Value>)
    requires forall v :: v in a <==> v in b
    ensures SetOf(Texts(a)) == SetOf(Texts(b))
  {
    forall t | t in Texts(a) ensures t in Texts(b) {
      var i :| 0 <= i < |a| && Texts(a)[i] == t;
      assert a[i] in b;
      var j :| 0 <= j < |b| && b[j] == a[i];
      assert Texts(b)[j] == t;
    }
    forall t | t in Texts(b) ensures t in Texts(a) {
      var i :| 0 <= i < |b| && Texts(b)[i] == t;
      assert b[i] in a;
      var j :| 0 <= j < |a| && a[j] == b[i];
      assert Texts(a)[j] == t;
    }
  }

  /** Sorting a sorted set again changes nothing. */
  lemma SortedSetIsIdempotent(items: seq<Value>, out: seq<Value>, again: seq<Value>)
    requires (forall v :: v in items ==> Encodable(v)) && IsSortedSet(items, out) && IsSortedSet(out, again)
    ensures again == out
  {
    SortedSetIsUnique(items, items, out, again);
  }
}
