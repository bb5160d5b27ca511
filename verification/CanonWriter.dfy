/** The canonical encoding as it is written, piece by piece, into a buffer (canon/canon.go). */
module CanonWriter {
  import opened Base
  import opened Sorting
  import opened Canon

  class Buffer {
    var out: string

    constructor ()
      ensures out == []
    {
      out := [];
    }

    method Put(s: string)
      modifies this
      ensures out == old(out) + s
    {
      out := out + s;
    }

    method PutString(s: string)
      modifies this
      ensures out == old(out) + Quoted(s)
    {
      Put("\"");
      for i := 0 to |s|
        invariant out + (Body(s[i..]) + "\"") == old(out) + Quoted(s)
      {
        assert s[i..][1..] == s[i + 1..];
        ghost var was := out;
        Put(Code(s[i]));
        Assoc(was, Code(s[i]), Body(s[i + 1..]) + "\"");
        Assoc(Code(s[i]), Body(s[i + 1..]), "\"");
      }
      Put("\"");
    }

    /** encode: refuses what the encoding forbids, wherever it is; else writes the value's text. */
    method Write(v: Value) returns (ok: bool)
      modifies this
      ensures ok == Encodable(v) && (ok ==> out == old(out) + Text(v))
      decreases v, 1
    {
      match v
      case Unsupported => return false;
      case Bool(b) =>
        Put(if b then "true" else "false");
        return true;
      case Int(n) =>
        if n >= MAX_INT || n <= -MAX_INT {
          return false;
        }
        Put(IntText(n));
        return true;
      case Str(s) =>
        PutString(s);
        return true;
      case Arr(xs) => ok := WriteItems(v);
      case Obj(m) => ok := WriteMembers(v);
    }

    method WriteItems(v: Value) returns (ok: bool)
      requires v.Arr?
      modifies this
      ensures ok == Encodable(v) && (ok ==> out == old(out) + Text(v))
      decreases v, 0
    {
      Put("[");
      Assoc(old(out), "[", Items(v, 0));
      for i := 0 to |v.xs|
        invariant out + Items(v, i) == old(out) + Text(v) && forall j :: 0 <= j < i ==> Encodable(v.xs[j])
      {
        ghost var was := out;
        if i > 0 {
          Put(",");
        }
        ok := Write(v.xs[i]);
        if !ok {
          return;
        }
        OneMore(was, Comma(i), Text(v.xs[i]), Items(v, i + 1));
        assert out == was + Comma(i) + Text(v.xs[i]);
      }
      Put("]");
      ok := true;
    }

    method WriteMember(v: Value, keys: seq<string>, i: nat) returns (ok: bool)
      requires v.Obj? && i < |keys| && forall j :: 0 <= j < |keys| ==> keys[j] in v.m
      modifies this
      ensures ok == Encodable(v.m[keys[i]]) && (ok ==> out + Members(v, keys, i + 1) == old(out) + Members(v, keys, i))
      decreases v, 0, 0
    {
      if i > 0 {
        Put(",");
      }
      assert out == old(out) + Comma(i);
      PutString(keys[i]);
      Put(":");
      ok := Write(v.m[keys[i]]);
      if ok {
        ghost var k, text, rest := Quoted(keys[i]), Text(v.m[keys[i]]), Members(v, keys, i + 1);
        OneMore(old(out), Comma(i), k, ":" + (text + rest));
        OneMore(old(out) + Comma(i) + k, ":", text, rest);
      }
    }

    method WriteMembers(v: Value) returns (ok: bool)
      requires v.Obj?
      modifies this
      ensures ok == Encodable(v) && (ok ==> out == old(out) + Text(v))
      decreases v, 0, 1
    {
      var keys := Sort(v.m.Keys);
      KeysAreIn(v.m);
      Put("{");
      Assoc(old(out), "{", Members(v, keys, 0));
      for i := 0 to |keys|
        invariant out + Members(v, keys, i) == old(out) + Text(v) && forall j :: 0 <= j < i ==> Encodable(v.m[keys[j]])
      {
        ok := WriteMember(v, keys, i);
        if !ok {
          return;
        }
      }
      EveryMember(v, keys);
      Put("}");
      ok := true;
    }
  }

  lemma OneMore(was: string, comma: string, text: string, rest: string)
    ensures was + (comma + (text + rest)) == was + comma + text + rest
  {
  }

  lemma EveryMember(v: Value, keys: seq<string>)
    requires v.Obj? && keys == Sorted(v.m.Keys) && forall j :: 0 <= j < |keys| ==>
        keys[j] in v.m && Encodable(v.m[keys[j]])
    ensures Encodable(v)
  {
    forall k | k in v.m ensures Encodable(v.m[k]) {
      assert k in SetOf(keys);
    }
  }

  /** Encode: the text of a value, or a refusal. */
  method Encode(v: Value) returns (r: Option<string>)
    ensures r == if Encodable(v) then Some(Text(v)) else None
  {
    var b := new Buffer();
    var ok := b.Write(v);
    assert [] + Text(v) == Text(v);
    r := if ok then Some(b.out) else None;
  }

  /** SortedSet: the elements by their texts, the last of equal ones kept; refused when some element is. */
  method SortedSet(items: seq<Value>) returns (r: Option<seq<Value>>)
    ensures r.Some? <==> forall v :: v in items ==> Encodable(v)
    ensures r.Some? ==> IsSortedSet(items, r.value)
  {
    var seen: map<string, Value> := map[];
    for i := 0 to |items|
      invariant forall j :: 0 <= j < i ==> Encodable(items[j]) && Text(items[j]) in seen
      invariant forall t :: t in seen ==> seen[t] in items[..i] && Encodable(seen[t]) && Text(seen[t]) == t
    {
      var t := Encode(items[i]);
      if t.None? {
        return None;
      }
      seen := seen[t.value := items[i]];
      assert items[..i + 1] == items[..i] + [items[i]];
    }
    var keys := Sort(seen.Keys);
    var out: seq<Value> := [];
    for i := 0 to |keys|
      invariant |out| == i && forall j :: 0 <= j < i ==> keys[j] in seen && out[j] == seen[keys[j]]
    {
      assert keys[i] in SetOf(keys);
      out := out + [seen[keys[i]]];
    }
    assert Texts(out) == keys;
    SameElements(items, seen, keys, out);
    r := Some(out);
  }

  lemma SameElements(items: seq<Value>, seen: map<string, Value>, keys: seq<string>, out: seq<Value>)
    requires keys == Sorted(seen.Keys) && |out| == |keys| && forall j :: 0 <= j < |keys| ==>
        keys[j] in seen && out[j] == seen[keys[j]]
    requires forall j :: 0 <= j < |items| ==> Encodable(items[j]) && Text(items[j]) in seen
    requires forall t :: t in seen ==> seen[t] in items && Encodable(seen[t]) && Text(seen[t]) == t
    ensures forall v :: v in out <==> v in items
  {
    forall v | v in items ensures v in out {
      var t := Text(v);
      TextIsInjective(v, seen[t]);
      assert t in SetOf(keys);
      var j :| 0 <= j < |keys| && keys[j] == t;
      assert out[j] == v;
    }
  }
}
