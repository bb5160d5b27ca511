/** The transport's operations on one durable as they run, under its lock (events/memory.go). */
module MemoryTransport {
  import opened Base
  import opened Durable

  class Memory {
    const d: Spec
    var log: seq<Message>
    var seen: set<string>
    var cursor: nat
    var ready: seq<nat>
    var inflight: set<nat>
    var items: map<nat, Item>
    ghost var sent: seq<Sent>

    ghost function Model(): State
      reads this
    {
      State(log, seen, cursor, ready, inflight, items, sent)
    }

    constructor (d: Spec)
      ensures this.d == d && Model() == Init()
    {
      this.d := d;
      log, seen, cursor, ready, inflight, items, sent := [], {}, 0, [], {}, map[], [];
    }

    method FillUp()
      requires cursor <= |log|
      modifies this`cursor, this`ready, this`items
      ensures Model() == Fill(old(Model()), d) && cursor == |log|
    {
      while cursor < |log|
        invariant cursor <= |log| && Fill(Model(), d) == Fill(old(Model()), d)
      {
        ghost var before := Model();
        if d.matches(log[cursor].subject) {
          ready := ready + [cursor];
          items := items[cursor := Item(0, 0, 0)];
        }
        cursor := cursor + 1;
        assert Model() == Consider(before, d);
      }
    }

    method PublishMessage(m: Message)
      requires cursor <= |log|
      modifies this
      ensures Model() == Do(old(Model()), d, DoPublish(m)) && cursor <= |log|
    {
      if m.id != "" {
        if m.id in seen {
          return;
        }
        seen := seen + {m.id};
      }
      log := log + [m];
      FillUp();
    }

    /** The items in flight past their deadline go back, in any order. */
    method TakeBackExpired(now: int) returns (ghost expired: seq<nat>)
      requires forall p :: p in inflight ==> p in items
      modifies this`ready, this`inflight, this`items
      ensures AreExpired(old(Model()), expired, now) && KnownAll(old(Model()), expired)
          && Model() == Expire(old(Model()), d, expired, now)
    {
      expired := [];
      var rest := inflight;
      while rest != {}
        invariant rest <= old(inflight) && items.Keys == old(items.Keys)
        invariant Distinct(expired) && KnownAll(old(Model()), expired)
            && Model() == Expire(old(Model()), d, expired, now)
        invariant forall p :: p in expired ==> p in old(inflight) && p !in rest && now > old(items)[p].deadline
        invariant forall p :: p in old(inflight) && p !in rest && now > old(items)[p].deadline ==> p in expired
        invariant forall p :: p in rest ==> items[p] == old(items)[p]
        decreases rest
      {
        var p :| p in rest;
        rest := rest - {p};
        if now > items[p].deadline {
          ghost var before := expired;
          expired := expired + [p];
          assert expired[..|expired| - 1] == before;
          inflight := inflight - {p};
          if items[p].attempt < d.maxDeliver {
            items := items[p := items[p].(notBefore := now)];
            ready := ready + [p];
          }
        }
      }
    }

    method Earliest() returns (first: nat)
      requires ready != []
      ensures first == EarliestOf(ready)
    {
      first := 0;
      assert ready[..1] == [ready[0]];
      for i := 1 to |ready|
        invariant first == EarliestOf(ready[..i]) && first < i
      {
        assert ready[..i + 1][..i] == ready[..i];
        if ready[i] < ready[first] {
          first := i;
        }
      }
      assert ready[..|ready|] == ready;
    }

    /** next, after the expired went back: which queue entry is handed out. */
    method Choose(now: int) returns (c: Option<nat>)
      requires forall i :: 0 <= i < |ready| ==> ready[i] in items
      ensures c == Choice(Model(), d, now)
    {
      if d.ordered {
        if inflight != {} || ready == [] {
          return None;
        }
        var first := Earliest();
        if items[ready[first]].notBefore > now {
          return None;
        }
        return Some(first);
      }
      for i := 0 to |ready|
        invariant FirstDue(Model(), now, 0) == FirstDue(Model(), now, i)
      {
        if items[ready[i]].notBefore <= now {
          return Some(i);
        }
      }
      c := None;
    }

    method HandOut(i: nat, now: int) returns (p: nat)
      requires i < |ready| && ready[i] in items
      modifies this
      ensures Model() == Deliver(old(Model()), d, i, now) && p == old(ready[i])
    {
      p := ready[i];
      ready := ready[..i] + ready[i + 1..];
      items := items[p := items[p].(attempt := items[p].attempt + 1, deadline := now + d.ackWait)];
      inflight := inflight + {p};
      sent := sent + [Sent(p, items[p].attempt)];
    }

    /** next: the delivery handed to a worker, if there is one. */
    method NextItem(now: int) returns (p: Option<nat>, ghost expired: seq<nat>)
      requires Inv(Model(), d)
      modifies this
      ensures Enabled(old(Model()), DoNext(expired, now)) && Model() == Do(old(Model()), d, DoNext(expired, now))
      ensures p.Some? ==> p.value in items && Current(Model(), p.value, items[p.value].attempt)
      ensures sent == old(sent) + if p.Some? then [Sent(p.value, items[p.value].attempt)] else []
    {
      expired := TakeBackExpired(now);
      ExpireKeeps(old(Model()), d, expired, now);
      var c := Choose(now);
      ChoiceIs(Model(), d, now);
      if c.None? {
        return None, expired;
      }
      var it := HandOut(c.value, now);
      p := Some(it);
    }

    /** A worker's outcome of its delivery. */
    method Finish(p: nat, attempt: nat, out: Outcome, now: int)
      modifies this
      ensures Model() == Settle(old(Model()), d, p, attempt, out, now)
    {
      if p in inflight && p in items && items[p].attempt == attempt {
        inflight := inflight - {p};
        if out == Nak && items[p].attempt < d.maxDeliver {
          items := items[p := items[p].(notBefore := now + d.backoff(attempt))];
          ready := ready + [p];
        }
      }
    }
  }
}
