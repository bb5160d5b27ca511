/**
  The authorization view a component holds (authz/view.go): shards renewed by verification answers,
  lookups within a validity counted from the moment a request was sent, stalls, rollbacks and stops.
  Times are readings of the suspend-aware clock, in nanoseconds.
 */
module ViewHolder {
  import opened Base
  import Authz

  const SECOND := 1_000_000_000
  const INTERVAL := 2_500_000_000
  const T_STALL := 2_000_000_000

  /** W_read and W_high less the clock drift of one in a thousand. */
  const READ_VALIDITY := 29_970_000_000
  const HIGH_VALIDITY := 4_995_000_000

  function Validity(high: bool): int { if high then HIGH_VALIDITY else READ_VALIDITY }

  datatype Seg = Seg(resourceType: string, segment: Authz.Segment)

  datatype Entry = Entry(segments: seq<Seg>, disabled: bool, version: int)

  /** An epoch's text and the two integers read from it. */
  datatype Epoch = Epoch(text: string, generation: int, timeline: int)

  datatype Revision = Revision(domain: string, value: Option<int>, epoch: Epoch, instance: string)

  datatype View = View(revisions: seq<Revision>, applies: seq<string>, subjects: map<string, Entry>, digest: string)

  datatype Held = Held(view: View, sentAt: int, highAt: int, hasHigh: bool, stopped: bool, suspended: bool,
      sourceStale: bool)

  datatype Status = Unchanged | Changed | Closed | Unrecognized

  datatype ShardAnswer = ShardAnswer(shard: string, status: Status, view: Option<View>, readOnly: bool)

  datatype Answer = Answer(instance: string, shards: seq<ShardAnswer>, generation: int)

  type Shards = map<string, Held>

  type Definitions = map<string, Authz.Resource>

  // ------------------------------------------------------------------ adoption

  /** A segment is used when its resource is not this component's, or it fits the resource's definition. */
  predicate Usable(s: Seg, defs: Definitions) {
    s.resourceType in defs ==> Authz.Fits(s.segment, defs[s.resourceType])
  }

  function Keep(segs: seq<Seg>, defs: Definitions): seq<Seg> {
    if segs == [] then []
    else Keep(segs[..|segs| - 1], defs) + (if Usable(segs[|segs| - 1], defs) then [segs[|segs| - 1]] else [])
  }

  /** fitting: what is adopted of a view. */
  function Fitting(v: View, defs: Definitions): View {
    v.(subjects := map p | p in v.subjects :: v.subjects[p].(segments := Keep(v.subjects[p].segments, defs)))
  }

  /** Adoption only removes segments, and every one it keeps of a declared resource fits it. */
  lemma {:induction false} KeepIs(segs: seq<Seg>, defs: Definitions)
    ensures forall s :: s in Keep(segs, defs) <==> s in segs && Usable(s, defs)
  {
    if segs != [] {
      KeepIs(segs[..|segs| - 1], defs);
      assert segs == segs[..|segs| - 1] + [segs[|segs| - 1]];
    }
  }

  /** epochBefore and the values: the new revision is earlier than the held one of its domain. */
  predicate GoesBack(held: Revision, next: Revision) {
    held.domain == next.domain &&
    (|| next.epoch.generation < held.epoch.generation
     || (next.epoch.generation == held.epoch.generation && next.epoch.timeline < held.epoch.timeline)
     || (next.epoch.text == held.epoch.text && next.value.Some? && held.value.Some?
         && next.value.value < held.value.value))
  }

  predicate RevisionsGoBack(held: seq<Revision>, next: seq<Revision>) {
    exists i, j :: 0 <= i < |next| && 0 <= j < |held| && GoesBack(held[j], next[i])
  }

  // ------------------------------------------------------------------ the acceptance table

  /** What one shard's answer makes of it; None is a shard still not held. */
  function Renewed(was: Option<Held>, defs: Definitions, newer: bool, sent: int, a: ShardAnswer): Option<Held> {
    match a.status
    case Unchanged =>
      if was.Some? && !was.value.stopped then
        var h := was.value.(sentAt := sent, suspended := false, sourceStale := a.readOnly);
        Some(if a.readOnly then h else h.(highAt := sent, hasHigh := true))
      else was
    case Changed =>
      if a.view.None? || (was.Some? && was.value.stopped) then was
      else
        var v := Fitting(a.view.value, defs);
        if was.Some? && !newer && RevisionsGoBack(was.value.view.revisions, v.revisions)
            then Some(was.value.(stopped := true))
        else if a.readOnly && was.Some? then Some(Held(v, sent, was.value.highAt, was.value.hasHigh, false, false,
            true))
        else if a.readOnly then Some(Held(v, sent, 0, false, false, false, true))
        else Some(Held(v, sent, sent, true, false, false, false))
    case Closed => if was.Some? then Some(was.value.(sourceStale := true)) else was
    case Unrecognized => was
  }

  function HeldAt(shards: Shards, k: string): Option<Held> { if k in shards then Some(shards[k]) else None }

  function AnswerShard(shards: Shards, defs: Definitions, newer: bool, sent: int, a: ShardAnswer): Shards {
    var h := Renewed(HeldAt(shards, a.shard), defs, newer, sent, a);
    if h.None? then shards else shards[a.shard := h.value]
  }

  function AnswerShards(shards: Shards, defs: Definitions, newer: bool, sent: int, answers: seq<ShardAnswer>): Shards
    decreases |answers|
  {
    if answers == [] then shards
    else AnswerShard(AnswerShards(shards, defs, newer, sent, answers[..|answers| - 1]), defs, newer, sent,
        answers[|answers| - 1])
  }

  predicate Foreign(instance: string, ans: Answer) {
    || (instance != "" && ans.instance != instance)
    || exists i, j :: 0 <= i < |ans.shards| && ans.shards[i].view.Some? && 0 <= j < |ans.shards[i].view.value.revisions|
                      && ans.shards[i].view.value.revisions[j].instance != ans.instance
  }

  function Suspend(shards: Shards): Shards {
    map k | k in shards :: shards[k].(suspended := true)
  }

  /** What a holder remembers; pending is a verification under way, with the digests it names. */
  datatype State = State(shards: Shards, recovery: Option<int>, instance: string, lastTick: int, lastSkew: int,
                         pending: Option<Pending>, now: int)

  datatype Pending = Pending(held: map<string, string>, sent: Option<int>)

  predicate IsRollback(s: State, ans: Answer) {
    (s.recovery.Some? && ans.generation < s.recovery.value) || Foreign(s.instance, ans)
  }

  /** apply: a rollback of the whole answer, a higher recovery generation, then shard by shard. */
  function Apply(s: State, defs: Definitions, ans: Answer, sent: int): State {
    if IsRollback(s, ans) then s.(shards := Suspend(s.shards))
    else
      var newer := s.recovery.None? || ans.generation > s.recovery.value;
      s.(shards := AnswerShards(if newer then map[] else s.shards, defs, newer, sent, ans.shards),
         recovery := Some(ans.generation), instance := ans.instance)
  }

  predicate IsStall(s: State, now: int, wall: int) {
    s.lastTick != 0 && (now - s.lastTick > INTERVAL + T_STALL || wall - now - s.lastSkew > T_STALL
        || wall - now - s.lastSkew < -T_STALL)
  }

  // ------------------------------------------------------------------ runs

  /**
    A holder's steps: the loop's tick and rest; a verification that collects digests, leaves, and is
    answered or fails. Only one verification is under way at a time; ticks may fall anywhere. An answer
    says when the member computed it.
   */
  datatype Step = Tick(now: int, wall: int) | Rest(now: int, wall: int) | Ask | Leave(now: int)
                | Answered(ans: Answer, computed: int, now: int) | Failed

  predicate Enabled(s: State, step: Step) {
    match step
    case Tick(now, _) => now >= s.now
    case Rest(now, _) => now >= s.now
    case Ask => s.pending.None?
    case Leave(now) => s.pending.Some? && s.pending.value.sent.None? && now >= s.now
    case Answered(_, computed, now) => s.pending.Some? && s.pending.value.sent.Some?
        && s.pending.value.sent.value <= computed <= now && now >= s.now
    case Failed => s.pending.Some?
  }

  function Do(s: State, step: Step, defs: Definitions): State
    requires Enabled(s, step)
  {
    match step
    case Tick(now, wall) => s.(shards := if IsStall(s, now, wall) then map[]
        else s.shards, lastTick := now, lastSkew := wall - now, now := now)
    case Rest(now, wall) => s.(lastTick := now, lastSkew := wall - now, now := now)
    case Ask => s.(pending := Some(Pending(map k | k in s.shards :: s.shards[k].view.digest, None)))
    case Leave(now) => s.(pending := Some(s.pending.value.(sent := Some(now))), now := now)
    case Answered(ans, _, now) => Apply(s, defs, ans, s.pending.value.sent.value).(pending := None, now := now)
    case Failed => s.(pending := None)
  }

  predicate Runnable(s: State, steps: seq<Step>, defs: Definitions)
    decreases |steps|, 0
  {
    steps == [] || (Runnable(s, steps[..|steps| - 1], defs)
        && Enabled(From(s, steps[..|steps| - 1], defs), steps[|steps| - 1]))
  }

  function From(s: State, steps: seq<Step>, defs: Definitions): State
    requires Runnable(s, steps, defs)
    decreases |steps|, 1
  {
    if steps == [] then s else Do(From(s, steps[..|steps| - 1], defs), steps[|steps| - 1], defs)
  }

  function Init(now: int): State { State(map[], None, "", 0, 0, None, now) }

  // ------------------------------------------------------------------ a truthful member

  /** What the member's shards contain at each time. */
  type Truth = int -> map<string, View>

  /** A digest identifies a shard's content. */
  ghost predicate Identifies(truth: Truth) {
    forall t, u, k :: k in truth(t) && k in truth(u) && truth(t)[k].digest == truth(u)[k].digest ==>
        truth(t)[k] == truth(u)[k]
  }

  /** Every answer is computed from the member's content: a view is the shard's, and unchanged means its digest is. */
  predicate TrueShard(a: ShardAnswer, held: map<string, string>, content: map<string, View>) {
    && (a.view.Some? ==> a.shard in content && a.view.value == content[a.shard])
    && (a.status == Unchanged ==> a.shard in content && (a.shard in held ==> held[a.shard] == content[a.shard].digest))
  }

  ghost predicate TrueAnswer(s: State, step: Step, truth: Truth)
    requires Enabled(s, step)
  {
    step.Answered? ==> forall i :: 0 <= i < |step.ans.shards| ==>
        TrueShard(step.ans.shards[i], s.pending.value.held, truth(step.computed))
  }

  ghost predicate Truthful(s: State, steps: seq<Step>, defs: Definitions, truth: Truth)
    requires Runnable(s, steps, defs)
    decreases |steps|
  {
    steps == [] || (Truthful(s, steps[..|steps| - 1], defs, truth)
        && TrueAnswer(From(s, steps[..|steps| - 1], defs), steps[|steps| - 1], truth))
  }

  // ------------------------------------------------------------------ bounded staleness

  /** The held view is what the member had for the shard at t. */
  predicate HeldFrom(truth: Truth, defs: Definitions, k: string, view: View, t: int) {
    k in truth(t) && view == Fitting(truth(t)[k], defs)
  }

  /** What is held was the member's content at some time since the renewing request was sent. */
  ghost predicate Backed(truth: Truth, defs: Definitions, k: string, h: Held, now: int) {
    && h.sentAt <= now && (h.hasHigh ==> h.highAt <= h.sentAt)
    && exists t :: h.sentAt <= t <= now && HeldFrom(truth, defs, k, h.view, t)
  }

  ghost predicate AllBacked(truth: Truth, defs: Definitions, shards: Shards, now: int) {
    forall k :: k in shards ==> Backed(truth, defs, k, shards[k], now)
  }

  /** The shards are still those the pending request names, renewed before it left. */
  ghost predicate Named(s: State) {
    s.pending.Some? ==>
      && (forall k :: k in s.shards ==> k in s.pending.value.held && s.pending.value.held[k] == s.shards[k].view.digest)
      && (s.pending.value.sent.Some? ==> s.pending.value.sent.value <= s.now && forall k :: k in s.shards ==>
          s.shards[k].sentAt <= s.pending.value.sent.value)
  }

  ghost predicate Inv(s: State, truth: Truth, defs: Definitions) {
    AllBacked(truth, defs, s.shards, s.now) && Named(s)
  }

  /** While an answer is applied: a shard is still as named in the request, or from the answer's own content. */
  ghost predicate Applied(k: string, h: Held, held: map<string, string>, truth: Truth, defs: Definitions, sent: int,
      computed: int, now: int) {
    && Backed(truth, defs, k, h, now) && h.sentAt <= sent
    && ((k in held && held[k] == h.view.digest) || HeldFrom(truth, defs, k, h.view, computed))
  }

  ghost predicate Applying(shards: Shards, held: map<string, string>, truth: Truth, defs: Definitions, sent: int,
      computed: int, now: int) {
    forall k :: k in shards ==> Applied(k, shards[k], held, truth, defs, sent, computed, now)
  }

  lemma UnchangedKeeps(k: string, h: Held, held: map<string, string>, truth: Truth, defs: Definitions, sent: int,
      computed: int, now: int)
    requires Identifies(truth) && sent <= computed <= now && Applied(k, h, held, truth, defs, sent, computed, now)
    requires k in truth(computed) && (k in held ==> held[k] == truth(computed)[k].digest)
    ensures HeldFrom(truth, defs, k, h.view, computed)
  {
  }

  lemma SameViewKeeps(k: string, h: Held, next: Held, held: map<string, string>, truth: Truth, defs: Definitions,
      sent: int, computed: int, now: int)
    requires Applied(k, h, held, truth, defs, sent, computed, now)
    requires next.view == h.view && next.sentAt == h.sentAt && next.highAt == h.highAt && next.hasHigh == h.hasHigh
    ensures Applied(k, next, held, truth, defs, sent, computed, now)
  {
    var t :| h.sentAt <= t <= now && HeldFrom(truth, defs, k, h.view, t);
    assert HeldFrom(truth, defs, k, next.view, t);
  }

  lemma FreshKeeps(k: string, next: Held, held: map<string, string>, truth: Truth, defs: Definitions, sent: int,
      computed: int, now: int)
    requires sent <= computed <= now && HeldFrom(truth, defs, k, next.view, computed) && next.sentAt == sent
        && (next.hasHigh ==> next.highAt <= sent)
    ensures Applied(k, next, held, truth, defs, sent, computed, now)
  {
  }

  lemma RenewedKeeps(was: Option<Held>, defs: Definitions, newer: bool, sent: int, a: ShardAnswer, held: map<string,
      string>, truth: Truth, computed: int, now: int)
    requires Identifies(truth) && sent <= computed <= now && TrueShard(a, held, truth(computed))
    requires was.Some? ==> Applied(a.shard, was.value, held, truth, defs, sent, computed, now)
    ensures var next := Renewed(was, defs, newer, sent, a); next.Some? ==>
        Applied(a.shard, next.value, held, truth, defs, sent, computed, now)
  {
    var next := Renewed(was, defs, newer, sent, a);
    if next.Some? && next != was {
      if was.Some? && next.value.view == was.value.view && next.value.sentAt == was.value.sentAt
          && next.value.highAt == was.value.highAt && next.value.hasHigh == was.value.hasHigh {
        SameViewKeeps(a.shard, was.value, next.value, held, truth, defs, sent, computed, now);
      } else {
        if a.status == Unchanged {
          UnchangedKeeps(a.shard, was.value, held, truth, defs, sent, computed, now);
        }
        FreshKeeps(a.shard, next.value, held, truth, defs, sent, computed, now);
      }
    }
  }

  lemma ShardKeeps(shards: Shards, defs: Definitions, newer: bool, sent: int, a: ShardAnswer, held: map<string,
      string>, truth: Truth, computed: int, now: int)
    requires Identifies(truth) && sent <= computed <= now && TrueShard(a, held, truth(computed))
    requires Applying(shards, held, truth, defs, sent, computed, now)
    ensures Applying(AnswerShard(shards, defs, newer, sent, a), held, truth, defs, sent, computed, now)
  {
    RenewedKeeps(HeldAt(shards, a.shard), defs, newer, sent, a, held, truth, computed, now);
  }

  lemma {:induction false} ShardsKeep(shards: Shards, defs: Definitions, newer: bool, sent: int,
      answers: seq<ShardAnswer>, held: map<string, string>, truth: Truth, computed: int, now: int)
    requires Identifies(truth) && sent <= computed <= now
    requires forall i :: 0 <= i < |answers| ==> TrueShard(answers[i], held, truth(computed))
    requires Applying(shards, held, truth, defs, sent, computed, now)
    ensures Applying(AnswerShards(shards, defs, newer, sent, answers), held, truth, defs, sent, computed, now)
    decreases |answers|
  {
    if answers != [] {
      var n := |answers| - 1;
      ShardsKeep(shards, defs, newer, sent, answers[..n], held, truth, computed, now);
      ShardKeeps(AnswerShards(shards, defs, newer, sent, answers[..n]), defs, newer, sent, answers[n], held, truth,
          computed, now);
    }
  }

  lemma LaterIsBacked(truth: Truth, defs: Definitions, shards: Shards, now: int, later: int)
    requires AllBacked(truth, defs, shards, now) && now <= later
    ensures AllBacked(truth, defs, shards, later)
  {
    forall k | k in shards ensures Backed(truth, defs, k, shards[k], later) {
      var t :| shards[k].sentAt <= t <= now && HeldFrom(truth, defs, k, shards[k].view, t);
    }
  }

  lemma AnswerKeeps(s: State, ans: Answer, computed: int, now: int, truth: Truth, defs: Definitions)
    requires Identifies(truth) && Inv(s, truth, defs)
    requires Enabled(s, Answered(ans, computed, now)) && TrueAnswer(s, Answered(ans, computed, now), truth)
    ensures Inv(Do(s, Answered(ans, computed, now), defs), truth, defs)
  {
    var sent, held := s.pending.value.sent.value, s.pending.value.held;
    LaterIsBacked(truth, defs, s.shards, s.now, now);
    if IsRollback(s, ans) {
      forall k | k in s.shards ensures Backed(truth, defs, k, Suspend(s.shards)[k], now) {
        assert Backed(truth, defs, k, s.shards[k], now);
      }
    } else {
      var newer := s.recovery.None? || ans.generation > s.recovery.value;
      ShardsKeep(if newer then map[] else s.shards, defs, newer, sent, ans.shards, held, truth, computed, now);
    }
  }

  lemma StepKeeps(s: State, step: Step, truth: Truth, defs: Definitions)
    requires Identifies(truth) && Inv(s, truth, defs) && Enabled(s, step) && TrueAnswer(s, step, truth)
    ensures Inv(Do(s, step, defs), truth, defs)
  {
    match step
    case Answered(ans, computed, now) => AnswerKeeps(s, ans, computed, now, truth, defs);
    case Tick(now, _) => LaterIsBacked(truth, defs, s.shards, s.now, now);
    case Rest(now, _) => LaterIsBacked(truth, defs, s.shards, s.now, now);
    case Leave(now) => LaterIsBacked(truth, defs, s.shards, s.now, now);
    case _ =>
  }

  lemma {:induction false} EveryRunKeeps(s: State, steps: seq<Step>, truth: Truth, defs: Definitions)
    requires Identifies(truth) && Inv(s, truth, defs) && Runnable(s, steps, defs) && Truthful(s, steps, defs, truth)
    ensures Inv(From(s, steps, defs), truth, defs)
    decreases |steps|
  {
    if steps != [] {
      EveryRunKeeps(s, steps[..|steps| - 1], truth, defs);
      StepKeeps(From(s, steps[..|steps| - 1], defs), steps[|steps| - 1], truth, defs);
    }
  }

  // ------------------------------------------------------------------ lookups

  datatype Grant = Grant(segments: seq<Seg>, cutoff: int, version: int)

  function CountsFrom(h: Held, high: bool): int { if high then h.highAt else h.sentAt }

  /** A shard that may answer a lookup now. */
  predicate Valid(h: Held, resourceType: string, high: bool, now: int) {
    && !h.stopped && !h.suspended && resourceType in h.view.applies && (high ==> h.hasHigh)
    && now < CountsFrom(h, high) + Validity(high)
  }

  function Matching(segs: seq<Seg>, resourceType: string): seq<Seg> {
    if segs == [] then []
    else
      var last := segs[|segs| - 1];
      Matching(segs[..|segs| - 1], resourceType) + (if last.resourceType == ""
          || last.resourceType == resourceType then [last] else [])
  }

  lemma {:induction false} MatchingAre(segs: seq<Seg>, resourceType: string)
    ensures forall s :: s in Matching(segs, resourceType)
                        <==> s in segs && (s.resourceType == "" || s.resourceType == resourceType)
  {
    if segs != [] {
      MatchingAre(segs[..|segs| - 1], resourceType);
      assert segs == segs[..|segs| - 1] + [segs[|segs| - 1]];
    }
  }

  function EntryOf(v: View, principal: string): Entry {
    if principal in v.subjects then v.subjects[principal] else Entry([], false, 0)
  }

  /** The subject's segments for a resource type in a view; a disabled account has none. */
  function SegmentsFor(v: View, resourceType: string, principal: string): seq<Seg> {
    var e := EntryOf(v, principal);
    if e.disabled then [] else Matching(e.segments, resourceType)
  }

  function GrantOf(h: Held, resourceType: string, principal: string, high: bool): Grant {
    Grant(SegmentsFor(h.view, resourceType, principal), CountsFrom(h, high) + Validity(high),
        EntryOf(h.view, principal).version)
  }

  /** A shard gives a grant at a time. */
  predicate Gives(shards: Shards, k: string, resourceType: string, principal: string, high: bool, now: int, g: Grant) {
    k in shards && Valid(shards[k], resourceType, high, now) && g == GrantOf(shards[k], resourceType, principal, high)
  }

  /** The grant is the member's content at a time within the validity. */
  predicate GrantFrom(truth: Truth, defs: Definitions, k: string, t: int, g: Grant, resourceType: string,
      principal: string) {
    k in truth(t) && g.segments == SegmentsFor(Fitting(truth(t)[k], defs), resourceType, principal)
    && g.version == EntryOf(Fitting(truth(t)[k], defs), principal).version
  }

  /**
    Bounded staleness: after every run with a truthful member, whatever a lookup grants at a time is what
    the member had at some time less than the validity before; for high risk the validity is counted
    from the last renewal that was not read-only.
   */
  lemma GrantsAreFresh(start: int, steps: seq<Step>, truth: Truth, defs: Definitions, k: string, resourceType: string,
      principal: string, high: bool, now: int, g: Grant)
    requires Identifies(truth) && Runnable(Init(start), steps, defs) && Truthful(Init(start), steps, defs, truth)
    requires now >= From(Init(start), steps, defs).now
        && Gives(From(Init(start), steps, defs).shards, k, resourceType, principal, high, now, g)
    ensures exists t :: now - Validity(high) < t <= now && GrantFrom(truth, defs, k, t, g, resourceType, principal)
    ensures g.cutoff <= now + Validity(high)
  {
    EveryRunKeeps(Init(start), steps, truth, defs);
    var s := From(Init(start), steps, defs);
    var h := s.shards[k];
    assert Backed(truth, defs, k, h, s.now);
    var t :| h.sentAt <= t <= s.now && HeldFrom(truth, defs, k, h.view, t);
    assert GrantFrom(truth, defs, k, t, g, resourceType, principal);
  }

  lemma FittingOnlyRemoves(v: View, defs: Definitions, resourceType: string, principal: string, seg: Seg)
    requires seg in SegmentsFor(Fitting(v, defs), resourceType, principal)
    ensures seg in EntryOf(v, principal).segments && !EntryOf(v, principal).disabled && Usable(seg, defs)
  {
    var e := EntryOf(Fitting(v, defs), principal);
    MatchingAre(e.segments, resourceType);
    if principal in v.subjects {
      KeepIs(v.subjects[principal].segments, defs);
    }
  }

  /** A segment the member has had in no shard for the validity is granted by none: revocation takes hold within the
      bound. */
  lemma RevokedIsNotGranted(start: int, steps: seq<Step>, truth: Truth, defs: Definitions, k: string,
      resourceType: string, principal: string, high: bool, now: int, g: Grant, seg: Seg)
    requires Identifies(truth) && Runnable(Init(start), steps, defs) && Truthful(Init(start), steps, defs, truth)
    requires now >= From(Init(start), steps, defs).now
        && Gives(From(Init(start), steps, defs).shards, k, resourceType, principal, high, now, g)
    requires forall t :: now - Validity(high) < t <= now && k in truth(t)
                         ==> seg !in EntryOf(truth(t)[k], principal).segments
                             || EntryOf(truth(t)[k], principal).disabled
    ensures seg !in g.segments
  {
    GrantsAreFresh(start, steps, truth, defs, k, resourceType, principal, high, now, g);
    var t :| now - Validity(high) < t <= now && GrantFrom(truth, defs, k, t, g, resourceType, principal);
    if seg in g.segments {
      FittingOnlyRemoves(truth(t)[k], defs, resourceType, principal, seg);
    }
  }

  // ------------------------------------------------------------------ whatever the member answers

  /** The recovery generation never decreases, and a held instance never changes. */
  predicate Advances(a: State, b: State) {
    (a.recovery.Some? ==> b.recovery.Some? && a.recovery.value <= b.recovery.value)
        && (a.instance != "" ==> b.instance == a.instance)
  }

  lemma {:induction false} EveryRunAdvances(s: State, steps: seq<Step>, defs: Definitions)
    requires Runnable(s, steps, defs)
    ensures Advances(s, From(s, steps, defs)) && s.now <= From(s, steps, defs).now
    decreases |steps|
  {
    if steps != [] {
      EveryRunAdvances(s, steps[..|steps| - 1], defs);
    }
  }

  predicate IsStallStep(s: State, step: Step) {
    step.Tick? && IsStall(s, step.now, step.wall)
  }

  /** No tick of the run found a stall. */
  predicate NoStall(s: State, steps: seq<Step>, defs: Definitions)
    requires Runnable(s, steps, defs)
    decreases |steps|
  {
    steps == [] || (NoStall(s, steps[..|steps| - 1], defs)
        && !IsStallStep(From(s, steps[..|steps| - 1], defs), steps[|steps| - 1]))
  }

  predicate Stopped(shards: Shards, k: string) { k in shards && shards[k].stopped }

  lemma {:induction false} StoppedThroughAnswer(shards: Shards, defs: Definitions, sent: int,
      answers: seq<ShardAnswer>, k: string)
    requires Stopped(shards, k)
    ensures Stopped(AnswerShards(shards, defs, false, sent, answers), k)
    decreases |answers|
  {
    if answers != [] {
      StoppedThroughAnswer(shards, defs, sent, answers[..|answers| - 1], k);
    }
  }

  /** Under a higher recovery generation an answer stops nothing. */
  lemma {:induction false} NewerStopsNothing(shards: Shards, defs: Definitions, sent: int,
      answers: seq<ShardAnswer>, k: string)
    requires !Stopped(shards, k)
    ensures !Stopped(AnswerShards(shards, defs, true, sent, answers), k)
    decreases |answers|
  {
    if answers != [] {
      NewerStopsNothing(shards, defs, sent, answers[..|answers| - 1], k);
    }
  }

  /** A step leaves a shard stopped if and only if it is no stall and brings no higher recovery generation. */
  lemma StoppedStays(s: State, step: Step, defs: Definitions, k: string)
    requires Enabled(s, step) && s.recovery.Some? && Stopped(s.shards, k)
    ensures Stopped(Do(s, step, defs).shards, k)
            <==> !IsStallStep(s, step) && Do(s, step, defs).recovery == s.recovery
  {
    if step.Answered? && !IsRollback(s, step.ans) {
      var sent := s.pending.value.sent.value;
      if step.ans.generation == s.recovery.value {
        StoppedThroughAnswer(s.shards, defs, sent, step.ans.shards, k);
      } else {
        NewerStopsNothing(map[], defs, sent, step.ans.shards, k);
      }
    }
  }

  /** The shard is stopped at every point of the run. */
  predicate StoppedThroughout(s: State, steps: seq<Step>, defs: Definitions, k: string)
    requires Runnable(s, steps, defs)
    decreases |steps|
  {
    Stopped(From(s, steps, defs).shards, k)
    && (steps == [] || StoppedThroughout(s, steps[..|steps| - 1], defs, k))
  }

  /** A stop lasts through a run if and only if no tick of it found a stall and no higher recovery generation came. */
  lemma {:induction false} StopLastsExactly(s: State, steps: seq<Step>, defs: Definitions, k: string)
    requires Runnable(s, steps, defs) && s.recovery.Some? && Stopped(s.shards, k)
    ensures StoppedThroughout(s, steps, defs, k)
            <==> NoStall(s, steps, defs) && From(s, steps, defs).recovery == s.recovery
    decreases |steps|
  {
    if steps != [] {
      var front := steps[..|steps| - 1];
      var before := From(s, front, defs);
      EveryRunAdvances(s, front, defs);
      DoAdvances(before, steps[|steps| - 1], defs);
      StopLastsExactly(s, front, defs, k);
      if Stopped(before.shards, k) {
        StoppedStays(before, steps[|steps| - 1], defs, k);
      }
    }
  }

  /** A stopped shard stays stopped, and so gives no grant, until a higher recovery generation or a stall empties the
      holder. */
  lemma StoppedGivesNothing(s: State, steps: seq<Step>, defs: Definitions, k: string)
    requires Runnable(s, steps, defs) && s.recovery.Some? && Stopped(s.shards, k)
    requires NoStall(s, steps, defs) && From(s, steps, defs).recovery == s.recovery
    ensures Stopped(From(s, steps, defs).shards, k)
    ensures forall resourceType, principal, high, now, g ::
        !Gives(From(s, steps, defs).shards, k, resourceType, principal, high, now, g)
  {
    StopLastsExactly(s, steps, defs, k);
  }

  lemma RunMore(s: State, steps: seq<Step>, step: Step, defs: Definitions)
    requires Runnable(s, steps, defs) && Enabled(From(s, steps, defs), step)
    ensures Runnable(s, steps + [step], defs)
            && From(s, steps + [step], defs) == Do(From(s, steps, defs), step, defs)
  {
    assert (steps + [step])[..|steps|] == steps;
  }

  /** A verification sent and answered at t. */
  function Verified(ans: Answer, t: int): seq<Step> { [Ask, Leave(t), Answered(ans, t, t)] }

  lemma Asking(s: State, t: int, defs: Definitions)
    requires s.pending.None? && t >= s.now
    ensures Runnable(s, [Ask, Leave(t)], defs)
    ensures From(s, [Ask, Leave(t)], defs)
            == s.(pending := Some(Pending(map k | k in s.shards :: s.shards[k].view.digest, Some(t))), now := t)
  {
    RunMore(s, [], Ask, defs);
    assert [] + [Ask] == [Ask];
    RunMore(s, [Ask], Leave(t), defs);
    assert [Ask] + [Leave(t)] == [Ask, Leave(t)];
  }

  lemma Verifying(s: State, ans: Answer, t: int, defs: Definitions)
    requires s.pending.None? && t >= s.now
    ensures Runnable(s, Verified(ans, t), defs)
    ensures From(s, Verified(ans, t), defs) == Apply(s, defs, ans, t).(now := t)
  {
    Asking(s, t, defs);
    RunMore(s, [Ask, Leave(t)], Answered(ans, t, t), defs);
    assert [Ask, Leave(t)] + [Answered(ans, t, t)] == Verified(ans, t);
  }

  lemma {:induction false} RunOn(s: State, a: seq<Step>, b: seq<Step>, defs: Definitions)
    requires Runnable(s, a, defs) && Runnable(From(s, a, defs), b, defs)
    ensures Runnable(s, a + b, defs) && From(s, a + b, defs) == From(From(s, a, defs), b, defs)
    decreases |b|
  {
    if b == [] {
      assert a + b == a;
    } else {
      var n := |b| - 1;
      RunOn(s, a, b[..n], defs);
      RunMore(s, a + b[..n], b[n], defs);
      assert a + b == a + b[..n] + [b[n]];
    }
  }

  /** An answer with one changed view. */
  function OneChanged(instance: string, generation: int, k: string, view: View): Answer {
    Answer(instance, [ShardAnswer(k, Changed, Some(view), false)], generation)
  }

  predicate OfInstance(view: View, instance: string) {
    forall j :: 0 <= j < |view.revisions| ==> view.revisions[j].instance == instance
  }

  lemma OneAnswer(shards: Shards, defs: Definitions, newer: bool, sent: int, a: ShardAnswer)
    ensures AnswerShards(shards, defs, newer, sent, [a]) == AnswerShard(shards, defs, newer, sent, a)
  {
    assert [a][..0] == [];
  }

  /** What such an answer does when it is no rollback. */
  lemma OneApplied(s: State, defs: Definitions, instance: string, generation: int, k: string, view: View, sent: int)
    requires OfInstance(view, instance) && (s.instance == "" || s.instance == instance)
    requires s.recovery.Some? ==> s.recovery.value == generation
    ensures var a := Apply(s, defs, OneChanged(instance, generation, k, view), sent);
            a == s.(shards := AnswerShard(if s.recovery.None? then map[] else s.shards, defs, s.recovery.None?, sent,
                ShardAnswer(k, Changed, Some(view), false)), recovery := Some(generation), instance := instance)
  {
    var ans := OneChanged(instance, generation, k, view);
    OneAnswer(if s.recovery.None? then map[] else s.shards, defs, s.recovery.None?, sent, ans.shards[0]);
    assert !Foreign(s.instance, ans);
  }

  /** A tick at t, then a verification that brings the view under the generation and instance held. */
  function StallThenAnswer(s: State, k: string, view: View, t: int): seq<Step>
    requires s.recovery.Some?
  {
    [Tick(t, t)] + Verified(OneChanged(s.instance, s.recovery.value, k, view), t)
  }

  lemma Ticking(s: State, t: int, defs: Definitions)
    requires t >= s.now
    ensures Runnable(s, [Tick(t, t)], defs) && From(s, [Tick(t, t)], defs) == Do(s, Tick(t, t), defs)
  {
    RunMore(s, [], Tick(t, t), defs);
    assert [] + [Tick(t, t)] == [Tick(t, t)];
  }

  /**
    A stop does not last until a higher recovery generation: from every holder with a stopped shard, a tick too
    late and the next verification make it give a high-risk grant from any view, however far its revisions went
    back, under the same generation.
   */
  lemma StallEndsAStop(s: State, defs: Definitions, k: string, view: View, t: int, resourceType: string,
      principal: string)
    requires s.recovery.Some? && Stopped(s.shards, k) && s.pending.None? && s.lastTick != 0
    requires t >= s.now && t - s.lastTick > INTERVAL + T_STALL
    requires RevisionsGoBack(s.shards[k].view.revisions, view.revisions) && OfInstance(view, s.instance)
    requires resourceType in view.applies
    ensures Runnable(s, StallThenAnswer(s, k, view, t), defs)
    ensures var end := From(s, StallThenAnswer(s, k, view, t), defs);
            end.recovery == s.recovery && end.now == t
            && Gives(end.shards, k, resourceType, principal, true, t,
                Grant(SegmentsFor(Fitting(view, defs), resourceType, principal), t + HIGH_VALIDITY,
                    EntryOf(Fitting(view, defs), principal).version))
  {
    var ans := OneChanged(s.instance, s.recovery.value, k, view);
    var stalled := Do(s, Tick(t, t), defs);
    Ticking(s, t, defs);
    Verifying(stalled, ans, t, defs);
    RunOn(s, [Tick(t, t)], Verified(ans, t), defs);
    OneApplied(stalled, defs, s.instance, s.recovery.value, k, view, t);
  }

  /** A tick and two verifications at t, each bringing one view. */
  function StoppingRun(instance: string, generation: int, k: string, view: View, next: View, t: int): seq<Step> {
    [Tick(t, t)] + Verified(OneChanged(instance, generation, k, view), t)
        + Verified(OneChanged(instance, generation, k, next), t)
  }

  /** Such a holder is reached from every start, with any two views of which the second goes back. */
  lemma StopIsReached(start: int, defs: Definitions, instance: string, generation: int, k: string, view: View,
      next: View, t: int)
    requires t >= start && t != 0 && OfInstance(view, instance) && OfInstance(next, instance)
    requires RevisionsGoBack(view.revisions, next.revisions)
    ensures Runnable(Init(start), StoppingRun(instance, generation, k, view, next, t), defs)
    ensures var end := From(Init(start), StoppingRun(instance, generation, k, view, next, t), defs);
            end.recovery.Some? && Stopped(end.shards, k) && end.pending.None? && end.lastTick == t == end.now
            && end.shards[k].view.revisions == view.revisions && end.instance == instance
  {
    var first, second := OneChanged(instance, generation, k, view), OneChanged(instance, generation, k, next);
    var ticked := Do(Init(start), Tick(t, t), defs);
    Ticking(Init(start), t, defs);
    Verifying(ticked, first, t, defs);
    RunOn(Init(start), [Tick(t, t)], Verified(first, t), defs);
    OneApplied(ticked, defs, instance, generation, k, view, t);
    var held := Apply(ticked, defs, first, t).(now := t);
    Verifying(held, second, t, defs);
    RunOn(Init(start), [Tick(t, t)] + Verified(first, t), Verified(second, t), defs);
    OneApplied(held, defs, instance, generation, k, next, t);
  }

  lemma DoAdvances(s: State, step: Step, defs: Definitions)
    requires Enabled(s, step)
    ensures Advances(s, Do(s, step, defs))
  {
  }

  /** A shard whose revisions went back is stopped, and none is stopped otherwise, within one recovery generation. */
  lemma StopsExactly(shards: Shards, defs: Definitions, sent: int, a: ShardAnswer, k: string)
    requires k in shards && !shards[k].stopped
    ensures Stopped(AnswerShard(shards, defs, false, sent, a), k)
            <==> a.shard == k && a.status == Changed && a.view.Some?
                 && RevisionsGoBack(shards[k].view.revisions, a.view.value.revisions)
  {
  }

  /** After an answer that is a rollback, no shard gives a grant. */
  lemma RollbackGivesNothing(s: State, ans: Answer, computed: int, now: int, defs: Definitions)
    requires Enabled(s, Answered(ans, computed, now)) && IsRollback(s, ans)
    ensures forall k, resourceType, principal, high, at, g ::
        !Gives(Do(s, Answered(ans, computed, now), defs).shards, k, resourceType, principal, high, at, g)
  {
  }

  // ------------------------------------------------------------------ the holder

  method FindGoingBack(held: seq<Revision>, next: seq<Revision>) returns (back: bool)
    ensures back == RevisionsGoBack(held, next)
  {
    for i := 0 to |next|
      invariant forall x, y :: 0 <= x < i && 0 <= y < |held| ==> !GoesBack(held[y], next[x])
    {
      for j := 0 to |held|
        invariant forall y :: 0 <= y < j ==> !GoesBack(held[y], next[i])
      {
        if GoesBack(held[j], next[i]) {
          return true;
        }
      }
    }
    back := false;
  }

  method FindForeign(instance: string, ans: Answer) returns (foreign: bool)
    ensures foreign == Foreign(instance, ans)
  {
    foreign := instance != "" && ans.instance != instance;
    for i := 0 to |ans.shards|
      invariant foreign <==> (instance != "" && ans.instance != instance)
                             || exists x, y :: 0 <= x < i && ans.shards[x].view.Some?
                                 && 0 <= y < |ans.shards[x].view.value.revisions|
                                               && ans.shards[x].view.value.revisions[y].instance != ans.instance
    {
      if ans.shards[i].view.Some? {
        var revisions := ans.shards[i].view.value.revisions;
        ghost var was := foreign;
        for j := 0 to |revisions|
          invariant foreign <==> was || exists y :: 0 <= y < j && revisions[y].instance != ans.instance
        {
          foreign := foreign || revisions[j].instance != ans.instance;
        }
      }
    }
  }

  /** Holder: its methods change shards, generation, instance and ticks in place; times come from the caller. */
  class Holder {
    const defs: Definitions
    var shards: Shards
    var recovery: Option<int>
    var instance: string
    var lastTick: int
    var lastSkew: int

    /** The holder's state; a verification under way and the time are the run's. */
    ghost function Model(pending: Option<Pending>, now: int): State
      reads this
    {
      State(shards, recovery, instance, lastTick, lastSkew, pending, now)
    }

    constructor (defs: Definitions)
      ensures this.defs == defs && forall now :: Model(None, now) == Init(now)
    {
      this.defs := defs;
      shards, recovery, instance, lastTick, lastSkew := map[], None, "", 0, 0;
    }

    method Tick(now: int, wall: int)
      modifies this
      ensures forall p, t :: t <= now ==> Model(p, now) == Do(old(Model(p, t)), Step.Tick(now, wall), defs)
    {
      if lastTick != 0 {
        var gap, jump := now - lastTick, wall - now - lastSkew;
        if gap > INTERVAL + T_STALL || jump > T_STALL || jump < -T_STALL {
          shards := map[];
        }
      }
      lastTick, lastSkew := now, wall - now;
    }

    method Rest(now: int, wall: int)
      modifies this
      ensures forall p, t :: t <= now ==> Model(p, now) == Do(old(Model(p, t)), Step.Rest(now, wall), defs)
    {
      lastTick, lastSkew := now, wall - now;
    }

    /** apply, for an answer to the pending request. */
    method Accept(ans: Answer, computed: int, now: int, ghost held: map<string, string>, sent: int)
        returns (accepted: bool)
      requires sent <= computed <= now
      modifies this
      ensures forall t :: t <= now ==>
          Model(None, now) == Do(old(Model(Some(Pending(held, Some(sent))), t)), Answered(ans, computed, now), defs)
      ensures forall t :: accepted <==> !IsRollback(old(Model(None, t)), ans)
    {
      var foreign := FindForeign(instance, ans);
      if (recovery.Some? && ans.generation < recovery.value) || foreign {
        shards := map k | k in shards :: shards[k].(suspended := true);
        return false;
      }
      var newer := recovery.None? || ans.generation > recovery.value;
      if newer {
        shards := map[];
      }
      recovery, instance := Some(ans.generation), ans.instance;
      ghost var start := shards;
      for i := 0 to |ans.shards|
        invariant recovery == Some(ans.generation) && instance == ans.instance && lastTick == old(lastTick)
            && lastSkew == old(lastSkew)
        invariant shards == AnswerShards(start, defs, newer, sent, ans.shards[..i])
      {
        assert ans.shards[..i + 1][..i] == ans.shards[..i];
        AcceptShard(newer, sent, ans.shards[i]);
      }
      assert ans.shards[..|ans.shards|] == ans.shards;
      accepted := true;
    }

    method AcceptShard(newer: bool, sent: int, a: ShardAnswer)
      modifies this`shards
      ensures shards == AnswerShard(old(shards), defs, newer, sent, a)
    {
      var k := a.shard;
      var ok := k in shards;
      match a.status
      case Unchanged =>
        if ok && !shards[k].stopped {
          shards := shards[k := shards[k].(sentAt := sent, suspended := false, sourceStale := a.readOnly)];
          if !a.readOnly {
            shards := shards[k := shards[k].(highAt := sent, hasHigh := true)];
          }
        } else {
          assert ok ==> shards[k := shards[k]] == shards;
        }
      case Changed =>
        if a.view.None? || (ok && shards[k].stopped) {
          assert ok ==> shards[k := shards[k]] == shards;
          return;
        }
        var v := Fitting(a.view.value, defs);
        if ok && !newer {
          var back := FindGoingBack(shards[k].view.revisions, v.revisions);
          if back {
            shards := shards[k := shards[k].(stopped := true)];
            return;
          }
        }
        if a.readOnly && ok {
          shards := shards[k := Held(v, sent, shards[k].highAt, shards[k].hasHigh, false, false, true)];
        } else if a.readOnly {
          shards := shards[k := Held(v, sent, 0, false, false, false, true)];
        } else {
          shards := shards[k := Held(v, sent, sent, true, false, false, false)];
        }
      case Closed =>
        if ok {
          shards := shards[k := shards[k].(sourceStale := true)];
        }
      case Unrecognized =>
        assert ok ==> shards[k := shards[k]] == shards;
    }

    /** Lookup: the first valid shard met, in any order; none only when no shard is valid. */
    method Lookup(resourceType: string, principal: string, high: bool, now: int) returns (g: Option<Grant>)
      ensures g.Some? ==> exists k :: Gives(shards, k, resourceType, principal, high, now, g.value)
      ensures g.None? <==> forall k :: k in shards ==> !Valid(shards[k], resourceType, high, now)
    {
      var rest := shards.Keys;
      while rest != {}
        invariant rest <= shards.Keys && forall k :: k in shards && k !in rest ==>
            !Valid(shards[k], resourceType, high, now)
        decreases rest
      {
        var k :| k in rest;
        rest := rest - {k};
        var s := shards[k];
        var from := if high then s.highAt else s.sentAt;
        if !(s.stopped || s.suspended || resourceType !in s.view.applies || (high && !s.hasHigh)
            || now >= from + Validity(high)) {
          var e := EntryOf(s.view, principal);
          var segs := [];
          if !e.disabled {
            segs := Select(e.segments, resourceType);
          }
          g := Some(Grant(segs, from + Validity(high), e.version));
          assert Gives(shards, k, resourceType, principal, high, now, g.value);
          return;
        }
      }
      g := None;
    }
  }

  method Select(segs: seq<Seg>, resourceType: string) returns (out: seq<Seg>)
    ensures out == Matching(segs, resourceType)
  {
    out := [];
    for i := 0 to |segs|
      invariant out == Matching(segs[..i], resourceType)
    {
      assert segs[..i + 1][..i] == segs[..i];
      if segs[i].resourceType == "" || segs[i].resourceType == resourceType {
        out := out + [segs[i]];
      }
    }
    assert segs[..|segs|] == segs;
  }
}
