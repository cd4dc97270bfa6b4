/** Folding events into one another: what a group counts and spans, and what becomes of the total. */
module EventGroups {
  import opened Options

  datatype Kind = Connected | Disconnected | Error
  datatype Related = Related(kind: Kind, level: string, count: nat)

  datatype Event = Event(
    sampledAt: int, kind: Kind, reason: string, level: string,
    count: nat, first: int, last: int, related: seq<Related>)

  const WINDOW_MS := 1000

  predicate Near(a: Event, b: Event) {
    -WINDOW_MS <= a.sampledAt - b.sampledAt <= WINDOW_MS
  }

  /** For each event, the one it folds into, if any. */
  type Plan = seq<Option<nat>>

  predicate Fits(events: seq<Event>, plan: Plan) {
    && |plan| == |events|
    && forall i | 0 <= i < |plan| && plan[i].Some? :: plan[i].value < |events|
  }

  // ---------------------------------------------------------------- folding

  function Counted(related: seq<Related>, kind: Kind, level: string): seq<Related> {
    if related == [] then [Related(kind, level, 1)]
    else if related[0].kind == kind && related[0].level == level
    then [related[0].(count := related[0].count + 1)] + related[1..]
    else [related[0]] + Counted(related[1..], kind, level)
  }

  function Min(a: int, b: int): int { if a < b then a else b }
  function Max(a: int, b: int): int { if a < b then b else a }

  /** A disconnect that takes in a stream error. */
  function Added(e: Event, other: Event): Event {
    var first, last := if e.count == 1 then e.sampledAt else e.first, if e.count == 1 then e.sampledAt else e.last;
    e.(count := e.count + 1, first := Min(first, other.sampledAt), last := Max(last, other.sampledAt),
       related := Counted(e.related, other.kind, other.level))
  }

  /** The events after the first of them have been folded. */
  function Folded(events: seq<Event>, plan: Plan, n: nat): (r: seq<Event>)
    requires Fits(events, plan) && n <= |plan|
    ensures |r| == |events|
  {
    if n == 0 then events
    else
      var before := Folded(events, plan, n - 1);
      match plan[n - 1]
      case None => before
      case Some(c) => before[c := Added(before[c], before[n - 1])]
  }

  /** The events that are not folded, in their order. */
  function Survivors(plan: Plan, n: nat): (kept: seq<nat>)
    requires n <= |plan|
    ensures forall k | 0 <= k < |kept| :: kept[k] < n && plan[kept[k]].None?
    ensures forall a, b | 0 <= a < b < |kept| :: kept[a] < kept[b]
  {
    if n == 0 then []
    else Survivors(plan, n - 1) + (if plan[n - 1].None? then [n - 1] else [])
  }

  function Groups(events: seq<Event>, plan: Plan): seq<Event>
    requires Fits(events, plan)
  {
    var kept, folded := Survivors(plan, |plan|), Folded(events, plan, |plan|);
    seq(|kept|, k requires 0 <= k < |kept| => folded[kept[k]])
  }

  // ---------------------------------------------------------------- what a group holds

  /** As the journal reader makes them: one event each, with nothing related. */
  predicate Fresh(events: seq<Event>) {
    forall i | 0 <= i < |events| :: events[i].count == 1 && events[i].related == []
  }

  /** How many of the first events fold into one. */
  function Folds(plan: Plan, n: nat, k: nat): nat
    requires n <= |plan|
  {
    if n == 0 then 0 else Folds(plan, n - 1, k) + (if plan[n - 1] == Some(k) then 1 else 0)
  }

  /** How many of those have a kind and level. */
  function FoldsOf(events: seq<Event>, plan: Plan, n: nat, k: nat, kind: Kind, level: string): nat
    requires |events| == |plan| && n <= |plan|
  {
    if n == 0 then 0
    else
      var e := events[n - 1];
      FoldsOf(events, plan, n - 1, k, kind, level)
      + (if plan[n - 1] == Some(k) && e.kind == kind && e.level == level then 1 else 0)
  }

  function RelatedCount(related: seq<Related>, kind: Kind, level: string): nat {
    if related == [] then 0
    else (if related[0].kind == kind && related[0].level == level then related[0].count else 0)
         + RelatedCount(related[1..], kind, level)
  }

  function RelatedTotal(related: seq<Related>): nat {
    if related == [] then 0 else related[0].count + RelatedTotal(related[1..])
  }

  predicate DistinctRelated(related: seq<Related>) {
    forall a, b | 0 <= a < b < |related| :: related[a].kind != related[b].kind || related[a].level != related[b].level
  }

  lemma {:induction false} CountedOne(related: seq<Related>, kind: Kind, level: string, k: Kind, l: string)
    ensures RelatedCount(Counted(related, kind, level), k, l) ==
            RelatedCount(related, k, l) + (if k == kind && l == level then 1 else 0)
    ensures RelatedTotal(Counted(related, kind, level)) == RelatedTotal(related) + 1
  {
    if related != [] {
      CountedOne(related[1..], kind, level, k, l);
    }
  }

  lemma {:induction false} CountedDistinct(related: seq<Related>, kind: Kind, level: string)
    requires DistinctRelated(related)
    ensures DistinctRelated(Counted(related, kind, level))
    ensures forall a | 0 <= a < |Counted(related, kind, level)| ::
      var x := Counted(related, kind, level)[a];
      (x.kind == kind && x.level == level) || exists b :: 0 <= b < |related| && related[b].kind == x.kind && related[b].level == x.level
  {
    if related != [] {
      CountedDistinct(related[1..], kind, level);
      var rest := Counted(related[1..], kind, level);
      if !(related[0].kind == kind && related[0].level == level) {
        forall a | 0 <= a < |rest|
          ensures (rest[a].kind == kind && rest[a].level == level)
               || exists b :: 0 <= b < |related| && related[b].kind == rest[a].kind && related[b].level == rest[a].level {
          if b :| 0 <= b < |related[1..]| && related[1..][b].kind == rest[a].kind && related[1..][b].level == rest[a].level {
            assert related[b + 1] == related[1..][b];
          }
        }
        forall a | 0 <= a < |rest| ensures rest[a].kind != related[0].kind || rest[a].level != related[0].level {
          if b :| 0 <= b < |related[1..]| && related[1..][b].kind == rest[a].kind && related[1..][b].level == rest[a].level {
            assert related[b + 1] == related[1..][b];
          }
        }
      }
    }
  }

  /** Folding changes only the count, the span and the related events. */
  predicate SameOrigin(e: Event, o: Event) {
    e.sampledAt == o.sampledAt && e.kind == o.kind && e.reason == o.reason && e.level == o.level
  }

  lemma {:induction false} FoldedOrigin(events: seq<Event>, plan: Plan, n: nat, k: nat)
    requires Fits(events, plan) && n <= |plan| && k < |plan|
    ensures SameOrigin(Folded(events, plan, n)[k], events[k])
    ensures Folds(plan, n, k) == 0 ==> Folded(events, plan, n)[k] == events[k]
  {
    if n > 0 {
      FoldedOrigin(events, plan, n - 1, k);
    }
  }

  /** A group counts its disconnect and everything folded into it, and its related events add up to
      what was folded. */
  lemma {:induction false} FoldedCounts(events: seq<Event>, plan: Plan, n: nat, k: nat)
    requires Fits(events, plan) && Fresh(events) && n <= |plan| && k < |plan|
    ensures var e := Folded(events, plan, n)[k];
      e.count == 1 + Folds(plan, n, k) && e.count == 1 + RelatedTotal(e.related) && DistinctRelated(e.related)
  {
    if n > 0 {
      FoldedCounts(events, plan, n - 1, k);
      var e, other := Folded(events, plan, n - 1)[k], Folded(events, plan, n - 1)[n - 1];
      CountedOne(e.related, other.kind, other.level, other.kind, other.level);
      CountedDistinct(e.related, other.kind, other.level);
    }
  }

  /** Kind by kind and level by level, the related events of a group are those folded into it. */
  lemma {:induction false} FoldedKinds(events: seq<Event>, plan: Plan, n: nat, k: nat, kind: Kind, level: string)
    requires Fits(events, plan) && Fresh(events) && n <= |plan| && k < |plan|
    ensures RelatedCount(Folded(events, plan, n)[k].related, kind, level) == FoldsOf(events, plan, n, k, kind, level)
  {
    if n > 0 {
      FoldedKinds(events, plan, n - 1, k, kind, level);
      FoldedOrigin(events, plan, n - 1, n - 1);
      var e, other := Folded(events, plan, n - 1)[k], Folded(events, plan, n - 1)[n - 1];
      CountedOne(e.related, other.kind, other.level, kind, level);
    }
  }

  /** The time is that of the event itself or of one folded into it. */
  predicate Member(events: seq<Event>, plan: Plan, n: nat, k: nat, time: int)
    requires |events| == |plan| && n <= |plan| && k < |plan|
  {
    || time == events[k].sampledAt
    || exists i :: 0 <= i < n && plan[i] == Some(k) && time == events[i].sampledAt
  }

  /** The span of a group that took something in: its ends are times of members, and every member lies
      within it. */
  ghost predicate Spans(events: seq<Event>, plan: Plan, n: nat, k: nat, e: Event)
    requires |events| == |plan| && n <= |plan| && k < |plan|
  {
    && Member(events, plan, n, k, e.first) && Member(events, plan, n, k, e.last)
    && e.first <= events[k].sampledAt <= e.last
    && forall i | 0 <= i < n && plan[i] == Some(k) :: e.first <= events[i].sampledAt <= e.last
  }

  lemma {:induction false} NoFolds(plan: Plan, n: nat, k: nat)
    requires n <= |plan| && Folds(plan, n, k) == 0
    ensures forall i | 0 <= i < n :: plan[i] != Some(k)
  {
    if n > 0 { NoFolds(plan, n - 1, k); }
  }

  lemma SpanStep(events: seq<Event>, plan: Plan, n: nat, k: nat, e: Event, other: Event)
    requires Fits(events, plan) && 0 < n <= |plan| && k < |plan|
    requires e.count == 1 + Folds(plan, n - 1, k) && e.sampledAt == events[k].sampledAt
    requires other.sampledAt == events[n - 1].sampledAt && plan[n - 1] == Some(k)
    requires Folds(plan, n - 1, k) > 0 ==> Spans(events, plan, n - 1, k, e)
    ensures Spans(events, plan, n, k, Added(e, other))
  {
    if e.count == 1 { NoFolds(plan, n - 1, k); }
    assert Member(events, plan, n, k, other.sampledAt);
  }

  lemma {:induction false} FoldedSpan(events: seq<Event>, plan: Plan, n: nat, k: nat)
    requires Fits(events, plan) && Fresh(events) && n <= |plan| && k < |plan|
    ensures Folds(plan, n, k) > 0 ==> Spans(events, plan, n, k, Folded(events, plan, n)[k])
  {
    if n > 0 {
      FoldedSpan(events, plan, n - 1, k);
      if plan[n - 1] == Some(k) {
        FoldedCounts(events, plan, n - 1, k);
        FoldedOrigin(events, plan, n - 1, k);
        FoldedOrigin(events, plan, n - 1, n - 1);
        SpanStep(events, plan, n, k, Folded(events, plan, n - 1)[k], Folded(events, plan, n - 1)[n - 1]);
      }
    }
  }

  // ---------------------------------------------------------------- conservation

  function Total(events: seq<Event>): nat {
    if events == [] then 0 else Total(events[..|events| - 1]) + events[|events| - 1].count
  }

  /** A fold is kept when the event it goes into is not folded itself. */
  predicate Kept(plan: Plan, i: nat)
    requires i < |plan|
  {
    plan[i].Some? && plan[i].value < |plan| ==> plan[plan[i].value].None?
  }

  function Lost(plan: Plan, n: nat): nat
    requires n <= |plan|
  {
    if n == 0 then 0 else Lost(plan, n - 1) + (if Kept(plan, n - 1) then 0 else 1)
  }

  /** What the survivors among the first events count, once the first `n` have been folded. */
  function Weight(plan: Plan, n: nat, upto: nat): nat
    requires n <= |plan| && upto <= |plan|
  {
    if upto == 0 then 0
    else Weight(plan, n, upto - 1) + (if plan[upto - 1].None? then 1 + Folds(plan, n, upto - 1) else 0)
  }

  lemma {:induction false} WeightStep(plan: Plan, n: nat, upto: nat)
    requires 0 < n <= |plan| && upto <= |plan|
    ensures var t := plan[n - 1];
      Weight(plan, n, upto) == Weight(plan, n - 1, upto) + (if t.Some? && t.value < upto && plan[t.value].None? then 1 else 0)
  {
    if upto > 0 { WeightStep(plan, n, upto - 1); }
  }

  lemma {:induction false} WeightStart(plan: Plan, upto: nat)
    requires upto <= |plan|
    ensures Weight(plan, 0, upto) == |Survivors(plan, upto)|
  {
    if upto > 0 { WeightStart(plan, upto - 1); }
  }

  lemma {:induction false} WeightAll(plan: Plan, n: nat)
    requires n <= |plan| && forall i | 0 <= i < |plan| && plan[i].Some? :: plan[i].value < |plan|
    ensures Weight(plan, n, |plan|) + Lost(plan, n) + |Survivors(plan, n)| == |Survivors(plan, |plan|)| + n
  {
    if n == 0 {
      WeightStart(plan, |plan|);
    } else {
      WeightAll(plan, n - 1);
      WeightStep(plan, n, |plan|);
    }
  }

  lemma {:induction false} TotalWeight(plan: Plan, groups: seq<Event>, upto: nat)
    requires upto <= |plan| && |groups| == |Survivors(plan, upto)|
    requires forall k | 0 <= k < |groups| :: groups[k].count == 1 + Folds(plan, |plan|, Survivors(plan, upto)[k])
    ensures Total(groups) == Weight(plan, |plan|, upto)
  {
    if upto > 0 {
      var kept := Survivors(plan, upto - 1);
      if plan[upto - 1].None? {
        assert forall k | 0 <= k < |kept| :: Survivors(plan, upto)[k] == kept[k];
        TotalWeight(plan, groups[..|kept|], upto - 1);
      } else {
        TotalWeight(plan, groups, upto - 1);
      }
    }
  }

  lemma {:induction false} LostNone(plan: Plan, n: nat)
    requires n <= |plan|
    ensures Lost(plan, n) == 0 <==> forall i | 0 <= i < n :: Kept(plan, i)
  {
    if n > 0 { LostNone(plan, n - 1); }
  }

  /** The counts of the groups, with the folds that were lost, add up to the events. */
  lemma Accounted(events: seq<Event>, plan: Plan)
    requires Fits(events, plan) && Fresh(events)
    ensures Total(Groups(events, plan)) + Lost(plan, |plan|) == |events|
  {
    var kept, groups := Survivors(plan, |plan|), Groups(events, plan);
    forall k | 0 <= k < |groups| ensures groups[k].count == 1 + Folds(plan, |plan|, kept[k]) {
      FoldedCounts(events, plan, |plan|, kept[k]);
    }
    TotalWeight(plan, groups, |plan|);
    WeightAll(plan, |plan|);
  }
}
