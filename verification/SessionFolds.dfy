/** Which records fold, told of the records alone: times, addresses and the connects between them. */
module SessionFolds {
  import opened Options
  import opened EventGroups
  import opened SessionEvents

  /** No connect of the address after one of two places and up to the other. */
  ghost predicate Unbroken(records: seq<Record>, address: string, a: nat, b: nat)
    requires a < |records| && b < |records|
  {
    forall k | (a < k <= b) || (b < k <= a) :: !records[k].event.kind.Connected? || records[k].address != address
  }

  /** Record `c` is an idle disconnect of the same address, at most a second away, with no
      reconnect in between. */
  ghost predicate MayTake(records: seq<Record>, i: nat, c: nat)
    requires i < |records| && c < |records|
  {
    && records[c].event.kind.Disconnected? && records[c].event.reason == "idle_timeout"
    && records[c].address == records[i].address
    && -1000 <= records[i].event.sampledAt - records[c].event.sampledAt <= 1000
    && Unbroken(records, records[i].address, i, c)
  }

  lemma {:induction false} ConnectsBetween(records: seq<Record>, a: nat, b: nat, address: string)
    requires a <= b < |records|
    ensures Connects(records, a + 1, address) <= Connects(records, b + 1, address)
    ensures Connects(records, a + 1, address) == Connects(records, b + 1, address) <==> Unbroken(records, address, a, b)
    decreases b
  {
    if a < b {
      ConnectsBetween(records, a, b - 1, address);
      assert Unbroken(records, address, a, b) <==>
             Unbroken(records, address, a, b - 1) && (!records[b].event.kind.Connected? || records[b].address != address);
    }
  }

  lemma UnbrokenBoth(records: seq<Record>, address: string, a: nat, b: nat)
    requires a < |records| && b < |records|
    ensures Unbroken(records, address, a, b) <==> Unbroken(records, address, b, a)
  {
  }

  lemma MayTakeExact(records: seq<Record>, i: nat, c: nat)
    requires i < |records| && c < |records| && records[i].address != ""
    ensures Candidate(records, i, c) <==> MayTake(records, i, c)
  {
    var address := records[i].address;
    if records[c].address == address {
      if i <= c {
        ConnectsBetween(records, i, c, address);
      } else {
        ConnectsBetween(records, c, i, address);
        UnbrokenBoth(records, address, c, i);
      }
    }
  }

  /** A record folds into another if and only if it is the idle timeout of a stream with an address,
      and the other is the only idle disconnect of that address within a second of it, before or
      after, with no reconnect of the address in between. */
  lemma FoldExact(records: seq<Record>, i: nat, c: nat)
    requires i < |records| && c < |records|
    ensures Targets(records)[i] == Some(c) <==>
            && records[i].stream && records[i].event.reason == "idle_timeout" && records[i].address != ""
            && MayTake(records, i, c)
            && forall d | 0 <= d < |records| && MayTake(records, i, d) :: d == c
  {
    TargetsAt(records, i);
    TargetExact(records, i, c);
    if records[i].address != "" {
      forall d | 0 <= d < |records| ensures Candidate(records, i, d) <==> MayTake(records, i, d) {
        MayTakeExact(records, i, d);
      }
    }
  }

  // ---------------------------------------------------------------- what comes out

  lemma {:induction false} SurvivorsIn(plan: Plan, n: nat, k: nat)
    requires n <= |plan|
    ensures k in Survivors(plan, n) <==> k < n && plan[k].None?
  {
    if n > 0 { SurvivorsIn(plan, n - 1, k); }
  }

  /** The output has one event for each record that folds into none, in the order of the records, with
      the time, kind, reason and level of its record. */
  lemma OutputExact(records: seq<Record>)
    ensures var kept, out := Remaining(records), Grouped(records); (
      && |out| == |kept|
      && (forall k :: k in kept <==> 0 <= k < |records| && Targets(records)[k].None?)
      && (forall a, b | 0 <= a < b < |kept| :: kept[a] < kept[b])
      && (forall j | 0 <= j < |out| ::
            var e, o := out[j], records[kept[j]].event;
            e.sampledAt == o.sampledAt && e.kind == o.kind && e.reason == o.reason && e.level == o.level))
  {
    var plan := Targets(records);
    forall k: nat ensures k in Remaining(records) <==> k < |records| && plan[k].None? {
      SurvivorsIn(plan, |records|, k);
    }
    forall j | 0 <= j < |Grouped(records)|
      ensures SameOrigin(Grouped(records)[j], records[Remaining(records)[j]].event) {
      FoldedOrigin(Events(records), plan, |plan|, Remaining(records)[j]);
    }
  }

  // ---------------------------------------------------------------- the order of related events

  ghost predicate FoldsAs(events: seq<Event>, plan: Plan, i: nat, k: nat, kind: Kind, level: string)
    requires i < |plan| == |events|
  {
    plan[i] == Some(k) && events[i].kind == kind && events[i].level == level
  }

  ghost predicate Seen(events: seq<Event>, plan: Plan, n: nat, k: nat, x: Related)
    requires n <= |plan| == |events|
  {
    exists i :: 0 <= i < n && FoldsAs(events, plan, i, k, x.kind, x.level)
  }

  /** An event like `x` folded into the group before any like `y` did. */
  ghost predicate SeenFirst(events: seq<Event>, plan: Plan, n: nat, k: nat, x: Related, y: Related)
    requires n <= |plan| == |events|
  {
    exists i :: && 0 <= i < n && FoldsAs(events, plan, i, k, x.kind, x.level)
                && forall h | 0 <= h <= i :: !FoldsAs(events, plan, h, k, y.kind, y.level)
  }

  /** The related events stand for those that folded, in the order in which the first of each did. */
  ghost predicate InOrder(events: seq<Event>, plan: Plan, n: nat, k: nat, related: seq<Related>)
    requires n <= |plan| == |events|
  {
    && (forall a | 0 <= a < |related| :: Seen(events, plan, n, k, related[a]))
    && (forall i | 0 <= i < n && plan[i] == Some(k) :: Stands(related, events[i].kind, events[i].level))
    && (forall a, b | 0 <= a < b < |related| :: SeenFirst(events, plan, n, k, related[a], related[b]))
  }

  ghost predicate Stands(related: seq<Related>, kind: Kind, level: string) {
    exists a :: 0 <= a < |related| && related[a].kind == kind && related[a].level == level
  }

  /** The entries are kept in their places, and a new kind or level is added at the end. */
  ghost predicate Extends(before: seq<Related>, after: seq<Related>, kind: Kind, level: string) {
    && (after == before || Stands(after, kind, level))
    && |before| <= |after| <= |before| + 1
    && (forall a | 0 <= a < |before| :: after[a].kind == before[a].kind && after[a].level == before[a].level)
    && (|after| > |before| ==>
          after[|before|].kind == kind && after[|before|].level == level && !Stands(before, kind, level))
  }

  lemma {:induction false} CountedExtends(related: seq<Related>, kind: Kind, level: string)
    ensures Extends(related, Counted(related, kind, level), kind, level)
    ensures Stands(Counted(related, kind, level), kind, level)
  {
    if related == [] {
      assert Counted(related, kind, level)[0].kind == kind;
    } else {
      var rest, r := Counted(related[1..], kind, level), Counted(related, kind, level);
      CountedExtends(related[1..], kind, level);
      assert forall a | 0 < a < |related| :: related[a] == related[1..][a - 1];
      if related[0].kind == kind && related[0].level == level {
        assert r[0].kind == kind && r[0].level == level;
      } else {
        var a :| 0 <= a < |rest| && rest[a].kind == kind && rest[a].level == level;
        assert r[a + 1] == rest[a];
      }
    }
  }

  lemma SeenLater(events: seq<Event>, plan: Plan, n: nat, k: nat, x: Related, y: Related)
    requires 0 < n <= |plan| == |events|
    ensures Seen(events, plan, n - 1, k, x) ==> Seen(events, plan, n, k, x)
    ensures SeenFirst(events, plan, n - 1, k, x, y) ==> SeenFirst(events, plan, n, k, x, y)
  {
  }

  lemma NewIsLast(events: seq<Event>, plan: Plan, n: nat, k: nat, related: seq<Related>, a: nat, y: Related)
    requires 0 < n <= |plan| == |events| && InOrder(events, plan, n - 1, k, related)
    requires a < |related| && !Stands(related, y.kind, y.level)
    ensures SeenFirst(events, plan, n, k, related[a], y)
  {
    assert Seen(events, plan, n - 1, k, related[a]);
    var i :| 0 <= i < n - 1 && FoldsAs(events, plan, i, k, related[a].kind, related[a].level);
    forall h | 0 <= h <= i ensures !FoldsAs(events, plan, h, k, y.kind, y.level) {
      if plan[h] == Some(k) { assert Stands(related, events[h].kind, events[h].level); }
    }
  }

  lemma FoldInOrder(events: seq<Event>, plan: Plan, n: nat, k: nat, before: seq<Related>, after: seq<Related>)
    requires 0 < n <= |plan| == |events| && InOrder(events, plan, n - 1, k, before)
    requires plan[n - 1] == Some(k) && Stands(after, events[n - 1].kind, events[n - 1].level)
    requires Extends(before, after, events[n - 1].kind, events[n - 1].level)
    ensures InOrder(events, plan, n, k, after)
  {
    var e := events[n - 1];
    assert FoldsAs(events, plan, n - 1, k, e.kind, e.level);
    forall a | 0 <= a < |after| ensures Seen(events, plan, n, k, after[a]) {
      if a < |before| { SeenLater(events, plan, n, k, before[a], before[a]); }
    }
    forall i | 0 <= i < n && plan[i] == Some(k) ensures Stands(after, events[i].kind, events[i].level) {
      if i < n - 1 {
        assert Stands(before, events[i].kind, events[i].level);
        var a :| 0 <= a < |before| && before[a].kind == events[i].kind && before[a].level == events[i].level;
        assert after[a].kind == before[a].kind;
      }
    }
    forall a, b | 0 <= a < b < |after| ensures SeenFirst(events, plan, n, k, after[a], after[b]) {
      if b < |before| {
        SeenLater(events, plan, n, k, before[a], before[b]);
      } else {
        NewIsLast(events, plan, n, k, before, a, after[b]);
      }
    }
  }

  lemma OthersInOrder(events: seq<Event>, plan: Plan, n: nat, k: nat, related: seq<Related>)
    requires 0 < n <= |plan| == |events| && InOrder(events, plan, n - 1, k, related) && plan[n - 1] != Some(k)
    ensures InOrder(events, plan, n, k, related)
  {
    forall a, b | 0 <= a < |related| && 0 <= b < |related|
      ensures Seen(events, plan, n, k, related[a])
      ensures a < b ==> SeenFirst(events, plan, n, k, related[a], related[b]) {
      SeenLater(events, plan, n, k, related[a], related[b]);
    }
  }

  lemma FoldedRelated(events: seq<Event>, plan: Plan, n: nat, k: nat)
    requires Fits(events, plan) && 0 < n <= |plan| && k < |plan|
    ensures var before, e := Folded(events, plan, n - 1)[k].related, events[n - 1];
      Folded(events, plan, n)[k].related == if plan[n - 1] == Some(k) then Counted(before, e.kind, e.level) else before
  {
    FoldedOrigin(events, plan, n - 1, n - 1);
  }

  /** The related events of a group stand in the order in which they first folded into it, and there
      is one for every kind and level that did. */
  lemma {:induction false} RelatedOrder(events: seq<Event>, plan: Plan, n: nat, k: nat)
    requires Fits(events, plan) && Fresh(events) && n <= |plan| && k < |plan|
    ensures InOrder(events, plan, n, k, Folded(events, plan, n)[k].related)
  {
    if n > 0 {
      RelatedOrder(events, plan, n - 1, k);
      FoldedRelated(events, plan, n, k);
      var before := Folded(events, plan, n - 1)[k].related;
      if plan[n - 1] == Some(k) {
        var e := events[n - 1];
        CountedExtends(before, e.kind, e.level);
        FoldInOrder(events, plan, n, k, before, Counted(before, e.kind, e.level));
      } else {
        OthersInOrder(events, plan, n, k, before);
      }
    }
  }
}
