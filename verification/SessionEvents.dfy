/** Which session events belong together: a stream error is a consequence of the one idle disconnect
    of the same address and session within a second of it. */
module SessionEvents {
  import opened Options
  import opened EventGroups

  datatype Record = Record(event: Event, address: string, stream: bool)

  const IDLE := "idle_timeout"

  // ---------------------------------------------------------------- sessions

  /** Connects of an address among the first records. */
  function Connects(records: seq<Record>, n: nat, address: string): nat
    requires n <= |records|
  {
    if n == 0 then 0
    else Connects(records, n - 1, address)
         + (if records[n - 1].event.kind.Connected? && records[n - 1].address == address then 1 else 0)
  }

  /** A reconnect starts a new session of its address. */
  function Epoch(records: seq<Record>, i: nat): nat
    requires i < |records|
  {
    Connects(records, i + 1, records[i].address)
  }

  predicate IdleDisconnect(r: Record) {
    r.address != "" && r.event.kind.Disconnected? && r.event.reason == IDLE
  }

  predicate IdleStream(r: Record) {
    r.address != "" && r.stream && r.event.reason == IDLE
  }

  predicate SameSession(records: seq<Record>, i: nat, c: nat)
    requires i < |records| && c < |records|
  {
    records[c].address == records[i].address && Epoch(records, c) == Epoch(records, i)
  }

  predicate Candidate(records: seq<Record>, i: nat, c: nat)
    requires i < |records| && c < |records|
  {
    IdleDisconnect(records[c]) && SameSession(records, i, c) && Near(records[i].event, records[c].event)
  }

  /** The candidates among the first records. */
  function Candidates(records: seq<Record>, i: nat, n: nat): seq<nat>
    requires i < |records| && n <= |records|
  {
    if n == 0 then []
    else Candidates(records, i, n - 1) + (if Candidate(records, i, n - 1) then [n - 1] else [])
  }

  lemma {:induction false} CandidatesAre(records: seq<Record>, i: nat, n: nat)
    requires i < |records| && n <= |records|
    ensures var found := Candidates(records, i, n);
      && (forall c :: c in found <==> 0 <= c < n && Candidate(records, i, c))
      && (forall a, b | 0 <= a < b < |found| :: found[a] < found[b])
  {
    if n > 0 {
      CandidatesAre(records, i, n - 1);
      var before := Candidates(records, i, n - 1);
      assert forall a | 0 <= a < |before| :: before[a] in before;
    }
  }

  /** The disconnect a record folds into: an idle stream error has one if it has exactly one candidate. */
  function Target(records: seq<Record>, i: nat): (c: Option<nat>)
    requires i < |records|
    ensures c.Some? ==> c.value < |records|
  {
    CandidatesAre(records, i, |records|);
    var found := Candidates(records, i, |records|);
    if IdleStream(records[i]) && |found| == 1 then
      assert found[0] in found;
      Some(found[0])
    else None
  }

  lemma OneOnly(found: seq<nat>, c: nat)
    requires forall a, b | 0 <= a < b < |found| :: found[a] < found[b]
    ensures (c in found && forall d | d in found :: d == c) <==> found == [c]
  {
    if c in found && forall d | d in found :: d == c {
      AtMostOne(found, c);
    }
  }

  lemma AtMostOne(found: seq<nat>, c: nat)
    requires c in found && forall d | d in found :: d == c
    requires |found| > 1 ==> found[0] < found[1]
    ensures found == [c]
  {
    assert forall a | 0 <= a < |found| :: found[a] in found;
  }

  /** A record is folded into a disconnect if and only if it is an idle stream error and that is the
      only idle disconnect of its session within the window. */
  lemma TargetExact(records: seq<Record>, i: nat, c: nat)
    requires i < |records| && c < |records|
    ensures Target(records, i) == Some(c) <==>
            && IdleStream(records[i]) && Candidate(records, i, c)
            && forall d | 0 <= d < |records| && Candidate(records, i, d) :: d == c
  {
    CandidatesAre(records, i, |records|);
    OneOnly(Candidates(records, i, |records|), c);
  }

  function FirstTargets(records: seq<Record>, n: nat): (plan: Plan)
    requires n <= |records|
    ensures |plan| == n && forall i | 0 <= i < n && plan[i].Some? :: plan[i].value < |records|
  {
    if n == 0 then [] else FirstTargets(records, n - 1) + [Target(records, n - 1)]
  }

  /** What every record folds into. */
  function Targets(records: seq<Record>): (plan: Plan)
    ensures |plan| == |records| && forall i | 0 <= i < |plan| && plan[i].Some? :: plan[i].value < |records|
  {
    FirstTargets(records, |records|)
  }

  lemma {:induction false} FirstTargetsAt(records: seq<Record>, n: nat, i: nat)
    requires i < n <= |records|
    ensures FirstTargets(records, n)[i] == Target(records, i)
  {
    if i < n - 1 { FirstTargetsAt(records, n - 1, i); }
  }

  lemma TargetsAt(records: seq<Record>, i: nat)
    requires i < |records|
    ensures Targets(records)[i] == Target(records, i)
  {
    FirstTargetsAt(records, |records|, i);
  }

  function Events(records: seq<Record>): (r: seq<Event>)
    ensures |r| == |records| && forall i | 0 <= i < |records| :: r[i] == records[i].event
  {
    seq(|records|, i requires 0 <= i < |records| => records[i].event)
  }

  function Grouped(records: seq<Record>): seq<Event> {
    Groups(Events(records), Targets(records))
  }

  // ---------------------------------------------------------------- what the groups of records hold

  /** As the journal reader makes them: one event each, with nothing related. */
  predicate JustRead(records: seq<Record>) {
    Fresh(Events(records))
  }

  /** The disconnects and other records that stay, in their order. */
  function Remaining(records: seq<Record>): (kept: seq<nat>)
    ensures |kept| == |Grouped(records)| && forall k | 0 <= k < |kept| :: kept[k] < |records|
  {
    Survivors(Targets(records), |records|)
  }

  /** Each output event is one record that was not folded: untouched if nothing folded into it, and
      otherwise counting and spanning exactly what did, never more than the window either side. */
  lemma GroupExact(records: seq<Record>, j: nat)
    requires JustRead(records) && j < |Grouped(records)|
    ensures var k, e, plan := Remaining(records)[j], Grouped(records)[j], Targets(records);
      && plan[k].None? && SameOrigin(e, records[k].event)
      && e.count == 1 + Folds(plan, |plan|, k) && e.count == 1 + RelatedTotal(e.related) && DistinctRelated(e.related)
      && (e.count == 1 ==> e == records[k].event)
      && (e.count > 1 ==>
            && Spans(Events(records), plan, |plan|, k, e)
            && e.sampledAt - WINDOW_MS <= e.first <= e.sampledAt <= e.last <= e.sampledAt + WINDOW_MS)
  {
    var k, events, plan := Remaining(records)[j], Events(records), Targets(records);
    FoldedOrigin(events, plan, |plan|, k);
    FoldedCounts(events, plan, |plan|, k);
    FoldedSpan(events, plan, |plan|, k);
    var e := Grouped(records)[j];
    if e.count > 1 {
      MemberNear(records, k, e.first);
      MemberNear(records, k, e.last);
    }
  }

  lemma MemberNear(records: seq<Record>, k: nat, time: int)
    requires k < |records| && Member(Events(records), Targets(records), |records|, k, time)
    ensures records[k].event.sampledAt - WINDOW_MS <= time <= records[k].event.sampledAt + WINDOW_MS
  {
    if time != records[k].event.sampledAt {
      var i :| 0 <= i < |records| && Targets(records)[i] == Some(k) && time == Events(records)[i].sampledAt;
      TargetsAt(records, i);
      TargetExact(records, i, k);
    }
  }

  lemma GroupKinds(records: seq<Record>, j: nat, kind: Kind, level: string)
    requires JustRead(records) && j < |Grouped(records)|
    ensures RelatedCount(Grouped(records)[j].related, kind, level) ==
            FoldsOf(Events(records), Targets(records), |records|, Remaining(records)[j], kind, level)
  {
    FoldedKinds(Events(records), Targets(records), |records|, Remaining(records)[j], kind, level);
  }

  /** No record is lost from the counts if and only if none folds into one that is folded itself. */
  lemma Conserved(records: seq<Record>)
    requires JustRead(records)
    ensures Total(Grouped(records)) == |records| <==>
            forall i | 0 <= i < |records| && Target(records, i).Some? :: Target(records, Target(records, i).value).None?
  {
    Accounted(Events(records), Targets(records));
    LostNone(Targets(records), |records|);
    forall i | 0 <= i < |records|
      ensures EventGroups.Kept(Targets(records), i) <==>
              (Target(records, i).Some? ==> Target(records, Target(records, i).value).None?) {
      TargetsAt(records, i);
      if Target(records, i).Some? { TargetsAt(records, Target(records, i).value); }
    }
  }

  /** That is so whenever no record is both an idle disconnect and a stream error. */
  lemma ConservedWhenApart(records: seq<Record>)
    requires JustRead(records)
    requires forall i | 0 <= i < |records| :: !(IdleDisconnect(records[i]) && IdleStream(records[i]))
    ensures Total(Grouped(records)) == |records|
  {
    forall i | 0 <= i < |records| && Target(records, i).Some? ensures Target(records, Target(records, i).value).None? {
      TargetExact(records, i, Target(records, i).value);
    }
    Conserved(records);
  }

  /** A lone record that is both is its own disconnect, and disappears. */
  lemma LoneRecordLost(r: Record)
    requires IdleDisconnect(r) && IdleStream(r)
    ensures Grouped([r]) == []
  {
    assert Candidate([r], 0, 0);
    TargetExact([r], 0, 0);
    TargetsAt([r], 0);
    assert Survivors(Targets([r]), 0) == [];
    assert Survivors(Targets([r]), 1) == [];
  }
}
