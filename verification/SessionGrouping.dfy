/** The grouping itself: maps of sessions filled in one pass, records changed in place in another. */
module SessionGrouping {
  import opened Options
  import opened EventGroups
  import opened SessionEvents

  type Key = (string, nat)

  // ---------------------------------------------------------------- taking in an event

  lemma {:induction false} CountedAt(related: seq<Related>, kind: Kind, level: string, i: nat)
    requires i < |related| && related[i].kind == kind && related[i].level == level
    requires forall k | 0 <= k < i :: related[k].kind != kind || related[k].level != level
    ensures Counted(related, kind, level) == related[i := related[i].(count := related[i].count + 1)]
  {
    if i > 0 {
      assert related[0].kind != kind || related[0].level != level;
      CountedAt(related[1..], kind, level, i - 1);
    }
  }

  lemma {:induction false} CountedNew(related: seq<Related>, kind: Kind, level: string)
    requires forall k | 0 <= k < |related| :: related[k].kind != kind || related[k].level != level
    ensures Counted(related, kind, level) == related + [Related(kind, level, 1)]
  {
    if related != [] {
      assert related[0].kind != kind || related[0].level != level;
      CountedNew(related[1..], kind, level);
    }
  }

  method AddRelated(records: array<Record>, root: nat, other: Event)
    requires root < records.Length
    modifies records
    ensures records[..] == old(records[..])[root := old(records[root]).(event := Added(old(records[root]).event, other))]
  {
    var event := records[root].event;
    if event.count == 1 {
      event := event.(first := event.sampledAt, last := event.sampledAt);
    }
    event := event.(count := event.count + 1, first := Min(event.first, other.sampledAt), last := Max(event.last, other.sampledAt));
    var i := 0;
    while i < |event.related|
      invariant i <= |event.related|
      invariant forall k | 0 <= k < i :: event.related[k].kind != other.kind || event.related[k].level != other.level
    {
      var row := event.related[i];
      if row.kind == other.kind && row.level == other.level {
        CountedAt(event.related, other.kind, other.level, i);
        event := event.(related := event.related[i := row.(count := row.count + 1)]);
        records[root] := records[root].(event := event);
        return;
      }
      i := i + 1;
    }
    CountedNew(event.related, other.kind, other.level);
    event := event.(related := event.related + [Related(other.kind, other.level, 1)]);
    records[root] := records[root].(event := event);
  }

  // ---------------------------------------------------------------- the sessions

  function KeyOf(records: seq<Record>, i: nat): Key
    requires i < |records|
  {
    (records[i].address, Epoch(records, i))
  }

  /** The idle disconnects of a session among the first records. */
  function RootsOf(records: seq<Record>, n: nat, key: Key): seq<nat>
    requires n <= |records|
  {
    if n == 0 then []
    else RootsOf(records, n - 1, key)
         + (if IdleDisconnect(records[n - 1]) && KeyOf(records, n - 1) == key then [n - 1] else [])
  }

  function Listed(roots: map<Key, seq<nat>>, key: Key): seq<nat> {
    if key in roots then roots[key] else []
  }

  function Counter(epochs: map<string, nat>, address: string): nat {
    if address in epochs then epochs[address] else 0
  }

  method FindSessions(records: seq<Record>) returns (keys: seq<Key>, roots: map<Key, seq<nat>>)
    ensures Indexed(records, keys, roots)
  {
    var epochs: map<string, nat> := map[];
    keys, roots := [], map[];
    for i := 0 to |records|
      invariant |keys| == i && forall k | 0 <= k < i :: keys[k] == KeyOf(records, k)
      invariant forall address :: Counter(epochs, address) == Connects(records, i, address)
      invariant forall key :: Listed(roots, key) == RootsOf(records, i, key)
    {
      var row := records[i];
      ghost var before := epochs;
      if row.event.kind.Connected? {
        epochs := epochs[row.address := Counter(epochs, row.address) + 1];
      }
      CountersStep(records, i, before, epochs);
      var key := (row.address, Counter(epochs, row.address));
      assert key == KeyOf(records, i);
      keys := keys + [key];
      ghost var old_ := roots;
      if row.address != "" && row.event.kind.Disconnected? && row.event.reason == IDLE {
        roots := roots[key := Listed(roots, key) + [i]];
      }
      RootsStep(records, i, old_, roots);
    }
  }

  lemma CountersStep(records: seq<Record>, i: nat, before: map<string, nat>, after: map<string, nat>)
    requires i < |records| && forall address :: Counter(before, address) == Connects(records, i, address)
    requires after == if records[i].event.kind.Connected?
                      then before[records[i].address := Counter(before, records[i].address) + 1] else before
    ensures forall address :: Counter(after, address) == Connects(records, i + 1, address)
  {
  }

  lemma RootsStep(records: seq<Record>, i: nat, before: map<Key, seq<nat>>, after: map<Key, seq<nat>>)
    requires i < |records| && forall key :: Listed(before, key) == RootsOf(records, i, key)
    requires var key := KeyOf(records, i);
      after == if IdleDisconnect(records[i]) then before[key := Listed(before, key) + [i]] else before
    ensures forall key :: Listed(after, key) == RootsOf(records, i + 1, key)
  {
    forall key ensures Listed(after, key) == RootsOf(records, i + 1, key) {
      assert Listed(before, key) == RootsOf(records, i, key);
      assert RootsOf(records, i, key) + [] == RootsOf(records, i, key);
    }
  }

  // ---------------------------------------------------------------- the one disconnect

  /** Those of the disconnects that are near the record. */
  function NearRoots(records: seq<Record>, i: nat, found: seq<nat>): seq<nat>
    requires i < |records| && forall k | 0 <= k < |found| :: found[k] < |records|
  {
    if found == [] then []
    else
      var before, last := NearRoots(records, i, found[..|found| - 1]), found[|found| - 1];
      if Near(records[i].event, records[last].event) then before + [last] else before
  }

  lemma {:induction false} RootsBelow(records: seq<Record>, n: nat, key: Key)
    requires n <= |records|
    ensures forall k | 0 <= k < |RootsOf(records, n, key)| :: RootsOf(records, n, key)[k] < n
  {
    if n > 0 { RootsBelow(records, n - 1, key); }
  }

  lemma CandidateIs(records: seq<Record>, i: nat, c: nat, key: Key)
    requires i < |records| && c < |records| && key == KeyOf(records, i)
    ensures Candidate(records, i, c) <==>
            IdleDisconnect(records[c]) && KeyOf(records, c) == key && Near(records[i].event, records[c].event)
  {
  }

  /** The near disconnects of a record's session are its candidates. */
  lemma {:induction false} NearAreCandidates(records: seq<Record>, i: nat, n: nat, key: Key)
    requires i < |records| && n <= |records| && key == KeyOf(records, i)
    ensures forall k | 0 <= k < |RootsOf(records, n, key)| :: RootsOf(records, n, key)[k] < |records|
    ensures NearRoots(records, i, RootsOf(records, n, key)) == Candidates(records, i, n)
  {
    RootsBelow(records, n, key);
    if n > 0 {
      NearAreCandidates(records, i, n - 1, key);
      CandidateIs(records, i, n - 1, key);
      var before := RootsOf(records, n - 1, key);
      if IdleDisconnect(records[n - 1]) && KeyOf(records, n - 1) == key {
        NearPush(records, i, before, n - 1);
      } else {
        assert before + [] == before;
      }
    }
  }

  lemma NearPush(records: seq<Record>, i: nat, found: seq<nat>, c: nat)
    requires i < |records| && c < |records| && forall k | 0 <= k < |found| :: found[k] < |records|
    ensures NearRoots(records, i, found + [c]) ==
            if Near(records[i].event, records[c].event) then NearRoots(records, i, found) + [c] else NearRoots(records, i, found)
  {
    assert (found + [c])[..|found + [c]| - 1] == found;
  }

  lemma {:induction false} NearGrows(records: seq<Record>, i: nat, found: seq<nat>, n: nat)
    requires i < |records| && n <= |found| && forall k | 0 <= k < |found| :: found[k] < |records|
    ensures |NearRoots(records, i, found[..n])| <= |NearRoots(records, i, found)|
    decreases |found| - n
  {
    if n == |found| {
      assert found[..n] == found;
    } else {
      NearGrows(records, i, found, n + 1);
      assert found[..n + 1] == found[..n] + [found[n]];
      NearPush(records, i, found[..n], found[n]);
    }
  }

  /** The only near disconnect; with two there is no guessing. */
  method OnlyNear(records: seq<Record>, i: nat, found: seq<nat>) returns (root: Option<nat>)
    requires i < |records| && forall k | 0 <= k < |found| :: found[k] < |records|
    ensures var near := NearRoots(records, i, found); root == if |near| == 1 then Some(near[0]) else None
  {
    root := None;
    for n := 0 to |found|
      invariant NearRoots(records, i, found[..n]) == if root.Some? then [root.value] else []
    {
      assert found[..n + 1] == found[..n] + [found[n]];
      NearPush(records, i, found[..n], found[n]);
      var delta := records[i].event.sampledAt - records[found[n]].event.sampledAt;
      if delta >= -WINDOW_MS && delta <= WINDOW_MS {
        if root.Some? {
          NearGrows(records, i, found, n + 1);
          return None;
        }
        root := Some(found[n]);
      }
    }
    assert found[..|found|] == found;
  }

  // ---------------------------------------------------------------- grouping

  /** The records as they stand: their events folded so far, the rest as read. */
  ghost predicate Stands(now: seq<Record>, records: seq<Record>, n: nat)
    requires n <= |records|
  {
    && |now| == |records|
    && Events(now) == Folded(Events(records), Targets(records), n)
    && forall k | 0 <= k < |records| :: now[k].address == records[k].address && now[k].stream == records[k].stream
  }

  lemma StandsOrigin(now: seq<Record>, records: seq<Record>, n: nat, k: nat)
    requires n <= |records| && k < |records| && Stands(now, records, n)
    ensures SameOrigin(now[k].event, records[k].event)
  {
    FoldedOrigin(Events(records), Targets(records), n, k);
    assert Events(now)[k] == now[k].event;
  }

  lemma StandsStep(now: seq<Record>, records: seq<Record>, n: nat, t: Option<nat>, next: seq<Record>)
    requires n < |records| && Stands(now, records, n) && t == Targets(records)[n]
    requires next == match t
                     case None => now
                     case Some(c) => now[c := now[c].(event := Added(now[c].event, now[n].event))]
    ensures Stands(next, records, n + 1)
  {
    assert Events(now)[n] == now[n].event;
    if t.Some? {
      assert Events(now)[t.value] == now[t.value].event;
    }
    assert Events(next) == Folded(Events(records), Targets(records), n + 1);
  }

  lemma IdleStands(now: seq<Record>, records: seq<Record>, i: nat)
    requires i < |records| && Stands(now, records, i)
    ensures IdleStream(now[i]) <==> IdleStream(records[i])
  {
    StandsOrigin(now, records, i, i);
  }

  /** Folds one record, if it has a disconnect to go to. */
  method FoldRecord(records: array<Record>, i: nat, found: seq<nat>, ghost start: seq<Record>) returns (folded: bool)
    requires i < records.Length == |start| && Stands(records[..], start, i)
    requires found == RootsOf(start, |start|, KeyOf(start, i))
    modifies records
    ensures Stands(records[..], start, i + 1) && folded == Targets(start)[i].Some?
  {
    ghost var now := records[..];
    var row := records[i];
    assert row == now[i];
    IdleStands(now, start, i);
    if row.address == "" || !row.stream || row.event.reason != IDLE {
      TargetsAt(start, i);
      StandsStep(now, start, i, None, now);
      return false;
    }
    NearAreCandidates(start, i, |start|, KeyOf(start, i));
    NearStands(now, start, i);
    var root := OnlyNear(records[..], i, found);
    assert root == Target(start, i);
    if root.Some? {
      AddRelated(records, root.value, row.event);
    }
    TargetsAt(start, i);
    StandsStep(now, start, i, root, records[..]);
    folded := root.Some?;
  }

  method CollectEvents(records: array<Record>, merged: array<bool>, ghost start: seq<Record>) returns (events: seq<Event>)
    requires records.Length == merged.Length == |start| && Stands(records[..], start, |start|)
    requires Marked(merged[..], Targets(start), |start|)
    ensures events == Grouped(start)
  {
    events := [];
    for i := 0 to records.Length
      invariant events == Taken(start, i)
    {
      TakenPush(start, i);
      assert Events(records[..])[i] == records[i].event;
      if !merged[i] {
        events := events + [records[i].event];
      }
    }
    TakenAll(start);
  }

  lemma TakenPush(records: seq<Record>, i: nat)
    requires i < |records|
    ensures Taken(records, i + 1) ==
            if Targets(records)[i].None? then Taken(records, i) + [Folded(Events(records), Targets(records), |records|)[i]]
            else Taken(records, i)
  {
  }

  /** The keys of the records, and the idle disconnects listed under each key. */
  ghost predicate Indexed(records: seq<Record>, keys: seq<Key>, roots: map<Key, seq<nat>>) {
    && |keys| == |records| && (forall i | 0 <= i < |records| :: keys[i] == KeyOf(records, i))
    && forall key :: Listed(roots, key) == RootsOf(records, |records|, key)
  }

  lemma IndexedAt(records: seq<Record>, keys: seq<Key>, roots: map<Key, seq<nat>>, i: nat)
    requires i < |records| && Indexed(records, keys, roots)
    ensures i < |keys| && Listed(roots, keys[i]) == RootsOf(records, |records|, KeyOf(records, i))
  {
  }

  predicate Marked(marks: seq<bool>, plan: Plan, n: nat) {
    n <= |marks| == |plan| && forall k | 0 <= k < n :: marks[k] <==> plan[k].Some?
  }

  lemma MarkedStep(marks: seq<bool>, marks': seq<bool>, plan: Plan, i: nat, mark: bool)
    requires i < |marks| && Marked(marks, plan, i) && marks' == marks[i := mark] && (mark <==> plan[i].Some?)
    ensures Marked(marks', plan, i + 1)
  {
  }

  method FoldAll(records: array<Record>, keys: seq<Key>, roots: map<Key, seq<nat>>) returns (merged: array<bool>)
    requires Indexed(records[..], keys, roots)
    modifies records
    ensures fresh(merged) && Marked(merged[..], Targets(old(records[..])), records.Length)
    ensures Stands(records[..], old(records[..]), records.Length)
  {
    ghost var start, plan := records[..], Targets(records[..]);
    merged := new bool[records.Length](_ => false);
    for i := 0 to records.Length
      invariant Stands(records[..], start, i) && Marked(merged[..], plan, i)
    {
      IndexedAt(start, keys, roots, i);
      ghost var marks := merged[..];
      var folded := FoldRecord(records, i, Listed(roots, keys[i]), start);
      merged[i] := folded;
      MarkedStep(marks, merged[..], plan, i, folded);
    }
  }

  method GroupConnectionEvents(records: array<Record>) returns (events: seq<Event>)
    modifies records
    ensures events == Grouped(old(records[..]))
  {
    ghost var start := records[..];
    var keys, roots := FindSessions(records[..]);
    var merged := FoldAll(records, keys, roots);
    events := CollectEvents(records, merged, start);
  }

  lemma {:induction false} NearSame(now: seq<Record>, records: seq<Record>, i: nat, found: seq<nat>)
    requires |now| == |records| && i < |records| && forall k | 0 <= k < |found| :: found[k] < |records|
    requires forall k | 0 <= k < |records| :: now[k].event.sampledAt == records[k].event.sampledAt
    ensures NearRoots(now, i, found) == NearRoots(records, i, found)
  {
    if found != [] { NearSame(now, records, i, found[..|found| - 1]); }
  }

  lemma NearStands(now: seq<Record>, records: seq<Record>, i: nat)
    requires i < |records| && Stands(now, records, i)
    ensures var found := RootsOf(records, |records|, KeyOf(records, i));
      && (forall k | 0 <= k < |found| :: found[k] < |records|)
      && NearRoots(now, i, found) == NearRoots(records, i, found)
  {
    RootsBelow(records, |records|, KeyOf(records, i));
    forall k | 0 <= k < |records| ensures now[k].event.sampledAt == records[k].event.sampledAt {
      StandsOrigin(now, records, i, k);
    }
    NearSame(now, records, i, RootsOf(records, |records|, KeyOf(records, i)));
  }

  /** The events kept of the first records. */
  function Taken(records: seq<Record>, n: nat): seq<Event>
    requires n <= |records|
  {
    var kept, folded := Survivors(Targets(records), n), Folded(Events(records), Targets(records), |records|);
    seq(|kept|, k requires 0 <= k < |kept| => folded[kept[k]])
  }

  lemma TakenAll(records: seq<Record>)
    ensures Taken(records, |records|) == Grouped(records)
  {
  }

  // ---------------------------------------------------------------- the newest events

  const MAX_JOURNAL_BYTES := 512 * 1024
  const MAX_JOURNAL_LINES := 1000

  /** A line of the journal: its length without the line break, and the record recognised in it. */
  datatype Line = Line(size: nat, record: Option<Record>)

  function Bytes(lines: seq<Line>, n: nat): nat
    requires n <= |lines|
  {
    if n == 0 then 0 else Bytes(lines, n - 1) + lines[n - 1].size + 1
  }

  function Recognised(lines: seq<Line>, n: nat): seq<Record>
    requires n <= |lines|
  {
    if n == 0 then []
    else Recognised(lines, n - 1) + (if lines[n - 1].record.Some? then [lines[n - 1].record.value] else [])
  }

  /** The most lines from the newest on that fit both budgets. */
  predicate Budget(lines: seq<Line>, n: nat) {
    && n <= |lines| && n <= MAX_JOURNAL_LINES && Bytes(lines, n) <= MAX_JOURNAL_BYTES
    && (n == |lines| || n == MAX_JOURNAL_LINES || Bytes(lines, n + 1) > MAX_JOURNAL_BYTES)
  }

  method ReadJournal(lines: seq<Line>) returns (records: seq<Record>, truncated: bool, n: nat)
    ensures Budget(lines, n) && records == Recognised(lines, n)
    ensures truncated == (n < |lines| || n == MAX_JOURNAL_LINES)
  {
    records, truncated, n := [], false, 0;
    var bytes := 0;
    while n < |lines|
      invariant n <= |lines| && n < MAX_JOURNAL_LINES && !truncated
      invariant bytes == Bytes(lines, n) <= MAX_JOURNAL_BYTES
      invariant records == Recognised(lines, n)
    {
      var line := lines[n];
      bytes := bytes + line.size + 1;
      if bytes > MAX_JOURNAL_BYTES { return records, true, n; }
      n := n + 1;
      if line.record.Some? { records := records + [line.record.value]; }
      if n == MAX_JOURNAL_LINES { return records, true, n; }
    }
  }

  /** The journal comes newest first; the output is oldest first: the groups of the lines that fit the
      budgets, and of these at most the limit, the newest, none of them split. */
  method ScanConnectionEvents(lines: seq<Line>, limit: nat) returns (events: seq<Event>, truncated: bool, n: nat)
    ensures Budget(lines, n)
    ensures var all := Grouped(Reversed(Recognised(lines, n)));
      && events == (if |all| > limit then all[|all| - limit..] else all)
      && truncated == (n < |lines| || n == MAX_JOURNAL_LINES || |all| > limit)
  {
    var newestFirst;
    newestFirst, truncated, n := ReadJournal(lines);
    var records := new Record[|newestFirst|](i requires 0 <= i < |newestFirst| => newestFirst[|newestFirst| - 1 - i]);
    assert records[..] == Reversed(newestFirst);
    events := GroupConnectionEvents(records);
    if |events| > limit {
      truncated := true;
      events := events[|events| - limit..];
    }
  }

  function Reversed(records: seq<Record>): seq<Record> {
    seq(|records|, i requires 0 <= i < |records| => records[|records| - 1 - i])
  }
}
