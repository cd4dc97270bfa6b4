/** The lock the jobs share: a chain of promises, one link per caller, whose last link is kept in a
    map under the name of the lock. */
module SnapshotLock {
  import opened Options

  type Name = string

  datatype Phase = Waiting | Inside | Done

  /** One call: the link it found in the map when it arrived, whether its own gate is open, and
      whether its own link has resolved. Links resolve some time after they may. */
  datatype Caller = Caller(name: Name, previous: Option<nat>, phase: Phase, released: bool, resolved: bool)

  /** Callers are numbered in the order they arrive; the map keeps the caller of the last link. */
  datatype Lock = Lock(callers: seq<Caller>, links: map<Name, nat>)

  datatype Move =
    | Arrive(name: Name)
    | Enter(caller: nat)
    | Leave(caller: nat, threw: bool)
    | Resolve(caller: nat)

  predicate Resolved(s: Lock, link: Option<nat>) {
    link.Some? ==> link.value < |s.callers| && s.callers[link.value].resolved
  }

  function Arrived(s: Lock, name: Name): Lock {
    var previous := if name in s.links then Some(s.links[name]) else None;
    Lock(s.callers + [Caller(name, previous, Waiting, false, false)], s.links[name := |s.callers|])
  }

  /** The gate opens whether the task returned or threw; the entry goes if it is still the caller's. */
  function Left(s: Lock, i: nat): Lock
    requires i < |s.callers|
  {
    var name := s.callers[i].name;
    Lock(s.callers[i := s.callers[i].(phase := Done, released := true)],
         if name in s.links && s.links[name] == i then s.links - {name} else s.links)
  }

  function Apply(s: Lock, move: Move): Option<Lock> {
    match move
    case Arrive(name) => Some(Arrived(s, name))
    case Enter(i) =>
      if i < |s.callers| && s.callers[i].phase.Waiting? && Resolved(s, s.callers[i].previous)
      then Some(s.(callers := s.callers[i := s.callers[i].(phase := Inside)])) else None
    case Leave(i, _) =>
      if i < |s.callers| && s.callers[i].phase.Inside? then Some(Left(s, i)) else None
    case Resolve(i) =>
      if i < |s.callers| && s.callers[i].released && !s.callers[i].resolved && Resolved(s, s.callers[i].previous)
      then Some(s.(callers := s.callers[i := s.callers[i].(resolved := true)])) else None
  }

  function Run(s: Lock, moves: seq<Move>): Option<Lock>
    decreases |moves|
  {
    if moves == [] then Some(s)
    else
      var before := Run(s, moves[..|moves| - 1]);
      if before.None? then None else Apply(before.value, moves[|moves| - 1])
  }

  const EMPTY := Lock([], map[])

  // ---------------------------------------------------------------- the lock as a queue

  /** Those waiting for or holding a lock, in the order they arrived. */
  function Line(callers: seq<Caller>, name: Name): seq<nat> {
    if callers == [] then []
    else
      var last := |callers| - 1;
      Line(callers[..last], name) +
      (if callers[last].name == name && !callers[last].phase.Done? then [last] else [])
  }

  lemma LineFacts(callers: seq<Caller>, name: Name)
    ensures var line := Line(callers, name);
      && (forall i :: i in line <==> 0 <= i < |callers| && callers[i].name == name && !callers[i].phase.Done?)
      && (forall a, b | 0 <= a < b < |line| :: line[a] < line[b])
  {
    if callers != [] {
      LineFacts(callers[..|callers| - 1], name);
      var rest := Line(callers[..|callers| - 1], name);
      assert forall a | 0 <= a < |rest| :: rest[a] in rest;
    }
  }

  predicate AllDone(callers: seq<Caller>, name: Name, before: nat) {
    forall k | 0 <= k < before && k < |callers| && callers[k].name == name :: callers[k].phase.Done?
  }

  ghost predicate GoodCaller(s: Lock, i: nat)
    requires i < |s.callers|
  {
    var c := s.callers[i];
    && (c.released <==> c.phase.Done?)
    && (match c.previous
        case None => AllDone(s.callers, c.name, i)
        case Some(p) => p < i && s.callers[p].name == c.name
                        && forall k | p < k < i :: s.callers[k].name != c.name)
    && (!c.phase.Waiting? ==> AllDone(s.callers, c.name, i))
    && (c.resolved ==> AllDone(s.callers, c.name, i + 1))
  }

  ghost predicate GoodName(s: Lock, name: Name) {
    if name in s.links then
      var last := s.links[name];
      && last < |s.callers| && s.callers[last].name == name && !s.callers[last].phase.Done?
      && forall k | last < k < |s.callers| :: s.callers[k].name != name
    else AllDone(s.callers, name, |s.callers|)
  }

  ghost predicate Good(s: Lock) {
    && (forall i | 0 <= i < |s.callers| :: GoodCaller(s, i))
    && (forall name :: GoodName(s, name))
  }

  lemma KeepArrive(s: Lock, name: Name)
    requires Good(s)
    ensures Good(Arrived(s, name))
  {
    var s' := Arrived(s, name);
    assert GoodName(s, name);
    forall i | 0 <= i < |s'.callers| ensures GoodCaller(s', i) {
      if i < |s.callers| { assert GoodCaller(s, i); }
    }
    forall n ensures GoodName(s', n) {
      assert GoodName(s, n);
    }
  }

  lemma KeepEnter(s: Lock, i: nat)
    requires Good(s) && Apply(s, Enter(i)).Some?
    ensures Good(Apply(s, Enter(i)).value)
  {
    var s' := Apply(s, Enter(i)).value;
    MayPass(s, i);
    forall k | 0 <= k < |s'.callers| ensures GoodCaller(s', k) {
      assert GoodCaller(s, k);
    }
    forall n ensures GoodName(s', n) {
      assert GoodName(s, n);
    }
  }

  /** Once the previous link has resolved, everyone who came earlier is done. */
  lemma MayPass(s: Lock, i: nat)
    requires Good(s) && i < |s.callers| && Resolved(s, s.callers[i].previous)
    ensures AllDone(s.callers, s.callers[i].name, i)
  {
    assert GoodCaller(s, i);
    if s.callers[i].previous.Some? {
      assert GoodCaller(s, s.callers[i].previous.value);
    }
  }

  lemma KeepLeave(s: Lock, i: nat)
    requires Good(s) && i < |s.callers| && s.callers[i].phase.Inside?
    ensures Good(Left(s, i))
  {
    var s' := Left(s, i);
    assert GoodCaller(s, i);
    forall k | 0 <= k < |s'.callers| ensures GoodCaller(s', k) {
      assert GoodCaller(s, k);
    }
    forall n ensures GoodName(s', n) {
      assert GoodName(s, n);
    }
  }

  lemma KeepResolve(s: Lock, i: nat)
    requires Good(s) && Apply(s, Resolve(i)).Some?
    ensures Good(Apply(s, Resolve(i)).value)
  {
    var s' := Apply(s, Resolve(i)).value;
    MayPass(s, i);
    forall k | 0 <= k < |s'.callers| ensures GoodCaller(s', k) {
      assert GoodCaller(s, k);
    }
    forall n ensures GoodName(s', n) {
      assert GoodName(s, n);
    }
  }

  lemma {:induction false} RunGood(moves: seq<Move>)
    requires Run(EMPTY, moves).Some?
    ensures Good(Run(EMPTY, moves).value)
    decreases |moves|
  {
    if moves != [] {
      RunGood(moves[..|moves| - 1]);
      var s := Run(EMPTY, moves[..|moves| - 1]).value;
      match moves[|moves| - 1]
      case Arrive(name) => KeepArrive(s, name);
      case Enter(i) => KeepEnter(s, i);
      case Leave(i, _) => KeepLeave(s, i);
      case Resolve(i) => KeepResolve(s, i);
    }
  }

  // ---------------------------------------------------------------- what callers get

  /** Over every run, two callers of one lock are never inside together, and whoever is inside or
      done came before everyone still waiting. */
  lemma OneAtATime(moves: seq<Move>, i: nat, k: nat)
    requires Run(EMPTY, moves).Some?
    ensures var s := Run(EMPTY, moves).value;
      i < k < |s.callers| && s.callers[i].name == s.callers[k].name && !s.callers[k].phase.Waiting? ==>
      s.callers[i].phase.Done?
  {
    RunGood(moves);
    var s := Run(EMPTY, moves).value;
    if k < |s.callers| {
      assert GoodCaller(s, k);
    }
  }

  /** Over every run, a lock without an entry in the map has no one inside and no one waiting. */
  lemma NoEntryNoOne(moves: seq<Move>, name: Name)
    requires Run(EMPTY, moves).Some?
    ensures var s := Run(EMPTY, moves).value; name !in s.links <==> Line(s.callers, name) == []
  {
    RunGood(moves);
    var s := Run(EMPTY, moves).value;
    assert GoodName(s, name);
    if name in s.links {
      LineFacts(s.callers, name);
      assert s.links[name] in Line(s.callers, name);
    } else {
      NoLine(s.callers, name);
    }
  }

  /** Changing a caller without making it done leaves every line as it was. */
  lemma SameLine(callers: seq<Caller>, callers': seq<Caller>, name: Name)
    requires |callers'| == |callers|
    requires forall k | 0 <= k < |callers| ::
      callers'[k].name == callers[k].name && (callers'[k].phase.Done? <==> callers[k].phase.Done?)
    ensures Line(callers', name) == Line(callers, name)
  {
    if callers != [] {
      SameLine(callers[..|callers| - 1], callers'[..|callers| - 1], name);
    }
  }

  /** When the first in line is done, the line moves up by one. */
  lemma {:induction false} LineMoves(callers: seq<Caller>, callers': seq<Caller>, name: Name, i: nat)
    requires i < |callers| == |callers'| && callers' == callers[i := callers'[i]]
    requires callers[i].name == callers'[i].name == name && callers'[i].phase.Done? && !callers[i].phase.Done?
    requires AllDone(callers, name, i)
    ensures Line(callers, name) == [i] + Line(callers', name)
  {
    var last := |callers| - 1;
    if i == last {
      NoLine(callers[..last], name);
      assert callers'[..last] == callers[..last];
    } else {
      var front, front' := callers[..last], callers'[..last];
      assert front' == front[i := front'[i]];
      LineMoves(front, front', name, i);
      assert callers'[last] == callers[last];
      var end := if callers[last].name == name && !callers[last].phase.Done? then [last] else [];
      assert Line(callers, name) == Line(front, name) + end && Line(callers', name) == Line(front', name) + end;
      assert ([i] + Line(front', name)) + end == [i] + (Line(front', name) + end);
    }
  }

  lemma NoLine(callers: seq<Caller>, name: Name)
    requires AllDone(callers, name, |callers|)
    ensures Line(callers, name) == []
  {
    if callers != [] {
      NoLine(callers[..|callers| - 1], name);
    }
  }

  /** The chain of promises is a queue: arriving joins the end of one line, entering and leaving
      happen only at its head, leaving moves it up, whether or not the task threw, and no other line
      changes. */
  lemma ChainIsQueue(moves: seq<Move>, move: Move, name: Name)
    requires Run(EMPTY, moves).Some? && Apply(Run(EMPTY, moves).value, move).Some?
    ensures var s := Run(EMPTY, moves).value;
      var line, line' := Line(s.callers, name), Line(Apply(s, move).value.callers, name);
      match move
      case Arrive(n) => line' == if n == name then line + [|s.callers|] else line
      case Enter(i) => line' == line && (s.callers[i].name == name ==> line != [] && line[0] == i)
      case Leave(i, _) => if s.callers[i].name == name then line == [i] + line' else line' == line
      case Resolve(_) => line' == line
  {
    RunGood(moves);
    var s := Run(EMPTY, moves).value;
    var s' := Apply(s, move).value;
    match move
    case Arrive(n) => assert s'.callers[..|s.callers|] == s.callers;
    case Enter(i) =>
      SameLine(s.callers, s'.callers, name);
      if s.callers[i].name == name {
        MayPass(s, i);
        HeadOf(s.callers, name, i);
      }
    case Leave(i, _) =>
      if s.callers[i].name == name {
        assert GoodCaller(s, i);
        LineMoves(s.callers, s'.callers, name, i);
      } else {
        OtherLine(s.callers, s'.callers, name, i);
      }
    case Resolve(i) => SameLine(s.callers, s'.callers, name);
  }

  lemma HeadOf(callers: seq<Caller>, name: Name, i: nat)
    requires i < |callers| && callers[i].name == name && !callers[i].phase.Done? && AllDone(callers, name, i)
    ensures Line(callers, name) != [] && Line(callers, name)[0] == i
  {
    var line := Line(callers, name);
    LineFacts(callers, name);
    assert i in line;
    assert line[0] in line;
  }

  lemma OtherLine(callers: seq<Caller>, callers': seq<Caller>, name: Name, i: nat)
    requires i < |callers| == |callers'| && callers' == callers[i := callers'[i]]
    requires callers[i].name == callers'[i].name != name
    ensures Line(callers', name) == Line(callers, name)
  {
    var last := |callers| - 1;
    if i < last {
      OtherLine(callers[..last], callers'[..last], name, i);
    } else {
      assert callers'[..last] == callers[..last];
    }
  }

  // ---------------------------------------------------------------- no one waits for ever

  /** Reached by letting links resolve, and nothing else. */
  ghost predicate Settles(s: Lock, end: Lock) {
    exists moves: seq<Move> :: (forall m | m in moves :: m.Resolve?) && Run(s, moves) == Some(end)
  }

  lemma SettleOne(s: Lock, mid: Lock, i: nat, end: Lock)
    requires Settles(s, mid) && Apply(mid, Resolve(i)) == Some(end)
    ensures Settles(s, end)
  {
    var moves: seq<Move> :| (forall m | m in moves :: m.Resolve?) && Run(s, moves) == Some(mid);
    var more := moves + [Resolve(i)];
    assert more[..|more| - 1] == moves;
    assert Run(s, more) == Some(end);
  }

  ghost predicate OnlyLinks(s: Lock, end: Lock) {
    && |end.callers| == |s.callers| && end.links == s.links
    && forall k | 0 <= k < |s.callers| ::
         end.callers[k] == s.callers[k].(resolved := end.callers[k].resolved)
         && (s.callers[k].resolved ==> end.callers[k].resolved)
  }

  /** The links of everyone who is done can all resolve. */
  lemma {:induction false} LinksSettle(s: Lock, i: nat) returns (end: Lock)
    requires Good(s) && i < |s.callers| && AllDone(s.callers, s.callers[i].name, i + 1)
    ensures Settles(s, end) && OnlyLinks(s, end) && Good(end) && end.callers[i].resolved
    decreases i
  {
    assert GoodCaller(s, i);
    assert Run(s, []) == Some(s);
    if s.callers[i].resolved {
      end := s;
    } else {
      var mid := s;
      if s.callers[i].previous.Some? {
        mid := LinksSettle(s, s.callers[i].previous.value);
      }
      end := if mid.callers[i].resolved then mid else Apply(mid, Resolve(i)).value;
      if end != mid {
        KeepResolve(mid, i);
        SettleOne(s, mid, i, end);
      }
    }
  }

  /** Over every run, when no one holds a lock, the first in line can enter as soon as the links
      before it have resolved, without any other caller doing anything. */
  lemma HeadEnters(moves: seq<Move>, name: Name)
    requires Run(EMPTY, moves).Some?
    requires var s := Run(EMPTY, moves).value;
      Line(s.callers, name) != [] && forall i | 0 <= i < |s.callers| && s.callers[i].name == name :: !s.callers[i].phase.Inside?
    ensures var s := Run(EMPTY, moves).value;
      exists end :: Settles(s, end) && Apply(end, Enter(Line(s.callers, name)[0])).Some?
  {
    RunGood(moves);
    var s := Run(EMPTY, moves).value;
    var line := Line(s.callers, name);
    LineFacts(s.callers, name);
    var i := line[0];
    assert i in line;
    assert GoodCaller(s, i);
    assert AllDone(s.callers, name, i) by {
      forall k | 0 <= k < i && s.callers[k].name == name ensures s.callers[k].phase.Done? {
      }
    }
    assert Run(s, []) == Some(s);
    assert Settles(s, s);
    if s.callers[i].previous.Some? {
      var end := LinksSettle(s, s.callers[i].previous.value);
      assert Apply(end, Enter(i)).Some?;
    } else {
      assert Apply(s, Enter(i)).Some?;
    }
  }

  // ---------------------------------------------------------------- the service's own map

  /** What the service keeps, changed in place by every call. */
  class Locks {
    var callers: seq<Caller>
    var links: map<Name, nat>

    function State(): Lock
      reads this
    {
      Lock(callers, links)
    }

    constructor ()
      ensures State() == EMPTY
    {
      callers, links := [], map[];
    }

    /** Up to the point where the call waits for the link it found. */
    method Begin(name: Name) returns (caller: nat)
      modifies this
      ensures Apply(old(State()), Arrive(name)) == Some(State()) && caller == |old(callers)|
    {
      caller := |callers|;
      var previous := if name in links then Some(links[name]) else None;
      callers := callers + [Caller(name, previous, Waiting, false, false)];
      links := links[name := caller];
    }

    method Proceed(caller: nat)
      requires caller < |callers| && callers[caller].phase.Waiting? && Resolved(State(), callers[caller].previous)
      modifies `callers
      ensures Apply(old(State()), Enter(caller)) == Some(State())
    {
      callers := callers[caller := callers[caller].(phase := Inside)];
    }

    /** The clean-up that follows the task, however it ended. */
    method End(caller: nat, threw: bool)
      requires caller < |callers| && callers[caller].phase.Inside?
      modifies this
      ensures Apply(old(State()), Leave(caller, threw)) == Some(State())
    {
      callers := callers[caller := callers[caller].(phase := Done, released := true)];
      var name := callers[caller].name;
      if name in links && links[name] == caller {
        links := links - {name};
      }
    }
  }
}
