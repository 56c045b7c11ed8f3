/** The coalescing MeshPeer watcher (pkg/mesh/watch.go:193-338): informer notifications
    and ticks arm a one-slot trigger, one loop drains it and reads the whole cache, and a
    second slot of the same kind drives the status writer. The informer, its delivery
    goroutine and the two loops interleave at the grain of single sends, receives and
    cache reads. */
module MeshWatcher {

  /** A cached MeshPeer: its resource version and what the passes use of it. */
  datatype Obj = Obj(version: nat, spec: string)
  type Cache = map<string, Obj>

  datatype Event = Added | Updated(was: Obj, now: Obj) | Deleted

  /** The reconcile loop: selecting, drained but not read, reconciling, or owing the
      status trigger of a pass that succeeded. */
  datatype Loop = Selecting | Drained | Reconciling | Succeeded
  datatype StatusLoop = StatusSelecting | StatusDrained | StatusWriting

  datatype State = State(
    cache: Cache, undelivered: seq<Event>,
    armed: bool, loop: Loop, lastRead: Cache,
    statusArmed: bool, status: StatusLoop, succeeded: nat, statusSaw: nat,
    triggers: nat, drains: nat)

  const START := State(map[], [], false, Selecting, map[], false, StatusSelecting, 0, 0, 0, 0)

  datatype Step =
    | Stored(name: string, obj: Obj)
    | Removed(name: string)
    | Deliver
    | Tick
    | Drain
    | ReadCache
    | Reconciled(ok: bool)
    | TriggerStatus
    | StatusDrain
    | StatusReadCache
    | StatusDone

  /** meshPeerChanged, on a typed pair. */
  predicate Changed(was: Obj, now: Obj) { was.version != now.version }

  predicate Real(e: Event) { e.Updated? ==> Changed(e.was, e.now) }

  /** The apiserver advances a version on every write: one version names one object. */
  predicate Enabled(s: State, a: Step) {
    match a
    case Stored(name, obj) => name in s.cache && !Changed(s.cache[name], obj) ==> s.cache[name] == obj
    case Removed(name) => name in s.cache
    case Deliver => s.undelivered != []
    case Tick => s.loop.Selecting?
    case Drain => s.loop.Selecting? && s.armed
    case ReadCache => s.loop.Drained?
    case Reconciled(_) => s.loop.Reconciling?
    case TriggerStatus => s.loop.Succeeded?
    case StatusDrain => s.status.StatusSelecting? && s.statusArmed
    case StatusReadCache => s.status.StatusDrained?
    case StatusDone => s.status.StatusWriting?
  }

  function Trigger(s: State): State { s.(armed := true, triggers := s.triggers + 1) }

  /** A step that is not enabled changes nothing. */
  function Next(s: State, a: Step): State {
    if !Enabled(s, a) then s
    else
    match a
    case Stored(name, obj) =>
      var e := if name in s.cache then Updated(s.cache[name], obj) else Added;
      s.(cache := s.cache[name := obj], undelivered := s.undelivered + [e])
    case Removed(name) => s.(cache := s.cache - {name}, undelivered := s.undelivered + [Deleted])
    case Deliver =>
      var rest := s.(undelivered := s.undelivered[1..]);
      if Real(s.undelivered[0]) then Trigger(rest) else rest
    case Tick => Trigger(s)
    case Drain => s.(armed := false, loop := Drained, drains := s.drains + 1)
    case ReadCache => s.(loop := Reconciling, lastRead := s.cache)
    case Reconciled(ok) => if ok then s.(loop := Succeeded, succeeded := s.succeeded + 1) else s.(loop := Selecting)
    case TriggerStatus => s.(loop := Selecting, statusArmed := true)
    case StatusDrain => s.(statusArmed := false, status := StatusDrained)
    case StatusReadCache => s.(status := StatusWriting, statusSaw := s.succeeded)
    case StatusDone => s.(status := StatusSelecting)
  }

  function Run(steps: seq<Step>): State {
    if steps == [] then START else Next(Run(steps[..|steps| - 1]), steps[|steps| - 1])
  }

  predicate RealPending(events: seq<Event>) { exists i :: 0 <= i < |events| && Real(events[i]) }

  /** A cache the last pass has not seen is owed a pass. */
  predicate PassOwed(s: State) {
    s.cache != s.lastRead ==> s.armed || s.loop.Drained? || RealPending(s.undelivered)
  }

  /** A pass the status writer has not seen is owed a status pass. */
  predicate StatusOwed(s: State) {
    s.succeeded != s.statusSaw ==> s.statusArmed || s.status.StatusDrained? || s.loop.Succeeded?
  }

  /** Every pass is owed by at least one real event or tick. */
  predicate PassesAreOwed(s: State) { s.drains + (if s.armed then 1 else 0) <= s.triggers }

  predicate Inv(s: State) { PassOwed(s) && StatusOwed(s) && PassesAreOwed(s) }

  lemma {:induction false} EventsAppend(events: seq<Event>, e: Event)
    ensures RealPending(events + [e]) <==> RealPending(events) || Real(e)
  {
    var all := events + [e];
    if RealPending(events) {
      var i :| 0 <= i < |events| && Real(events[i]);
      assert Real(all[i]);
    }
    if Real(e) {
      assert Real(all[|events|]);
    }
  }

  lemma {:induction false} EventsDrop(events: seq<Event>)
    requires RealPending(events)
    ensures Real(events[0]) || RealPending(events[1..])
  {
    var i :| 0 <= i < |events| && Real(events[i]);
    if i > 0 {
      assert Real(events[1..][i - 1]);
    }
  }

  lemma {:induction false} StepKeeps(s: State, a: Step)
    requires Inv(s)
    ensures Inv(Next(s, a))
  {
    if Enabled(s, a) {
      match a
      case Stored(name, obj) =>
        var e := if name in s.cache then Updated(s.cache[name], obj) else Added;
        EventsAppend(s.undelivered, e);
        if !Real(e) { assert s.cache[name := obj] == s.cache; }
      case Removed(_) => EventsAppend(s.undelivered, Deleted);
      case Deliver => if RealPending(s.undelivered) { EventsDrop(s.undelivered); }
      case _ =>
    }
  }

  lemma {:induction false} RunKeeps(steps: seq<Step>)
    ensures Inv(Run(steps))
    decreases |steps|
  {
    if steps != [] {
      RunKeeps(steps[..|steps| - 1]);
      StepKeeps(Run(steps[..|steps| - 1]), steps[|steps| - 1]);
    }
  }

  /** No change is lost: in every interleaving, a cache that differs from what the last
      pass read has the slot armed, or drained and not yet read, or a real event still on
      its way to the trigger. */
  lemma {:induction false} ChangeIsNeverLost(steps: seq<Step>)
    ensures var s := Run(steps);
            s.cache == s.lastRead || s.armed || s.loop.Drained? || RealPending(s.undelivered)
  {
    RunKeeps(steps);
  }

  /** The same for the status writer and the passes it reports on. */
  lemma {:induction false} StatusPassIsNeverLost(steps: seq<Step>)
    ensures var s := Run(steps);
            s.succeeded == s.statusSaw || s.statusArmed || s.status.StatusDrained? || s.loop.Succeeded?
  {
    RunKeeps(steps);
  }

  /** Coalescing never invents work: the passes never outnumber the real events and ticks. */
  lemma {:induction false} PassesNeverOutnumberTriggers(steps: seq<Step>)
    ensures Run(steps).drains <= Run(steps).triggers
  {
    RunKeeps(steps);
  }

  // ---- convergence once the cluster is quiet ----

  /** The steps of the watcher's own goroutines, ticks aside. */
  predicate Internal(a: Step) { !a.Stored? && !a.Removed? && !a.Tick? }

  predicate Idle(s: State) {
    s.undelivered == [] && !s.armed && s.loop.Selecting? && !s.statusArmed && s.status.StatusSelecting?
  }

  function Work(s: State): nat {
    12 * |s.undelivered| + (if s.armed then 11 else 0)
    + (match s.loop case Selecting => 0 case Drained => 10 case Reconciling => 9 case Succeeded => 8)
    + (if s.statusArmed then 3 else 0)
    + (match s.status case StatusSelecting => 0 case StatusDrained => 2 case StatusWriting => 1)
  }

  /** Left alone, every step the watcher takes brings it nearer to idle, ... */
  lemma {:induction false} WorkShrinks(s: State, a: Step)
    requires Internal(a) && Enabled(s, a)
    ensures Work(Next(s, a)) < Work(s)
  {
  }

  /** ... it is never stuck before that, ... */
  lemma {:induction false} NeverStuck(s: State)
    requires !Idle(s)
    ensures exists a :: Internal(a) && Enabled(s, a)
  {
    var a := if s.undelivered != [] then Deliver
             else if s.loop.Drained? then ReadCache
             else if s.loop.Reconciling? then Reconciled(true)
             else if s.loop.Succeeded? then TriggerStatus
             else if s.armed then Drain
             else if s.status.StatusDrained? then StatusReadCache
             else if s.status.StatusWriting? then StatusDone
             else StatusDrain;
    assert Internal(a) && Enabled(s, a);
  }

  /** ... and idle means the last pass read exactly the current cache and the last status
      pass saw every successful pass. */
  lemma {:induction false} IdleMeansConverged(steps: seq<Step>)
    requires Idle(Run(steps))
    ensures Run(steps).lastRead == Run(steps).cache && Run(steps).statusSaw == Run(steps).succeeded
  {
    RunKeeps(steps);
  }
}
