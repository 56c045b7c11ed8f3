/** The refuser between wireguard and the utun (pkg/mesh/refuse.go:144-254): writers
    queue a reset and then set a past read deadline; the one reader looks at the queue,
    reads the device, and clears the deadline before it looks again. Any number of
    writers interleave with the reader at the grain of single queue and deadline
    operations. */
module Refuser {
  import opened Text
  import opened Inet
  import opened Bytes
  import opened TcpReset

  const QUEUE := 64

  /** Where the reader is: outside Read, about to look at the queue, blocked in the
      device's Read, or holding its deadline error with n packets read beside it. */
  datatype Reader = Outside | Look | Inner | Expired(n: nat)

  datatype Failure = Deadline | Other
  datatype Result = Reset(p: Packet) | Packets(n: nat) | Failed(why: Failure)

  /** `writers` counts the injects that have queued and not yet woken. */
  datatype State = State(
    queue: seq<Packet>, past: bool, writers: nat, reader: Reader,
    accepted: seq<Packet>, results: seq<Result>)

  const START := State([], false, 0, Outside, [], [])

  datatype Step =
    | Inject(p: Packet)
    | Wake
    | WakeFails
    | Call
    | LookAtQueue
    | DeviceReturns(n: nat, err: Option<Failure>)
    | Rearm
    | RearmFails

  predicate Enabled(s: State, a: Step) {
    match a
    case Inject(_) => true
    case Wake => s.writers > 0
    case WakeFails => s.writers > 0
    case Call => s.reader.Outside?
    case LookAtQueue => s.reader.Look?
    case DeviceReturns(_, err) => s.reader.Inner? && (err == Some(Deadline) ==> s.past)
    case Rearm => s.reader.Expired?
    case RearmFails => s.reader.Expired?
  }

  function Returned(s: State, r: Result): State { s.(reader := Outside, results := s.results + [r]) }

  /** A step that is not enabled changes nothing. */
  function Next(s: State, a: Step): State {
    if !Enabled(s, a) then s
    else
    match a
    case Inject(p) =>
      if |s.queue| == QUEUE then s
      else s.(queue := s.queue + [p], accepted := s.accepted + [p], writers := s.writers + 1)
    case Wake => s.(writers := s.writers - 1, past := true)
    case WakeFails => s.(writers := s.writers - 1)
    case Call => s.(reader := Look)
    case LookAtQueue =>
      if s.queue != [] then Returned(s.(queue := s.queue[1..]), Reset(s.queue[0])) else s.(reader := Inner)
    case DeviceReturns(n, err) =>
      if err == Some(Deadline) then s.(reader := Expired(n))
      else Returned(s, if err.None? then Packets(n) else Failed(err.value))
    case Rearm =>
      var cleared := s.(past := false);
      if s.reader.n > 0 then Returned(cleared, Packets(s.reader.n)) else cleared.(reader := Look)
    case RearmFails => Returned(s, Failed(Other))
  }

  function Run(steps: seq<Step>): State {
    if steps == [] then START else Next(Run(steps[..|steps| - 1]), steps[|steps| - 1])
  }

  /** The resets the reader returned, in order. */
  function Delivered(results: seq<Result>): seq<Packet> {
    if results == [] then []
    else
      var front, last := Delivered(results[..|results| - 1]), results[|results| - 1];
      if last.Reset? then front + [last.p] else front
  }

  lemma DeliveredStep(results: seq<Result>, r: Result)
    ensures Delivered(results + [r]) == Delivered(results) + if r.Reset? then [r.p] else []
  {
    assert (results + [r])[..|results|] == results;
  }

  /** A blocked reader with a reset queued has a past deadline or a writer about to set it. */
  predicate NeverStranded(s: State) {
    s.reader.Inner? && s.queue != [] ==> s.past || s.writers > 0
  }

  /** Nothing queued is lost, duplicated or reordered. */
  predicate Conserved(s: State) {
    s.accepted == Delivered(s.results) + s.queue && |s.queue| <= QUEUE && Failed(Deadline) !in s.results
  }

  lemma HeadMoves<T>(done: seq<T>, queue: seq<T>)
    requires queue != []
    ensures done + queue == (done + [queue[0]]) + queue[1..]
  {
  }

  lemma {:induction false} ReturnConserves(s: State, r: Result)
    requires Conserved(s) && !r.Reset? && r != Failed(Deadline)
    ensures Conserved(Returned(s, r))
  {
    DeliveredStep(s.results, r);
    assert Delivered(s.results) + [] == Delivered(s.results);
  }

  lemma {:induction false} LookConserves(s: State)
    requires Conserved(s) && s.queue != []
    ensures Conserved(Returned(s.(queue := s.queue[1..]), Reset(s.queue[0])))
  {
    DeliveredStep(s.results, Reset(s.queue[0]));
    HeadMoves(Delivered(s.results), s.queue);
  }

  lemma {:induction false} StepConserves(s: State, a: Step)
    requires Conserved(s)
    ensures Conserved(Next(s, a))
  {
    if Enabled(s, a) {
      match a
      case Inject(p) => Associative(Delivered(s.results), s.queue, [p]);
      case LookAtQueue => if s.queue != [] { LookConserves(s); }
      case DeviceReturns(n, err) =>
        if err != Some(Deadline) { ReturnConserves(s, if err.None? then Packets(n) else Failed(err.value)); }
      case Rearm => ReturnConserves(s.(past := false), Packets(s.reader.n));
      case RearmFails => ReturnConserves(s, Failed(Other));
      case _ =>
    }
  }

  /** In every run: the queue is FIFO and bounded by 64, and no Read returns the deadline
      error. */
  lemma {:induction false} RunConserves(steps: seq<Step>)
    ensures Conserved(Run(steps))
    decreases |steps|
  {
    if steps != [] {
      RunConserves(steps[..|steps| - 1]);
      StepConserves(Run(steps[..|steps| - 1]), steps[|steps| - 1]);
    }
  }

  /** In every run whose wakes succeed: a reader blocked in the device with a reset queued
      and no writer mid-inject has a past deadline. */
  lemma {:induction false} BlockedReaderIsWoken(steps: seq<Step>)
    requires WakeFails !in steps
    ensures NeverStranded(Run(steps))
    ensures Run(steps).reader.Inner? && Run(steps).queue != [] && Run(steps).writers == 0 ==> Run(steps).past
    decreases |steps|
  {
    if steps != [] {
      BlockedReaderIsWoken(steps[..|steps| - 1]);
      assert steps[|steps| - 1] in steps;
    }
  }

  /** One failed wake does strand a queued reset. */
  lemma {:induction false} FailedWakeStrands(p: Packet)
    ensures var s := Run([Call, LookAtQueue, Inject(p), WakeFails]);
            s.reader.Inner? && s.queue == [p] && s.writers == 0 && !s.past
  {
    var steps := [Call, LookAtQueue, Inject(p), WakeFails];
    assert steps[..3] == [Call, LookAtQueue, Inject(p)] && steps[..3][..2] == [Call, LookAtQueue];
    assert steps[..3][..2][..1] == [Call] && [Call][..0] == [];
    assert Run([Call]) == START.(reader := Look);
    assert Run([Call, LookAtQueue]) == START.(reader := Inner);
    assert Run(steps[..3]) == State([p], false, 1, Inner, [p], []);
  }

  // ---- how long a queued reset waits ----

  predicate IsReaderStep(a: Step) { !a.Inject? && !a.Wake? && !a.WakeFails? }

  /** The reader steps left before the head of the queue goes out. */
  function Distance(r: Reader): nat {
    match r
    case Look => 1
    case Outside => 2
    case Expired(_) => 3
    case Inner => 4
  }

  /** `steps` is a run from s. */
  predicate RunsFrom(s: State, steps: seq<Step>)
    decreases |steps|
  {
    steps == [] || (Enabled(s, steps[0]) && RunsFrom(Next(s, steps[0]), steps[1..]))
  }

  function From(s: State, steps: seq<Step>): (t: State)
    requires RunsFrom(s, steps)
    ensures s.results <= t.results
    decreases |steps|
  {
    if steps == [] then s else From(Next(s, steps[0]), steps[1..])
  }

  function ReaderSteps(steps: seq<Step>): nat {
    if steps == [] then 0 else (if IsReaderStep(steps[0]) then 1 else 0) + ReaderSteps(steps[1..])
  }

  /** However writers, wakes and device traffic interleave, a queued reset is returned by
      the time the reader has taken as many steps as its distance, at most four: it waits
      for no unrelated packet. */
  lemma {:induction false} HeadGoesOut(s: State, steps: seq<Step>)
    requires RunsFrom(s, steps) && s.queue != [] && ReaderSteps(steps) >= Distance(s.reader)
    ensures Reset(s.queue[0]) in From(s, steps).results[|s.results|..]
    decreases |steps|
  {
    var t := Next(s, steps[0]);
    var end := From(t, steps[1..]);
    if steps[0].LookAtQueue? {
      assert t.results[|s.results|] == Reset(s.queue[0]);
      assert end.results[|s.results|..][0] == t.results[|s.results|];
    } else {
      assert t.queue != [] && t.queue[0] == s.queue[0] && s.results <= t.results;
      HeadGoesOut(t, steps[1..]);
      assert end.results[|t.results|..] == end.results[|s.results|..][|t.results| - |s.results|..];
    }
  }

  /** And it never has to wait: with a reset queued, every wake done and none failed, some
      reader step other than device traffic is enabled. */
  lemma {:induction false} ReaderCanAlwaysMove(steps: seq<Step>)
    requires WakeFails !in steps && Run(steps).queue != [] && Run(steps).writers == 0
    ensures exists a :: a in [Call, LookAtQueue, Rearm, DeviceReturns(0, Some(Deadline))] && Enabled(Run(steps), a)
  {
    BlockedReaderIsWoken(steps);
    var s := Run(steps);
    var a := match s.reader
             case Outside => Call
             case Look => LookAtQueue
             case Expired(_) => Rearm
             case Inner => DeviceReturns(0, Some(Deadline));
    assert a in [Call, LookAtQueue, Rearm, DeviceReturns(0, Some(Deadline))] && Enabled(s, a);
  }

  // ---- Write ----

  function Kept(bufs: seq<Packet>, node: Option<Prefix>, held: Option<set<IPv4>>): seq<Packet> {
    if bufs == [] then []
    else
      var front, last := Kept(bufs[..|bufs| - 1], node, held), bufs[|bufs| - 1];
      if RefuseSyn(last, node, held) then front else front + [last]
  }

  function Resets(bufs: seq<Packet>, node: Option<Prefix>, held: Option<set<IPv4>>): seq<Packet> {
    if bufs == [] then []
    else
      var front, last := Resets(bufs[..|bufs| - 1], node, held), bufs[|bufs| - 1];
      if RefuseSyn(last, node, held) then front + [TcpReset.Reset(last)] else front
  }

  lemma {:induction false} KeptStep(bufs: seq<Packet>, i: nat, node: Option<Prefix>, held: Option<set<IPv4>>)
    requires i < |bufs|
    ensures Kept(bufs[..i + 1], node, held)
            == Kept(bufs[..i], node, held) + if RefuseSyn(bufs[i], node, held) then [] else [bufs[i]]
    ensures RefuseSyn(bufs[i], node, held) ==>
              Resets(bufs[..i + 1], node, held) == Resets(bufs[..i], node, held) + [TcpReset.Reset(bufs[i])]
    ensures !RefuseSyn(bufs[i], node, held) ==> Resets(bufs[..i + 1], node, held) == Resets(bufs[..i], node, held)
  {
    assert bufs[..i + 1][..i] == bufs[..i];
  }

  method ResetFor(syn: Packet) returns (r: Packet)
    requires WholeTcp(syn)
    ensures r == TcpReset.Reset(syn)
  {
    var buf := BuildReset(syn);
    r := buf[..];
  }

  /** The batch split into what passes and the resets, None when nothing was refused. */
  method Split(bufs: seq<Packet>, node: Option<Prefix>, held: Option<set<IPv4>>)
    returns (keep: Option<seq<Packet>>, injected: seq<Packet>)
    ensures injected == Resets(bufs, node, held)
    ensures if keep.None? then injected == [] && Kept(bufs, node, held) == bufs
            else injected != [] && keep.value == Kept(bufs, node, held)
  {
    keep, injected := None, [];
    for i := 0 to |bufs|
      invariant injected == Resets(bufs[..i], node, held)
      invariant if keep.None? then injected == [] && Kept(bufs[..i], node, held) == bufs[..i]
                else injected != [] && keep.value == Kept(bufs[..i], node, held)
    {
      KeptStep(bufs, i, node, held);
      if !RefuseSyn(bufs[i], node, held) {
        if keep.Some? { keep := Some(keep.value + [bufs[i]]); }
        assert bufs[..i] + [bufs[i]] == bufs[..i + 1];
      } else {
        if keep.None? { keep := Some(bufs[..i]); }
        var r := ResetFor(bufs[i]);
        injected := injected + [r];
      }
    }
    assert bufs[..|bufs|] == bufs;
  }

  /** Write: `passed` is the batch handed to the device, if any, `injected` the resets in
      order. `deviceCount` is the device's answer, None an error. The batch counts as
      consumed unless the device failed. */
  method Write(bufs: seq<Packet>, node: Option<Prefix>, held: Option<set<IPv4>>, deviceCount: Option<nat>)
    returns (n: Option<nat>, passed: Option<seq<Packet>>, injected: seq<Packet>)
    ensures injected == Resets(bufs, node, held)
    ensures passed == if Kept(bufs, node, held) == [] && injected != [] then None else Some(Kept(bufs, node, held))
    ensures n == if injected == [] then deviceCount
                 else if passed.Some? && deviceCount.None? then None else Some(|bufs|)
  {
    var keep;
    keep, injected := Split(bufs, node, held);
    if keep.None? {
      passed, n := Some(bufs), deviceCount;
    } else {
      passed := if |keep.value| > 0 then keep else None;
      n := if |keep.value| > 0 && deviceCount.None? then None else Some(|bufs|);
    }
  }

  /** A reset a Read returns passes back through Write untouched. */
  lemma {:induction false} ResetsPassThrough(syn: Packet, node: Option<Prefix>, held: Option<set<IPv4>>)
    requires WholeTcp(syn)
    ensures Kept([TcpReset.Reset(syn)], node, held) == [TcpReset.Reset(syn)]
  {
    ResetNeverRefused(syn, node, held);
    assert [TcpReset.Reset(syn)][..0] == [];
  }
}
