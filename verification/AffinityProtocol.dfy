/** Sticky picks, sweeps and writers interleaved (pkg/proxy/affinity.go:141-156,
    199-286, 296-354; pkg/proxy/routing.go:533-623). Readers load an atomically swapped
    snapshot; `affMu` is a leaf lock; a writer, serialized with other writers, stores
    the new generation first and purges the port's bindings afterwards. A step is one
    access to the snapshot or one stretch of work under `affMu`, so a writer may store
    at any point of a pick's critical section. */
module AffinityProtocol {
  import opened Affinity

  const DEFAULT_TIMEOUT: int := 3 * 60 * 60

  datatype Config = Config(caps: Caps, podCIDRValid: bool)

  /** Who holds `affMu` and what it still has to do. */
  datatype Lock =
    | Free
    | Picking(req: Request, st: PortState, be: Backend)   // before the generation check
    | Recording(req: Request, be: Backend)                // after it, before the record
    | Sweeping(gen: Snapshot, now: int)

  /** A writer between its store and its purge. */
  datatype Writer = Idle | Stored(key: PortKey)

  /** What a pick returned to its caller. */
  datatype Answer = Answer(req: Request, result: PickResult)

  /** `answers` is the log of everything returned so far. */
  datatype Sys = Sys(snap: Snapshot, table: Table, lock: Lock, waiting: multiset<Request>, writer: Writer, nextId: nat,
                     answers: seq<Answer>)

  datatype Step =
    | Load(req: Request, cursor: nat)                               // lock-free load of a pick
    | Acquire(req: Request, cursor: nat, victim: Client)            // lock, reload, up to the ceiling check
    | Revalidate                                                    // the load before the record
    | Commit                                                        // record and unlock
    | Install(key: PortKey, ready: seq<Backend>, localOnly: bool, clientIP: bool, timeout: int)
    | Delete(key: PortKey)
    | Purge
    | SweepLock(now: int)
    | SweepRun

  const INIT := Sys(map[], Table(map[], 0, false), Free, multiset{}, Idle, 0, [])

  predicate Sticky(snap: Snapshot, key: PortKey) {
    key in snap && snap[key].clientIP
  }

  ghost predicate Enabled(cfg: Config, s: Sys, step: Step) {
    match step
    case Load(_, _) => true
    case Acquire(req, _, victim) => s.lock.Free? && req in s.waiting && VictimOk(s.table, cfg.caps, req, victim)
    case Revalidate => s.lock.Picking?
    case Commit => s.lock.Recording?
    case Install(_, _, _, _, _) => s.writer.Idle?
    case Delete(_) => s.writer.Idle?
    case Purge => s.writer.Stored? && s.lock.Free?
    case SweepLock(_) => s.lock.Free?
    case SweepRun => s.lock.Sweeping?
  }

  ghost function Next(cfg: Config, s: Sys, step: Step): Sys
    requires Enabled(cfg, s, step)
  {
    match step
    case Load(req, cursor) =>
      match ScopedPool(s.snap, req.key, req.external, cfg.podCIDRValid) {
        case NoPool(e) => Answered(s, req, Failed(e))
        case Pool(st, pool) =>
          if st.clientIP then s.(waiting := s.waiting + multiset{req})
          else Answered(s, req, Picked(RoundRobin(pool, cursor)))
      }
    case Acquire(req, cursor, victim) => Acquired(cfg, s.(waiting := s.waiting - multiset{req}), req, cursor, victim)
    case Revalidate =>
      var Picking(req, st, be) := s.lock;
      if req.key in s.snap && s.snap[req.key] == st then s.(lock := Recording(req, be))
      else Answered(s.(lock := Free), req, Picked(be))
    case Commit =>
      Answered(s.(table := Record(s.table, s.lock.req, s.lock.be), lock := Free), s.lock.req, Picked(s.lock.be))
    case Install(key, ready, localOnly, clientIP, timeout) =>
      if ready == [] then s.(snap := s.snap - {key}, writer := Stored(key))
      else
        var ttl := if clientIP && timeout <= 0 then DEFAULT_TIMEOUT else timeout;
        s.(snap := s.snap[key := PortState(s.nextId, ready, localOnly, clientIP, ttl)], nextId := s.nextId + 1,
           writer := if clientIP then Idle else Stored(key))
    case Delete(key) => s.(snap := s.snap - {key}, writer := Stored(key))
    case Purge => s.(table := DropAll(s.table, s.writer.key), writer := Idle)
    case SweepLock(now) => s.(lock := Sweeping(s.snap, now))
    case SweepRun => s.(table := SweptTable(s.table, s.lock.gen, s.lock.now), lock := Free)
  }

  function Answered(s: Sys, req: Request, result: PickResult): Sys { s.(answers := s.answers + [Answer(req, result)]) }

  ghost function Acquired(cfg: Config, s: Sys, req: Request, cursor: nat, victim: Client): Sys {
    match ScopedPool(s.snap, req.key, req.external, cfg.podCIDRValid)
    case NoPool(e) => Answered(s, req, Failed(e))
    case Pool(st, pool) =>
      if !st.clientIP then Answered(s, req, Picked(RoundRobin(pool, cursor)))
      else
        match Open(s.table, cfg.caps, req, st, pool, cursor, victim)
        case Answered(be, t) => Answered(s.(table := t), req, Picked(be))
        case Owes(be, t) => s.(table := t, lock := Picking(req, st, be))
  }

  /** A run: any interleaving of enabled steps from the empty table. */
  ghost predicate Run(cfg: Config, states: seq<Sys>, steps: seq<Step>) {
    && |states| == |steps| + 1
    && states[0] == INIT
    && forall i :: 0 <= i < |steps| ==>
         Enabled(cfg, states[i], steps[i]) && states[i + 1] == Next(cfg, states[i], steps[i])
  }

  ghost predicate RoomToRecord(cfg: Config, s: Sys, req: Request) {
    && req.client !in BindsOf(s.table.bindings, req.key)
    && |BindsOf(s.table.bindings, req.key)| < cfg.caps.PerPort()
    && s.table.count < cfg.caps.Total()
  }

  /** Bindings sit only on ports that are sticky now or that a writer is about to purge. */
  ghost predicate Covered(s: Sys) {
    forall k :: BindsOf(s.table.bindings, k) != map[] ==> Sticky(s.snap, k) || s.writer == Stored(k)
  }

  ghost predicate Inv(cfg: Config, s: Sys) {
    && WellCounted(s.table, cfg.caps)
    && Covered(s)
    && (s.writer.Stored? ==> !Sticky(s.snap, s.writer.key))
    && (s.lock.Picking? ==> s.lock.st.clientIP && RoomToRecord(cfg, s, s.lock.req))
    && (s.lock.Recording? ==> && RoomToRecord(cfg, s, s.lock.req)
                              && (Sticky(s.snap, s.lock.req.key) || s.writer == Stored(s.lock.req.key)))
  }

  lemma {:induction false} OpenCovers(s: Sys, caps: Caps, req: Request, st: PortState, pool: seq<Backend>,
                                      cursor: nat, victim: Client)
    requires Covered(s) && pool != [] && Sticky(s.snap, req.key)
    ensures Covered(s.(table := Open(s.table, caps, req, st, pool, cursor, victim).t))
  {
  }

  lemma {:induction false} AcquireKeeps(cfg: Config, s: Sys, req: Request, cursor: nat, victim: Client)
    requires Inv(cfg, s) && s.lock.Free? && VictimOk(s.table, cfg.caps, req, victim)
    ensures Inv(cfg, Acquired(cfg, s, req, cursor, victim))
  {
    var live := ScopedPool(s.snap, req.key, req.external, cfg.podCIDRValid);
    if live.Pool? && live.st.clientIP {
      OpenKeeps(s.table, cfg.caps, req, live.st, live.pool, cursor, victim);
      OpenCovers(s, cfg.caps, req, live.st, live.pool, cursor, victim);
    }
  }

  lemma {:induction false} CommitKeeps(cfg: Config, s: Sys)
    requires Inv(cfg, s) && s.lock.Recording?
    ensures Inv(cfg, Next(cfg, s, Commit))
  {
    RecordKeeps(s.table, cfg.caps, s.lock.req, s.lock.be);
  }

  lemma {:induction false} PurgeKeeps(cfg: Config, s: Sys)
    requires Inv(cfg, s) && Enabled(cfg, s, Purge)
    ensures Inv(cfg, Next(cfg, s, Purge))
  {
    DropAllKeeps(s.table, cfg.caps, s.writer.key);
  }

  /** A sweep binds no port that was not bound. */
  lemma {:induction false} SweptWereBound(t: Table, caps: Caps, gen: Snapshot, now: int, k: PortKey)
    requires WellCounted(t, caps) && BindsOf(SweptTable(t, gen, now).bindings, k) != map[]
    ensures BindsOf(t.bindings, k) != map[]
  {
    SweepKeeps(t, caps, gen, now);
    var c :| c in BindsOf(SweptTable(t, gen, now).bindings, k);
    assert c in BindsOf(t.bindings, k);
  }

  lemma {:induction false} SweepRunKeeps(cfg: Config, s: Sys)
    requires Inv(cfg, s) && s.lock.Sweeping?
    ensures Inv(cfg, Next(cfg, s, SweepRun))
  {
    SweepKeeps(s.table, cfg.caps, s.lock.gen, s.lock.now);
    var swept := SweptTable(s.table, s.lock.gen, s.lock.now);
    forall k | BindsOf(swept.bindings, k) != map[] ensures BindsOf(s.table.bindings, k) != map[] {
      SweptWereBound(s.table, cfg.caps, s.lock.gen, s.lock.now, k);
    }
  }

  lemma {:induction false} InstallKeeps(cfg: Config, s: Sys, step: Step)
    requires Inv(cfg, s) && Enabled(cfg, s, step) && (step.Install? || step.Delete?)
    ensures Inv(cfg, Next(cfg, s, step))
  {
    var n := Next(cfg, s, step);
    assert n.table == s.table && n.lock == s.lock;
    forall k
      ensures Sticky(n.snap, k) || n.writer == Stored(k) || !Sticky(s.snap, k)
    {
    }
  }

  lemma {:induction false} RevalidateKeeps(cfg: Config, s: Sys)
    requires Inv(cfg, s) && s.lock.Picking?
    ensures Inv(cfg, Next(cfg, s, Revalidate))
  {
  }

  lemma {:induction false} StepKeeps(cfg: Config, s: Sys, step: Step)
    requires Inv(cfg, s) && Enabled(cfg, s, step)
    ensures Inv(cfg, Next(cfg, s, step))
  {
    match step
    case Load(_, _) =>
    case Acquire(req, cursor, victim) =>
      AcquireKeeps(cfg, s.(waiting := s.waiting - multiset{req}), req, cursor, victim);
    case Revalidate => RevalidateKeeps(cfg, s);
    case Commit => CommitKeeps(cfg, s);
    case Install(_, _, _, _, _) => InstallKeeps(cfg, s, step);
    case Delete(_) => InstallKeeps(cfg, s, step);
    case Purge => PurgeKeeps(cfg, s);
    case SweepLock(_) =>
    case SweepRun => SweepRunKeeps(cfg, s);
  }

  lemma {:induction false} RunKeeps(cfg: Config, states: seq<Sys>, steps: seq<Step>, i: nat)
    requires Run(cfg, states, steps) && i < |states|
    ensures Inv(cfg, states[i])
  {
    if i == 0 {
      SumEmpty();
    } else {
      RunKeeps(cfg, states, steps, i - 1);
      StepKeeps(cfg, states[i - 1], steps[i - 1]);
    }
  }

  /** In every interleaving the counter is the exact number of bindings and neither cap
      is exceeded. */
  lemma CountExactAndCapped(cfg: Config, states: seq<Sys>, steps: seq<Step>, i: nat)
    requires Run(cfg, states, steps) && i < |states|
    ensures states[i].table.count == Sum(states[i].table.bindings) <= cfg.caps.Total()
    ensures forall k :: |BindsOf(states[i].table.bindings, k)| <= cfg.caps.PerPort()
  {
    RunKeeps(cfg, states, steps, i);
  }

  /** In every interleaving a port that is absent, drained or not ClientIP holds bindings
      only while a writer sits between its store and its purge. */
  lemma BindingsOnlyWhilePurgeOwed(cfg: Config, states: seq<Sys>, steps: seq<Step>, i: nat, key: PortKey)
    requires Run(cfg, states, steps) && i < |states|
    requires !Sticky(states[i].snap, key) && states[i].writer != Stored(key)
    ensures BindsOf(states[i].table.bindings, key) == map[]
  {
    RunKeeps(cfg, states, steps, i);
  }

  /** The one step after which a port may hold bindings again. */
  predicate SticksAgain(step: Step, key: PortKey) {
    step.Install? && step.key == key && step.clientIP && step.ready != []
  }

  /** The port is not sticky, holds no binding, and no pick of it is under way. */
  ghost predicate Quiet(s: Sys, key: PortKey) {
    && !Sticky(s.snap, key) && BindsOf(s.table.bindings, key) == map[]
    && (UnderWay(s.lock) ==> s.lock.req.key != key)
  }

  lemma {:induction false} OpenLeavesOthers(t: Table, caps: Caps, req: Request, st: PortState, pool: seq<Backend>,
                                            cursor: nat, victim: Client, key: PortKey)
    requires pool != [] && key != req.key
    ensures BindsOf(Open(t, caps, req, st, pool, cursor, victim).t.bindings, key) == BindsOf(t.bindings, key)
  {
  }

  lemma {:induction false} AcquireStaysQuiet(cfg: Config, s: Sys, req: Request, cursor: nat, victim: Client,
                                             key: PortKey)
    requires Quiet(s, key)
    ensures Quiet(Acquired(cfg, s, req, cursor, victim), key)
  {
    var live := ScopedPool(s.snap, req.key, req.external, cfg.podCIDRValid);
    if live.Pool? && live.st.clientIP {
      OpenLeavesOthers(s.table, cfg.caps, req, live.st, live.pool, cursor, victim, key);
    }
  }

  lemma {:induction false} SweepStaysQuiet(cfg: Config, s: Sys, key: PortKey)
    requires Inv(cfg, s) && s.lock.Sweeping? && Quiet(s, key)
    ensures Quiet(Next(cfg, s, SweepRun), key)
  {
    SweepKeeps(s.table, cfg.caps, s.lock.gen, s.lock.now);
    var swept := SweptTable(s.table, s.lock.gen, s.lock.now);
    assert forall c: Client :: c !in BindsOf(swept.bindings, key);
  }

  lemma {:induction false} WriterStaysQuiet(cfg: Config, s: Sys, step: Step, key: PortKey)
    requires Enabled(cfg, s, step) && Quiet(s, key) && !SticksAgain(step, key)
    requires step.Install? || step.Delete? || step.Purge?
    ensures Quiet(Next(cfg, s, step), key)
  {
  }

  lemma {:induction false} PickStaysQuiet(cfg: Config, s: Sys, step: Step, key: PortKey)
    requires Enabled(cfg, s, step) && Quiet(s, key)
             && (step.Load? || step.Revalidate? || step.Commit? || step.SweepLock?)
    ensures Quiet(Next(cfg, s, step), key)
  {
  }

  lemma {:induction false} StaysQuiet(cfg: Config, s: Sys, step: Step, key: PortKey)
    requires Inv(cfg, s) && Enabled(cfg, s, step) && Quiet(s, key) && !SticksAgain(step, key)
    ensures Quiet(Next(cfg, s, step), key)
  {
    match step
    case Acquire(req, cursor, victim) =>
      AcquireStaysQuiet(cfg, s.(waiting := s.waiting - multiset{req}), req, cursor, victim, key);
    case SweepRun => SweepStaysQuiet(cfg, s, key);
    case Install(_, _, _, _, _) => WriterStaysQuiet(cfg, s, step, key);
    case Delete(_) => WriterStaysQuiet(cfg, s, step, key);
    case Purge => WriterStaysQuiet(cfg, s, step, key);
    case _ => PickStaysQuiet(cfg, s, step, key);
  }

  /** No resurrection: once a purge has run, the port stays empty until a later writer
      publishes it as ClientIP again, whatever picks were in flight and whatever else is
      published for it. */
  lemma {:induction false} PurgedStaysPurged(cfg: Config, states: seq<Sys>, steps: seq<Step>, purge: nat, j: nat,
                                             key: PortKey)
    requires Run(cfg, states, steps)
    requires purge < |steps| && steps[purge] == Purge && states[purge].writer == Stored(key)
    requires purge < j < |states|
    requires forall m :: purge < m < j ==> !SticksAgain(steps[m], key)
    ensures BindsOf(states[j].table.bindings, key) == map[] && Quiet(states[j], key)
    decreases j
  {
    RunKeeps(cfg, states, steps, j - 1);
    if j > purge + 1 {
      PurgedStaysPurged(cfg, states, steps, purge, j - 1, key);
      StaysQuiet(cfg, states[j - 1], steps[j - 1], key);
    }
  }

  // ---- what picks return ----

  /** Step j loaded the snapshot for the request, lock-free or under affMu. */
  predicate Loads(step: Step, req: Request) { (step.Load? || step.Acquire?) && step.req == req }

  /** The result is right for the generation `snap`: a backend of the pool its scope
      selects, or the error when it selects none. */
  predicate Eligible(cfg: Config, snap: Snapshot, a: Answer) {
    match ScopedPool(snap, a.req.key, a.req.external, cfg.podCIDRValid)
    case NoPool(e) => a.result == Failed(e)
    case Pool(_, pool) => a.result.Picked? && a.result.be.addr in Addrs(pool)
  }

  /** The pick of `req` holds affMu in every state after j up to k. */
  predicate Holds(states: seq<Sys>, j: nat, k: nat, req: Request)
    requires k < |states|
  {
    forall m :: j < m <= k ==> UnderWay(states[m].lock) && states[m].lock.req == req
  }

  /** The pick that returns at step k last loaded the snapshot at step j, in the same
      critical section, and its answer is right for what it loaded. */
  predicate AnsweredFrom(cfg: Config, states: seq<Sys>, steps: seq<Step>, j: nat, k: nat, a: Answer)
    requires k < |states| && k < |steps|
  {
    j <= k && Loads(steps[j], a.req) && Holds(states, j, k, a.req) && Eligible(cfg, states[j].snap, a)
  }

  predicate UnderWay(l: Lock) { l.Picking? || l.Recording? }

  /** The pick under way in state k took the lock at step j and holds a backend of the
      pool it reloaded there. */
  predicate HeldFrom(cfg: Config, states: seq<Sys>, steps: seq<Step>, j: nat, k: nat)
    requires |states| == |steps| + 1 && k < |states|
  {
    && j < k && UnderWay(states[k].lock) && Loads(steps[j], states[k].lock.req)
    && Holds(states, j, k, states[k].lock.req)
    && Eligible(cfg, states[j].snap, Answer(states[k].lock.req, Picked(states[k].lock.be)))
  }

  lemma {:induction false} HeldByAcquire(cfg: Config, states: seq<Sys>, steps: seq<Step>, k: nat)
    requires Run(cfg, states, steps) && k < |steps| && steps[k].Acquire? && UnderWay(states[k + 1].lock)
    ensures HeldFrom(cfg, states, steps, k, k + 1)
  {
    var s, step := states[k], steps[k];
    assert Enabled(cfg, s, step) && states[k + 1] == Next(cfg, s, step);
    RunKeeps(cfg, states, steps, k);
    AcquireEligible(cfg, s.(waiting := s.waiting - multiset{step.req}), step.req, step.cursor, step.victim);
  }

  lemma {:induction false} HeldOn(cfg: Config, states: seq<Sys>, steps: seq<Step>, j: nat, k: nat)
    requires |states| == |steps| + 1 && k < |steps| && HeldFrom(cfg, states, steps, j, k)
    requires var l, m := states[k].lock, states[k + 1].lock; UnderWay(m) && l.req == m.req && l.be == m.be
    ensures HeldFrom(cfg, states, steps, j, k + 1)
  {
  }

  lemma {:induction false} LockComesFrom(cfg: Config, states: seq<Sys>, steps: seq<Step>, k: nat) returns (j: nat)
    requires Run(cfg, states, steps) && k < |states| && UnderWay(states[k].lock)
    ensures HeldFrom(cfg, states, steps, j, k)
  {
    assert Enabled(cfg, states[k - 1], steps[k - 1]) && states[k] == Next(cfg, states[k - 1], steps[k - 1]);
    if steps[k - 1].Acquire? {
      j := k - 1;
      HeldByAcquire(cfg, states, steps, k - 1);
    } else {
      LockKept(cfg, states[k - 1], steps[k - 1]);
      j := LockComesFrom(cfg, states, steps, k - 1);
      HeldOn(cfg, states, steps, j, k - 1);
    }
  }

  lemma {:induction false} LockKept(cfg: Config, s: Sys, step: Step)
    requires Enabled(cfg, s, step) && !step.Acquire?
    requires UnderWay(Next(cfg, s, step).lock)
    ensures var l := Next(cfg, s, step).lock; UnderWay(s.lock) && s.lock.req == l.req && s.lock.be == l.be
  {
  }

  lemma {:induction false} AcquireEligible(cfg: Config, s: Sys, req: Request, cursor: nat, victim: Client)
    requires Inv(cfg, s) && s.lock.Free? && VictimOk(s.table, cfg.caps, req, victim)
    ensures var t := Acquired(cfg, s, req, cursor, victim);
            && (t.lock.Picking? ==> t.lock.req == req && Eligible(cfg, s.snap, Answer(req, Picked(t.lock.be))))
            && (t.lock.Picking? || t.lock.Free?)
            && (t.answers == s.answers
                || exists a :: t.answers == s.answers + [a] && a.req == req && Eligible(cfg, s.snap, a))
            && (t.answers == s.answers <==> t.lock.Picking?)
  {
    var t := Acquired(cfg, s, req, cursor, victim);
    var live := ScopedPool(s.snap, req.key, req.external, cfg.podCIDRValid);
    if live.Pool? && live.st.clientIP {
      OpenKeeps(s.table, cfg.caps, req, live.st, live.pool, cursor, victim);
    }
    if !t.lock.Picking? {
      var a := t.answers[|s.answers|];
      assert t.answers == s.answers + [a] && a.req == req && Eligible(cfg, s.snap, a);
    }
  }

  /** Every step returns at most one answer, and every answer returned, whether a hit, a
      degraded, recorded or unrecorded fresh pick, a pick with affinity off or an error, is
      right for the generation its pick last loaded. */
  lemma {:induction false} ReturnedIsEligible(cfg: Config, states: seq<Sys>, steps: seq<Step>, k: nat)
    requires Run(cfg, states, steps) && k < |steps|
    ensures states[k + 1].answers == states[k].answers
            || exists j, a :: states[k + 1].answers == states[k].answers + [a]
                              && AnsweredFrom(cfg, states, steps, j, k, a)
  {
    var s, step, t := states[k], steps[k], states[k + 1];
    assert Enabled(cfg, s, step) && t == Next(cfg, s, step);
    if step.Load? && t.answers != s.answers {
      var a := t.answers[|s.answers|];
      assert t.answers == s.answers + [a] && AnsweredFrom(cfg, states, steps, k, k, a);
    } else if step.Acquire? && t.answers != s.answers {
      RunKeeps(cfg, states, steps, k);
      AcquireEligible(cfg, s.(waiting := s.waiting - multiset{step.req}), step.req, step.cursor, step.victim);
      var a :| t.answers == s.answers + [a] && a.req == step.req && Eligible(cfg, s.snap, a);
      assert AnsweredFrom(cfg, states, steps, k, k, a);
    } else if (step.Revalidate? || step.Commit?) && t.answers != s.answers {
      var a := Answer(s.lock.req, Picked(s.lock.be));
      var j := LockComesFrom(cfg, states, steps, k);
      assert t.answers == s.answers + [a] && AnsweredFrom(cfg, states, steps, j, k, a);
    }
  }

  /** In every interleaving, every answer ever returned is a backend of the pool, or the
      error, of the generation its pick loaded in the critical section that returned it. */
  lemma {:induction false} AnswerIsEligible(cfg: Config, states: seq<Sys>, steps: seq<Step>, i: nat, a: Answer)
    requires Run(cfg, states, steps) && i < |states| && a in states[i].answers
    ensures exists j, k :: 0 <= j <= k < i && AnsweredFrom(cfg, states, steps, j, k, a)
  {
    if i > 0 {
      ReturnedIsEligible(cfg, states, steps, i - 1);
      if a in states[i - 1].answers {
        AnswerIsEligible(cfg, states, steps, i - 1, a);
      } else {
        var j, b :| states[i].answers == states[i - 1].answers + [b] && AnsweredFrom(cfg, states, steps, j, i - 1, b);
        assert a == b;
      }
    }
  }
}
