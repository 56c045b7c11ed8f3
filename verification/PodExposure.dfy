/** When a departed pod's address is free without its blackhole (pkg/podnet/alias.go:82-197;
    pkg/podnet/podnet.go:178-244): the history of one address over every run of the pod
    network on its alias manager. */
module PodExposure {
  import opened History
  import opened Text
  import opened PodAllocator
  import opened PodAlias

  /** A free pod address that once was on lo0, no longer is, and has no blackhole. */
  predicate Exposed(n: Node, ip: nat) {
    && IsHost(n.alias.base, ip) && ip in n.alias.ever && ip !in n.alias.lo0
    && ip !in n.net.pool.held && ip !in n.alias.blackholes
  }

  lemma {:induction false} ProtectedMeans(n: Node)
    ensures Protected(n) <==> forall ip :: !Exposed(n, ip)
  {
    if !Protected(n) {
      var ip :| IsHost(n.alias.base, ip) && ip in n.alias.ever && ip !in n.alias.lo0 && ip !in n.net.pool.held
                && ip !in n.alias.blackholes;
      assert Exposed(n, ip);
    }
  }

  // ---- one address through one event ----

  /** A plumb of a fresh pod that clears the blackhole, fails to alias and frees the address. */
  predicate RollsBack(n: Node, e: Event, ip: nat)
    requires n.net.pool.Valid()
  {
    && (e.Setup? || e.Reattach?) && e.pod !in n.net.byPod && e.a.cleared && !e.a.aliased
    && Asked(n, e) == Some(ip) && IsHost(n.alias.base, ip) && ip in n.alias.ever && ip !in n.alias.lo0
  }

  /** A sweep that takes an alias nobody tracks down and cannot install its blackhole. */
  predicate SweepsBare(n: Node, e: Event, ip: nat) {
    && e.SweepOne? && e.ip == ip && ip !in n.net.inverse && IsHost(n.alias.base, ip)
    && ip !in n.alias.tracked && ip in n.alias.lo0 && !e.a.installed
  }

  predicate Exposes(n: Node, e: Event, ip: nat)
    requires n.net.pool.Valid()
  {
    RollsBack(n, e, ip) || SweepsBare(n, e, ip)
  }

  /** A plumb of the address that succeeds, or a sweep that retries its blackhole and
      installs it. */
  predicate Covers(n: Node, e: Event, ip: nat)
    requires n.net.pool.Valid()
  {
    || ((e.Setup? || e.Reattach?) && Asked(n, e) == Some(ip) && Plumbed(n, e).1)
    || (e.SweepOne? && e.ip == ip && ip in n.alias.tracked && e.a.installed)
  }

  lemma {:induction false} PlumbExposes(n: Node, e: Event, ip: nat)
    requires NodeInv(n) && (e.Setup? || e.Reattach?)
    ensures Exposed(Next(n, e), ip) <==> RollsBack(n, e, ip) || (Exposed(n, ip) && !Covers(n, e, ip))
  {
    ExhaustedExactlyWhenFull(n.net.pool);
  }

  lemma {:induction false} TeardownExposes(n: Node, pod: string, a: Answers, ip: nat)
    requires NodeInv(n) && Legal(n, Teardown(pod, a))
    ensures Exposed(Next(n, Teardown(pod, a)), ip) <==> Exposed(n, ip)
  {
    if pod in n.net.byPod { RemoveKeeps(n.alias, n.net.byPod[pod].ip, a); }
  }

  lemma {:induction false} SweepExposes(n: Node, of: nat, a: Answers, ip: nat)
    requires NodeInv(n) && Legal(n, SweepOne(of, a))
    ensures var e := SweepOne(of, a);
            Exposed(Next(n, e), ip) <==> Exposes(n, e, ip) || (Exposed(n, ip) && !Covers(n, e, ip))
  {
  }

  lemma {:induction false} ExposureStep(n: Node, e: Event, ip: nat)
    requires NodeInv(n) && Legal(n, e)
    ensures Exposed(Next(n, e), ip) <==> Exposes(n, e, ip) || (Exposed(n, ip) && !Covers(n, e, ip))
  {
    match e
    case Teardown(pod, a) => TeardownExposes(n, pod, a, ip);
    case SweepOne(of, a) => SweepExposes(n, of, a, ip);
    case _ => PlumbExposes(n, e, ip);
  }

  // ---- one address over a run ----

  /** The node before event k. */
  function StateAt(n: Node, events: seq<Event>, k: nat): (m: Node)
    requires NodeInv(n) && LegalRun(n, events) && k <= |events|
    ensures NodeInv(m)
    decreases k
  {
    if k == 0 then n
    else
      StepKeeps(n, events[0]);
      StateAt(Next(n, events[0]), events[1..], k - 1)
  }

  lemma {:induction false} StateNext(n: Node, events: seq<Event>, k: nat)
    requires NodeInv(n) && LegalRun(n, events) && k < |events|
    ensures var m := StateAt(n, events, k); Legal(m, events[k]) && StateAt(n, events, k + 1) == Next(m, events[k])
    decreases k
  {
    if k > 0 {
      StepKeeps(n, events[0]);
      StateNext(Next(n, events[0]), events[1..], k - 1);
    }
  }

  lemma {:induction false} StateEnds(n: Node, events: seq<Event>)
    requires NodeInv(n) && LegalRun(n, events)
    ensures StateAt(n, events, |events|) == Run(n, events)
    decreases |events|
  {
    if events != [] {
      StepKeeps(n, events[0]);
      StateEnds(Next(n, events[0]), events[1..]);
    }
  }

  predicate ExposedBy(n: Node, events: seq<Event>, ip: nat, i: nat)
    requires NodeInv(n) && LegalRun(n, events)
  {
    if i == 0 then Exposed(n, ip) else i <= |events| && Exposes(StateAt(n, events, i - 1), events[i - 1], ip)
  }

  predicate CoveredBy(n: Node, events: seq<Event>, ip: nat, j: nat)
    requires NodeInv(n) && LegalRun(n, events)
  {
    j < |events| && Covers(StateAt(n, events, j), events[j], ip)
  }

  /** By the events alone: something exposed the address and nothing covered it since. */
  ghost predicate LeftExposed(n: Node, events: seq<Event>, ip: nat)
    requires NodeInv(n) && LegalRun(n, events)
  {
    exists i :: 0 <= i <= |events| && ExposedBy(n, events, ip, i)
                && forall j :: i <= j < |events| ==> !CoveredBy(n, events, ip, j)
  }

  lemma {:induction false} ExposureAt(n: Node, events: seq<Event>, ip: nat, k: nat)
    requires NodeInv(n) && LegalRun(n, events) && k < |events|
    ensures Exposed(StateAt(n, events, k + 1), ip)
            <==> ExposedBy(n, events, ip, k + 1)
                 || (Exposed(StateAt(n, events, k), ip) && !CoveredBy(n, events, ip, k))
  {
    StateNext(n, events, k);
    ExposureStep(StateAt(n, events, k), events[k], ip);
  }

  lemma {:induction false} ExposuresStand(n: Node, events: seq<Event>, ip: nat,
                                          p: nat -> bool, cause: nat -> bool, ends: nat -> bool)
    requires NodeInv(n) && LegalRun(n, events)
    requires forall k :: 0 <= k <= |events| ==> p(k) == Exposed(StateAt(n, events, k), ip)
    requires forall k :: cause(k) == ExposedBy(n, events, ip, k)
    requires forall k :: ends(k) == CoveredBy(n, events, ip, k)
    ensures p(|events|) <==> exists i :: Stands(cause, ends, i, |events|)
  {
    forall k | 0 <= k < |events| ensures p(k + 1) <==> cause(k + 1) || (p(k) && !ends(k)) {
      ExposureAt(n, events, ip, k);
    }
    assert p(0) == Exposed(n, ip);
    LastCause(p, cause, ends, |events|);
  }

  lemma {:induction false} LeftStands(n: Node, events: seq<Event>, ip: nat, cause: nat -> bool, ends: nat -> bool)
    requires NodeInv(n) && LegalRun(n, events)
    requires forall k :: cause(k) == ExposedBy(n, events, ip, k)
    requires forall k :: ends(k) == CoveredBy(n, events, ip, k)
    ensures LeftExposed(n, events, ip) <==> exists i :: Stands(cause, ends, i, |events|)
  {
    if LeftExposed(n, events, ip) {
      var i: nat :| i <= |events| && ExposedBy(n, events, ip, i)
                    && forall j :: i <= j < |events| ==> !CoveredBy(n, events, ip, j);
      assert Stands(cause, ends, i, |events|);
    }
    if i: nat :| Stands(cause, ends, i, |events|) {
      assert ExposedBy(n, events, ip, i);
      forall j | i <= j < |events| ensures !CoveredBy(n, events, ip, j) { assert !ends(j); }
    }
  }

  /** Over every run: a departed pod's free address lacks its blackhole exactly when its last
      relevant event is a plumb rolled back past the clear, or a sweep that could not
      install, with no successful plumb or retried install since. */
  lemma {:induction false} ExposedExactly(n: Node, events: seq<Event>, ip: nat)
    requires NodeInv(n) && LegalRun(n, events)
    ensures Exposed(Run(n, events), ip) <==> LeftExposed(n, events, ip)
  {
    var p := (k: nat) => k <= |events| && Exposed(StateAt(n, events, k), ip);
    var cause, ends := (k: nat) => ExposedBy(n, events, ip, k), (k: nat) => CoveredBy(n, events, ip, k);
    ExposuresStand(n, events, ip, p, cause, ends);
    LeftStands(n, events, ip, cause, ends);
    StateEnds(n, events);
  }

  /** From a fresh node: a run without such a rollback and such a sweep protects every
      departed pod's free address. */
  lemma {:induction false} UndisturbedStaysProtected(base: nat, events: seq<Event>)
    requires LegalRun(Fresh(base), events)
    requires forall i, ip :: 0 <= i < |events| ==> !Exposes(StateAt(Fresh(base), events, i), events[i], ip)
    ensures Protected(Run(Fresh(base), events))
  {
    forall ip ensures !Exposed(Run(Fresh(base), events), ip) {
      ExposedExactly(Fresh(base), events, ip);
      NothingExposes(base, events, ip);
    }
    ProtectedMeans(Run(Fresh(base), events));
  }

  lemma {:induction false} NothingExposes(base: nat, events: seq<Event>, ip: nat)
    requires LegalRun(Fresh(base), events)
    requires forall i, ip :: 0 <= i < |events| ==> !Exposes(StateAt(Fresh(base), events, i), events[i], ip)
    ensures forall i: nat :: !ExposedBy(Fresh(base), events, ip, i)
  {
    forall i: nat ensures !ExposedBy(Fresh(base), events, ip, i) {
      if 0 < i <= |events| { assert !Exposes(StateAt(Fresh(base), events, i - 1), events[i - 1], ip); }
    }
  }
}
