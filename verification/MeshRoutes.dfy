/** The kernel routes of the mesh utun (pkg/mesh/device_wireguard.go:434-519, 533-541;
    pkg/mesh/routes.go:81-89, 395-407): the applier deletes what it owns and no longer
    wants, adds what it wants and does not own, and then takes the kernel's own table,
    never the verdict of a request, as what it owns. */
module MeshRoutes {
  import opened History
  import opened Text
  import opened Inet

  datatype RouteSpec = RouteSpec(prefix: Prefix)
  datatype Route = Route(prefix: Prefix, iface: string, gateway: Option<IPv4>, viaGateway: bool)

  predicate Holds(k: Route, want: Route) {
    k.prefix == want.prefix && k.iface == want.iface
    && if want.gateway.Some? then k.viaGateway && k.gateway == want.gateway else !k.viaGateway
  }

  /** The prefixes a table routes over the link `iface` itself. */
  function LinkRoutes(have: seq<Route>, iface: string): set<Prefix> {
    set k <- have | k.iface == iface && !k.viaGateway :: k.prefix
  }

  function Wanted(want: seq<RouteSpec>): set<Prefix> {
    set r <- want :: r.prefix
  }

  // ---- sortedPrefixes ----

  predicate Before(a: Prefix, b: Prefix) { a.addr < b.addr || (a.addr == b.addr && a.bits <= b.bits) }

  lemma {:induction false} FirstExists(s: set<Prefix>)
    requires s != {}
    ensures exists m :: m in s && forall x <- s :: Before(m, x)
  {
    var x :| x in s;
    var rest := s - {x};
    if rest == {} {
      assert s == {x} && forall y <- s :: Before(x, y);
    } else {
      FirstExists(rest);
      var m :| m in rest && forall y <- rest :: Before(m, y);
      var first := if Before(m, x) then m else x;
      forall y | y in s ensures Before(first, y) {
        if y != x { assert y in rest; }
      }
    }
  }

  lemma FirstUnique(s: set<Prefix>)
    ensures forall m, n ::
              m in s && n in s && (forall x <- s :: Before(m, x)) && (forall x <- s :: Before(n, x)) ==> m == n
  {
  }

  /** The prefixes of a set, the least by address and then length first. */
  function SortedPrefixes(s: set<Prefix>): (r: seq<Prefix>)
    ensures forall x :: x in r <==> x in s
  {
    if s == {} then []
    else
      FirstExists(s);
      FirstUnique(s);
      var m :| m in s && forall x <- s :: Before(m, x);
      [m] + SortedPrefixes(s - {m})
  }

  predicate Ascending(r: seq<Prefix>) {
    forall i, j :: 0 <= i < j < |r| ==> r[i] != r[j] && Before(r[i], r[j])
  }

  lemma {:induction false} AscendingCons(m: Prefix, rest: seq<Prefix>)
    requires Ascending(rest) && forall x <- rest :: x != m && Before(m, x)
    ensures Ascending([m] + rest)
  {
    var r := [m] + rest;
    assert forall j :: 0 < j < |r| ==> r[j] == rest[j - 1] && r[j] in rest;
  }

  lemma {:induction false} SortedStep(s: set<Prefix>) returns (m: Prefix)
    requires s != {}
    ensures m in s && (forall x <- s :: Before(m, x)) && SortedPrefixes(s) == [m] + SortedPrefixes(s - {m})
  {
    FirstExists(s);
    FirstUnique(s);
    m :| m in s && forall x <- s :: Before(m, x);
  }

  lemma {:induction false} SortedAscending(s: set<Prefix>)
    ensures Ascending(SortedPrefixes(s))
    decreases s
  {
    if s != {} {
      var m := SortedStep(s);
      SortedAscending(s - {m});
      AscendingCons(m, SortedPrefixes(s - {m}));
    }
  }

  function Chosen(ps: seq<Prefix>, keep: set<Prefix>): set<Prefix> { set p <- ps | p in keep }

  lemma {:induction false} ChosenOf(s: set<Prefix>, order: seq<Prefix>, keep: set<Prefix>)
    requires forall x :: x in order <==> x in s
    ensures Chosen(order, keep) == s * keep
    ensures (forall j :: 0 <= j < |order| ==> order[j] in keep) <==> s <= keep
  {
    if forall j :: 0 <= j < |order| ==> order[j] in keep {
      assert forall x <- order :: x in keep;
    }
    if s <= keep {
      forall j | 0 <= j < |order| ensures order[j] in keep { assert order[j] in order; }
    }
  }

  lemma ChosenStep(ps: seq<Prefix>, i: nat, keep: set<Prefix>)
    requires i < |ps|
    ensures Chosen(ps[..i + 1], keep) == Chosen(ps[..i], keep) + (if ps[i] in keep then {ps[i]} else {})
  {
    assert ps[..i + 1] == ps[..i] + [ps[i]];
  }

  class RouteOwner {
    const iface: string
    var routes: map<Prefix, RouteSpec>

    predicate Valid()
      reads this
    {
      forall p <- routes :: routes[p].prefix == p
    }

    constructor (iface: string)
      ensures Valid() && routes == map[] && this.iface == iface
    {
      this.iface := iface;
      routes := map[];
    }

    function KernelRoute(r: RouteSpec): Route { Route(r.prefix, iface, None, false) }

    method InKernel(have: seq<Route>, r: RouteSpec) returns (found: bool)
      ensures found <==> r.prefix in LinkRoutes(have, iface)
    {
      for i := 0 to |have|
        invariant forall j :: 0 <= j < i ==> !Holds(have[j], KernelRoute(r))
      {
        if Holds(have[i], KernelRoute(r)) {
          assert have[i] in have;
          return true;
        }
      }
      found := false;
    }

    method Desired(want: seq<RouteSpec>) returns (desired: map<Prefix, RouteSpec>)
      ensures desired.Keys == Wanted(want) && forall p <- desired :: desired[p].prefix == p
    {
      desired := map[];
      for i := 0 to |want|
        invariant desired.Keys == Wanted(want[..i]) && forall p <- desired :: desired[p].prefix == p
      {
        desired := desired[want[i].prefix := want[i]];
        assert want[..i + 1] == want[..i] + [want[i]];
      }
      assert want[..|want|] == want;
    }

    /** The keys of `from` that `other` does not hold in that exact form. */
    method Differing(from: map<Prefix, RouteSpec>, other: map<Prefix, RouteSpec>) returns (r: seq<Prefix>)
      requires (forall p <- from :: from[p].prefix == p) && (forall p <- other :: other[p].prefix == p)
      ensures (set p <- r) == from.Keys - other.Keys
    {
      r := [];
      var order := SortedPrefixes(from.Keys);
      ghost var keep := from.Keys - other.Keys;
      for i := 0 to |order|
        invariant (set p <- r) == Chosen(order[..i], keep)
      {
        ChosenStep(order, i, keep);
        assert order[i] in order;
        if order[i] !in other || other[order[i]] != from[order[i]] {
          r := r + [order[i]];
        }
      }
      assert order[..|order|] == order;
      assert Chosen(order, keep) == keep;
    }

    /** The read-back of `desired`: what the table holds of it, and whether all of it is there. */
    method Verify(desired: map<Prefix, RouteSpec>, have: seq<Route>)
      returns (verified: map<Prefix, RouteSpec>, missing: seq<Prefix>)
      requires forall p <- desired :: desired[p].prefix == p
      ensures verified.Keys == desired.Keys * LinkRoutes(have, iface) && forall p <- verified :: verified[p].prefix == p
      ensures missing == [] <==> desired.Keys <= LinkRoutes(have, iface)
    {
      verified, missing := map[], [];
      var order := SortedPrefixes(desired.Keys);
      ghost var links := LinkRoutes(have, iface);
      for i := 0 to |order|
        invariant verified.Keys == Chosen(order[..i], links) && forall p <- verified :: verified[p].prefix == p
        invariant missing == [] <==> forall j :: 0 <= j < i ==> order[j] in links
      {
        ChosenStep(order, i, links);
        assert order[i] in order;
        var held := InKernel(have, desired[order[i]]);
        if held {
          verified := verified[order[i] := desired[order[i]]];
        } else {
          missing := missing + [order[i]];
        }
      }
      assert order[..|order|] == order;
      ChosenOf(desired.Keys, order, links);
    }

    /** The stale routes the table still holds stay owned. */
    method Linger(stale: seq<Prefix>, verified: map<Prefix, RouteSpec>, have: seq<Route>)
      returns (all: map<Prefix, RouteSpec>, lingering: set<Prefix>)
      requires Valid() && (forall p <- verified :: verified[p].prefix == p)
      requires (set p <- stale) <= routes.Keys && (set p <- stale) !! verified.Keys
      ensures lingering == (set p <- stale) * LinkRoutes(have, iface)
      ensures all.Keys == verified.Keys + lingering && forall p <- all :: all[p].prefix == p
    {
      all, lingering := verified, {};
      ghost var links := LinkRoutes(have, iface);
      for i := 0 to |stale|
        invariant lingering == Chosen(stale[..i], links) && all.Keys == verified.Keys + lingering
        invariant forall p <- all :: all[p].prefix == p
      {
        ChosenStep(stale, i, links);
        assert stale[i] in (set p <- stale);
        var r := routes[stale[i]];
        if stale[i] in all { continue; }
        var held := InKernel(have, r);
        if held {
          lingering := lingering + {stale[i]};
          all := all[stale[i] := r];
        }
      }
      assert stale[..|stale|] == stale;
    }

    /** reconcileRoutes. `listing` is the kernel's answer to the read-back, None when it
        failed; `deleted` and `added` are the requests made before it, whose own verdicts
        decide nothing. */
    method ReconcileRoutes(want: seq<RouteSpec>, listing: Option<seq<Route>>)
      returns (ok: bool, installed: int, deleted: seq<Prefix>, added: seq<Prefix>)
      requires Valid()
      modifies this
      ensures Valid()
      ensures (set p <- deleted) == old(routes.Keys) - Wanted(want)
              && (set p <- added) == Wanted(want) - old(routes.Keys)
      ensures listing.None? ==> !ok && routes == old(routes)
      ensures listing.Some? ==> routes.Keys == (Wanted(want) + old(routes.Keys)) * LinkRoutes(listing.value, iface)
      ensures ok <==> listing.Some? && Wanted(want) <= LinkRoutes(listing.value, iface)
      ensures ok ==> installed == |Wanted(want)|
    {
      ok, installed := false, 0;
      var desired := Desired(want);
      deleted := Differing(routes, desired);
      added := Differing(desired, routes);
      if listing.Some? {
        ok, installed := ReadBack(desired, deleted, listing.value);
      }
    }

    method ReadBack(desired: map<Prefix, RouteSpec>, stale: seq<Prefix>, have: seq<Route>)
      returns (ok: bool, installed: int)
      requires Valid() && (forall p <- desired :: desired[p].prefix == p)
               && (set p <- stale) == routes.Keys - desired.Keys
      modifies this
      ensures Valid() && routes.Keys == (desired.Keys + old(routes.Keys)) * LinkRoutes(have, iface)
      ensures ok <==> desired.Keys <= LinkRoutes(have, iface)
      ensures ok ==> installed == |desired.Keys|
    {
      ok, installed := false, 0;
      var verified, missing := Verify(desired, have);
      var all, lingering := Linger(stale, verified, have);
      OwnedSets(routes.Keys, desired.Keys, LinkRoutes(have, iface), all.Keys);
      routes := all;
      if missing == [] {
        ok, installed := true, |all.Keys| - |lingering|;
      }
    }
  }

  lemma OwnedSets(owned: set<Prefix>, wanted: set<Prefix>, links: set<Prefix>, all: set<Prefix>)
    requires all == wanted * links + (owned - wanted) * links
    ensures all == (wanted + owned) * links
    ensures wanted <= links ==> |all| - |(owned - wanted) * links| == |wanted|
  {
    if wanted <= links {
      assert wanted * links == wanted && wanted !! (owned - wanted) * links;
    }
  }

  // ---- runs over an arbitrary kernel ----

  /** One reconcile as the kernel sees it: `dropped` and `landed` are the requests that
      took effect, accepted or refused alike, and `listed` tells whether the read-back
      succeeded. */
  datatype Round = Round(want: set<Prefix>, dropped: set<Prefix>, landed: set<Prefix>, listed: bool)

  /** The utun's link routes in the kernel, and what the applier owns of them. */
  datatype State = State(kernel: set<Prefix>, owned: set<Prefix>)

  predicate Possible(s: State, r: Round) {
    r.dropped <= s.owned - r.want && r.landed <= r.want - s.owned
  }

  function Reconciled(s: State, r: Round): State {
    var kernel := s.kernel - r.dropped + r.landed;
    State(kernel, if r.listed then (r.want + s.owned) * kernel else s.owned)
  }

  predicate PossibleRun(s: State, rounds: seq<Round>) {
    || rounds == []
    || (&& PossibleRun(s, rounds[..|rounds| - 1])
        && Possible(After(s, rounds[..|rounds| - 1]), rounds[|rounds| - 1]))
  }

  function After(s: State, rounds: seq<Round>): State {
    if rounds == [] then s else Reconciled(After(s, rounds[..|rounds| - 1]), rounds[|rounds| - 1])
  }

  /** Every link route the applier put in the kernel is one it owns, hence one it will
      remove. `foreign` are the routes that were there before it. */
  predicate NoLeak(s: State, foreign: set<Prefix>) { s.kernel <= s.owned + foreign }

  /** One reconcile leaks exactly when its read-back fails after an add took effect. */
  lemma {:induction false} LeaksExactly(s: State, r: Round, foreign: set<Prefix>)
    requires NoLeak(s, foreign) && Possible(s, r)
    ensures NoLeak(Reconciled(s, r), foreign) <==> r.listed || r.landed <= foreign
  {
    var t := Reconciled(s, r);
    if !r.listed && !(r.landed <= foreign) {
      var p :| p in r.landed && p !in foreign;
      assert p in t.kernel && p !in t.owned + foreign;
    } else {
      assert forall p <- t.kernel :: p in t.owned + foreign;
    }
  }

  /** While every read-back succeeds no run leaks, whatever the kernel did with the requests. */
  lemma {:induction false} ListedRunNeverLeaks(kernel: set<Prefix>, rounds: seq<Round>)
    requires PossibleRun(State(kernel, {}), rounds) && forall r <- rounds :: r.listed
    ensures NoLeak(After(State(kernel, {}), rounds), kernel)
    ensures After(State(kernel, {}), rounds).owned <= After(State(kernel, {}), rounds).kernel
    decreases |rounds|
  {
    if rounds != [] {
      var n := |rounds| - 1;
      assert rounds[n] in rounds;
      ListedRunNeverLeaks(kernel, rounds[..n]);
      LeaksExactly(After(State(kernel, {}), rounds[..n]), rounds[n], kernel);
    }
  }

  // ---- how long a leaked route lives ----

  /** In the kernel on the utun and not among what the applier owns. */
  predicate Leaked(s: State, p: Prefix) { p in s.kernel && p !in s.owned }

  /** The add took effect and the read-back failed. */
  predicate Leaks(r: Round, p: Prefix) { p in r.landed && !r.listed }

  /** The reconcile wants the route and reads the table back. */
  predicate Reclaims(r: Round, p: Prefix) { p in r.want && r.listed }

  lemma {:induction false} LeakStep(s: State, r: Round, p: Prefix)
    requires Possible(s, r)
    ensures Leaked(Reconciled(s, r), p) <==> Leaks(r, p) || (Leaked(s, p) && !Reclaims(r, p))
    ensures Leaked(s, p) && Reclaims(r, p) ==> p in Reconciled(s, r).owned
  {
  }

  /** The state before round k, or the last one. */
  function At(s: State, rounds: seq<Round>, k: nat): State {
    if k <= |rounds| then After(s, rounds[..k]) else After(s, rounds)
  }

  lemma {:induction false} AtNext(s: State, rounds: seq<Round>, k: nat)
    requires PossibleRun(s, rounds) && k < |rounds|
    ensures Possible(At(s, rounds, k), rounds[k]) && At(s, rounds, k + 1) == Reconciled(At(s, rounds, k), rounds[k])
    decreases |rounds|
  {
    assert rounds[..k + 1][..k] == rounds[..k];
    var n := |rounds| - 1;
    if k < n {
      AtNext(s, rounds[..n], k);
      assert rounds[..n][..k] == rounds[..k] && rounds[..n][..k + 1] == rounds[..k + 1];
    } else {
      assert rounds[..k + 1] == rounds;
    }
  }

  /** What leaked the route by round i: it was leaked before the run, or round i - 1 did. */
  predicate LeakedBy(s: State, rounds: seq<Round>, p: Prefix, i: nat) {
    if i == 0 then Leaked(s, p) else i <= |rounds| && Leaks(rounds[i - 1], p)
  }

  predicate ReclaimedBy(rounds: seq<Round>, p: Prefix, j: nat) { j < |rounds| && Reclaims(rounds[j], p) }

  lemma {:induction false} LeakAtStep(s: State, rounds: seq<Round>, p: Prefix, k: nat)
    requires PossibleRun(s, rounds) && k < |rounds|
    ensures Leaked(At(s, rounds, k + 1), p)
            <==> LeakedBy(s, rounds, p, k + 1) || (Leaked(At(s, rounds, k), p) && !ReclaimedBy(rounds, p, k))
  {
    AtNext(s, rounds, k);
    LeakStep(At(s, rounds, k), rounds[k], p);
  }

  /** Over every run, whatever the kernel did: a route is in the kernel unowned exactly when
      some read-back failed after its add took effect and no later reconcile both wanted
      it and read back. */
  lemma {:induction false} LeakLivesExactly(s: State, rounds: seq<Round>, p: Prefix)
    requires PossibleRun(s, rounds)
    ensures Leaked(After(s, rounds), p) <==>
            exists i :: 0 <= i <= |rounds| && LeakedBy(s, rounds, p, i)
                        && forall j :: i <= j < |rounds| ==> !ReclaimedBy(rounds, p, j)
  {
    var leaked := (k: nat) => Leaked(At(s, rounds, k), p);
    var cause, ends := (k: nat) => LeakedBy(s, rounds, p, k), (k: nat) => ReclaimedBy(rounds, p, k);
    assert rounds[..0] == [] && rounds[..|rounds|] == rounds;
    forall k | 0 <= k < |rounds| ensures leaked(k + 1) <==> cause(k + 1) || (leaked(k) && !ends(k)) {
      LeakAtStep(s, rounds, p, k);
    }
    LastCause(leaked, cause, ends, |rounds|);
    if i: nat :| i <= |rounds| && LeakedBy(s, rounds, p, i)
                 && forall j :: i <= j < |rounds| ==> !ReclaimedBy(rounds, p, j) {
      assert Stands(cause, ends, i, |rounds|);
    }
    if i: nat :| Stands(cause, ends, i, |rounds|) {
      assert LeakedBy(s, rounds, p, i);
      forall j | i <= j < |rounds| ensures !ReclaimedBy(rounds, p, j) { assert !ends(j); }
    }
  }

  /** From an empty table: an add whose read-back failed leaks its route, reconciles that do
      not want the route leave it, and the first listed one that does owns it again. */
  lemma {:induction false} FailedReadBackLeaks(p: Prefix, idle: seq<Round>)
    requires PossibleRun(State({p}, {}), idle) && forall r <- idle :: !Reclaims(r, p)
    ensures PossibleRun(State({}, {}), [Round({p}, {}, {p}, false)])
    ensures After(State({}, {}), [Round({p}, {}, {p}, false)]) == State({p}, {})
    ensures Leaked(After(State({p}, {}), idle), p)
    ensures p in Reconciled(After(State({p}, {}), idle), Round({p}, {}, {}, true)).owned
  {
    var a, s := Round({p}, {}, {p}, false), State({}, {});
    assert [a][..0] == [] && After(s, [a]) == Reconciled(After(s, []), a);
    assert PossibleRun(s, []) && Possible(After(s, []), a);
    assert LeakedBy(State({p}, {}), idle, p, 0);
    LeakLivesExactly(State({p}, {}), idle, p);
  }

  /** With a kernel that does what it is asked, one reconcile converges: the owned set is
      the wanted one and the kernel holds it and nothing stale. */
  lemma {:induction false} HonestRoundConverges(s: State, want: set<Prefix>)
    requires s.owned <= s.kernel
    ensures var r := Round(want, s.owned - want, want - s.owned, true);
            && Possible(s, r) && Reconciled(s, r).owned == want
            && want <= Reconciled(s, r).kernel
            && Reconciled(s, r).kernel - want == s.kernel - s.owned - want
  {
    var r := Round(want, s.owned - want, want - s.owned, true);
    assert Reconciled(s, r).owned == want;
  }
}
