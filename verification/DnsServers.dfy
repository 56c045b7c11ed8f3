/** One candidate put to the nameservers (pkg/dns/resolver.go:289-350;
    shim/getaddrinfo_shim.c:1013-1174): the attempt and server loops and the dead-server
    memo that both engines keep. What the network answers is an arbitrary stream. */
module DnsServers {
  import opened Text

  const ATTEMPTS := 2
  const MAX_NAME_LEN := 253

  /** One exchange: an A answer, NXDOMAIN or NODATA, a reply that decides nothing, or no
      usable reply at all. */
  datatype Answer = Hit(first: nat, rest: seq<nat>) | Miss | Soft | Transport
  datatype Query = Query(server: nat, name: string)

  predicate LabelsFit(name: string) { forall l <- Split(name, '.') :: 1 <= |l| <= 63 }

  /** A name both encoders put on the wire; each takes it with one trailing dot or without. */
  predicate Encodable(name: string) { 1 <= |StripDot(name)| <= MAX_NAME_LEN && LabelsFit(StripDot(name)) }

  /** The queries sent so far and the servers given up on. */
  datatype State = State(sent: seq<Query>, dead: seq<bool>)

  /** queryA and k3sm_query_a: an unencodable name is a definitive miss, nothing sent. */
  function Ask(net: nat -> Answer, s: State, server: nat, name: string): (State, Answer) {
    if !Encodable(name) then (s, Miss)
    else (s.(sent := s.sent + [Query(server, name)]), net(|s.sent|))
  }

  datatype Outcome = Found(first: nat, rest: seq<nat>) | Missed | Temp

  function Decided(a: Answer): Option<Outcome> {
    match a
    case Hit(f, r) => Some(Found(f, r))
    case Miss => Some(Missed)
    case _ => None
  }

  /** The single server: up to two attempts, no memo. */
  function Single(net: nat -> Answer, s: State, name: string, attempt: nat): (State, Outcome)
    requires attempt <= ATTEMPTS
    decreases ATTEMPTS - attempt
  {
    if attempt == ATTEMPTS then (s, Temp)
    else
      var (t, a) := Ask(net, s, 0, name);
      if Decided(a).Some? then (t, Decided(a).value) else Single(net, t, name, attempt + 1)
  }

  datatype Sweep = Sweep(s: State, live: bool, outcome: Option<Outcome>)

  function Mark(s: State, i: nat, a: Answer): State
    requires i < |s.dead|
  {
    if a.Transport? then s.(dead := s.dead[i := true]) else s
  }

  /** The servers from i on, once each, skipping the dead. */
  function SweepFrom(net: nat -> Answer, s: State, name: string, i: nat, live: bool): (r: Sweep)
    requires i <= |s.dead|
    ensures |r.s.dead| == |s.dead|
    decreases |s.dead| - i
  {
    if i == |s.dead| then Sweep(s, live, None)
    else if s.dead[i] then SweepFrom(net, s, name, i + 1, live)
    else
      var (t, a) := Ask(net, s, i, name);
      if Decided(a).Some? then Sweep(t, true, Decided(a))
      else SweepFrom(net, Mark(t, i, a), name, i + 1, true)
  }

  function Rounds(net: nat -> Answer, s: State, name: string, attempt: nat): (r: (State, Outcome))
    requires attempt <= ATTEMPTS
    ensures |r.0.dead| == |s.dead|
    decreases ATTEMPTS - attempt
  {
    if attempt == ATTEMPTS then (s, Temp)
    else
      var w := SweepFrom(net, s, name, 0, false);
      if w.outcome.Some? then (w.s, w.outcome.value)
      else if !w.live then (w.s, Temp)
      else Rounds(net, w.s, name, attempt + 1)
  }

  function QueryCandidate(net: nat -> Answer, s: State, name: string): (r: (State, Outcome))
    ensures |r.0.dead| == |s.dead|
  {
    if |s.dead| == 1 then
      SingleKeepsDead(net, s, name, 0);
      Single(net, s, name, 0)
    else Rounds(net, s, name, 0)
  }

  lemma {:induction false} SingleKeepsDead(net: nat -> Answer, s: State, name: string, attempt: nat)
    requires attempt <= ATTEMPTS
    ensures Single(net, s, name, attempt).0.dead == s.dead
    decreases ATTEMPTS - attempt
  {
    if attempt < ATTEMPTS {
      SingleKeepsDead(net, Ask(net, s, 0, name).0, name, attempt + 1);
    }
  }

  // ---- what the memo guarantees ----

  predicate SomeLive(s: State) { exists i :: 0 <= i < |s.dead| && !s.dead[i] }

  /** A sweep that ends in a definitive answer leaves the server that gave it live. */
  lemma {:induction false} DecidedLeavesLive(net: nat -> Answer, s: State, name: string, i: nat, live: bool)
    requires i <= |s.dead|
    ensures SweepFrom(net, s, name, i, live).outcome.Some? ==> SomeLive(SweepFrom(net, s, name, i, live).s)
    decreases |s.dead| - i
  {
    if i < |s.dead| {
      if s.dead[i] {
        DecidedLeavesLive(net, s, name, i + 1, live);
      } else {
        var (t, a) := Ask(net, s, i, name);
        if Decided(a).Some? {
          assert !t.dead[i];
        } else {
          DecidedLeavesLive(net, Mark(t, i, a), name, i + 1, true);
        }
      }
    }
  }

  lemma {:induction false} RoundsLeaveLive(net: nat -> Answer, s: State, name: string, attempt: nat)
    requires attempt <= ATTEMPTS && Rounds(net, s, name, attempt).1 != Temp
    ensures SomeLive(Rounds(net, s, name, attempt).0)
    decreases ATTEMPTS - attempt
  {
    if attempt < ATTEMPTS {
      DecidedLeavesLive(net, s, name, 0, false);
      var w := SweepFrom(net, s, name, 0, false);
      if w.outcome.None? && w.live { RoundsLeaveLive(net, w.s, name, attempt + 1); }
    }
  }

  /** A candidate that was not transient leaves some server live. */
  lemma {:induction false} AnsweredLeavesLive(net: nat -> Answer, s: State, name: string)
    requires |s.dead| != 1 && QueryCandidate(net, s, name).1 != Temp
    ensures SomeLive(QueryCandidate(net, s, name).0)
  {
    RoundsLeaveLive(net, s, name, 0);
  }

  lemma {:induction false} SweepUnencodable(net: nat -> Answer, s: State, name: string, i: nat)
    requires i <= |s.dead| && !Encodable(name) && exists j :: i <= j < |s.dead| && !s.dead[j]
    ensures SweepFrom(net, s, name, i, false) == Sweep(s, true, Some(Missed))
    decreases |s.dead| - i
  {
    if i < |s.dead| && s.dead[i] { SweepUnencodable(net, s, name, i + 1); }
  }

  /** With a server to ask, an unencodable candidate is a miss that changes nothing. */
  lemma {:induction false} UnencodableMisses(net: nat -> Answer, s: State, name: string)
    requires !Encodable(name) && (|s.dead| == 1 || SomeLive(s))
    ensures QueryCandidate(net, s, name) == (s, Missed)
  {
    if |s.dead| != 1 { SweepUnencodable(net, s, name, 0); }
  }

  /** A dead server is not asked again: the queries a sweep adds go to live servers, and
      dead flags only rise. */
  lemma {:induction false} SweepKeepsDead(net: nat -> Answer, s: State, name: string, i: nat, live: bool, j: nat)
    requires i <= |s.dead| && j < |s.dead| && s.dead[j]
    ensures SweepFrom(net, s, name, i, live).s.dead[j]
    ensures Asked(SweepFrom(net, s, name, i, live).s.sent, j) == Asked(s.sent, j)
    decreases |s.dead| - i
  {
    if i < |s.dead| {
      if s.dead[i] {
        SweepKeepsDead(net, s, name, i + 1, live, j);
      } else {
        AskSparesOthers(net, s, i, name, j);
        var (t, a) := Ask(net, s, i, name);
        if Decided(a).None? { SweepKeepsDead(net, Mark(t, i, a), name, i + 1, true, j); }
      }
    }
  }

  lemma {:induction false} AskSparesOthers(net: nat -> Answer, s: State, i: nat, name: string, j: nat)
    requires i != j
    ensures Ask(net, s, i, name).0.dead == s.dead && Asked(Ask(net, s, i, name).0.sent, j) == Asked(s.sent, j)
  {
    if Encodable(name) { AskedStep(s.sent, Query(i, name), j); }
  }

  /** How often server j has been asked. */
  function Asked(sent: seq<Query>, j: nat): nat {
    if sent == [] then 0 else Asked(sent[..|sent| - 1], j) + if sent[|sent| - 1].server == j then 1 else 0
  }

  lemma AskedStep(sent: seq<Query>, q: Query, j: nat)
    ensures Asked(sent + [q], j) == Asked(sent, j) + if q.server == j then 1 else 0
  {
    assert (sent + [q])[..|sent|] == sent;
  }

  // ---- the two engines' loops ----

  /** queryCandidate of the Go resolver; `dead` is the lookup's memo. */
  method GoQueryCandidate(net: nat -> Answer, sent: seq<Query>, name: string, dead: array<bool>)
    returns (after: seq<Query>, r: Outcome)
    modifies dead
    ensures (State(after, dead[..]), r) == QueryCandidate(net, State(sent, old(dead[..])), name)
  {
    after := sent;
    ghost var s := State(sent, dead[..]);
    if dead.Length == 1 {
      SingleKeepsDead(net, s, name, 0);
      for attempt := 0 to ATTEMPTS
        invariant dead[..] == s.dead
        invariant Single(net, s, name, 0) == Single(net, State(after, s.dead), name, attempt)
      {
        var (t, a) := Ask(net, State(after, dead[..]), 0, name);
        after := t.sent;
        if Decided(a).Some? { return after, Decided(a).value; }
      }
      return after, Temp;
    }
    for attempt := 0 to ATTEMPTS
      invariant |s.dead| == dead.Length
      invariant Rounds(net, s, name, 0) == Rounds(net, State(after, dead[..]), name, attempt)
    {
      var live, outcome;
      after, live, outcome := SweepServers(net, after, name, dead);
      if outcome.Some? { return after, outcome.value; }
      if !live { return after, Temp; }
    }
    r := Temp;
  }

  /** The server loop of one attempt. */
  method SweepServers(net: nat -> Answer, sent: seq<Query>, name: string, dead: array<bool>)
    returns (after: seq<Query>, live: bool, outcome: Option<Outcome>)
    modifies dead
    ensures Sweep(State(after, dead[..]), live, outcome) == SweepFrom(net, State(sent, old(dead[..])), name, 0, false)
  {
    after, live, outcome := sent, false, None;
    ghost var s := State(sent, dead[..]);
    for i := 0 to dead.Length
      invariant SweepFrom(net, s, name, 0, false) == SweepFrom(net, State(after, dead[..]), name, i, live)
      invariant outcome == None
    {
      if dead[i] { continue; }
      live := true;
      var (t, a) := Ask(net, State(after, dead[..]), i, name);
      after := t.sent;
      if Decided(a).Some? { return after, true, Decided(a); }
      if a.Transport? { dead[i] := true; }
    }
  }

  /** k3sm_query_candidate of the shim. */
  method ShimQueryCandidate(net: nat -> Answer, sent: seq<Query>, name: string, dead: array<bool>)
    returns (after: seq<Query>, rc: Outcome)
    modifies dead
    ensures (State(after, dead[..]), rc) == QueryCandidate(net, State(sent, old(dead[..])), name)
  {
    after, rc := sent, Temp;
    ghost var s := State(sent, dead[..]);
    if dead.Length == 1 {
      SingleKeepsDead(net, s, name, 0);
      var attempt := 0;
      while attempt < ATTEMPTS && rc.Temp?
        invariant 0 <= attempt <= ATTEMPTS && dead[..] == s.dead
        invariant if rc.Temp? then Single(net, s, name, 0) == Single(net, State(after, s.dead), name, attempt)
                  else Single(net, s, name, 0) == (State(after, s.dead), rc)
      {
        var (t, a) := Ask(net, State(after, dead[..]), 0, name);
        after := t.sent;
        if Decided(a).Some? { rc := Decided(a).value; }
        attempt := attempt + 1;
      }
      return;
    }
    var attempt := 0;
    while attempt < ATTEMPTS
      invariant 0 <= attempt <= ATTEMPTS && |s.dead| == dead.Length
      invariant Rounds(net, s, name, 0) == Rounds(net, State(after, dead[..]), name, attempt)
    {
      var live, outcome;
      after, live, outcome := SweepServers(net, after, name, dead);
      if outcome.Some? { return after, outcome.value; }
      if !live { break; }
      attempt := attempt + 1;
    }
    rc := Temp;
  }
}
