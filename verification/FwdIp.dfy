// Addresses, reservations and the allocator of pkg/fwdip/fwdIp.go.
module FwdIp {
  import opened Text

  type Byte = x: int | 0 <= x < 256

  datatype IP = IP(b0: Byte, b1: Byte, b2: Byte, b3: Byte)

  datatype ServiceConfiguration = ServiceConfiguration(name: string, ip: string)

  datatype ForwardConfiguration = ForwardConfiguration(
    baseUnreservedIP: string,
    serviceConfigurations: seq<ServiceConfiguration>)

  const DEFAULT_BASE_UNRESERVED_IP := "127.1.27.1"

  /** Loopback is 127.0.0.0/8, section 3.2.1.3 of RFC 1122. */
  predicate IsLoopback(ip: IP) {
    ip.b0 == 127
  }

  /** net.IP.String for four bytes. */
  function Dotted(ip: IP): string {
    Itoa(ip.b0) + "." + (Itoa(ip.b1) + "." + (Itoa(ip.b2) + "." + Itoa(ip.b3)))
  }

  function OctetFromString(s: string): Option<Byte> {
    match ParseInt(s, INT64_LIMIT)
    case Some(v) => if 0 <= v <= 255 then Some(v) else None
    case None => None
  }

  /** ipFromString: four pieces, each accepted by Atoi (so with a sign or leading zeros too) and within 0-255. */
  function IpFromString(s: string): Option<IP> {
    var parts := Split(s, '.');
    if |parts| != 4 then None
    else
      match (OctetFromString(parts[0]), OctetFromString(parts[1]), OctetFromString(parts[2]), OctetFromString(parts[3]))
      case (Some(a), Some(b), Some(c), Some(d)) => Some(IP(a, b, c, d))
      case _ => None
  }

  datatype ForwardIPOpts = ForwardIPOpts(
    serviceName: string,
    podName: string,
    context: string,
    clusterN: int,
    namespaceN: int,
    namespace: string)
  {
    function RegKey(): string {
      Itoa(clusterN) + "-" + (Itoa(namespaceN) + "-" + (serviceName + "-" + podName))
    }

    /** The names with the namespace and the context. */
    function FullNames(): seq<string> {
      var p, s, n, c := podName, serviceName, namespace, context;
      [p + "." + n + "." + c,
       p + "." + n + ".svc." + c,
       p + "." + n + ".svc.cluster." + c,
       s + "." + n + "." + c,
       s + "." + n + ".svc." + c,
       s + "." + n + ".svc.cluster." + c,
       p + "." + s + "." + n + "." + c,
       p + "." + s + "." + n + ".svc." + c,
       p + "." + s + "." + n + ".svc.cluster." + c]
    }

    /** The further names in the first cluster. */
    function FirstClusterNames(): seq<string> {
      var p, s, n := podName, serviceName, namespace;
      [p + "." + n,
       p + "." + n + ".svc",
       s + "." + n,
       s + "." + n + ".svc",
       s + "." + n + ".svc.cluster.local",
       p + "." + s + "." + n,
       p + "." + s + "." + n + ".svc",
       p + "." + s + "." + n + ".svc.cluster.local"]
    }

    /** The further names in a cluster's first namespace. */
    function FirstNamespaceNames(): seq<string> {
      var p, s, c := podName, serviceName, context;
      [p + "." + c, p + "." + s + "." + c, s + "." + c]
    }

    /** The further names in the first cluster's first namespace. */
    function ShortNames(): seq<string> {
      var p, s, n := podName, serviceName, namespace;
      [p, s, s + ".svc", p + "." + s, p + "." + n + ".svc.cluster.local"]
    }

    /** The names a reservation may use for this service, by locality of the cluster and namespace. */
    function MatchList(): seq<string> {
      if clusterN == 0 && namespaceN == 0 then ShortNames() + FirstNamespaceNames() + FirstClusterNames() + FullNames()
      else if clusterN > 0 && namespaceN == 0 then FirstNamespaceNames() + FullNames()
      else if clusterN == 0 && namespaceN > 0 then FirstClusterNames() + FullNames()
      else FullNames()
    }
  }

  predicate Matches(c: ServiceConfiguration, opts: ForwardIPOpts) {
    c.name in opts.MatchList()
  }

  /** hasConflictingReservations: the comparison is between strings. */
  predicate HasConflict(cfg: ForwardConfiguration, opts: ForwardIPOpts, wantIP: string) {
    exists r :: r in cfg.serviceConfigurations && wantIP == r.ip && !Matches(r, opts)
  }

  /** getConfigurationForService: the first reservation that matches. */
  function FirstMatch(rs: seq<ServiceConfiguration>, opts: ForwardIPOpts): Option<ServiceConfiguration> {
    if rs == [] then None
    else if Matches(rs[0], opts) then Some(rs[0])
    else FirstMatch(rs[1..], opts)
  }

  predicate Reserves(r: ServiceConfiguration, ip: IP) {
    IpFromString(r.ip) == Some(ip)
  }

  predicate LoopbackText(s: string) {
    IpFromString(s).Some? && IsLoopback(IpFromString(s).value)
  }

  /** What validateForwardConfiguration lets through. */
  predicate Validated(cfg: ForwardConfiguration) {
    && LoopbackText(cfg.baseUnreservedIP)
    && (forall r :: r in cfg.serviceConfigurations ==> LoopbackText(r.ip))
    && (forall i, j :: 0 <= i < j < |cfg.serviceConfigurations| ==>
          cfg.serviceConfigurations[i].ip != cfg.serviceConfigurations[j].ip)
  }

  datatype RegistryState = RegistryState(
    inc: map<int, map<int, int>>,
    reg: map<string, IP>,
    taken: set<string>)

  const EMPTY_REGISTRY := RegistryState(map[0 := map[0 := 0]], map[], {})

  function Counter(inc: map<int, map<int, int>>, c: int, n: int): int {
    if c in inc && n in inc[c] then inc[c][n] else 0
  }

  function BaseIP(cfg: ForwardConfiguration): IP
    requires Validated(cfg)
  {
    IpFromString(cfg.baseUnreservedIP).value
  }

  /** The base address with the cluster, namespace and service offsets added to its bytes, each modulo 256. */
  function Offset(base: IP, c: int, n: int, k: int): IP {
    IP(base.b0, (base.b1 + c) % 256, (base.b2 + n) % 256, (base.b3 + k) % 256)
  }

  function Register(cfg: ForwardConfiguration, st: RegistryState, key: string, opts: ForwardIPOpts,
                    ip: IP): Option<RegistryState> {
    if Dotted(ip) in st.taken || HasConflict(cfg, opts, Dotted(ip)) then None
    else Some(RegistryState(st.inc, st.reg[key := ip], st.taken + {Dotted(ip)}))
  }

  /** The reserved address of the service, when it has one that parses and can be registered. */
  function ReservedIP(cfg: ForwardConfiguration, st: RegistryState, key: string, opts: ForwardIPOpts): Option<IP> {
    match FirstMatch(cfg.serviceConfigurations, opts)
    case None => None
    case Some(r) =>
      match IpFromString(r.ip)
      case None => None
      case Some(ip) => if Register(cfg, st, key, opts, ip).Some? then Some(ip) else None
  }

  function WithCluster(inc: map<int, map<int, int>>, c: int): map<int, map<int, int>> {
    if c in inc then inc else inc[c := map[0 := 0]]
  }

  /** The state once the counter of the block has moved one step. */
  function Advance(st: RegistryState, c: int, n: int): RegistryState {
    var inc := WithCluster(st.inc, c);
    st.(inc := inc[c := inc[c][n := Counter(inc, c, n) + 1]])
  }

  lemma AdvanceCounter(st: RegistryState, c: int, n: int, c': int, n': int)
    ensures Counter(WithCluster(st.inc, c), c', n') == Counter(st.inc, c', n')
    ensures Counter(Advance(st, c, n).inc, c', n') == Counter(st.inc, c', n') + (if c' == c && n' == n then 1 else 0)
  {
  }

  /** determineIP. None is ErrIPBoundsExceeded; 256 minus the counter bounds the retries. */
  function Determine(cfg: ForwardConfiguration, st: RegistryState, key: string, opts: ForwardIPOpts): (RegistryState,
                     Option<IP>)
    requires Validated(cfg)
    decreases if Counter(st.inc, opts.clusterN, opts.namespaceN) > 255 then 0
              else 256 - Counter(st.inc, opts.clusterN, opts.namespaceN)
  {
    var c, n := opts.clusterN, opts.namespaceN;
    var reserved := ReservedIP(cfg, st, key, opts);
    if reserved.Some? then (Register(cfg, st, key, opts, reserved.value).value, reserved)
    else
      var k := Counter(st.inc, c, n);
      if c > 255 || n > 255 || k > 255 then (st.(inc := WithCluster(st.inc, c)), None)
      else
        var ip := Offset(BaseIP(cfg), c, n, k);
        var st' := Advance(st, c, n);
        match Register(cfg, st', key, opts, ip)
        case Some(st'') => (st'', Some(ip))
        case None => Determine(cfg, st', key, opts)
  }

  lemma DetermineReservedPath(cfg: ForwardConfiguration, st: RegistryState, key: string, opts: ForwardIPOpts)
    requires Validated(cfg)
    ensures var reserved := ReservedIP(cfg, st, key, opts);
            reserved.Some? ==>
              Determine(cfg, st, key, opts) == (Register(cfg, st, key, opts, reserved.value).value, reserved)
  {
  }

  lemma DetermineCounterPath(cfg: ForwardConfiguration, st: RegistryState, key: string, opts: ForwardIPOpts)
    requires Validated(cfg) && ReservedIP(cfg, st, key, opts).None?
    ensures
      var c, n, k := opts.clusterN, opts.namespaceN, Counter(st.inc, opts.clusterN, opts.namespaceN);
      var st', ip := Advance(st, c, n), Offset(BaseIP(cfg), c, n, k);
      Determine(cfg, st, key, opts) ==
        if c > 255 || n > 255 || k > 255 then (st.(inc := WithCluster(st.inc, c)), None)
        else if Register(cfg, st', key, opts, ip).Some? then (Register(cfg, st', key, opts, ip).value, Some(ip))
        else Determine(cfg, st', key, opts)
  {
  }

  function Get(cfg: ForwardConfiguration, st: RegistryState, opts: ForwardIPOpts): (RegistryState, Option<IP>)
    requires Validated(cfg)
  {
    if opts.RegKey() in st.reg then (st, Some(st.reg[opts.RegKey()]))
    else Determine(cfg, st, opts.RegKey(), opts)
  }

  /** The state after a run of GetIP calls. */
  function Run(cfg: ForwardConfiguration, calls: seq<ForwardIPOpts>): RegistryState
    requires Validated(cfg)
  {
    if calls == [] then EMPTY_REGISTRY
    else Get(cfg, Run(cfg, calls[..|calls| - 1]), calls[|calls| - 1]).0
  }

  /** The process-wide registry, updated in place under its mutex. */
  class Registry {
    const config: ForwardConfiguration
    var inc: map<int, map<int, int>>
    var reg: map<string, IP>
    var taken: set<string>

    ghost function State(): RegistryState
      reads this
    {
      RegistryState(inc, reg, taken)
    }

    constructor (config: ForwardConfiguration)
      ensures this.config == config && State() == EMPTY_REGISTRY
    {
      this.config := config;
      inc, reg, taken := map[0 := map[0 := 0]], map[], {};
    }

    method GetIP(opts: ForwardIPOpts) returns (r: Option<IP>)
      requires Validated(config)
      modifies this
      ensures (State(), r) == Get(config, old(State()), opts)
    {
      var regKey := opts.RegKey();
      if regKey in reg {
        return Some(reg[regKey]);
      }
      r := DetermineIP(regKey, opts);
    }

    method DetermineIP(regKey: string, opts: ForwardIPOpts) returns (r: Option<IP>)
      requires Validated(config)
      modifies this
      ensures (State(), r) == Determine(config, old(State()), regKey, opts)
      decreases if Counter(inc, opts.clusterN, opts.namespaceN) > 255 then 0
                else 256 - Counter(inc, opts.clusterN, opts.namespaceN)
    {
      var reserved := TryReservation(regKey, opts);
      if reserved.Some? {
        return reserved;
      }
      DetermineCounterPath(config, State(), regKey, opts);
      var ip := NextAddress(opts.clusterN, opts.namespaceN);
      if ip.None? {
        return None;
      }
      var ok := AddToRegistry(regKey, opts, ip.value);
      if ok {
        return ip;
      }
      r := DetermineIP(regKey, opts);
    }

    // The bounds check of determineIP and the address its counter stands at.
    method NextAddress(c: int, n: int) returns (r: Option<IP>)
      requires Validated(config)
      modifies this`inc
      ensures r == if c > 255 || n > 255 || old(Counter(inc, c, n)) > 255 then None
                   else Some(Offset(BaseIP(config), c, n, old(Counter(inc, c, n))))
      ensures State() == if r.None? then old(State()).(inc := WithCluster(old(inc), c)) else Advance(old(State()), c, n)
    {
      if c !in inc {
        inc := inc[c := map[0 := 0]];
      }
      var k := Counter(inc, c, n);
      if c > 255 || n > 255 || k > 255 {
        return None;
      }
      var ip := BaseIP(config);
      ip := ip.(b1 := (ip.b1 + c) % 256);
      ip := ip.(b2 := (ip.b2 + n) % 256);
      ip := ip.(b3 := (ip.b3 + k) % 256);
      inc := inc[c := inc[c][n := k + 1]];
      r := Some(ip);
    }

    // The first branch of determineIP.
    method TryReservation(regKey: string, opts: ForwardIPOpts) returns (r: Option<IP>)
      requires Validated(config)
      modifies this
      ensures r == ReservedIP(config, old(State()), regKey, opts)
      ensures State() == if r.Some? then Register(config, old(State()), regKey, opts, r.value).value else old(State())
    {
      var svcConf := FirstMatch(config.serviceConfigurations, opts);
      if svcConf.Some? {
        var ip := IpFromString(svcConf.value.ip);
        if ip.Some? {
          var ok := AddToRegistry(regKey, opts, ip.value);
          if ok {
            return ip;
          }
        }
      }
      r := None;
    }

    method AddToRegistry(regKey: string, opts: ForwardIPOpts, ip: IP) returns (ok: bool)
      modifies this
      ensures ok == Register(config, old(State()), regKey, opts, ip).Some?
      ensures State() == if ok then Register(config, old(State()), regKey, opts, ip).value else old(State())
    {
      var allocationKey := Dotted(ip);
      if allocationKey in taken {
        return false;
      }
      if HasConflict(config, opts, allocationKey) {
        return false;
      }
      reg := reg[regKey := ip];
      taken := taken + {allocationKey};
      ok := true;
    }
  }
}
