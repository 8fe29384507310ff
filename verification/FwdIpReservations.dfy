// Reservations: the command-line pass, validation, and when a reservation is safe from other services.
module FwdIpReservations {
  import opened Text
  import opened FwdIp
  import opened FwdIpProperties

  /** ServiceConfigurationFromReservation: "name:ip" with both parts present. */
  function FromReservation(flag: string): Option<ServiceConfiguration> {
    match Cut(flag, ':')
    case None => None
    case Some((name, ip)) => if name == [] || ip == [] then None else Some(ServiceConfiguration(name, ip))
  }

  predicate Named(rs: seq<ServiceConfiguration>, name: string) {
    exists r :: r in rs && r.name == name
  }

  function Override(rs: seq<ServiceConfiguration>, flag: ServiceConfiguration): seq<ServiceConfiguration> {
    if rs == [] then []
    else [if rs[0].name == flag.name then rs[0].(ip := flag.ip) else rs[0]] + Override(rs[1..], flag)
  }

  function WithFlag(rs: seq<ServiceConfiguration>, flag: string): seq<ServiceConfiguration> {
    match FromReservation(flag)
    case None => rs
    case Some(f) => if Named(rs, f.name) then Override(rs, f) else rs + [f]
  }

  function WithFlags(rs: seq<ServiceConfiguration>, flags: seq<string>): seq<ServiceConfiguration> {
    if flags == [] then rs
    else WithFlag(WithFlags(rs, flags[..|flags| - 1]), flags[|flags| - 1])
  }

  lemma {:induction false} OverrideAt(rs: seq<ServiceConfiguration>, f: ServiceConfiguration)
    ensures |Override(rs, f)| == |rs|
    ensures forall i :: 0 <= i < |rs| ==>
              Override(rs, f)[i] == if rs[i].name == f.name then rs[i].(ip := f.ip) else rs[i]
  {
    if rs != [] {
      OverrideAt(rs[1..], f);
      forall i | 0 < i < |rs|
        ensures Override(rs, f)[i] == Override(rs[1..], f)[i - 1]
      {
      }
    }
  }

  /** applyCLIPassedReservations: fold the flags into the list in place, then validate. None is a fatal exit. */
  method ApplyCLIPassedReservations(flags: seq<string>, f: ForwardConfiguration)
    returns (r: Option<ForwardConfiguration>)
    ensures var g := f.(serviceConfigurations := WithFlags(f.serviceConfigurations, flags));
            r == if Validated(g) then Some(g) else None
  {
    var rs := f.serviceConfigurations;
    for i := 0 to |flags|
      invariant rs == WithFlags(f.serviceConfigurations, flags[..i])
    {
      assert flags[..i + 1][..i] == flags[..i];
      var res := FromReservation(flags[i]);
      if res.None? {
        continue;
      }
      var overridden;
      rs, overridden := OverrideNamed(rs, res.value);
      if !overridden {
        rs := rs + [res.value];
      }
    }
    assert flags[..|flags|] == flags;
    var g := f.(serviceConfigurations := rs);
    var ok := ValidateForwardConfiguration(g);
    r := if ok then Some(g) else None;
  }

  // The inner loop of applyCLIPassedReservations.
  method OverrideNamed(rs: seq<ServiceConfiguration>, res: ServiceConfiguration)
    returns (r: seq<ServiceConfiguration>, overridden: bool)
    ensures overridden <==> Named(rs, res.name)
    ensures r == if overridden then Override(rs, res) else rs
  {
    OverrideAt(rs, res);
    r, overridden := rs, false;
    for j := 0 to |rs|
      invariant |r| == |rs|
      invariant forall i :: 0 <= i < |rs| ==>
                  r[i] == if i < j && rs[i].name == res.name then rs[i].(ip := res.ip) else rs[i]
      invariant overridden <==> exists i :: 0 <= i < j && rs[i].name == res.name
    {
      if r[j].name == res.name {
        r := r[j := r[j].(ip := res.ip)];
        overridden := true;
      }
    }
  }

  method ValidateForwardConfiguration(f: ForwardConfiguration) returns (ok: bool)
    ensures ok <==> Validated(f)
  {
    hide IpFromString;
    if !LoopbackText(f.baseUnreservedIP) {
      return false;
    }
    var rs := f.serviceConfigurations;
    for i := 0 to |rs|
      invariant forall j :: 0 <= j < i ==> LoopbackText(rs[j].ip)
    {
      if !LoopbackText(rs[i].ip) {
        return false;
      }
    }
    var requestedIPs: set<string> := {};
    for i := 0 to |rs|
      invariant requestedIPs == set j | 0 <= j < i :: rs[j].ip
      invariant forall j, k :: 0 <= j < k < i ==> rs[j].ip != rs[k].ip
    {
      if rs[i].ip in requestedIPs {
        return false;
      }
      requestedIPs := requestedIPs + {rs[i].ip};
    }
    ok := true;
  }

  /** The address of the last well-formed flag for a name. */
  function LastFlag(flags: seq<string>, name: string): Option<string> {
    if flags == [] then None
    else
      match FromReservation(flags[|flags| - 1])
      case Some(f) => if f.name == name then Some(f.ip) else LastFlag(flags[..|flags| - 1], name)
      case None => LastFlag(flags[..|flags| - 1], name)
  }

  /** One flag: its name's entries carry its address, the others stay, and only its name may be new. */
  lemma FlagWins(rs: seq<ServiceConfiguration>, flag: string)
    ensures var after := WithFlag(rs, flag);
            && |after| >= |rs|
            && (forall i :: 0 <= i < |rs| ==> after[i].name == rs[i].name)
            && match FromReservation(flag)
               case None => after == rs
               case Some(f) =>
                 && Named(after, f.name)
                 && (forall e :: e in after ==> if e.name == f.name then e.ip == f.ip else e in rs)
                 && (forall name :: name != f.name ==> (Named(after, name) <==> Named(rs, name)))
  {
    hide FromReservation;
    match FromReservation(flag)
    case None =>
    case Some(f) =>
      OverrideAt(rs, f);
      var after := WithFlag(rs, flag);
      if Named(rs, f.name) {
        SameNames(rs, after);
      } else {
        assert after == rs + [f];
        assert forall e :: e in after ==> e in rs || e == f;
        assert after[|rs|] == f;
      }
  }

  lemma SameNames(a: seq<ServiceConfiguration>, b: seq<ServiceConfiguration>)
    requires |a| == |b| && forall i :: 0 <= i < |a| ==> a[i].name == b[i].name
    ensures forall name :: Named(a, name) <==> Named(b, name)
  {
    forall i | 0 <= i < |a|
      ensures a[i] in a && b[i] in b
    {
    }
  }

  /** After the command-line pass every entry a flag names carries the address of the last such flag,
      every other entry is as the file had it, and every name of the file or of a flag has an entry. */
  lemma {:induction false} LastFlagWins(rs: seq<ServiceConfiguration>, flags: seq<string>)
    ensures forall e :: e in WithFlags(rs, flags) ==>
              if LastFlag(flags, e.name).Some? then e.ip == LastFlag(flags, e.name).value else e in rs
    ensures forall name :: LastFlag(flags, name).Some? || Named(rs, name) <==> Named(WithFlags(rs, flags), name)
    ensures |WithFlags(rs, flags)| >= |rs|
    ensures forall i :: 0 <= i < |rs| ==> WithFlags(rs, flags)[i].name == rs[i].name
  {
    hide FromReservation, WithFlag, Named;
    if flags != [] {
      var m := |flags| - 1;
      LastFlagWins(rs, flags[..m]);
      FlagWins(WithFlags(rs, flags[..m]), flags[m]);
    }
  }

  // ---------- When reservations are safe ----------

  /** Whatever the service and the address: an address no reservation string refuses is reserved for no other
      service. */
  ghost predicate Protected(cfg: ForwardConfiguration) {
    forall opts, ip, r :: !HasConflict(cfg, opts, Dotted(ip)) && r in cfg.serviceConfigurations && Reserves(r, ip) ==>
        Matches(r, opts)
  }

  /** The reservation is written in dotted form, or another entry of its name writes the same address so. */
  predicate HasSpelling(cfg: ForwardConfiguration, r: ServiceConfiguration) {
    && IpFromString(r.ip).Some?
    && exists q :: q in cfg.serviceConfigurations && q.name == r.name && q.ip == Dotted(IpFromString(r.ip).value)
  }

  predicate Spelled(cfg: ForwardConfiguration) {
    forall r {:trigger HasSpelling(cfg, r)} :: r in cfg.serviceConfigurations ==> HasSpelling(cfg, r)
  }

  function Long(n: nat): (s: string)
    ensures |s| == n
  {
    seq(n, _ => 'x')
  }

  /** A local service whose only short name is its pod name. */
  function OnlyPod(pod: string, n: nat): ForwardIPOpts {
    ForwardIPOpts(Long(n), pod, Long(n), 0, 0, Long(n))
  }

  lemma OnlyPodMatches(r: ServiceConfiguration, pod: string, n: nat)
    requires |r.name| < n
    ensures Matches(r, OnlyPod(pod, n)) <==> r.name == pod
  {
    var names := OnlyPod(pod, n).MatchList();
    assert names[0] == pod;
    assert forall i :: 0 < i < |names| ==> |names[i]| >= n;
  }

  /** Comparing reservations as strings protects every reservation exactly when each is spelled canonically. */
  lemma ReservationsProtectedIff(cfg: ForwardConfiguration)
    requires Validated(cfg)
    ensures Protected(cfg) <==> Spelled(cfg)
  {
    hide Dotted, IpFromString, ForwardIPOpts.MatchList;
    var rs := cfg.serviceConfigurations;
    if Spelled(cfg) {
      SpelledProtects(cfg);
    }
    if !Spelled(cfg) {
      var r :| r in rs && !HasSpelling(cfg, r);
      Unprotected(cfg, r);
    }
  }

  lemma SpelledProtects(cfg: ForwardConfiguration)
    requires Validated(cfg) && Spelled(cfg)
    ensures Protected(cfg)
  {
    hide Dotted, IpFromString, ForwardIPOpts.MatchList, LoopbackText, Validated;
    forall opts, ip, r | !HasConflict(cfg, opts, Dotted(ip)) && r in cfg.serviceConfigurations && Reserves(r, ip)
      ensures Matches(r, opts)
    {
      assert HasSpelling(cfg, r);
      var q :| q in cfg.serviceConfigurations && q.name == r.name && q.ip == Dotted(IpFromString(r.ip).value);
      assert q.ip == Dotted(ip);
      assert Matches(q, opts);
    }
  }

  lemma LoopbackParses(s: string)
    ensures LoopbackText(s) ==> IpFromString(s).Some?
  {
    hide IpFromString;
  }

  lemma Unprotected(cfg: ForwardConfiguration, r: ServiceConfiguration)
    requires Validated(cfg) && r in cfg.serviceConfigurations
    ensures !HasSpelling(cfg, r) ==> !Protected(cfg)
  {
    hide Dotted, IpFromString, ForwardIPOpts.MatchList, LoopbackText;
    assert LoopbackText(r.ip) && IpFromString(r.ip).Some? by {
      LoopbackParses(r.ip);
    }
    var rs, ip := cfg.serviceConfigurations, IpFromString(r.ip).value;
    if HasSpelling(cfg, r) {
      return;
    }
    if q :| q in rs && q.ip == Dotted(ip) {
      var opts := OnlyPod(q.name, |r.name| + |q.name| + 1);
      OnlyPodMatches(r, q.name, |r.name| + |q.name| + 1);
      OnlyPodMatches(q, q.name, |r.name| + |q.name| + 1);
      assert !HasConflict(cfg, opts, Dotted(ip));
      assert Reserves(r, ip) && !Matches(r, opts);
    } else {
      var opts := OnlyPod(Long(|r.name| + 1), |r.name| + 1);
      OnlyPodMatches(r, Long(|r.name| + 1), |r.name| + 1);
      assert !HasConflict(cfg, opts, Dotted(ip));
      assert Reserves(r, ip) && !Matches(r, opts);
    }
  }

  /** Over every run, reserved and counter path alike: an address is registered only for a service that
      every reservation of that address matches. */
  lemma ReservationsRespected(cfg: ForwardConfiguration, calls: seq<ForwardIPOpts>, i: nat, r: ServiceConfiguration)
    requires Validated(cfg) && Spelled(cfg) && i < |calls| && r in cfg.serviceConfigurations
    ensures calls[i].RegKey() !in Run(cfg, calls[..i]).reg && Answer(cfg, calls, i).Some?
            && Reserves(r, Answer(cfg, calls, i).value) ==>
              Matches(r, calls[i])
  {
    hide Dotted, IpFromString, ForwardIPOpts.MatchList, ForwardIPOpts.RegKey, Determine, Inv, Run;
    RunInv(cfg, calls[..i]);
    if calls[i].RegKey() !in Run(cfg, calls[..i]).reg {
      DetermineInv(cfg, Run(cfg, calls[..i]), calls[i].RegKey(), calls[i]);
    }
    ReservationsProtectedIff(cfg);
  }

  // ---------- Which names a reservation may use ----------

  /** What may follow a name: always the namespace and context; the namespace alone in the first cluster; the context
      alone in a cluster's first namespace; nothing for the very first. A bare pod has no "svc.cluster.local" form in
      the first cluster's later namespaces. */
  function Suffixes(o: ForwardIPOpts, barePod: bool): set<string> {
    var n, c := o.namespace, o.context;
    var nearCluster, nearNamespace := o.clusterN == 0, o.namespaceN == 0;
    {"." + n + "." + c, "." + n + ".svc." + c, "." + n + ".svc.cluster." + c}
    + (if nearCluster then {"." + n, "." + n + ".svc"} else {})
    + (if nearCluster && (nearNamespace || !barePod) then {"." + n + ".svc.cluster.local"} else {})
    + (if nearNamespace then {"." + c} else {})
    + (if nearCluster && nearNamespace then {""} else {})
  }

  predicate Follows(name: string, base: string, suffixes: set<string>) {
    exists suffix :: suffix in suffixes && name == base + suffix
  }

  /** The names that follow the pod, the service or "pod.service", and "service.svc" for the very first namespace. */
  predicate Reaches(name: string, o: ForwardIPOpts) {
    || Follows(name, o.podName, Suffixes(o, true))
    || Follows(name, o.serviceName, Suffixes(o, false))
    || Follows(name, o.podName + "." + o.serviceName, Suffixes(o, false))
    || (o.clusterN == 0 && o.namespaceN == 0 && name == o.serviceName + ".svc")
  }

  lemma ReachesAny(name: string, o: ForwardIPOpts)
    ensures Reaches(name, o) <==> ReachesText(name, o)
  {
    hide Suffixes, Follows;
    FollowsAny(name, o.podName, o, true);
    FollowsAny(name, o.serviceName, o, false);
    FollowsAny(name, o.podName + "." + o.serviceName, o, false);
  }

  predicate FollowsText(name: string, base: string, o: ForwardIPOpts, barePod: bool) {
    var n, c := o.namespace, o.context;
    || name == base + "." + n + "." + c
    || name == base + "." + n + ".svc." + c
    || name == base + "." + n + ".svc.cluster." + c
    || (o.clusterN == 0 && (name == base + "." + n || name == base + "." + n + ".svc"))
    || (o.clusterN == 0 && (o.namespaceN == 0 || !barePod) && name == base + "." + n + ".svc.cluster.local")
    || (o.namespaceN == 0 && name == base + "." + c)
    || (o.clusterN == 0 && o.namespaceN == 0 && name == base)
  }

  predicate ReachesText(name: string, o: ForwardIPOpts) {
    || FollowsText(name, o.podName, o, true)
    || FollowsText(name, o.serviceName, o, false)
    || FollowsText(name, o.podName + "." + o.serviceName, o, false)
    || (o.clusterN == 0 && o.namespaceN == 0 && name == o.serviceName + ".svc")
  }

  lemma FullNamesAre(name: string, o: ForwardIPOpts)
    ensures var n, c := o.namespace, o.context;
            name in o.FullNames() <==>
            exists base :: base in [o.podName, o.serviceName, o.podName + "." + o.serviceName] &&
              (name == base + "." + n + "." + c || name == base + "." + n + ".svc." + c
               || name == base + "." + n + ".svc.cluster." + c)
  {
  }

  lemma FirstClusterNamesAre(name: string, o: ForwardIPOpts)
    ensures var p, s, n := o.podName, o.serviceName, o.namespace;
            name in o.FirstClusterNames() <==>
              || name == p + "." + n || name == p + "." + n + ".svc"
              || name == s + "." + n || name == s + "." + n + ".svc" || name == s + "." + n + ".svc.cluster.local"
              || name == p + "." + s + "." + n || name == p + "." + s + "." + n + ".svc"
              || name == p + "." + s + "." + n + ".svc.cluster.local"
  {
  }

  /** A reservation matches exactly when its name is the pod, the service or "pod.service" with one of those suffixes,
      or "service.svc" for the very first namespace. */
  lemma MatchesIff(r: ServiceConfiguration, o: ForwardIPOpts)
    requires o.clusterN >= 0 && o.namespaceN >= 0
    ensures Matches(r, o) <==> Reaches(r.name, o)
  {
    hide ForwardIPOpts.FullNames, ForwardIPOpts.FirstClusterNames, Reaches;
    ReachesAny(r.name, o);
    FullNamesAre(r.name, o);
    FirstClusterNamesAre(r.name, o);
  }

  lemma FollowsAny(name: string, base: string, o: ForwardIPOpts, barePod: bool)
    ensures Follows(name, base, Suffixes(o, barePod)) <==> FollowsText(name, base, o, barePod)
  {
    Appended(base, o.namespace, o.context);
  }

  lemma Appended(base: string, n: string, c: string)
    ensures base + ("." + n + "." + c) == base + "." + n + "." + c
    ensures base + ("." + n + ".svc." + c) == base + "." + n + ".svc." + c
    ensures base + ("." + n + ".svc.cluster." + c) == base + "." + n + ".svc.cluster." + c
    ensures base + ("." + n) == base + "." + n && base + ("." + n + ".svc") == base + "." + n + ".svc"
    ensures base + ("." + n + ".svc.cluster.local") == base + "." + n + ".svc.cluster.local"
    ensures base + ("." + c) == base + "." + c && base + "" == base
  {
  }
}
