// When runs of GetIP respect a reservation, and when some run gives its address to another service.
module FwdIpReservationRuns {
  import opened Text
  import opened FwdIp
  import opened FwdIpProperties
  import opened FwdIpReservations

  /** Call i registers, for a service that the reservation does not match, the address it reserves. */
  predicate RegisteredAgainst(cfg: ForwardConfiguration, calls: seq<ForwardIPOpts>, i: nat, r: ServiceConfiguration)
    requires Validated(cfg)
  {
    && i < |calls| && calls[i].RegKey() !in Run(cfg, calls[..i]).reg && Answer(cfg, calls, i).Some?
    && Reserves(r, Answer(cfg, calls, i).value) && !Matches(r, calls[i])
  }

  ghost predicate Disregarded(cfg: ForwardConfiguration, r: ServiceConfiguration)
    requires Validated(cfg)
  {
    exists calls, i: nat :: Ordinals(calls) && RegisteredAgainst(cfg, calls, i, r)
  }

  /** The first reservation that matches the service has this address. */
  predicate FirstReserves(cfg: ForwardConfiguration, o: ForwardIPOpts, ip: IP) {
    var first := FirstMatch(cfg.serviceConfigurations, o);
    first.Some? && Reserves(first.value, ip)
  }

  /** No reservation refuses the service the address, and the address is within its reach: its own reservation's, or one
      of its block. This speaks of names and numbers only, not of runs. */
  predicate Reachable(cfg: ForwardConfiguration, o: ForwardIPOpts, ip: IP)
    requires Validated(cfg)
  {
    && o.clusterN >= 0 && o.namespaceN >= 0 && !HasConflict(cfg, o, Dotted(ip))
    && (FirstReserves(cfg, o, ip) || InBlock(cfg, o.clusterN, o.namespaceN, ip))
  }

  ghost predicate Exposed(cfg: ForwardConfiguration, r: ServiceConfiguration)
    requires Validated(cfg)
  {
    exists o, ip :: Reserves(r, ip) && !Matches(r, o) && Reachable(cfg, o, ip)
  }

  /** Every registered key was new in some call of the run, which was answered its address. */
  lemma {:induction false} RegisteredByCall(cfg: ForwardConfiguration, calls: seq<ForwardIPOpts>, key: string)
    returns (j: nat)
    requires Validated(cfg) && key in Run(cfg, calls).reg
    ensures j < |calls| && calls[j].RegKey() == key && key !in Run(cfg, calls[..j]).reg
    ensures Answer(cfg, calls, j) == Some(Run(cfg, calls).reg[key])
  {
    hide Inv, Get, Validated, ForwardIPOpts.RegKey;
    var m := |calls| - 1;
    var st := Run(cfg, calls[..m]);
    RunInv(cfg, calls[..m]);
    GetInv(cfg, st, calls[m]);
    if key in st.reg {
      j := RegisteredByCall(cfg, calls[..m], key);
      assert calls[..m][..j] == calls[..j];
    } else {
      j := m;
    }
  }

  // ---------- Services that every reservation treats alike ----------

  predicate Twins(cfg: ForwardConfiguration, a: ForwardIPOpts, b: ForwardIPOpts) {
    && a.clusterN == b.clusterN && a.namespaceN == b.namespaceN
    && forall r :: r in cfg.serviceConfigurations ==> (Matches(r, a) <==> Matches(r, b))
  }

  ghost predicate AllTwins(cfg: ForwardConfiguration, calls: seq<ForwardIPOpts>, o: ForwardIPOpts) {
    && (forall i :: 0 <= i < |calls| ==> Twins(cfg, calls[i], o))
    && (forall i, j :: 0 <= i < j < |calls| ==> calls[i].RegKey() != calls[j].RegKey())
  }

  lemma {:induction false} SameFirstMatch(rs: seq<ServiceConfiguration>, a: ForwardIPOpts, b: ForwardIPOpts)
    requires forall r :: r in rs ==> (Matches(r, a) <==> Matches(r, b))
    ensures FirstMatch(rs, a) == FirstMatch(rs, b)
  {
    hide Matches;
    if rs != [] {
      assert rs[0] in rs;
      SameFirstMatch(rs[1..], a, b);
    }
  }

  lemma TwinsAlike(cfg: ForwardConfiguration, a: ForwardIPOpts, b: ForwardIPOpts)
    requires Validated(cfg) && Twins(cfg, a, b)
    ensures forall s :: HasConflict(cfg, a, s) <==> HasConflict(cfg, b, s)
    ensures FirstMatch(cfg.serviceConfigurations, a) == FirstMatch(cfg.serviceConfigurations, b)
    ensures forall st, k :: Unusable(cfg, st, a, k) <==> Unusable(cfg, st, b, k)
  {
    SameFirstMatch(cfg.serviceConfigurations, a, b);
    hide Matches, Validated, Dotted, Offset, BaseIP;
  }

  /** Every address of the block below the counter is allocated or reserved for services other than these. */
  ghost predicate Passed(cfg: ForwardConfiguration, st: RegistryState, o: ForwardIPOpts)
    requires Validated(cfg)
  {
    forall k :: 0 <= k < Counter(st.inc, o.clusterN, o.namespaceN) ==> Unusable(cfg, st, o, k)
  }

  /** The service's own reservation is used up. */
  predicate OwnTaken(cfg: ForwardConfiguration, st: RegistryState, o: ForwardIPOpts) {
    match FirstMatch(cfg.serviceConfigurations, o)
    case None => false
    case Some(r) => IpFromString(r.ip).Some? && Dotted(IpFromString(r.ip).value) in st.taken
  }

  function Progress(cfg: ForwardConfiguration, st: RegistryState, o: ForwardIPOpts): int {
    Counter(st.inc, o.clusterN, o.namespaceN) + if OwnTaken(cfg, st, o) then 1 else 0
  }

  /** An answered request for a new key makes progress, and passes only what it cannot use. */
  lemma AnswerProgresses(cfg: ForwardConfiguration, st: RegistryState, key: string, o: ForwardIPOpts)
    requires Validated(cfg) && Inv(cfg, st) && key !in st.reg && Passed(cfg, st, o)
    ensures var (st', r) := Determine(cfg, st, key, o);
            r.Some? ==> Passed(cfg, st', o) && Progress(cfg, st', o) > Progress(cfg, st, o)
  {
    hide Dotted, IpFromString, ForwardIPOpts.MatchList, Determine, Offset, HasConflict, Inv, Validated, BaseIP, Counter;
    DetermineTakes(cfg, st, key, o);
    FirstFit(cfg, st, key, o);
    var (st', r) := Determine(cfg, st, key, o);
    if r.Some? {
      forall k | 0 <= k < Counter(st'.inc, o.clusterN, o.namespaceN)
        ensures Unusable(cfg, st', o, k)
      {
        assert Unusable(cfg, st, o, k) ==> Unusable(cfg, st', o, k);
      }
    }
  }

  /** What an answer adds to the registry: its address; a reserved one leaves the counters alone. */
  lemma DetermineTakes(cfg: ForwardConfiguration, st: RegistryState, key: string, o: ForwardIPOpts)
    requires Validated(cfg) && Inv(cfg, st) && key !in st.reg
    ensures var (st', r) := Determine(cfg, st, key, o);
            r.Some? ==>
              && st.taken <= st'.taken && Dotted(r.value) in st'.taken && Dotted(r.value) !in st.taken
              && (ReservedIP(cfg, st, key, o).Some? ==>
                    st'.inc == st.inc && FirstReserves(cfg, o, r.value) && !OwnTaken(cfg, st, o)
                      && OwnTaken(cfg, st', o))
  {
    hide Dotted, IpFromString, ForwardIPOpts.MatchList, Determine, Offset, HasConflict, Validated, BaseIP, Counter;
    DetermineInv(cfg, st, key, o);
    TakenGrows(cfg, st, key, o);
    var (st', r) := Determine(cfg, st, key, o);
    assert r.Some? ==> key in st'.reg && st'.reg[key] == r.value;
    if ReservedIP(cfg, st, key, o).Some? {
      DetermineReservedPath(cfg, st, key, o);
    }
  }

  lemma TakenGrows(cfg: ForwardConfiguration, st: RegistryState, key: string, o: ForwardIPOpts)
    requires Validated(cfg) && Inv(cfg, st) && key !in st.reg
    ensures st.taken <= Determine(cfg, st, key, o).0.taken
  {
    hide Dotted, IpFromString, ForwardIPOpts.MatchList, Determine, BelowSpoken, Validated, HasConflict;
    DetermineInv(cfg, st, key, o);
    var st' := Determine(cfg, st, key, o).0;
    forall s | s in st.taken
      ensures s in st'.taken
    {
      var k :| k in st.reg && Dotted(st.reg[k]) == s;
      assert k in st'.reg && st'.reg[k] == st.reg[k];
    }
  }

  /** Until a twin is refused each makes progress, and all addresses passed are of no use to any of them. */
  lemma {:induction false} TwinsProgress(cfg: ForwardConfiguration, calls: seq<ForwardIPOpts>, o: ForwardIPOpts)
    returns (refused: nat)
    requires Validated(cfg) && AllTwins(cfg, calls, o)
    ensures refused <= |calls| && Passed(cfg, Run(cfg, calls[..refused]), o)
    ensures if refused < |calls| then Answer(cfg, calls, refused).None?
            else Progress(cfg, Run(cfg, calls), o) >= |calls|
  {
    hide Validated, Get, Passed, Progress, Twins, ForwardIPOpts.RegKey;
    if calls == [] {
      NothingPassed(cfg, o);
      assert calls[..0] == [];
      refused := 0;
    } else {
      var m := |calls| - 1;
      var front := calls[..m];
      refused := TwinsProgress(cfg, front, o);
      if refused < m {
        assert front[..refused] == calls[..refused];
      } else {
        assert front[..m] == front && calls[..m + 1] == calls;
        TwinStep(cfg, calls, o);
        refused := if Answer(cfg, calls, m).None? then m else m + 1;
      }
    }
  }

  lemma NothingPassed(cfg: ForwardConfiguration, o: ForwardIPOpts)
    requires Validated(cfg)
    ensures Run(cfg, []) == EMPTY_REGISTRY && Passed(cfg, EMPTY_REGISTRY, o) && Progress(cfg, EMPTY_REGISTRY, o) >= 0
  {
    hide Dotted, IpFromString, FirstMatch;
  }

  lemma TwinStep(cfg: ForwardConfiguration, calls: seq<ForwardIPOpts>, o: ForwardIPOpts)
    requires Validated(cfg) && calls != [] && AllTwins(cfg, calls, o)
    requires var m := |calls| - 1; Passed(cfg, Run(cfg, calls[..m]), o) && Progress(cfg, Run(cfg, calls[..m]), o) >= m
    ensures var m := |calls| - 1;
            Answer(cfg, calls, m).Some? ==>
              Passed(cfg, Run(cfg, calls), o) && Progress(cfg, Run(cfg, calls), o) >= m + 1
  {
    var m := |calls| - 1;
    var st, twin := Run(cfg, calls[..m]), calls[m];
    TwinIsNew(cfg, calls, o);
    TwinsAlike(cfg, twin, o);
    hide Validated, Determine, Unusable, HasConflict, FirstMatch, Matches, ForwardIPOpts.RegKey, Run, Inv, Dotted,
      IpFromString, Counter;
    RunInv(cfg, calls[..m]);
    AnswerProgresses(cfg, st, twin.RegKey(), twin);
    RunUnfolds(cfg, calls);
  }

  lemma RunUnfolds(cfg: ForwardConfiguration, calls: seq<ForwardIPOpts>)
    requires Validated(cfg) && calls != []
    ensures var m := |calls| - 1; Run(cfg, calls) == Get(cfg, Run(cfg, calls[..m]), calls[m]).0
  {
    hide Get, Validated;
  }

  lemma TwinIsNew(cfg: ForwardConfiguration, calls: seq<ForwardIPOpts>, o: ForwardIPOpts)
    requires Validated(cfg) && calls != [] && AllTwins(cfg, calls, o)
    ensures var m := |calls| - 1; calls[m].RegKey() !in Run(cfg, calls[..m]).reg
  {
    hide Validated, Run, ForwardIPOpts.RegKey, Twins, Answer;
    var m := |calls| - 1;
    if calls[m].RegKey() in Run(cfg, calls[..m]).reg {
      var j := RegisteredByCall(cfg, calls[..m], calls[m].RegKey());
      assert false;
    }
  }

  // ---------- A service and its twins fill a block ----------

  lemma {:induction false} LongestName(rs: seq<ServiceConfiguration>) returns (n: nat)
    ensures forall r :: r in rs ==> |r.name| < n
  {
    n := 1;
    if rs != [] {
      n := LongestName(rs[1..]);
      n := if |rs[0].name| >= n then |rs[0].name| + 1 else n;
    }
  }

  /** The j-th service with this pod name, or with this service name, in the block of o; the other name is too long for
      any reservation. */
  function Member(o: ForwardIPOpts, base: string, barePod: bool, n: nat, j: nat): ForwardIPOpts {
    if barePod then ForwardIPOpts(Long(n + j), base, o.context, o.clusterN, o.namespaceN, o.namespace)
    else ForwardIPOpts(base, Long(n + j), o.context, o.clusterN, o.namespaceN, o.namespace)
  }

  /** The names by which reservations match such a service. */
  predicate MemberName(name: string, o: ForwardIPOpts, base: string, barePod: bool) {
    || Follows(name, base, Suffixes(o, barePod))
    || (!barePod && o.clusterN == 0 && o.namespaceN == 0 && name == base + ".svc")
  }

  lemma FollowsLonger(name: string, base: string, suffixes: set<string>)
    ensures Follows(name, base, suffixes) ==> |name| >= |base|
  {
  }

  lemma MemberMatches(r: ServiceConfiguration, o: ForwardIPOpts, base: string, barePod: bool, n: nat, j: nat)
    requires |r.name| < n && o.clusterN >= 0 && o.namespaceN >= 0
    ensures Matches(r, Member(o, base, barePod, n, j)) <==> MemberName(r.name, o, base, barePod)
  {
    var m := Member(o, base, barePod, n, j);
    assert Suffixes(m, true) == Suffixes(o, true) && Suffixes(m, false) == Suffixes(o, false);
    hide ForwardIPOpts.MatchList, Suffixes, Matches, Follows;
    MatchesIff(r, m);
    FollowsLonger(r.name, Long(n + j), Suffixes(o, !barePod));
    FollowsLonger(r.name, m.podName + "." + m.serviceName, Suffixes(o, false));
  }

  function Members(o: ForwardIPOpts, base: string, barePod: bool, n: nat, count: nat): seq<ForwardIPOpts> {
    seq(count, j requires 0 <= j => Member(o, base, barePod, n, j))
  }

  lemma MemberKeys(o: ForwardIPOpts, base: string, barePod: bool, n: nat, i: nat, j: nat)
    requires i != j
    ensures Member(o, base, barePod, n, i).RegKey() != Member(o, base, barePod, n, j).RegKey()
  {
    hide ForwardIPOpts.RegKey;
    var a, b := Member(o, base, barePod, n, i), Member(o, base, barePod, n, j);
    RegKeyShared(a, b);
    assert |a.serviceName + "-" + a.podName| != |b.serviceName + "-" + b.podName|;
  }

  lemma MembersAreTwins(cfg: ForwardConfiguration, o: ForwardIPOpts, base: string, barePod: bool, n: nat, count: nat)
    requires o.clusterN >= 0 && o.namespaceN >= 0 && count > 0
    requires forall r :: r in cfg.serviceConfigurations ==> |r.name| < n
    ensures AllTwins(cfg, Members(o, base, barePod, n, count), Member(o, base, barePod, n, 0))
  {
    hide Matches, MemberName, ForwardIPOpts.RegKey;
    var calls := Members(o, base, barePod, n, count);
    forall i | 0 <= i < count
      ensures Twins(cfg, calls[i], Member(o, base, barePod, n, 0))
    {
      forall r | r in cfg.serviceConfigurations
        ensures Matches(r, calls[i]) <==> Matches(r, Member(o, base, barePod, n, 0))
      {
        MemberMatches(r, o, base, barePod, n, i);
        MemberMatches(r, o, base, barePod, n, 0);
      }
    }
    forall i, j | 0 <= i < j < count
      ensures calls[i].RegKey() != calls[j].RegKey()
    {
      MemberKeys(o, base, barePod, n, i, j);
    }
  }

  predicate SpelledBySome(cfg: ForwardConfiguration, ip: IP) {
    exists q :: q in cfg.serviceConfigurations && q.ip == Dotted(ip)
  }

  /** Reserved addresses differ as strings, so a service has no conflict with what it matches. */
  lemma OwnAddressFree(cfg: ForwardConfiguration, o: ForwardIPOpts, j: nat)
    requires Validated(cfg) && j < |cfg.serviceConfigurations|
    ensures Matches(cfg.serviceConfigurations[j], o) ==> !HasConflict(cfg, o, cfg.serviceConfigurations[j].ip)
  {
    hide Matches, LoopbackText;
  }

  /** For a name that reservations match the service by, its pod, its service or the two joined give such services. */
  lemma MemberOf(o: ForwardIPOpts, name: string) returns (base: string, barePod: bool)
    requires o.clusterN >= 0 && o.namespaceN >= 0
    ensures Reaches(name, o) ==> MemberName(name, o, base, barePod)
    ensures Reaches(name, o) ==> forall other :: MemberName(other, o, base, barePod) ==> Reaches(other, o)
  {
    hide Follows;
    var joined := o.podName + "." + o.serviceName;
    if Follows(name, o.podName, Suffixes(o, true)) {
      base, barePod := o.podName, true;
    } else if Follows(name, joined, Suffixes(o, false)) {
      base, barePod := joined, o.namespaceN == 0;
      assert o.namespaceN == 0 ==> Suffixes(o, true) == Suffixes(o, false);
    } else {
      base, barePod := o.serviceName, false;
    }
  }

  /** If a service can have an address of its block and the reservation does not match it, there are as many such
      services as needed, all alike. */
  lemma ReachableTwins(cfg: ForwardConfiguration, r: ServiceConfiguration, o: ForwardIPOpts, ip: IP, count: nat)
    returns (calls: seq<ForwardIPOpts>)
    requires Validated(cfg) && r in cfg.serviceConfigurations && count > 0
    requires o.clusterN >= 0 && o.namespaceN >= 0 && !Matches(r, o) && !HasConflict(cfg, o, Dotted(ip))
    ensures |calls| == count && Ordinals(calls) && AllTwins(cfg, calls, calls[0]) && !Matches(r, calls[0])
    ensures calls[0].clusterN == o.clusterN && calls[0].namespaceN == o.namespaceN
    ensures !HasConflict(cfg, calls[0], Dotted(ip))
  {
    hide Dotted, IpFromString, ForwardIPOpts.MatchList, ForwardIPOpts.RegKey, Matches, Follows, Suffixes, LoopbackText,
      MemberName, Reaches;
    var n := LongestName(cfg.serviceConfigurations);
    var base, barePod := Long(n), true;
    if q :| q in cfg.serviceConfigurations && q.ip == Dotted(ip) {
      assert Matches(q, o);
      MatchesIff(q, o);
      MatchesIff(r, o);
      base, barePod := MemberOf(o, q.name);
      MemberMatches(q, o, base, barePod, n, 0);
      var j :| 0 <= j < |cfg.serviceConfigurations| && cfg.serviceConfigurations[j] == q;
      OwnAddressFree(cfg, Member(o, base, barePod, n, 0), j);
    } else {
      LongUnnamed(r.name, o, n);
    }
    calls := Members(o, base, barePod, n, count);
    assert calls[0] == Member(o, base, barePod, n, 0);
    MembersAreTwins(cfg, o, base, barePod, n, count);
    MemberMatches(r, o, base, barePod, n, 0);
  }

  lemma LongUnnamed(name: string, o: ForwardIPOpts, n: nat)
    requires |name| < n
    ensures !MemberName(name, o, Long(n), true)
  {
    hide Suffixes, Follows;
    FollowsLonger(name, Long(n), Suffixes(o, true));
  }

  /** An address that a service can have, of its block, is registered for it or a twin by the time they fill the
      block. */
  lemma BlockFills(cfg: ForwardConfiguration, calls: seq<ForwardIPOpts>, o: ForwardIPOpts, ip: IP) returns (j: nat)
    requires Validated(cfg) && |calls| == 258 && AllTwins(cfg, calls, o)
    requires o.clusterN >= 0 && o.namespaceN >= 0 && InBlock(cfg, o.clusterN, o.namespaceN, ip)
    ensures !HasConflict(cfg, o, Dotted(ip)) ==>
              j < |calls| && calls[j].RegKey() !in Run(cfg, calls[..j]).reg && Answer(cfg, calls, j) == Some(ip)
  {
    hide Dotted, IpFromString, Validated, Matches, ForwardIPOpts.RegKey, Run, Get, Offset, BaseIP, FirstMatch,
      HasConflict,
      BelowSpoken;
    var i := TwinsProgress(cfg, calls, o);
    RunInv(cfg, calls);
    CounterBounds(cfg, Run(cfg, calls), o.clusterN, o.namespaceN);
    assert i < |calls| && Twins(cfg, calls[i], o);
    TwinsAlike(cfg, calls[i], o);
    hide Progress, Inv, Counter;
    RefusalsOfRun(cfg, calls, i);
    RunInv(cfg, calls[..i]);
    var st := Run(cfg, calls[..i]);
    var k :| 0 <= k <= 255 && ip == Offset(BaseIP(cfg), o.clusterN, o.namespaceN, k);
    assert Unusable(cfg, st, o, k);
    j := 0;
    if !HasConflict(cfg, o, Dotted(ip)) {
      var key := TakenKey(cfg, st, ip);
      j := RegisteredByCall(cfg, calls[..i], key);
      assert calls[..i][..j] == calls[..j];
    }
  }

  lemma TakenKey(cfg: ForwardConfiguration, st: RegistryState, ip: IP) returns (key: string)
    requires Validated(cfg) && Inv(cfg, st)
    ensures Dotted(ip) in st.taken ==> key in st.reg && st.reg[key] == ip
  {
    hide Dotted, IpFromString, Validated;
    key := "";
    if Dotted(ip) in st.taken {
      key :| key in st.reg && Dotted(st.reg[key]) == Dotted(ip);
      DottedInjective(st.reg[key], ip);
    }
  }

  // ---------- The exact condition ----------

  lemma AnsweredReachable(cfg: ForwardConfiguration, st: RegistryState, key: string, o: ForwardIPOpts)
    requires Validated(cfg) && Inv(cfg, st) && key !in st.reg && o.clusterN >= 0 && o.namespaceN >= 0
    ensures var ip := Determine(cfg, st, key, o).1; ip.Some? ==> Reachable(cfg, o, ip.value)
  {
    hide Dotted, IpFromString, ForwardIPOpts.MatchList, Determine, Inv, Validated, HasConflict, Offset;
    DetermineInv(cfg, st, key, o);
    DetermineFrom(cfg, st, key, o);
    DetermineTakes(cfg, st, key, o);
  }

  /** The first service ever, if its reservation has the address and nothing refuses it, is answered that address. */
  lemma FirstReservesAnswered(cfg: ForwardConfiguration, o: ForwardIPOpts, ip: IP)
    requires Validated(cfg) && !HasConflict(cfg, o, Dotted(ip))
    ensures FirstReserves(cfg, o, ip) ==> Answer(cfg, [o], 0) == Some(ip) && o.RegKey() !in Run(cfg, [o][..0]).reg
  {
    hide Dotted, IpFromString, ForwardIPOpts.MatchList, ForwardIPOpts.RegKey, Determine, HasConflict, FirstMatch,
      Validated;
    assert [o][..0] == [] && Run(cfg, []) == EMPTY_REGISTRY;
    DetermineReservedPath(cfg, EMPTY_REGISTRY, o.RegKey(), o);
  }

  /** For every validated configuration: some run registers a reservation's address for a service it does not match
      exactly when such a service could have the address, by its own reservation or in its block. */
  lemma DisregardedIff(cfg: ForwardConfiguration, r: ServiceConfiguration)
    requires Validated(cfg) && r in cfg.serviceConfigurations
    ensures Disregarded(cfg, r) <==> Exposed(cfg, r)
  {
    hide Dotted, IpFromString, ForwardIPOpts.MatchList, ForwardIPOpts.RegKey, Matches, Run, Determine, Validated,
      Reserves,
      HasConflict, Inv, FirstReserves;
    if calls: seq<ForwardIPOpts>, i: nat :| Ordinals(calls) && RegisteredAgainst(cfg, calls, i, r) {
      RunInv(cfg, calls[..i]);
      AnsweredReachable(cfg, Run(cfg, calls[..i]), calls[i].RegKey(), calls[i]);
      assert Reserves(r, Answer(cfg, calls, i).value) && !Matches(r, calls[i]);
    }
    if o: ForwardIPOpts, ip: IP :| Reserves(r, ip) && !Matches(r, o) && Reachable(cfg, o, ip) {
      hide Get, Answer;
      if FirstReserves(cfg, o, ip) {
        FirstReservesAnswered(cfg, o, ip);
        assert Ordinals([o]) && RegisteredAgainst(cfg, [o], 0, r);
      } else {
        var calls := ReachableTwins(cfg, r, o, ip, 258);
        var j := BlockFills(cfg, calls, calls[0], ip);
        assert Twins(cfg, calls[j], calls[0]);
        assert RegisteredAgainst(cfg, calls, j, r);
      }
    }
  }

  // ---------- In terms of spelling ----------

  ghost predicate Respected(cfg: ForwardConfiguration)
    requires Validated(cfg)
  {
    forall r :: r in cfg.serviceConfigurations ==> !Disregarded(cfg, r)
  }

  lemma OffsetReaches(base: IP, ip: IP)
    requires base.b0 == ip.b0
    ensures Offset(base, (ip.b1 - base.b1) % 256, (ip.b2 - base.b2) % 256, (ip.b3 - base.b3) % 256) == ip
  {
    Returns(base.b1, ip.b1);
    Returns(base.b2, ip.b2);
    Returns(base.b3, ip.b3);
  }

  lemma Returns(a: Byte, b: Byte)
    ensures (a + (b - a) % 256) % 256 == b
  {
  }

  /** No entry before entry j has its name. */
  predicate FirstOfName(rs: seq<ServiceConfiguration>, j: nat)
    requires j < |rs|
  {
    forall i :: 0 <= i < j ==> rs[i].name != rs[j].name
  }

  lemma {:induction false} FirstMatchOfName(rs: seq<ServiceConfiguration>, o: ForwardIPOpts, j: nat)
    requires j < |rs| && FirstOfName(rs, j) && forall r :: r in rs ==> (Matches(r, o) <==> r.name == rs[j].name)
    ensures FirstMatch(rs, o) == Some(rs[j])
  {
    hide Matches;
    if j > 0 {
      assert rs[0] in rs && !Matches(rs[0], o);
      FirstMatchOfName(rs[1..], o, j - 1);
    }
  }

  /** No entry written in dotted form comes after another entry of its name. */
  predicate Unshadowed(cfg: ForwardConfiguration) {
    var rs := cfg.serviceConfigurations;
    forall j :: 0 <= j < |rs| && IpFromString(rs[j].ip).Some? && rs[j].ip == Dotted(IpFromString(rs[j].ip).value) ==>
        FirstOfName(rs, j)
  }

  /** An address that no entry spells is in reach of a service of its block that no reservation matches. */
  lemma UnspelledIsExposed(cfg: ForwardConfiguration, r: ServiceConfiguration)
    requires Validated(cfg) && r in cfg.serviceConfigurations
    ensures IpFromString(r.ip).Some?
    ensures !SpelledBySome(cfg, IpFromString(r.ip).value) ==> Exposed(cfg, r)
  {
    hide Dotted, IpFromString, ForwardIPOpts.MatchList, Matches, MemberName;
    assert LoopbackText(r.ip);
    var ip, base := IpFromString(r.ip).value, BaseIP(cfg);
    if !SpelledBySome(cfg, ip) {
      var n := LongestName(cfg.serviceConfigurations);
      var c, ns, k := (ip.b1 - base.b1) % 256, (ip.b2 - base.b2) % 256, (ip.b3 - base.b3) % 256;
      OffsetReaches(base, ip);
      var o := Member(ForwardIPOpts("", "", "", c, ns, ""), Long(n), true, n, 0);
      LongUnnamed(r.name, ForwardIPOpts("", "", "", c, ns, ""), n);
      MemberMatches(r, ForwardIPOpts("", "", "", c, ns, ""), Long(n), true, n, 0);
      hide Offset, Validated, BaseIP;
      assert Reachable(cfg, o, ip) && Reserves(r, ip);
    }
  }

  /** An address that only an entry of another name spells, the first of that name, is in reach of the services of that
      name. */
  lemma SpelledForAnother(cfg: ForwardConfiguration, r: ServiceConfiguration, j: nat)
    requires Validated(cfg) && r in cfg.serviceConfigurations && j < |cfg.serviceConfigurations|
    requires FirstOfName(cfg.serviceConfigurations, j) && cfg.serviceConfigurations[j].name != r.name
    ensures IpFromString(r.ip).Some?
    ensures cfg.serviceConfigurations[j].ip == Dotted(IpFromString(r.ip).value) ==> Exposed(cfg, r)
  {
    LoopbackParses(r.ip);
    assert LoopbackText(r.ip);
    hide Dotted, IpFromString, ForwardIPOpts.MatchList, ForwardIPOpts.RegKey, Matches, LoopbackText, InBlock;
    var rs, ip := cfg.serviceConfigurations, IpFromString(r.ip).value;
    var n := LongestName(rs);
    var o := OnlyPod(rs[j].name, n);
    if rs[j].ip == Dotted(ip) {
      forall x | x in rs
        ensures Matches(x, o) <==> x.name == rs[j].name
      {
        OnlyPodMatches(x, rs[j].name, n);
      }
      FirstMatchOfName(rs, o, j);
      DottedRoundTrip(ip);
      OwnAddressFree(cfg, o, j);
      hide HasConflict, Validated;
      assert Reachable(cfg, o, ip) && Reserves(r, ip) && !Matches(r, o);
    }
  }

  /** When no dotted entry follows another of its name, all runs respect all reservations exactly when each reservation,
      or another of its name, is written in dotted form. */
  lemma ReservationsRespectedIff(cfg: ForwardConfiguration)
    requires Validated(cfg) && Unshadowed(cfg)
    ensures Respected(cfg) <==> Spelled(cfg)
  {
    hide Dotted, IpFromString, Matches, Disregarded, Exposed, HasSpelling;
    forall r | r in cfg.serviceConfigurations
      ensures Disregarded(cfg, r) <==> Exposed(cfg, r)
      ensures Spelled(cfg) ==> !Exposed(cfg, r)
      ensures !HasSpelling(cfg, r) ==> Exposed(cfg, r)
    {
      DisregardedIff(cfg, r);
      SpelledIsSafe(cfg, r);
      UnspelledIsUnsafe(cfg, r);
    }
  }

  lemma SpelledIsSafe(cfg: ForwardConfiguration, r: ServiceConfiguration)
    requires Validated(cfg) && r in cfg.serviceConfigurations
    ensures Spelled(cfg) ==> !Exposed(cfg, r)
  {
    hide Dotted, IpFromString, Matches, Spelled, Validated;
    ReservationsProtectedIff(cfg);
  }

  lemma UnspelledIsUnsafe(cfg: ForwardConfiguration, r: ServiceConfiguration)
    requires Validated(cfg) && Unshadowed(cfg) && r in cfg.serviceConfigurations
    ensures !HasSpelling(cfg, r) ==> Exposed(cfg, r)
  {
    hide Dotted, IpFromString, Exposed;
    UnspelledIsExposed(cfg, r);
    var ip := IpFromString(r.ip).value;
    if q :| q in cfg.serviceConfigurations && q.ip == Dotted(ip) && q.name != r.name {
      var j :| 0 <= j < |cfg.serviceConfigurations| && cfg.serviceConfigurations[j] == q;
      DottedRoundTrip(ip);
      SpelledForAnother(cfg, r, j);
    }
  }

  /** A leading zero passes validation, and the very first service forwarded is answered the reserved address, whichever
      service of the first namespace it is. */
  lemma LeadingZeroAnswered(o: ForwardIPOpts)
    requires o.clusterN == 0 && o.namespaceN == 0
    ensures
      var r := ServiceConfiguration("db", "127.1.27.01");
      var cfg := ForwardConfiguration(DEFAULT_BASE_UNRESERVED_IP, [r]);
      && Validated(cfg) && Reserves(r, IP(127, 1, 27, 1)) && Answer(cfg, [o], 0) == Some(IP(127, 1, 27, 1))
      && (!Matches(r, o) ==> RegisteredAgainst(cfg, [o], 0, r))
  {
    var r := ServiceConfiguration("db", "127.1.27.01");
    var cfg := ForwardConfiguration(DEFAULT_BASE_UNRESERVED_IP, [r]);
    DefaultBase();
    LeadingZeroParses();
    hide IpFromString, Dotted, ForwardIPOpts.MatchList, ForwardIPOpts.RegKey, Determine, Matches;
    var key, ip := o.RegKey(), IP(127, 1, 27, 1);
    assert [o][..0] == [] && Run(cfg, []) == EMPTY_REGISTRY;
    assert Dotted(ip) != r.ip;
    FirstMatchReserves([r], o);
    if ReservedIP(cfg, EMPTY_REGISTRY, key, o).Some? {
      assert ReservedIP(cfg, EMPTY_REGISTRY, key, o) == Some(ip);
      DetermineReservedPath(cfg, EMPTY_REGISTRY, key, o);
    } else {
      assert Offset(BaseIP(cfg), 0, 0, 0) == ip;
      DetermineCounterPath(cfg, EMPTY_REGISTRY, key, o);
    }
    assert Get(cfg, EMPTY_REGISTRY, o).1 == Some(ip);
  }

  lemma LeadingZeroParses()
    ensures IpFromString("127.1.27.01") == Some(IP(127, 1, 27, 1))
    ensures Dotted(IP(127, 1, 27, 1)) == DEFAULT_BASE_UNRESERVED_IP
  {
    DigitsOfDefault();
    LeadingZeroPieces();
    hide Split, Digits;
    ParseOfItoa(127, INT64_LIMIT);
    ParseOfItoa(27, INT64_LIMIT);
    ParseOfItoa(1, INT64_LIMIT);
    assert "01"[..1] == "0" && "0"[..0] == [];
    assert Value("01") == 1;
  }

  lemma LeadingZeroPieces()
    ensures Split("127.1.27.01", '.') == ["127", "1", "27", "01"]
  {
    hide Split;
    SplitWhole("01", '.');
    SplitFirst("27", '.', "01");
    SplitFirst("1", '.', "27.01");
    SplitFirst("127", '.', "1.27.01");
    assert "127.1.27.01" == "127" + ['.'] + "1.27.01";
    assert "1.27.01" == "1" + ['.'] + "27.01";
    assert "27.01" == "27" + ['.'] + "01";
  }
}
