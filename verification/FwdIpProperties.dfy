// What the address registry promises: one address per registry key, complete use of a
// block before it reports exhaustion, and the rights of reservations.
module FwdIpProperties {
  import opened Text
  import opened FwdIp

  // ---------- Dotted addresses ----------

  lemma DigitsAvoid(n: int, c: char)
    requires n >= 0 && !IsDigit(c)
    ensures c !in Itoa(n)
  {
    assert forall i :: 0 <= i < |Itoa(n)| ==> IsDigit(Itoa(n)[i]);
  }

  lemma SplitFour(a: string, b: string, c: string, d: string)
    requires '.' !in a && '.' !in b && '.' !in c && '.' !in d
    ensures Split(a + "." + (b + "." + (c + "." + d)), '.') == [a, b, c, d]
  {
    hide Split;
    SplitWhole(d, '.');
    SplitFirst(c, '.', d);
    SplitFirst(b, '.', c + "." + d);
    SplitFirst(a, '.', b + "." + (c + "." + d));
  }

  lemma OctetOfItoa(b: Byte)
    ensures OctetFromString(Itoa(b)) == Some(b) && '.' !in Itoa(b)
  {
    hide Digits;
    DigitsAvoid(b, '.');
    ParseOfItoa(b, INT64_LIMIT);
  }

  /** ipFromString reads back what net.IP.String prints. */
  lemma DottedRoundTrip(ip: IP)
    ensures IpFromString(Dotted(ip)) == Some(ip)
  {
    hide Itoa, OctetFromString, Split;
    OctetOfItoa(ip.b0);
    OctetOfItoa(ip.b1);
    OctetOfItoa(ip.b2);
    OctetOfItoa(ip.b3);
    SplitFour(Itoa(ip.b0), Itoa(ip.b1), Itoa(ip.b2), Itoa(ip.b3));
  }

  lemma DottedInjective(x: IP, y: IP)
    ensures Dotted(x) == Dotted(y) <==> x == y
  {
    DottedRoundTrip(x);
    DottedRoundTrip(y);
  }

  lemma DottedInjectiveAll()
    ensures forall x: IP, y: IP :: Dotted(x) == Dotted(y) ==> x == y
  {
    forall x: IP, y: IP
      ensures Dotted(x) == Dotted(y) ==> x == y
    {
      DottedInjective(x, y);
    }
  }

  // ---------- Registry keys ----------

  lemma DigitsDashUnique(p: nat, s: string, q: nat, t: string)
    requires Digits(p) + ['-'] + s == Digits(q) + ['-'] + t
    ensures p == q && s == t
  {
    hide Digits;
    DigitsAvoid(p, '-');
    DigitsAvoid(q, '-');
    CutUnique(Digits(p), s, Digits(q), t, '-');
    ValueOfDigits(p);
    ValueOfDigits(q);
  }

  lemma ItoaDash(m: int, s: string)
    ensures var x := Itoa(m) + "-" + s;
            if m < 0 then x[0] == '-' && x[1..] == Digits(-m) + ['-'] + s
            else x[0] != '-' && x == Digits(m) + ['-'] + s
  {
    hide Digits;
    assert m >= 0 ==> IsDigit(Digits(m)[0]);
  }

  lemma ItoaDashUnique(m: int, s: string, n: int, t: string)
    requires Itoa(m) + "-" + s == Itoa(n) + "-" + t
    ensures m == n && s == t
  {
    hide Digits, Itoa;
    ItoaDash(m, s);
    ItoaDash(n, t);
    assert m < 0 <==> n < 0;
    DigitsDashUnique(if m < 0 then -m else m, s, if n < 0 then -n else n, t);
  }

  /** Two requests share a registry key exactly when their block and their "service-pod" text agree. */
  lemma RegKeyShared(a: ForwardIPOpts, b: ForwardIPOpts)
    ensures a.RegKey() == b.RegKey() <==>
            && a.clusterN == b.clusterN && a.namespaceN == b.namespaceN
            && a.serviceName + "-" + a.podName == b.serviceName + "-" + b.podName
  {
    if a.RegKey() == b.RegKey() {
      var s, t := a.serviceName + "-" + a.podName, b.serviceName + "-" + b.podName;
      assert a.RegKey() == Itoa(a.clusterN) + "-" + (Itoa(a.namespaceN) + "-" + s);
      assert b.RegKey() == Itoa(b.clusterN) + "-" + (Itoa(b.namespaceN) + "-" + t);
      ItoaDashUnique(a.clusterN, Itoa(a.namespaceN) + "-" + s, b.clusterN, Itoa(b.namespaceN) + "-" + t);
      ItoaDashUnique(a.namespaceN, s, b.namespaceN, t);
    }
  }

  // ---------- The invariant ----------

  /** The address is allocated, or some reservation spells it. */
  predicate Spoken(cfg: ForwardConfiguration, taken: set<string>, ip: IP) {
    || Dotted(ip) in taken
    || exists r :: r in cfg.serviceConfigurations && r.ip == Dotted(ip)
  }

  ghost predicate BelowSpoken(cfg: ForwardConfiguration, st: RegistryState, c: int, n: int)
    requires Validated(cfg)
  {
    forall k :: 0 <= k < Counter(st.inc, c, n) ==> Spoken(cfg, st.taken, Offset(BaseIP(cfg), c, n, k))
  }

  ghost predicate Inv(cfg: ForwardConfiguration, st: RegistryState)
    requires Validated(cfg)
  {
    && (forall k1, k2 :: k1 in st.reg && k2 in st.reg && st.reg[k1] == st.reg[k2] ==> k1 == k2)
    && (forall k :: k in st.reg ==> Dotted(st.reg[k]) in st.taken && IsLoopback(st.reg[k]))
    && (forall s :: s in st.taken ==> exists k :: k in st.reg && Dotted(st.reg[k]) == s)
    && (forall c, n :: 0 <= Counter(st.inc, c, n) <= 256)
    && (forall c, n :: BelowSpoken(cfg, st, c, n))
  }

  lemma EmptyInv(cfg: ForwardConfiguration)
    requires Validated(cfg)
    ensures Inv(cfg, EMPTY_REGISTRY)
  {
  }

  lemma RegisterInv(cfg: ForwardConfiguration, st: RegistryState, key: string, opts: ForwardIPOpts, ip: IP)
    requires Validated(cfg) && Inv(cfg, st) && key !in st.reg && IsLoopback(ip)
    requires Register(cfg, st, key, opts, ip).Some?
    ensures Inv(cfg, Register(cfg, st, key, opts, ip).value)
  {
    hide Dotted, IpFromString, ForwardIPOpts.MatchList;
    DottedInjectiveAll();
    var st' := Register(cfg, st, key, opts, ip).value;
    forall k | k in st.reg
      ensures st.reg[k] != ip
    {
      assert Dotted(st.reg[k]) in st.taken;
    }
    forall s | s in st'.taken
      ensures exists k :: k in st'.reg && Dotted(st'.reg[k]) == s
    {
      if s == Dotted(ip) {
        assert st'.reg[key] == ip;
      } else {
        var k :| k in st.reg && Dotted(st.reg[k]) == s;
        assert st'.reg[k] == st.reg[k];
      }
    }
    forall c, n
      ensures BelowSpoken(cfg, st', c, n)
    {
      assert BelowSpoken(cfg, st, c, n);
    }
  }

  /** Moving the counter past an address that was refused or is now registered keeps the invariant. */
  lemma AdvanceInv(cfg: ForwardConfiguration, st: RegistryState, st': RegistryState, c: int, n: int)
    requires Validated(cfg) && Inv(cfg, st) && Counter(st.inc, c, n) <= 255
    requires st' == st.(inc := Advance(st, c, n).inc)
    requires Spoken(cfg, st.taken, Offset(BaseIP(cfg), c, n, Counter(st.inc, c, n)))
    ensures Inv(cfg, st')
    ensures Counter(st'.inc, c, n) == Counter(st.inc, c, n) + 1
  {
    hide Dotted, IpFromString, ForwardIPOpts.MatchList;
    forall c', n'
      ensures Counter(st'.inc, c', n') == Counter(st.inc, c', n') + (if c' == c && n' == n then 1 else 0)
      ensures BelowSpoken(cfg, st', c', n')
    {
      assert BelowSpoken(cfg, st, c', n');
    }
  }

  lemma WithClusterInv(cfg: ForwardConfiguration, st: RegistryState, c: int)
    requires Validated(cfg) && Inv(cfg, st)
    ensures Inv(cfg, st.(inc := WithCluster(st.inc, c)))
    ensures forall c', n' :: Counter(WithCluster(st.inc, c), c', n') == Counter(st.inc, c', n')
  {
    hide Dotted, IpFromString, ForwardIPOpts.MatchList;
    forall c', n'
      ensures Counter(WithCluster(st.inc, c), c', n') == Counter(st.inc, c', n')
      ensures BelowSpoken(cfg, st.(inc := WithCluster(st.inc, c)), c', n')
    {
      assert BelowSpoken(cfg, st, c', n');
    }
  }

  /** What one call of determineIP for an unregistered key does to the registry. */
  ghost predicate GoodAllocation(cfg: ForwardConfiguration, st: RegistryState, key: string, opts: ForwardIPOpts,
                                 st': RegistryState, r: Option<IP>)
    requires Validated(cfg)
  {
    && Inv(cfg, st')
    && match r
       case Some(ip) => st'.reg == st.reg[key := ip] && Dotted(ip) !in st.taken && !HasConflict(cfg, opts, Dotted(ip))
       case None =>
         && st'.reg == st.reg && st'.taken == st.taken
         && (opts.clusterN <= 255 && opts.namespaceN <= 255 ==> Counter(st'.inc, opts.clusterN, opts.namespaceN) == 256)
  }

  lemma RegisterSpoken(cfg: ForwardConfiguration, st: RegistryState, key: string, opts: ForwardIPOpts, ip: IP)
    ensures var r := Register(cfg, st, key, opts, ip);
            if r.Some? then
              && r.value == RegistryState(st.inc, st.reg[key := ip], st.taken + {Dotted(ip)})
              && Dotted(ip) !in st.taken && !HasConflict(cfg, opts, Dotted(ip)) && Spoken(cfg, r.value.taken, ip)
            else Spoken(cfg, st.taken, ip)
  {
  }

  lemma ReservedGood(cfg: ForwardConfiguration, st: RegistryState, key: string, opts: ForwardIPOpts)
    requires Validated(cfg) && Inv(cfg, st) && key !in st.reg
    ensures ReservedIP(cfg, st, key, opts).Some? ==>
              GoodAllocation(cfg, st, key, opts, Determine(cfg, st, key, opts).0, Determine(cfg, st, key, opts).1)
  {
    hide Dotted, IpFromString, ForwardIPOpts.MatchList, Determine, Inv, HasConflict;
    if ReservedIP(cfg, st, key, opts).Some? {
      var ip := ReservedIP(cfg, st, key, opts).value;
      FirstMatchReserves(cfg.serviceConfigurations, opts);
      DetermineReservedPath(cfg, st, key, opts);
      assert LoopbackText(FirstMatch(cfg.serviceConfigurations, opts).value.ip);
      RegisterSpoken(cfg, st, key, opts, ip);
      RegisterInv(cfg, st, key, opts, ip);
    }
  }

  lemma CounterBounds(cfg: ForwardConfiguration, st: RegistryState, c: int, n: int)
    requires Validated(cfg) && Inv(cfg, st)
    ensures 0 <= Counter(st.inc, c, n) <= 256
  {
  }

  lemma {:induction false} DetermineInv(cfg: ForwardConfiguration, st: RegistryState, key: string, opts: ForwardIPOpts)
    requires Validated(cfg) && Inv(cfg, st) && key !in st.reg
    ensures GoodAllocation(cfg, st, key, opts, Determine(cfg, st, key, opts).0, Determine(cfg, st, key, opts).1)
    decreases 256 - Counter(st.inc, opts.clusterN, opts.namespaceN)
  {
    hide Dotted, IpFromString, ForwardIPOpts.MatchList, Determine, Inv, HasConflict, Register, Spoken, ReservedIP,
      Counter, WithCluster;
    var c, n := opts.clusterN, opts.namespaceN;
    CounterBounds(cfg, st, c, n);
    if ReservedIP(cfg, st, key, opts).Some? {
      ReservedGood(cfg, st, key, opts);
    } else {
      DetermineCounterPath(cfg, st, key, opts);
      var k := Counter(st.inc, c, n);
      if c > 255 || n > 255 || k > 255 {
        WithClusterInv(cfg, st, c);
      } else {
        var ip, st' := Offset(BaseIP(cfg), c, n, k), Advance(st, c, n);
        RegisterSpoken(cfg, st', key, opts, ip);
        RegisterSpoken(cfg, st, key, opts, ip);
        SameRegister(cfg, st, st', key, opts, ip);
        if Register(cfg, st', key, opts, ip).Some? {
          RegisterInv(cfg, st, key, opts, ip);
          AdvanceInv(cfg, Register(cfg, st, key, opts, ip).value, Register(cfg, st', key, opts, ip).value, c, n);
        } else {
          AdvanceInv(cfg, st, st', c, n);
          DetermineInv(cfg, st', key, opts);
        }
      }
    }
  }

  lemma SameRegister(cfg: ForwardConfiguration, st: RegistryState, st': RegistryState, key: string,
                     opts: ForwardIPOpts, ip: IP)
    requires st'.taken == st.taken
    ensures Register(cfg, st, key, opts, ip).Some? <==> Register(cfg, st', key, opts, ip).Some?
  {
    hide HasConflict, Dotted;
  }

  lemma SameReserved(cfg: ForwardConfiguration, st: RegistryState, st': RegistryState, key: string, opts: ForwardIPOpts)
    requires st'.taken == st.taken
    ensures ReservedIP(cfg, st', key, opts) == ReservedIP(cfg, st, key, opts)
  {
    hide HasConflict, Dotted, FirstMatch, IpFromString;
  }

  lemma {:induction false} FirstMatchReserves(rs: seq<ServiceConfiguration>, opts: ForwardIPOpts)
    ensures FirstMatch(rs, opts).Some? ==> FirstMatch(rs, opts).value in rs && Matches(FirstMatch(rs, opts).value, opts)
    ensures FirstMatch(rs, opts).None? ==> forall r :: r in rs ==> !Matches(r, opts)
  {
    hide Matches;
    if rs != [] && !Matches(rs[0], opts) {
      FirstMatchReserves(rs[1..], opts);
    }
  }

  /** GetIP keeps the invariant and every registered address; a success is registered under the caller's key. */
  lemma GetInv(cfg: ForwardConfiguration, st: RegistryState, opts: ForwardIPOpts)
    requires Validated(cfg) && Inv(cfg, st)
    ensures var (st', r) := Get(cfg, st, opts);
            && Inv(cfg, st')
            && (forall k :: k in st.reg ==> k in st'.reg && st'.reg[k] == st.reg[k])
            && (forall k :: k in st'.reg && k !in st.reg ==> k == opts.RegKey() && r.Some?)
            && (r.Some? ==> opts.RegKey() in st'.reg && st'.reg[opts.RegKey()] == r.value)
  {
    hide Dotted, IpFromString, ForwardIPOpts.MatchList, ForwardIPOpts.RegKey, Determine, Validated, Inv;
    if opts.RegKey() !in st.reg {
      DetermineInv(cfg, st, opts.RegKey(), opts);
    }
  }

  lemma {:induction false} RunInv(cfg: ForwardConfiguration, calls: seq<ForwardIPOpts>)
    requires Validated(cfg)
    ensures Inv(cfg, Run(cfg, calls))
  {
    hide Inv, Get, Validated;
    if calls == [] {
      EmptyInv(cfg);
    } else {
      RunInv(cfg, calls[..|calls| - 1]);
      GetInv(cfg, Run(cfg, calls[..|calls| - 1]), calls[|calls| - 1]);
    }
  }

  // ---------- Every run ----------

  /** The answer to call i of a run. */
  function Answer(cfg: ForwardConfiguration, calls: seq<ForwardIPOpts>, i: nat): Option<IP>
    requires Validated(cfg) && i < |calls|
  {
    Get(cfg, Run(cfg, calls[..i]), calls[i]).1
  }

  /** A key once given an address keeps it for the rest of the run. */
  lemma {:induction false} AnswerStays(cfg: ForwardConfiguration, calls: seq<ForwardIPOpts>, i: nat)
    requires Validated(cfg) && i < |calls|
    ensures Answer(cfg, calls, i).Some? ==>
              calls[i].RegKey() in Run(cfg, calls).reg
                && Run(cfg, calls).reg[calls[i].RegKey()] == Answer(cfg, calls, i).value
  {
    hide Inv, Get, Validated, ForwardIPOpts.RegKey;
    var m := |calls| - 1;
    RunInv(cfg, calls[..m]);
    GetInv(cfg, Run(cfg, calls[..m]), calls[m]);
    if i < m {
      assert calls[..m][..i] == calls[..i];
      AnswerStays(cfg, calls[..m], i);
    }
  }

  /** Over every run: two answered calls get one address exactly when they share the registry key,
      every answer is a loopback address, and the taken set holds exactly the registered addresses. */
  lemma OneAddressPerKey(cfg: ForwardConfiguration, calls: seq<ForwardIPOpts>, i: nat, j: nat)
    requires Validated(cfg) && i < |calls| && j < |calls|
    ensures Answer(cfg, calls, i).Some? && Answer(cfg, calls, j).Some? ==>
              (Answer(cfg, calls, i) == Answer(cfg, calls, j) <==>
                && calls[i].clusterN == calls[j].clusterN && calls[i].namespaceN == calls[j].namespaceN
                && calls[i].serviceName + "-" + calls[i].podName == calls[j].serviceName + "-" + calls[j].podName)
    ensures Answer(cfg, calls, i).Some? ==> IsLoopback(Answer(cfg, calls, i).value)
    ensures Run(cfg, calls).taken == set k | k in Run(cfg, calls).reg :: Dotted(Run(cfg, calls).reg[k])
  {
    hide Dotted, IpFromString, ForwardIPOpts.RegKey, Answer, Run, Validated;
    RunInv(cfg, calls);
    AnswerStays(cfg, calls, i);
    AnswerStays(cfg, calls, j);
    RegKeyShared(calls[i], calls[j]);
  }

  lemma DigitsOfDefault()
    ensures Digits(127) == "127" && Digits(27) == "27" && Digits(1) == "1"
  {
    assert Digits(1) == "1";
    assert Digits(12) == "12";
    assert Digits(2) == "2";
  }

  lemma DefaultBase()
    ensures IpFromString(DEFAULT_BASE_UNRESERVED_IP) == Some(IP(127, 1, 27, 1))
  {
    DigitsOfDefault();
    assert Dotted(IP(127, 1, 27, 1)) == DEFAULT_BASE_UNRESERVED_IP;
    DottedRoundTrip(IP(127, 1, 27, 1));
  }

  /** An in-range request is refused only when all 256 addresses of its block are allocated or reserved. */
  lemma ExhaustedMeansFull(cfg: ForwardConfiguration, calls: seq<ForwardIPOpts>, i: nat)
    requires Validated(cfg) && i < |calls| && calls[i].clusterN <= 255 && calls[i].namespaceN <= 255
    ensures Answer(cfg, calls, i).None? ==>
              forall k :: 0 <= k < 256 ==>
                Spoken(cfg, Run(cfg, calls[..i]).taken, Offset(BaseIP(cfg), calls[i].clusterN, calls[i].namespaceN, k))
  {
    hide Dotted, IpFromString, ForwardIPOpts.MatchList, ForwardIPOpts.RegKey, Determine, Run, Spoken, Offset;
    var st, opts := Run(cfg, calls[..i]), calls[i];
    RunInv(cfg, calls[..i]);
    if Answer(cfg, calls, i).None? {
      DetermineInv(cfg, st, opts.RegKey(), opts);
      assert BelowSpoken(cfg, Determine(cfg, st, opts.RegKey(), opts).0, opts.clusterN, opts.namespaceN);
    }
  }

  /** The counter path is first fit: the address is the first at or above the counter that is neither
      allocated nor reserved for another service, at most 256 steps away, and the counter stops just past it. */
  lemma {:induction false} FirstFit(cfg: ForwardConfiguration, st: RegistryState, key: string, opts: ForwardIPOpts)
    requires Validated(cfg) && Inv(cfg, st) && key !in st.reg
    ensures
      var c, n := opts.clusterN, opts.namespaceN;
      var from, upTo := Counter(st.inc, c, n), Counter(Determine(cfg, st, key, opts).0.inc, c, n);
      ReservedIP(cfg, st, key, opts).None? && Determine(cfg, st, key, opts).1.Some? ==>
      && from < upTo <= 256
      && Determine(cfg, st, key, opts).1 == Some(Offset(BaseIP(cfg), c, n, upTo - 1))
      && forall k :: from <= k < upTo ==>
           (k < upTo - 1 <==> Unusable(cfg, st, opts, k))
    decreases 256 - Counter(st.inc, opts.clusterN, opts.namespaceN)
  {
    hide Dotted, IpFromString, ForwardIPOpts.MatchList, Determine, ReservedIP, Offset;
    var c, n, k := opts.clusterN, opts.namespaceN, Counter(st.inc, opts.clusterN, opts.namespaceN);
    if ReservedIP(cfg, st, key, opts).None? && Determine(cfg, st, key, opts).1.Some? {
      DetermineCounterPath(cfg, st, key, opts);
      var ip, st' := Offset(BaseIP(cfg), c, n, k), Advance(st, c, n);
      assert Register(cfg, st', key, opts, ip).None? <==> Unusable(cfg, st, opts, k);
      if Register(cfg, st', key, opts, ip).None? {
        AdvanceInv(cfg, st, st', c, n);
        SameReserved(cfg, st, st', key, opts);
        FirstFit(cfg, st', key, opts);
        assert forall j :: Unusable(cfg, st', opts, j) <==> Unusable(cfg, st, opts, j);
      }
    }
  }

  /** The k-th address of the block is allocated, or reserved for another service. */
  predicate Unusable(cfg: ForwardConfiguration, st: RegistryState, o: ForwardIPOpts, k: int)
    requires Validated(cfg)
  {
    var ip := Dotted(Offset(BaseIP(cfg), o.clusterN, o.namespaceN, k));
    ip in st.taken || HasConflict(cfg, o, ip)
  }

  /** An in-range request for a new key is refused exactly when its reservation cannot be registered and every address
      of the block from the counter on is allocated or reserved for another service. */
  lemma {:induction false} RefusedIff(cfg: ForwardConfiguration, st: RegistryState, key: string, o: ForwardIPOpts)
    requires Validated(cfg) && Inv(cfg, st) && key !in st.reg && o.clusterN <= 255 && o.namespaceN <= 255
    ensures Determine(cfg, st, key, o).1.None? <==>
            && ReservedIP(cfg, st, key, o).None?
            && forall k :: Counter(st.inc, o.clusterN, o.namespaceN) <= k < 256 ==> Unusable(cfg, st, o, k)
    decreases 256 - Counter(st.inc, o.clusterN, o.namespaceN)
  {
    hide Dotted, IpFromString, ForwardIPOpts.MatchList, Determine, ReservedIP, Offset, HasConflict;
    var c, n, k := o.clusterN, o.namespaceN, Counter(st.inc, o.clusterN, o.namespaceN);
    CounterBounds(cfg, st, c, n);
    if ReservedIP(cfg, st, key, o).Some? {
      DetermineReservedPath(cfg, st, key, o);
    } else {
      DetermineCounterPath(cfg, st, key, o);
      var ip, st' := Offset(BaseIP(cfg), c, n, k), Advance(st, c, n);
      RegisterSpoken(cfg, st', key, o, ip);
      assert Register(cfg, st', key, o, ip).None? <==> Unusable(cfg, st, o, k);
      if k <= 255 && Register(cfg, st', key, o, ip).None? {
        AdvanceInv(cfg, st, st', c, n);
        SameReserved(cfg, st, st', key, o);
        RefusedIff(cfg, st', key, o);
        assert forall j :: Unusable(cfg, st', o, j) <==> Unusable(cfg, st, o, j);
      }
    }
  }

  /** So over every run: an in-range call is refused exactly when its key is not registered, its reservation cannot be,
      and no address of its block from the counter on is left for it. */
  lemma RefusalsOfRun(cfg: ForwardConfiguration, calls: seq<ForwardIPOpts>, i: nat)
    requires Validated(cfg) && i < |calls| && calls[i].clusterN <= 255 && calls[i].namespaceN <= 255
    ensures var o, st := calls[i], Run(cfg, calls[..i]);
            Answer(cfg, calls, i).None? <==>
              && o.RegKey() !in st.reg && ReservedIP(cfg, st, o.RegKey(), o).None?
              && forall k :: Counter(st.inc, o.clusterN, o.namespaceN) <= k < 256 ==> Unusable(cfg, st, o, k)
  {
    hide Dotted, IpFromString, ForwardIPOpts.MatchList, ForwardIPOpts.RegKey, Determine, Run, ReservedIP, Unusable, Inv,
      Validated, Counter;
    var o, st := calls[i], Run(cfg, calls[..i]);
    RunInv(cfg, calls[..i]);
    if o.RegKey() !in st.reg {
      RefusedIff(cfg, st, o.RegKey(), o);
    }
  }

  predicate ReservedAddress(cfg: ForwardConfiguration, ip: IP) {
    exists r :: r in cfg.serviceConfigurations && Reserves(r, ip)
  }

  /** The address is one of the 256 of an in-range block. */
  predicate InBlock(cfg: ForwardConfiguration, c: int, n: int, ip: IP)
    requires Validated(cfg)
  {
    c <= 255 && n <= 255 && exists k :: 0 <= k <= 255 && ip == Offset(BaseIP(cfg), c, n, k)
  }

  /** An address found for a new key is a reservation's or one of the key's block. */
  lemma DetermineFrom(cfg: ForwardConfiguration, st: RegistryState, key: string, opts: ForwardIPOpts)
    requires Validated(cfg) && Inv(cfg, st) && key !in st.reg
    ensures var r := Determine(cfg, st, key, opts).1;
            r.Some? ==>
              if ReservedIP(cfg, st, key, opts).Some? then ReservedAddress(cfg, r.value)
              else InBlock(cfg, opts.clusterN, opts.namespaceN, r.value)
  {
    hide Dotted, IpFromString, ForwardIPOpts.MatchList, Determine, Offset, Inv, Validated, HasConflict;
    FirstFit(cfg, st, key, opts);
    CounterBounds(cfg, st, opts.clusterN, opts.namespaceN);
    FirstMatchReserves(cfg.serviceConfigurations, opts);
    if ReservedIP(cfg, st, key, opts).Some? {
      DetermineReservedPath(cfg, st, key, opts);
    } else {
      DetermineCounterPath(cfg, st, key, opts);
    }
  }

  /** Cluster and namespace ordinals are indices. */
  predicate Ordinals(calls: seq<ForwardIPOpts>) {
    forall i :: 0 <= i < |calls| ==> calls[i].clusterN >= 0 && calls[i].namespaceN >= 0
  }
}
