// Which addresses the ordinals of a run reach: the allocator (pkg/fwdip/fwdIp.go) fed by the ordinals of
// pkg/fwdns/manager.go, the API address (pkg/fwdapi/manager.go) and isKubefwdIP (pkg/fwdhost/fwdhost.go).
module FwdAddresses {
  import opened Text
  import opened FwdIp
  import opened FwdIpProperties
  import FwdIpSimple
  import FwdOrdinals

  const DEFAULT_BASE: IP := IP(127, 1, 27, 1)
  const API_IP: IP := IP(127, 2, 27, 1)

  /** isKubefwdIP, on a parsed address. */
  predicate IsKubefwdIP(ip: IP) {
    ip.b0 == 127 && (ip.b1 > 1 || (ip.b1 == 1 && ip.b2 >= 27))
  }

  function Number(ip: IP): int {
    ((ip.b0 * 256 + ip.b1) * 256 + ip.b2) * 256 + ip.b3
  }

  /** What isKubefwdIP recognises are the addresses from 127.1.27.0 to 127.255.255.255, so none that is not loopback. */
  lemma KubefwdIPsAre(ip: IP)
    ensures IsKubefwdIP(ip) <==> Number(IP(127, 1, 27, 0)) <= Number(ip) <= Number(IP(127, 255, 255, 255))
    ensures IsKubefwdIP(ip) ==> IsLoopback(ip)
  {
  }

  /** Of the counter-path addresses of in-range ordinals only the first of block (1, 0) is the API address. */
  lemma ApiAddressIff(c: int, n: int, k: int)
    requires 0 <= c <= 255 && 0 <= n <= 255 && 0 <= k <= 255
    ensures Offset(DEFAULT_BASE, c, n, k) == API_IP <==> c == 1 && n == 0 && k == 0
  {
  }

  lemma KubefwdIPIff(c: int, n: int, k: int)
    requires 0 <= c <= 255 && 0 <= n <= 255 && 0 <= k <= 255
    ensures IsKubefwdIP(Offset(DEFAULT_BASE, c, n, k)) <==> 1 <= c <= 254 || (c == 0 && n <= 228)
  {
  }

  /** No configuration file, or one that sets the base to the default. */
  predicate DefaultBased(cfg: ForwardConfiguration) {
    Validated(cfg) && BaseIP(cfg) == DEFAULT_BASE
  }

  lemma DefaultIsBased(cfg: ForwardConfiguration)
    requires Validated(cfg)
    ensures cfg.baseUnreservedIP == DEFAULT_BASE_UNRESERVED_IP ==> DefaultBased(cfg)
  {
    hide IpFromString;
    DefaultBase();
  }

  /** The address comes from a reservation or from the block of some call of the run. */
  ghost predicate Sourced(cfg: ForwardConfiguration, calls: seq<ForwardIPOpts>, ip: IP)
    requires Validated(cfg)
  {
    ReservedAddress(cfg, ip) || exists o :: o in calls && InBlock(cfg, o.clusterN, o.namespaceN, ip)
  }

  lemma {:induction false} RunSourced(cfg: ForwardConfiguration, calls: seq<ForwardIPOpts>)
    requires Validated(cfg)
    ensures forall key :: key in Run(cfg, calls).reg ==> Sourced(cfg, calls, Run(cfg, calls).reg[key])
  {
    hide Dotted, IpFromString, ForwardIPOpts.MatchList, ForwardIPOpts.RegKey, Determine, Offset, Inv, Validated,
      ReservedAddress, InBlock, ReservedIP;
    if calls != [] {
      var m := |calls| - 1;
      var st, o := Run(cfg, calls[..m]), calls[m];
      RunSourced(cfg, calls[..m]);
      RunInv(cfg, calls[..m]);
      GetInv(cfg, st, o);
      if o.RegKey() !in st.reg {
        DetermineFrom(cfg, st, o.RegKey(), o);
      }
      forall key | key in Run(cfg, calls).reg
        ensures Sourced(cfg, calls, Run(cfg, calls).reg[key])
      {
        if key in st.reg {
          assert Sourced(cfg, calls[..m], st.reg[key]);
          assert forall x :: x in calls[..m] ==> x in calls;
        } else {
          assert o in calls;
        }
      }
    }
  }

  lemma AnswerSourced(cfg: ForwardConfiguration, calls: seq<ForwardIPOpts>, i: nat)
    requires Validated(cfg) && i < |calls|
    ensures Answer(cfg, calls, i).Some? ==> Sourced(cfg, calls, Answer(cfg, calls, i).value)
  {
    hide Validated, Sourced, ForwardIPOpts.RegKey, Get;
    RunSourced(cfg, calls);
    AnswerStays(cfg, calls, i);
  }

  /** The request carries the ordinals of an answered call of the run. */
  ghost predicate FedBy(o: ForwardIPOpts, s: FwdOrdinals.State) {
    exists c: nat :: FwdOrdinals.Answered(s, c) && FwdOrdinals.Ordinals(s, c) == (o.clusterN, o.namespaceN)
  }

  ghost predicate AllFed(calls: seq<ForwardIPOpts>, s: FwdOrdinals.State) {
    forall i :: 0 <= i < |calls| ==> FedBy(calls[i], s)
  }

  ghost predicate GetsApiBlock(s: FwdOrdinals.State) {
    exists c: nat :: FwdOrdinals.Answered(s, c) && FwdOrdinals.Ordinals(s, c) == (1, 0)
  }

  /** Over every interleaving of ordinals and every run of GetIP fed by them: the API address is answered only if it is
      reserved, or some call was given block (1, 0). */
  lemma ApiAddressOnlyIf(cfg: ForwardConfiguration, s: FwdOrdinals.State, calls: seq<ForwardIPOpts>, i: nat)
    requires DefaultBased(cfg) && AllFed(calls, s) && i < |calls|
    ensures Answer(cfg, calls, i) == Some(API_IP) ==> ReservedAddress(cfg, API_IP) || GetsApiBlock(s)
  {
    hide Validated, Dotted, IpFromString, ForwardIPOpts.MatchList, ForwardIPOpts.RegKey, Answer, ReservedAddress,
      BaseIP, Offset;
    AnswerSourced(cfg, calls, i);
    if Answer(cfg, calls, i) == Some(API_IP) && !ReservedAddress(cfg, API_IP) {
      var o :| o in calls && InBlock(cfg, o.clusterN, o.namespaceN, API_IP);
      var j :| 0 <= j < |calls| && calls[j] == o;
      assert FedBy(calls[j], s);
      var k :| 0 <= k <= 255 && API_IP == Offset(BaseIP(cfg), o.clusterN, o.namespaceN, k);
      ApiAddressIff(o.clusterN, o.namespaceN, k);
    }
  }

  ghost predicate ApiAddressAnswered(cfg: ForwardConfiguration, s: FwdOrdinals.State)
    requires Validated(cfg)
  {
    exists calls, i: nat :: AllFed(calls, s) && i < |calls| && Answer(cfg, calls, i) == Some(API_IP)
  }

  /** Without reservations, some run of GetIP fed by an interleaving is answered the API address exactly when the first
      namespace key was indexed for a context whose index was then 1. */
  lemma ApiAddressAnsweredIff(cfg: ForwardConfiguration, steps: seq<FwdOrdinals.Step>)
    requires DefaultBased(cfg) && FwdIpSimple.Plain(cfg)
    requires FwdOrdinals.After(steps).Some? && FwdOrdinals.AllDotFree(FwdOrdinals.After(steps).value)
    ensures ApiAddressAnswered(cfg, FwdOrdinals.After(steps).value) <==>
            exists p, ctx :: FwdOrdinals.SecondContextFirst(steps, p, ctx)
  {
    hide Validated, Answer, BaseIP, FwdOrdinals.After, FwdOrdinals.SecondContextFirst, AllFed;
    var s := FwdOrdinals.After(steps).value;
    FwdOrdinals.SomeCallGetsApiBlockIff(steps);
    if GetsApiBlock(s) {
      ApiBlockAnswered(cfg, s);
    }
    if ApiAddressAnswered(cfg, s) {
      var calls, i: nat :| AllFed(calls, s) && i < |calls| && Answer(cfg, calls, i) == Some(API_IP);
      ApiAddressOnlyIf(cfg, s, calls, i);
    }
  }

  lemma ApiBlockAnswered(cfg: ForwardConfiguration, s: FwdOrdinals.State)
    requires DefaultBased(cfg) && FwdIpSimple.Plain(cfg) && GetsApiBlock(s)
    ensures ApiAddressAnswered(cfg, s)
  {
    hide Validated, Answer, BaseIP, Offset, ForwardIPOpts.RegKey, FwdOrdinals.Answered;
    var calls := [ForwardIPOpts("svc", "pod", "ctx", 1, 0, "ns")];
    assert FwdIpSimple.BlockKeys(calls[..0], 1, 0) == {};
    FwdIpSimple.SimpleAllocator(cfg, calls, 0);
    ApiAddressIff(1, 0, 0);
    assert FedBy(calls[0], s);
  }

  /** With both ordinals taken under one lock, as by StartWatcher alone, no run of GetIP reaches the API address unless
      it is reserved. */
  lemma OneLockAvoidsApi(cfg: ForwardConfiguration, steps: seq<FwdOrdinals.Step>, calls: seq<ForwardIPOpts>, i: nat)
    requires DefaultBased(cfg) && !ReservedAddress(cfg, API_IP) && i < |calls|
    requires FwdOrdinals.After(steps).Some? && FwdOrdinals.OneLock(steps)
    requires FwdOrdinals.AllDotFree(FwdOrdinals.After(steps).value) && AllFed(calls, FwdOrdinals.After(steps).value)
    ensures Answer(cfg, calls, i) != Some(API_IP)
  {
    hide Validated, Answer, BaseIP, FwdOrdinals.After, FwdOrdinals.OneLock, AllFed, ReservedAddress;
    var s := FwdOrdinals.After(steps).value;
    ApiAddressOnlyIf(cfg, s, calls, i);
    if c: nat :| FwdOrdinals.Answered(s, c) && FwdOrdinals.Ordinals(s, c) == (1, 0) {
      FwdOrdinals.OneLockOrdinals(steps, c);
    }
  }

  /** Over every interleaving and every run fed by it, a first answer that does not come from a reservation is
      recognised by the hosts clean-up exactly when 1 <= c <= 254, or c is 0 and n <= 228. */
  lemma AddressesOfRun(cfg: ForwardConfiguration, s: FwdOrdinals.State, calls: seq<ForwardIPOpts>, i: nat)
    requires DefaultBased(cfg) && AllFed(calls, s) && i < |calls|
    ensures var o, st := calls[i], Run(cfg, calls[..i]);
            o.RegKey() !in st.reg && ReservedIP(cfg, st, o.RegKey(), o).None? && Answer(cfg, calls, i).Some? ==>
              (IsKubefwdIP(Answer(cfg, calls, i).value) <==>
               1 <= o.clusterN <= 254 || (o.clusterN == 0 && o.namespaceN <= 228))
  {
    hide Validated, Dotted, IpFromString, ForwardIPOpts.MatchList, ForwardIPOpts.RegKey, Determine, ReservedIP,
      BaseIP, Offset, Inv, Run, IsKubefwdIP;
    var o, st := calls[i], Run(cfg, calls[..i]);
    assert FedBy(calls[i], s);
    RunInv(cfg, calls[..i]);
    if o.RegKey() !in st.reg && ReservedIP(cfg, st, o.RegKey(), o).None? && Answer(cfg, calls, i).Some? {
      DetermineFrom(cfg, st, o.RegKey(), o);
      var k :| 0 <= k <= 255 && Answer(cfg, calls, i).value == Offset(BaseIP(cfg), o.clusterN, o.namespaceN, k);
      KubefwdIPIff(o.clusterN, o.namespaceN, k);
    }
  }

  // ---------- A run that reaches the API address ----------

  lemma Continue(steps: seq<FwdOrdinals.Step>, s: FwdOrdinals.State, step: FwdOrdinals.Step)
    returns (steps': seq<FwdOrdinals.Step>, t: FwdOrdinals.State)
    requires FwdOrdinals.After(steps) == Some(s) && FwdOrdinals.Enabled(s, step)
    ensures steps' == steps + [step] && FwdOrdinals.After(steps') == Some(t) && t == FwdOrdinals.Apply(s, step)
  {
    steps', t := steps + [step], FwdOrdinals.Apply(s, step);
    assert steps'[..|steps|] == steps;
  }

  lemma FirstContextTaken(a: string, ns: string) returns (steps: seq<FwdOrdinals.Step>, s: FwdOrdinals.State)
    ensures steps == [FwdOrdinals.TakeContext(a, ns)] && FwdOrdinals.After(steps) == Some(s)
    ensures s == FwdOrdinals.State(map[a := 0], map[], {}, [FwdOrdinals.Call(a, ns, 0, None)])
  {
    steps, s := Continue([], FwdOrdinals.INIT, FwdOrdinals.TakeContext(a, ns));
  }

  /** Two CreateServiceFWD calls for two contexts: the first takes its context ordinal, then the second takes both of
      its own. Without reservations the second call's first service is answered the API address. */
  lemma InterleavedCallsReachApi(cfg: ForwardConfiguration, a: string, b: string, ns: string)
    returns (steps: seq<FwdOrdinals.Step>)
    requires DefaultBased(cfg) && FwdIpSimple.Plain(cfg) && a != b
    ensures steps == [FwdOrdinals.TakeContext(a, ns), FwdOrdinals.TakeContext(b, ns), FwdOrdinals.TakeNamespace(1)]
    ensures FwdOrdinals.After(steps).Some? && ApiAddressAnswered(cfg, FwdOrdinals.After(steps).value)
  {
    hide FwdOrdinals.After, DefaultBased, FwdIpSimple.Plain, ApiAddressAnswered;
    var s;
    steps, s := FirstContextTaken(a, ns);
    assert |s.contexts| == 1;
    steps, s := Continue(steps, s, FwdOrdinals.TakeContext(b, ns));
    steps, s := Continue(steps, s, FwdOrdinals.TakeNamespace(1));
    assert FwdOrdinals.Answered(s, 1) && FwdOrdinals.Ordinals(s, 1) == (1, 0);
    ApiBlockAnswered(cfg, s);
  }

  /** A CreateServiceFWD caught between its ordinals does the same to a StartWatcher. */
  lemma InterleavedWatcherReachesApi(cfg: ForwardConfiguration, a: string, b: string, ns: string)
    returns (steps: seq<FwdOrdinals.Step>)
    requires DefaultBased(cfg) && FwdIpSimple.Plain(cfg) && a != b
    ensures steps == [FwdOrdinals.TakeContext(a, ns), FwdOrdinals.StartWatcher(b, ns, false)]
    ensures FwdOrdinals.After(steps).Some? && ApiAddressAnswered(cfg, FwdOrdinals.After(steps).value)
  {
    hide FwdOrdinals.After, DefaultBased, FwdIpSimple.Plain, ApiAddressAnswered;
    var s;
    steps, s := FirstContextTaken(a, ns);
    assert |s.contexts| == 1;
    steps, s := Continue(steps, s, FwdOrdinals.StartWatcher(b, ns, false));
    assert FwdOrdinals.Answered(s, 1) && FwdOrdinals.Ordinals(s, 1) == (1, 0);
    ApiBlockAnswered(cfg, s);
  }
}
