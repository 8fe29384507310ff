// Without reservations the allocator is a simple function of the order in which keys arrive.
module FwdIpSimple {
  import opened Text
  import opened FwdIp
  import opened FwdIpProperties

  /** The distinct registry keys of block (c, n) among the calls. */
  function BlockKeys(calls: seq<ForwardIPOpts>, c: int, n: int): set<string> {
    set i | 0 <= i < |calls| && calls[i].clusterN == c && calls[i].namespaceN == n :: calls[i].RegKey()
  }

  predicate InRange(c: int, n: int) {
    0 <= c <= 255 && 0 <= n <= 255
  }

  predicate Plain(cfg: ForwardConfiguration) {
    Validated(cfg) && cfg.serviceConfigurations == []
  }

  ghost predicate PlacedBy(cfg: ForwardConfiguration, calls: seq<ForwardIPOpts>, st: RegistryState, key: string)
    requires Plain(cfg) && key in st.reg
  {
    exists c, n, k ::
      && InRange(c, n) && key in BlockKeys(calls, c, n)
      && 0 <= k < Counter(st.inc, c, n) && st.reg[key] == Offset(BaseIP(cfg), c, n, k)
  }

  ghost predicate SimpleInv(cfg: ForwardConfiguration, calls: seq<ForwardIPOpts>, st: RegistryState)
    requires Plain(cfg)
  {
    && Inv(cfg, st)
    && (forall c, n :: InRange(c, n) ==> Counter(st.inc, c, n) == Min(|BlockKeys(calls, c, n)|, 256))
    && (forall key :: key in st.reg ==> PlacedBy(cfg, calls, st, key))
    && (forall c, n, key :: InRange(c, n) && key in BlockKeys(calls, c, n) && |BlockKeys(calls, c, n)| <= 256 ==>
        key in st.reg)
  }

  lemma BlockKeysStep(calls: seq<ForwardIPOpts>, o: ForwardIPOpts, c: int, n: int)
    ensures BlockKeys(calls + [o], c, n) ==
            BlockKeys(calls, c, n) + (if o.clusterN == c && o.namespaceN == n then {o.RegKey()} else {})
  {
    hide ForwardIPOpts.RegKey;
    var all := calls + [o];
    assert forall i :: 0 <= i < |calls| ==> all[i] == calls[i];
    assert all[|calls|] == o;
    forall key | key in BlockKeys(calls, c, n)
      ensures key in BlockKeys(all, c, n)
    {
      var i :| 0 <= i < |calls| && calls[i].clusterN == c && calls[i].namespaceN == n && calls[i].RegKey() == key;
      assert all[i].RegKey() == key;
    }
  }

  lemma KeyHasOneBlock(calls: seq<ForwardIPOpts>, o: ForwardIPOpts, c: int, n: int)
    requires o.RegKey() in BlockKeys(calls, c, n)
    ensures c == o.clusterN && n == o.namespaceN
  {
    var i :| 0 <= i < |calls| && calls[i].clusterN == c && calls[i].namespaceN == n && calls[i].RegKey() == o.RegKey();
    RegKeyShared(calls[i], o);
  }

  /** The offsets of a block hit 256 different addresses, and no address of another block. */
  lemma OffsetInjective(base: IP, c: int, n: int, k: int, c': int, n': int, k': int)
    requires InRange(c, n) && InRange(c', n') && 0 <= k <= 255 && 0 <= k' <= 255
    requires Offset(base, c, n, k) == Offset(base, c', n', k')
    ensures c == c' && n == n' && k == k'
  {
  }

  lemma NextOffsetFree(cfg: ForwardConfiguration, calls: seq<ForwardIPOpts>, st: RegistryState, c: int, n: int)
    requires Plain(cfg) && SimpleInv(cfg, calls, st) && InRange(c, n) && Counter(st.inc, c, n) < 256
    ensures Dotted(Offset(BaseIP(cfg), c, n, Counter(st.inc, c, n))) !in st.taken
  {
    hide Dotted, IpFromString, BlockKeys, Offset, Validated;
    var ip := Offset(BaseIP(cfg), c, n, Counter(st.inc, c, n));
    if Dotted(ip) in st.taken {
      var key :| key in st.reg && Dotted(st.reg[key]) == Dotted(ip);
      DottedInjective(st.reg[key], ip);
      assert PlacedBy(cfg, calls, st, key);
      var c', n', k' :| InRange(c', n') && key in BlockKeys(calls, c', n')
                        && 0 <= k' < Counter(st.inc, c', n') && st.reg[key] == Offset(BaseIP(cfg), c', n', k');
      OffsetInjective(BaseIP(cfg), c, n, Counter(st.inc, c, n), c', n', k');
      assert false;
    }
  }

  /** The answer to a key that is not registered, with the state it leaves: the first offset tried is taken. */
  lemma SimpleAnswer(cfg: ForwardConfiguration, calls: seq<ForwardIPOpts>, st: RegistryState, o: ForwardIPOpts)
    requires Plain(cfg) && SimpleInv(cfg, calls, st) && o.clusterN >= 0 && o.namespaceN >= 0
    requires o.RegKey() !in st.reg
    ensures
      var c, n, key := o.clusterN, o.namespaceN, o.RegKey();
      var k := |BlockKeys(calls, c, n)|;
      var ip := Offset(BaseIP(cfg), c, n, k);
      Get(cfg, st, o) ==
        if !InRange(c, n) || k >= 256 then (st.(inc := WithCluster(st.inc, c)), None)
        else (RegistryState(Advance(st, c, n).inc, st.reg[key := ip], st.taken + {Dotted(ip)}), Some(ip))
  {
    hide Dotted, IpFromString, ForwardIPOpts.MatchList, ForwardIPOpts.RegKey, Determine, BlockKeys, Offset, Inv,
      WithCluster, PlacedBy;
    var c, n := o.clusterN, o.namespaceN;
    DetermineCounterPath(cfg, st, o.RegKey(), o);
    if InRange(c, n) && Counter(st.inc, c, n) < 256 {
      NextOffsetFree(cfg, calls, st, c, n);
    }
  }

  /** One call counts the key in its block and moves the block's counter exactly when it hands out an address. */
  lemma SimpleCounters(cfg: ForwardConfiguration, calls: seq<ForwardIPOpts>, st: RegistryState, o: ForwardIPOpts,
                       c: int, n: int)
    requires Plain(cfg) && SimpleInv(cfg, calls, st) && o.clusterN >= 0 && o.namespaceN >= 0
    ensures var st' := Get(cfg, st, o).0;
            Counter(st'.inc, c, n) == Counter(st.inc, c, n) +
              (if c == o.clusterN && n == o.namespaceN && st'.reg != st.reg then 1 else 0)
    ensures o.RegKey() in st.reg ==> BlockKeys(calls + [o], c, n) == BlockKeys(calls, c, n)
  {
    hide Dotted, IpFromString, ForwardIPOpts.MatchList, ForwardIPOpts.RegKey, Determine, BlockKeys, Offset, Inv,
      Validated, Advance, WithCluster, Counter;
    BlockKeysStep(calls, o, c, n);
    if o.RegKey() in st.reg {
      assert PlacedBy(cfg, calls, st, o.RegKey());
      var c', n', k' :| InRange(c', n') && o.RegKey() in BlockKeys(calls, c', n')
                        && 0 <= k' < Counter(st.inc, c', n') && st.reg[o.RegKey()] == Offset(BaseIP(cfg), c', n', k');
      KeyHasOneBlock(calls, o, c', n');
    } else {
      SimpleAnswer(cfg, calls, st, o);
      AdvanceCounter(st, o.clusterN, o.namespaceN, c, n);
      var k := |BlockKeys(calls, o.clusterN, o.namespaceN)|;
      if InRange(o.clusterN, o.namespaceN) && k < 256 {
        assert o.RegKey() in Get(cfg, st, o).0.reg;
      }
    }
  }

  lemma SimplePlaced(cfg: ForwardConfiguration, calls: seq<ForwardIPOpts>, st: RegistryState, o: ForwardIPOpts,
                     q: string)
    requires Plain(cfg) && SimpleInv(cfg, calls, st) && o.clusterN >= 0 && o.namespaceN >= 0
    ensures q in Get(cfg, st, o).0.reg ==> PlacedBy(cfg, calls + [o], Get(cfg, st, o).0, q)
  {
    hide Dotted, IpFromString, ForwardIPOpts.MatchList, ForwardIPOpts.RegKey, Determine, BlockKeys, Offset, Inv,
      Validated;
    var st', key, c, n := Get(cfg, st, o).0, o.RegKey(), o.clusterN, o.namespaceN;
    if q in st.reg {
      if key !in st.reg {
        SimpleAnswer(cfg, calls, st, o);
      }
      assert st'.reg[q] == st.reg[q];
      assert PlacedBy(cfg, calls, st, q);
      var c', n', k' :| InRange(c', n') && q in BlockKeys(calls, c', n')
                        && 0 <= k' < Counter(st.inc, c', n') && st.reg[q] == Offset(BaseIP(cfg), c', n', k');
      SimpleCounters(cfg, calls, st, o, c', n');
      BlockKeysStep(calls, o, c', n');
      assert q in BlockKeys(calls + [o], c', n') && 0 <= k' < Counter(st'.inc, c', n');
    } else if q in st'.reg {
      SimpleAnswer(cfg, calls, st, o);
      SimpleCounters(cfg, calls, st, o, c, n);
      BlockKeysStep(calls, o, c, n);
      var k := |BlockKeys(calls, c, n)|;
      assert q in BlockKeys(calls + [o], c, n) && 0 <= k < Counter(st'.inc, c, n)
             && st'.reg[q] == Offset(BaseIP(cfg), c, n, k);
    }
  }

  lemma SimpleBlock(cfg: ForwardConfiguration, calls: seq<ForwardIPOpts>, st: RegistryState, o: ForwardIPOpts, c: int,
                    n: int)
    requires Plain(cfg) && SimpleInv(cfg, calls, st) && o.clusterN >= 0 && o.namespaceN >= 0 && InRange(c, n)
    ensures var st', keys := Get(cfg, st, o).0, BlockKeys(calls + [o], c, n);
            && Counter(st'.inc, c, n) == Min(|keys|, 256)
            && forall key :: key in keys && |keys| <= 256 ==> key in st'.reg
  {
    hide Dotted, IpFromString, ForwardIPOpts.MatchList, ForwardIPOpts.RegKey, Determine, BlockKeys, Offset, Inv,
      Validated, PlacedBy, Counter, Get;
    var key, before := o.RegKey(), BlockKeys(calls, c, n);
    GetInv(cfg, st, o);
    BlockKeysStep(calls, o, c, n);
    SimpleCounters(cfg, calls, st, o, c, n);
    var after := BlockKeys(calls + [o], c, n);
    if key in st.reg {
      assert after == before;
    } else {
      SimpleAnswer(cfg, calls, st, o);
      if o.clusterN == c && o.namespaceN == n {
        assert after == before + {key};
        GrowsByOne(before, key);
        KeyWasRegistered(cfg, calls, st, o);
      } else {
        assert after == before + {} == before;
      }
    }
  }

  lemma GrowsByOne(keys: set<string>, key: string)
    ensures |keys + {key}| == |keys| + (if key in keys then 0 else 1)
  {
    if key in keys {
      assert keys + {key} == keys;
    }
  }

  /** A key of a block that has not run over is registered. */
  lemma KeyWasRegistered(cfg: ForwardConfiguration, calls: seq<ForwardIPOpts>, st: RegistryState, o: ForwardIPOpts)
    requires Plain(cfg) && SimpleInv(cfg, calls, st) && InRange(o.clusterN, o.namespaceN)
    ensures var keys := BlockKeys(calls, o.clusterN, o.namespaceN);
            && (|keys| <= 256 ==> forall key :: key in keys ==> key in st.reg)
            && Counter(st.inc, o.clusterN, o.namespaceN) == Min(|keys|, 256)
  {
    hide Inv, PlacedBy, Counter, BlockKeys, ForwardIPOpts.RegKey;
  }

  lemma SimpleStep(cfg: ForwardConfiguration, calls: seq<ForwardIPOpts>, st: RegistryState, o: ForwardIPOpts)
    requires Plain(cfg) && SimpleInv(cfg, calls, st) && o.clusterN >= 0 && o.namespaceN >= 0
    ensures SimpleInv(cfg, calls + [o], Get(cfg, st, o).0)
  {
    hide Dotted, IpFromString, ForwardIPOpts.MatchList, ForwardIPOpts.RegKey, Determine, BlockKeys, Offset, Inv,
      Validated, PlacedBy, Get, Counter;
    var st' := Get(cfg, st, o).0;
    GetInv(cfg, st, o);
    forall q | q in st'.reg
      ensures PlacedBy(cfg, calls + [o], st', q)
    {
      SimplePlaced(cfg, calls, st, o, q);
    }
    forall c, n | InRange(c, n)
      ensures Counter(st'.inc, c, n) == Min(|BlockKeys(calls + [o], c, n)|, 256)
      ensures forall key :: key in BlockKeys(calls + [o], c, n) && |BlockKeys(calls + [o], c, n)| <= 256 ==>
                key in st'.reg
    {
      SimpleBlock(cfg, calls, st, o, c, n);
    }
  }

  lemma {:induction false} SimpleRun(cfg: ForwardConfiguration, calls: seq<ForwardIPOpts>)
    requires Plain(cfg) && Ordinals(calls)
    ensures SimpleInv(cfg, calls, Run(cfg, calls))
  {
    hide Get, Validated;
    if calls == [] {
      EmptyInv(cfg);
    } else {
      var m := |calls| - 1;
      SimpleRun(cfg, calls[..m]);
      SimpleStep(cfg, calls[..m], Run(cfg, calls[..m]), calls[m]);
      assert calls[..m] + [calls[m]] == calls;
    }
  }

  /** Over every run without reservations: a key new to its block gets the base address plus (0, c, n, k), bytewise
      modulo 256, where k counts the keys the block saw before; from the 257th key on the block refuses. */
  lemma SimpleAllocator(cfg: ForwardConfiguration, calls: seq<ForwardIPOpts>, i: nat)
    requires Plain(cfg) && Ordinals(calls) && i < |calls|
    ensures
      var c, n := calls[i].clusterN, calls[i].namespaceN;
      var k := |BlockKeys(calls[..i], c, n)|;
      calls[i].RegKey() !in BlockKeys(calls[..i], c, n) ==>
        Answer(cfg, calls, i) == if InRange(c, n) && k < 256 then Some(Offset(BaseIP(cfg), c, n, k)) else None
  {
    hide Dotted, IpFromString, ForwardIPOpts.MatchList, ForwardIPOpts.RegKey, Determine, BlockKeys, Inv, Validated,
      Offset, Run;
    var o, st := calls[i], Run(cfg, calls[..i]);
    SimpleRun(cfg, calls[..i]);
    if o.RegKey() !in BlockKeys(calls[..i], o.clusterN, o.namespaceN) {
      if o.RegKey() in st.reg {
        assert PlacedBy(cfg, calls[..i], st, o.RegKey());
        var c', n', k' :| InRange(c', n') && o.RegKey() in BlockKeys(calls[..i], c', n')
                          && 0 <= k' < Counter(st.inc, c', n') && st.reg[o.RegKey()] == Offset(BaseIP(cfg), c', n', k');
        KeyHasOneBlock(calls[..i], o, c', n');
        assert false;
      }
      SimpleAnswer(cfg, calls[..i], st, o);
    }
  }

  /** Two different services can be answered with one address: the key joins service and pod with a dash. */
  lemma DistinctServicesCanShare(cfg: ForwardConfiguration)
    requires Plain(cfg)
    ensures exists a: ForwardIPOpts, b: ForwardIPOpts ::
              && a.serviceName != b.serviceName && a.podName != b.podName
              && Answer(cfg, [a, b], 0).Some? && Answer(cfg, [a, b], 0) == Answer(cfg, [a, b], 1)
  {
    hide Dotted, IpFromString, ForwardIPOpts.MatchList, ForwardIPOpts.RegKey, Determine, Validated, Offset;
    var a := ForwardIPOpts("web", "cache-0", "ctx", 0, 0, "ns");
    var b := ForwardIPOpts("web-cache", "0", "ctx", 0, 0, "ns");
    assert "web" + "-" + "cache-0" == "web-cache" + "-" + "0";
    RegKeyShared(a, b);
    var calls := [a, b];
    assert BlockKeys(calls[..0], 0, 0) == {};
    SimpleAllocator(cfg, calls, 0);
    assert calls[..1][..0] == calls[..0];
    AnswerStays(cfg, calls[..1], 0);
    assert Answer(cfg, calls, 1) == Answer(cfg, calls, 0);
  }
}
