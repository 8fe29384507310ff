// What a call of GetIP is answered, over every run: the registered address, else the reserved one, else the first free
// address of the block.
module FwdIpAnswers {
  import opened Text
  import opened FwdIp
  import opened FwdIpProperties

  /** Entry j is the first reservation that matches the service. */
  predicate FirstToMatch(cfg: ForwardConfiguration, o: ForwardIPOpts, j: int) {
    var rs := cfg.serviceConfigurations;
    0 <= j < |rs| && Matches(rs[j], o) && forall l :: 0 <= l < j ==> !Matches(rs[l], o)
  }

  /** The first matching reservation has this address, which is neither allocated nor reserved for another service. */
  ghost predicate Honoured(cfg: ForwardConfiguration, st: RegistryState, o: ForwardIPOpts, ip: IP) {
    && (exists j :: FirstToMatch(cfg, o, j) && IpFromString(cfg.serviceConfigurations[j].ip) == Some(ip))
    && Dotted(ip) !in st.taken && !HasConflict(cfg, o, Dotted(ip))
  }

  lemma {:induction false} FirstMatchAt(rs: seq<ServiceConfiguration>, o: ForwardIPOpts) returns (j: nat)
    ensures match FirstMatch(rs, o)
            case Some(r) => j < |rs| && rs[j] == r && Matches(r, o) && forall l :: 0 <= l < j ==> !Matches(rs[l], o)
            case None => forall l :: 0 <= l < |rs| ==> !Matches(rs[l], o)
  {
    hide Matches;
    j := 0;
    if rs != [] && !Matches(rs[0], o) {
      j := FirstMatchAt(rs[1..], o);
      j := j + 1;
      assert forall l :: 0 < l < |rs| ==> rs[l] == rs[1..][l - 1];
    }
  }

  lemma ReservedIPIs(cfg: ForwardConfiguration, st: RegistryState, key: string, o: ForwardIPOpts)
    ensures forall ip :: ReservedIP(cfg, st, key, o) == Some(ip) <==> Honoured(cfg, st, o, ip)
  {
    hide Dotted, IpFromString, Matches, HasConflict;
    var j := FirstMatchAt(cfg.serviceConfigurations, o);
    forall ip
      ensures ReservedIP(cfg, st, key, o) == Some(ip) <==> Honoured(cfg, st, o, ip)
    {
      if l :| FirstToMatch(cfg, o, l) && IpFromString(cfg.serviceConfigurations[l].ip) == Some(ip) {
        assert l == j;
      }
      assert ReservedIP(cfg, st, key, o) == Some(ip) ==> FirstToMatch(cfg, o, j);
    }
  }

  /** A registered key is answered its address. */
  lemma RegisteredAnswer(cfg: ForwardConfiguration, calls: seq<ForwardIPOpts>, i: nat)
    requires Validated(cfg) && i < |calls|
    ensures var st, key := Run(cfg, calls[..i]), calls[i].RegKey();
            key in st.reg ==> Answer(cfg, calls, i) == Some(st.reg[key])
  {
    hide Validated, Run, ForwardIPOpts.RegKey;
  }

  /** A new key whose first matching reservation parses to an address that is neither allocated nor reserved for another
      service is answered that address, whatever happened before. */
  lemma ReservationHonoured(cfg: ForwardConfiguration, calls: seq<ForwardIPOpts>, i: nat, ip: IP)
    requires Validated(cfg) && i < |calls|
    ensures var st, o := Run(cfg, calls[..i]), calls[i];
            o.RegKey() !in st.reg && Honoured(cfg, st, o, ip) ==> Answer(cfg, calls, i) == Some(ip)
  {
    hide Validated, Run, ForwardIPOpts.RegKey, Honoured, Determine, ReservedIP, Register;
    var st, o := Run(cfg, calls[..i]), calls[i];
    ReservedIPIs(cfg, st, o.RegKey(), o);
    if o.RegKey() !in st.reg && Honoured(cfg, st, o, ip) {
      DetermineReservedPath(cfg, st, o.RegKey(), o);
    }
  }

  /** The first address of the block, from the counter on, that is neither allocated nor reserved for another service.
      */
  ghost predicate FirstFree(cfg: ForwardConfiguration, st: RegistryState, o: ForwardIPOpts, k: int)
    requires Validated(cfg)
  {
    var from := Counter(st.inc, o.clusterN, o.namespaceN);
    from <= k < 256 && !Unusable(cfg, st, o, k) && forall l :: from <= l < k ==> Unusable(cfg, st, o, l)
  }

  /** Any other new key takes the counter path: out of range it is refused, in range it is answered the first free
      address of its block, and refused when there is none. */
  lemma CounterAnswer(cfg: ForwardConfiguration, calls: seq<ForwardIPOpts>, i: nat)
    requires Validated(cfg) && i < |calls|
    ensures var st, o := Run(cfg, calls[..i]), calls[i];
            o.RegKey() !in st.reg && (forall ip :: !Honoured(cfg, st, o, ip)) ==>
              if o.clusterN > 255 || o.namespaceN > 255 then Answer(cfg, calls, i).None?
              else
                && (forall k :: FirstFree(cfg, st, o, k) ==>
                      Answer(cfg, calls, i) == Some(Offset(BaseIP(cfg), o.clusterN, o.namespaceN, k)))
                && (Answer(cfg, calls, i).None? <==> forall k :: !FirstFree(cfg, st, o, k))
  {
    hide Validated, Run, ForwardIPOpts.RegKey, Honoured, Determine, ReservedIP, Inv, Unusable, Offset, BaseIP, Counter;
    var st, o := Run(cfg, calls[..i]), calls[i];
    if o.RegKey() !in st.reg && forall ip :: !Honoured(cfg, st, o, ip) {
      RunInv(cfg, calls[..i]);
      ReservedIPIs(cfg, st, o.RegKey(), o);
      match ReservedIP(cfg, st, o.RegKey(), o) {
        case None =>
        case Some(_) => assert false;
      }
      CounterCase(cfg, st, o.RegKey(), o);
    }
  }

  lemma CounterCase(cfg: ForwardConfiguration, st: RegistryState, key: string, o: ForwardIPOpts)
    requires Validated(cfg) && Inv(cfg, st) && key !in st.reg && ReservedIP(cfg, st, key, o).None?
    ensures var r := Determine(cfg, st, key, o).1;
            if o.clusterN > 255 || o.namespaceN > 255 then r.None?
            else
              && (forall k :: FirstFree(cfg, st, o, k) ==>
                    r == Some(Offset(BaseIP(cfg), o.clusterN, o.namespaceN, k)))
              && (r.None? <==> forall k :: !FirstFree(cfg, st, o, k))
  {
    hide Validated, Determine, ReservedIP, Inv, Unusable, Offset, BaseIP, Counter, Register;
    if o.clusterN > 255 || o.namespaceN > 255 {
      DetermineCounterPath(cfg, st, key, o);
    } else {
      RefusedIff(cfg, st, key, o);
      FirstFit(cfg, st, key, o);
      CounterBounds(cfg, st, o.clusterN, o.namespaceN);
      var from := Counter(st.inc, o.clusterN, o.namespaceN);
      var upTo := Counter(Determine(cfg, st, key, o).0.inc, o.clusterN, o.namespaceN);
      if Determine(cfg, st, key, o).1.Some? {
        assert FirstFree(cfg, st, o, upTo - 1);
        forall k | FirstFree(cfg, st, o, k)
          ensures k == upTo - 1
        {
          assert !Unusable(cfg, st, o, k) && !Unusable(cfg, st, o, upTo - 1);
        }
      }
    }
  }
}
