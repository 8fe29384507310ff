// Reservations and addresses as texts: which flags name what, which addresses parse, which configurations are valid.
module FwdIpTexts {
  import opened Text
  import opened FwdIp
  import opened FwdIpProperties
  import opened FwdIpReservations
  import opened EventKeys

  // ---------- Flags ----------

  /** The flag is "name:ip" with both parts present; the name ends at the first colon. */
  predicate FlagFor(flag: string, name: string, ip: string) {
    flag == name + ":" + ip && name != "" && ip != "" && ':' !in name
  }

  /** A flag is read as this name and this address exactly when it is their text. */
  lemma FlagIsRead(flag: string, name: string, ip: string)
    ensures FromReservation(flag) == Some(ServiceConfiguration(name, ip)) <==> FlagFor(flag, name, ip)
  {
    assert name + [':'] + ip == name + ":" + ip;
    if FlagFor(flag, name, ip) {
      CutOfJoin(name, ip, ':');
    }
  }

  /** A flag without a colon, or with an empty part, is ignored. */
  lemma FlagIsIgnored(flag: string)
    ensures FromReservation(flag).None? <==> forall name, ip :: !FlagFor(flag, name, ip)
  {
    hide FlagFor;
    forall name, ip
      ensures FromReservation(flag) == Some(ServiceConfiguration(name, ip)) <==> FlagFor(flag, name, ip)
    {
      FlagIsRead(flag, name, ip);
    }
    if FromReservation(flag).Some? {
      var r := FromReservation(flag).value;
      assert FlagFor(flag, r.name, r.ip);
    }
  }

  /** Flag k is the last to give the name an address, and this is the address. */
  ghost predicate LastFlagFor(flags: seq<string>, k: int, name: string, ip: string) {
    && 0 <= k < |flags| && FlagFor(flags[k], name, ip)
    && forall l, other :: k < l < |flags| ==> !FlagFor(flags[l], name, other)
  }

  lemma {:induction false} LastFlagIs(flags: seq<string>, name: string)
    ensures forall ip :: LastFlag(flags, name) == Some(ip) <==> exists k :: LastFlagFor(flags, k, name, ip)
  {
    hide FlagFor, FromReservation;
    if flags != [] {
      var m := |flags| - 1;
      var front := flags[..m];
      LastFlagIs(front, name);
      forall ip
        ensures FromReservation(flags[m]) == Some(ServiceConfiguration(name, ip)) <==> FlagFor(flags[m], name, ip)
      {
        FlagIsRead(flags[m], name, ip);
      }
      forall ip
        ensures LastFlag(flags, name) == Some(ip) <==> exists k :: LastFlagFor(flags, k, name, ip)
      {
        LastFlagStep(flags, name, ip);
      }
    }
  }

  lemma LastFlagStep(flags: seq<string>, name: string, ip: string)
    requires flags != []
    requires var front := flags[..|flags| - 1];
             LastFlag(front, name) == Some(ip) <==> exists k :: LastFlagFor(front, k, name, ip)
    requires var last := flags[|flags| - 1];
             forall x :: FromReservation(last) == Some(ServiceConfiguration(name, x)) <==> FlagFor(last, name, x)
    ensures LastFlag(flags, name) == Some(ip) <==> exists k :: LastFlagFor(flags, k, name, ip)
  {
    hide FlagFor, FromReservation;
    var m := |flags| - 1;
    var front, last := flags[..m], flags[m];
    if FromReservation(last).Some? && FromReservation(last).value.name == name {
      var own := FromReservation(last).value.ip;
      assert FlagFor(last, name, own);
      if own == ip {
        assert LastFlagFor(flags, m, name, ip);
      } else {
        forall k
          ensures !LastFlagFor(flags, k, name, ip)
        {
        }
      }
    } else {
      assert forall x :: !FlagFor(last, name, x);
      if k :| LastFlagFor(front, k, name, ip) {
        assert LastFlagFor(flags, k, name, ip);
      }
      if k :| LastFlagFor(flags, k, name, ip) {
        assert k < m;
        assert LastFlagFor(front, k, name, ip);
      }
    }
  }

  /** After the command-line pass each entry has the address of the last flag "name:ip" for its name, or, if no flag
      is for its name, is as the file had it; and every name a flag is for has an entry. */
  lemma FlagsWin(rs: seq<ServiceConfiguration>, flags: seq<string>)
    ensures forall e :: e in WithFlags(rs, flags) ==>
              || (exists k :: LastFlagFor(flags, k, e.name, e.ip))
              || (e in rs && forall k, ip :: 0 <= k < |flags| ==> !FlagFor(flags[k], e.name, ip))
    ensures forall k, name, ip :: 0 <= k < |flags| && FlagFor(flags[k], name, ip) ==> Named(WithFlags(rs, flags), name)
  {
    hide FlagFor, FromReservation, WithFlags, Named;
    LastFlagWins(rs, flags);
    forall e | e in WithFlags(rs, flags)
      ensures || (exists k :: LastFlagFor(flags, k, e.name, e.ip))
              || (e in rs && forall k, ip :: 0 <= k < |flags| ==> !FlagFor(flags[k], e.name, ip))
    {
      LastFlagIs(flags, e.name);
      NoFlagFor(flags, e.name);
    }
    forall k, name, ip | 0 <= k < |flags| && FlagFor(flags[k], name, ip)
      ensures Named(WithFlags(rs, flags), name)
    {
      NoFlagFor(flags, name);
    }
  }

  lemma {:induction false} NoFlagFor(flags: seq<string>, name: string)
    ensures LastFlag(flags, name).None? <==> forall k, ip :: 0 <= k < |flags| ==> !FlagFor(flags[k], name, ip)
  {
    hide FlagFor, FromReservation;
    if flags != [] {
      var m := |flags| - 1;
      NoFlagFor(flags[..m], name);
      forall ip
        ensures FromReservation(flags[m]) == Some(ServiceConfiguration(name, ip)) <==> FlagFor(flags[m], name, ip)
      {
        FlagIsRead(flags[m], name, ip);
      }
      assert forall k :: 0 <= k < m ==> flags[..m][k] == flags[k];
      if FromReservation(flags[m]).Some? && FromReservation(flags[m]).value.name == name {
        assert FlagFor(flags[m], name, FromReservation(flags[m]).value.ip);
      }
    }
  }

  // ---------- Addresses ----------

  lemma {:induction false} SplitCount(s: string)
    ensures |Split(s, '.')| == Dots(s) + 1
  {
    if s != [] {
      SplitCount(s[1..]);
    }
  }

  /** Four octets written as numbers parse exactly when each is within a byte, in this order; a text that does not have
      three dots does not parse. */
  lemma AddressOfNumbers(a: int, b: int, c: int, d: int)
    ensures IpFromString(Itoa(a) + "." + (Itoa(b) + "." + (Itoa(c) + "." + Itoa(d)))) ==
            if 0 <= a <= 255 && 0 <= b <= 255 && 0 <= c <= 255 && 0 <= d <= 255 then Some(IP(a, b, c, d)) else None
  {
    hide Itoa, OctetFromString, Split;
    OctetOfNumber(a);
    OctetOfNumber(b);
    OctetOfNumber(c);
    OctetOfNumber(d);
    SplitFour(Itoa(a), Itoa(b), Itoa(c), Itoa(d));
  }

  lemma OctetOfNumber(n: int)
    ensures OctetFromString(Itoa(n)) == if 0 <= n <= 255 then Some(n) else None
    ensures '.' !in Itoa(n)
  {
    hide Digits;
    DigitsAvoid(if n < 0 then -n else n, '.');
    ParseOfItoaIff(n, INT64_LIMIT);
  }

  lemma AddressHasThreeDots(s: string)
    ensures IpFromString(s).Some? ==> Dots(s) == 3
  {
    hide Split, Dots;
    SplitCount(s);
  }

  // ---------- Validation ----------

  predicate Distinct(ips: seq<IP>) {
    forall i, j :: 0 <= i < j < |ips| ==> ips[i] != ips[j]
  }

  /** A configuration with dotted addresses is valid exactly when all of them are loopback, section 3.2.1.3 of RFC 1122,
      and the reserved ones are pairwise different. */
  lemma ValidWhenDotted(base: IP, names: seq<string>, ips: seq<IP>)
    requires |names| == |ips|
    ensures var rs := seq(|ips|, i requires 0 <= i < |ips| => ServiceConfiguration(names[i], Dotted(ips[i])));
            Validated(ForwardConfiguration(Dotted(base), rs)) <==>
              base.b0 == 127 && (forall i :: 0 <= i < |ips| ==> ips[i].b0 == 127) && Distinct(ips)
  {
    hide Dotted, IpFromString;
    var rs := seq(|ips|, i requires 0 <= i < |ips| => ServiceConfiguration(names[i], Dotted(ips[i])));
    DottedRoundTrip(base);
    forall i | 0 <= i < |ips|
      ensures LoopbackText(rs[i].ip) <==> ips[i].b0 == 127
      ensures rs[i] in rs
    {
      DottedRoundTrip(ips[i]);
    }
    DottedInjectiveAll();
  }
}
