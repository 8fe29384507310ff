// The dotted keys of pod events (pkg/fwdtui/events/types.go, pkg/fwdtui/ui.go), and when two of them collide.
module EventKeys {
  import opened Text
  import opened FwdNs

  function ServiceKey(service: string, namespace: string, context: string): string {
    service + "." + namespace + "." + context
  }

  /** Also the key of a service's map of forwards, with the service's name for the service key. */
  function ForwardKey(serviceKey: string, podName: string, localPort: string): string {
    serviceKey + "." + podName + "." + localPort
  }

  function Dots(s: string): nat {
    if s == [] then 0 else (if s[0] == '.' then 1 else 0) + Dots(s[1..])
  }

  lemma {:induction false} DotsAppend(a: string, b: string)
    ensures Dots(a + b) == Dots(a) + Dots(b)
  {
    if a == [] {
      assert a + b == b;
    } else {
      assert (a + b)[1..] == a[1..] + b;
      DotsAppend(a[1..], b);
    }
  }

  lemma {:induction false} DotsNone(s: string)
    ensures DotFree(s) <==> Dots(s) == 0
  {
    if s != [] {
      DotsNone(s[1..]);
    }
  }

  lemma DotsJoin(a: string, b: string)
    ensures Dots(a + "." + b) == Dots(a) + 1 + Dots(b)
  {
    DotsAppend(a + ".", b);
    DotsAppend(a, ".");
    assert Dots(".") == 1;
  }

  lemma LongerHasMoreDots(a: string, x: string, b: string, y: string)
    requires a + "." + x == b + "." + y && |a| < |b|
    ensures Dots(a) < Dots(b)
  {
    var s := a + "." + x;
    assert s[|a|] == '.' && b == s[..|b|] && a == s[..|a|];
    assert b == a + "." + b[|a| + 1..];
    DotsJoin(a, b[|a| + 1..]);
  }

  lemma SameLengthJoin(a: string, x: string, b: string, y: string)
    requires a + "." + x == b + "." + y
    ensures |a| == |b| <==> |x| == |y|
    ensures |a| == |b| ==> a == b && x == y
  {
    var s, t := a + "." + x, b + "." + y;
    assert |s| == |a| + 1 + |x| && |t| == |b| + 1 + |y|;
    if |a| == |b| {
      assert a == s[..|a|] && b == t[..|b|];
      assert x == s[|a| + 1..] && y == t[|b| + 1..];
    }
  }

  /** One text split at a dot in two ways: the parts agree exactly when the first parts have as many dots. */
  lemma JoinUnique(a: string, x: string, b: string, y: string)
    requires a + "." + x == b + "." + y
    ensures a == b <==> Dots(a) == Dots(b)
    ensures a == b <==> Dots(x) == Dots(y)
    ensures a == b <==> x == y
  {
    hide Dots;
    DotsJoin(a, x);
    DotsJoin(b, y);
    SameLengthJoin(a, x, b, y);
    if |a| < |b| {
      LongerHasMoreDots(a, x, b, y);
    } else if |b| < |a| {
      LongerHasMoreDots(b, y, a, x);
    }
  }

  lemma Reassociate(s: string, n: string, c: string)
    ensures ServiceKey(s, n, c) == s + "." + (n + "." + c)
  {
  }

  lemma PlaceUnique(n: string, c: string, n': string, c': string)
    requires DotFree(n) && DotFree(n')
    ensures n + "." + c == n' + "." + c' <==> (n, c) == (n', c')
    ensures Dots(n + "." + c) == 1 + Dots(c)
  {
    hide Dots;
    DotsNone(n);
    DotsNone(n');
    DotsJoin(n, c);
    if n + "." + c == n' + "." + c' {
      JoinUnique(n, c, n', c');
    }
  }

  /** Namespaces are labels without dots. Two services share a key for the same namespace and context exactly when their
      names have as many dots, or their contexts have, and then they are one service. */
  lemma ServiceKeyShared(s: string, n: string, c: string, s': string, n': string, c': string)
    requires DotFree(n) && DotFree(n') && ServiceKey(s, n, c) == ServiceKey(s', n', c')
    ensures (n, c) == (n', c') <==> Dots(s) == Dots(s')
    ensures (n, c) == (n', c') <==> Dots(c) == Dots(c')
    ensures (n, c) == (n', c') <==> s == s'
  {
    hide Dots, ServiceKey;
    Reassociate(s, n, c);
    Reassociate(s', n', c');
    JoinUnique(s, n + "." + c, s', n' + "." + c');
    PlaceUnique(n, c, n', c');
    PlaceUnique(n', c', n, c);
  }

  /** Local ports have no dots. Two forwards share a key for the same service key exactly when their pods' names have as
      many dots, and then they are one pod's; their ports agree in any case. */
  lemma ForwardKeyShared(sk: string, pod: string, port: string, sk': string, pod': string, port': string)
    requires DotFree(port) && DotFree(port') && ForwardKey(sk, pod, port) == ForwardKey(sk', pod', port')
    ensures port == port'
    ensures sk == sk' <==> Dots(pod) == Dots(pod')
    ensures sk == sk' <==> pod == pod'
  {
    hide Dots;
    DotsNone(port);
    DotsNone(port');
    JoinUnique(sk + "." + pod, port, sk' + "." + pod', port');
    JoinUnique(sk, pod, sk', pod');
  }
}
