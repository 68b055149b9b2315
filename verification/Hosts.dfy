/** The endpoints programmed into the kernel map, refreshed from name resolution. */
module Hosts {
  import opened Base
  import opened ProcNet
  import opened Utf8
  import ConnScan

  /** The addresses that a lookup of a host gives; None stands for one that is not IPv4. A failed lookup gives none. */
  datatype Ip4 = Ip4(a: Byte, b: Byte, c: Byte, d: Byte)
  datatype Target = Target(addresses: seq<Option<Ip4>>, port: Port, provider: int)

  type Endpoints = map<Endpoint, int>

  // ---------------------------------------------------------------- resolution

  function KeyOf(ip: Ip4, port: Port): Endpoint {
    Endpoint(ip.a, ip.b, ip.c, ip.d, port)
  }

  function AddAddresses(out: Endpoints, t: Target, n: nat): Endpoints
    requires n <= |t.addresses|
  {
    if n == 0 then out
    else
      var before, ip := AddAddresses(out, t, n - 1), t.addresses[n - 1];
      if ip.Some? then before[KeyOf(ip.value, t.port) := t.provider] else before
  }

  function Resolved(targets: seq<Target>): Endpoints {
    if targets == [] then map[]
    else
      var t := targets[|targets| - 1];
      AddAddresses(Resolved(targets[..|targets| - 1]), t, |t.addresses|)
  }

  method ResolveTargets(targets: seq<Target>) returns (out: Endpoints)
    ensures out == Resolved(targets)
  {
    out := map[];
    for i := 0 to |targets|
      invariant out == Resolved(targets[..i])
    {
      assert targets[..i + 1][..i] == targets[..i];
      var t := targets[i];
      for n := 0 to |t.addresses|
        invariant out == AddAddresses(Resolved(targets[..i]), t, n)
      {
        var ip4 := t.addresses[n];
        if ip4.None? {
          continue;
        }
        out := out[KeyOf(ip4.value, t.port) := t.provider];
      }
    }
    assert targets[..|targets|] == targets;
  }

  ghost predicate Reaches(t: Target, e: Endpoint) {
    Some(Ip4(e.a, e.b, e.c, e.d)) in t.addresses && t.port == e.port
  }

  lemma {:induction false} AddAddressesFacts(out: Endpoints, t: Target, n: nat, e: Endpoint)
    requires n <= |t.addresses|
    ensures var hit := Some(Ip4(e.a, e.b, e.c, e.d)) in t.addresses[..n] && t.port == e.port;
            var m := AddAddresses(out, t, n);
            if hit then e in m && m[e] == t.provider else (e in m <==> e in out) && (e in m ==> m[e] == out[e])
  {
    if n > 0 {
      AddAddressesFacts(out, t, n - 1, e);
      assert t.addresses[..n] == t.addresses[..n - 1] + [t.addresses[n - 1]];
    }
  }

  /** An endpoint is resolved exactly when some target reaches it, and belongs to the provider of the last such one. */
  lemma {:induction false} ResolvedIff(targets: seq<Target>, e: Endpoint)
    ensures e in Resolved(targets) <==> exists i :: 0 <= i < |targets| && Reaches(targets[i], e)
    ensures forall i | 0 <= i < |targets| && Reaches(targets[i], e)
                       && (forall j | i < j < |targets| :: !Reaches(targets[j], e)) ::
              Resolved(targets)[e] == targets[i].provider
  {
    if targets != [] {
      var init, t := targets[..|targets| - 1], targets[|targets| - 1];
      ResolvedIff(init, e);
      AddAddressesFacts(Resolved(init), t, |t.addresses|, e);
      assert t.addresses[..|t.addresses|] == t.addresses;
      assert forall i | 0 <= i < |init| :: init[i] == targets[i];
    }
  }

  // ---------------------------------------------------------------- the kernel map

  /** Which calls into the kernel fail in one refresh. */
  datatype Failures = Failures(puts: set<Endpoint>, deletes: set<Endpoint>)

  /** The kernel map after a refresh: stale keys deleted, resolved ones put. */
  function Refreshed(kernel: Endpoints, live: set<Endpoint>, resolved: Endpoints, f: Failures): Endpoints {
    map e | e in kernel.Keys + resolved.Keys
            && (if e in resolved then e in kernel || e !in f.puts else e !in live || e in f.deletes) ::
      if e in resolved && e !in f.puts then resolved[e] else kernel[e]
  }

  class HostResolver {
    var epMap: Endpoints
    var live: set<Endpoint>

    constructor ()
      ensures epMap == map[] && live == {}
    {
      epMap := map[];
      live := {};
    }

    method ApplyResolved(resolved: Endpoints, f: Failures)
      modifies this
      ensures epMap == Refreshed(old(epMap), old(live), resolved, f) && live == resolved.Keys
    {
      var next: set<Endpoint> := {};
      var todo := resolved.Keys;
      while todo != {}
        invariant todo <= resolved.Keys && next == resolved.Keys - todo && live == old(live)
        invariant epMap.Keys == old(epMap).Keys + (next - f.puts)
        invariant forall e | e in epMap ::
                    epMap[e] == if e in next && e !in f.puts then resolved[e] else old(epMap)[e]
      {
        var key :| key in todo;
        todo := todo - {key};
        next := next + {key};
        if key !in f.puts {
          epMap := epMap[key := resolved[key]];
        }
      }
      ghost var put := epMap;
      var stale := live;
      while stale != {}
        invariant stale <= live == old(live)
        invariant epMap.Keys == put.Keys - ((live - stale) - next - f.deletes)
        invariant forall e | e in epMap :: epMap[e] == put[e]
      {
        var key :| key in stale;
        stale := stale - {key};
        if key !in next && key !in f.deletes {
          epMap := epMap - {key};
        }
      }
      live := next;
    }
  }

  /** One resolution updates both the kernel map and the scanner. */
  method RefreshAndUpdateBoth(resolver: HostResolver, connScan: ConnScan.ConnScanner, targets: seq<Target>, f: Failures)
    modifies resolver, connScan
    ensures resolver.epMap == Refreshed(old(resolver.epMap), old(resolver.live), Resolved(targets), f)
    ensures resolver.live == Resolved(targets).Keys && connScan.knownEndpoints == Resolved(targets)
  {
    var resolved := ResolveTargets(targets);
    resolver.ApplyResolved(resolved, f);
    connScan.UpdateEndpoints(resolved);
  }

  const NONE := Failures({}, {})

  /** A refresh without failures leaves exactly the resolved endpoints in the kernel map if and only if no key there is
      neither live nor resolved. */
  lemma RefreshIsExactIff(kernel: Endpoints, live: set<Endpoint>, resolved: Endpoints)
    ensures Refreshed(kernel, live, resolved, NONE) == resolved <==> kernel.Keys <= live + resolved.Keys
  {
    var next := Refreshed(kernel, live, resolved, NONE);
    assert forall e | e in next && e in resolved :: next[e] == resolved[e];
    if !(kernel.Keys <= live + resolved.Keys) {
      var e :| e in kernel && e !in live + resolved.Keys;
      assert e in next;
    }
  }

  // ---------------------------------------------------------------- runs of refreshes

  datatype Refresh = Refresh(resolved: Endpoints, failures: Failures)
  datatype State = State(kernel: Endpoints, live: set<Endpoint>)

  function After(rs: seq<Refresh>): State {
    if rs == [] then State(map[], {})
    else
      var s, r := After(rs[..|rs| - 1]), rs[|rs| - 1];
      State(Refreshed(s.kernel, s.live, r.resolved, r.failures), r.resolved.Keys)
  }

  lemma {:induction false} NothingLeaks(rs: seq<Refresh>)
    requires forall r | r in rs :: r.failures.deletes == {}
    ensures After(rs).kernel.Keys <= After(rs).live
  {
    if rs != [] {
      assert rs[|rs| - 1] in rs;
      NothingLeaks(rs[..|rs| - 1]);
    }
  }

  /** After any run without failed deletes, puts failing or not, a last refresh without failures makes the kernel map
      equal the last resolution. */
  lemma LastRefreshWins(rs: seq<Refresh>, resolved: Endpoints)
    requires forall r | r in rs :: r.failures.deletes == {}
    ensures After(rs + [Refresh(resolved, NONE)]).kernel == resolved
  {
    NothingLeaks(rs);
    assert (rs + [Refresh(resolved, NONE)])[..|rs|] == rs;
    RefreshIsExactIff(After(rs).kernel, After(rs).live, resolved);
  }

  /** A key whose delete failed stays, through refreshes without failures, until it is resolved again. */
  lemma {:induction false} LeakedKeyStays(rs: seq<Refresh>, more: seq<Refresh>, e: Endpoint)
    requires e in After(rs).kernel && e !in After(rs).live
    requires forall r | r in more :: r.failures == NONE && e !in r.resolved
    ensures e in After(rs + more).kernel && e !in After(rs + more).live
  {
    if more == [] {
      assert rs + more == rs;
    } else {
      assert more[|more| - 1] in more;
      LeakedKeyStays(rs, more[..|more| - 1], e);
      assert (rs + more)[..|rs + more| - 1] == rs + more[..|more| - 1];
    }
  }

  predicate SameAt(a: Endpoints, b: Endpoints, e: Endpoint) {
    (e in a <==> e in b) && (e in a ==> a[e] == b[e])
  }

  /** One refresh, endpoint by endpoint: a put that works sets the resolved provider and a delete that works removes a
      live endpoint that is resolved no more; every other endpoint of the kernel map is what it was. */
  lemma RefreshedAt(kernel: Endpoints, live: set<Endpoint>, resolved: Endpoints, f: Failures, e: Endpoint)
    ensures var after := Refreshed(kernel, live, resolved, f);
            && (e in resolved && e !in f.puts ==> SameAt(after, resolved, e))
            && (e !in resolved && e in live && e !in f.deletes ==> e !in after)
            && (!(e in resolved && e !in f.puts) && !(e !in resolved && e in live && e !in f.deletes) ==>
                  SameAt(after, kernel, e))
  {
  }
}
