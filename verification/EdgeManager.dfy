/** ProxyManager: the HTTP side of the edge as requests to a live Caddy
    (internal/app/proxy.go). */
module EdgeManager {
  import opened Wrappers
  import opened Strings
  import opened CaddyConfig
  import opened Layer4
  import opened TlsSubjects
  import opened EdgeBase
  import Routes = HttpRoutes

  function RoutesOf(e: Edge, cfg: Config): seq<HttpRoute> {
    if Server(e, cfg).Some? then Server(e, cfg).value.routes else []
  }

  function WithRoutes(e: Edge, cfg: Config, rs: seq<HttpRoute>): Config
    requires Server(e, cfg).Some?
  {
    WithServer(e, cfg, Server(e, cfg).value.(routes := rs))
  }

  /** ProvisionTLS. */
  function TlsProvisioned(e: Edge, cfg: Config, d: string): Config {
    var c := TlsAppEnsured(e, cfg);
    c.(tls := Some(Provisioned(e.acme, c.tls.value, d)))
  }

  /** EnsureTLSSubjects. */
  function TlsEnsured(e: Edge, cfg: Config, ds: seq<string>): Config {
    if ds == [] then cfg
    else
      var c := TlsAppEnsured(e, cfg);
      c.(tls := Some(Ensured(e.acme, c.tls.value, ds)))
  }

  /** RemoveTLSSubject. */
  function TlsRemoved(cfg: Config, d: string): Config {
    if cfg.tls.None? then cfg else cfg.(tls := Some(SubjectRemoved(cfg.tls.value, d)))
  }

  /** AddRoute and AddGRPCRoute: append the route, then provision its host.  Without a server
      the request fails. */
  function RouteAdded(e: Edge, cfg: Config, d: string, u: Routes.Upstream): Config {
    if Server(e, cfg).None? then cfg
    else TlsProvisioned(e, WithRoutes(e, cfg, RoutesOf(e, cfg) + [Routes.RouteFor(e.base, d, u)]),
                        Routes.FullDomain(e.base, d))
  }

  /** What RemoveRoute can leave. */
  ghost predicate RouteDropped(e: Edge, cfg: Config, d: string, c: Config) {
    if Server(e, cfg).None? then c == cfg
    else c == WithRoutes(e, cfg, RoutesOf(e, c)) && Routes.Removal(e.base, RoutesOf(e, cfg), d, RoutesOf(e, c))
  }

  /** What ListRoutes returns for one route. */
  datatype Listed = Listed(host: string, upstream: Routes.Upstream)

  function Listing(rs: seq<HttpRoute>): seq<Listed> {
    if rs == [] then []
    else
      var before, r := Listing(rs[..|rs| - 1]), rs[|rs| - 1];
      if r.hosts == [] then before else before + [Listed(r.hosts[0], Routes.View(r))]
  }

  lemma {:induction false} ListingIs(rs: seq<HttpRoute>)
    ensures forall l :: l in Listing(rs) <==>
      exists i :: 0 <= i < |rs| && rs[i].hosts != [] && l == Listed(rs[i].hosts[0], Routes.View(rs[i]))
  {
    if rs != [] {
      var before, r := rs[..|rs| - 1], rs[|rs| - 1];
      ListingIs(before);
      assert forall i :: 0 <= i < |before| ==> before[i] == rs[i];
      assert r == rs[|rs| - 1];
    }
  }

  /** The parts of a tree that route and TLS edits leave alone. */
  ghost predicate SameFrame(e: Edge, c: Config, d: Config) {
    && d.layer4 == c.layer4 && Server(e, c).Some? && Server(e, d).Some?
    && Server(e, d).value == Server(e, c).value.(routes := RoutesOf(e, d))
    && d.http.value.Keys == c.http.value.Keys
    && forall n :: n in c.http.value && n != e.server ==> d.http.value[n] == c.http.value[n]
  }

  /** The trusted lists a manager remembers, to re-apply after a loss. */
  datatype Trust = Trust(proxy: seq<string>, headers: seq<string>, extra: seq<string>)

  /** baseConfigIntact. */
  predicate BaseIntact(e: Edge, t: Trust, cfg: Config) {
    var s := Server(e, cfg);
    && s.Some? && (t.proxy != [] ==> s.value.wrappers.Some?)
    && (t.headers != [] ==> s.value.clientIpHeaders.Some?)
  }

  // ---- client-IP trust ----

  /** The entries trimmed, without blanks and repeats, in order of first appearance. */
  function Deduped(list: seq<string>): seq<string> {
    if list == [] then []
    else
      var before, c := Deduped(list[..|list| - 1]), Trim(list[|list| - 1]);
      if c == "" || c in before then before else before + [c]
  }

  lemma {:induction false} DedupedIs(list: seq<string>)
    ensures forall c :: c in Deduped(list) <==> c != "" && exists i :: 0 <= i < |list| && Trim(list[i]) == c
    ensures forall i, j :: 0 <= i < j < |Deduped(list)| ==> Deduped(list)[i] != Deduped(list)[j]
  {
    if list != [] {
      var before := list[..|list| - 1];
      DedupedIs(before);
      assert forall i :: 0 <= i < |before| ==> before[i] == list[i];
      assert Trim(list[|list| - 1]) == "" || Trim(list[|list| - 1]) in Deduped(list);
    }
  }

  /** The entries of the first list come first, in order. */
  lemma {:induction false} DedupedExtends(a: seq<string>, b: seq<string>)
    ensures Deduped(a) <= Deduped(a + b)
  {
    if b == [] {
      assert a + b == a;
    } else {
      assert (a + b)[..|a + b| - 1] == a + b[..|b| - 1];
      DedupedExtends(a, b[..|b| - 1]);
    }
  }

  /** The trusted ranges of a server: the trimmed entries of both lists but blanks. */
  ghost predicate RangesAre(ranges: Option<seq<string>>, proxy: seq<string>, extra: seq<string>) {
    ranges.Some? && forall c :: c in ranges.value <==> c != "" && (TrimmedIn(c, proxy) || TrimmedIn(c, extra))
  }

  ghost predicate TrimmedIn(c: string, list: seq<string>) {
    exists i :: 0 <= i < |list| && Trim(list[i]) == c
  }

  lemma UnionRanges(proxy: seq<string>, extra: seq<string>)
    ensures RangesAre(Some(Deduped(proxy + extra)), proxy, extra)
  {
    DedupedIs(proxy + extra);
    forall c ensures TrimmedIn(c, proxy + extra) <==> TrimmedIn(c, proxy) || TrimmedIn(c, extra) {
      if i :| 0 <= i < |proxy| && Trim(proxy[i]) == c {
        assert Trim((proxy + extra)[i]) == c;
      }
      if i :| 0 <= i < |extra| && Trim(extra[i]) == c {
        assert Trim((proxy + extra)[|proxy| + i]) == c;
      }
    }
    forall c ensures c in Deduped(proxy + extra) <==> c != "" && TrimmedIn(c, proxy + extra) {
    }
  }

  /** unionCIDRs. */
  method UnionCIDRs(a: seq<string>, b: seq<string>) returns (out: seq<string>)
    ensures out == Deduped(a + b)
  {
    out := [];
    var both := a + b;
    for i := 0 to |both|
      invariant out == Deduped(both[..i])
    {
      assert both[..i + 1][..i] == both[..i];
      var c := Trim(both[i]);
      if c != "" && c !in out {
        out := out + [c];
      }
    }
    assert both[..|both|] == both;
  }

  /** applyClientIPTrust. */
  function ClientIpTrusted(s: HttpServer, t: Trust): HttpServer {
    s.(clientIpHeaders := if t.headers == [] then s.clientIpHeaders else Some(t.headers),
       trustedProxies := Some(Deduped(t.proxy + t.extra)))
  }

  function ProxyTrusted(s: HttpServer, t: Trust): HttpServer {
    ClientIpTrusted(s.(wrappers := Some(t.proxy)), t)
  }

  /** The two re-applying requests after a rebuild, each made only if there is something to
      re-apply. */
  function TrustApplied(e: Edge, t: Trust, cfg: Config): Config {
    if Server(e, cfg).None? then cfg
    else
      var s := Server(e, cfg).value;
      var p := if t.proxy == [] then s else ProxyTrusted(s, t);
      WithServer(e, cfg, if t.headers == [] && t.extra == [] then p else ClientIpTrusted(p, t))
  }

  /** A client-IP setting that is not refused; `cidr` is netip.ParsePrefix accepting. */
  predicate ClientIpOk(cidr: string -> bool, headers: seq<string>, extra: seq<string>) {
    && !(headers == [] && extra == [])
    && (forall i :: 0 <= i < |headers| ==> Trim(headers[i]) != "")
    && (forall i :: 0 <= i < |extra| ==>
          Trim(extra[i]) != "" && !Wildcard(Trim(extra[i])) && cidr(Trim(extra[i])))
  }

  /** Remembered lists were accepted when they were set. */
  predicate TrustOk(cidr: string -> bool, t: Trust) {
    && (t.proxy == [] || Acceptable(t.proxy))
    && ((t.headers == [] && t.extra == []) || ClientIpOk(cidr, t.headers, t.extra))
  }

  /** EnsureBaseConfig. */
  function BaseEnsured(e: Edge, t: Trust, cfg: Config): Config {
    if BaseIntact(e, t, cfg) then cfg else TrustApplied(e, t, ServerEnsured(e, cfg))
  }

  /** A rebuilt base is intact, keeps an existing server's routes and addresses, and leaves
      the layer4 app and other servers alone. */
  lemma BaseEnsuredIntact(e: Edge, t: Trust, cfg: Config)
    ensures BaseIntact(e, t, BaseEnsured(e, t, cfg))
    ensures var s := Server(e, BaseEnsured(e, t, cfg));
      && s.Some? && (t.proxy != [] ==> s.value.wrappers.Some?)
      && (t.headers != [] ==> s.value.clientIpHeaders.Some?)
    ensures !BaseIntact(e, t, cfg) ==>
      var s := Server(e, BaseEnsured(e, t, cfg)).value;
      && (t.proxy != [] ==> s.wrappers == Some(t.proxy))
      && (t.headers != [] ==> s.clientIpHeaders == Some(t.headers))
    ensures !BaseIntact(e, t, cfg) && t != Trust([], [], []) ==>
      Server(e, BaseEnsured(e, t, cfg)).value.trustedProxies == Some(Deduped(t.proxy + t.extra))
    ensures RoutesOf(e, BaseEnsured(e, t, cfg)) == RoutesOf(e, cfg)
    ensures BaseEnsured(e, t, cfg).layer4 == cfg.layer4
    ensures Server(e, cfg).Some? ==>
      Server(e, cfg).value.listen <= Server(e, BaseEnsured(e, t, cfg)).value.listen
    ensures forall n :: cfg.http.Some? && n in cfg.http.value && n != e.server ==>
      BaseEnsured(e, t, cfg).http.Some? && n in BaseEnsured(e, t, cfg).http.value
      && BaseEnsured(e, t, cfg).http.value[n] == cfg.http.value[n]
  {
    if !BaseIntact(e, t, cfg) {
      if Server(e, cfg).Some? {
        EnsureDropsNothing(e, cfg);
      }
      var c := TlsAppEnsured(e, HttpAppEnsured(e, cfg));
      assert Server(e, c).Some? && c.layer4 == cfg.layer4 && RoutesOf(e, c) == RoutesOf(e, cfg);
      assert RoutesOf(e, ServerEnsured(e, cfg)) == RoutesOf(e, cfg);
      TrustKeeps(e, t, ServerEnsured(e, cfg));
    }
  }

  /** Re-applying trust touches nothing but the trust settings of the server. */
  lemma TrustKeeps(e: Edge, t: Trust, cfg: Config)
    requires Server(e, cfg).Some?
    ensures var c := TrustApplied(e, t, cfg);
      && BaseIntact(e, t, c) && SameFields(Server(e, cfg).value, Server(e, c).value)
      && (t.proxy != [] ==> Server(e, c).value.wrappers == Some(t.proxy))
      && (t.headers != [] ==> Server(e, c).value.clientIpHeaders == Some(t.headers))
      && (t != Trust([], [], []) ==>
            Server(e, c).value.trustedProxies == Some(Deduped(t.proxy + t.extra)))
      && c.layer4 == cfg.layer4 && c.http.value.Keys == cfg.http.value.Keys
      && forall n :: n in cfg.http.value && n != e.server ==> c.http.value[n] == cfg.http.value[n]
  {
  }

  predicate SameFields(s: HttpServer, t: HttpServer) {
    t.listen == s.listen && t.routes == s.routes && t.tlsPolicies == s.tlsPolicies
  }

  class ProxyManager {
    const caddy: Caddy
    const e: Edge
    const cidr: string -> bool
    var trust: Trust

    predicate Valid() reads this { TrustOk(cidr, trust) }

    constructor (caddy: Caddy, e: Edge, cidr: string -> bool)
      ensures Valid() && this.caddy == caddy && this.e == e && this.cidr == cidr
      ensures trust == Trust([], [], [])
    {
      this.caddy := caddy;
      this.e := e;
      this.cidr := cidr;
      trust := Trust([], [], []);
    }

    /** EnableProxyProtocol: installs the wrappers and remembers the list, unless it is refused
        or there is no server. */
    method EnableProxyProtocol(cidrs: seq<string>) returns (ok: bool)
      requires Valid()
      modifies this, caddy
      ensures Valid() && ok == (Acceptable(cidrs) && old(Server(e, caddy.cfg)).Some?)
      ensures trust == if ok then old(trust).(proxy := cidrs) else old(trust)
      ensures caddy.cfg == if ok then WithServer(e, old(caddy.cfg),
                                        ProxyTrusted(old(Server(e, caddy.cfg)).value, trust))
                           else old(caddy.cfg)
      ensures ok ==>
        var s := Server(e, caddy.cfg);
        s.Some? && s.value.wrappers == Some(cidrs) && RangesAre(s.value.trustedProxies, cidrs, trust.extra)
      ensures caddy.writes >= old(caddy.writes)
    {
      if |cidrs| == 0 {
        return false;
      }
      for i := 0 to |cidrs|
        invariant forall k :: 0 <= k < i ==> !Wildcard(cidrs[k])
        invariant unchanged(caddy) && trust == old(trust)
      {
        if cidrs[i] == "0.0.0.0/0" || cidrs[i] == "::/0" {
          assert cidrs[i] in cidrs;
          return false;
        }
      }
      if Server(e, caddy.cfg).None? {
        return false;
      }
      var s := Server(e, caddy.cfg).value;
      s := s.(wrappers := Some(cidrs));
      if trust.headers != [] {
        s := s.(clientIpHeaders := Some(trust.headers));
      }
      var ranges := UnionCIDRs(cidrs, trust.extra);
      UnionRanges(cidrs, trust.extra);
      s := s.(trustedProxies := Some(ranges));
      caddy.Load(WithServer(e, caddy.cfg, s));
      trust := trust.(proxy := cidrs);
      return true;
    }

    /** ConfigureClientIP, likewise for the client-IP headers and the extra trusted ranges. */
    method ConfigureClientIP(headers: seq<string>, extra: seq<string>) returns (ok: bool)
      requires Valid()
      modifies this, caddy
      ensures Valid() && ok == (ClientIpOk(cidr, headers, extra) && old(Server(e, caddy.cfg)).Some?)
      ensures trust == if ok then old(trust).(headers := headers, extra := extra) else old(trust)
      ensures caddy.cfg == if ok then WithServer(e, old(caddy.cfg),
                                        ClientIpTrusted(old(Server(e, caddy.cfg)).value, trust))
                           else old(caddy.cfg)
      ensures ok <==>
        && old(Server(e, caddy.cfg)).Some? && (headers != [] || extra != [])
        && (forall h :: h in headers ==> Trim(h) != "")
        && (forall x :: x in extra ==>
              Trim(x) != "" && Trim(x) != "0.0.0.0/0" && Trim(x) != "::/0" && cidr(Trim(x)))
      ensures ok ==>
        var s := Server(e, caddy.cfg);
        && s.Some? && RangesAre(s.value.trustedProxies, trust.proxy, extra)
        && (headers != [] ==> s.value.clientIpHeaders == Some(headers))
      ensures caddy.writes >= old(caddy.writes)
    {
      if |headers| == 0 && |extra| == 0 {
        return false;
      }
      for i := 0 to |headers|
        invariant forall k :: 0 <= k < i ==> Trim(headers[k]) != ""
        invariant unchanged(caddy) && trust == old(trust)
      {
        if Trim(headers[i]) == "" {
          return false;
        }
      }
      for i := 0 to |extra|
        invariant forall k :: 0 <= k < i ==>
          Trim(extra[k]) != "" && !Wildcard(Trim(extra[k])) && cidr(Trim(extra[k]))
        invariant unchanged(caddy) && trust == old(trust)
      {
        var c := Trim(extra[i]);
        if c == "" || c == "0.0.0.0/0" || c == "::/0" || !cidr(c) {
          return false;
        }
      }
      if Server(e, caddy.cfg).None? {
        return false;
      }
      var s := Server(e, caddy.cfg).value;
      if headers != [] {
        s := s.(clientIpHeaders := Some(headers));
      }
      var ranges := UnionCIDRs(trust.proxy, extra);
      UnionRanges(trust.proxy, extra);
      s := s.(trustedProxies := Some(ranges));
      caddy.Load(WithServer(e, caddy.cfg, s));
      trust := trust.(headers := headers, extra := extra);
      return true;
    }

    method EnsureTLSApp()
      modifies caddy
      ensures caddy.cfg == TlsAppEnsured(e, old(caddy.cfg))
      ensures caddy.cfg == old(caddy.cfg) ==> unchanged(caddy)
      ensures caddy.writes >= old(caddy.writes)
    {
      if caddy.cfg.tls.None? {
        caddy.Load(caddy.cfg.(tls := Some([NewPolicy(e.acme, [])])));
      }
    }

    method ProvisionTLS(d: string)
      modifies caddy
      ensures caddy.cfg == TlsProvisioned(e, old(caddy.cfg), d)
      ensures caddy.writes >= old(caddy.writes)
    {
      EnsureTLSApp();
      var policies := caddy.cfg.tls.value;
      var i := 0;
      HolderIs(policies, d);
      while i < |policies|
        invariant 0 <= i <= Holder(policies, d)
        invariant caddy.cfg == TlsAppEnsured(e, old(caddy.cfg)) && caddy.writes >= old(caddy.writes)
      {
        if d in policies[i].subjects {
          var q, dnsRepaired := EnsureDNSIssuers(e.acme, policies[i]);
          var r, emailRepaired := EnsureIssuerEmail(e.acme, q);
          assert r == Repaired(e.acme, policies[i]);
          if dnsRepaired || emailRepaired {
            caddy.Load(caddy.cfg.(tls := Some(policies[i := r])));
          } else {
            assert policies[i := r] == policies;
          }
          return;
        }
        i := i + 1;
      }
      if |policies| > 0 {
        var q := WithSubjects(policies[0], [d]);
        var r, _ := EnsureDNSIssuers(e.acme, q);
        var t, _ := EnsureIssuerEmail(e.acme, r);
        assert t == Repaired(e.acme, q);
        caddy.Load(caddy.cfg.(tls := Some(policies[0 := t])));
      } else {
        caddy.Load(caddy.cfg.(tls := Some([NewPolicy(e.acme, [d])])));
      }
    }

    /** EnsureTLSSubjects: a write only if something changes. */
    method EnsureTLSSubjects(ds: seq<string>)
      modifies caddy
      ensures caddy.cfg == TlsEnsured(e, old(caddy.cfg), ds)
      ensures caddy.cfg == old(caddy.cfg) ==> unchanged(caddy)
      ensures caddy.writes >= old(caddy.writes)
    {
      if |ds| == 0 {
        return;
      }
      EnsureTLSApp();
      var policies, write := Reconcile(e.acme, caddy.cfg.tls.value, ds);
      if write {
        caddy.Load(caddy.cfg.(tls := Some(policies)));
      }
    }

    method RemoveTLSSubject(d: string)
      modifies caddy
      ensures caddy.cfg == TlsRemoved(old(caddy.cfg), d)
      ensures caddy.writes >= old(caddy.writes)
    {
      if caddy.cfg.tls.None? {
        return;
      }
      var policies, changed := RemoveSubject(caddy.cfg.tls.value, d);
      if changed {
        caddy.Load(caddy.cfg.(tls := Some(policies)));
      } else {
        NothingRemoved(caddy.cfg.tls.value, d);
      }
    }

    method AddRoute(d: string, u: Routes.Upstream) returns (ok: bool)
      modifies caddy
      ensures caddy.cfg == RouteAdded(e, old(caddy.cfg), d, u)
      ensures ok == old(Server(e, caddy.cfg)).Some? && caddy.writes >= old(caddy.writes)
    {
      if Server(e, caddy.cfg).None? {
        return false;
      }
      caddy.Load(WithRoutes(e, caddy.cfg, RoutesOf(e, caddy.cfg) + [Routes.RouteFor(e.base, d, u)]));
      ProvisionTLS(Routes.FullDomain(e.base, d));
      return true;
    }

    /** RemoveRoute: delete by id, else find the host and delete by index. */
    method RemoveRoute(d: string)
      modifies caddy
      ensures RouteDropped(e, old(caddy.cfg), d, caddy.cfg)
      ensures caddy.writes >= old(caddy.writes)
    {
      if Server(e, caddy.cfg).None? {
        return;
      }
      var rs, id := RoutesOf(e, caddy.cfg), Routes.RemoveId(e.base, d);
      var holders := Routes.Holders(rs, id);
      if id != "" && holders != {} {
        var gone := caddy.Choose(holders);
        caddy.Load(WithRoutes(e, caddy.cfg, Routes.Keep(rs, gone)));
        return;
      }
      Routes.IndexOfHostIs(rs, d);
      var j := 0;
      while j < |rs|
        invariant 0 <= j <= Routes.IndexOfHost(rs, d)
        invariant unchanged(caddy)
      {
        if d in rs[j].hosts {
          caddy.Load(WithRoutes(e, caddy.cfg, Routes.DropAt(rs, j)));
          return;
        }
        j := j + 1;
      }
      SameServer(e, caddy.cfg);
    }

    /** UpdateRoute; `mid` is the tree between the two requests. */
    method UpdateRoute(d: string, u: Routes.Upstream) returns (ok: bool, ghost mid: Config)
      modifies caddy
      ensures RouteDropped(e, old(caddy.cfg), d, mid) && caddy.cfg == RouteAdded(e, mid, d, u)
      ensures caddy.writes >= old(caddy.writes)
    {
      RemoveRoute(d);
      mid := caddy.cfg;
      ok := AddRoute(d, u);
    }

    method ListRoutes() returns (out: seq<Listed>)
      ensures out == Listing(RoutesOf(e, caddy.cfg))
    {
      var rs := RoutesOf(e, caddy.cfg);
      out := [];
      for i := 0 to |rs|
        invariant out == Listing(rs[..i])
      {
        assert rs[..i + 1][..i] == rs[..i];
        if |rs[i].hosts| > 0 {
          out := out + [Listed(rs[i].hosts[0], Routes.View(rs[i]))];
        }
      }
      assert rs[..|rs|] == rs;
    }

    method EnsureServerConfig()
      modifies caddy
      ensures caddy.cfg == ServerEnsured(e, old(caddy.cfg))
      ensures caddy.writes >= old(caddy.writes)
    {
      if Server(e, caddy.cfg).None? {
        caddy.Load(WithServer(e, caddy.cfg, Bare(ListenAddrs(e, caddy.cfg))));
      }
      EnsureTLSApp();
      var c := caddy.cfg;
      var s, addrs := Server(e, c).value, ListenAddrs(e, c);
      var merged := s.listen;
      for i := 0 to |addrs|
        invariant Merged(merged, addrs[i..]) == Merged(s.listen, addrs)
        invariant caddy.cfg == c && caddy.writes >= old(caddy.writes)
      {
        assert addrs[i..][0] == addrs[i] && addrs[i..][1..] == addrs[i + 1..];
        if addrs[i] !in merged {
          merged := merged + [addrs[i]];
        }
      }
      if merged != s.listen {
        caddy.Load(WithServer(e, c, s.(listen := merged)));
      } else {
        SameServer(e, c);
      }
    }

    method ReapplyTrust()
      requires Valid() && Server(e, caddy.cfg).Some?
      modifies this, caddy
      ensures trust == old(trust) && caddy.cfg == TrustApplied(e, trust, old(caddy.cfg))
      ensures caddy.writes >= old(caddy.writes)
    {
      ghost var s := Server(e, caddy.cfg).value;
      SameServer(e, caddy.cfg);
      PutTwice(e, caddy.cfg, ProxyTrusted(s, trust), ClientIpTrusted(ProxyTrusted(s, trust), trust));
      if trust.proxy != [] {
        var ok := EnableProxyProtocol(trust.proxy);
      }
      if trust.headers != [] || trust.extra != [] {
        var ok := ConfigureClientIP(trust.headers, trust.extra);
      }
    }

    /** EnsureBaseConfig: no write while the base is intact. */
    method EnsureBaseConfig() returns (rebuilt: bool)
      requires Valid()
      modifies this, caddy
      ensures trust == old(trust) && caddy.cfg == BaseEnsured(e, trust, old(caddy.cfg))
      ensures rebuilt == !old(BaseIntact(e, trust, caddy.cfg))
      ensures var s := Server(e, old(caddy.cfg));
        rebuilt <==> s.None? || (trust.proxy != [] && s.value.wrappers.None?)
                     || (trust.headers != [] && s.value.clientIpHeaders.None?)
      ensures !rebuilt ==> unchanged(caddy)
      ensures caddy.writes >= old(caddy.writes)
    {
      if BaseIntact(e, trust, caddy.cfg) {
        return false;
      }
      EnsureServerConfig();
      ReapplyTrust();
      return true;
    }
  }

  lemma PutTwice(e: Edge, cfg: Config, s: HttpServer, t: HttpServer)
    ensures WithServer(e, WithServer(e, cfg, s), t) == WithServer(e, cfg, t)
  {
    var m := if cfg.http.Some? then cfg.http.value else map[];
    assert m[e.server := s][e.server := t] == m[e.server := t];
  }

  lemma SameServer(e: Edge, cfg: Config)
    requires Server(e, cfg).Some?
    ensures WithServer(e, cfg, Server(e, cfg).value) == cfg
    ensures WithRoutes(e, cfg, RoutesOf(e, cfg)) == cfg
  {
    assert cfg.http.value[e.server := Server(e, cfg).value] == cfg.http.value;
  }

  lemma {:induction false} DroppedNothing(subjects: seq<string>, d: string)
    requires d !in subjects
    ensures Dropped(subjects, d) == subjects
  {
    if subjects != [] {
      var before, s := subjects[..|subjects| - 1], subjects[|subjects| - 1];
      assert subjects == before + [s];
      DroppedNothing(before, d);
    }
  }

  lemma NothingRemoved(ps: seq<TlsPolicy>, d: string)
    requires forall i :: 0 <= i < |ps| ==> d !in ps[i].subjects
    ensures SubjectRemoved(ps, d) == ps
  {
    forall i | 0 <= i < |ps| ensures Dropped(ps[i].subjects, d) == ps[i].subjects {
      DroppedNothing(ps[i].subjects, d);
    }
  }
}
