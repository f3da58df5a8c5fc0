/** L4ProxyManager: the layer4 operations as requests to a live Caddy
    (internal/app/l4_proxy.go). */
module Layer4Manager {
  import opened Wrappers
  import opened CaddyConfig
  import opened Layer4

  /** L4Route of the source: a passthrough route as listed. */
  datatype Entry = Entry(sni: string, ip: string, port: int)

  /** ListL4Routes of one route: skipped without a matcher or with an empty SNI. */
  function Listed(r: L4Route): Option<Entry> {
    if r.matchers == [] || r.matchers[0] == [] || r.matchers[0][0] == "" then None
    else
      var (ip, port) :=
        if r.handle != [] && r.handle[0].Proxy? && r.handle[0].dials != []
        then ParsedDial(r.handle[0].dials[0]) else ("", 0);
      Some(Entry(r.matchers[0][0], ip, port))
  }

  function Entries(rs: seq<L4Route>): seq<Entry> {
    if rs == [] then []
    else
      var before, e := Entries(rs[..|rs| - 1]), Listed(rs[|rs| - 1]);
      if e.Some? then before + [e.value] else before
  }

  /** An entry that reports a table's upstream, as parseDial reads it. */
  predicate Reports(t: map<string, string>, e: Entry) {
    e.sni != "" && e.sni in t && (e.ip, e.port) == ParsedDial(t[e.sni])
  }

  lemma ReportsSnoc(t: map<string, string>, r: L4Route, e: Entry)
    requires IsSniRoute(r) && Sni(r) !in t
    ensures Reports(t[Sni(r) := DialOf(r)], e) <==> Reports(t, e) || Listed(r) == Some(e)
  {
  }

  /** The SNIs a server lists are those of its table, and each entry is the parsed upstream. */
  lemma {:induction false} EntriesAreTable(body: seq<L4Route>)
    requires SniRoutes(body)
    ensures forall e :: e in Entries(body) <==> Reports(Table(body), e)
  {
    if body != [] {
      var before, r := body[..|body| - 1], body[|body| - 1];
      assert body == before + [r];
      TableSnoc(before, r);
      EntriesAreTable(before);
      forall e ensures e in Entries(body) <==> Reports(Table(body), e) {
        ReportsSnoc(Table(before), r, e);
        assert e in Entries(body) <==> e in Entries(before) || Listed(r) == Some(e);
      }
    }
  }

  lemma TableSnoc(before: seq<L4Route>, r: L4Route)
    requires SniRoutes(before + [r])
    ensures SniRoutes(before) && IsSniRoute(r) && Sni(r) !in Table(before)
    ensures Table(before + [r]) == Table(before)[Sni(r) := DialOf(r)]
  {
    var body := before + [r];
    assert body[|before|] == r;
    forall i | 0 <= i < |before| ensures IsSniRoute(before[i]) && Sni(before[i]) != Sni(r) {
      assert before[i] == body[i];
    }
    forall i, j | 0 <= i < j < |before| ensures Sni(before[i]) != Sni(before[j]) {
      assert before[i] == body[i] && before[j] == body[j];
    }
    assert forall x :: x in body <==> x in before || x == r;
  }

  lemma {:induction false} WithoutSnoc(rs: seq<L4Route>, r: L4Route, sni: string)
    ensures Without(rs + [r], sni)
      == if MatchesSni(r, sni) then Without(rs, sni) else Without(rs, sni) + [r]
  {
    if rs == [] {
      assert rs + [r] == [r] && [r][1..] == [];
    } else {
      assert (rs + [r])[1..] == rs[1..] + [r];
      WithoutSnoc(rs[1..], r, sni);
    }
  }

  /** moveHTTPServerOff443 and moveHTTPServerTo443: every server's listen list is rewritten. */
  method RewriteListen(listen: seq<string>, from: string, to: string)
    returns (out: seq<string>, found: bool)
    ensures out == Moved(listen, from, to) && (found <==> from in listen)
  {
    out, found := [], false;
    for i := 0 to |listen|
      invariant |out| == i && forall k :: 0 <= k < i ==> out[k] == if listen[k] == from then to else listen[k]
      invariant found <==> from in listen[..i]
    {
      if listen[i] == from {
        out := out + [to];
        found := true;
      } else {
        out := out + [listen[i]];
      }
    }
    assert listen[..|listen|] == listen;
  }

  method MoveHTTPServersOff443(servers: map<string, HttpServer>) returns (out: map<string, HttpServer>)
    ensures out == map n | n in servers :: MovedOff(servers[n])
  {
    out := servers;
    var todo := servers.Keys;
    while todo != {}
      invariant todo <= servers.Keys
      invariant out == map n | n in servers :: if n in todo then servers[n] else MovedOff(servers[n])
      decreases |todo|
    {
      var n :| n in todo;
      var listen, has443 := RewriteListen(servers[n].listen, HTTPS, FALLBACK_LISTEN);
      if has443 {
        out := out[n := servers[n].(listen := listen, tlsPolicies := true)];
      }
      todo := todo - {n};
    }
  }

  method MoveHTTPServersTo443(servers: map<string, HttpServer>) returns (out: map<string, HttpServer>)
    ensures out == map n | n in servers :: MovedBack(servers[n])
  {
    out := servers;
    var todo := servers.Keys;
    while todo != {}
      invariant todo <= servers.Keys
      invariant out == map n | n in servers :: if n in todo then servers[n] else MovedBack(servers[n])
      decreases |todo|
    {
      var n :| n in todo;
      var listen, _ := RewriteListen(servers[n].listen, FALLBACK_LISTEN, HTTPS);
      out := out[n := servers[n].(listen := listen, tlsPolicies := false)];
      todo := todo - {n};
    }
  }

  class L4ProxyManager {
    const caddy: Caddy
    var trusted: seq<string>

    constructor (caddy: Caddy)
      ensures this.caddy == caddy && trusted == []
    {
      this.caddy := caddy;
      trusted := [];
    }

    /** ActivateL4. */
    method ActivateL4() returns (ok: bool)
      modifies caddy
      ensures caddy.cfg == Activated(old(caddy.cfg), trusted)
      ensures ok == IsL4Active(caddy.cfg)
      ensures caddy.writes == old(caddy.writes)
        + (if old(IsL4Active(caddy.cfg)) || old(caddy.cfg).http.None? then 0 else 1)
    {
      if IsL4Active(caddy.cfg) {
        return true;
      }
      var config := caddy.cfg;
      if config.http.None? {
        return false;
      }
      var servers := MoveHTTPServersOff443(config.http.value);
      config := config.(http := Some(servers));
      config := config.(layer4 := Some(map[L4_SERVER := Build(trusted, [Catchall(trusted != [])])]));
      caddy.Load(config);
      return true;
    }

    /** DeactivateL4. */
    method DeactivateL4()
      modifies caddy
      ensures caddy.cfg == Deactivated(old(caddy.cfg))
    {
      if !IsL4Active(caddy.cfg) {
        return;
      }
      var config := caddy.cfg.(layer4 := None);
      if config.http.Some? {
        var servers := MoveHTTPServersTo443(config.http.value);
        config := config.(http := Some(servers));
      }
      caddy.Load(config);
    }

    method SetProxyProtocolTrusted(cidrs: seq<string>) returns (ok: bool)
      modifies this
      ensures ok == Acceptable(cidrs) && trusted == if ok then cidrs else old(trusted)
    {
      if |cidrs| == 0 {
        return false;
      }
      for i := 0 to |cidrs|
        invariant forall k :: 0 <= k < i ==> !Wildcard(cidrs[k])
      {
        if cidrs[i] == "0.0.0.0/0" || cidrs[i] == "::/0" {
          assert cidrs[i] in cidrs;
          return false;
        }
      }
      trusted := cidrs;
      return true;
    }

    /** EnableL4ProxyProtocol: refused lists change nothing; an active server is reshaped. */
    method EnableL4ProxyProtocol(cidrs: seq<string>) returns (ok: bool)
      requires Readable(caddy.cfg)
      modifies this, caddy
      ensures ok == Acceptable(cidrs) && trusted == if ok then cidrs else old(trusted)
      ensures caddy.cfg == if ok then Reshaped(old(caddy.cfg), cidrs) else old(caddy.cfg)
    {
      ok := SetProxyProtocolTrusted(cidrs);
      if !ok || !IsL4Active(caddy.cfg) {
        return;
      }
      var config := caddy.cfg;
      var inner := Inner(L4Of(config).value.routes);
      if |inner| > 0 {
        var last := inner[|inner| - 1];
        if last.matchers == [] {
          var hs := last.handle;
          for i := 0 to |hs|
            invariant |hs| == |last.handle|
            invariant forall k :: 0 <= k < |hs| ==>
              hs[k] == (if k < i && last.handle[k].Proxy? then last.handle[k].(v2 := true) else last.handle[k])
          {
            if hs[i].Proxy? {
              hs := hs[i := hs[i].(v2 := true)];
            }
          }
          assert hs == TaggedHandlers(last.handle);
          inner := inner[|inner| - 1 := last.(handle := hs)];
        }
      }
      assert inner == Tagged(Inner(L4Of(config).value.routes));
      caddy.Load(Put(config, Build(trusted, inner)));
    }

    /** RemoveL4Route: a write only when some route names the SNI. */
    method RemoveL4Route(sni: string)
      requires Readable(caddy.cfg)
      modifies caddy
      ensures caddy.cfg == Removed(old(caddy.cfg), sni)
      ensures old(caddy.writes) <= caddy.writes <= old(caddy.writes) + 1
    {
      if !IsL4Active(caddy.cfg) {
        return;
      }
      var config := caddy.cfg;
      var s := L4Of(config).value;
      var routes := Inner(s.routes);
      var newRoutes, found := [], false;
      for i := 0 to |routes|
        invariant unchanged(caddy)
        invariant newRoutes == Without(routes[..i], sni)
        invariant !found ==> newRoutes == routes[..i]
      {
        assert routes[..i + 1] == routes[..i] + [routes[i]];
        WithoutSnoc(routes[..i], routes[i], sni);
        if MatchesSni(routes[i], sni) {
          found := true;
        } else {
          newRoutes := newRoutes + [routes[i]];
        }
      }
      assert routes[..|routes|] == routes;
      if !found {
        PutBack(config);
        return;
      }
      caddy.Load(Put(config, s.(routes := WithInner(s.routes, newRoutes))));
    }

    /** AddL4Route: remove the SNI's older route, then insert before the catch-all. */
    method AddL4Route(sni: string, ip: string, port: int) returns (ok: bool)
      requires Readable(caddy.cfg) && Readable(Removed(caddy.cfg, sni))
      modifies caddy
      ensures caddy.cfg == Added(old(caddy.cfg), sni, FormatDial(ip, port))
      ensures ok == IsL4Active(caddy.cfg) && caddy.writes >= old(caddy.writes)
    {
      RemoveL4Route(sni);
      if !IsL4Active(caddy.cfg) {
        return false;
      }
      var s := L4Of(caddy.cfg).value;
      var routes := Inner(s.routes);
      caddy.Load(Put(caddy.cfg, s.(routes := WithInner(s.routes,
                                   Inserted(routes, SniRoute(sni, FormatDial(ip, port)))))));
      return true;
    }

    method ListL4Routes() returns (es: seq<Entry>)
      requires Readable(caddy.cfg)
      ensures es == if IsL4Active(caddy.cfg) then Entries(Inner(L4Of(caddy.cfg).value.routes)) else []
    {
      if !IsL4Active(caddy.cfg) {
        return [];
      }
      var routes := Inner(L4Of(caddy.cfg).value.routes);
      es := [];
      for i := 0 to |routes|
        invariant es == Entries(routes[..i])
      {
        assert routes[..i + 1][..i] == routes[..i];
        var r := routes[i];
        if |r.matchers| == 0 {
          continue;
        }
        var e := Entry("", "", 0);
        if |r.matchers[0]| > 0 {
          e := e.(sni := r.matchers[0][0]);
        }
        if |r.handle| > 0 && r.handle[0].Proxy? && |r.handle[0].dials| > 0 {
          var ip, port := ParseDial(r.handle[0].dials[0]);
          e := e.(ip := ip, port := port);
        }
        if e.sni != "" {
          es := es + [e];
        }
      }
      assert routes[..|routes|] == routes;
    }
  }

  lemma PutBack(cfg: Config)
    requires IsL4Active(cfg) && Indexable(L4Of(cfg).value.routes)
    ensures var s := L4Of(cfg).value; Put(cfg, s.(routes := WithInner(s.routes, Inner(s.routes)))) == cfg
  {
    var s := L4Of(cfg).value;
    if IsWrapped(s.routes) {
      assert s.routes[0].handle[1 := Subroute(Inner(s.routes))] == s.routes[0].handle;
      assert WithInner(s.routes, Inner(s.routes)) == s.routes;
    }
    assert cfg.layer4.value[L4_SERVER := s] == cfg.layer4.value;
  }
}
