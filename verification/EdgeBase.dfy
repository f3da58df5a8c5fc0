/** The edge server's base configuration, and who owns port 443 while two managers edit the
    same tree (internal/app/proxy.go, internal/app/l4_proxy.go). */
module EdgeBase {
  import opened Wrappers
  import opened CaddyConfig
  import opened Layer4
  import opened TlsSubjects

  /** A ProxyManager's fixed settings: base domain, server name, plaintext ingress listener
      ("" for none), ACME. */
  datatype Edge = Edge(base: string, server: string, byoc: string, acme: Acme)

  function Server(e: Edge, cfg: Config): Option<HttpServer> {
    if cfg.http.Some? && e.server in cfg.http.value then Some(cfg.http.value[e.server]) else None
  }

  function WithServer(e: Edge, cfg: Config, s: HttpServer): Config {
    cfg.(http := Some((if cfg.http.Some? then cfg.http.value else map[])[e.server := s]))
  }

  /** listenAddrs: 443 only while layer4 does not own it. */
  function ListenAddrs(e: Edge, cfg: Config): seq<string> {
    [":80"] + (if IsL4Active(cfg) then [] else [HTTPS]) + (if e.byoc == "" then [] else [e.byoc])
  }

  /** The addresses of `listen`, then those of `addrs` it lacks. */
  function Merged(listen: seq<string>, addrs: seq<string>): seq<string>
    decreases |addrs|
  {
    if addrs == [] then listen
    else Merged(if addrs[0] in listen then listen else listen + [addrs[0]], addrs[1..])
  }

  /** ensureHTTPApp: a missing app or server is created with no routes. */
  function HttpAppEnsured(e: Edge, cfg: Config): Config {
    if Server(e, cfg).Some? then cfg else WithServer(e, cfg, Bare(ListenAddrs(e, cfg)))
  }

  /** ensureTLSApp: a missing app is created with one policy without subjects. */
  function TlsAppEnsured(e: Edge, cfg: Config): Config {
    if cfg.tls.Some? then cfg else cfg.(tls := Some([NewPolicy(e.acme, [])]))
  }

  /** EnsureServerConfig. */
  function ServerEnsured(e: Edge, cfg: Config): Config {
    var c := TlsAppEnsured(e, HttpAppEnsured(e, cfg));
    var s := Server(e, c).value;
    WithServer(e, c, s.(listen := Merged(s.listen, ListenAddrs(e, c))))
  }

  lemma {:induction false} MergedIs(listen: seq<string>, addrs: seq<string>)
    ensures listen <= Merged(listen, addrs)
    ensures forall a :: a in Merged(listen, addrs) <==> a in listen || a in addrs
    ensures (forall a :: a in addrs ==> a in listen) ==> Merged(listen, addrs) == listen
    decreases |addrs|
  {
    if addrs != [] {
      var l := if addrs[0] in listen then listen else listen + [addrs[0]];
      MergedIs(l, addrs[1..]);
      assert addrs == [addrs[0]] + addrs[1..];
    }
  }

  /** Listen reconciliation drops nothing: an existing server keeps every route and every
      address, in place, and gains just the addresses it should have; other servers, the
      layer4 app and existing policies are not touched. */
  lemma EnsureDropsNothing(e: Edge, cfg: Config)
    requires Server(e, cfg).Some?
    ensures var s, s' := Server(e, cfg).value, Server(e, ServerEnsured(e, cfg)).value;
      && s' == s.(listen := s'.listen) && s.listen <= s'.listen
      && (forall a :: a in s'.listen <==> a in s.listen || a in ListenAddrs(e, cfg))
      && ServerEnsured(e, cfg).layer4 == cfg.layer4
      && (cfg.tls.Some? ==> ServerEnsured(e, cfg).tls == cfg.tls)
      && forall n :: n in cfg.http.value && n != e.server ==>
           ServerEnsured(e, cfg).http.value[n] == cfg.http.value[n]
  {
    var s := Server(e, cfg).value;
    assert ListenAddrs(e, TlsAppEnsured(e, cfg)) == ListenAddrs(e, cfg);
    MergedIs(s.listen, ListenAddrs(e, cfg));
  }

  /** The addresses a server should have: 80, 443 while layer4 does not own it, and the plaintext
      ingress listener if there is one. */
  lemma ListenAddrsAre(e: Edge, cfg: Config, a: string)
    ensures a in ListenAddrs(e, cfg) <==>
      a == ":80" || (a == ":443" && !IsL4Active(cfg)) || (a == e.byoc && e.byoc != "")
  {
    var addrs := ListenAddrs(e, cfg);
    assert addrs[0] == ":80";
    assert !IsL4Active(cfg) ==> addrs[1] == ":443";
    assert e.byoc != "" ==> addrs[|addrs| - 1] == e.byoc;
  }

  /** After EnsureServerConfig the server is there and listens on all of them; one that was missing
      has no routes and no other addresses. */
  lemma EnsuredTls(e: Edge, cfg: Config)
    ensures cfg.tls.Some? ==> ServerEnsured(e, cfg).tls == cfg.tls
    ensures cfg.tls.None? ==> ServerEnsured(e, cfg).tls == Some([TlsPolicy([], IssuersFor(e.acme))])
  {
  }

  lemma EnsuredListens(e: Edge, cfg: Config)
    ensures var s := Server(e, ServerEnsured(e, cfg));
      && s.Some? && ":80" in s.value.listen && (!IsL4Active(cfg) ==> ":443" in s.value.listen)
      && (e.byoc != "" ==> e.byoc in s.value.listen)
      && (Server(e, cfg).None? ==> s.value.routes == [] && forall a :: a in s.value.listen ==>
            a == ":80" || (a == ":443" && !IsL4Active(cfg)) || (a == e.byoc && e.byoc != ""))
      && ServerEnsured(e, cfg).tls.Some?
  {
    var c := TlsAppEnsured(e, HttpAppEnsured(e, cfg));
    assert ListenAddrs(e, c) == ListenAddrs(e, cfg);
    MergedIs(Server(e, c).value.listen, ListenAddrs(e, c));
    forall a ensures a in ListenAddrs(e, cfg) <==>
      a == ":80" || (a == ":443" && !IsL4Active(cfg)) || (a == e.byoc && e.byoc != "")
    {
      ListenAddrsAre(e, cfg, a);
    }
  }

  // ---- port 443 ----

  /** No HTTP server listens on 443 while the layer4 server does. */
  ghost predicate NoClash(cfg: Config) {
    IsL4Active(cfg) && cfg.http.Some? ==>
      forall n :: n in cfg.http.value ==> HTTPS !in cfg.http.value[n].listen
  }

  /** One call of either manager, or a loss of the whole configuration. */
  datatype Call =
    | EnsureServer
    | Activate
    | Deactivate
    | AddSni(sni: string, dial: string)
    | RemoveSni(sni: string)
    | EnableProxyProtocol(cidrs: seq<string>)
    | SetRoutes(routes: seq<HttpRoute>)
    | SetPolicies(policies: seq<TlsPolicy>)
    | Wipe

  datatype State = State(cfg: Config, trusted: seq<string>)

  /** A call that would index a list out of range panics and changes nothing. */
  function Step(e: Edge, s: State, c: Call): State {
    match c
    case EnsureServer => s.(cfg := ServerEnsured(e, s.cfg))
    case Activate => s.(cfg := Activated(s.cfg, s.trusted))
    case Deactivate => s.(cfg := Deactivated(s.cfg))
    case AddSni(sni, dial) =>
      if Readable(s.cfg) && Readable(Removed(s.cfg, sni)) then s.(cfg := Added(s.cfg, sni, dial)) else s
    case RemoveSni(sni) => if Readable(s.cfg) then s.(cfg := Removed(s.cfg, sni)) else s
    case EnableProxyProtocol(cidrs) =>
      if !Acceptable(cidrs) || !Readable(s.cfg) then s else State(Reshaped(s.cfg, cidrs), cidrs)
    case SetRoutes(routes) =>
      if Server(e, s.cfg).None? then s
      else s.(cfg := WithServer(e, s.cfg, Server(e, s.cfg).value.(routes := routes)))
    case SetPolicies(policies) => s.(cfg := s.cfg.(tls := Some(policies)))
    case Wipe => s.(cfg := STUB)
  }

  /** Any interleaving of the two managers' calls, from the stub. */
  function Run(e: Edge, calls: seq<Call>): State {
    if calls == [] then State(STUB, [])
    else Step(e, Run(e, calls[..|calls| - 1]), calls[|calls| - 1])
  }

  ghost predicate Inv(s: State) { L4Ok(s.cfg) && NoClash(s.cfg) }

  lemma ActivatedNoClash(cfg: Config, trusted: seq<string>)
    requires NoClash(cfg)
    ensures NoClash(Activated(cfg, trusted))
  {
    if !IsL4Active(cfg) && cfg.http.Some? {
      var servers := Activated(cfg, trusted).http.value;
      forall n | n in servers ensures HTTPS !in servers[n].listen {
        var s := cfg.http.value[n];
        assert servers[n] == MovedOff(s);
      }
    }
  }

  lemma ListenAddrsYield(e: Edge, cfg: Config)
    requires IsL4Active(cfg)
    ensures HTTPS in ListenAddrs(e, cfg) <==> e.byoc == HTTPS
  {
  }

  lemma EnsuredNoClash(e: Edge, cfg: Config)
    requires NoClash(cfg) && e.byoc != HTTPS
    ensures NoClash(ServerEnsured(e, cfg))
  {
    if IsL4Active(cfg) {
      ListenAddrsYield(e, cfg);
      var c := TlsAppEnsured(e, HttpAppEnsured(e, cfg));
      assert ListenAddrs(e, c) == ListenAddrs(e, cfg);
      var s := Server(e, c).value;
      assert HTTPS !in s.listen;
      MergedIs(s.listen, ListenAddrs(e, c));
      var servers := ServerEnsured(e, cfg).http.value;
      forall n | n in servers ensures HTTPS !in servers[n].listen {
        assert n != e.server ==> servers[n] == cfg.http.value[n];
      }
    }
  }

  /** Every call of either manager keeps 443 with one owner, and the passthrough table in
      shape, if the plaintext ingress listener is not 443 itself. */
  lemma StepKeepsInv(e: Edge, s: State, c: Call)
    requires Inv(s) && e.byoc != HTTPS
    ensures Inv(Step(e, s, c))
  {
    match c
    case EnsureServer => EnsuredNoClash(e, s.cfg);
    case Activate =>
      ActivatedTable(s.cfg, s.trusted);
      ActivatedNoClash(s.cfg, s.trusted);
    case Deactivate =>
    case AddSni(sni, dial) => AddedTable(s.cfg, sni, dial);
    case RemoveSni(sni) => RemovedTable(s.cfg, sni);
    case EnableProxyProtocol(cidrs) =>
      if Acceptable(cidrs) {
        ReshapedTable(s.cfg, cidrs);
      }
    case SetRoutes(routes) =>
    case SetPolicies(policies) =>
    case Wipe =>
  }

  lemma {:induction false} RunKeepsInv(e: Edge, calls: seq<Call>)
    requires e.byoc != HTTPS
    ensures Inv(Run(e, calls))
  {
    if calls != [] {
      RunKeepsInv(e, calls[..|calls| - 1]);
      StepKeepsInv(e, Run(e, calls[..|calls| - 1]), calls[|calls| - 1]);
    }
  }

  /** Port 443 never has two owners, over all interleavings of both managers' calls and of
      configuration losses, exactly when the plaintext ingress listener is not 443. */
  lemma OneOwnerOf443(e: Edge)
    ensures (forall calls :: NoClash(Run(e, calls).cfg)) <==> e.byoc != HTTPS
  {
    if e.byoc != HTTPS {
      forall calls ensures NoClash(Run(e, calls).cfg) {
        RunKeepsInv(e, calls);
      }
    } else {
      IngressOn443Clashes(e);
    }
  }

  lemma RunSnoc(e: Edge, calls: seq<Call>, c: Call)
    ensures Run(e, calls + [c]) == Step(e, Run(e, calls), c)
  {
    assert (calls + [c])[..|calls|] == calls;
  }

  lemma IngressOn443Clashes(e: Edge)
    requires e.byoc == HTTPS
    ensures !NoClash(Run(e, [] + [EnsureServer] + [Activate] + [EnsureServer]).cfg)
  {
    RunSnoc(e, [], EnsureServer);
    RunSnoc(e, [] + [EnsureServer], Activate);
    RunSnoc(e, [] + [EnsureServer] + [Activate], EnsureServer);
    var s1 := Run(e, [] + [EnsureServer]);
    assert s1 == Step(e, State(STUB, []), EnsureServer);
    var s2 := Run(e, [] + [EnsureServer] + [Activate]);
    assert IsL4Active(s2.cfg) && Server(e, s2.cfg).Some?;
    EnsureDropsNothing(e, s2.cfg);
    ListenAddrsYield(e, s2.cfg);
    var s3 := Step(e, s2, EnsureServer);
    assert HTTPS in s3.cfg.http.value[e.server].listen;
  }

  /** The guarantee is per call, not per request.  A listen reconcile loads the tree it read,
      with the addresses it was told when it asked about layer4: the result has one owner of 443
      exactly when layer4 is down in what it read, or was still up when it asked and the
      plaintext ingress listener is not 443. */
  lemma StaleReconcileExactly(e: Edge, read: Config, asked: Config)
    requires Server(e, read).Some? && NoClash(read)
    ensures var s := Server(e, read).value;
      NoClash(WithServer(e, read, s.(listen := Merged(s.listen, ListenAddrs(e, asked)))))
      <==> !IsL4Active(read) || (IsL4Active(asked) && e.byoc != HTTPS)
  {
    var s := Server(e, read).value;
    MergedIs(s.listen, ListenAddrs(e, asked));
    ServerPutExactly(e, read, s.(listen := Merged(s.listen, ListenAddrs(e, asked))));
    AsksFor443(e, asked);
  }

  /** createServerConfig's PUT: refused where the server exists, or the http app does not. */
  function ServerPut(e: Edge, found: Config, s: HttpServer): Config {
    if found.http.None? || Server(e, found).Some? then found else WithServer(e, found, s)
  }

  /** createHTTPApp's PUT: refused where the app exists. */
  function AppPut(e: Edge, found: Config, s: HttpServer): Config {
    if found.http.Some? then found else found.(http := Some(map[e.server := s]))
  }

  /** A server created by a PUT, alone or with the whole http app, gets the addresses asked for
      before: one owner of 443 stays exactly when the PUT is refused, layer4 is down in the tree it
      finds, or layer4 was up when it asked and the plaintext ingress listener is not 443. */
  lemma StaleCreateExactly(e: Edge, found: Config, asked: Config)
    requires NoClash(found)
    ensures var s := Bare(ListenAddrs(e, asked));
      && (NoClash(ServerPut(e, found, s))
          <==> found.http.None? || Server(e, found).Some? || !IsL4Active(found)
               || (IsL4Active(asked) && e.byoc != HTTPS))
      && (NoClash(AppPut(e, found, s))
          <==> found.http.Some? || !IsL4Active(found) || (IsL4Active(asked) && e.byoc != HTTPS))
  {
    var s := Bare(ListenAddrs(e, asked));
    ServerPutExactly(e, found, s);
    AsksFor443(e, asked);
    var app := found.(http := Some(map[e.server := s]));
    assert IsL4Active(app) == IsL4Active(found) && app.http.value[e.server] == s;
  }

  lemma ServerPutExactly(e: Edge, cfg: Config, s: HttpServer)
    requires NoClash(cfg)
    ensures NoClash(WithServer(e, cfg, s)) <==> !IsL4Active(cfg) || HTTPS !in s.listen
  {
    var put := WithServer(e, cfg, s);
    assert put.http.value[e.server] == s && IsL4Active(put) == IsL4Active(cfg);
    forall n | n in put.http.value && n != e.server
      ensures cfg.http.Some? && n in cfg.http.value && put.http.value[n] == cfg.http.value[n]
    {
    }
  }

  lemma AsksFor443(e: Edge, asked: Config)
    ensures HTTPS in ListenAddrs(e, asked) <==> !IsL4Active(asked) || e.byoc == HTTPS
  {
    if !IsL4Active(asked) {
      assert ListenAddrs(e, asked)[1] == HTTPS;
    }
  }

  /** Both races are there: a deactivation between reading and asking, an activation between
      asking and writing. */
  lemma StaleInterleavingsClash(e: Edge, up: Config, down: Config)
    requires IsL4Active(up) && NoClash(up) && Server(e, up).Some?
    requires !IsL4Active(down) && down.http.Some? && Server(e, down).None?
    ensures var s := Server(e, up).value;
      !NoClash(WithServer(e, up, s.(listen := Merged(s.listen, ListenAddrs(e, Deactivated(up))))))
    ensures !NoClash(ServerPut(e, Activated(down, []), Bare(ListenAddrs(e, down))))
  {
    StaleReconcileExactly(e, up, Deactivated(up));
    ActivatedNoClash(down, []);
    assert IsL4Active(Activated(down, []));
    StaleCreateExactly(e, Activated(down, []), down);
  }

  // ---- the passthrough table over runs ----

  /** Layer4 as a plain map: whether it is up, whether there is an http app, the table. */
  datatype Plain = Plain(up: bool, http: bool, table: map<string, string>)

  function PlainStep(p: Plain, c: Call): Plain {
    match c
    case EnsureServer => p.(http := true)
    case Activate => p.(up := p.up || p.http)
    case Deactivate => p.(up := false, table := map[])
    case AddSni(sni, dial) => if p.up then p.(table := p.table[sni := dial]) else p
    case RemoveSni(sni) => p.(table := p.table - {sni})
    case EnableProxyProtocol(_) => p
    case SetRoutes(_) => p
    case SetPolicies(_) => p
    case Wipe => Plain(false, false, map[])
  }

  function PlainRun(calls: seq<Call>): Plain {
    if calls == [] then Plain(false, false, map[])
    else PlainStep(PlainRun(calls[..|calls| - 1]), calls[|calls| - 1])
  }

  ghost predicate Refines(cfg: Config, p: Plain) {
    && L4Ok(cfg) && IsL4Active(cfg) == p.up && cfg.http.Some? == p.http && Upstreams(cfg) == p.table
  }

  lemma StepRefines(e: Edge, s: State, c: Call, p: Plain)
    requires Refines(s.cfg, p)
    ensures Refines(Step(e, s, c).cfg, PlainStep(p, c))
  {
    match c
    case EnsureServer => assert L4Of(ServerEnsured(e, s.cfg)) == L4Of(s.cfg);
    case Activate => ActivatedTable(s.cfg, s.trusted);
    case Deactivate =>
    case AddSni(sni, dial) => AddedTable(s.cfg, sni, dial);
    case RemoveSni(sni) => RemovedTable(s.cfg, sni);
    case EnableProxyProtocol(cidrs) =>
      if Acceptable(cidrs) {
        ReshapedTable(s.cfg, cidrs);
      }
    case SetRoutes(routes) => assert L4Of(Step(e, s, c).cfg) == L4Of(s.cfg);
    case SetPolicies(policies) => assert L4Of(Step(e, s, c).cfg) == L4Of(s.cfg);
    case Wipe =>
  }

  lemma {:induction false} RunRefines(e: Edge, calls: seq<Call>)
    ensures Refines(Run(e, calls).cfg, PlainRun(calls))
  {
    if calls != [] {
      RunRefines(e, calls[..|calls| - 1]);
      StepRefines(e, Run(e, calls[..|calls| - 1]), calls[|calls| - 1], PlainRun(calls[..|calls| - 1]));
    }
  }

  /** Over every run, dispatching a connection through the live route list, flat or wrapped,
      is a lookup in a plain map kept by the same calls, with the HTTP server as default: a TLS
      server listens there, if one listened on 443 at activation; and the server is wrapped
      exactly when its catch-all carries the PROXY tag. */
  lemma RunDispatches(e: Edge, calls: seq<Call>, sni: string)
    ensures var cfg, p := Run(e, calls).cfg, PlainRun(calls);
      && IsL4Active(cfg) == p.up
      && (p.up ==>
            && Dispatch(L4Of(cfg).value.routes, sni)
                 == Some(if sni in p.table then p.table[sni] else FALLBACK_DIAL)
            && ServerOk(L4Of(cfg).value))
      && (p.up && HandedOver(e, calls) && sni !in p.table ==>
            exists d :: Dispatch(L4Of(cfg).value.routes, sni) == Some(d) && Terminated(cfg, d))
  {
    RunRefines(e, calls);
    DefaultTerminates(e, calls);
    if PlainRun(calls).up {
      DispatchIsMap(Run(e, calls).cfg, sni);
    }
  }

  // ---- where the default leads ----

  /** Some HTTP server listened on 443. */
  ghost predicate On443(cfg: Config) {
    cfg.http.Some? && exists n :: n in cfg.http.value && ":443" in cfg.http.value[n].listen
  }

  /** A local address that a TLS-terminating HTTP server listens on. */
  ghost predicate Terminated(cfg: Config, dial: string) {
    cfg.http.Some? && exists n :: n in cfg.http.value && ServesTls(cfg.http.value[n], dial)
  }

  predicate ServesTls(s: HttpServer, dial: string) {
    s.tlsPolicies && exists a :: a in s.listen && "localhost" + a == dial
  }

  /** At the activation that is in force, some HTTP server listened on 443. */
  ghost predicate HandedOver(e: Edge, calls: seq<Call>) {
    calls != [] &&
    var before, c := calls[..|calls| - 1], calls[|calls| - 1];
    var cfg := Run(e, before).cfg;
    match c
    case Activate => if IsL4Active(cfg) then HandedOver(e, before) else On443(cfg)
    case Deactivate => false
    case Wipe => false
    case _ => HandedOver(e, before)
  }

  lemma ActivatedTerminates(cfg: Config, trusted: seq<string>)
    requires !IsL4Active(cfg) && On443(cfg)
    ensures Terminated(Activated(cfg, trusted), FALLBACK_DIAL)
  {
    var n :| n in cfg.http.value && ":443" in cfg.http.value[n].listen;
    ActivatedServers(cfg, trusted, n);
    var s, s' := cfg.http.value[n], Activated(cfg, trusted).http.value[n];
    var i :| 0 <= i < |s.listen| && s.listen[i] == ":443";
    assert s'.listen[i] == ":8443" && "localhost" + ":8443" == FALLBACK_DIAL;
  }

  lemma EnsuredTerminates(e: Edge, cfg: Config, dial: string)
    requires Terminated(cfg, dial)
    ensures Terminated(ServerEnsured(e, cfg), dial)
  {
    var n :| n in cfg.http.value && ServesTls(cfg.http.value[n], dial);
    if Server(e, cfg).Some? {
      EnsureDropsNothing(e, cfg);
    }
    var s, s' := cfg.http.value[n], ServerEnsured(e, cfg).http.value[n];
    assert s'.tlsPolicies == s.tlsPolicies && s.listen <= s'.listen;
    var a :| a in s.listen && "localhost" + a == dial;
    assert a in s'.listen;
  }

  lemma SameHttpTerminates(cfg: Config, cfg': Config, dial: string)
    requires Terminated(cfg, dial) && cfg'.http == cfg.http
    ensures Terminated(cfg', dial)
  {
  }

  lemma {:induction false} DefaultTerminates(e: Edge, calls: seq<Call>)
    ensures HandedOver(e, calls) ==> Terminated(Run(e, calls).cfg, FALLBACK_DIAL)
  {
    if HandedOver(e, calls) {
      var before, c := calls[..|calls| - 1], calls[|calls| - 1];
      DefaultTerminates(e, before);
      var s := Run(e, before);
      match c
      case EnsureServer => EnsuredTerminates(e, s.cfg, FALLBACK_DIAL);
      case Activate =>
        if !IsL4Active(s.cfg) {
          ActivatedTerminates(s.cfg, s.trusted);
        }
      case AddSni(sni, dial) => SameHttpTerminates(s.cfg, Step(e, s, c).cfg, FALLBACK_DIAL);
      case RemoveSni(sni) => SameHttpTerminates(s.cfg, Step(e, s, c).cfg, FALLBACK_DIAL);
      case EnableProxyProtocol(cidrs) => SameHttpTerminates(s.cfg, Step(e, s, c).cfg, FALLBACK_DIAL);
      case SetRoutes(routes) => RoutesTerminate(e, s, routes, FALLBACK_DIAL);
      case SetPolicies(policies) => SameHttpTerminates(s.cfg, Step(e, s, c).cfg, FALLBACK_DIAL);
    }
  }

  lemma RoutesTerminate(e: Edge, s: State, routes: seq<HttpRoute>, dial: string)
    requires Terminated(s.cfg, dial)
    ensures Terminated(Step(e, s, SetRoutes(routes)).cfg, dial)
  {
    var n :| n in s.cfg.http.value && ServesTls(s.cfg.http.value[n], dial);
    var t, t' := s.cfg.http.value[n], Step(e, s, SetRoutes(routes)).cfg.http.value[n];
    assert t'.listen == t.listen && t'.tlsPolicies == t.tlsPolicies;
    assert ServesTls(t', dial);
  }

  /** Over runs, the layer4 server trusts the senders last accepted, and hands the client's
      address to the HTTP server, and to no passthrough target, exactly when there are any. */
  lemma RunTells(e: Edge, calls: seq<Call>)
    ensures var s := Run(e, calls);
      IsL4Active(s.cfg) ==>
        ServerOk(L4Of(s.cfg).value) && Trusts(L4Of(s.cfg).value, s.trusted) && Tells(L4Of(s.cfg).value, s.trusted)
  {
    var s := Run(e, calls);
    RunTrusts(e, calls);
    if IsL4Active(s.cfg) {
      TrustsTells(L4Of(s.cfg).value, s.trusted);
    }
  }

  /** Whom the layer4 server trusts, over runs: the senders last accepted. */
  lemma {:induction false} RunTrusts(e: Edge, calls: seq<Call>)
    ensures var s := Run(e, calls);
      L4Ok(s.cfg) && (IsL4Active(s.cfg) ==> Trusts(L4Of(s.cfg).value, s.trusted))
  {
    if calls != [] {
      RunTrusts(e, calls[..|calls| - 1]);
      StepTrusts(e, Run(e, calls[..|calls| - 1]), calls[|calls| - 1]);
    }
  }

  lemma StepTrusts(e: Edge, s: State, c: Call)
    requires L4Ok(s.cfg) && (IsL4Active(s.cfg) ==> Trusts(L4Of(s.cfg).value, s.trusted))
    ensures var s' := Step(e, s, c);
      L4Ok(s'.cfg) && (IsL4Active(s'.cfg) ==> Trusts(L4Of(s'.cfg).value, s'.trusted))
  {
    match c
    case EnsureServer => assert L4Of(ServerEnsured(e, s.cfg)) == L4Of(s.cfg);
    case Activate => ActivatedTable(s.cfg, s.trusted);
    case Deactivate =>
    case AddSni(sni, dial) => AddedTable(s.cfg, sni, dial);
    case RemoveSni(sni) => RemovedTable(s.cfg, sni);
    case EnableProxyProtocol(cidrs) =>
      if Acceptable(cidrs) {
        ReshapedTable(s.cfg, cidrs);
      }
    case SetRoutes(routes) => assert L4Of(Step(e, s, c).cfg) == L4Of(s.cfg);
    case SetPolicies(policies) => assert L4Of(Step(e, s, c).cfg) == L4Of(s.cfg);
    case Wipe =>
  }

  // ---- activation and back ----

  lemma MovedThere(listen: seq<string>)
    ensures Moved(Moved(listen, HTTPS, FALLBACK_LISTEN), FALLBACK_LISTEN, HTTPS) == listen
            <==> FALLBACK_LISTEN !in listen
    ensures Moved(listen, FALLBACK_LISTEN, HTTPS) == listen <==> FALLBACK_LISTEN !in listen
  {
    var there := Moved(listen, HTTPS, FALLBACK_LISTEN);
    var back := Moved(there, FALLBACK_LISTEN, HTTPS);
    assert |back| == |listen|;
    assert forall i :: 0 <= i < |listen| ==>
        (back[i] == listen[i] <==> listen[i] != FALLBACK_LISTEN);
    if FALLBACK_LISTEN in listen {
      var i :| 0 <= i < |listen| && listen[i] == FALLBACK_LISTEN;
      assert back[i] != listen[i];
      assert Moved(listen, FALLBACK_LISTEN, HTTPS)[i] != listen[i];
    } else {
      assert back == listen;
      assert Moved(listen, FALLBACK_LISTEN, HTTPS) == listen;
    }
  }

  /** A server that hand-over and return leave as it was. */
  predicate Plainly(s: HttpServer) { FALLBACK_LISTEN !in s.listen && !s.tlsPolicies }

  lemma ServerRoundTrip(s: HttpServer)
    ensures MovedBack(MovedOff(s)) == s <==> Plainly(s)
  {
    MovedThere(s.listen);
  }

  /** Deactivating after activating restores the tree exactly when it had no layer4 app, whose
      other servers activation overwrites, and no server listened on 8443 or had TLS connection
      policies of its own before. */
  lemma DeactivateRestoresExactly(cfg: Config, trusted: seq<string>)
    requires !IsL4Active(cfg) && cfg.http.Some?
    ensures Deactivated(Activated(cfg, trusted)) == cfg
            <==> cfg.layer4.None? && forall n :: n in cfg.http.value ==> Plainly(cfg.http.value[n])
  {
    var servers := cfg.http.value;
    var back := Deactivated(Activated(cfg, trusted));
    assert IsL4Active(Activated(cfg, trusted));
    forall n | n in servers
      ensures back.http.value[n] == MovedBack(MovedOff(servers[n]))
      ensures back.http.value[n] == servers[n] <==> Plainly(servers[n])
    {
      ServerRoundTrip(servers[n]);
    }
    if forall n :: n in servers ==> Plainly(servers[n]) {
      assert back.http.value == servers;
    }
  }
}
