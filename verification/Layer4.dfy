/** SNI passthrough routing: the layer4 server's route list, its flat and its wrapped shape,
    and the hand-over of port 443 (internal/app/l4_proxy.go). */
module Layer4 {
  import opened Wrappers
  import opened CaddyConfig

  const L4_SERVER := "tls_passthrough"
  const HTTPS := ":443"
  const FALLBACK_LISTEN := ":8443"
  const FALLBACK_DIAL := "localhost:8443"

  function L4Of(cfg: Config): Option<L4Server> {
    if cfg.layer4.Some? && L4_SERVER in cfg.layer4.value then Some(cfg.layer4.value[L4_SERVER]) else None
  }

  predicate IsL4Active(cfg: Config) { L4Of(cfg).Some? }

  // ---- route lists ----

  function SniRoute(sni: string, dial: string): L4Route { L4Route([[sni]], [Proxy([dial], false)]) }

  /** The match-less last route: everything else goes to the HTTP server, with a PROXY header
      when the server is PROXY-aware. */
  function Catchall(v2: bool): L4Route { L4Route([], [Proxy([FALLBACK_DIAL], v2)]) }

  predicate MatchesSni(r: L4Route, sni: string) {
    exists m :: m in r.matchers && sni in m
  }

  /** Exactly one route whose first handler is proxy_protocol. */
  predicate IsWrapped(routes: seq<L4Route>) {
    |routes| == 1 && |routes[0].handle| > 0 && routes[0].handle[0].ProxyProtocol?
  }

  /** A wrapped list has its subroute where the code indexes it. */
  predicate Indexable(routes: seq<L4Route>) {
    IsWrapped(routes) ==> |routes[0].handle| > 1 && routes[0].handle[1].Subroute?
  }

  function Inner(routes: seq<L4Route>): seq<L4Route>
    requires Indexable(routes)
  {
    if IsWrapped(routes) then routes[0].handle[1].routes else routes
  }

  function WithInner(routes: seq<L4Route>, inner: seq<L4Route>): seq<L4Route>
    requires Indexable(routes)
  {
    if IsWrapped(routes) then
      var outer := routes[0];
      [outer.(handle := outer.handle[1 := Subroute(inner)])]
    else inner
  }

  /** buildL4ServerConfig: flat without trusted senders, wrapped with them. */
  function Build(trusted: seq<string>, inner: seq<L4Route>): L4Server {
    L4Server([HTTPS], if trusted == [] then inner
                      else [L4Route([], [ProxyProtocol(trusted), Subroute(inner)])])
  }

  function Sni(r: L4Route): string
    requires IsSniRoute(r)
  {
    r.matchers[0][0]
  }

  function DialOf(r: L4Route): string
    requires IsSniRoute(r)
  {
    r.handle[0].dials[0]
  }

  predicate IsSniRoute(r: L4Route) {
    && |r.matchers| == 1 && |r.matchers[0]| == 1
    && |r.handle| == 1 && r.handle[0].Proxy? && |r.handle[0].dials| == 1
    && r == SniRoute(r.matchers[0][0], r.handle[0].dials[0])
  }

  /** One passthrough route per SNI. */
  ghost predicate SniRoutes(rs: seq<L4Route>) {
    && (forall i :: 0 <= i < |rs| ==> IsSniRoute(rs[i]))
    && (forall i, j :: 0 <= i < j < |rs| ==> Sni(rs[i]) != Sni(rs[j]))
  }

  /** The route list's invariant: passthrough routes, one per SNI, then the catch-all. */
  ghost predicate InnerOk(inner: seq<L4Route>) {
    && inner != [] && SniRoutes(Body(inner))
    && (Last(inner) == Catchall(false) || Last(inner) == Catchall(true))
  }

  function Body(inner: seq<L4Route>): seq<L4Route>
    requires inner != []
  {
    inner[..|inner| - 1]
  }

  function Last(inner: seq<L4Route>): L4Route
    requires inner != []
  {
    inner[|inner| - 1]
  }

  /** What an active server always looks like: wrapped exactly when its catch-all is tagged. */
  ghost predicate ServerOk(s: L4Server) {
    && s.listen == [HTTPS] && Indexable(s.routes) && InnerOk(Inner(s.routes))
    && (IsWrapped(s.routes) ==> s.routes[0].matchers == [] && |s.routes[0].handle| == 2)
    && (IsWrapped(s.routes) <==> Last(Inner(s.routes)) == Catchall(true))
  }

  ghost predicate L4Ok(cfg: Config) { IsL4Active(cfg) ==> ServerOk(L4Of(cfg).value) }

  // ---- the table a route list stands for ----

  ghost function Table(rs: seq<L4Route>): map<string, string>
    requires SniRoutes(rs)
  {
    map r | r in rs :: Sni(r) := DialOf(r)
  }

  /** The passthrough table of a configuration; empty when layer4 is not up. */
  ghost function Upstreams(cfg: Config): map<string, string>
    requires L4Ok(cfg)
  {
    if IsL4Active(cfg) then Table(Body(Inner(L4Of(cfg).value.routes))) else map[]
  }

  /** Where a connection with this SNI (section 3 of RFC 6066) ends up: the first route that
      matches handles it; a proxy_protocol handler passes on to the subroute after it. */
  function Dispatch(routes: seq<L4Route>, sni: string): Option<string>
    decreases routes
  {
    if routes == [] then None
    else
      var r := routes[0];
      if r.matchers == [] || MatchesSni(r, sni) then
        if |r.handle| > 0 && r.handle[0].Proxy? && |r.handle[0].dials| > 0 then Some(r.handle[0].dials[0])
        else if |r.handle| > 1 && r.handle[0].ProxyProtocol? && r.handle[1].Subroute?
        then Dispatch(r.handle[1].routes, sni)
        else None
      else Dispatch(routes[1..], sni)
  }

  lemma {:induction false} DispatchInner(body: seq<L4Route>, v2: bool, sni: string)
    requires SniRoutes(body)
    ensures Dispatch(body + [Catchall(v2)], sni)
      == Some(if sni in Table(body) then Table(body)[sni] else FALLBACK_DIAL)
  {
    var rs := body + [Catchall(v2)];
    if body == [] {
      assert rs[0] == Catchall(v2);
    } else {
      var r, rest := body[0], body[1..];
      assert rs[0] == r && rs[1..] == rest + [Catchall(v2)];
      assert r.matchers[0] in r.matchers;
      assert MatchesSni(r, sni) <==> sni == Sni(r);
      assert r in body;
      if sni != Sni(r) {
        DispatchInner(rest, v2, sni);
        assert forall x :: x in body <==> x == r || x in rest;
      }
    }
  }

  /** First-match dispatch over an active server is a plain map with a default, whatever the
      shape of the server: wrapping never changes where any SNI goes. */
  lemma DispatchIsMap(cfg: Config, sni: string)
    requires IsL4Active(cfg) && L4Ok(cfg)
    ensures Dispatch(L4Of(cfg).value.routes, sni)
      == Some(if sni in Upstreams(cfg) then Upstreams(cfg)[sni] else FALLBACK_DIAL)
  {
    var routes := L4Of(cfg).value.routes;
    var inner := Inner(routes);
    var v2 := Last(inner) == Catchall(true);
    assert inner == Body(inner) + [Catchall(v2)];
    DispatchInner(Body(inner), v2, sni);
  }

  // ---- operations ----

  function Moved(listen: seq<string>, from: string, to: string): seq<string> {
    seq(|listen|, i requires 0 <= i < |listen| => if listen[i] == from then to else listen[i])
  }

  /** moveHTTPServerOff443, for one server. */
  function MovedOff(s: HttpServer): HttpServer {
    if HTTPS in s.listen then s.(listen := Moved(s.listen, HTTPS, FALLBACK_LISTEN), tlsPolicies := true)
    else s
  }

  /** moveHTTPServerTo443, for one server. */
  function MovedBack(s: HttpServer): HttpServer {
    s.(listen := Moved(s.listen, FALLBACK_LISTEN, HTTPS), tlsPolicies := false)
  }

  /** ActivateL4; without an http app it fails and changes nothing. */
  function Activated(cfg: Config, trusted: seq<string>): Config {
    if IsL4Active(cfg) || cfg.http.None? then cfg
    else cfg.(http := Some(map n | n in cfg.http.value :: MovedOff(cfg.http.value[n])),
              layer4 := Some(map[L4_SERVER := Build(trusted, [Catchall(trusted != [])])]))
  }

  /** DeactivateL4. */
  function Deactivated(cfg: Config): Config {
    if !IsL4Active(cfg) then cfg
    else cfg.(http := if cfg.http.None? then None
                      else Some(map n | n in cfg.http.value :: MovedBack(cfg.http.value[n])),
              layer4 := None)
  }

  function Put(cfg: Config, s: L4Server): Config
    requires cfg.layer4.Some?
  {
    cfg.(layer4 := Some(cfg.layer4.value[L4_SERVER := s]))
  }

  function Without(rs: seq<L4Route>, sni: string): seq<L4Route> {
    if rs == [] then []
    else if MatchesSni(rs[0], sni) then Without(rs[1..], sni)
    else [rs[0]] + Without(rs[1..], sni)
  }

  function Inserted(rs: seq<L4Route>, r: L4Route): seq<L4Route> {
    if rs == [] then [r] else rs[..|rs| - 1] + [r, rs[|rs| - 1]]
  }

  /** The server's lists are where the code indexes them. */
  predicate Readable(cfg: Config) { IsL4Active(cfg) ==> Indexable(L4Of(cfg).value.routes) }

  /** RemoveL4Route. */
  function Removed(cfg: Config, sni: string): Config
    requires Readable(cfg)
  {
    if !IsL4Active(cfg) then cfg
    else
      var s := L4Of(cfg).value;
      Put(cfg, s.(routes := WithInner(s.routes, Without(Inner(s.routes), sni))))
  }

  /** Insert a route before the last one. */
  function InsertedInto(cfg: Config, r: L4Route): Config
    requires Readable(cfg)
  {
    if !IsL4Active(cfg) then cfg
    else
      var s := L4Of(cfg).value;
      Put(cfg, s.(routes := WithInner(s.routes, Inserted(Inner(s.routes), r))))
  }

  /** AddL4Route, whose removal of an older route for the SNI comes first. */
  function Added(cfg: Config, sni: string, dial: string): Config
    requires Readable(cfg) && Readable(Removed(cfg, sni))
  {
    InsertedInto(Removed(cfg, sni), SniRoute(sni, dial))
  }

  /** reshapeL4: tag a match-less last route's proxy handlers, then build the wrapped shape. */
  function Tagged(inner: seq<L4Route>): seq<L4Route> {
    if inner != [] && Last(inner).matchers == []
    then Body(inner) + [Last(inner).(handle := TaggedHandlers(Last(inner).handle))]
    else inner
  }

  function TaggedHandlers(hs: seq<L4Handler>): seq<L4Handler> {
    seq(|hs|, i requires 0 <= i < |hs| => if hs[i].Proxy? then hs[i].(v2 := true) else hs[i])
  }

  function Reshaped(cfg: Config, trusted: seq<string>): Config
    requires Readable(cfg)
  {
    if !IsL4Active(cfg) then cfg
    else Put(cfg, Build(trusted, Tagged(Inner(L4Of(cfg).value.routes))))
  }

  predicate Wildcard(c: string) { c == "0.0.0.0/0" || c == "::/0" }

  /** A list of trusted senders that is not refused. */
  predicate Acceptable(cidrs: seq<string>) { cidrs != [] && forall c :: c in cidrs ==> !Wildcard(c) }

  /** Refused are the empty list and every list that trusts the whole address space. */
  lemma AcceptableExactly(cidrs: seq<string>)
    ensures Acceptable(cidrs) <==> cidrs != [] && "0.0.0.0/0" !in cidrs && "::/0" !in cidrs
  {
  }

  // ---- what each operation does to the table ----

  lemma {:induction false} WithoutMembers(rs: seq<L4Route>, sni: string)
    ensures forall r :: r in Without(rs, sni) <==> r in rs && !MatchesSni(r, sni)
  {
    if rs != [] {
      WithoutMembers(rs[1..], sni);
      assert forall r :: r in rs <==> r == rs[0] || r in rs[1..];
    }
  }

  lemma {:induction false} WithoutKeepsSniRoutes(rs: seq<L4Route>, sni: string)
    requires SniRoutes(rs)
    ensures SniRoutes(Without(rs, sni))
  {
    if rs != [] {
      WithoutKeepsSniRoutes(rs[1..], sni);
      WithoutMembers(rs[1..], sni);
      var w := Without(rs[1..], sni);
      forall i | 0 <= i < |w| ensures Sni(rs[0]) != Sni(w[i]) {
        assert w[i] in w;
        var k :| 0 <= k < |rs[1..]| && rs[1..][k] == w[i];
        assert rs[k + 1] == w[i];
      }
    }
  }

  lemma {:induction false} WithoutSplits(body: seq<L4Route>, last: L4Route, sni: string)
    requires last.matchers == []
    ensures Without(body + [last], sni) == Without(body, sni) + [last]
  {
    var rs := body + [last];
    if body == [] {
      assert rs[0] == last && rs[1..] == [];
    } else {
      assert rs[0] == body[0] && rs[1..] == body[1..] + [last];
      WithoutSplits(body[1..], last, sni);
    }
  }

  lemma SniMatch(r: L4Route, sni: string)
    requires IsSniRoute(r)
    ensures MatchesSni(r, sni) <==> Sni(r) == sni
  {
    assert r.matchers[0] in r.matchers;
  }

  lemma WithoutTable(body: seq<L4Route>, sni: string)
    requires SniRoutes(body)
    ensures SniRoutes(Without(body, sni)) && Table(Without(body, sni)) == Table(body) - {sni}
  {
    WithoutKeepsSniRoutes(body, sni);
    var kept := Without(body, sni);
    forall r ensures r in kept <==> r in body && Sni(r) != sni {
      WithoutMembers(body, sni);
      if r in body {
        SniMatch(r, sni);
      }
    }
    assert Table(kept).Keys == (Table(body) - {sni}).Keys;
  }

  lemma SnocTable(body: seq<L4Route>, sni: string, dial: string)
    requires SniRoutes(body) && sni !in Table(body)
    ensures SniRoutes(body + [SniRoute(sni, dial)])
    ensures Table(body + [SniRoute(sni, dial)]) == Table(body)[sni := dial]
  {
    var rs, r := body + [SniRoute(sni, dial)], SniRoute(sni, dial);
    forall i | 0 <= i < |body| ensures Sni(body[i]) != sni {
      assert body[i] in body;
    }
    assert forall x :: x in rs <==> x == r || x in body;
  }

  /** The outer parts of a server that edits of its inner routes leave alone. */
  predicate SameOuter(s: L4Server, t: L4Server) {
    && t.listen == s.listen && IsWrapped(t.routes) == IsWrapped(s.routes)
    && (IsWrapped(s.routes) ==> t.routes[0].handle[0] == s.routes[0].handle[0])
  }

  ghost predicate KeepsOuter(cfg: Config, cfg': Config) {
    IsL4Active(cfg) ==> IsL4Active(cfg') && SameOuter(L4Of(cfg).value, L4Of(cfg').value)
  }

  /** A server that owns 443 and takes PROXY headers from exactly the trusted senders, from none
      where there are none. */
  predicate Trusts(s: L4Server, trusted: seq<string>) {
    && s.listen == [":443"]
    && if trusted == [] then !IsWrapped(s.routes)
       else IsWrapped(s.routes) && s.routes[0].handle[0] == ProxyProtocol(trusted)
  }

  /** Reads back what was put, in either shape. */
  lemma PutInner(cfg: Config, inner: seq<L4Route>)
    requires IsL4Active(cfg) && ServerOk(L4Of(cfg).value) && InnerOk(inner)
    requires Last(inner) == Last(Inner(L4Of(cfg).value.routes))
    ensures var s := L4Of(cfg).value;
      var cfg' := Put(cfg, s.(routes := WithInner(s.routes, inner)));
      IsL4Active(cfg') && L4Ok(cfg') && Upstreams(cfg') == Table(Body(inner))
      && IsWrapped(L4Of(cfg').value.routes) == IsWrapped(s.routes) && KeepsOuter(cfg, cfg')
  {
    var s := L4Of(cfg).value;
    var routes := WithInner(s.routes, inner);
    if !IsWrapped(s.routes) {
      assert routes == inner;
      assert !IsWrapped(inner) by {
        assert |inner| == 1 ==> inner[0] == Last(inner);
      }
    }
    assert Inner(routes) == inner;
  }

  /** RemoveL4Route removes the SNI from the table, and nothing else. */
  lemma RemovedTable(cfg: Config, sni: string)
    requires L4Ok(cfg)
    ensures L4Ok(Removed(cfg, sni)) && Upstreams(Removed(cfg, sni)) == Upstreams(cfg) - {sni}
    ensures IsL4Active(Removed(cfg, sni)) == IsL4Active(cfg) && KeepsOuter(cfg, Removed(cfg, sni))
  {
    if IsL4Active(cfg) {
      var inner := Inner(L4Of(cfg).value.routes);
      assert inner == Body(inner) + [Last(inner)];
      WithoutSplits(Body(inner), Last(inner), sni);
      WithoutTable(Body(inner), sni);
      var kept := Without(inner, sni);
      assert Body(kept) == Without(Body(inner), sni) && Last(kept) == Last(inner);
      PutInner(cfg, kept);
    }
  }

  lemma InsertedTable(cfg: Config, sni: string, dial: string)
    requires IsL4Active(cfg) && L4Ok(cfg) && sni !in Upstreams(cfg)
    ensures var cfg' := InsertedInto(cfg, SniRoute(sni, dial));
      IsL4Active(cfg') && L4Ok(cfg') && Upstreams(cfg') == Upstreams(cfg)[sni := dial]
      && KeepsOuter(cfg, cfg')
  {
    var inner := Inner(L4Of(cfg).value.routes);
    InsertedInner(inner, sni, dial);
    PutInner(cfg, Inserted(inner, SniRoute(sni, dial)));
  }

  lemma InsertedInner(inner: seq<L4Route>, sni: string, dial: string)
    requires InnerOk(inner) && sni !in Table(Body(inner))
    ensures var now := Inserted(inner, SniRoute(sni, dial));
      InnerOk(now) && Last(now) == Last(inner) && Table(Body(now)) == Table(Body(inner))[sni := dial]
  {
    SnocTable(Body(inner), sni, dial);
    var now := Inserted(inner, SniRoute(sni, dial));
    assert Body(now) == Body(inner) + [SniRoute(sni, dial)] && Last(now) == Last(inner);
  }

  /** AddL4Route sets the SNI's entry, and nothing else. */
  lemma AddedTable(cfg: Config, sni: string, dial: string)
    requires L4Ok(cfg)
    ensures L4Ok(Removed(cfg, sni))
    ensures L4Ok(Added(cfg, sni, dial)) && IsL4Active(Added(cfg, sni, dial)) == IsL4Active(cfg)
    ensures Upstreams(Added(cfg, sni, dial))
      == if IsL4Active(cfg) then Upstreams(cfg)[sni := dial] else map[]
    ensures KeepsOuter(cfg, Added(cfg, sni, dial))
  {
    RemovedTable(cfg, sni);
    if IsL4Active(cfg) {
      InsertedTable(Removed(cfg, sni), sni, dial);
      assert (Upstreams(cfg) - {sni})[sni := dial] == Upstreams(cfg)[sni := dial];
    }
  }

  /** EnableL4ProxyProtocol wraps the server and leaves the table alone. */
  lemma ReshapedTable(cfg: Config, trusted: seq<string>)
    requires L4Ok(cfg) && trusted != []
    ensures L4Ok(Reshaped(cfg, trusted)) && Upstreams(Reshaped(cfg, trusted)) == Upstreams(cfg)
    ensures IsL4Active(Reshaped(cfg, trusted)) == IsL4Active(cfg)
    ensures IsL4Active(cfg) ==> Trusts(L4Of(Reshaped(cfg, trusted)).value, trusted)
  {
    if IsL4Active(cfg) {
      var inner := Inner(L4Of(cfg).value.routes);
      var tagged := Tagged(inner);
      assert TaggedHandlers(Last(inner).handle) == Catchall(true).handle;
      assert tagged == Body(inner) + [Catchall(true)];
      assert Body(tagged) == Body(inner) && Last(tagged) == Catchall(true);
      assert Inner(Build(trusted, tagged).routes) == tagged;
    }
  }

  /** Activation starts from the empty table, unless layer4 is already up. */
  lemma ActivatedTable(cfg: Config, trusted: seq<string>)
    requires L4Ok(cfg)
    ensures L4Ok(Activated(cfg, trusted)) && Upstreams(Activated(cfg, trusted)) == Upstreams(cfg)
    ensures IsL4Active(Activated(cfg, trusted)) <==> IsL4Active(cfg) || cfg.http.Some?
    ensures !IsL4Active(cfg) && cfg.http.Some? ==> Trusts(L4Of(Activated(cfg, trusted)).value, trusted)
  {
    if !IsL4Active(cfg) && cfg.http.Some? {
      var inner := [Catchall(trusted != [])];
      assert Body(inner) == [] && Last(inner) == inner[0];
      assert Inner(Build(trusted, inner).routes) == inner;
    }
  }

  /** What a proxy tells its upstream: a passed-through connection arrives as the client sent it;
      one that goes to the HTTP server brings the PROXY header, if there are trusted senders. */
  ghost predicate Tells(s: L4Server, trusted: seq<string>)
    requires Indexable(s.routes)
  {
    var inner := Inner(s.routes);
    forall i, j :: 0 <= i < |inner| && 0 <= j < |inner[i].handle| && inner[i].handle[j].Proxy? ==>
      inner[i].handle[j].v2 == (inner[i].matchers == [] && trusted != [])
  }

  lemma TrustsTells(s: L4Server, trusted: seq<string>)
    requires ServerOk(s) && Trusts(s, trusted)
    ensures Tells(s, trusted)
  {
    var inner := Inner(s.routes);
    assert forall i :: 0 <= i < |inner| - 1 ==> inner[i] == Body(inner)[i];
  }

  // ---- what becomes of the HTTP servers ----

  /** Each address of one list where the other has it, one of them replaced. */
  predicate Replaced(listen: seq<string>, listen': seq<string>, from: string, to: string) {
    && |listen'| == |listen|
    && forall i :: 0 <= i < |listen| ==> listen'[i] == if listen[i] == from then to else listen[i]
  }

  /** ActivateL4 gives every server that listened on 443 port 8443 in its place, and TLS
      connection policies to terminate there, and changes nothing else of any server. */
  lemma ActivatedServers(cfg: Config, trusted: seq<string>, n: string)
    requires !IsL4Active(cfg) && cfg.http.Some? && n in cfg.http.value
    ensures var http := Activated(cfg, trusted).http;
      && http.Some? && http.value.Keys == cfg.http.value.Keys
      && var s, s' := cfg.http.value[n], http.value[n];
         if ":443" in s.listen
         then && Replaced(s.listen, s'.listen, ":443", ":8443") && s'.tlsPolicies
              && s' == s.(listen := s'.listen, tlsPolicies := true)
         else s' == s
    ensures Activated(cfg, trusted).tls == cfg.tls
    ensures var l4 := Activated(cfg, trusted).layer4; l4.Some? && l4.value.Keys == {"tls_passthrough"}
  {
  }

  /** DeactivateL4 gives every server 443 in the place of 8443, and takes its TLS connection
      policies. */
  lemma DeactivatedServers(cfg: Config, n: string)
    requires IsL4Active(cfg) && cfg.http.Some? && n in cfg.http.value
    ensures var d := Deactivated(cfg);
      && d.layer4 == None && d.tls == cfg.tls
      && d.http.Some? && d.http.value.Keys == cfg.http.value.Keys
      && var s, s' := cfg.http.value[n], d.http.value[n];
         && Replaced(s.listen, s'.listen, ":8443", ":443") && !s'.tlsPolicies
         && s' == s.(listen := s'.listen, tlsPolicies := false)
  {
  }
}
