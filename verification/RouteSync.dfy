/** RouteSyncJob: one tick drives the live Caddy tree to what the database says, from any tree
    the managers can leave and from the stub (internal/app/route_sync.go). */
module RouteSync {
  import opened Wrappers
  import opened CaddyConfig
  import opened Layer4
  import opened TlsSubjects
  import opened EdgeBase
  import opened EdgeManager
  import opened HttpRoutes
  import opened RouteTables
  import opened RouteDiff
  import L4 = Layer4Manager

  /** Trees the managers leave: ids and hosts in order on the HTTP side, the passthrough list
      in shape on the layer4 side. */
  ghost predicate Managed(e: Edge, D: set<string>, cfg: Config) {
    HttpManaged(e, D, cfg) && L4Managed(cfg)
  }

  /** Rows as the store keeps them: active, HTTP hosts from `D`, passthrough rows with a name
      and a port. */
  ghost predicate RowsOk(D: set<string>, db: seq<RouteRecord>) {
    forall r :: r in db ==>
      r.active && if r.protocol == PASSTHROUGH then r.fullDomain != "" && r.targetPort >= 0
                  else r.fullDomain in D
  }

  lemma RowsAllow(D: set<string>, db: seq<RouteRecord>)
    requires RowsOk(D, db)
    ensures Wanted(db, false).Keys <= D && Routable(Wanted(db, true))
  {
    WantedAre(db, false);
    WantedAre(db, true);
  }

  /** Nothing left to do, as the job sees it. */
  ghost predicate Settled(e: Edge, trust: Trust, passthrough: bool, latch: bool, wake: Wake,
                          db: seq<RouteRecord>, cfg: Config)
    requires L4Ok(cfg)
  {
    && BaseIntact(e, trust, cfg)
    && HttpQuiet(wake, Wanted(db, false), RoutesOf(e, cfg))
    && (passthrough ==> L4Settled(latch, Wanted(db, true), cfg))
    && TlsSettled(e.acme, Wanted(db, false).Keys, cfg)
  }

  ghost function DbHosts(db: seq<RouteRecord>): set<string> {
    set r | r in db && r.active && r.protocol != PASSTHROUGH :: r.fullDomain
  }

  /** The rows that count, in their own fields. */
  lemma DbHostsExactly(db: seq<RouteRecord>, h: string)
    ensures h in DbHosts(db) <==>
      exists r :: r in db && r.active && r.protocol != "tls_passthrough" && r.fullDomain == h
  {
  }

  ghost function LiveHosts(live: seq<Listed>): set<string> { set l | l in live :: l.host }

  ghost function AllHosts(db: seq<RouteRecord>, live: seq<Listed>): set<string> { DbHosts(db) + LiveHosts(live) }

  /** The rows' hosts and the live ones, each once, none empty. */
  method Collect(db: seq<RouteRecord>, live: seq<Listed>) returns (ds: seq<string>)
    ensures forall h :: h in ds <==> h in AllHosts(db, live) && h != ""
    ensures forall i, j :: 0 <= i < j < |ds| ==> ds[i] != ds[j]
  {
    ds := [];
    for i := 0 to |db|
      invariant forall h :: h in ds <==> h != "" && h in DbHosts(db[..i])
      invariant forall i, j :: 0 <= i < j < |ds| ==> ds[i] != ds[j]
    {
      var r := db[i];
      assert db[..i + 1] == db[..i] + [r];
      if r.active && r.fullDomain != "" && r.protocol != PASSTHROUGH && r.fullDomain !in ds {
        ds := ds + [r.fullDomain];
      }
    }
    assert db[..|db|] == db;
    ghost var known := ds;
    for i := 0 to |live|
      invariant forall h :: h in ds <==> h in known || (h != "" && h in LiveHosts(live[..i]))
      invariant forall i, j :: 0 <= i < j < |ds| ==> ds[i] != ds[j]
    {
      assert live[..i + 1] == live[..i] + [live[i]];
      if live[i].host != "" && live[i].host !in ds {
        ds := ds + [live[i].host];
      }
    }
    assert live[..|live|] == live;
  }

  method Split(db: seq<RouteRecord>) returns (http: seq<RouteRecord>, passthrough: seq<RouteRecord>)
    ensures http == Rows(db, false) && passthrough == Rows(db, true)
  {
    http, passthrough := [], [];
    for i := 0 to |db|
      invariant http == Rows(db[..i], false) && passthrough == Rows(db[..i], true)
    {
      assert db[..i + 1][..i] == db[..i];
      if db[i].protocol == PASSTHROUGH {
        passthrough := passthrough + [db[i]];
      } else {
        http := http + [db[i]];
      }
    }
    assert db[..|db|] == db;
  }

  class RouteSyncJob {
    const caddy: Caddy
    const proxy: ProxyManager
    const l4: L4.L4ProxyManager?
    /** Layer4 has been up since this job started. */
    var l4Activated: bool

    /** Both managers talk to the same Caddy. */
    ghost predicate Valid() { proxy.caddy == caddy && (l4 != null ==> l4.caddy == caddy) }

    constructor (proxy: ProxyManager, l4: L4.L4ProxyManager?)
      requires l4 != null ==> l4.caddy == proxy.caddy
      ensures Valid() && this.proxy == proxy && this.l4 == l4 && !l4Activated
    {
      this.caddy := proxy.caddy;
      this.proxy := proxy;
      this.l4 := l4;
      l4Activated := false;
    }

    /** addRouteToCaddy. */
    method AddRouteToCaddy(ghost D: set<string>, r: RouteRecord, wake: Wake)
      requires Valid() && Universe(proxy.e.base, D) && HttpManaged(proxy.e, D, caddy.cfg) && r.fullDomain in D
      modifies caddy
      ensures Edits(proxy.e, D, old(caddy.cfg), caddy.cfg, r.fullDomain)
      ensures Server(proxy.e, old(caddy.cfg)).Some? ==>
        Of(RoutesOf(proxy.e, caddy.cfg), r.fullDomain)
        == old(Of(RoutesOf(proxy.e, caddy.cfg), r.fullDomain)) + [Fresh(proxy.e.base, wake, r)]
      ensures KeepsWildcards(old(caddy.cfg), caddy.cfg) && caddy.writes >= old(caddy.writes)
    {
      RouteAddedEdits(proxy.e, D, caddy.cfg, r.fullDomain, Desired(wake, r));
      AddedKeeps(proxy.e, caddy.cfg, r.fullDomain, Desired(wake, r));
      var ok := proxy.AddRoute(r.fullDomain, Desired(wake, r));
    }

    /** updateRouteInCaddy. */
    method UpdateRouteInCaddy(ghost D: set<string>, r: RouteRecord, wake: Wake)
      requires Valid() && Universe(proxy.e.base, D) && HttpManaged(proxy.e, D, caddy.cfg) && r.fullDomain in D
      modifies caddy
      ensures Edits(proxy.e, D, old(caddy.cfg), caddy.cfg, r.fullDomain)
      ensures Server(proxy.e, old(caddy.cfg)).Some? ==>
        Replaces(old(Of(RoutesOf(proxy.e, caddy.cfg), r.fullDomain)),
                 Of(RoutesOf(proxy.e, caddy.cfg), r.fullDomain), Fresh(proxy.e.base, wake, r))
      ensures KeepsWildcards(old(caddy.cfg), caddy.cfg) && caddy.writes >= old(caddy.writes)
    {
      var ok, mid := proxy.UpdateRoute(r.fullDomain, Desired(wake, r));
      RouteDroppedEdits(proxy.e, D, old(caddy.cfg), r.fullDomain, mid);
      AddedKeeps(proxy.e, mid, r.fullDomain, Desired(wake, r));
      RouteUpdatedEdits(proxy.e, D, old(caddy.cfg), mid, caddy.cfg, r.fullDomain, Desired(wake, r));
    }

    /** The removal of one host: its route, then, unless it is a wildcard, its subject. */
    method RemoveFromCaddy(ghost D: set<string>, d: string)
      requires Valid() && Universe(proxy.e.base, D) && HttpManaged(proxy.e, D, caddy.cfg) && d in D
      requires Server(proxy.e, caddy.cfg).Some?
      modifies caddy
      ensures Edits(proxy.e, D, old(caddy.cfg), caddy.cfg, d)
      ensures Shortens(old(Of(RoutesOf(proxy.e, caddy.cfg), d)), Of(RoutesOf(proxy.e, caddy.cfg), d))
      ensures !Wildcarded(d) ==> Unlisted(caddy.cfg, d)
      ensures forall h :: old(Unlisted(caddy.cfg, h)) ==> Unlisted(caddy.cfg, h)
      ensures KeepsWildcards(old(caddy.cfg), caddy.cfg) && caddy.writes >= old(caddy.writes)
    {
      proxy.RemoveRoute(d);
      ghost var dropped := caddy.cfg;
      RouteDroppedEdits(proxy.e, D, old(caddy.cfg), d, dropped);
      if Wildcarded(d) {
        return;
      }
      proxy.RemoveTLSSubject(d);
      TlsEdits(proxy.e, D, old(caddy.cfg), dropped, caddy.cfg, d);
      forall h ensures Unlisted(caddy.cfg, d) && (Unlisted(dropped, h) ==> Unlisted(caddy.cfg, h)) {
        RemovedUnlists(dropped, d, h);
      }
      forall w ensures w != d && Lists(dropped, w) ==> Lists(caddy.cfg, w) {
        RemovedLists(dropped, d, w);
      }
    }

    /** One host of the first loop, by its last route. */
    method PushRoute(ghost D: set<string>, want: map<string, RouteRecord>, live: map<string, Listed>,
                     wake: Wake, d: string)
      requires Valid() && Universe(proxy.e.base, D) && HttpManaged(proxy.e, D, caddy.cfg)
      requires Indexed(want) && d in want && d in D && ListsLast(live, RoutesOf(proxy.e, caddy.cfg), d)
      modifies caddy
      ensures Edits(proxy.e, D, old(caddy.cfg), caddy.cfg, d)
      ensures Server(proxy.e, old(caddy.cfg)).Some? ==>
        Pushes(proxy.e.base, wake, want[d], old(Of(RoutesOf(proxy.e, caddy.cfg), d)),
               Of(RoutesOf(proxy.e, caddy.cfg), d))
      ensures QuietAt(wake, want, d, old(Of(RoutesOf(proxy.e, caddy.cfg), d))) ==> unchanged(caddy)
      ensures KeepsWildcards(old(caddy.cfg), caddy.cfg) && caddy.writes >= old(caddy.writes)
    {
      if d !in live {
        AddRouteToCaddy(D, want[d], wake);
      } else if NeedsUpdate(wake, want[d], live[d].upstream) {
        UpdateRouteInCaddy(D, want[d], wake);
      } else {
        EditsNothing(proxy.e, D, caddy.cfg, d);
      }
    }

    /** The first loop of syncHTTPRoutes: add and update, in any order. */
    method PushRoutes(ghost D: set<string>, want: map<string, RouteRecord>, live: map<string, Listed>,
                      wake: Wake)
      requires Valid() && Universe(proxy.e.base, D) && HttpManaged(proxy.e, D, caddy.cfg)
      requires Indexed(want) && want.Keys <= D
      requires forall h :: ListsLast(live, RoutesOf(proxy.e, caddy.cfg), h)
      modifies caddy
      ensures PushState(proxy.e, D, wake, want, {}, old(caddy.cfg), caddy.cfg)
      ensures HttpQuiet(wake, want, old(RoutesOf(proxy.e, caddy.cfg))) ==> unchanged(caddy)
      ensures KeepsWildcards(old(caddy.cfg), caddy.cfg) && caddy.writes >= old(caddy.writes)
    {
      var e := proxy.e;
      ghost var a := caddy.cfg;
      ghost var quiet := HttpQuiet(wake, want, RoutesOf(e, a));
      PushStart(e, D, wake, want, a);
      var todo := want.Keys;
      while todo != {}
        invariant todo <= want.Keys
        invariant PushState(e, D, wake, want, todo, a, caddy.cfg)
        invariant quiet ==> unchanged(caddy)
        invariant KeepsWildcards(a, caddy.cfg) && caddy.writes >= old(caddy.writes)
        decreases |todo|
      {
        var d :| d in todo;
        ghost var b := caddy.cfg;
        PushReads(e, D, wake, want, todo, a, b, d, live);
        assert quiet ==> QuietAt(wake, want, d, Of(RoutesOf(e, a), d));
        PushRoute(D, want, live, wake, d);
        PushStep(e, D, wake, want, todo, a, b, caddy.cfg, d);
        todo := todo - {d};
      }
    }

    /** The second loop: remove what the database does not have. */
    method PruneRoutes(ghost D: set<string>, stale: set<string>)
      requires Valid() && Universe(proxy.e.base, D) && HttpManaged(proxy.e, D, caddy.cfg) && stale <= D
      requires stale != {} ==> Server(proxy.e, caddy.cfg).Some?
      modifies caddy
      ensures old(Server(proxy.e, caddy.cfg)).Some? ==>
        PruneState(proxy.e, D, stale, {}, old(caddy.cfg), caddy.cfg)
      ensures forall h :: h in stale && !Wildcarded(h) ==> Unlisted(caddy.cfg, h)
      ensures stale == {} ==> unchanged(caddy)
      ensures KeepsWildcards(old(caddy.cfg), caddy.cfg) && caddy.writes >= old(caddy.writes)
    {
      var e := proxy.e;
      ghost var a := caddy.cfg;
      var todo := stale;
      while todo != {}
        invariant todo <= stale
        invariant Server(e, a).Some? ==> PruneState(e, D, stale, todo, a, caddy.cfg)
        invariant forall h :: h in stale && h !in todo && !Wildcarded(h) ==> Unlisted(caddy.cfg, h)
        invariant stale == {} ==> unchanged(caddy)
        invariant KeepsWildcards(a, caddy.cfg) && caddy.writes >= old(caddy.writes)
        decreases |todo|
      {
        var d :| d in todo;
        ghost var b := caddy.cfg;
        RemoveFromCaddy(D, d);
        PruneStep(e, D, stale, todo, a, b, caddy.cfg, d);
        todo := todo - {d};
      }
    }

    /** syncHTTPRoutes. */
    method SyncHTTPRoutes(ghost D: set<string>, rows: seq<RouteRecord>, wake: Wake)
      requires Valid() && Universe(proxy.e.base, D) && HttpManaged(proxy.e, D, caddy.cfg)
      requires ByKey(rows, DomainOf).Keys <= D
      modifies caddy
      ensures HttpDone(proxy.e, D, wake, ByKey(rows, DomainOf), old(caddy.cfg), caddy.cfg)
      ensures HttpQuiet(wake, ByKey(rows, DomainOf), old(RoutesOf(proxy.e, caddy.cfg))) ==> unchanged(caddy)
      ensures caddy.writes >= old(caddy.writes)
    {
      var e := proxy.e;
      ghost var a := caddy.cfg;
      var listed := proxy.ListRoutes();
      var want := Index(rows, DomainOf);
      var live := Index(listed, HostOf);
      ByKeyIs(rows, DomainOf);
      forall h ensures ListsLast(live, RoutesOf(e, a), h) {
        ListingIsLast(e.base, RoutesOf(e, a), h);
      }
      PushRoutes(D, want, live, wake);
      ghost var b := caddy.cfg;
      var stale := live.Keys - want.Keys;
      StaleAre(e, D, wake, want, live, a);
      PruneRoutes(D, stale);
      HttpPhase(e, D, wake, want, stale, a, b, caddy.cfg);
    }

    /** The first loop of syncL4Routes. */
    method PushSnis(ghost c0: Config, ghost t: map<string, string>,
                    want: map<string, RouteRecord>, live: map<string, L4.Entry>)
      requires Valid() && l4 != null && Routable(want) && ListsSnis(live, t)
      requires L4Moves(c0, caddy.cfg, t)
      modifies caddy
      ensures L4Moves(c0, caddy.cfg, L4Pushed(t, want, want.Keys - {}))
      ensures t == Dials(want) ==> unchanged(caddy)
      ensures caddy.writes >= old(caddy.writes)
    {
      L4PushedThenDropped(t, want);
      var todo := want.Keys;
      while todo != {}
        invariant todo <= want.Keys
        invariant L4Moves(c0, caddy.cfg, L4Pushed(t, want, want.Keys - todo))
        invariant t == Dials(want) ==> unchanged(caddy)
        invariant caddy.writes >= old(caddy.writes)
        decreases |todo|
      {
        var s :| s in todo;
        PushSni(c0, t, want, live, todo, s);
        todo := todo - {s};
      }
    }

    /** One passthrough host: added if missing, replaced if its target differs. */
    method PushSni(ghost c0: Config, ghost t: map<string, string>, want: map<string, RouteRecord>,
                   live: map<string, L4.Entry>, ghost todo: set<string>, s: string)
      requires Valid() && l4 != null && Routable(want) && ListsSnis(live, t)
      requires todo <= want.Keys && s in todo
      requires L4Moves(c0, caddy.cfg, L4Pushed(t, want, want.Keys - todo))
      modifies caddy
      ensures L4Moves(c0, caddy.cfg, L4Pushed(t, want, want.Keys - (todo - {s})))
      ensures t == Dials(want) ==> unchanged(caddy)
      ensures caddy.writes >= old(caddy.writes)
    {
      L4PushedStep(t, want, todo, s);
      var r := want[s];
      SameTarget(live, t, s, r);
      if s !in live || live[s].ip != r.targetIP || live[s].port != r.targetPort {
        AddSni(c0, L4Pushed(t, want, want.Keys - todo), r);
      }
    }

    method AddSni(ghost c0: Config, ghost t: map<string, string>, r: RouteRecord)
      requires Valid() && l4 != null && L4Moves(c0, caddy.cfg, t)
      requires r.fullDomain != "" && r.targetPort >= 0
      modifies caddy
      ensures L4Moves(c0, caddy.cfg, t[r.fullDomain := DialFor(r)])
      ensures caddy.writes >= old(caddy.writes)
    {
      ThenAddedSni(c0, caddy.cfg, t, r);
      var ok := l4.AddL4Route(r.fullDomain, r.targetIP, r.targetPort);
    }

    /** The second loop of syncL4Routes. */
    method PruneSnis(ghost c0: Config, ghost all: map<string, string>, stale: set<string>)
      requires Valid() && l4 != null && L4Moves(c0, caddy.cfg, all)
      modifies caddy
      ensures L4Moves(c0, caddy.cfg, all - stale)
      ensures stale == {} ==> unchanged(caddy)
      ensures caddy.writes >= old(caddy.writes)
    {
      var todo := stale;
      L4PrunedAll(all, stale);
      while todo != {}
        invariant todo <= stale
        invariant L4Moves(c0, caddy.cfg, all - (stale - todo))
        invariant stale == {} ==> unchanged(caddy)
        invariant caddy.writes >= old(caddy.writes)
        decreases |todo|
      {
        var s :| s in todo;
        ThenRemovedSni(c0, caddy.cfg, all - (stale - todo), s);
        L4PrunedStep(all, stale, todo, s);
        l4.RemoveL4Route(s);
        todo := todo - {s};
      }
    }

    /** syncL4Routes: lazy until first needed, then up for good. */
    method SyncL4Routes(rows: seq<RouteRecord>)
      requires Valid() && l4 != null && L4Managed(caddy.cfg) && caddy.cfg.http.Some?
      requires Routable(ByKey(rows, DomainOf))
      modifies this, caddy
      ensures L4Done(l4.trusted, old(l4Activated), ByKey(rows, DomainOf), old(caddy.cfg), caddy.cfg)
      ensures l4Activated == (old(l4Activated) || IsL4Active(caddy.cfg))
      ensures old(L4Managed(caddy.cfg) && L4Settled(l4Activated, ByKey(rows, DomainOf), caddy.cfg))
        ==> unchanged(caddy)
      ensures caddy.writes >= old(caddy.writes)
    {
      ByKeyIs(rows, DomainOf);
      ActivatedTable(caddy.cfg, l4.trusted);
      var want := Index(rows, DomainOf);
      assert |rows| > 0 ==> rows[0] in rows && DomainOf(rows[0]) in want;
      if !IsL4Active(caddy.cfg) {
        if |rows| == 0 && !l4Activated {
          return;
        }
        var ok := l4.ActivateL4();
      }
      l4Activated := true;
      ghost var c0 := caddy.cfg;
      ghost var t := Upstreams(c0);
      EntriesIndexTable(c0);
      var entries := l4.ListL4Routes();
      var live := Index(entries, SniOf);
      assert live == ByKey(L4Entries(c0), SniOf);
      PushSnis(c0, t, want, live);
      L4PushedThenDropped(t, want);
      PruneSnis(c0, L4Pushed(t, want, want.Keys - {}), live.Keys - want.Keys);
    }

    method CoverHosts(ds: seq<string>, ghost hosts: set<string>)
      requires Valid() && forall h :: h in ds <==> h in hosts && h != ""
      modifies caddy
      ensures TlsDone(proxy.e, hosts, old(caddy.cfg), caddy.cfg)
      ensures old(TlsSettled(proxy.e.acme, hosts, caddy.cfg)) ==> unchanged(caddy)
      ensures caddy.writes >= old(caddy.writes)
    {
      proxy.EnsureTLSSubjects(ds);
      EnsuredDone(proxy.e, old(caddy.cfg), caddy.cfg, ds, hosts);
    }

    /** syncTLSSubjects: the rows' hosts and the live ones. */
    method SyncTLSSubjects(db: seq<RouteRecord>, ghost hosts: set<string>)
      requires Valid() && Tidy(proxy.e.base, RoutesOf(proxy.e, caddy.cfg))
      requires hosts == DbHosts(db) + Hosts(RoutesOf(proxy.e, caddy.cfg))
      modifies caddy
      ensures TlsDone(proxy.e, hosts, old(caddy.cfg), caddy.cfg)
      ensures old(TlsSettled(proxy.e.acme, hosts, caddy.cfg)) ==> unchanged(caddy)
      ensures caddy.writes >= old(caddy.writes)
    {
      var e := proxy.e;
      var listed := proxy.ListRoutes();
      var ds := Collect(db, listed);
      LiveHostsAre(e.base, RoutesOf(e, caddy.cfg));
      assert AllHosts(db, listed) == hosts;
      CoverHosts(ds, hosts);
    }

    /** The base configuration, with the wildcard subject after a rebuild. */
    method EnsureBase()
      requires Valid() && proxy.Valid()
      modifies caddy, proxy
      ensures proxy.trust == old(proxy.trust)
      ensures BaseDone(proxy.e, proxy.trust, old(caddy.cfg), caddy.cfg)
      ensures WildcardBack(proxy.e, proxy.trust, old(caddy.cfg), caddy.cfg)
      ensures old(BaseIntact(proxy.e, proxy.trust, caddy.cfg)) ==> unchanged(caddy)
      ensures caddy.writes >= old(caddy.writes)
    {
      BaseEnsuredDone(proxy.e, proxy.trust, caddy.cfg);
      var rebuilt := proxy.EnsureBaseConfig();
      if rebuilt && proxy.e.acme.dns.Some? && proxy.e.base != "" {
        ghost var b := caddy.cfg;
        proxy.ProvisionTLS("*." + proxy.e.base);
        SameHttp(proxy.e, proxy.trust, b, caddy.cfg);
        forall w ensures Lists(caddy.cfg, "*." + proxy.e.base) && (Lists(b, w) ==> Lists(caddy.cfg, w)) {
          ProvisionedLists(proxy.e, b, "*." + proxy.e.base, w);
        }
      }
    }

    /** The base, then the HTTP routes; `mid` is the tree in between. */
    method SyncBaseAndHTTP(ghost D: set<string>, http: seq<RouteRecord>, wake: Wake)
      returns (ghost mid: Config)
      requires Valid() && proxy.Valid() && Universe(proxy.e.base, D) && HttpManaged(proxy.e, D, caddy.cfg)
      requires ByKey(http, DomainOf).Keys <= D
      modifies caddy, proxy
      ensures proxy.trust == old(proxy.trust) && BaseDone(proxy.e, proxy.trust, old(caddy.cfg), mid)
      ensures WildcardBack(proxy.e, proxy.trust, old(caddy.cfg), mid)
      ensures HttpDone(proxy.e, D, wake, ByKey(http, DomainOf), mid, caddy.cfg)
      ensures old(BaseIntact(proxy.e, proxy.trust, caddy.cfg)
                  && HttpQuiet(wake, ByKey(http, DomainOf), RoutesOf(proxy.e, caddy.cfg)))
        ==> unchanged(caddy)
      ensures caddy.writes >= old(caddy.writes)
    {
      EnsureBase();
      mid := caddy.cfg;
      SyncHTTPRoutes(D, http, wake);
    }

    /** The TLS subjects of the rows and of what is live. */
    method SyncTLS(ghost D: set<string>, db: seq<RouteRecord>, ghost wake: Wake)
      requires Valid() && HttpManaged(proxy.e, D, caddy.cfg) && RowsOk(D, db)
      modifies caddy
      ensures TlsDone(proxy.e, Wanted(db, false).Keys + old(Hosts(RoutesOf(proxy.e, caddy.cfg))),
                      old(caddy.cfg), caddy.cfg)
      ensures old(HttpQuiet(wake, Wanted(db, false), RoutesOf(proxy.e, caddy.cfg))
                  && TlsSettled(proxy.e.acme, Wanted(db, false).Keys, caddy.cfg))
        ==> unchanged(caddy)
      ensures caddy.writes >= old(caddy.writes)
    {
      ghost var rs := RoutesOf(proxy.e, caddy.cfg);
      DbHostsAre(D, db);
      if HttpQuiet(wake, Wanted(db, false), rs) {
        QuietHosts(proxy.e.base, wake, Wanted(db, false), rs);
      }
      SyncTLSSubjects(db, Wanted(db, false).Keys + Hosts(rs));
    }

    /** The layer4 phase, skipped without a layer4 manager. */
    method SyncPassthrough(rows: seq<RouteRecord>)
      requires Valid() && L4Managed(caddy.cfg) && Server(proxy.e, caddy.cfg).Some?
      requires Routable(ByKey(rows, DomainOf))
      modifies this, caddy
      ensures if l4 != null then L4Done(l4.trusted, old(l4Activated), ByKey(rows, DomainOf), old(caddy.cfg), caddy.cfg)
              else caddy.cfg == old(caddy.cfg)
      ensures RoutesOf(proxy.e, caddy.cfg) == old(RoutesOf(proxy.e, caddy.cfg))
      ensures l4Activated == (old(l4Activated) || (l4 != null && IsL4Active(caddy.cfg)))
      ensures l4 == null || old(L4Settled(l4Activated, ByKey(rows, DomainOf), caddy.cfg)) ==> unchanged(caddy)
      ensures caddy.writes >= old(caddy.writes)
    {
      if l4 != null {
        SyncL4Routes(rows);
        L4DoneKeeps(proxy.e, proxy.trust, l4.trusted, old(l4Activated), ByKey(rows, DomainOf),
                    old(caddy.cfg), caddy.cfg);
      }
    }

    /** The four phases of sync, in order. */
    method SyncPhases(ghost D: set<string>, db: seq<RouteRecord>, wake: Wake)
      requires Valid() && proxy.Valid() && Universe(proxy.e.base, D)
      requires Managed(proxy.e, D, caddy.cfg) && RowsOk(D, db)
      modifies this, caddy, proxy
      ensures proxy.trust == old(proxy.trust)
      ensures TickDone(proxy.e, D, proxy.trust, l4 != null, old(l4Activated), wake, db,
                       old(caddy.cfg), caddy.cfg)
      ensures l4Activated == (old(l4Activated) || (l4 != null && IsL4Active(caddy.cfg)))
      ensures old(L4Ok(caddy.cfg)
                  && Settled(proxy.e, proxy.trust, l4 != null, l4Activated, wake, db, caddy.cfg))
        ==> unchanged(caddy)
      ensures caddy.writes >= old(caddy.writes)
    {
      var e := proxy.e;
      RowsAllow(D, db);
      var http, passthrough := Split(db);
      ghost var b := SyncBaseAndHTTP(D, http, wake);
      ghost var c := caddy.cfg;
      SyncPassthrough(passthrough);
      ghost var d := caddy.cfg;
      SyncTLS(D, db, wake);
      PhasesCompose(e, D, proxy.trust, if l4 != null then l4.trusted else [], l4 != null,
                    old(l4Activated), wake, db, old(caddy.cfg), b, c, d, caddy.cfg);
    }

    /** sync: one tick leaves nothing to do, and does nothing when there is nothing to do. */
    method Sync(ghost D: set<string>, db: seq<RouteRecord>, wake: Wake)
      requires Valid() && proxy.Valid() && Universe(proxy.e.base, D)
      requires Managed(proxy.e, D, caddy.cfg) && RowsOk(D, db)
      modifies this, caddy, proxy
      ensures proxy.trust == old(proxy.trust)
      ensures TickDone(proxy.e, D, proxy.trust, l4 != null, old(l4Activated), wake, db,
                       old(caddy.cfg), caddy.cfg)
      ensures Managed(proxy.e, D, caddy.cfg)
      ensures InSync(wake, db) <==> NoneUnwanted(Wanted(db, false), RoutesOf(proxy.e, caddy.cfg))
      ensures OnceUnlessWanted(Wanted(db, false), old(RoutesOf(proxy.e, caddy.cfg))) ==> InSync(wake, db)
      ensures TickServes(wake, Wanted(db, false), old(RoutesOf(proxy.e, caddy.cfg)),
                         RoutesOf(proxy.e, caddy.cfg))
      ensures old(Once(RoutesOf(proxy.e, caddy.cfg))) ==> Healthy(wake, db)
      ensures l4Activated == (old(l4Activated) || (l4 != null && IsL4Active(caddy.cfg)))
      ensures l4 != null && old(l4Activated) ==> IsL4Active(caddy.cfg)
      ensures l4 != null && (exists r :: r in db && r.protocol == "tls_passthrough") ==> IsL4Active(caddy.cfg)
      ensures !old(IsL4Active(caddy.cfg)) && !old(l4Activated)
        && (forall r :: r in db ==> r.protocol != "tls_passthrough")
        ==> !IsL4Active(caddy.cfg)
      ensures old(InSync(wake, db)) ==> unchanged(caddy)
      ensures caddy.writes >= old(caddy.writes)
    {
      ghost var a, latch := caddy.cfg, l4Activated;
      WantedAre(db, true);
      SyncPhases(D, db, wake);
      TickSettles(proxy.e, D, proxy.trust, l4 != null, latch, wake, db, a, caddy.cfg);
      if Once(RoutesOf(proxy.e, a)) {
        RightRows(wake, db, RoutesOf(proxy.e, caddy.cfg));
      }
    }

    /** In sync, no host with two routes, and every host served as the database asks. */
    ghost predicate Healthy(wake: Wake, db: seq<RouteRecord>)
      reads this, caddy, proxy
    {
      && InSync(wake, db) && Once(RoutesOf(proxy.e, caddy.cfg))
      && (forall h :: ServedRight(wake, Wanted(db, false), RoutesOf(proxy.e, caddy.cfg), h))
      && RowsServed(wake, db, RoutesOf(proxy.e, caddy.cfg))
    }

    /** Nothing left to do for these inputs. */
    ghost predicate InSync(wake: Wake, db: seq<RouteRecord>)
      reads this, caddy, proxy
    {
      && L4Ok(caddy.cfg)
      && Settled(proxy.e, proxy.trust, l4 != null, l4Activated, wake, db, caddy.cfg)
    }

    /** One input of the job: a tick, or Caddy losing its whole tree. */
    method Step(ghost D: set<string>, input: Input) returns (quiet: bool)
      requires Valid() && proxy.Valid() && Universe(proxy.e.base, D) && Managed(proxy.e, D, caddy.cfg)
      requires input.Tick? ==> RowsOk(D, input.db)
      modifies this, caddy, proxy
      ensures proxy.trust == old(proxy.trust) && Managed(proxy.e, D, caddy.cfg)
      ensures input.Revert? || old(Once(RoutesOf(proxy.e, caddy.cfg))) ==> Once(RoutesOf(proxy.e, caddy.cfg))
      ensures input.Tick? && old(Once(RoutesOf(proxy.e, caddy.cfg))) ==> Healthy(input.wake, input.db)
      ensures input.Tick? && old(InSync(input.wake, input.db)) ==> quiet
      ensures Turned(proxy.e, input, old(RoutesOf(proxy.e, caddy.cfg)), RoutesOf(proxy.e, caddy.cfg))
    {
      var writes := caddy.writes;
      match input {
        case Tick(db, wake) => Sync(D, db, wake);
        case Revert =>
          caddy.Revert();
          StubManaged(proxy.e, D);
      }
      quiet := caddy.writes == writes;
    }

    /** run: a tick per input, with Caddy losing its whole tree at any moment in between.  `trace`
        is the route list before and after each input.  If the tree began with no host on two
        routes, or was lost once, every tick ends with all its rows served, and a tick that repeats
        the last one's inputs makes no write. */
    method Run(ghost D: set<string>, inputs: seq<Input>)
      returns (quiet: bool, ghost trace: seq<seq<HttpRoute>>)
      requires Valid() && proxy.Valid() && Universe(proxy.e.base, D) && Managed(proxy.e, D, caddy.cfg)
      requires forall i :: 0 <= i < |inputs| && inputs[i].Tick? ==> RowsOk(D, inputs[i].db)
      modifies this, caddy, proxy
      ensures Managed(proxy.e, D, caddy.cfg)
      ensures old(Once(RoutesOf(proxy.e, caddy.cfg))) || Lost(inputs, |inputs|) ==>
        Converged(inputs, |inputs|, quiet)
      ensures Traced(proxy.e, inputs, trace)
      ensures trace[0] == old(RoutesOf(proxy.e, caddy.cfg))
      ensures trace[|inputs|] == RoutesOf(proxy.e, caddy.cfg)
    {
      quiet := false;
      trace := [RoutesOf(proxy.e, caddy.cfg)];
      ghost var once := Once(RoutesOf(proxy.e, caddy.cfg));
      for i := 0 to |inputs|
        invariant proxy.Valid() && Managed(proxy.e, D, caddy.cfg)
        invariant once == (old(Once(RoutesOf(proxy.e, caddy.cfg))) || Lost(inputs, i))
        invariant once ==> Once(RoutesOf(proxy.e, caddy.cfg)) && Converged(inputs, i, quiet)
        invariant |trace| == i + 1 && trace[i] == RoutesOf(proxy.e, caddy.cfg)
        invariant trace[0] == old(RoutesOf(proxy.e, caddy.cfg)) && Traced(proxy.e, inputs[..i], trace)
      {
        quiet := Step(D, inputs[i]);
        TracedSnoc(proxy.e, inputs[..i], trace, inputs[i], RoutesOf(proxy.e, caddy.cfg));
        assert inputs[..i + 1] == inputs[..i] + [inputs[i]];
        trace := trace + [RoutesOf(proxy.e, caddy.cfg)];
        once := once || inputs[i].Revert?;
      }
      assert inputs[..|inputs|] == inputs;
    }

    /** After `i` inputs: the last, if a tick, left all its rows served, and made no write if it
        repeated the one before. */
    ghost predicate Converged(inputs: seq<Input>, i: nat, quiet: bool)
      requires i <= |inputs|
      reads this, caddy, proxy
    {
      && (i > 0 && inputs[i - 1].Tick? ==> Healthy(inputs[i - 1].wake, inputs[i - 1].db))
      && (i > 1 && inputs[i - 1].Tick? && inputs[i - 2] == inputs[i - 1] ==> quiet)
    }
  }

  datatype Input = Tick(db: seq<RouteRecord>, wake: Wake) | Revert

  /** What one input makes of the route list. */
  ghost predicate Turned(e: Edge, input: Input, rs: seq<HttpRoute>, qs: seq<HttpRoute>) {
    match input
    case Tick(db, wake) => SyncedAll(e.base, wake, Wanted(db, false), rs, qs)
    case Revert => qs == []
  }

  ghost predicate Traced(e: Edge, inputs: seq<Input>, trace: seq<seq<HttpRoute>>) {
    |trace| == |inputs| + 1 && forall i :: 0 <= i < |inputs| ==> Turned(e, inputs[i], trace[i], trace[i + 1])
  }

  lemma TracedSnoc(e: Edge, inputs: seq<Input>, trace: seq<seq<HttpRoute>>, input: Input, rs: seq<HttpRoute>)
    requires Traced(e, inputs, trace) && Turned(e, input, trace[|inputs|], rs)
    ensures Traced(e, inputs + [input], trace + [rs])
  {
    var is_, ts := inputs + [input], trace + [rs];
    forall i | 0 <= i < |is_| ensures Turned(e, is_[i], ts[i], ts[i + 1]) {
      if i < |inputs| {
        assert Turned(e, inputs[i], trace[i], trace[i + 1]);
      }
    }
  }

  /** A run of ticks with unchanged inputs, hosts on several routes included: from the first tick
      on a host with a row keeps its routes, so it is served right then or never; a host without
      one loses at least a route with every tick. */
  lemma UnchangedInputs(e: Edge, inputs: seq<Input>, trace: seq<seq<HttpRoute>>, db: seq<RouteRecord>,
                        wake: Wake, h: string)
    requires Traced(e, inputs, trace) && inputs != []
    requires forall i :: 0 <= i < |inputs| ==> inputs[i] == Tick(db, wake)
    ensures var n, want := |inputs|, Wanted(db, false);
      && (h in want ==> Of(trace[n], h) == Of(trace[1], h)
                        && (Heals(wake, want, h, Of(trace[0], h)) ==> ServedRight(wake, want, trace[n], h)))
      && (h !in want ==> |Of(trace[n], h)| <= if n < |Of(trace[0], h)| then |Of(trace[0], h)| - n else 0)
  {
    var n, want := |inputs|, Wanted(db, false);
    var ps := seq(n + 1, i requires 0 <= i < n + 1 => Of(trace[i], h));
    forall i | 0 <= i < n ensures Syncs(e.base, wake, want, h, ps[i], ps[i + 1]) {
      assert Turned(e, inputs[i], trace[i], trace[i + 1]);
    }
    RepeatedTicks(e.base, wake, want, h, ps, n);
    if h in want && Heals(wake, want, h, ps[0]) {
      assert Syncs(e.base, wake, want, h, ps[0], ps[0 + 1]);
      HealsSuffices(e.base, wake, want, h, ps[0], ps[1]);
      RightIsServed(wake, want, trace[n], h);
    }
  }

  predicate Lost(inputs: seq<Input>, i: nat)
    requires i <= |inputs|
  {
    exists k :: 0 <= k < i && inputs[k].Revert?
  }

  lemma StubManaged(e: Edge, D: set<string>)
    ensures Managed(e, D, STUB) && Once(RoutesOf(e, STUB))
  {
  }

  ghost predicate Unique(db: seq<RouteRecord>) {
    forall r, q :: r in db && q in db && r.fullDomain == q.fullDomain ==> r == q
  }

  /** The row's host is served where it should be, over HTTP/2 without TLS exactly for gRPC. */
  ghost predicate ServedAtRow(wake: Wake, rs: seq<HttpRoute>, r: RouteRecord) {
    var route := Find(rs, r.fullDomain);
    && route.Some? && AtRow(wake, r, View(route.value))
    && (r.protocol == "grpc" ==> route.value.h2) && (r.protocol == "http" ==> !route.value.h2)
  }

  /** Every HTTP and gRPC row of a table with one row per host is served so. */
  ghost predicate RowsServed(wake: Wake, db: seq<RouteRecord>, rs: seq<HttpRoute>) {
    Unique(db) ==> forall r :: r in db && r.protocol != PASSTHROUGH ==> ServedAtRow(wake, rs, r)
  }

  lemma RightRows(wake: Wake, db: seq<RouteRecord>, rs: seq<HttpRoute>)
    requires forall h :: ServedRight(wake, Wanted(db, false), rs, h)
    ensures RowsServed(wake, db, rs)
  {
    WantedAre(db, false);
    if Unique(db) {
      forall r | r in db && r.protocol != PASSTHROUGH ensures ServedAtRow(wake, rs, r) {
        assert Wanted(db, false)[r.fullDomain] == r;
        assert ServedRight(wake, Wanted(db, false), rs, r.fullDomain);
        RightIsAtRow(wake, r, View(Find(rs, r.fullDomain).value));
      }
    }
  }

  /** What being in sync means row by row, for a table with one row per host: an HTTP or gRPC
      host is served at the wake handler while its container is in wake mode, else at the row's
      target, with the row's protocol, and covered by a subject whose policy needs no repair; a
      connection for a passthrough host is dispatched to the row's target. */
  lemma RowServed(e: Edge, D: set<string>, t: Trust, latch: bool, wake: Wake,
                  db: seq<RouteRecord>, cfg: Config, r: RouteRecord)
    requires Managed(e, D, cfg) && Settled(e, t, true, latch, wake, db, cfg) && Once(RoutesOf(e, cfg))
    requires Unique(db) && r in db
    ensures r.protocol != PASSTHROUGH ==>
      && ServedAtRow(wake, RoutesOf(e, cfg), r)
      && (r.fullDomain != "" ==> cfg.tls.Some? && Held(e.acme, cfg.tls.value, r.fullDomain))
    ensures r.protocol == PASSTHROUGH ==>
      && IsL4Active(cfg)
      && Dispatch(L4Of(cfg).value.routes, r.fullDomain) == Some(FormatDial(r.targetIP, r.targetPort))
  {
    if r.protocol == PASSTHROUGH {
      SniRowServed(latch, db, cfg, r);
    } else {
      HttpRowServed(wake, db, RoutesOf(e, cfg), r);
      assert r.fullDomain in Wanted(db, false).Keys;
    }
  }

  lemma HttpRowServed(wake: Wake, db: seq<RouteRecord>, rs: seq<HttpRoute>, r: RouteRecord)
    requires HttpQuiet(wake, Wanted(db, false), rs) && Once(rs)
    requires Unique(db) && r in db && r.protocol != PASSTHROUGH
    ensures r.fullDomain in Wanted(db, false) && ServedAtRow(wake, rs, r)
  {
    WantedAre(db, false);
    var want, p := Wanted(db, false), Of(rs, r.fullDomain);
    assert want[r.fullDomain] == r;
    assert QuietAt(wake, want, r.fullDomain, p) && |p| <= 1;
    FindIsFirst(rs, r.fullDomain);
    RightIsAtRow(wake, r, View(p[0]));
  }

  lemma SniRowServed(latch: bool, db: seq<RouteRecord>, cfg: Config, r: RouteRecord)
    requires L4Ok(cfg) && L4Settled(latch, Wanted(db, true), cfg)
    requires Unique(db) && r in db && r.protocol == PASSTHROUGH
    ensures IsL4Active(cfg)
    ensures Dispatch(L4Of(cfg).value.routes, r.fullDomain) == Some(FormatDial(r.targetIP, r.targetPort))
  {
    WantedAre(db, true);
    assert r.fullDomain in Wanted(db, true) && Wanted(db, true)[r.fullDomain] == r;
    DispatchIsMap(cfg, r.fullDomain);
  }

  /** And nothing else: a host without an HTTP row has no HTTP route, and an SNI without a
      passthrough row falls through to the HTTP server. */
  lemma NothingElseServed(e: Edge, D: set<string>, t: Trust, latch: bool, wake: Wake,
                          db: seq<RouteRecord>, cfg: Config, h: string)
    requires Managed(e, D, cfg) && Settled(e, t, true, latch, wake, db, cfg)
    ensures (forall r :: r in db && r.protocol != PASSTHROUGH ==> r.fullDomain != h) ==>
      Find(RoutesOf(e, cfg), h).None?
    ensures (forall r :: r in db && r.protocol == PASSTHROUGH ==> r.fullDomain != h) && IsL4Active(cfg) ==>
      Dispatch(L4Of(cfg).value.routes, h) == Some(FALLBACK_DIAL)
  {
    WantedAre(db, false);
    WantedAre(db, true);
    assert QuietAt(wake, Wanted(db, false), h, Of(RoutesOf(e, cfg), h));
    FindIsFirst(RoutesOf(e, cfg), h);
    if IsL4Active(cfg) {
      DispatchIsMap(cfg, h);
    }
  }

  lemma DbHostsAre(D: set<string>, db: seq<RouteRecord>)
    requires RowsOk(D, db)
    ensures DbHosts(db) == Wanted(db, false).Keys
  {
    WantedAre(db, false);
    var m := Wanted(db, false);
    forall h | h in m ensures h in DbHosts(db) {
      assert m[h] in db;
    }
  }

  lemma SameHttp(e: Edge, t: Trust, a: Config, b: Config)
    requires a.http == b.http
    ensures BaseIntact(e, t, b) == BaseIntact(e, t, a) && RoutesOf(e, b) == RoutesOf(e, a)
    ensures a.layer4 == b.layer4 && NoClash(a) ==> NoClash(b)
  {
  }

  // ---- what each phase leaves ----

  ghost predicate BaseDone(e: Edge, t: Trust, a: Config, b: Config) {
    && BaseIntact(e, t, b) && RoutesOf(e, b) == RoutesOf(e, a) && b.layer4 == a.layer4
    && (NoClash(a) && e.byoc != HTTPS ==> NoClash(b)) && KeepsWildcards(a, b)
    && (Expects443(e, a) ==> On443(b))
  }

  /** Some HTTP server listens on 443, or the edge server is missing and will. */
  ghost predicate Expects443(e: Edge, cfg: Config) { !IsL4Active(cfg) && (On443(cfg) || Server(e, cfg).None?) }

  /** After a rebuild with DNS-01 configured the cluster's wildcard is a subject again. */
  ghost predicate WildcardBack(e: Edge, t: Trust, a: Config, b: Config) {
    !BaseIntact(e, t, a) && e.acme.dns.Some? && e.base != "" ==> Lists(b, "*." + e.base)
  }

  lemma BaseExpects443(e: Edge, t: Trust, a: Config)
    requires Expects443(e, a)
    ensures On443(BaseEnsured(e, t, a))
  {
    var b := BaseEnsured(e, t, a);
    if Server(e, a).None? {
      EnsuredListens(e, a);
      TrustKeeps(e, t, ServerEnsured(e, a));
      assert ":443" in b.http.value[e.server].listen;
    } else {
      BaseEnsuredIntact(e, t, a);
      var n :| n in a.http.value && ":443" in a.http.value[n].listen;
      assert n in b.http.value && ":443" in b.http.value[n].listen;
    }
  }

  lemma BaseEnsuredDone(e: Edge, t: Trust, a: Config)
    ensures BaseDone(e, t, a, BaseEnsured(e, t, a))
  {
    if Expects443(e, a) {
      BaseExpects443(e, t, a);
    }
    BaseKeepsWildcards(e, t, a);
    BaseEnsuredIntact(e, t, a);
    if NoClash(a) && e.byoc != HTTPS {
      BaseNoClash(e, t, a);
    }
  }

  lemma BaseKeepsWildcards(e: Edge, t: Trust, a: Config)
    ensures KeepsWildcards(a, BaseEnsured(e, t, a))
  {
    assert a.tls.Some? ==> BaseEnsured(e, t, a).tls == a.tls;
  }

  lemma BaseNoClash(e: Edge, t: Trust, a: Config)
    requires NoClash(a) && e.byoc != HTTPS
    ensures NoClash(BaseEnsured(e, t, a))
  {
    if !BaseIntact(e, t, a) {
      EnsuredNoClash(e, a);
      var c := ServerEnsured(e, a);
      assert Server(e, c).Some?;
      TrustKeeps(e, t, c);
    }
  }

  lemma FrameKeeps(e: Edge, t: Trust, a: Config, b: Config)
    requires SameFrame(e, a, b)
    ensures BaseIntact(e, t, b) == BaseIntact(e, t, a)
    ensures NoClash(a) ==> NoClash(b)
  {
  }

  lemma L4DoneKeeps(e: Edge, t: Trust, trusted: seq<string>, latch: bool,
                    want: map<string, RouteRecord>, a: Config, b: Config)
    requires L4Done(trusted, latch, want, a, b) && Server(e, a).Some?
    ensures BaseIntact(e, t, b) == BaseIntact(e, t, a) && RoutesOf(e, b) == RoutesOf(e, a)
    ensures NoClash(a) ==> NoClash(b)
  {
    var up := Activated(a, trusted);
    assert up.http.Some? && RoutesOf(e, up) == RoutesOf(e, a);
    assert BaseIntact(e, t, up) == BaseIntact(e, t, a);
    if NoClash(a) {
      ActivatedNoClash(a, trusted);
      assert IsL4Active(up);
    }
  }

  /** What a tick does to layer4: brought up or kept up as needed, with exactly the wanted
      passthrough table; left alone without a manager. */
  ghost predicate L4Ticked(passthrough: bool, latch: bool, want: map<string, RouteRecord>,
                           a: Config, b: Config)
    requires L4Ok(a)
  {
    var up := IsL4Active(a) || (passthrough && (latch || want != map[]));
    && L4Managed(b) && IsL4Active(b) == up
    && Upstreams(b) == (if passthrough && up then Dials(want) else Upstreams(a))
    && (passthrough ==> L4Settled(latch || up, want, b))
  }

  /** What a tick does to the HTTP side: each host's routes kept where they looked right, pushed
      where they did not, removed where not wanted; every live host is held by a subject, and a
      host that is gone has none. */
  ghost predicate HttpTicked(e: Edge, D: set<string>, t: Trust, wake: Wake,
                             want: map<string, RouteRecord>, a: Config, b: Config)
  {
    var rs, qs := RoutesOf(e, a), RoutesOf(e, b);
    && BaseIntact(e, t, b) && HttpManaged(e, D, b)
    && SyncedAll(e.base, wake, want, rs, qs)
    && TlsSettled(e.acme, want.Keys + Hosts(qs), b)
    && forall h :: Of(rs, h) != [] && Of(qs, h) == [] && !Wildcarded(h) ==> Unlisted(b, h)
  }

  ghost predicate TickDone(e: Edge, D: set<string>, t: Trust, passthrough: bool, latch: bool,
                           wake: Wake, db: seq<RouteRecord>, a: Config, b: Config)
    requires L4Ok(a)
  {
    && HttpTicked(e, D, t, wake, Wanted(db, false), a, b)
    && L4Ticked(passthrough, latch, Wanted(db, true), a, b)
    && (NoClash(a) && e.byoc != HTTPS ==> NoClash(b))
    && KeepsWildcards(a, b) && WildcardBack(e, t, a, b)
    && (Expects443(e, a) && IsL4Active(b) ==> Terminated(b, FALLBACK_DIAL))
  }

  lemma L4Composes(passthrough: bool, trusted: seq<string>, latch: bool, want: map<string, RouteRecord>,
                   a: Config, c: Config, d: Config, f: Config)
    requires L4Managed(a) && c.layer4 == a.layer4 && f.layer4 == d.layer4
    requires if passthrough then L4Done(trusted, latch, want, c, d) else d == c
    ensures L4Ticked(passthrough, latch, want, a, f)
  {
    assert L4Of(c) == L4Of(a) && L4Of(f) == L4Of(d);
  }

  /** The four phases make up a tick. */
  lemma PhasesCompose(e: Edge, D: set<string>, t: Trust, trusted: seq<string>, passthrough: bool,
                      latch: bool, wake: Wake, db: seq<RouteRecord>,
                      a: Config, b: Config, c: Config, d: Config, f: Config)
    requires Managed(e, D, a) && BaseDone(e, t, a, b)
    requires HttpDone(e, D, wake, Wanted(db, false), b, c)
    requires if passthrough then L4Done(trusted, latch, Wanted(db, true), c, d) else d == c
    requires TlsDone(e, Wanted(db, false).Keys + Hosts(RoutesOf(e, c)), d, f)
    requires WildcardBack(e, t, a, b)
    ensures TickDone(e, D, t, passthrough, latch, wake, db, a, f)
  {
    FrameKeeps(e, t, b, c);
    WildcardsCompose(e, t, a, b, c, d, f);
    if Expects443(e, a) && IsL4Active(f) {
      TerminationComposes(e, trusted, passthrough, latch, Wanted(db, true), b, c, d, f);
    }
    if passthrough {
      L4DoneKeeps(e, t, trusted, latch, Wanted(db, true), c, d);
    }
    SameHttp(e, t, d, f);
    HttpComposes(e, D, t, wake, Wanted(db, false), a, b, c, d, f);
    L4Composes(passthrough, trusted, latch, Wanted(db, true), a, c, d, f);
  }

  lemma WildcardsCompose(e: Edge, t: Trust, a: Config, b: Config, c: Config, d: Config, f: Config)
    requires WildcardBack(e, t, a, b) && d.tls == c.tls
    requires KeepsWildcards(a, b) && KeepsWildcards(b, c) && KeepsWildcards(d, f)
    ensures KeepsWildcards(a, f) && WildcardBack(e, t, a, f)
  {
    assert Wildcarded("*." + e.base);
    assert forall w :: Lists(c, w) ==> Lists(d, w);
  }

  lemma TerminationComposes(e: Edge, trusted: seq<string>, passthrough: bool, latch: bool,
                            want: map<string, RouteRecord>, b: Config, c: Config, d: Config, f: Config)
    requires On443(b) && !IsL4Active(b) && SameFrame(e, b, c) && IsL4Active(f)
    requires if passthrough then L4Done(trusted, latch, want, c, d) else d == c
    requires f.http == d.http && f.layer4 == d.layer4
    ensures Terminated(f, FALLBACK_DIAL)
  {
    var n :| n in b.http.value && ":443" in b.http.value[n].listen;
    assert n in c.http.value && ":443" in c.http.value[n].listen;
    assert L4Of(c) == L4Of(b) && L4Of(f) == L4Of(d);
    ActivatedTerminates(c, trusted);
    SameHttpTerminates(Activated(c, trusted), f, FALLBACK_DIAL);
  }

  lemma HttpComposes(e: Edge, D: set<string>, t: Trust, wake: Wake, want: map<string, RouteRecord>,
                     a: Config, b: Config, c: Config, d: Config, f: Config)
    requires BaseDone(e, t, a, b) && HttpDone(e, D, wake, want, b, c)
    requires BaseIntact(e, t, f) && RoutesOf(e, f) == RoutesOf(e, c) && d.tls == c.tls
    requires TlsDone(e, want.Keys + Hosts(RoutesOf(e, c)), d, f)
    ensures HttpTicked(e, D, t, wake, want, a, f)
  {
    var rs, qs := RoutesOf(e, a), RoutesOf(e, c);
    forall h | Of(rs, h) != [] && Of(qs, h) == [] && !Wildcarded(h) ensures Unlisted(f, h) {
      assert Syncs(e.base, wake, want, h, Of(rs, h), Of(qs, h));
      assert h !in want;
      HostsAre(e.base, qs, h);
      assert Unlisted(c, h) && Unlisted(d, h);
    }
  }

  /** Every host that heals is served right after a tick. */
  ghost predicate TickServes(wake: Wake, want: map<string, RouteRecord>,
                             rs: seq<HttpRoute>, qs: seq<HttpRoute>)
  {
    forall h :: Heals(wake, want, h, Of(rs, h)) ==> ServedRight(wake, want, qs, h)
  }

  /** After a tick nothing is left to do exactly when no host without a row has a route left, as
      when none had several before; and every host that heals is served right. */
  lemma TickSettles(e: Edge, D: set<string>, t: Trust, passthrough: bool, latch: bool,
                    wake: Wake, db: seq<RouteRecord>, a: Config, b: Config)
    requires L4Ok(a) && TickDone(e, D, t, passthrough, latch, wake, db, a, b)
    ensures Managed(e, D, b)
    ensures Settled(e, t, passthrough, latch || IsL4Active(b), wake, db, b)
            <==> NoneUnwanted(Wanted(db, false), RoutesOf(e, b))
    ensures OnceUnlessWanted(Wanted(db, false), RoutesOf(e, a)) ==>
      NoneUnwanted(Wanted(db, false), RoutesOf(e, b))
    ensures TickServes(wake, Wanted(db, false), RoutesOf(e, a), RoutesOf(e, b))
    ensures Once(RoutesOf(e, a)) ==>
      Once(RoutesOf(e, b)) && forall h :: ServedRight(wake, Wanted(db, false), RoutesOf(e, b), h)
  {
    var want, rs, qs := Wanted(db, false), RoutesOf(e, a), RoutesOf(e, b);
    SyncedQuiet(e.base, wake, want, rs, qs);
    forall h
      ensures Heals(wake, want, h, Of(rs, h)) ==> ServedRight(wake, want, qs, h)
      ensures |Of(rs, h)| <= 1 ==> Heals(wake, want, h, Of(rs, h))
    {
      assert Syncs(e.base, wake, want, h, Of(rs, h), Of(qs, h));
      if Heals(wake, want, h, Of(rs, h)) {
        HealsSuffices(e.base, wake, want, h, Of(rs, h), Of(qs, h));
      }
      RightIsServed(wake, want, qs, h);
    }
  }

  ghost predicate ListsSnis(live: map<string, L4.Entry>, t: map<string, string>) {
    && live.Keys == t.Keys
    && forall s :: s in t ==> Canonical(t[s]) && Stands(live[s], s, t[s])
  }

  /** Where the first loop stands; without a server every request fails. */
  ghost predicate PushState(e: Edge, D: set<string>, wake: Wake, want: map<string, RouteRecord>,
                            todo: set<string>, a: Config, b: Config)
  {
    if Server(e, a).None? then b == a
    else HttpManaged(e, D, b) && SameFrame(e, a, b)
         && PushedBut(e.base, wake, want, todo, RoutesOf(e, a), RoutesOf(e, b))
  }

  lemma PushStart(e: Edge, D: set<string>, wake: Wake, want: map<string, RouteRecord>, a: Config)
    requires HttpManaged(e, D, a)
    ensures PushState(e, D, wake, want, want.Keys, a, a)
  {
  }

  /** A host still to do has its routes as they were listed. */
  lemma PushReads(e: Edge, D: set<string>, wake: Wake, want: map<string, RouteRecord>, todo: set<string>,
                  a: Config, b: Config, d: string, live: map<string, Listed>)
    requires HttpManaged(e, D, a) && PushState(e, D, wake, want, todo, a, b) && d in todo
    requires forall h :: ListsLast(live, RoutesOf(e, a), h)
    ensures HttpManaged(e, D, b) && Of(RoutesOf(e, b), d) == Of(RoutesOf(e, a), d)
    ensures ListsLast(live, RoutesOf(e, b), d)
  {
    assert ListsLast(live, RoutesOf(e, a), d);
  }

  lemma PushStep(e: Edge, D: set<string>, wake: Wake, want: map<string, RouteRecord>, todo: set<string>,
                 a: Config, b: Config, c: Config, d: string)
    requires PushState(e, D, wake, want, todo, a, b) && d in todo && d in want && HttpManaged(e, D, b)
    requires Edits(e, D, b, c, d)
    requires Server(e, b).Some? ==>
      Pushes(e.base, wake, want[d], Of(RoutesOf(e, b), d), Of(RoutesOf(e, c), d))
    ensures PushState(e, D, wake, want, todo - {d}, a, c)
  {
    if Server(e, a).Some? {
      assert Of(RoutesOf(e, b), d) == Of(RoutesOf(e, a), d);
      FrameTrans(e, a, b, c);
      PushedStep(e.base, wake, want, todo, RoutesOf(e, a), RoutesOf(e, b), RoutesOf(e, c), d);
    }
  }

  lemma EditsNothing(e: Edge, D: set<string>, b: Config, d: string)
    requires HttpManaged(e, D, b)
    ensures Edits(e, D, b, b, d)
  {
  }

  ghost predicate PruneState(e: Edge, D: set<string>, stale: set<string>, todo: set<string>,
                             a: Config, b: Config)
  {
    && Server(e, a).Some? && HttpManaged(e, D, b) && SameFrame(e, a, b)
    && PrunedBut(stale, todo, RoutesOf(e, a), RoutesOf(e, b))
  }

  lemma PruneStep(e: Edge, D: set<string>, stale: set<string>, todo: set<string>,
                  a: Config, b: Config, c: Config, d: string)
    requires PruneState(e, D, stale, todo, a, b) && d in todo && d in stale
    requires Edits(e, D, b, c, d) && Shortens(Of(RoutesOf(e, b), d), Of(RoutesOf(e, c), d))
    ensures PruneState(e, D, stale, todo - {d}, a, c)
  {
    assert Of(RoutesOf(e, b), d) == Of(RoutesOf(e, a), d);
    FrameTrans(e, a, b, c);
    PrunedStep(stale, todo, RoutesOf(e, a), RoutesOf(e, b), RoutesOf(e, c), d);
  }

  lemma TlsEdits(e: Edge, D: set<string>, a: Config, b: Config, c: Config, d: string)
    requires Server(e, a).Some? && Edits(e, D, a, b, d) && c.http == b.http && c.layer4 == b.layer4
    ensures Edits(e, D, a, c, d) && RoutesOf(e, c) == RoutesOf(e, b)
  {
    assert Server(e, c) == Server(e, b) && RoutesOf(e, c) == RoutesOf(e, b);
  }

  /** What the HTTP phase leaves: every host's routes as one tick makes them, nothing but routes
      and TLS changed, and no subject for a host that had routes and has no row.  Without a
      server nothing changes. */
  ghost predicate HttpDone(e: Edge, D: set<string>, wake: Wake, want: map<string, RouteRecord>,
                           a: Config, b: Config)
  {
    if Server(e, a).None? then b == a
    else
      && HttpManaged(e, D, b) && SameFrame(e, a, b) && KeepsWildcards(a, b)
      && SyncedAll(e.base, wake, want, RoutesOf(e, a), RoutesOf(e, b))
      && forall h :: Of(RoutesOf(e, a), h) != [] && h !in want && !Wildcarded(h) ==> Unlisted(b, h)
  }

  lemma StaleAre(e: Edge, D: set<string>, wake: Wake, want: map<string, RouteRecord>,
                 live: map<string, Listed>, a: Config)
    requires HttpManaged(e, D, a) && forall h :: ListsLast(live, RoutesOf(e, a), h)
    ensures forall h :: h in live.Keys - want.Keys <==> Of(RoutesOf(e, a), h) != [] && h !in want
    ensures live.Keys - want.Keys <= D
    ensures Server(e, a).None? ==> live.Keys - want.Keys == {}
    ensures HttpQuiet(wake, want, RoutesOf(e, a)) ==> live.Keys - want.Keys == {}
  {
    var rs := RoutesOf(e, a);
    forall h ensures h in live <==> Of(rs, h) != [] {
      assert ListsLast(live, rs, h);
    }
    forall h | h in live.Keys - want.Keys ensures h in D {
      HostsAre(e.base, rs, h);
    }
    assert HttpQuiet(wake, want, rs) ==> forall h :: QuietAt(wake, want, h, Of(rs, h));
  }

  lemma HttpPhase(e: Edge, D: set<string>, wake: Wake, want: map<string, RouteRecord>, stale: set<string>,
                  a: Config, b: Config, c: Config)
    requires PushState(e, D, wake, want, {}, a, b)
    requires forall h :: h in stale <==> Of(RoutesOf(e, a), h) != [] && h !in want
    requires if Server(e, b).None? then c == b else PruneState(e, D, stale, {}, b, c)
    requires forall h :: h in stale && !Wildcarded(h) ==> Unlisted(c, h)
    requires KeepsWildcards(a, b) && KeepsWildcards(b, c)
    ensures HttpDone(e, D, wake, want, a, c)
  {
    if Server(e, a).Some? {
      FrameTrans(e, a, b, c);
      PushedThenPruned(e.base, wake, want, stale, RoutesOf(e, a), RoutesOf(e, b), RoutesOf(e, c));
    }
  }

  ghost predicate L4Done(trusted: seq<string>, latch: bool, want: map<string, RouteRecord>,
                         a: Config, b: Config)
  {
    var up := IsL4Active(a) || latch || want != map[];
    && L4Managed(b) && IsL4Active(b) == up && (up ==> Upstreams(b) == Dials(want))
    && b.http == (if up then Activated(a, trusted) else a).http && b.tls == a.tls
  }

  ghost predicate TlsDone(e: Edge, hosts: set<string>, a: Config, b: Config) {
    && b.http == a.http && b.layer4 == a.layer4 && TlsSettled(e.acme, hosts, b) && KeepsWildcards(a, b)
    && forall h :: h !in hosts && Unlisted(a, h) ==> Unlisted(b, h)
  }

  lemma EnsuredDone(e: Edge, c: Config, b: Config, ds: seq<string>, hosts: set<string>)
    requires b == TlsEnsured(e, c, ds) && forall h :: h in ds <==> h in hosts && h != ""
    ensures TlsDone(e, hosts, c, b)
    ensures TlsSettled(e.acme, hosts, c) ==> b == c
  {
    EnsuredSettles(e, c, ds, hosts);
    forall h | h !in hosts && Unlisted(c, h) ensures Unlisted(b, h) {
      EnsuredUnlists(e, c, ds, h);
    }
    forall w ensures Lists(c, w) ==> Lists(b, w) {
      EnsuredLists(e, c, ds, w);
    }
  }

  lemma AddedKeeps(e: Edge, cfg: Config, d: string, u: Upstream)
    ensures KeepsWildcards(cfg, RouteAdded(e, cfg, d, u))
  {
    forall w ensures Lists(cfg, w) ==> Lists(RouteAdded(e, cfg, d, u), w) {
      AddedLists(e, cfg, d, u, w);
    }
  }

  /** The address and port compare equal exactly when the dial address is the wanted one. */
  lemma SameTarget(live: map<string, L4.Entry>, t: map<string, string>, s: string, r: RouteRecord)
    requires ListsSnis(live, t) && r.targetPort >= 0
    ensures s in live && live[s].ip == r.targetIP && live[s].port == r.targetPort
      <==> s in t && t[s] == DialFor(r)
  {
    PrintedIsCanonical(r.targetIP, r.targetPort);
    assert s in t ==> Canonical(t[s]) && Stands(live[s], s, t[s]);
  }

  lemma LiveHostsAre(base: string, rs: seq<HttpRoute>)
    requires Tidy(base, rs)
    ensures LiveHosts(Listing(rs)) == Hosts(rs)
  {
    ByKeyIs(Listing(rs), HostOf);
    forall h ensures h in LiveHosts(Listing(rs)) <==> h in Hosts(rs) {
      ListingIsLast(base, rs, h);
      HostsAre(base, rs, h);
      if h in LiveHosts(Listing(rs)) {
        var l :| l in Listing(rs) && l.host == h;
        assert HostOf(l) in ByKey(Listing(rs), HostOf);
      }
      if h in Hosts(rs) {
        assert HostOf(ByKey(Listing(rs), HostOf)[h]) == h;
      }
    }
  }

  /** A quiet list serves no host without a row. */
  lemma QuietHosts(base: string, wake: Wake, want: map<string, RouteRecord>, rs: seq<HttpRoute>)
    requires Tidy(base, rs) && HttpQuiet(wake, want, rs)
    ensures want.Keys + Hosts(rs) == want.Keys
  {
    forall h | h in Hosts(rs) ensures h in want {
      HostsAre(base, rs, h);
      assert QuietAt(wake, want, h, Of(rs, h));
    }
  }
}
