/** What one tick of the route sync does: the database's rows, the HTTP diff host by host, the
    layer4 diff on the passthrough table, and the TLS subjects (internal/app/route_sync.go). */
module RouteDiff {
  import opened Wrappers
  import opened CaddyConfig
  import opened Layer4
  import opened TlsSubjects
  import opened EdgeBase
  import opened EdgeManager
  import opened HttpRoutes
  import opened RouteTables

  const PASSTHROUGH := "tls_passthrough"

  datatype RouteRecord = RouteRecord(
    fullDomain: string, targetIP: string, targetPort: int, protocol: string,
    containerName: string, active: bool)

  /** Containers in wake mode, with the wake handler's address.  Empty without a tracker. */
  type Wake = map<string, (string, int)>

  function EffectiveUpstream(wake: Wake, r: RouteRecord): (string, int) {
    if r.containerName != "" && r.containerName in wake then wake[r.containerName]
    else (r.targetIP, r.targetPort)
  }

  /** What addRouteToCaddy and updateRouteInCaddy push. */
  function Desired(wake: Wake, r: RouteRecord): Upstream {
    var (ip, port) := EffectiveUpstream(wake, r);
    Upstream(ip, port, r.protocol == "grpc")
  }

  predicate NeedsUpdate(wake: Wake, r: RouteRecord, v: Upstream) {
    var (ip, port) := EffectiveUpstream(wake, r);
    || ip != v.ip
    || port != v.port
    || (r.protocol == "grpc" && !v.grpc)
    || (r.protocol == "http" && v.grpc)
  }

  function DomainOf(r: RouteRecord): string { r.fullDomain }

  /** The rows of one kind, in order. */
  function Rows(db: seq<RouteRecord>, passthrough: bool): seq<RouteRecord> {
    if db == [] then []
    else
      var before, r := Rows(db[..|db| - 1], passthrough), db[|db| - 1];
      if (r.protocol == PASSTHROUGH) == passthrough then before + [r] else before
  }

  function Wanted(db: seq<RouteRecord>, passthrough: bool): map<string, RouteRecord> {
    ByKey(Rows(db, passthrough), DomainOf)
  }

  lemma {:induction false} RowsAre(db: seq<RouteRecord>, passthrough: bool)
    ensures forall r :: r in Rows(db, passthrough) <==> r in db && (r.protocol == PASSTHROUGH) == passthrough
  {
    if db != [] {
      var before := db[..|db| - 1];
      RowsAre(before, passthrough);
      assert db == before + [db[|db| - 1]];
    }
  }

  lemma WantedAre(db: seq<RouteRecord>, passthrough: bool)
    ensures var m := Wanted(db, passthrough);
      && (forall h :: h in m ==> m[h] in db && m[h].fullDomain == h && (m[h].protocol == PASSTHROUGH) == passthrough)
      && (forall r :: r in db && (r.protocol == PASSTHROUGH) == passthrough ==> r.fullDomain in m)
  {
    RowsAre(db, passthrough);
    var rows := Rows(db, passthrough);
    ByKeyIs(rows, DomainOf);
    var m := Wanted(db, passthrough);
    forall h | h in m
      ensures m[h] in db && m[h].fullDomain == h && (m[h].protocol == PASSTHROUGH) == passthrough
    {
      assert m[h] in rows && DomainOf(m[h]) == h;
    }
    forall r | r in db && (r.protocol == PASSTHROUGH) == passthrough ensures r.fullDomain in m {
      assert r in rows && DomainOf(r) == r.fullDomain;
    }
  }

  // ---- the HTTP diff, host by host ----

  function Fresh(base: string, wake: Wake, r: RouteRecord): HttpRoute {
    RouteFor(base, r.fullDomain, Desired(wake, r))
  }

  /** A wanted host's routes through the first loop, which looks at the last one. */
  ghost predicate Pushes(base: string, wake: Wake, r: RouteRecord, p: seq<HttpRoute>, q: seq<HttpRoute>) {
    if p == [] then q == [Fresh(base, wake, r)]
    else if NeedsUpdate(wake, r, View(LastOf(p))) then Replaces(p, q, Fresh(base, wake, r))
    else q == p
  }

  /** A host's routes through the tick: a host without a row loses one or more. */
  ghost predicate Syncs(base: string, wake: Wake, want: map<string, RouteRecord>, h: string,
                        p: seq<HttpRoute>, q: seq<HttpRoute>)
  {
    if h in want then Pushes(base, wake, want[h], p, q) else Shortens(p, q)
  }

  ghost predicate Indexed(want: map<string, RouteRecord>) {
    forall h :: h in want ==> want[h].fullDomain == h
  }

  /** The first loop is done, but for the hosts in `todo`. */
  ghost predicate PushedBut(base: string, wake: Wake, want: map<string, RouteRecord>, todo: set<string>,
                            rs: seq<HttpRoute>, qs: seq<HttpRoute>)
  {
    forall h :: if h in want && h !in todo then Pushes(base, wake, want[h], Of(rs, h), Of(qs, h))
                else Of(qs, h) == Of(rs, h)
  }

  /** The second loop is done, but for the hosts in `todo`. */
  ghost predicate PrunedBut(stale: set<string>, todo: set<string>, rs: seq<HttpRoute>, qs: seq<HttpRoute>) {
    forall h :: if h in stale && h !in todo then Shortens(Of(rs, h), Of(qs, h)) else Of(qs, h) == Of(rs, h)
  }

  ghost predicate SyncedAll(base: string, wake: Wake, want: map<string, RouteRecord>,
                            rs: seq<HttpRoute>, qs: seq<HttpRoute>)
  {
    forall h :: Syncs(base, wake, want, h, Of(rs, h), Of(qs, h))
  }

  lemma PushedStep(base: string, wake: Wake, want: map<string, RouteRecord>, todo: set<string>,
                   rs: seq<HttpRoute>, qs: seq<HttpRoute>, qs': seq<HttpRoute>, d: string)
    requires PushedBut(base, wake, want, todo, rs, qs) && d in todo && d in want
    requires Changes(qs, qs', d) && Pushes(base, wake, want[d], Of(rs, d), Of(qs', d))
    ensures PushedBut(base, wake, want, todo - {d}, rs, qs')
  {
    forall h ensures
      if h in want && h !in todo - {d} then Pushes(base, wake, want[h], Of(rs, h), Of(qs', h))
      else Of(qs', h) == Of(rs, h)
    {
      assert h != d ==> Of(qs', h) == Of(qs, h);
    }
  }

  lemma PrunedStep(stale: set<string>, todo: set<string>, rs: seq<HttpRoute>, qs: seq<HttpRoute>,
                   qs': seq<HttpRoute>, d: string)
    requires PrunedBut(stale, todo, rs, qs) && d in todo && d in stale
    requires Changes(qs, qs', d) && Shortens(Of(rs, d), Of(qs', d))
    ensures PrunedBut(stale, todo - {d}, rs, qs')
  {
    forall h ensures
      if h in stale && h !in todo - {d} then Shortens(Of(rs, h), Of(qs', h)) else Of(qs', h) == Of(rs, h)
    {
      assert h != d ==> Of(qs', h) == Of(qs, h);
    }
  }

  lemma PushedThenPruned(base: string, wake: Wake, want: map<string, RouteRecord>, stale: set<string>,
                         rs: seq<HttpRoute>, ps: seq<HttpRoute>, qs: seq<HttpRoute>)
    requires PushedBut(base, wake, want, {}, rs, ps) && PrunedBut(stale, {}, ps, qs)
    requires forall h :: h in stale <==> Of(rs, h) != [] && h !in want
    ensures SyncedAll(base, wake, want, rs, qs)
  {
    forall h ensures Syncs(base, wake, want, h, Of(rs, h), Of(qs, h)) {
      assert if h in want then Pushes(base, wake, want[h], Of(rs, h), Of(ps, h)) else Of(ps, h) == Of(rs, h);
      assert if h in stale then Shortens(Of(ps, h), Of(qs, h)) else Of(qs, h) == Of(ps, h);
    }
  }

  // ---- what the diff achieves ----

  /** Nothing to push and nothing to remove, as the job sees it. */
  ghost predicate HttpQuiet(wake: Wake, want: map<string, RouteRecord>, rs: seq<HttpRoute>) {
    forall h :: QuietAt(wake, want, h, Of(rs, h))
  }

  predicate QuietAt(wake: Wake, want: map<string, RouteRecord>, h: string, p: seq<HttpRoute>) {
    if h in want then p != [] && !NeedsUpdate(wake, want[h], View(LastOf(p))) else p == []
  }

  /** The database's word: a host with a row is served at its effective upstream, one without a
      row is not served. */
  predicate ServedRight(wake: Wake, want: map<string, RouteRecord>, rs: seq<HttpRoute>, h: string) {
    if h in want then Find(rs, h).Some? && !NeedsUpdate(wake, want[h], View(Find(rs, h).value))
    else Find(rs, h).None?
  }

  /** The same of a host's routes, of which the first serves. */
  predicate Right(wake: Wake, want: map<string, RouteRecord>, h: string, p: seq<HttpRoute>) {
    if h in want then p != [] && !NeedsUpdate(wake, want[h], View(p[0])) else p == []
  }

  lemma RightIsServed(wake: Wake, want: map<string, RouteRecord>, rs: seq<HttpRoute>, h: string)
    ensures ServedRight(wake, want, rs, h) <==> Right(wake, want, h, Of(rs, h))
  {
    FindIsFirst(rs, h);
  }

  predicate AllNamed(p: seq<HttpRoute>) { forall k :: 0 <= k < |p| ==> p[k].id != "" }

  /** Every route that a removal can bring to the front, or leave there, is right. */
  predicate FrontsRight(wake: Wake, r: RouteRecord, p: seq<HttpRoute>) {
    if Named(p) == {} then |p| > 1 ==> !NeedsUpdate(wake, r, View(p[1]))
    else
      && (forall k :: 0 < k < |p| && AllNamed(p[..k]) ==> !NeedsUpdate(wake, r, View(p[k])))
      && (Named(p) != {0} ==> !NeedsUpdate(wake, r, View(p[0])))
  }

  /** A host that one tick sets right whatever Caddy chooses, read off its routes before. */
  predicate Heals(wake: Wake, want: map<string, RouteRecord>, h: string, p: seq<HttpRoute>) {
    if h !in want then |p| <= 1
    else if |p| <= 1 then true
    else if !NeedsUpdate(wake, want[h], View(LastOf(p))) then !NeedsUpdate(wake, want[h], View(p[0]))
    else FrontsRight(wake, want[h], p)
  }

  /** Where a row's host should be served, in the row's own fields: at the wake handler while its
      container is in wake mode, else at the row's target; over HTTP/2 for gRPC rows, not for HTTP
      ones. */
  predicate AtRow(wake: Wake, r: RouteRecord, v: Upstream) {
    && (if r.containerName != "" && r.containerName in wake
        then v.ip == wake[r.containerName].0 && v.port == wake[r.containerName].1
        else v.ip == r.targetIP && v.port == r.targetPort)
    && (r.protocol == "grpc" ==> v.grpc) && (r.protocol == "http" ==> !v.grpc)
  }

  /** A route needs no update exactly when it is there; and what is pushed is. */
  lemma RightIsAtRow(wake: Wake, r: RouteRecord, v: Upstream)
    ensures !NeedsUpdate(wake, r, v) <==> AtRow(wake, r, v)
    ensures AtRow(wake, r, Desired(wake, r)) && (Desired(wake, r).grpc <==> r.protocol == "grpc")
  {
  }

  /** Exactly for the protocols "grpc" and "http" does a right route have the row's protocol: with
      any other, a gRPC route that is live at the right address is left as it is. */
  lemma ProtocolExactly(wake: Wake, r: RouteRecord)
    ensures (forall v :: AtRow(wake, r, v) ==> (v.grpc <==> r.protocol == "grpc"))
            <==> r.protocol == "grpc" || r.protocol == "http"
  {
    assert r.protocol != "http" ==> AtRow(wake, r, Desired(wake, r).(grpc := true));
  }

  lemma FreshIsRight(base: string, wake: Wake, r: RouteRecord)
    ensures View(Fresh(base, wake, r)) == Desired(wake, r)
    ensures !NeedsUpdate(wake, r, View(Fresh(base, wake, r)))
  {
    ViewOfRoute(base, r.fullDomain, Desired(wake, r));
  }

  /** The front of what is kept: the first index that stays. */
  lemma {:induction false} KeepFront(p: seq<HttpRoute>, gone: set<nat>)
    ensures Keep(p, gone) == [] <==> forall k :: 0 <= k < |p| ==> k in gone
    ensures Keep(p, gone) != [] ==> exists k: nat ::
      k < |p| && k !in gone && Keep(p, gone)[0] == p[k] && forall j :: 0 <= j < k ==> j in gone
  {
    if p != [] {
      var before := p[..|p| - 1];
      KeepFront(before, gone);
      if Keep(before, gone) != [] {
        var k: nat :| k < |before| && k !in gone && Keep(before, gone)[0] == before[k]
                      && forall j :: 0 <= j < k ==> j in gone;
        assert p[k] == before[k] && Keep(p, gone)[0] == p[k];
      }
    }
  }

  /** With the right fronts, every removal leaves a right front or none. */
  lemma FrontsSuffice(wake: Wake, r: RouteRecord, p: seq<HttpRoute>, q: seq<HttpRoute>)
    requires |p| > 1 && FrontsRight(wake, r, p) && Shortens(p, q)
    ensures q != [] ==> !NeedsUpdate(wake, r, View(q[0]))
  {
    if Named(p) != {} {
      var gone :| gone != {} && gone <= Named(p) && q == Keep(p, gone);
      KeepFront(p, gone);
      if q != [] {
        var k: nat :| k < |p| && k !in gone && q[0] == p[k] && forall j :: 0 <= j < k ==> j in gone;
        assert AllNamed(p[..k]);
        if k == 0 {
          var g :| g in gone;
          assert g in Named(p) && g != 0;
        }
      }
    }
  }

  /** The first `k` routes, all with ids, can go together. */
  lemma {:induction false} KeepTail(p: seq<HttpRoute>, k: nat, gone: set<nat>)
    requires k <= |p| && forall j :: 0 <= j < |p| ==> (j in gone <==> j < k)
    ensures Keep(p, gone) == p[k..]
  {
    if |p| > k {
      var before := p[..|p| - 1];
      KeepTail(before, k, gone);
      assert before[k..] + [p[|p| - 1]] == p[k..];
    } else if p != [] {
      var before := p[..|p| - 1];
      KeepFront(before, gone);
    }
  }

  /** A front that can come up does. */
  lemma FrontComes(p: seq<HttpRoute>, k: nat)
    requires 0 < k < |p| && AllNamed(p[..k])
    ensures Shortens(p, p[k..])
  {
    var gone := set j: nat | j < k && p[j].id != "";
    assert forall j :: 0 <= j < k ==> p[..k][j] == p[j];
    assert 0 in gone && gone <= Named(p);
    KeepTail(p, k, gone);
  }

  /** A front that can stay does. */
  lemma FrontStays(p: seq<HttpRoute>)
    requires Named(p) != {} && Named(p) != {0}
    ensures exists q :: Shortens(p, q) && q != [] && q[0] == p[0]
  {
    var k :| k in Named(p) && k != 0;
    ShortensAt(p, k);
    assert DropAt(p, k)[0] == p[0];
  }

  /** The right fronts are needed: otherwise some removal leaves a wrong one. */
  lemma FrontsNeeded(wake: Wake, r: RouteRecord, p: seq<HttpRoute>) returns (q: seq<HttpRoute>)
    requires |p| > 1 && !FrontsRight(wake, r, p)
    ensures Shortens(p, q) && q != [] && NeedsUpdate(wake, r, View(q[0]))
  {
    if Named(p) == {} {
      q := DropAt(p, 0);
    } else if k :| 0 < k < |p| && AllNamed(p[..k]) && NeedsUpdate(wake, r, View(p[k])) {
      FrontComes(p, k);
      q := p[k..];
    } else {
      FrontStays(p);
      q :| Shortens(p, q) && q != [] && q[0] == p[0];
    }
  }

  /** One tick sets a host right whatever Caddy chooses exactly when it heals: always with at
      most one route, otherwise when every route that can come to the front is right. */
  lemma HealsExactly(base: string, wake: Wake, want: map<string, RouteRecord>, h: string,
                     p: seq<HttpRoute>)
    ensures (forall q :: Syncs(base, wake, want, h, p, q) ==> Right(wake, want, h, q))
            <==> Heals(wake, want, h, p)
  {
    if Heals(wake, want, h, p) {
      forall q | Syncs(base, wake, want, h, p, q) ensures Right(wake, want, h, q) {
        HealsSuffices(base, wake, want, h, p, q);
      }
    } else {
      var q := HealsNeeded(base, wake, want, h, p);
    }
  }

  lemma HealsSuffices(base: string, wake: Wake, want: map<string, RouteRecord>, h: string,
                      p: seq<HttpRoute>, q: seq<HttpRoute>)
    requires Heals(wake, want, h, p) && Syncs(base, wake, want, h, p, q)
    ensures Right(wake, want, h, q)
  {
    if h !in want {
      ShortensIs(p, q);
    } else {
      FreshIsRight(base, wake, want[h]);
      if p != [] && NeedsUpdate(wake, want[h], View(LastOf(p))) {
        var kept := q[..|q| - 1];
        ShortensIs(p, kept);
        if |p| > 1 {
          FrontsSuffice(wake, want[h], p, kept);
        }
        assert kept != [] ==> q[0] == kept[0];
      }
    }
  }

  lemma HealsNeeded(base: string, wake: Wake, want: map<string, RouteRecord>, h: string,
                    p: seq<HttpRoute>) returns (q: seq<HttpRoute>)
    requires !Heals(wake, want, h, p)
    ensures Syncs(base, wake, want, h, p, q) && !Right(wake, want, h, q)
  {
    if h !in want {
      var k: nat := if Named(p) == {} then 0 else var k :| k in Named(p); k;
      ShortensAt(p, k);
      q := DropAt(p, k);
    } else if !NeedsUpdate(wake, want[h], View(LastOf(p))) {
      q := p;
    } else {
      var kept := FrontsNeeded(wake, want[h], p);
      q := kept + [Fresh(base, wake, want[h])];
      assert q[..|q| - 1] == kept;
    }
  }

  /** The diff can leave a host's routes as they are exactly when the job sees nothing to do, and
      then it does. */
  lemma QuietIsFixpoint(base: string, wake: Wake, want: map<string, RouteRecord>, h: string,
                        p: seq<HttpRoute>)
    ensures Syncs(base, wake, want, h, p, p) <==> QuietAt(wake, want, h, p)
    ensures QuietAt(wake, want, h, p) ==> forall q :: Syncs(base, wake, want, h, p, q) <==> q == p
  {
    if h in want {
      FreshIsRight(base, wake, want[h]);
    } else {
      if Shortens(p, p) {
        ShortensIs(p, p);
      }
    }
  }

  /** The next tick is sure to find a host quiet exactly when it has a row or had at most one
      route; a host with a row is quiet from the first tick on. */
  lemma SyncedQuietExactly(base: string, wake: Wake, want: map<string, RouteRecord>, h: string,
                           p: seq<HttpRoute>)
    ensures (forall q :: Syncs(base, wake, want, h, p, q) ==> QuietAt(wake, want, h, q))
            <==> h in want || |p| <= 1
  {
    if h in want {
      FreshIsRight(base, wake, want[h]);
    } else if |p| <= 1 {
      forall q | Shortens(p, q) ensures q == [] {
        ShortensIs(p, q);
      }
    } else {
      var q := HealsNeeded(base, wake, want, h, p);
      assert !QuietAt(wake, want, h, q);
    }
  }

  /** Only hosts with a row have several routes. */
  ghost predicate OnceUnlessWanted(want: map<string, RouteRecord>, rs: seq<HttpRoute>) {
    forall h :: h !in want ==> |Of(rs, h)| <= 1
  }

  /** No host without a row has a route. */
  ghost predicate NoneUnwanted(want: map<string, RouteRecord>, rs: seq<HttpRoute>) {
    forall h :: h !in want ==> Of(rs, h) == []
  }

  lemma SyncedQuiet(base: string, wake: Wake, want: map<string, RouteRecord>,
                    rs: seq<HttpRoute>, qs: seq<HttpRoute>)
    requires SyncedAll(base, wake, want, rs, qs)
    ensures HttpQuiet(wake, want, qs) <==> NoneUnwanted(want, qs)
    ensures OnceUnlessWanted(want, rs) ==> NoneUnwanted(want, qs)
    ensures Once(rs) ==> Once(qs)
  {
    forall h
      ensures QuietAt(wake, want, h, Of(qs, h)) <==> h in want || Of(qs, h) == []
      ensures |Of(rs, h)| <= 1 ==> |Of(qs, h)| <= 1 && (h in want || Of(qs, h) == [])
    {
      assert Syncs(base, wake, want, h, Of(rs, h), Of(qs, h));
      SyncedOne(base, wake, want, h, Of(rs, h), Of(qs, h));
    }
  }

  lemma SyncedOne(base: string, wake: Wake, want: map<string, RouteRecord>, h: string,
                  p: seq<HttpRoute>, q: seq<HttpRoute>)
    requires Syncs(base, wake, want, h, p, q)
    ensures QuietAt(wake, want, h, q) <==> h in want || q == []
    ensures |p| <= 1 ==> |q| <= 1 && (h in want || q == [])
  {
    if h in want {
      FreshIsRight(base, wake, want[h]);
      if p != [] && NeedsUpdate(wake, want[h], View(LastOf(p))) {
        ShortensIs(p, q[..|q| - 1]);
      }
    } else {
      ShortensIs(p, q);
    }
  }

  /** Ticks with unchanged inputs: a host with a row has after any number of them the routes it
      had after the first, so it is right from then on or never; a host without one loses at
      least a route each time until it has none. */
  lemma {:induction false} RepeatedTicks(base: string, wake: Wake, want: map<string, RouteRecord>, h: string,
                                         ps: seq<seq<HttpRoute>>, n: nat)
    requires n < |ps|
    requires forall i :: 0 <= i < |ps| - 1 ==> Syncs(base, wake, want, h, ps[i], ps[i + 1])
    ensures h in want && n > 0 ==> ps[n] == ps[1]
    ensures h !in want ==> |ps[n]| <= if n < |ps[0]| then |ps[0]| - n else 0
  {
    if n > 0 {
      RepeatedTicks(base, wake, want, h, ps, n - 1);
      assert Syncs(base, wake, want, h, ps[n - 1], ps[n - 1 + 1]);
      if h !in want {
        ShortensIs(ps[n - 1], ps[n]);
      } else if n > 1 {
        assert Syncs(base, wake, want, h, ps[0], ps[0 + 1]);
        SyncedOne(base, wake, want, h, ps[0], ps[1]);
        QuietIsFixpoint(base, wake, want, h, ps[1]);
      }
    }
  }

  /** A host live at an upstream its row does not name, with the right route added behind it by a
      second AddRoute: the job looks at the last and sees nothing to do, now and on every later
      tick, while the first serves. */
  lemma RedeployStrands(base: string, wake: Wake, want: map<string, RouteRecord>, h: string, u: Upstream)
    requires h in want && want[h].fullDomain == h && NeedsUpdate(wake, want[h], u)
    ensures var p := [RouteFor(base, h, u), Fresh(base, wake, want[h])];
      && (forall q :: Syncs(base, wake, want, h, p, q) <==> q == p)
      && View(p[0]) == u && !Right(wake, want, h, p)
  {
    FreshIsRight(base, wake, want[h]);
    ViewOfRoute(base, h, u);
    QuietIsFixpoint(base, wake, want, h, [RouteFor(base, h, u), Fresh(base, wake, want[h])]);
  }

  // ---- orphaned subjects ----

  /** No policy names the host. */
  ghost predicate Unlisted(cfg: Config, h: string) {
    cfg.tls.Some? ==> forall i :: 0 <= i < |cfg.tls.value| ==> h !in cfg.tls.value[i].subjects
  }

  lemma RemovedUnlists(cfg: Config, d: string, h: string)
    ensures Unlisted(TlsRemoved(cfg, d), d)
    ensures Unlisted(cfg, h) ==> Unlisted(TlsRemoved(cfg, d), h)
  {
    if cfg.tls.Some? {
      var ps := cfg.tls.value;
      forall i | 0 <= i < |ps|
        ensures d !in TlsSubjects.Dropped(ps[i].subjects, d)
        ensures h !in ps[i].subjects ==> h !in TlsSubjects.Dropped(ps[i].subjects, d)
      {
        DroppedIs(ps[i].subjects, d);
      }
    }
  }

  lemma EnsuredUnlists(e: Edge, cfg: Config, ds: seq<string>, h: string)
    requires Unlisted(cfg, h) && h !in ds
    ensures Unlisted(TlsEnsured(e, cfg, ds), h)
  {
    if ds != [] {
      var ps := TlsAppEnsured(e, cfg).tls.value;
      MissingIs(ps, ds);
      if ps != [] {
        EnsuredAddsOnlyMissing(e.acme, ps, ds, h);
        EnsuredShape(e.acme, ps, ds);
      }
    }
  }

  // ---- wildcard subjects ----

  ghost predicate Lists(cfg: Config, w: string) {
    cfg.tls.Some? && exists i :: 0 <= i < |cfg.tls.value| && w in cfg.tls.value[i].subjects
  }

  /** Every wildcard subject there was is still there. */
  ghost predicate KeepsWildcards(a: Config, b: Config) {
    forall w :: Wildcarded(w) && Lists(a, w) ==> Lists(b, w)
  }

  lemma ProvisionedLists(e: Edge, cfg: Config, d: string, w: string)
    ensures Lists(TlsProvisioned(e, cfg, d), d)
    ensures Lists(cfg, w) ==> Lists(TlsProvisioned(e, cfg, d), w)
  {
    var ps := TlsAppEnsured(e, cfg).tls.value;
    var qs := Provisioned(e.acme, ps, d);
    ProvisionedAddsOnly(e.acme, ps, d);
    ProvisionedCovers(e.acme, ps, d, w);
    if Lists(cfg, w) {
      var i :| 0 <= i < |ps| && w in ps[i].subjects;
      assert w in qs[i].subjects;
    }
  }

  lemma AddedLists(e: Edge, cfg: Config, d: string, u: Upstream, w: string)
    ensures Lists(cfg, w) ==> Lists(RouteAdded(e, cfg, d, u), w)
    ensures Server(e, cfg).Some? ==> Lists(RouteAdded(e, cfg, d, u), RouteFor(e.base, d, u).hosts[0])
  {
    if Server(e, cfg).Some? {
      var c := WithRoutes(e, cfg, RoutesOf(e, cfg) + [RouteFor(e.base, d, u)]);
      assert c.tls == cfg.tls;
      ProvisionedLists(e, c, FullDomain(e.base, d), w);
    }
  }

  lemma RemovedLists(cfg: Config, d: string, w: string)
    ensures w != d && Lists(cfg, w) ==> Lists(TlsRemoved(cfg, d), w)
  {
    if w != d && Lists(cfg, w) {
      var i: nat :| i < |cfg.tls.value| && w in cfg.tls.value[i].subjects;
      RemovedKeeps(cfg.tls.value, d, i);
    }
  }

  lemma EnsuredLists(e: Edge, cfg: Config, ds: seq<string>, w: string)
    ensures Lists(cfg, w) ==> Lists(TlsEnsured(e, cfg, ds), w)
  {
    if ds != [] && Lists(cfg, w) {
      var ps := cfg.tls.value;
      var i :| 0 <= i < |ps| && w in ps[i].subjects;
      EnsuredShape(e.acme, ps, ds);
      assert w in Ensured(e.acme, ps, ds)[i].subjects;
    }
  }

  // ---- the layer4 diff on tables ----

  function DialFor(r: RouteRecord): string { FormatDial(r.targetIP, r.targetPort) }

  function Dials(want: map<string, RouteRecord>): map<string, string> {
    map s | s in want :: DialFor(want[s])
  }

  function L4Pushed(t: map<string, string>, want: map<string, RouteRecord>, done: set<string>): map<string, string>
    requires done <= want.Keys
  {
    map s | s in t.Keys + done :: if s in done then DialFor(want[s]) else t[s]
  }

  lemma L4PushedStep(t: map<string, string>, want: map<string, RouteRecord>, todo: set<string>, s: string)
    requires todo <= want.Keys && s in todo
    ensures var before, after := L4Pushed(t, want, want.Keys - todo), L4Pushed(t, want, want.Keys - (todo - {s}));
      && after == before[s := DialFor(want[s])]
      && (s in t && t[s] == DialFor(want[s]) ==> after == before)
  {
    var a, b := L4Pushed(t, want, want.Keys - todo), L4Pushed(t, want, want.Keys - (todo - {s}));
    assert b.Keys == a[s := DialFor(want[s])].Keys;
    assert b == a[s := DialFor(want[s])];
    if s in t && t[s] == DialFor(want[s]) {
      assert a[s := t[s]] == a;
    }
  }

  lemma L4PushedThenDropped(t: map<string, string>, want: map<string, RouteRecord>)
    ensures L4Pushed(t, want, want.Keys - {}) - (t.Keys - want.Keys) == Dials(want)
    ensures L4Pushed(t, want, want.Keys - want.Keys) == t
  {
  }

  /** Removing the stale entries one at a time. */
  lemma L4PrunedStep(all: map<string, string>, stale: set<string>, todo: set<string>, s: string)
    requires todo <= stale && s in todo
    ensures all - (stale - todo) - {s} == all - (stale - (todo - {s}))
  {
  }

  lemma L4PrunedAll(all: map<string, string>, stale: set<string>)
    ensures all - (stale - stale) == all && all - (stale - {}) == all - stale
  {
    assert stale - {} == stale;
  }

  /** Passthrough rows as the code can route them. */
  ghost predicate Routable(want: map<string, RouteRecord>) {
    forall s :: s in want ==> s != "" && want[s].fullDomain == s && want[s].targetPort >= 0
  }

  /** From `a` to `b`, with layer4 up, the passthrough table becomes `t` and nothing else
      changed. */
  ghost predicate L4Moves(a: Config, b: Config, t: map<string, string>) {
    IsL4Active(b) && L4Managed(b) && Upstreams(b) == t && b.http == a.http && b.tls == a.tls
  }

  lemma ThenAddedSni(a: Config, b: Config, t: map<string, string>, r: RouteRecord)
    requires L4Moves(a, b, t) && r.fullDomain != "" && r.targetPort >= 0
    ensures Readable(b) && Readable(Removed(b, r.fullDomain))
    ensures L4Moves(a, Added(b, r.fullDomain, DialFor(r)), t[r.fullDomain := DialFor(r)])
  {
    AddedTable(b, r.fullDomain, DialFor(r));
    PrintedIsCanonical(r.targetIP, r.targetPort);
  }

  lemma ThenRemovedSni(a: Config, b: Config, t: map<string, string>, s: string)
    requires L4Moves(a, b, t)
    ensures Readable(b) && L4Moves(a, Removed(b, s), t - {s})
  {
    RemovedTable(b, s);
  }

  /** Layer4 is as the database and the latch ask. */
  ghost predicate L4Settled(latch: bool, want: map<string, RouteRecord>, cfg: Config)
    requires L4Ok(cfg)
  {
    if IsL4Active(cfg) then Upstreams(cfg) == Dials(want) else !latch && want == map[]
  }

  // ---- TLS subjects ----

  /** Every host has a subject, under a policy that needs no repair. */
  ghost predicate TlsSettled(a: Acme, hosts: set<string>, cfg: Config) {
    forall h :: h in hosts && h != "" ==> cfg.tls.Some? && Held(a, cfg.tls.value, h)
  }

  lemma EnsuredSettles(e: Edge, cfg: Config, ds: seq<string>, hosts: set<string>)
    requires forall h :: h in ds <==> h in hosts && h != ""
    ensures TlsSettled(e.acme, hosts, TlsEnsured(e, cfg, ds))
    ensures TlsSettled(e.acme, hosts, cfg) ==> TlsEnsured(e, cfg, ds) == cfg
  {
    if ds != [] {
      var ps := TlsAppEnsured(e, cfg).tls.value;
      forall h | h in hosts && h != "" ensures Held(e.acme, Ensured(e.acme, ps, ds), h) {
        EnsuredFirstRepaired(e.acme, ps, ds, h);
      }
      if TlsSettled(e.acme, hosts, cfg) {
        assert ds[0] in ds;
        assert cfg.tls.Some?;
        EnsuredFixpoint(e.acme, ps, ds);
      }
    }
  }
}
