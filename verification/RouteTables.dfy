/** What the live tree serves, as tables from host to upstream: the abstraction on which the
    sync job's diff works. */
module RouteTables {
  import opened Wrappers
  import opened CaddyConfig
  import opened Layer4
  import opened TlsSubjects
  import opened EdgeBase
  import opened EdgeManager
  import opened HttpRoutes
  import L4 = Layer4Manager

  // ---- indexing a list by key, as the Go maps are filled: the last one wins ----

  function ByKey<V>(s: seq<V>, key: V -> string): map<string, V> {
    if s == [] then map[]
    else
      var last := s[|s| - 1];
      ByKey(s[..|s| - 1], key)[key(last) := last]
  }

  method Index<V>(s: seq<V>, key: V -> string) returns (m: map<string, V>)
    ensures m == ByKey(s, key)
  {
    m := map[];
    for i := 0 to |s|
      invariant m == ByKey(s[..i], key)
    {
      assert s[..i + 1][..i] == s[..i];
      m := m[key(s[i]) := s[i]];
    }
    assert s[..|s|] == s;
  }

  lemma {:induction false} ByKeyIs<V>(s: seq<V>, key: V -> string)
    ensures forall x :: x in s ==> key(x) in ByKey(s, key)
    ensures forall k :: k in ByKey(s, key) ==> ByKey(s, key)[k] in s && key(ByKey(s, key)[k]) == k
  {
    if s != [] {
      ByKeyIs(s[..|s| - 1], key);
      assert s == s[..|s| - 1] + [s[|s| - 1]];
    }
  }

  // ---- the HTTP server's hosts ----

  ghost function Hosts(rs: seq<HttpRoute>): set<string> { set r | r in rs && r.hosts != [] :: r.hosts[0] }

  lemma HostsAre(base: string, rs: seq<HttpRoute>, h: string)
    requires Tidy(base, rs)
    ensures h in Hosts(rs) <==> Of(rs, h) != []
  {
    OfMembers(rs, h);
    if h in Hosts(rs) {
      var r :| r in rs && r.hosts != [] && r.hosts[0] == h;
      assert r in Of(rs, h);
    }
    if Of(rs, h) != [] {
      var r := Of(rs, h)[0];
      assert r in Of(rs, h) && r.hosts == [h];
    }
  }

  function LastOf<T>(s: seq<T>): T
    requires s != []
  {
    s[|s| - 1]
  }

  function HostOf(l: Listed): string { l.host }

  /** What indexing ListRoutes by host gives for one host: its last route. */
  ghost predicate ListsLast(live: map<string, Listed>, rs: seq<HttpRoute>, h: string) {
    if Of(rs, h) == [] then h !in live
    else h in live && live[h] == Listed(h, View(LastOf(Of(rs, h))))
  }

  lemma {:induction false} ListingIsLast(base: string, rs: seq<HttpRoute>, h: string)
    requires Tidy(base, rs)
    ensures ListsLast(ByKey(Listing(rs), HostOf), rs, h)
  {
    if rs != [] {
      var before, r := rs[..|rs| - 1], rs[|rs| - 1];
      assert forall i :: 0 <= i < |before| ==> before[i] == rs[i];
      ListingIsLast(base, before, h);
      var ls := Listing(before);
      if r.hosts != [] {
        var l := Listed(r.hosts[0], View(r));
        assert (ls + [l])[..|ls|] == ls;
        assert ByKey(ls + [l], HostOf) == ByKey(ls, HostOf)[l.host := l];
        assert Serves(r, h) <==> l.host == h;
      }
    }
  }

  /** What ListRoutes says of a live host is what serves it exactly when the host's first and
      last route lead to the same place.  Where they do not, the job compares the wrong one. */
  lemma ListedIsServedExactly(base: string, rs: seq<HttpRoute>, h: string)
    requires Tidy(base, rs) && Of(rs, h) != []
    ensures var live := ByKey(Listing(rs), HostOf);
      && h in live && Find(rs, h).Some?
      && (live[h].upstream == View(Find(rs, h).value) <==> View(Of(rs, h)[0]) == View(LastOf(Of(rs, h))))
  {
    ListingIsLast(base, rs, h);
    FindIsFirst(rs, h);
  }

  // ---- hosts whose ids do not collide ----

  /** Hosts on which adding and removing agree: each carries its own dot or base domain, both
      id derivations give one id, and no two hosts share an id that deletes. */
  ghost predicate Universe(base: string, D: set<string>) {
    && (forall h :: h in D ==> FullDomain(base, h) == h && AddId(base, h) == RemoveId(base, h))
    && (forall h, d :: h in D && d in D && h != d && RemoveId(base, h) == RemoveId(base, d) ==>
          RemoveId(base, d) == "")
  }

  /** The HTTP side as the managers keep it, serving hosts of `D` only. */
  ghost predicate HttpManaged(e: Edge, D: set<string>, cfg: Config) {
    Tidy(e.base, RoutesOf(e, cfg)) && Hosts(RoutesOf(e, cfg)) <= D
  }

  lemma OwnIdInUniverse(base: string, D: set<string>, rs: seq<HttpRoute>, d: string)
    requires Universe(base, D) && Tidy(base, rs) && Hosts(rs) <= D && d in D
    ensures OwnId(base, rs, d)
  {
    var id := RemoveId(base, d);
    if id != "" {
      forall i | 0 <= i < |rs| && rs[i].id == id ensures rs[i].hosts == [d] {
        assert rs[i] in rs && rs[i].hosts[0] in Hosts(rs);
      }
    }
  }

  // ---- one host's routes change ----

  /** From `rs` to `qs` no other host's routes change. */
  ghost predicate Changes(rs: seq<HttpRoute>, qs: seq<HttpRoute>, d: string) {
    forall h :: h != d ==> Of(qs, h) == Of(rs, h)
  }

  /** An edit of one host's routes: nothing but routes and TLS changes, and nothing at all
      without a server to edit. */
  ghost predicate Edits(e: Edge, D: set<string>, a: Config, b: Config, d: string) {
    if Server(e, a).None? then b == a
    else HttpManaged(e, D, b) && SameFrame(e, a, b) && Changes(RoutesOf(e, a), RoutesOf(e, b), d)
  }

  /** A host's routes after an update: fewer of the old ones, then the new one. */
  ghost predicate Replaces(p: seq<HttpRoute>, q: seq<HttpRoute>, r: HttpRoute) {
    q != [] && LastOf(q) == r && Shortens(p, q[..|q| - 1])
  }

  lemma FrameTrans(e: Edge, a: Config, b: Config, c: Config)
    requires SameFrame(e, a, b) && SameFrame(e, b, c)
    ensures SameFrame(e, a, c)
  {
  }

  lemma RouteDroppedFrame(e: Edge, cfg: Config, d: string, c: Config)
    requires Server(e, cfg).Some? && RouteDropped(e, cfg, d, c)
    ensures SameFrame(e, cfg, c) && c.tls == cfg.tls
  {
  }

  lemma RouteAddedFrame(e: Edge, cfg: Config, d: string, u: Upstream)
    requires Server(e, cfg).Some?
    ensures var c := RouteAdded(e, cfg, d, u);
      SameFrame(e, cfg, c) && RoutesOf(e, c) == RoutesOf(e, cfg) + [RouteFor(e.base, d, u)]
  {
    var w := WithRoutes(e, cfg, RoutesOf(e, cfg) + [RouteFor(e.base, d, u)]);
    var c := RouteAdded(e, cfg, d, u);
    assert c.http == w.http && c.layer4 == w.layer4;
  }

  lemma HostsWithin(base: string, D: set<string>, rs: seq<HttpRoute>, qs: seq<HttpRoute>, d: string)
    requires Tidy(base, rs) && Tidy(base, qs) && Hosts(rs) <= D && d in D && Changes(rs, qs, d)
    ensures Hosts(qs) <= D
  {
    forall h | h in Hosts(qs) ensures h in D {
      HostsAre(base, qs, h);
      HostsAre(base, rs, h);
      assert h != d ==> Of(qs, h) == Of(rs, h);
    }
  }

  lemma DroppedChanges(base: string, D: set<string>, rs: seq<HttpRoute>, d: string, qs: seq<HttpRoute>)
    requires Universe(base, D) && Tidy(base, rs) && Hosts(rs) <= D && d in D && Removal(base, rs, d, qs)
    ensures Tidy(base, qs) && Hosts(qs) <= D && Changes(rs, qs, d) && Shortens(Of(rs, d), Of(qs, d))
  {
    OwnIdInUniverse(base, D, rs, d);
    RemovesOwn(base, rs, d, qs);
    HostsWithin(base, D, rs, qs, d);
  }

  lemma SnocChanges(base: string, D: set<string>, rs: seq<HttpRoute>, r: HttpRoute, d: string)
    requires Tidy(base, rs) && Hosts(rs) <= D && d in D
    requires r.hosts == [d] && (r.id != "" ==> r.id == RemoveId(base, d))
    ensures var qs := rs + [r];
      Tidy(base, qs) && Hosts(qs) <= D && Changes(rs, qs, d) && Of(qs, d) == Of(rs, d) + [r]
  {
    var qs := rs + [r];
    forall h ensures Of(qs, h) == if h == d then Of(rs, d) + [r] else Of(rs, h) {
      OfSnoc(rs, r, h);
    }
    assert Tidy(base, qs);
    HostsWithin(base, D, rs, qs, d);
  }

  /** RemoveRoute takes one route or more from the host. */
  lemma RouteDroppedEdits(e: Edge, D: set<string>, cfg: Config, d: string, c: Config)
    requires Universe(e.base, D) && HttpManaged(e, D, cfg) && d in D && RouteDropped(e, cfg, d, c)
    ensures Edits(e, D, cfg, c, d) && c.tls == cfg.tls
    ensures Server(e, cfg).Some? ==> Shortens(Of(RoutesOf(e, cfg), d), Of(RoutesOf(e, c), d))
  {
    if Server(e, cfg).Some? {
      RouteDroppedFrame(e, cfg, d, c);
      DroppedChanges(e.base, D, RoutesOf(e, cfg), d, RoutesOf(e, c));
    }
  }

  /** AddRoute gives it one more, behind those it has. */
  lemma RouteAddedEdits(e: Edge, D: set<string>, cfg: Config, d: string, u: Upstream)
    requires Universe(e.base, D) && HttpManaged(e, D, cfg) && d in D
    ensures Edits(e, D, cfg, RouteAdded(e, cfg, d, u), d)
    ensures Server(e, cfg).Some? ==>
      Of(RoutesOf(e, RouteAdded(e, cfg, d, u)), d) == Of(RoutesOf(e, cfg), d) + [RouteFor(e.base, d, u)]
  {
    if Server(e, cfg).Some? {
      RouteAddedFrame(e, cfg, d, u);
      SnocChanges(e.base, D, RoutesOf(e, cfg), RouteFor(e.base, d, u), d);
    }
  }

  lemma EditsTwice(e: Edge, D: set<string>, a: Config, b: Config, c: Config, d: string)
    requires Edits(e, D, a, b, d) && Edits(e, D, b, c, d)
    ensures Edits(e, D, a, c, d)
  {
    if Server(e, a).Some? {
      FrameTrans(e, a, b, c);
    }
  }

  /** UpdateRoute: remove, then add. */
  lemma RouteUpdatedEdits(e: Edge, D: set<string>, a: Config, b: Config, c: Config, d: string, u: Upstream)
    requires Universe(e.base, D) && HttpManaged(e, D, a) && d in D
    requires RouteDropped(e, a, d, b) && c == RouteAdded(e, b, d, u)
    ensures Edits(e, D, a, c, d)
    ensures Server(e, a).Some? ==>
      Replaces(Of(RoutesOf(e, a), d), Of(RoutesOf(e, c), d), RouteFor(e.base, d, u))
  {
    RouteDroppedEdits(e, D, a, d, b);
    RouteAddedEdits(e, D, b, d, u);
    EditsTwice(e, D, a, b, c, d);
    if Server(e, a).Some? {
      var q, r := Of(RoutesOf(e, b), d), RouteFor(e.base, d, u);
      assert (q + [r])[..|q|] == q;
    }
  }

  // ---- the layer4 table ----

  /** A dial address as AddL4Route prints it: parseDial reads it back exactly. */
  predicate Canonical(dial: string) {
    var (ip, port) := ParsedDial(dial);
    FormatDial(ip, port) == dial
  }

  lemma PrintedIsCanonical(ip: string, port: int)
    requires port >= 0
    ensures ParsedDial(FormatDial(ip, port)) == (ip, port) && Canonical(FormatDial(ip, port))
  {
    DialRoundTrip(ip, port);
  }

  ghost predicate L4Managed(cfg: Config) {
    && L4Ok(cfg) && "" !in Upstreams(cfg)
    && forall s :: s in Upstreams(cfg) ==> Canonical(Upstreams(cfg)[s])
  }

  function SniOf(x: L4.Entry): string { x.sni }

  ghost function L4Entries(cfg: Config): seq<L4.Entry>
    requires L4Ok(cfg)
  {
    if IsL4Active(cfg) then L4.Entries(Inner(L4Of(cfg).value.routes)) else []
  }

  /** An entry that reads an SNI's dial address. */
  predicate Stands(x: L4.Entry, s: string, dial: string) {
    x.sni == s && (x.ip, x.port) == ParsedDial(dial)
  }

  lemma CatchallUnlisted(inner: seq<L4Route>)
    requires InnerOk(inner)
    ensures L4.Entries(inner) == L4.Entries(Body(inner))
  {
    assert L4.Listed(Last(inner)).None?;
  }

  /** ListL4Routes, indexed by SNI, is the table. */
  lemma EntriesIndexTable(cfg: Config)
    requires L4Managed(cfg)
    ensures ByKey(L4Entries(cfg), SniOf).Keys == Upstreams(cfg).Keys
    ensures forall s :: s in Upstreams(cfg) ==> Stands(ByKey(L4Entries(cfg), SniOf)[s], s, Upstreams(cfg)[s])
  {
    var es, t := L4Entries(cfg), Upstreams(cfg);
    EntriesReport(cfg);
    ReportsIndex(es, t);
  }

  lemma EntriesReport(cfg: Config)
    requires L4Ok(cfg)
    ensures forall x :: x in L4Entries(cfg) <==> L4.Reports(Upstreams(cfg), x)
  {
    if IsL4Active(cfg) {
      var inner := Inner(L4Of(cfg).value.routes);
      CatchallUnlisted(inner);
      L4.EntriesAreTable(Body(inner));
    }
  }

  lemma ReportsIndex(es: seq<L4.Entry>, t: map<string, string>)
    requires forall x :: x in es <==> L4.Reports(t, x)
    requires "" !in t
    ensures ByKey(es, SniOf).Keys == t.Keys
    ensures forall s :: s in t ==> Stands(ByKey(es, SniOf)[s], s, t[s])
  {
    ByKeyIs(es, SniOf);
    forall s | s in t ensures s in ByKey(es, SniOf) {
      var (ip, port) := ParsedDial(t[s]);
      assert L4.Reports(t, L4.Entry(s, ip, port));
    }
    forall s | s in ByKey(es, SniOf)
      ensures s in t && Stands(ByKey(es, SniOf)[s], s, t[s])
    {
      assert L4.Reports(t, ByKey(es, SniOf)[s]);
    }
  }
}
