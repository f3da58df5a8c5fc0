/** The HTTP server's route list: route ids, adding, removing and listing routes
    (internal/app/proxy.go). */
module HttpRoutes {
  import opened Wrappers
  import opened Decimal
  import opened CaddyConfig

  // ---- route ids ----

  predicate HasSuffix(s: string, t: string) { |t| <= |s| && s[|s| - |t|..] == t }

  function TrimSuffix(s: string, t: string): string { if HasSuffix(s, t) then s[..|s| - |t|] else s }

  /** The id addRouteWithProtocol gives a route. */
  function AddId(base: string, d: string): string {
    if base != "" && (HasSuffix(d, "." + base) || HasSuffix(d, base))
    then TrimSuffix(TrimSuffix(d, "." + base), base) else d
  }

  /** The host it matches: a name without a dot is put under the base domain. */
  function FullDomain(base: string, d: string): string {
    if base != "" && !(HasSuffix(d, "." + base) || HasSuffix(d, base)) && '.' !in d
    then d + "." + base else d
  }

  /** The id RemoveRoute deletes by. */
  function RemoveId(base: string, d: string): string {
    if base == "" then d
    else if HasSuffix(d, "." + base) then TrimSuffix(d, "." + base)
    else if HasSuffix(d, base) then TrimSuffix(d, base)
    else d
  }

  /** A name without a dot is put under the base domain, and both derivations then know it by the
      name alone; a name with a dot is a host of its own. */
  lemma ShortNames(base: string, d: string)
    ensures base == "" || '.' in d || HasSuffix(d, base) ==> FullDomain(base, d) == d
    ensures base != "" && '.' !in d && !HasSuffix(d, base) ==>
      && FullDomain(base, d) == Under(base, d)
      && AddId(base, d) == d == RemoveId(base, d) && RemoveId(base, FullDomain(base, d)) == d
  {
    DottedSuffix(d, base);
    if base != "" {
      IdOfSpelling(base, d);
    }
    if base != "" && HasSuffix(d, "." + base) {
      TrimmedIs(d, "." + base);
      assert (d[..|d| - |"." + base|] + ("." + base))[|d| - |"." + base|] == '.';
    }
    assert d + "." + base == d + ("." + base);
  }

  /** The two derivations disagree exactly on names that carry the base domain twice. */
  lemma IdsAgreeExactly(base: string, d: string)
    ensures AddId(base, d) == RemoveId(base, d)
      <==> !(base != "" && HasSuffix(d, "." + base) && HasSuffix(TrimSuffix(d, "." + base), base))
  {
    if base != "" {
      if HasSuffix(d, "." + base) {
        var t := TrimSuffix(d, "." + base);
        assert HasSuffix(t, base) ==> |TrimSuffix(t, base)| < |t|;
      }
    }
  }

  function Under(base: string, id: string): string { id + ("." + base) }

  /** The names that have this id: under the base domain, with the base domain glued on, and the
      id itself. */
  predicate Spells(base: string, d: string, id: string) {
    if base == "" then d == id
    else
      || d == Under(base, id)
      || (d == id + base && !HasSuffix(id, "."))
      || (d == id && !HasSuffix(id, base))
  }

  lemma TrimmedIs(s: string, t: string)
    ensures HasSuffix(s, t) ==> s == TrimSuffix(s, t) + t
    ensures HasSuffix(s + t, t) && TrimSuffix(s + t, t) == s
  {
    assert (s + t)[|s|..] == t && (s + t)[..|s|] == s;
  }

  lemma GluedOf(id: string, base: string)
    ensures HasSuffix(id + base, "." + base) <==> HasSuffix(id, ".")
  {
    if |id| > 0 {
      var last := [id[|id| - 1]];
      assert (id + base)[|id| - 1..] == last + base && id[|id| - 1..] == last;
      assert (last + base)[0] == last[0] && ("." + base)[0] == '.';
    }
  }

  lemma IdOfSpelling(base: string, id: string)
    requires base != ""
    ensures RemoveId(base, Under(base, id)) == id
    ensures !HasSuffix(id, ".") ==> RemoveId(base, id + base) == id
    ensures !HasSuffix(id, base) ==> RemoveId(base, id) == id
  {
    TrimmedIs(id, "." + base);
    TrimmedIs(id, base);
    GluedOf(id, base);
    DottedSuffix(id, base);
  }

  lemma SpellsOwnId(base: string, d: string)
    ensures Spells(base, d, RemoveId(base, d))
  {
    if base != "" {
      TrimmedIs(d, "." + base);
      TrimmedIs(d, base);
      GluedOf(RemoveId(base, d), base);
    }
  }

  /** A name's id is exactly the one whose spelling it is. */
  lemma SpelledExactly(base: string, d: string, id: string)
    ensures RemoveId(base, d) == id <==> Spells(base, d, id)
  {
    SpellsOwnId(base, d);
    if Spells(base, d, id) && base != "" {
      IdOfSpelling(base, id);
    }
  }

  /** Which hosts share an id, exactly: those that spell the same one. */
  lemma IdsCollideExactly(base: string, d: string, h: string)
    ensures RemoveId(base, d) == RemoveId(base, h)
            <==> exists id :: Spells(base, d, id) && Spells(base, h, id)
  {
    SpelledExactly(base, d, RemoveId(base, d));
    SpelledExactly(base, h, RemoveId(base, h));
    forall id | Spells(base, d, id) && Spells(base, h, id)
      ensures RemoveId(base, d) == id == RemoveId(base, h)
    {
      SpelledExactly(base, d, id);
      SpelledExactly(base, h, id);
    }
  }

  /** The collisions there are: a host and the same host under the base domain, and a host under
      the base domain and one that ends in it without a dot. */
  lemma IdsCollide(base: string, h: string)
    requires base != ""
    ensures !HasSuffix(h, base) ==> RemoveId(base, Under(base, h)) == RemoveId(base, h) == h
    ensures !HasSuffix(h, ".") ==> RemoveId(base, Under(base, h)) == RemoveId(base, h + base) == h
  {
    IdOfSpelling(base, h);
  }

  lemma DottedSuffix(s: string, base: string)
    ensures HasSuffix(s, "." + base) ==> HasSuffix(s, base)
  {
    if HasSuffix(s, "." + base) {
      assert s[|s| - |base|..] == s[|s| - |base| - 1..][1..] == base;
    }
  }

  // ---- the list ----

  /** Where a host's traffic goes, as ListRoutes reports it. */
  datatype Upstream = Upstream(ip: string, port: int, grpc: bool)

  function RouteFor(base: string, d: string, u: Upstream): HttpRoute {
    HttpRoute(AddId(base, d), [FullDomain(base, d)], Some(FormatDial(u.ip, u.port)), u.grpc)
  }

  function View(r: HttpRoute): Upstream {
    var (ip, port) := if r.dial.Some? then ReadDial(r.dial.value) else ("", 0);
    Upstream(ip, port, r.h2)
  }

  /** What is added is what is listed, for every address and port. */
  lemma ViewOfRoute(base: string, d: string, u: Upstream)
    ensures View(RouteFor(base, d, u)) == u
    ensures RouteFor(base, d, u).dial == Some(u.ip + ":" + Itoa(u.port)) && RouteFor(base, d, u).h2 == u.grpc
  {
    DialRoundTrip(u.ip, u.port);
  }

  predicate Serves(r: HttpRoute, h: string) { h in r.hosts }

  function IndexOfHost(rs: seq<HttpRoute>, h: string): nat {
    if rs == [] then 0 else if Serves(rs[0], h) then 0 else 1 + IndexOfHost(rs[1..], h)
  }

  lemma {:induction false} IndexOfHostIs(rs: seq<HttpRoute>, h: string)
    ensures IndexOfHost(rs, h) <= |rs|
    ensures IndexOfHost(rs, h) < |rs| ==> Serves(rs[IndexOfHost(rs, h)], h)
    ensures forall i :: 0 <= i < IndexOfHost(rs, h) ==> !Serves(rs[i], h)
  {
    if rs != [] && !Serves(rs[0], h) {
      IndexOfHostIs(rs[1..], h);
      assert forall i :: 0 < i < |rs| ==> rs[i] == rs[1..][i - 1];
    }
  }

  function DropAt(rs: seq<HttpRoute>, i: nat): seq<HttpRoute> {
    if i < |rs| then rs[..i] + rs[i + 1..] else rs
  }

  /** The route that serves a host, if any: the first that matches it. */
  function Find(rs: seq<HttpRoute>, h: string): Option<HttpRoute> {
    if IndexOfHost(rs, h) < |rs| then IndexOfHostIs(rs, h); Some(rs[IndexOfHost(rs, h)]) else None
  }

  // ---- the routes of one host ----

  /** A host's routes, in order.  AddRoute on a live host gives it a second one. */
  function Of(rs: seq<HttpRoute>, h: string): seq<HttpRoute> {
    if rs == [] then []
    else
      var before, r := Of(rs[..|rs| - 1], h), rs[|rs| - 1];
      if Serves(r, h) then before + [r] else before
  }

  lemma OfSnoc(rs: seq<HttpRoute>, r: HttpRoute, h: string)
    ensures Of(rs + [r], h) == if Serves(r, h) then Of(rs, h) + [r] else Of(rs, h)
  {
    assert (rs + [r])[..|rs|] == rs;
  }

  lemma {:induction false} OfConcat(a: seq<HttpRoute>, b: seq<HttpRoute>, h: string)
    ensures Of(a + b, h) == Of(a, h) + Of(b, h)
  {
    if b == [] {
      assert a + b == a;
    } else {
      var before, r := b[..|b| - 1], b[|b| - 1];
      assert a + b == a + before + [r] && b == before + [r];
      OfConcat(a, before, h);
      OfSnoc(a + before, r, h);
      OfSnoc(before, r, h);
    }
  }

  lemma {:induction false} OfMembers(rs: seq<HttpRoute>, h: string)
    ensures forall r :: r in Of(rs, h) <==> r in rs && Serves(r, h)
  {
    if rs != [] {
      OfMembers(rs[..|rs| - 1], h);
      assert rs == rs[..|rs| - 1] + [rs[|rs| - 1]];
    }
  }

  lemma OfSplit(rs: seq<HttpRoute>, i: nat, h: string)
    requires i < |rs|
    ensures Serves(rs[i], h) ==> Of(rs, h) == Of(rs[..i], h) + [rs[i]] + Of(rs[i + 1..], h)
    ensures !Serves(rs[i], h) ==> Of(rs, h) == Of(rs[..i], h) + Of(rs[i + 1..], h)
  {
    assert rs == rs[..i] + [rs[i]] + rs[i + 1..];
    OfConcat(rs[..i] + [rs[i]], rs[i + 1..], h);
    OfSnoc(rs[..i], rs[i], h);
  }

  /** What serves a host is the first of its routes. */
  lemma FindIsFirst(rs: seq<HttpRoute>, h: string)
    ensures Find(rs, h) == if Of(rs, h) == [] then None else Some(Of(rs, h)[0])
  {
    IndexOfHostIs(rs, h);
    var i := IndexOfHost(rs, h);
    if i < |rs| {
      NoneOf(rs[..i], h);
      OfSplit(rs, i, h);
    } else {
      NoneOf(rs, h);
    }
  }

  lemma NoneOf(rs: seq<HttpRoute>, h: string)
    requires forall i :: 0 <= i < |rs| ==> !Serves(rs[i], h)
    ensures Of(rs, h) == []
  {
    OfMembers(rs, h);
    assert Of(rs, h) != [] ==> Of(rs, h)[0] in Of(rs, h);
  }

  /** Adding a route to any list: it joins the end of its host's routes, so it serves only where
      no older route does. */
  lemma AddedFind(rs: seq<HttpRoute>, r: HttpRoute, h: string)
    ensures Of(rs + [r], h) == Of(rs, h) + (if Serves(r, h) then [r] else [])
    ensures Find(rs + [r], h) == if Find(rs, h).Some? then Find(rs, h)
                                 else if Serves(r, h) then Some(r) else None
  {
    OfSnoc(rs, r, h);
    FindIsFirst(rs, h);
    FindIsFirst(rs + [r], h);
  }

  // ---- removal ----

  /** Routes as the managers write them: at most one host each, and an id, where there is one,
      that RemoveRoute would derive from the host. */
  ghost predicate Tidy(base: string, rs: seq<HttpRoute>) {
    && (forall i :: 0 <= i < |rs| ==> |rs[i].hosts| <= 1)
    && (forall i :: 0 <= i < |rs| && rs[i].id != "" ==>
          rs[i].hosts != [] && rs[i].id == RemoveId(base, rs[i].hosts[0]))
  }

  /** No host has two routes. */
  ghost predicate Once(rs: seq<HttpRoute>) { forall h :: |Of(rs, h)| <= 1 }

  /** The list without the routes at some indices. */
  function Keep(rs: seq<HttpRoute>, gone: set<nat>): seq<HttpRoute> {
    if rs == [] then []
    else
      var before := Keep(rs[..|rs| - 1], gone);
      if |rs| - 1 in gone then before else before + [rs[|rs| - 1]]
  }

  function Holders(rs: seq<HttpRoute>, id: string): set<nat> { set i: nat | i < |rs| && rs[i].id == id }

  /** What RemoveRoute can leave: by id, some of the routes that hold it go, one or more, at
      Caddy's choice; where no route holds it, the first of the host goes. */
  ghost predicate Removal(base: string, rs: seq<HttpRoute>, d: string, qs: seq<HttpRoute>) {
    var id := RemoveId(base, d);
    if id != "" && Holders(rs, id) != {}
    then exists gone :: gone != {} && gone <= Holders(rs, id) && qs == Keep(rs, gone)
    else qs == DropAt(rs, IndexOfHost(rs, d))
  }

  function Named(p: seq<HttpRoute>): set<nat> { set k: nat | k < |p| && p[k].id != "" }

  /** The same for one host's routes: some of those with an id go, or else the first. */
  ghost predicate Shortens(p: seq<HttpRoute>, q: seq<HttpRoute>) {
    if Named(p) != {} then exists gone :: gone != {} && gone <= Named(p) && q == Keep(p, gone)
    else q == DropAt(p, 0)
  }

  /** What a removal is for: the host's routes get fewer, and no other host's change. */
  ghost predicate RemovesOnly(rs: seq<HttpRoute>, qs: seq<HttpRoute>, d: string) {
    Shortens(Of(rs, d), Of(qs, d)) && forall h :: h != d ==> Of(qs, h) == Of(rs, h)
  }

  /** Every route with the host's id is the host's own. */
  ghost predicate OwnId(base: string, rs: seq<HttpRoute>, d: string) {
    var id := RemoveId(base, d);
    id == "" || forall i :: 0 <= i < |rs| && rs[i].id == id ==> rs[i].hosts == [d]
  }

  // ---- keeping some routes ----

  lemma KeepSnoc(p: seq<HttpRoute>, r: HttpRoute, gone: set<nat>)
    ensures Keep(p + [r], gone) == Keep(p, gone) + (if |p| in gone then [] else [r])
  {
    assert (p + [r])[..|p|] == p;
  }

  lemma {:induction false} KeepAgrees(p: seq<HttpRoute>, a: set<nat>, b: set<nat>)
    requires forall k :: 0 <= k < |p| ==> (k in a <==> k in b)
    ensures Keep(p, a) == Keep(p, b)
  {
    if p != [] {
      KeepAgrees(p[..|p| - 1], a, b);
    }
  }

  lemma {:induction false} KeepIs(p: seq<HttpRoute>, gone: set<nat>)
    ensures |Keep(p, gone)| <= |p| && forall r :: r in Keep(p, gone) ==> r in p
    ensures (exists k :: 0 <= k < |p| && k in gone) ==> |Keep(p, gone)| < |p|
    ensures (forall k :: 0 <= k < |p| ==> k !in gone) ==> Keep(p, gone) == p
  {
    if p != [] {
      KeepIs(p[..|p| - 1], gone);
      assert p == p[..|p| - 1] + [p[|p| - 1]];
    }
  }

  lemma KeepsTidy(base: string, rs: seq<HttpRoute>, gone: set<nat>)
    requires Tidy(base, rs)
    ensures Tidy(base, Keep(rs, gone))
  {
    KeepIs(rs, gone);
    var qs := Keep(rs, gone);
    forall i | 0 <= i < |qs| ensures exists k :: 0 <= k < |rs| && rs[k] == qs[i] {
      assert qs[i] in rs;
    }
  }

  /** The ranks, among a host's routes, of those of its routes that go. */
  ghost predicate Ranks(rs: seq<HttpRoute>, gone: set<nat>, h: string, ranks: set<nat>) {
    && Of(Keep(rs, gone), h) == Keep(Of(rs, h), ranks)
    && (forall k :: k in ranks ==>
          k < |Of(rs, h)| && exists i :: 0 <= i < |rs| && i in gone && rs[i] == Of(rs, h)[k])
    && (forall i :: 0 <= i < |rs| && i in gone && Serves(rs[i], h) ==> ranks != {})
  }

  lemma {:induction false} OfKeep(rs: seq<HttpRoute>, gone: set<nat>, h: string) returns (ranks: set<nat>)
    ensures Ranks(rs, gone, h, ranks)
  {
    if rs == [] {
      ranks := {};
    } else {
      var before, r := rs[..|rs| - 1], rs[|rs| - 1];
      assert rs == before + [r];
      var ranks' := OfKeep(before, gone, h);
      ranks := RanksSnoc(before, r, gone, h, ranks');
    }
  }

  lemma OfKeepSnoc(rs: seq<HttpRoute>, r: HttpRoute, gone: set<nat>, h: string, ranks: set<nat>)
    requires Of(Keep(rs, gone), h) == Keep(Of(rs, h), ranks)
    requires Serves(r, h) ==> (|rs| in gone <==> |Of(rs, h)| in ranks)
    ensures Of(Keep(rs + [r], gone), h) == Keep(Of(rs + [r], h), ranks)
  {
    KeepSnoc(rs, r, gone);
    OfSnoc(rs, r, h);
    OfSnoc(Keep(rs, gone), r, h);
    if Serves(r, h) {
      KeepSnoc(Of(rs, h), r, ranks);
    }
    assert Keep(rs, gone) + [] == Keep(rs, gone);
  }

  lemma RanksSnoc(rs: seq<HttpRoute>, r: HttpRoute, gone: set<nat>, h: string, ranks: set<nat>)
    returns (ranks': set<nat>)
    requires Ranks(rs, gone, h, ranks)
    ensures Ranks(rs + [r], gone, h, ranks')
  {
    var p, n := Of(rs, h), |rs|;
    ranks' := if Serves(r, h) && n in gone then ranks + {|p|} else ranks;
    assert |p| !in ranks;
    KeepAgrees(p, ranks, ranks');
    OfKeepSnoc(rs, r, gone, h, ranks');
    RanksFrom(rs, r, gone, h, ranks, ranks');
  }

  lemma RanksFrom(rs: seq<HttpRoute>, r: HttpRoute, gone: set<nat>, h: string,
                  ranks: set<nat>, ranks': set<nat>)
    requires Ranks(rs, gone, h, ranks)
    requires ranks' == if Serves(r, h) && |rs| in gone then ranks + {|Of(rs, h)|} else ranks
    ensures forall k :: k in ranks' ==>
      k < |Of(rs + [r], h)| && exists i :: 0 <= i < |rs + [r]| && i in gone && (rs + [r])[i] == Of(rs + [r], h)[k]
    ensures forall i :: 0 <= i < |rs + [r]| && i in gone && Serves((rs + [r])[i], h) ==> ranks' != {}
  {
    OfSnoc(rs, r, h);
    var qs := rs + [r];
    forall k | k in ranks'
      ensures k < |Of(qs, h)| && exists i :: 0 <= i < |qs| && i in gone && qs[i] == Of(qs, h)[k]
    {
      if k in ranks {
        var i :| 0 <= i < |rs| && i in gone && rs[i] == Of(rs, h)[k];
        assert qs[i] == rs[i];
      } else {
        assert qs[|rs|] == r;
      }
    }
    assert forall i :: 0 <= i < |rs| ==> qs[i] == rs[i];
  }

  // ---- what a removal does ----

  lemma OfDropAt(rs: seq<HttpRoute>, i: nat, h: string)
    requires i < |rs|
    ensures Of(DropAt(rs, i), h) == Of(rs[..i], h) + Of(rs[i + 1..], h)
    ensures !Serves(rs[i], h) ==> Of(DropAt(rs, i), h) == Of(rs, h)
  {
    OfConcat(rs[..i], rs[i + 1..], h);
    OfSplit(rs, i, h);
  }

  lemma KeepsOthers(rs: seq<HttpRoute>, gone: set<nat>, h: string)
    requires forall i :: 0 <= i < |rs| && i in gone ==> !Serves(rs[i], h)
    ensures Of(Keep(rs, gone), h) == Of(rs, h)
  {
    var ranks := OfKeep(rs, gone, h);
    OfMembers(rs, h);
    var p := Of(rs, h);
    assert forall k :: 0 <= k < |p| ==> p[k] in p && Serves(p[k], h);
    KeepIs(p, ranks);
  }

  lemma ShortensOwn(rs: seq<HttpRoute>, gone: set<nat>, d: string)
    requires gone != {} && forall i :: i in gone ==> i < |rs| && rs[i].id != "" && Serves(rs[i], d)
    ensures Shortens(Of(rs, d), Of(Keep(rs, gone), d))
  {
    var ranks := OfKeep(rs, gone, d);
    var i :| i in gone;
    assert ranks != {};
    forall k | k in ranks ensures k in Named(Of(rs, d)) {
    }
    assert ranks <= Named(Of(rs, d));
  }

  lemma RemovesById(base: string, rs: seq<HttpRoute>, d: string, gone: set<nat>)
    requires RemoveId(base, d) != "" && OwnId(base, rs, d)
    requires gone != {} && gone <= Holders(rs, RemoveId(base, d))
    ensures RemovesOnly(rs, Keep(rs, gone), d)
  {
    ShortensOwn(rs, gone, d);
    forall h | h != d ensures Of(Keep(rs, gone), h) == Of(rs, h) {
      KeepsOthers(rs, gone, h);
    }
  }

  lemma Unnamed(base: string, rs: seq<HttpRoute>, d: string)
    requires Tidy(base, rs) && (RemoveId(base, d) == "" || Holders(rs, RemoveId(base, d)) == {})
    ensures Named(Of(rs, d)) == {}
  {
    OfMembers(rs, d);
    var p := Of(rs, d);
    forall k: nat | k < |p| ensures p[k].id == "" {
      assert p[k] in p;
      NamedHolds(base, rs, p[k], d);
    }
  }

  lemma NamedHolds(base: string, rs: seq<HttpRoute>, r: HttpRoute, d: string)
    requires Tidy(base, rs) && r in rs && Serves(r, d)
    ensures r.id != "" ==> r.id == RemoveId(base, d) && Holders(rs, r.id) != {}
  {
    var i: nat :| i < |rs| && rs[i] == r;
    assert i in Holders(rs, r.id);
  }

  lemma RemovesByHost(base: string, rs: seq<HttpRoute>, d: string)
    requires Tidy(base, rs) && (RemoveId(base, d) == "" || Holders(rs, RemoveId(base, d)) == {})
    ensures RemovesOnly(rs, DropAt(rs, IndexOfHost(rs, d)), d)
  {
    Unnamed(base, rs, d);
    IndexOfHostIs(rs, d);
    var i := IndexOfHost(rs, d);
    if i < |rs| {
      assert rs[i].hosts == [d];
      FirstGoes(rs, i, d);
      forall h | h != d ensures Of(DropAt(rs, i), h) == Of(rs, h) {
        OfDropAt(rs, i, h);
      }
    } else {
      NoneOf(rs, d);
    }
  }

  lemma FirstGoes(rs: seq<HttpRoute>, i: nat, d: string)
    requires i < |rs| && Serves(rs[i], d) && forall k :: 0 <= k < i ==> !Serves(rs[k], d)
    ensures Of(DropAt(rs, i), d) == DropAt(Of(rs, d), 0)
  {
    var b := Of(rs[i + 1..], d);
    NoneOf(rs[..i], d);
    OfSplit(rs, i, d);
    assert Of(rs, d) == [rs[i]] + b;
    OfConcat(rs[..i], rs[i + 1..], d);
    assert Of(DropAt(rs, i), d) == [] + b;
  }

  lemma RemovesOwn(base: string, rs: seq<HttpRoute>, d: string, qs: seq<HttpRoute>)
    requires Tidy(base, rs) && OwnId(base, rs, d) && Removal(base, rs, d, qs)
    ensures RemovesOnly(rs, qs, d) && Tidy(base, qs)
  {
    var id := RemoveId(base, d);
    if id != "" && Holders(rs, id) != {} {
      var gone :| gone != {} && gone <= Holders(rs, id) && qs == Keep(rs, gone);
      RemovesById(base, rs, d, gone);
      KeepsTidy(base, rs, gone);
    } else {
      RemovesByHost(base, rs, d);
      DropKeepsTidy(base, rs, IndexOfHost(rs, d));
    }
  }

  /** A route with the host's id that is another's: taking just that one is a removal, and the
      other host loses it. */
  lemma ForeignGoes(base: string, rs: seq<HttpRoute>, d: string, i: nat)
    requires Tidy(base, rs) && RemoveId(base, d) != ""
    requires i < |rs| && rs[i].id == RemoveId(base, d) && rs[i].hosts != [d]
    ensures var qs, other := Keep(rs, {i}), rs[i].hosts[0];
      Removal(base, rs, d, qs) && other != d && |Of(qs, other)| < |Of(rs, other)|
  {
    var other := rs[i].hosts[0];
    assert i in Holders(rs, RemoveId(base, d));
    var ranks := OfKeep(rs, {i}, other);
    assert Serves(rs[i], other);
    KeepIs(Of(rs, other), ranks);
  }

  /** Whatever Caddy chooses, RemoveRoute takes routes of the host only: exactly when every route
      with the host's id is the host's own. */
  lemma RemovalExactly(base: string, rs: seq<HttpRoute>, d: string)
    requires Tidy(base, rs)
    ensures (forall qs :: Removal(base, rs, d, qs) ==> RemovesOnly(rs, qs, d)) <==> OwnId(base, rs, d)
  {
    if OwnId(base, rs, d) {
      forall qs | Removal(base, rs, d, qs) ensures RemovesOnly(rs, qs, d) {
        RemovesOwn(base, rs, d, qs);
      }
    } else {
      var i: nat :| i < |rs| && rs[i].id == RemoveId(base, d) && rs[i].hosts != [d];
      ForeignGoes(base, rs, d, i);
      assert !RemovesOnly(rs, Keep(rs, {i}), d);
    }
  }

  /** After a removal the host is not served, and every other host is as before. */
  ghost predicate GoneAlone(rs: seq<HttpRoute>, qs: seq<HttpRoute>, d: string) {
    forall h :: Find(qs, h) == if h == d then None else Find(rs, h)
  }

  /** On a list that serves no host twice, every removal leaves the host gone and all others
      served as before, exactly under the same condition. */
  lemma DroppedFind(base: string, rs: seq<HttpRoute>, d: string)
    requires Tidy(base, rs) && Once(rs)
    ensures (forall qs :: Removal(base, rs, d, qs) ==> GoneAlone(rs, qs, d)) <==> OwnId(base, rs, d)
  {
    if OwnId(base, rs, d) {
      forall qs | Removal(base, rs, d, qs) ensures GoneAlone(rs, qs, d) {
        RemovesOwn(base, rs, d, qs);
        assert |Of(rs, d)| <= 1;
        ShortensIs(Of(rs, d), Of(qs, d));
        forall h ensures Find(qs, h) == if h == d then None else Find(rs, h) {
          FindIsFirst(rs, h);
          FindIsFirst(qs, h);
        }
      }
    } else {
      var i: nat :| i < |rs| && rs[i].id == RemoveId(base, d) && rs[i].hosts != [d];
      ForeignGoes(base, rs, d, i);
      var qs, other := Keep(rs, {i}), rs[i].hosts[0];
      assert |Of(rs, other)| <= 1;
      FindIsFirst(rs, other);
      FindIsFirst(qs, other);
      assert !GoneAlone(rs, qs, d);
    }
  }

  lemma ShortensIs(p: seq<HttpRoute>, q: seq<HttpRoute>)
    requires Shortens(p, q)
    ensures if p == [] then q == [] else |q| < |p|
    ensures forall r :: r in q ==> r in p
  {
    if Named(p) != {} {
      var gone :| gone != {} && gone <= Named(p) && q == Keep(p, gone);
      var k :| k in gone;
      KeepIs(p, gone);
    }
  }

  /** One route can go alone: the one at `k`, with an id or else the first. */
  lemma ShortensAt(p: seq<HttpRoute>, k: nat)
    requires k < |p| && (if Named(p) == {} then k == 0 else k in Named(p))
    ensures Shortens(p, DropAt(p, k))
  {
    if Named(p) != {} {
      KeepOne(p, k);
      assert {k} <= Named(p);
    }
  }

  /** Index `i` of the list holds one of the host's routes `p`, of a rank in `ranks`. */
  ghost predicate Placed(rs: seq<HttpRoute>, p: seq<HttpRoute>, h: string, ranks: set<nat>, i: nat) {
    i < |rs| && Serves(rs[i], h) && exists k :: 0 <= k < |p| && k in ranks && p[k] == rs[i]
  }

  /** The routes of a host at some ranks, as indices of the list. */
  ghost predicate Places(rs: seq<HttpRoute>, gone: set<nat>, h: string, ranks: set<nat>) {
    && Of(Keep(rs, gone), h) == Keep(Of(rs, h), ranks)
    && (forall i :: i in gone ==> Placed(rs, Of(rs, h), h, ranks, i))
    && (forall k :: 0 <= k < |Of(rs, h)| && k in ranks ==> gone != {})
  }

  lemma {:induction false} PlacesOf(rs: seq<HttpRoute>, h: string, ranks: set<nat>) returns (gone: set<nat>)
    ensures Places(rs, gone, h, ranks)
  {
    if rs == [] {
      gone := {};
    } else {
      var before, r := rs[..|rs| - 1], rs[|rs| - 1];
      assert rs == before + [r];
      var gone' := PlacesOf(before, h, ranks);
      gone := PlacesSnoc(before, r, gone', h, ranks);
    }
  }

  lemma PlacesSnoc(rs: seq<HttpRoute>, r: HttpRoute, gone: set<nat>, h: string, ranks: set<nat>)
    returns (gone': set<nat>)
    requires Places(rs, gone, h, ranks)
    ensures Places(rs + [r], gone', h, ranks)
  {
    var p, n := Of(rs, h), |rs|;
    gone' := if Serves(r, h) && |p| in ranks then gone + {n} else gone;
    OfSnoc(rs, r, h);
    PlacesKeep(rs, r, gone, h, ranks, gone');
    PlacedAll(rs, r, p, Of(rs + [r], h), h, ranks, gone, gone');
  }

  lemma PlacesKeep(rs: seq<HttpRoute>, r: HttpRoute, gone: set<nat>, h: string, ranks: set<nat>,
                   gone': set<nat>)
    requires Places(rs, gone, h, ranks)
    requires gone' == if Serves(r, h) && |Of(rs, h)| in ranks then gone + {|rs|} else gone
    ensures Of(Keep(rs + [r], gone'), h) == Keep(Of(rs + [r], h), ranks)
  {
    assert |rs| in gone ==> Placed(rs, Of(rs, h), h, ranks, |rs|);
    KeepAgrees(rs, gone, gone');
    OfKeepSnoc(rs, r, gone', h, ranks);
  }

  lemma PlacedAll(rs: seq<HttpRoute>, r: HttpRoute, p: seq<HttpRoute>, p': seq<HttpRoute>, h: string,
                  ranks: set<nat>, gone: set<nat>, gone': set<nat>)
    requires forall i :: i in gone ==> Placed(rs, p, h, ranks, i)
    requires p' == if Serves(r, h) then p + [r] else p
    requires gone' == if Serves(r, h) && |p| in ranks then gone + {|rs|} else gone
    requires forall k :: 0 <= k < |p| && k in ranks ==> gone != {}
    ensures forall i :: i in gone' ==> Placed(rs + [r], p', h, ranks, i)
    ensures forall k :: 0 <= k < |p'| && k in ranks ==> gone' != {}
  {
    forall k | 0 <= k < |p'| && k in ranks ensures gone' != {} {
      if k < |p| {
        assert gone != {};
      } else {
        assert |rs| in gone';
      }
    }
    forall i | i in gone' ensures Placed(rs + [r], p', h, ranks, i) {
      if i in gone {
        PlacedStill(rs, r, p, p', h, ranks, i);
      } else {
        PlacedNow(rs, r, p, h, ranks);
      }
    }
  }

  lemma PlacedStill(rs: seq<HttpRoute>, r: HttpRoute, p: seq<HttpRoute>, p': seq<HttpRoute>, h: string,
                    ranks: set<nat>, i: nat)
    requires Placed(rs, p, h, ranks, i) && p <= p'
    ensures Placed(rs + [r], p', h, ranks, i)
  {
    var k :| 0 <= k < |p| && k in ranks && p[k] == rs[i];
    assert p'[k] == (rs + [r])[i];
  }

  lemma PlacedNow(rs: seq<HttpRoute>, r: HttpRoute, p: seq<HttpRoute>, h: string, ranks: set<nat>)
    requires Serves(r, h) && |p| in ranks
    ensures Placed(rs + [r], p + [r], h, ranks, |rs|)
  {
    assert (p + [r])[|p|] == (rs + [r])[|rs|];
  }

  /** The two views of a removal agree: what can become of the host's routes is exactly what a
      removal from the list can make of them. */
  lemma RemovalsShorten(base: string, rs: seq<HttpRoute>, d: string, q: seq<HttpRoute>)
    requires Tidy(base, rs) && OwnId(base, rs, d)
    ensures Shortens(Of(rs, d), q) <==> exists qs :: Removal(base, rs, d, qs) && Of(qs, d) == q
  {
    forall qs | Removal(base, rs, d, qs) ensures Shortens(Of(rs, d), Of(qs, d)) {
      RemovesOwn(base, rs, d, qs);
    }
    if Shortens(Of(rs, d), q) {
      var qs := RemovalFor(base, rs, d, q);
    }
  }

  lemma RemovalFor(base: string, rs: seq<HttpRoute>, d: string, q: seq<HttpRoute>)
    returns (qs: seq<HttpRoute>)
    requires Tidy(base, rs) && OwnId(base, rs, d) && Shortens(Of(rs, d), q)
    ensures Removal(base, rs, d, qs) && Of(qs, d) == q
  {
    var id := RemoveId(base, d);
    if id == "" || Holders(rs, id) == {} {
      Unnamed(base, rs, d);
      qs := DropAt(rs, IndexOfHost(rs, d));
      RemovesByHost(base, rs, d);
    } else {
      HolderIsNamed(rs, id, d);
      var ranks :| ranks != {} && ranks <= Named(Of(rs, d)) && q == Keep(Of(rs, d), ranks);
      var gone := PlacesOf(rs, d, ranks);
      var k :| k in ranks;
      assert k in Named(Of(rs, d));
      forall i | i in gone ensures i in Holders(rs, id) {
      }
      assert gone <= Holders(rs, id);
      qs := Keep(rs, gone);
    }
  }

  lemma HolderIsNamed(rs: seq<HttpRoute>, id: string, d: string)
    requires id != "" && Holders(rs, id) != {}
    requires forall i :: 0 <= i < |rs| && rs[i].id == id ==> rs[i].hosts == [d]
    ensures Named(Of(rs, d)) != {}
  {
    var i :| i in Holders(rs, id);
    OfMembers(rs, d);
    assert rs[i] in rs && Serves(rs[i], d) && rs[i] in Of(rs, d);
    var k: nat :| k < |Of(rs, d)| && Of(rs, d)[k] == rs[i];
    assert k in Named(Of(rs, d));
  }

  lemma {:induction false} KeepOne(p: seq<HttpRoute>, k: nat)
    requires k < |p|
    ensures Keep(p, {k}) == DropAt(p, k)
  {
    var before := p[..|p| - 1];
    if k == |p| - 1 {
      KeepIs(before, {k});
    } else {
      KeepOne(before, k);
      assert DropAt(before, k) + [p[|p| - 1]] == DropAt(p, k);
    }
  }

  lemma DropKeepsTidy(base: string, rs: seq<HttpRoute>, i: nat)
    requires Tidy(base, rs)
    ensures Tidy(base, DropAt(rs, i))
  {
    var q := DropAt(rs, i);
    if i < |rs| {
      assert forall k :: 0 <= k < |q| ==> q[k] == rs[if k < i then k else k + 1];
    }
  }

  /** Two hosts that spell one id, routed by two AddRoute calls.  Removing either can leave just
      the one, just the other or none: neither removal is safe. */
  lemma CollisionDropsOther(base: string, d: string, h: string, u: Upstream, v: Upstream)
    requires d != h && FullDomain(base, d) == d && FullDomain(base, h) == h
    requires AddId(base, d) == AddId(base, h) == RemoveId(base, d) == RemoveId(base, h) != ""
    ensures var a, b := RouteFor(base, d, u), RouteFor(base, h, v);
      && !OwnId(base, [a, b], d) && !OwnId(base, [a, b], h)
      && (forall qs :: Removal(base, [a, b], d, qs) <==> qs == [a] || qs == [b] || qs == [])
      && (forall qs :: Removal(base, [a, b], h, qs) <==> qs == [a] || qs == [b] || qs == [])
  {
    var a, b := RouteFor(base, d, u), RouteFor(base, h, v);
    assert [a, b][0] == a && [a, b][1] == b;
    PairRemovals(base, a, b, d);
    PairRemovals(base, a, b, h);
  }

  lemma PairRemovals(base: string, a: HttpRoute, b: HttpRoute, d: string)
    requires a.id == b.id == RemoveId(base, d) != ""
    ensures forall qs :: Removal(base, [a, b], d, qs) <==> qs == [a] || qs == [b] || qs == []
  {
    var rs := [a, b];
    assert rs[0] == a && rs[1] == b;
    assert Holders(rs, a.id) == {0, 1};
    KeepTwo(a, b);
    forall gone: set<nat> | gone != {} && gone <= {0, 1} ensures gone == {0} || gone == {1} || gone == {0, 1} {
      TwoOrFewer(gone);
    }
  }

  lemma KeepTwo(a: HttpRoute, b: HttpRoute)
    ensures Keep([a, b], {0}) == [b] && Keep([a, b], {1}) == [a] && Keep([a, b], {0, 1}) == []
  {
    KeepPair(a, b, {0});
    KeepPair(a, b, {1});
    KeepPair(a, b, {0, 1});
  }

  lemma KeepPair(a: HttpRoute, b: HttpRoute, gone: set<nat>)
    ensures Keep([a, b], gone) == (if 0 in gone then [] else [a]) + (if 1 in gone then [] else [b])
  {
    assert [] + [a] == [a] && [a] + [b] == [a, b];
    KeepSnoc([], a, gone);
    KeepSnoc([a], b, gone);
  }

  lemma TwoOrFewer(gone: set<nat>)
    requires gone != {} && gone <= {0, 1}
    ensures gone == {0} || gone == {1} || gone == {0, 1}
  {
    if 0 in gone && 1 in gone {
      assert gone == {0, 1};
    } else if 0 in gone {
      assert gone == {0};
    } else {
      var k :| k in gone;
      assert gone == {1};
    }
  }
}
