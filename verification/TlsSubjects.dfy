/** TLS automation subjects: wildcard coverage, issuer repair, and the reconcile that keeps
    every served host covered (internal/app/proxy.go, internal/app/caddy_types.go). */
module TlsSubjects {
  import opened Wrappers
  import opened CaddyConfig

  // ---- coverage ----

  predicate Wildcarded(h: string) { |h| >= 2 && h[..2] == "*." }

  /** subjectCovers: the subject itself, or a wildcard one label above the domain. */
  predicate SubjectCovers(subject: string, domain: string) {
    if subject == domain then true
    else if !Wildcarded(subject) then false
    else
      var suffix := "." + subject[2..];
      if |domain| < |suffix| || domain[|domain| - |suffix|..] != suffix then false
      else
        var host := domain[..|domain| - |suffix|];
        host != "" && '.' !in host
  }

  /** The one-label wildcard rule (section 6.4.3 of RFC 6125). */
  ghost predicate OneLabelWildcard(subject: string, domain: string) {
    exists first, base ::
      subject == "*." + base && domain == first + ("." + base) && first != "" && '.' !in first
  }

  lemma CoversExactly(subject: string, domain: string)
    ensures SubjectCovers(subject, domain) <==> subject == domain || OneLabelWildcard(subject, domain)
  {
    if subject != domain && Wildcarded(subject) {
      var base := subject[2..];
      assert subject == "*." + base;
      var suffix := "." + base;
      if |domain| >= |suffix| && domain[|domain| - |suffix|..] == suffix {
        var host := domain[..|domain| - |suffix|];
        assert domain == host + suffix;
      }
      forall first, b | subject == "*." + b && domain == first + ("." + b) && first != "" && '.' !in first
        ensures SubjectCovers(subject, domain)
      {
        assert b == subject[2..];
        assert domain[|domain| - |suffix|..] == suffix && domain[..|domain| - |suffix|] == first;
      }
    }
    forall first, b | subject == "*." + b && domain == first + ("." + b)
      ensures Wildcarded(subject)
    {
    }
  }

  predicate CoveredBy(p: TlsPolicy, d: string) { exists s :: s in p.subjects && SubjectCovers(s, d) }

  /** The index of the first policy that covers `d`; past the end if none does. */
  function First(ps: seq<TlsPolicy>, d: string): nat {
    if ps == [] then 0 else if CoveredBy(ps[0], d) then 0 else 1 + First(ps[1..], d)
  }

  predicate Covered(ps: seq<TlsPolicy>, d: string) { First(ps, d) < |ps| }

  lemma {:induction false} FirstIs(ps: seq<TlsPolicy>, d: string)
    ensures First(ps, d) <= |ps|
    ensures First(ps, d) < |ps| ==> CoveredBy(ps[First(ps, d)], d)
    ensures forall i :: 0 <= i < First(ps, d) ==> !CoveredBy(ps[i], d)
  {
    if ps != [] && !CoveredBy(ps[0], d) {
      FirstIs(ps[1..], d);
      assert forall i :: 0 < i < |ps| ==> ps[i] == ps[1..][i - 1];
    }
  }

  /** `Covered` is coverage by any subject of any policy. */
  lemma CoveredExactly(ps: seq<TlsPolicy>, d: string)
    ensures Covered(ps, d) <==> exists i :: 0 <= i < |ps| && CoveredBy(ps[i], d)
  {
    FirstIs(ps, d);
  }

  // ---- issuers ----

  const ZEROSSL := "https://acme.zerossl.com/v2/DV90"

  /** The DNS-01 provider, if configured, and the ACME contact address ("" for none). */
  datatype Acme = Acme(dns: Option<string>, email: string)

  function IssuersFor(a: Acme): seq<Issuer> {
    [Issuer("acme", "", a.email, "", a.dns)]
    + (if a.email == "" then [] else [Issuer("acme", ZEROSSL, a.email, "", a.dns)])
  }

  function NewPolicy(a: Acme, subjects: seq<string>): TlsPolicy { TlsPolicy(subjects, IssuersFor(a)) }

  /** policyHasDNSChallenge: every ACME issuer can solve DNS-01. */
  predicate HasDns(is_: seq<Issuer>) {
    forall i :: 0 <= i < |is_| && is_[i].module_ == "acme" ==> is_[i].dns.Some?
  }

  function WithDns(a: Acme, i: Issuer): Issuer {
    if i.module_ == "acme" && i.dns.None? then i.(dns := a.dns) else i
  }

  function DnsRepaired(a: Acme, is_: seq<Issuer>): seq<Issuer> {
    if a.dns.None? then is_
    else if is_ == [] then IssuersFor(a)
    else seq(|is_|, i requires 0 <= i < |is_| => WithDns(a, is_[i]))
  }

  predicate Unregisterable(i: Issuer) { i.ca == ZEROSSL && i.email == "" }

  function Registerable(is_: seq<Issuer>): seq<Issuer> {
    if is_ == [] then []
    else
      var before, i := Registerable(is_[..|is_| - 1]), is_[|is_| - 1];
      if Unregisterable(i) then before else before + [i]
  }

  function EmailRepaired(a: Acme, is_: seq<Issuer>): seq<Issuer> {
    if a.email == "" then
      var kept := Registerable(is_);
      if kept == [] && is_ != [] then IssuersFor(a) else kept
    else seq(|is_|, i requires 0 <= i < |is_| => is_[i].(email := a.email))
  }

  /** ensureDNSIssuers followed by ensureIssuerEmail. */
  function Repaired(a: Acme, p: TlsPolicy): TlsPolicy {
    p.(issuers := EmailRepaired(a, DnsRepaired(a, p.issuers)))
  }

  method EnsureDNSIssuers(a: Acme, p: TlsPolicy) returns (q: TlsPolicy, changed: bool)
    ensures q == p.(issuers := DnsRepaired(a, p.issuers)) && (changed <==> q != p)
  {
    q := p;
    if a.dns.None? {
      return q, false;
    }
    if |p.issuers| == 0 {
      return p.(issuers := IssuersFor(a)), true;
    }
    if HasDns(p.issuers) {
      assert DnsRepaired(a, p.issuers) == p.issuers;
      return q, false;
    }
    changed := false;
    for i := 0 to |p.issuers|
      invariant q.subjects == p.subjects && |q.issuers| == |p.issuers|
      invariant forall k :: 0 <= k < |p.issuers| ==>
        q.issuers[k] == (if k < i then WithDns(a, p.issuers[k]) else p.issuers[k])
      invariant changed <==> exists k :: 0 <= k < i && WithDns(a, p.issuers[k]) != p.issuers[k]
    {
      var issuer := p.issuers[i];
      if issuer.module_ != "acme" {
        continue;
      }
      if issuer.dns.None? {
        q := q.(issuers := q.issuers[i := issuer.(dns := a.dns)]);
        changed := true;
      }
    }
    assert q.issuers == DnsRepaired(a, p.issuers);
  }

  method EnsureIssuerEmail(a: Acme, p: TlsPolicy) returns (q: TlsPolicy, changed: bool)
    ensures q == p.(issuers := EmailRepaired(a, p.issuers)) && (changed <==> q != p)
  {
    q := p;
    if a.email == "" {
      q, changed := DropUnregisterableZeroSSL(a, p);
      return;
    }
    changed := false;
    for i := 0 to |p.issuers|
      invariant q.subjects == p.subjects && |q.issuers| == |p.issuers|
      invariant forall k :: 0 <= k < |p.issuers| ==>
        q.issuers[k] == (if k < i then p.issuers[k].(email := a.email) else p.issuers[k])
      invariant changed <==> exists k :: 0 <= k < i && p.issuers[k].email != a.email
    {
      if q.issuers[i].email != a.email {
        q := q.(issuers := q.issuers[i := q.issuers[i].(email := a.email)]);
        changed := true;
      }
    }
    assert q.issuers == EmailRepaired(a, p.issuers);
    if changed {
      var k :| 0 <= k < |p.issuers| && p.issuers[k].email != a.email;
      assert q.issuers[k] != p.issuers[k];
    }
  }

  lemma {:induction false} RegisterableIs(is_: seq<Issuer>)
    ensures |Registerable(is_)| <= |is_|
    ensures forall i :: i in Registerable(is_) <==> i in is_ && !Unregisterable(i)
    ensures |Registerable(is_)| == |is_| ==> Registerable(is_) == is_
    ensures (forall i :: i in is_ ==> !Unregisterable(i)) ==> Registerable(is_) == is_
  {
    if is_ != [] {
      var before, i := is_[..|is_| - 1], is_[|is_| - 1];
      RegisterableIs(before);
      assert is_ == before + [i];
    }
  }

  lemma RegisterableSnoc(is_: seq<Issuer>, i: Issuer)
    ensures Registerable(is_ + [i]) == Registerable(is_) + (if Unregisterable(i) then [] else [i])
    ensures |Registerable(is_)| <= |is_|
  {
    assert (is_ + [i])[..|is_|] == is_;
    RegisterableIs(is_);
  }

  method DropUnregisterableZeroSSL(a: Acme, p: TlsPolicy) returns (q: TlsPolicy, changed: bool)
    requires a.email == ""
    ensures q == p.(issuers := EmailRepaired(a, p.issuers)) && (changed <==> q != p)
  {
    var kept, dropped := [], false;
    for i := 0 to |p.issuers|
      invariant kept == Registerable(p.issuers[..i])
      invariant dropped <==> |kept| < i
    {
      RegisterableSnoc(p.issuers[..i], p.issuers[i]);
      assert p.issuers[..i + 1] == p.issuers[..i] + [p.issuers[i]];
      if p.issuers[i].ca == ZEROSSL && p.issuers[i].email == "" {
        dropped := true;
        continue;
      }
      kept := kept + [p.issuers[i]];
    }
    assert p.issuers[..|p.issuers|] == p.issuers;
    RegisterableIs(p.issuers);
    if !dropped {
      return p, false;
    }
    DroppedDiffers(a, p.issuers);
    if |kept| == 0 {
      kept := IssuersFor(a);
    }
    return p.(issuers := kept), true;
  }

  lemma DroppedDiffers(a: Acme, is_: seq<Issuer>)
    requires a.email == "" && |Registerable(is_)| < |is_|
    ensures EmailRepaired(a, is_) != is_
  {
    RegisterableIs(is_);
    if Registerable(is_) == [] {
      assert is_[0] in is_ && Unregisterable(is_[0]);
      assert IssuersFor(a)[0].ca == "";
    }
  }

  /** Repaired issuers can all solve DNS-01 when it is configured. */
  lemma RepairedHasDns(a: Acme, p: TlsPolicy)
    ensures a.dns.Some? ==> HasDns(Repaired(a, p).issuers) && Repaired(a, p).issuers != []
  {
    var d := DnsRepaired(a, p.issuers);
    if a.dns.Some? {
      assert d != [] && HasDns(d);
      EmailKeepsDns(a, d);
    }
  }

  lemma EmailKeepsDns(a: Acme, d: seq<Issuer>)
    requires a.dns.Some? && HasDns(d) && d != []
    ensures HasDns(EmailRepaired(a, d)) && EmailRepaired(a, d) != []
  {
    if a.email == "" {
      RegisterableIs(d);
      var kept := Registerable(d);
      forall i | 0 <= i < |kept| && kept[i].module_ == "acme" ensures kept[i].dns.Some? {
        assert kept[i] in d;
      }
    }
  }

  /** The issuers of a new policy: the default CA, and with a contact address also ZeroSSL, each
      with the address and the DNS-01 provider. */
  lemma IssuersForIs(a: Acme)
    ensures var is_ := IssuersFor(a);
      && |is_| == (if a.email == "" then 1 else 2)
      && is_[0].ca == "" && (a.email != "" ==> is_[1].ca == "https://acme.zerossl.com/v2/DV90")
      && forall i :: 0 <= i < |is_| ==>
           is_[i].module_ == "acme" && is_[i].email == a.email && is_[i].dns == a.dns
  {
  }

  /** An issuer with its DNS-01 challenge filled in, all else kept. */
  predicate Challenged(a: Acme, i: Issuer, j: Issuer) {
    && j.module_ == i.module_ && j.ca == i.ca && j.external == i.external && j.email == i.email
    && j.dns == (if i.module_ == "acme" && i.dns.None? then a.dns else i.dns)
  }

  /** With a contact address, a repair keeps every issuer in place, gives it the address and, where
      it lacks one, the DNS-01 challenge, and changes nothing else of it. */
  lemma RepairedWithEmail(a: Acme, p: TlsPolicy)
    requires a.email != "" && p.issuers != []
    ensures var q := Repaired(a, p);
      && q.subjects == p.subjects && |q.issuers| == |p.issuers|
      && forall i :: 0 <= i < |p.issuers| ==>
           q.issuers[i].email == a.email && Challenged(a, p.issuers[i], q.issuers[i].(email := p.issuers[i].email))
  {
    assert a.dns.None? ==> forall i :: 0 <= i < |p.issuers| ==> Challenged(a, p.issuers[i], p.issuers[i]);
  }

  /** Without one, a repair drops exactly the issuers that cannot register, and fills in the
      others' challenges; where none is left the default ones come in. */
  lemma RepairedWithoutEmail(a: Acme, p: TlsPolicy)
    requires a.email == "" && p.issuers != []
    ensures var q := Repaired(a, p);
      && q.subjects == p.subjects
      && if forall i :: 0 <= i < |p.issuers| ==> CannotRegister(p.issuers[i]) then q.issuers == IssuersFor(a)
         else forall j :: j in q.issuers <==>
                exists i :: 0 <= i < |p.issuers| && !CannotRegister(p.issuers[i]) && Challenged(a, p.issuers[i], j)
  {
    var d := DnsRepaired(a, p.issuers);
    assert |d| == |p.issuers|;
    forall i | 0 <= i < |d|
      ensures Challenged(a, p.issuers[i], d[i]) && (Unregisterable(d[i]) <==> CannotRegister(p.issuers[i]))
    {
    }
    RegisterableIs(d);
    var kept := Registerable(d);
    forall j ensures j in kept <==>
      exists i :: 0 <= i < |p.issuers| && !CannotRegister(p.issuers[i]) && Challenged(a, p.issuers[i], j)
    {
      if i :| 0 <= i < |p.issuers| && !CannotRegister(p.issuers[i]) && Challenged(a, p.issuers[i], j) {
        assert j == d[i] && d[i] in d;
      }
    }
    NoMembers(kept);
    if i :| 0 <= i < |p.issuers| && !CannotRegister(p.issuers[i]) {
      assert d[i] in d && d[i] in kept;
    }
  }

  lemma NoMembers<T>(s: seq<T>)
    ensures (forall x :: x !in s) ==> s == []
  {
    if s != [] {
      assert s[0] in s;
    }
  }

  /** A ZeroSSL issuer without a contact address. */
  predicate CannotRegister(i: Issuer) { i.ca == "https://acme.zerossl.com/v2/DV90" && i.email == "" }

  /** A policy without issuers gets the default ones exactly when DNS-01 is configured. */
  lemma RepairedFromNone(a: Acme, p: TlsPolicy)
    requires p.issuers == []
    ensures Repaired(a, p) == p.(issuers := if a.dns.Some? then IssuersFor(a) else [])
  {
    if a.dns.Some? {
      NewPolicyRepaired(a, p.subjects);
      assert DnsRepaired(a, IssuersFor(a)) == IssuersFor(a);
    }
  }

  lemma EmailIdempotent(a: Acme, d: seq<Issuer>)
    ensures EmailRepaired(a, EmailRepaired(a, d)) == EmailRepaired(a, d)
  {
    var e := EmailRepaired(a, d);
    if a.email == "" {
      RegisterableIs(d);
      RegisterableIs(e);
      forall i | i in e ensures !Unregisterable(i) {
        assert e == IssuersFor(a) ==> i == e[0] && i.ca == "";
      }
    }
  }

  /** A repaired policy needs no repair, so the every-tick path writes nothing. */
  lemma RepairIdempotent(a: Acme, p: TlsPolicy)
    ensures Repaired(a, Repaired(a, p)) == Repaired(a, p)
  {
    RepairedHasDns(a, p);
    var is_ := Repaired(a, p).issuers;
    assert DnsRepaired(a, is_) == is_;
    EmailIdempotent(a, DnsRepaired(a, p.issuers));
  }

  lemma NewPolicyRepaired(a: Acme, subjects: seq<string>)
    ensures Repaired(a, NewPolicy(a, subjects)) == NewPolicy(a, subjects)
  {
    var is_ := IssuersFor(a);
    assert DnsRepaired(a, is_) == is_;
    if a.email == "" {
      RegisterableIs(is_);
      assert forall i :: i in is_ ==> i == is_[0];
    } else {
      assert EmailRepaired(a, is_) == is_;
    }
  }

  // ---- the reconcile ----

  /** The domains that need a subject: non-empty, not covered, each once, in order. */
  function Missing(ps: seq<TlsPolicy>, ds: seq<string>): seq<string> {
    if ds == [] then []
    else
      var before, d := ds[..|ds| - 1], ds[|ds| - 1];
      if d == "" || d in before || Covered(ps, d) then Missing(ps, before) else Missing(ps, before) + [d]
  }

  /** Policy `i` is the first to cover one of the domains. */
  predicate Covering(ps: seq<TlsPolicy>, ds: seq<string>, i: nat) {
    exists d :: d in ds && d != "" && First(ps, d) == i
  }

  function CoveringRepaired(a: Acme, ps: seq<TlsPolicy>, ds: seq<string>): seq<TlsPolicy> {
    seq(|ps|, i requires 0 <= i < |ps| => if Covering(ps, ds, i) then Repaired(a, ps[i]) else ps[i])
  }

  function WithSubjects(p: TlsPolicy, more: seq<string>): TlsPolicy { p.(subjects := p.subjects + more) }

  /** The policy list EnsureTLSSubjects leaves. */
  function Ensured(a: Acme, ps: seq<TlsPolicy>, ds: seq<string>): seq<TlsPolicy> {
    var missing, qs := Missing(ps, ds), CoveringRepaired(a, ps, ds);
    if missing == [] then qs
    else if ps == [] then [NewPolicy(a, missing)]
    else qs[0 := Repaired(a, WithSubjects(qs[0], missing))]
  }

  lemma {:induction false} MissingIs(ps: seq<TlsPolicy>, ds: seq<string>)
    ensures forall d :: d in Missing(ps, ds) <==> d in ds && d != "" && !Covered(ps, d)
    ensures forall i, j :: 0 <= i < j < |Missing(ps, ds)| ==> Missing(ps, ds)[i] != Missing(ps, ds)[j]
  {
    if ds != [] {
      var before, d := ds[..|ds| - 1], ds[|ds| - 1];
      MissingIs(ps, before);
      assert ds == before + [d];
      if d in Missing(ps, before) {
        assert d in before;
      }
    }
  }

  /** EnsureTLSSubjects on the policy list: one pass over the domains, then the repairs, then
      the missing subjects into the first policy. */
  method Reconcile(a: Acme, ps: seq<TlsPolicy>, ds: seq<string>)
    returns (qs: seq<TlsPolicy>, write: bool)
    ensures qs == Ensured(a, ps, ds) && (write <==> qs != ps)
  {
    var missing, covering := FindMissing(ps, ds);
    var repaired;
    qs, repaired := RepairCovering(a, ps, ds, covering);
    if |missing| == 0 {
      return qs, repaired;
    }
    if |ps| > 0 {
      var q := WithSubjects(qs[0], missing);
      var r, _ := EnsureDNSIssuers(a, q);
      var t, _ := EnsureIssuerEmail(a, r);
      assert t == Repaired(a, q);
      assert |t.subjects| > |ps[0].subjects|;
      return qs[0 := t], true;
    }
    return [NewPolicy(a, missing)], true;
  }

  method FindMissing(ps: seq<TlsPolicy>, ds: seq<string>) returns (missing: seq<string>, covering: set<nat>)
    ensures missing == Missing(ps, ds)
    ensures Covers(ps, ds, covering)
  {
    missing, covering := [], {};
    var seen: set<string> := {};
    for k := 0 to |ds|
      invariant missing == Missing(ps, ds[..k])
      invariant forall d :: d in seen <==> d in ds[..k] && d != ""
      invariant Covers(ps, ds[..k], covering)
    {
      var d := ds[k];
      assert ds[..k + 1] == ds[..k] + [d];
      MissingSnoc(ps, ds[..k], d);
      CoveringStep(ps, ds[..k], d, covering);
      ghost var grown := Grown(ps, ds[..k], d, covering);
      if d == "" || d in seen {
        assert covering == grown;
        continue;
      }
      seen := seen + {d};
      var i := FindCovering(ps, d);
      if i < |ps| {
        covering := covering + {i};
      } else {
        missing := missing + [d];
      }
      assert covering == grown;
    }
    assert ds[..|ds|] == ds;
  }

  lemma MissingSnoc(ps: seq<TlsPolicy>, ds: seq<string>, d: string)
    ensures Missing(ps, ds + [d])
      == Missing(ps, ds) + (if d == "" || d in ds || Covered(ps, d) then [] else [d])
  {
    assert (ds + [d])[..|ds|] == ds;
  }

  /** The set of policies that cover some domain first. */
  ghost predicate Covers(ps: seq<TlsPolicy>, ds: seq<string>, covering: set<nat>) {
    forall i: nat :: i in covering <==> i < |ps| && Covering(ps, ds, i)
  }

  /** What one more domain adds to it. */
  function Grown(ps: seq<TlsPolicy>, ds: seq<string>, d: string, covering: set<nat>): set<nat> {
    if d == "" || d in ds || First(ps, d) >= |ps| then covering else covering + {First(ps, d)}
  }

  lemma CoveringStep(ps: seq<TlsPolicy>, ds: seq<string>, d: string, covering: set<nat>)
    requires Covers(ps, ds, covering)
    ensures Covers(ps, ds + [d], Grown(ps, ds, d, covering))
  {
    forall i: nat ensures Covering(ps, ds + [d], i) <==> Covering(ps, ds, i) || (d != "" && First(ps, d) == i) {
      CoveringSnoc(ps, ds, d, i);
    }
    assert d in ds && d != "" ==> Covering(ps, ds, First(ps, d));
  }

  lemma CoveringSnoc(ps: seq<TlsPolicy>, ds: seq<string>, d: string, i: nat)
    ensures Covering(ps, ds + [d], i) <==> Covering(ps, ds, i) || (d != "" && First(ps, d) == i)
  {
    assert forall x :: x in ds + [d] <==> x in ds || x == d;
  }

  /** The nested search: policies in order, subjects in order, stop at the first cover. */
  method FindCovering(ps: seq<TlsPolicy>, d: string) returns (i: nat)
    ensures i == First(ps, d) <= |ps|
  {
    FirstIs(ps, d);
    i := 0;
    while i < |ps|
      invariant 0 <= i <= First(ps, d)
    {
      var subjects := ps[i].subjects;
      for k := 0 to |subjects|
        invariant forall j :: 0 <= j < k ==> !SubjectCovers(subjects[j], d)
      {
        if SubjectCovers(subjects[k], d) {
          assert subjects[k] in subjects;
          return;
        }
      }
      assert !CoveredBy(ps[i], d);
      i := i + 1;
    }
  }

  method RepairCovering(a: Acme, ps: seq<TlsPolicy>, ghost ds: seq<string>, covering: set<nat>)
    returns (qs: seq<TlsPolicy>, repaired: bool)
    requires Covers(ps, ds, covering)
    ensures qs == CoveringRepaired(a, ps, ds) && (repaired <==> qs != ps)
  {
    qs, repaired := ps, false;
    for i := 0 to |ps|
      invariant |qs| == |ps|
      invariant forall k :: 0 <= k < |ps| ==>
        qs[k] == (if k < i && Covering(ps, ds, k) then Repaired(a, ps[k]) else ps[k])
      invariant repaired <==> exists k :: 0 <= k < i && qs[k] != ps[k]
    {
      ghost var before := qs;
      if i in covering {
        var q, changedDns := EnsureDNSIssuers(a, qs[i]);
        var r, changedEmail := EnsureIssuerEmail(a, q);
        assert r == Repaired(a, ps[i]);
        ChangedExactly(a, ps[i]);
        qs := qs[i := r];
        if changedDns || changedEmail {
          assert qs[i] != ps[i];
          repaired := true;
        }
      }
      assert forall k :: 0 <= k < i ==> qs[k] == before[k];
    }
    assert qs == CoveringRepaired(a, ps, ds);
  }

  /** Neither repair undoes the other, so a list differs exactly when some repair reported a
      change. */
  lemma ChangedExactly(a: Acme, p: TlsPolicy)
    ensures Repaired(a, p) == p <==> DnsRepaired(a, p.issuers) == p.issuers
                                     && EmailRepaired(a, p.issuers) == p.issuers
  {
    if Repaired(a, p) == p {
      RepairedHasDns(a, p);
      assert DnsRepaired(a, p.issuers) == p.issuers;
    }
  }

  // ---- what the reconcile guarantees ----

  lemma EnsuredShape(a: Acme, ps: seq<TlsPolicy>, ds: seq<string>)
    requires ps != []
    ensures |Ensured(a, ps, ds)| == |ps|
    ensures Ensured(a, ps, ds)[0].subjects == ps[0].subjects + Missing(ps, ds)
    ensures forall i :: 0 < i < |ps| ==> Ensured(a, ps, ds)[i].subjects == ps[i].subjects
  {
    if Missing(ps, ds) == [] {
      assert ps[0].subjects + [] == ps[0].subjects;
    }
  }

  /** Every non-empty domain asked for is covered afterwards. */
  lemma EnsuredCovers(a: Acme, ps: seq<TlsPolicy>, ds: seq<string>, d: string)
    requires d in ds && d != ""
    ensures Covered(Ensured(a, ps, ds), d)
  {
    var qs, missing := Ensured(a, ps, ds), Missing(ps, ds);
    MissingIs(ps, ds);
    FirstIs(ps, d);
    if ps == [] {
      assert d in qs[0].subjects && CoveredBy(qs[0], d);
    } else {
      EnsuredShape(a, ps, ds);
      if Covered(ps, d) {
        var k := First(ps, d);
        var s :| s in ps[k].subjects && SubjectCovers(s, d);
        assert s in qs[k].subjects && CoveredBy(qs[k], d);
      } else {
        assert d in qs[0].subjects && CoveredBy(qs[0], d);
      }
    }
    CoveredExactly(qs, d);
  }

  /** Nothing is removed, and what is added is exactly the missing domains: each once, and
      none that any existing subject covers or equals. */
  lemma EnsuredAddsOnlyMissing(a: Acme, ps: seq<TlsPolicy>, ds: seq<string>, s: string)
    ensures var qs, missing := Ensured(a, ps, ds), Missing(ps, ds);
      && |qs| == (if ps == [] && missing != [] then 1 else |ps|)
      && (qs != [] ==> qs[0].subjects == (if ps == [] then [] else ps[0].subjects) + missing)
      && (forall i :: 0 < i < |ps| ==> qs[i].subjects == ps[i].subjects)
      && (s in missing ==> s in ds && s != "" && forall i :: 0 <= i < |ps| ==> s !in ps[i].subjects)
      && forall i, j :: 0 <= i < j < |missing| ==> missing[i] != missing[j]
  {
    if ps != [] {
      EnsuredShape(a, ps, ds);
    }
    MissingIs(ps, ds);
    if s in Missing(ps, ds) {
      CoveredExactly(ps, s);
      forall i | 0 <= i < |ps| ensures s !in ps[i].subjects {
        assert s in ps[i].subjects ==> CoveredBy(ps[i], s);
      }
    }
  }

  /** A policy that first covers a domain afterwards was repaired in this call. */
  lemma EnsuredFirstRepaired(a: Acme, ps: seq<TlsPolicy>, ds: seq<string>, d: string)
    requires d in ds && d != ""
    ensures var qs := Ensured(a, ps, ds);
      First(qs, d) < |qs| && Repaired(a, qs[First(qs, d)]) == qs[First(qs, d)]
  {
    var qs, missing := Ensured(a, ps, ds), Missing(ps, ds);
    EnsuredCovers(a, ps, ds, d);
    FirstIs(qs, d);
    FirstIs(ps, d);
    var i := First(qs, d);
    if ps == [] {
      MissingIs(ps, ds);
      NewPolicyRepaired(a, missing);
    } else {
      EnsuredShape(a, ps, ds);
      if missing != [] && i == 0 {
        RepairIdempotent(a, WithSubjects(CoveringRepaired(a, ps, ds)[0], missing));
      } else {
        SameFirst(ps, qs, d, missing);
        assert Covering(ps, ds, i);
        RepairIdempotent(a, ps[i]);
      }
    }
  }

  lemma SameFirst(ps: seq<TlsPolicy>, qs: seq<TlsPolicy>, d: string, missing: seq<string>)
    requires ps != [] && |qs| == |ps| && qs[0].subjects == ps[0].subjects + missing
    requires forall i :: 0 < i < |ps| ==> qs[i].subjects == ps[i].subjects
    requires First(qs, d) < |qs| && (missing == [] || First(qs, d) != 0)
    ensures First(ps, d) == First(qs, d)
  {
    FirstIs(ps, d);
    FirstIs(qs, d);
    assert forall i :: 0 < i < |ps| ==> CoveredBy(qs[i], d) == CoveredBy(ps[i], d);
    assert CoveredBy(ps[0], d) ==> CoveredBy(qs[0], d);
    var i := First(qs, d);
    assert CoveredBy(ps[i], d);
  }

  /** Each policy that first covers a domain can be issued: with DNS-01 configured, every ACME
      issuer of it carries the challenge. */
  lemma EnsuredIssuable(a: Acme, ps: seq<TlsPolicy>, ds: seq<string>, d: string)
    requires d in ds && d != "" && a.dns.Some?
    ensures var qs := Ensured(a, ps, ds);
      First(qs, d) < |qs| && HasDns(qs[First(qs, d)].issuers)
  {
    EnsuredFirstRepaired(a, ps, ds, d);
    var qs := Ensured(a, ps, ds);
    RepairedHasDns(a, qs[First(qs, d)]);
  }

  /** A domain with nothing left to do: covered, and by a policy first that needs no repair. */
  predicate Held(a: Acme, ps: seq<TlsPolicy>, d: string) {
    var i := First(ps, d);
    i < |ps| && Repaired(a, ps[i]) == ps[i]
  }

  /** The call changes nothing, so writes nothing, exactly when every domain is held. */
  lemma EnsuredFixpoint(a: Acme, ps: seq<TlsPolicy>, ds: seq<string>)
    ensures Ensured(a, ps, ds) == ps <==> forall d :: d in ds && d != "" ==> Held(a, ps, d)
  {
    if Ensured(a, ps, ds) == ps {
      forall d | d in ds && d != "" ensures Held(a, ps, d) {
        EnsuredFirstRepaired(a, ps, ds, d);
      }
    }
    if forall d :: d in ds && d != "" ==> Held(a, ps, d) {
      MissingIs(ps, ds);
      assert forall d :: d in ds && d != "" ==> Covered(ps, d);
      NoMembers(Missing(ps, ds));
      assert CoveringRepaired(a, ps, ds) == ps;
    }
  }

  /** An immediate repeat changes nothing. */
  lemma EnsuredIdempotent(a: Acme, ps: seq<TlsPolicy>, ds: seq<string>)
    ensures Ensured(a, Ensured(a, ps, ds), ds) == Ensured(a, ps, ds)
  {
    forall d | d in ds && d != "" ensures Held(a, Ensured(a, ps, ds), d) {
      EnsuredFirstRepaired(a, ps, ds, d);
    }
    EnsuredFixpoint(a, Ensured(a, ps, ds), ds);
  }

  // ---- provisioning one subject, removing one ----

  /** The first policy that lists `d` as a subject of its own. */
  function Holder(ps: seq<TlsPolicy>, d: string): nat {
    if ps == [] then 0 else if d in ps[0].subjects then 0 else 1 + Holder(ps[1..], d)
  }

  /** ProvisionTLS on the policy list. */
  function Provisioned(a: Acme, ps: seq<TlsPolicy>, d: string): seq<TlsPolicy> {
    var i := Holder(ps, d);
    if i < |ps| then ps[i := Repaired(a, ps[i])]
    else if ps != [] then ps[0 := Repaired(a, WithSubjects(ps[0], [d]))]
    else [NewPolicy(a, [d])]
  }

  lemma {:induction false} HolderIs(ps: seq<TlsPolicy>, d: string)
    ensures Holder(ps, d) <= |ps|
    ensures Holder(ps, d) < |ps| ==> d in ps[Holder(ps, d)].subjects
    ensures forall i :: 0 <= i < Holder(ps, d) ==> d !in ps[i].subjects
  {
    if ps != [] && d !in ps[0].subjects {
      HolderIs(ps[1..], d);
      assert forall i :: 0 < i < |ps| ==> ps[i] == ps[1..][i - 1];
    }
  }

  /** After ProvisionTLS the domain has a subject of its own, and no host lost its cover. */
  lemma ProvisionedCovers(a: Acme, ps: seq<TlsPolicy>, d: string, h: string)
    ensures exists i :: 0 <= i < |Provisioned(a, ps, d)| && d in Provisioned(a, ps, d)[i].subjects
    ensures Covered(ps, h) ==> Covered(Provisioned(a, ps, d), h)
  {
    HolderIs(ps, d);
    var qs, i := Provisioned(a, ps, d), Holder(ps, d);
    if i < |ps| {
      assert d in qs[i].subjects;
    } else {
      assert d in qs[0].subjects;
    }
    CoveredExactly(ps, h);
    CoveredExactly(qs, h);
    if Covered(ps, h) {
      var k :| 0 <= k < |ps| && CoveredBy(ps[k], h);
      assert CoveredBy(qs[k], h);
    }
  }

  /** The policy that holds the domain afterwards needs no repair. */
  lemma ProvisionedRepaired(a: Acme, ps: seq<TlsPolicy>, d: string)
    ensures var qs := Provisioned(a, ps, d);
      Holder(qs, d) < |qs| && Repaired(a, qs[Holder(qs, d)]) == qs[Holder(qs, d)]
  {
    HolderIs(ps, d);
    var qs, i := Provisioned(a, ps, d), Holder(ps, d);
    HolderIs(qs, d);
    if i < |ps| {
      RepairIdempotent(a, ps[i]);
      assert forall k :: 0 <= k < |ps| ==> qs[k].subjects == ps[k].subjects;
    } else if ps != [] {
      RepairIdempotent(a, WithSubjects(ps[0], [d]));
    } else {
      NewPolicyRepaired(a, [d]);
    }
  }

  /** ProvisionTLS changes subjects only by adding the domain, at the end of the first policy, and
      that only where no policy lists it. */
  lemma ProvisionedAddsOnly(a: Acme, ps: seq<TlsPolicy>, d: string)
    ensures var qs := Provisioned(a, ps, d);
      var listed := exists i :: 0 <= i < |ps| && d in ps[i].subjects;
      && |qs| == (if ps == [] then 1 else |ps|)
      && (ps == [] ==> qs[0].subjects == [d])
      && forall i :: 0 <= i < |ps| ==>
           qs[i].subjects == ps[i].subjects + (if i == 0 && !listed then [d] else [])
  {
    HolderIs(ps, d);
  }

  /** RemoveTLSSubject keeps every policy, its issuers and all its other subjects. */
  lemma RemovedKeeps(ps: seq<TlsPolicy>, d: string, i: nat)
    requires i < |ps|
    ensures var qs := SubjectRemoved(ps, d);
      && |qs| == |ps| && qs[i].issuers == ps[i].issuers
      && forall s :: s in qs[i].subjects <==> s in ps[i].subjects && s != d
  {
    DroppedIs(ps[i].subjects, d);
  }

  function Dropped(subjects: seq<string>, d: string): seq<string> {
    if subjects == [] then []
    else
      var before, s := Dropped(subjects[..|subjects| - 1], d), subjects[|subjects| - 1];
      if s == d then before else before + [s]
  }

  /** RemoveTLSSubject: every policy stays, without the subject. */
  function SubjectRemoved(ps: seq<TlsPolicy>, d: string): seq<TlsPolicy> {
    seq(|ps|, i requires 0 <= i < |ps| => ps[i].(subjects := Dropped(ps[i].subjects, d)))
  }

  method RemoveSubject(ps: seq<TlsPolicy>, d: string) returns (qs: seq<TlsPolicy>, changed: bool)
    ensures qs == SubjectRemoved(ps, d)
    ensures changed <==> exists i :: 0 <= i < |ps| && d in ps[i].subjects
  {
    qs, changed := ps, false;
    for i := 0 to |ps|
      invariant |qs| == |ps|
      invariant forall k :: 0 <= k < |ps| ==>
        qs[k] == (if k < i then ps[k].(subjects := Dropped(ps[k].subjects, d)) else ps[k])
      invariant changed <==> exists k :: 0 <= k < i && d in ps[k].subjects
    {
      var subjects, filtered, hit := ps[i].subjects, [], false;
      for j := 0 to |subjects|
        invariant filtered == Dropped(subjects[..j], d)
        invariant hit <==> d in subjects[..j]
      {
        assert subjects[..j + 1][..j] == subjects[..j];
        if subjects[j] == d {
          hit := true;
          continue;
        }
        filtered := filtered + [subjects[j]];
      }
      assert subjects[..|subjects|] == subjects;
      changed := changed || hit;
      qs := qs[i := ps[i].(subjects := filtered)];
    }
  }

  lemma {:induction false} DroppedIs(subjects: seq<string>, d: string)
    ensures forall s :: s in Dropped(subjects, d) <==> s in subjects && s != d
  {
    if subjects != [] {
      var before, s := subjects[..|subjects| - 1], subjects[|subjects| - 1];
      DroppedIs(before, d);
      assert subjects == before + [s];
    }
  }

  /** Removing a subject that is not a wildcard uncovers no other host. */
  lemma RemovalUncoversOnly(ps: seq<TlsPolicy>, d: string, h: string)
    requires h != d && !Wildcarded(d)
    ensures Covered(SubjectRemoved(ps, d), h) == Covered(ps, h)
  {
    var qs := SubjectRemoved(ps, d);
    CoveredExactly(ps, h);
    CoveredExactly(qs, h);
    forall i | 0 <= i < |ps| ensures CoveredBy(qs[i], h) == CoveredBy(ps[i], h) {
      DroppedIs(ps[i].subjects, d);
      assert !SubjectCovers(d, h);
    }
  }
}
