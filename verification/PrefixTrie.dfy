/** Longest-prefix lookup in the packet program's shared, tenant-scoped tries
    (experimental/ebpf-phaseA/netpolicy.bpf.c).  A key is its prefix as a bit string: 32 bits
    of tenant id followed by the destination prefix in network order. */
module PrefixTrie {
  import opened Wrappers

  type Bits = seq<bool>
  type Word = w: Bits | |w| == 32 witness seq(32, i => false)

  type Trie<V> = map<Bits, V>

  /** The kernel's lookup: try the whole key, then ever shorter prefixes of it. */
  function Lookup<V>(t: Trie<V>, key: Bits): Option<V> {
    if key in t then Some(t[key])
    else if key == [] then None
    else Lookup(t, key[..|key| - 1])
  }

  /** Entry `p` is the longest one that matches the key (section 5.1 of RFC 4632). */
  ghost predicate Longest<V>(t: Trie<V>, key: Bits, p: Bits) {
    p in t && p <= key && forall q :: q in t && q <= key ==> |q| <= |p|
  }

  lemma {:induction false} LookupIsLongest<V>(t: Trie<V>, key: Bits)
    ensures Lookup(t, key).None? <==> forall q :: q in t ==> !(q <= key)
    ensures forall p :: Longest(t, key, p) ==> Lookup(t, key) == Some(t[p])
    ensures Lookup(t, key).Some? ==> exists p :: Longest(t, key, p)
  {
    if key in t {
      assert Longest(t, key, key);
      forall p | Longest(t, key, p) ensures p == key {
      }
    } else if key != [] {
      var short := key[..|key| - 1];
      LookupIsLongest(t, short);
      forall q | q in t ensures q <= key <==> q <= short {
        assert q <= key && |q| == |key| ==> q == key;
      }
      forall p ensures Longest(t, key, p) <==> Longest(t, short, p) {
      }
    }
  }

  /** One tenant's own table, the tenant bits cut off. */
  function TenantTable<V>(t: Trie<V>, tenant: Word): Trie<V> {
    map p | p in Suffixes(t, tenant) :: t[tenant + p]
  }

  function Suffixes<V>(t: Trie<V>, tenant: Word): (s: set<Bits>)
    ensures forall p :: p in s <==> tenant + p in t
  {
    var s := set q | q in t && tenant <= q :: q[32..];
    assert forall q :: q in t && tenant <= q ==> q == tenant + q[32..];
    assert forall p :: tenant + p in t ==> (tenant + p)[32..] == p && tenant <= tenant + p;
    s
  }

  /** What the loader promises: every entry spells out the whole tenant id. */
  ghost predicate TenantScoped<V>(t: Trie<V>) { forall p :: p in t ==> |p| >= 32 }

  /** Some entry is shorter than a tenant id and a prefix of this one. */
  ghost predicate Leaks<V>(t: Trie<V>, tenant: Word) { exists p :: p in t && |p| < 32 && p <= tenant }

  /** A lookup in the shared trie tries the tenant's own table first, then the entries that are
      prefixes of the tenant id. */
  lemma {:induction false} LookupSplits<V>(t: Trie<V>, tenant: Word, addr: Bits)
    ensures var own := Lookup(TenantTable(t, tenant), addr);
      Lookup(t, tenant + addr) == if own.Some? then own else Lookup(t, tenant[..31])
  {
    if tenant + addr in t {
    } else if addr == [] {
      assert tenant + addr == tenant;
    } else {
      assert (tenant + addr)[..|tenant + addr| - 1] == tenant + addr[..|addr| - 1];
      LookupSplits(t, tenant, addr[..|addr| - 1]);
    }
  }

  /** A lookup in the shared trie is one in the sender tenant's own table exactly when that
      table has a match, or no entry leaks into the tenant. */
  lemma LookupIsTenantLookup<V>(t: Trie<V>, tenant: Word, addr: Bits)
    ensures Lookup(t, tenant + addr) == Lookup(TenantTable(t, tenant), addr)
            <==> Lookup(TenantTable(t, tenant), addr).Some? || !Leaks(t, tenant)
    ensures TenantScoped(t) ==> !Leaks(t, tenant)
  {
    LookupSplits(t, tenant, addr);
    LookupIsLongest(t, tenant[..31]);
    forall p ensures p <= tenant[..31] <==> |p| < 32 && p <= tenant {
    }
  }

  /** So the tenant's own table answers for every address exactly when it has a default of its
      own or nothing leaks into it. */
  lemma ScopedExactly<V>(t: Trie<V>, tenant: Word)
    ensures (forall addr :: Lookup(t, tenant + addr) == Lookup(TenantTable(t, tenant), addr))
            <==> tenant in t || !Leaks(t, tenant)
  {
    forall addr ensures tenant in t ==> Lookup(TenantTable(t, tenant), addr).Some? {
      LookupIsLongest(TenantTable(t, tenant), addr);
      assert tenant + [] == tenant && [] <= addr;
      assert tenant in t ==> [] in TenantTable(t, tenant);
    }
    forall addr ensures Lookup(t, tenant + addr) == Lookup(TenantTable(t, tenant), addr)
                        <==> Lookup(TenantTable(t, tenant), addr).Some? || !Leaks(t, tenant)
    {
      LookupIsTenantLookup(t, tenant, addr);
    }
    assert Lookup(TenantTable(t, tenant), []).Some? <==> tenant in t by {
      assert tenant + [] == tenant;
    }
  }

  /** Tables that agree on one tenant's entries answer that tenant alike. */
  lemma OtherTenantsInvisible<V>(t: Trie<V>, u: Trie<V>, tenant: Word, addr: Bits)
    requires TenantScoped(t) && TenantScoped(u)
    requires forall p :: tenant <= p ==> (p in t <==> p in u) && (p in t ==> t[p] == u[p])
    ensures Lookup(t, tenant + addr) == Lookup(u, tenant + addr)
  {
    LookupIsTenantLookup(t, tenant, addr);
    LookupIsTenantLookup(u, tenant, addr);
    assert forall p: Bits :: tenant <= tenant + p;
    assert TenantTable(t, tenant) == TenantTable(u, tenant);
  }

  /** Why the scope matters: an entry shorter than a tenant id answers every tenant whose id
      begins with it and that has no longer match of its own. */
  lemma ShortEntryLeaks<V>(t: Trie<V>, p: Bits, v: V, tenant: Word, addr: Bits)
    requires p <= tenant && Lookup(t, tenant + addr).None?
    ensures Lookup(t[p := v], tenant + addr) == Some(v)
  {
    LookupIsLongest(t, tenant + addr);
    LookupIsLongest(t[p := v], tenant + addr);
    assert p <= tenant + addr;
    assert Longest(t[p := v], tenant + addr, p);
  }
}
