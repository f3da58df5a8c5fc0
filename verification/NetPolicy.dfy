/** The per-veth packet programs: flow accounting in both directions and the sender-side
    policy decision (experimental/ebpf-phaseA/netpolicy.bpf.c). */
module NetPolicy {
  import opened Wrappers
  import opened PrefixTrie
  import Scan = SignatureScan

  /** Counters are 64-bit and wrap. */
  const WRAP := 0x1_0000_0000_0000_0000

  const PROTO_TCP := 6
  const PROTO_UDP := 17

  datatype Mode = LogOnly | Enforce
  datatype Action = Ok | Shot
  datatype DenyReason = PolicyMiss | VirtualPatch | SignatureHit

  datatype Config = Config(tenant: Word, mode: Mode, allowIntra: bool, allowMetadata: bool)

  /** A deny rule's scope; 0 means any. */
  datatype DenyVal = DenyVal(port: nat, proto: nat)

  /** What the programs read of a packet.  The three flags say which headers are whole. */
  datatype Packet = Packet(
    ethWhole: bool, isIPv4: bool, ipWhole: bool,
    ingressIfindex: nat, ifindex: nat, saddr: Word, daddr: Word, proto: nat,
    l4Whole: bool, sport: nat, dport: nat, len: nat, tcpHeaderLen: nat, payload: seq<Scan.Byte>)
  {
    predicate IPv4() { ethWhole && isIPv4 && ipWhole }

    /** Ports are read for whole TCP and UDP headers and are 0 otherwise. */
    function Ports(): (nat, nat) {
      if (proto == PROTO_TCP || proto == PROTO_UDP) && l4Whole then (sport, dport) else (0, 0)
    }

    /** The entry this packet belongs to when the container sends it, and when it receives it:
        both name the container first.  Only TCP and UDP have ports. */
    function FlowOut(): FlowKey {
      var ported := (proto == 6 || proto == 17) && l4Whole;
      FlowKey(ingressIfindex, saddr, daddr, if ported then sport else 0, if ported then dport else 0, proto)
    }

    function FlowIn(): FlowKey {
      var ported := (proto == 6 || proto == 17) && l4Whole;
      FlowKey(ifindex, daddr, saddr, if ported then dport else 0, if ported then sport else 0, proto)
    }

    /** The reply to this packet as the same veth's other hook sees it. */
    function Mirror(): Packet {
      this.(ingressIfindex := ifindex, ifindex := ingressIfindex,
            saddr := daddr, daddr := saddr, sport := dport, dport := sport)
    }
  }

  datatype FlowKey = FlowKey(ifindex: nat, saddr: Word, daddr: Word, sport: nat, dport: nat, proto: nat)

  datatype FlowStat = FlowStat(packets: nat, bytes: nat, firstNs: nat, lastNs: nat,
                               rxPackets: nat, rxBytes: nat)

  datatype DenyEvent = DenyEvent(ifindex: nat, tenant: Word, saddr: Word, daddr: Word,
                                 dport: nat, proto: nat, reason: DenyReason, sigId: nat)

  type Flows = map<FlowKey, FlowStat>

  /** The key of a packet leaving the container. */
  function TxKey(p: Packet): FlowKey {
    FlowKey(p.ingressIfindex, p.saddr, p.daddr, p.Ports().0, p.Ports().1, p.proto)
  }

  /** The key of a packet entering it, turned round to the request's orientation. */
  function RxKey(p: Packet): FlowKey {
    FlowKey(p.ifindex, p.daddr, p.saddr, p.Ports().1, p.Ports().0, p.proto)
  }

  function Add(counter: nat, n: nat): nat { (counter + n) % WRAP }

  function Tx(flows: Flows, k: FlowKey, len: nat, now: nat): Flows {
    if k in flows
    then flows[k := flows[k].(packets := Add(flows[k].packets, 1),
                              bytes := Add(flows[k].bytes, len), lastNs := now)]
    else flows[k := FlowStat(1, len, now, now, 0, 0)]
  }

  function Rx(flows: Flows, k: FlowKey, len: nat, now: nat): Flows {
    if k in flows
    then flows[k := flows[k].(rxPackets := Add(flows[k].rxPackets, 1),
                              rxBytes := Add(flows[k].rxBytes, len), lastNs := now)]
    else flows[k := FlowStat(0, 0, now, now, 1, len)]
  }

  // ---- the policy decision ----

  const OCTET_169: Bits := [true, false, true, false, true, false, false, true]
  const OCTET_254: Bits := [true, true, true, true, true, true, true, false]

  /** 169.254.169.254 in network order. */
  const METADATA: Word := OCTET_169 + OCTET_254 + OCTET_169 + OCTET_254

  datatype Rules = Rules(egress: Trie<()>, deny: Trie<DenyVal>, ipTenant: map<Word, Word>)

  predicate Covers(v: DenyVal, dport: nat, proto: nat) {
    (v.port == 0 || v.port == dport) && (v.proto == 0 || v.proto == proto)
  }

  /** A virtual patch applies when the longest deny entry for the destination covers it. */
  predicate Patched(r: Rules, tenant: Word, daddr: Word, dport: nat, proto: nat) {
    var dv := Lookup(r.deny, tenant + daddr);
    dv.Some? && Covers(dv.value, dport, proto)
  }

  predicate Allowed(r: Rules, cfg: Config, daddr: Word, dport: nat, proto: nat) {
    if Patched(r, cfg.tenant, daddr, dport, proto) then false
    else if daddr == METADATA then cfg.allowMetadata
    else if daddr in r.ipTenant then r.ipTenant[daddr] == cfg.tenant && cfg.allowIntra
    else Lookup(r.egress, cfg.tenant + daddr).Some?
  }

  /** An external destination that no virtual patch covers is allowed exactly when some
      allow CIDR of the sender's own tenant contains it. */
  lemma ExternalAllowedExactly(r: Rules, cfg: Config, daddr: Word, dport: nat, proto: nat)
    requires TenantScoped(r.egress)
    requires daddr != METADATA && daddr !in r.ipTenant
    requires !Patched(r, cfg.tenant, daddr, dport, proto)
    ensures Allowed(r, cfg, daddr, dport, proto)
            <==> exists p :: p in TenantTable(r.egress, cfg.tenant) && p <= daddr
  {
    LookupIsTenantLookup(r.egress, cfg.tenant, daddr);
    LookupIsLongest(TenantTable(r.egress, cfg.tenant), daddr);
  }

  /** The number a word spells, most significant bit first. */
  function Value(b: Bits): nat {
    if b == [] then 0 else 2 * Value(b[..|b| - 1]) + Bit(b[|b| - 1])
  }

  function Bit(b: bool): nat { if b then 1 else 0 }

  function Octet(w: Word, i: nat): nat
    requires i < 4
  {
    Value(w[8 * i..8 * i + 8])
  }

  lemma MetadataIs()
    ensures Octet(METADATA, 0) == 169 && Octet(METADATA, 1) == 254
    ensures Octet(METADATA, 2) == 169 && Octet(METADATA, 3) == 254
  {
    OctetIs(OCTET_169);
    OctetIs(OCTET_254);
    assert METADATA[0..8] == OCTET_169 && METADATA[8..16] == OCTET_254;
    assert METADATA[16..24] == OCTET_169 && METADATA[24..32] == OCTET_254;
  }

  lemma OctetIs(o: Bits)
    requires |o| == 8
    ensures Value(o) == 128 * Bit(o[0]) + 64 * Bit(o[1]) + 32 * Bit(o[2]) + 16 * Bit(o[3])
      + 8 * Bit(o[4]) + 4 * Bit(o[5]) + 2 * Bit(o[6]) + Bit(o[7])
  {
    assert o[..8] == o && o[..0] == [];
    NibbleIs(o, 0);
    NibbleIs(o, 4);
  }

  lemma NibbleIs(o: Bits, n: nat)
    requires n + 4 <= |o|
    ensures Value(o[..n + 4])
      == 16 * Value(o[..n]) + 8 * Bit(o[n]) + 4 * Bit(o[n + 1]) + 2 * Bit(o[n + 2]) + Bit(o[n + 3])
  {
    ValueStep(o, n);
    ValueStep(o, n + 1);
    ValueStep(o, n + 2);
    ValueStep(o, n + 3);
  }

  lemma ValueStep(o: Bits, n: nat)
    requires n < |o|
    ensures Value(o[..n + 1]) == 2 * Value(o[..n]) + Bit(o[n])
  {
    assert o[..n + 1][..n] == o[..n];
  }

  /** A flow is patched exactly when some deny entry is the longest match for the destination
      and names no port or this one, and no protocol or this one. */
  lemma PatchedExactly(r: Rules, tenant: Word, daddr: Word, dport: nat, proto: nat)
    ensures Patched(r, tenant, daddr, dport, proto) <==>
      exists q :: && Longest(r.deny, tenant + daddr, q)
                  && (r.deny[q].port == 0 || r.deny[q].port == dport)
                  && (r.deny[q].proto == 0 || r.deny[q].proto == proto)
  {
    LookupIsLongest(r.deny, tenant + daddr);
  }

  /** A destination that is itself a managed container, not the metadata address and not
      patched, is allowed exactly within one tenant with intra traffic on, whatever the tries
      hold. */
  lemma ManagedAllowedExactly(r: Rules, cfg: Config, daddr: Word, dport: nat, proto: nat)
    requires daddr in r.ipTenant && daddr != METADATA
    ensures Allowed(r, cfg, daddr, dport, proto) <==>
      && r.ipTenant[daddr] == cfg.tenant && cfg.allowIntra
      && !Patched(r, cfg.tenant, daddr, dport, proto)
  {
  }

  /** The metadata address needs the opt-in, whatever the allow-list says. */
  lemma MetadataNeedsOptIn(r: Rules, cfg: Config, dport: nat, proto: nat)
    ensures Allowed(r, cfg, METADATA, dport, proto)
            <==> cfg.allowMetadata && !Patched(r, cfg.tenant, METADATA, dport, proto)
  {
  }

  /** Isolation: no edit of another tenant's allow or deny entries changes a verdict. */
  lemma TenantIsolation(r: Rules, s: Rules, cfg: Config, daddr: Word, dport: nat, proto: nat)
    requires TenantScoped(r.egress) && TenantScoped(s.egress)
    requires TenantScoped(r.deny) && TenantScoped(s.deny) && r.ipTenant == s.ipTenant
    requires forall p :: cfg.tenant <= p ==>
      (p in r.egress <==> p in s.egress) && (p in r.egress ==> r.egress[p] == s.egress[p])
    requires forall p :: cfg.tenant <= p ==>
      (p in r.deny <==> p in s.deny) && (p in r.deny ==> r.deny[p] == s.deny[p])
    ensures Allowed(r, cfg, daddr, dport, proto) == Allowed(s, cfg, daddr, dport, proto)
  {
    OtherTenantsInvisible(r.egress, s.egress, cfg.tenant, daddr);
    OtherTenantsInvisible(r.deny, s.deny, cfg.tenant, daddr);
  }

  /** A patch with a wide CIDR does not add up with a narrower one: only the longest deny
      entry is consulted, so the flow is patched exactly when that entry covers it, even if a
      shorter entry that contains the destination would. */
  lemma NarrowDenyShadowsWide(r: Rules, tenant: Word, daddr: Word, dport: nat, proto: nat,
                              wide: Bits, narrow: Bits)
    requires wide in r.deny && narrow in r.deny
    requires wide <= tenant + daddr && Longest(r.deny, tenant + daddr, narrow)
    requires Covers(r.deny[wide], dport, proto)
    ensures Patched(r, tenant, daddr, dport, proto) <==> Covers(r.deny[narrow], dport, proto)
  {
    LookupIsLongest(r.deny, tenant + daddr);
  }

  // ---- the programs ----

  class Programs {
    const veths: map<nat, Config>
    const rules: Rules
    const sigs: seq<Scan.Signature>
    const scanEnabled: bool
    const scratch: array<Scan.Byte>
    var seen: nat
    var wouldDeny: nat
    var flows: Flows
    var events: seq<DenyEvent>

    ghost predicate Valid() reads this { Scan.Slots(sigs) && scratch.Length == Scan.SCAN_WINDOW }

    /** Programs as loaded: no packet counted, and scratch bytes of any value. */
    constructor (veths: map<nat, Config>, rules: Rules, sigs: seq<Scan.Signature>, scanEnabled: bool)
      requires Scan.Slots(sigs)
      ensures Valid() && fresh(scratch) && seen == 0 && wouldDeny == 0 && flows == map[] && events == []
      ensures this.veths == veths && this.rules == rules && this.sigs == sigs
      ensures this.scanEnabled == scanEnabled
    {
      this.veths := veths;
      this.rules := rules;
      this.sigs := sigs;
      this.scanEnabled := scanEnabled;
      scratch := new Scan.Byte[Scan.SCAN_WINDOW];
      seen, wouldDeny, flows, events := 0, 0, map[], [];
    }

    method AccountFlow(k: FlowKey, len: nat, now: nat)
      modifies this`flows
      ensures flows == Tx(old(flows), k, len, now)
    {
      if k in flows {
        var fs := flows[k];
        fs := fs.(packets := Add(fs.packets, 1));
        fs := fs.(bytes := Add(fs.bytes, len));
        flows := flows[k := fs.(lastNs := now)];
        return;
      }
      flows := flows[k := FlowStat(1, len, now, now, 0, 0)];
    }

    method AccountReply(k: FlowKey, len: nat, now: nat)
      modifies this`flows
      ensures flows == Rx(old(flows), k, len, now)
    {
      if k in flows {
        var fs := flows[k];
        fs := fs.(rxPackets := Add(fs.rxPackets, 1));
        fs := fs.(rxBytes := Add(fs.rxBytes, len));
        flows := flows[k := fs.(lastNs := now)];
        return;
      }
      flows := flows[k := FlowStat(0, 0, now, now, 1, len)];
    }

    /** netpolicy_ingress: what the container sends. */
    method Ingress(p: Packet, now: nat) returns (act: Action)
      modifies this`seen, this`wouldDeny, this`flows, this`events
      ensures !(p.ethWhole && p.isIPv4 && p.ipWhole && p.ingressIfindex in veths) ==>
        act == Ok && unchanged(this)
      ensures p.ethWhole && p.isIPv4 && p.ipWhole && p.ingressIfindex in veths ==>
        seen == Add(old(seen), 1) && p.FlowOut() in flows
      ensures Managed(veths, p, true) && p.daddr in rules.ipTenant && p.daddr != METADATA ==>
        var cfg := veths[p.ingressIfindex];
        var passes := && rules.ipTenant[p.daddr] == cfg.tenant && cfg.allowIntra
                      && !Patched(rules, cfg.tenant, p.daddr, p.Ports().1, p.proto);
        && (passes ==> act == Ok && events == old(events) && wouldDeny == old(wouldDeny))
        && (!passes ==> |events| == |old(events)| + 1 && wouldDeny == Add(old(wouldDeny), 1))
        && (!passes ==> act == if cfg.mode == Enforce then Shot else Ok)
      ensures Managed(veths, p, true) && p.daddr in rules.ipTenant && p.daddr != METADATA
        && rules.ipTenant[p.daddr] != veths[p.ingressIfindex].tenant
        && veths[p.ingressIfindex].mode == Enforce
        ==> act == Shot
      ensures Counters(seen, flows) == Observe(veths, old(Counters(seen, flows)), Out(p, now))
      ensures Managed(veths, p, true) ==>
        var cfg := veths[p.ingressIfindex];
        var ok := Allowed(rules, cfg, p.daddr, p.Ports().1, p.proto);
        && wouldDeny == (if ok then old(wouldDeny) else Add(old(wouldDeny), 1))
        && (act == Shot <==> !ok && cfg.mode == Enforce)
        && events == old(events) + (if ok then [] else
             [DenyEvent(p.ingressIfindex, cfg.tenant, p.saddr, p.daddr, p.Ports().1, p.proto,
                        if Patched(rules, cfg.tenant, p.daddr, p.Ports().1, p.proto)
                        then VirtualPatch else PolicyMiss, 0)])
    {
      if !p.ethWhole || !p.isIPv4 || !p.ipWhole || p.ingressIfindex !in veths {
        return Ok;
      }
      var cfg := veths[p.ingressIfindex];
      seen := Add(seen, 1);
      var (sport, dport) := p.Ports();
      AccountFlow(FlowKey(p.ingressIfindex, p.saddr, p.daddr, sport, dport, p.proto), p.len, now);

      var reason := PolicyMiss;
      var vpatch := false;
      var dv := Lookup(rules.deny, cfg.tenant + p.daddr);
      if dv.Some? && (dv.value.port == 0 || dv.value.port == dport)
         && (dv.value.proto == 0 || dv.value.proto == p.proto) {
        vpatch := true;
        reason := VirtualPatch;
      }
      var allowed := false;
      if vpatch {
        allowed := false;
      } else if p.daddr == METADATA {
        allowed := cfg.allowMetadata;
      } else if p.daddr in rules.ipTenant {
        if rules.ipTenant[p.daddr] == cfg.tenant && cfg.allowIntra {
          allowed := true;
        }
      } else if Lookup(rules.egress, cfg.tenant + p.daddr).Some? {
        allowed := true;
      }
      if allowed {
        assert events == old(events) + [];
        return Ok;
      }
      wouldDeny := Add(wouldDeny, 1);
      events := events + [DenyEvent(p.ingressIfindex, cfg.tenant, p.saddr, p.daddr, dport,
                                    p.proto, reason, 0)];
      return if cfg.mode == Enforce then Shot else Ok;
    }

    /** netpolicy_egress: what the container receives.  Accounting always; a scan of the
        payload for TCP when scanning is on. */
    method Egress(p: Packet, now: nat) returns (act: Action)
      requires Valid()
      modifies this`wouldDeny, this`flows, this`events, scratch
      ensures !(p.ethWhole && p.isIPv4 && p.ipWhole && p.ifindex in veths) ==> act == Ok && unchanged(this)
      ensures p.ethWhole && p.isIPv4 && p.ipWhole && p.ifindex in veths ==> p.FlowIn() in flows
      ensures p.proto != 6 || !scanEnabled || |p.payload| < 32 ==>
        act == Ok && events == old(events) && wouldDeny == old(wouldDeny)
      ensures Managed(veths, p, false) && Exploit(sigs, p) && scanEnabled ==>
        && |events| == |old(events)| + 1 && wouldDeny == Add(old(wouldDeny), 1)
        && act == if veths[p.ifindex].mode == Enforce then Shot else Ok
      ensures Counters(seen, flows) == Observe(veths, old(Counters(seen, flows)), In(p, now))
      ensures Managed(veths, p, false) ==>
        exists sig :: && Scanned(sigs, scanEnabled, p, sig)
                      && (act == Shot <==> sig != 0 && veths[p.ifindex].mode == Enforce)
                      && wouldDeny == (if sig == 0 then old(wouldDeny) else Add(old(wouldDeny), 1))
                      && events == old(events) + (if sig == 0 then [] else
                           [DenyEvent(p.ifindex, veths[p.ifindex].tenant, p.saddr, p.daddr,
                                      p.Ports().1, p.proto, SignatureHit, sig)])
    {
      if !p.ethWhole || !p.isIPv4 || !p.ipWhole || p.ifindex !in veths {
        return Ok;
      }
      var cfg := veths[p.ifindex];
      var (sport, dport) := p.Ports();
      AccountReply(FlowKey(p.ifindex, p.daddr, p.saddr, dport, sport, p.proto), p.len, now);
      var sig := 0;
      if p.proto == PROTO_TCP && scanEnabled && p.l4Whole && p.tcpHeaderLen >= 20 && |p.payload| > 0 {
        sig := Scan.ScanInbound(sigs, scratch, p.payload);
        assert Scanned(sigs, scanEnabled, p, sig);
        if sig != 0 {
          wouldDeny := Add(wouldDeny, 1);
          events := events + [DenyEvent(p.ifindex, cfg.tenant, p.saddr, p.daddr, dport, p.proto,
                                        SignatureHit, sig)];
          if cfg.mode == Enforce {
            return Shot;
          }
        }
      }
      assert Scanned(sigs, scanEnabled, p, sig);
      return Ok;
    }
  }

  /** A TCP packet whose payload holds the pattern of an enabled signature in the bytes that are
      scanned, with positive signature ids. */
  ghost predicate Exploit(sigs: seq<Scan.Signature>, p: Packet)
    requires Scan.Slots(sigs)
  {
    && p.proto == 6 && p.l4Whole && p.tcpHeaderLen >= 20 && |p.payload| >= 32
    && (forall k :: 0 <= k < |sigs| ==> sigs[k].id > 0)
    && exists k :: 0 <= k < |sigs| && Scan.Matches(sigs[k], p.payload[..Scan.Window(|p.payload|)])
  }

  /** What the inbound scan makes of a packet: 0 when it is not scanned, otherwise the id of
      the lowest slot whose pattern occurs in the scanned window. */
  ghost predicate Scanned(sigs: seq<Scan.Signature>, enabled: bool, p: Packet, sig: nat)
    requires Scan.Slots(sigs)
  {
    var n := Scan.Window(|p.payload|);
    if p.proto == PROTO_TCP && enabled && p.l4Whole && p.tcpHeaderLen >= 20 && n != 0
    then Scan.LowestMatch(sigs, p.payload[..n], sig)
    else sig == 0
  }

  /** A whole IPv4 packet on a veth the loader has registered. */
  predicate Managed(veths: map<nat, Config>, p: Packet, outbound: bool) {
    p.IPv4() && (if outbound then p.ingressIfindex else p.ifindex) in veths
  }

  /** A packet and its reply on the same veth are one entry, and nothing else is: the keys
      agree exactly when the tuples are mirror images. */
  lemma MirrorSharesEntry(p: Packet, q: Packet)
    ensures RxKey(p.Mirror()) == TxKey(p)
    ensures TxKey(p) == RxKey(q) <==>
      && q.ifindex == p.ingressIfindex && q.proto == p.proto
      && q.saddr == p.daddr && q.daddr == p.saddr
      && q.Ports() == (p.Ports().1, p.Ports().0)
  {
  }

  // ---- conservation ----

  datatype Counters = Counters(seen: nat, flows: Flows)

  datatype Observation = Out(p: Packet, now: nat) | In(p: Packet, now: nat)

  /** The accounting part of the two programs. */
  function Observe(veths: map<nat, Config>, c: Counters, o: Observation): Counters {
    match o
    case Out(p, now) =>
      if Managed(veths, p, true)
      then Counters(Add(c.seen, 1), Tx(c.flows, TxKey(p), p.len, now)) else c
    case In(p, now) =>
      if Managed(veths, p, false) then c.(flows := Rx(c.flows, RxKey(p), p.len, now)) else c
  }

  function Run(veths: map<nat, Config>, os: seq<Observation>): Counters {
    if os == [] then Counters(0, map[])
    else Observe(veths, Run(veths, os[..|os| - 1]), os[|os| - 1])
  }

  /** How many managed packets of one direction a run holds, and their bytes. */
  function Count(veths: map<nat, Config>, os: seq<Observation>, outbound: bool): nat {
    if os == [] then 0
    else
      var o := os[|os| - 1];
      Count(veths, os[..|os| - 1], outbound)
      + (if o.Out? == outbound && Managed(veths, o.p, outbound) then 1 else 0)
  }

  function Bytes(veths: map<nat, Config>, os: seq<Observation>, outbound: bool): nat {
    if os == [] then 0
    else
      var o := os[|os| - 1];
      Bytes(veths, os[..|os| - 1], outbound)
      + (if o.Out? == outbound && Managed(veths, o.p, outbound) then o.p.len else 0)
  }

  // ---- each entry on its own ----

  /** The observation is of a packet that belongs to entry `k`. */
  predicate Touches(veths: map<nat, Config>, o: Observation, k: FlowKey) {
    && o.p.ethWhole && o.p.isIPv4 && o.p.ipWhole
    && if o.Out? then o.p.ingressIfindex in veths && o.p.FlowOut() == k
       else o.p.ifindex in veths && o.p.FlowIn() == k
  }

  /** The packets of one direction that belong to an entry, each counted with its weight. */
  function Weigh(veths: map<nat, Config>, os: seq<Observation>, k: FlowKey, outbound: bool,
                 weight: Packet -> nat): nat
  {
    if os == [] then 0
    else
      var o := os[|os| - 1];
      Weigh(veths, os[..|os| - 1], k, outbound, weight)
      + (if Touches(veths, o, k) && o.Out? == outbound then weight(o.p) else 0)
  }

  /** When the entry was first and last touched. */
  function Times(veths: map<nat, Config>, os: seq<Observation>, k: FlowKey): Option<(nat, nat)> {
    if os == [] then None
    else
      var before, o := Times(veths, os[..|os| - 1], k), os[|os| - 1];
      if !Touches(veths, o, k) then before
      else if before.None? then Some((o.now, o.now)) else Some((before.value.0, o.now))
  }

  function One(p: Packet): nat { 1 }
  function Length(p: Packet): nat { p.len }

  /** What an entry holds after a run. */
  ghost predicate EntryIs(veths: map<nat, Config>, os: seq<Observation>, k: FlowKey, flows: Flows) {
    var t := Times(veths, os, k);
    && (k in flows <==> t.Some?)
    && (k in flows ==>
          && Same(flows[k].packets, Weigh(veths, os, k, true, One))
          && Same(flows[k].bytes, Weigh(veths, os, k, true, Length))
          && Same(flows[k].rxPackets, Weigh(veths, os, k, false, One))
          && Same(flows[k].rxBytes, Weigh(veths, os, k, false, Length))
          && (flows[k].firstNs, flows[k].lastNs) == t.value)
    && (k !in flows ==> forall outbound, weight :: Weigh(veths, os, k, outbound, weight) == 0)
  }

  /** Over any run each entry holds exactly its own packets, as 64-bit counters, and the times of
      its first and its last; an entry exists exactly when a packet of it was seen. */
  lemma {:induction false} EntryExactly(veths: map<nat, Config>, os: seq<Observation>, k: FlowKey)
    ensures EntryIs(veths, os, k, Run(veths, os).flows)
  {
    if os != [] {
      var before, o := os[..|os| - 1], os[|os| - 1];
      EntryExactly(veths, before, k);
      var flows := Run(veths, before).flows;
      assert TxKey(o.p) == o.p.FlowOut() && RxKey(o.p) == o.p.FlowIn();
      if Touches(veths, o, k) {
        EntryTouched(veths, before, o, k, flows);
        assert before + [o] == os;
      } else {
        assert forall outbound, weight ::
            Weigh(veths, os, k, outbound, weight) == Weigh(veths, before, k, outbound, weight);
      }
    }
  }

  lemma WeighSnoc(veths: map<nat, Config>, os: seq<Observation>, o: Observation, k: FlowKey,
                  outbound: bool, weight: Packet -> nat)
    requires Touches(veths, o, k)
    ensures Weigh(veths, os + [o], k, outbound, weight)
      == Weigh(veths, os, k, outbound, weight) + (if o.Out? == outbound then weight(o.p) else 0)
  {
    assert (os + [o])[..|os|] == os;
  }

  lemma EntryTouched(veths: map<nat, Config>, os: seq<Observation>, o: Observation, k: FlowKey, flows: Flows)
    requires EntryIs(veths, os, k, flows) && Touches(veths, o, k)
    ensures EntryIs(veths, os + [o], k, if o.Out? then Tx(flows, k, o.p.len, o.now) else Rx(flows, k, o.p.len, o.now))
  {
    assert (os + [o])[..|os|] == os;
    WeighSnoc(veths, os, o, k, true, One);
    WeighSnoc(veths, os, o, k, true, Length);
    WeighSnoc(veths, os, o, k, false, One);
    WeighSnoc(veths, os, o, k, false, Length);
    if k in flows {
      var s := flows[k];
      if o.Out? {
        SameAdd(s.packets, Weigh(veths, os, k, true, One), s.packets, 1);
        SameAdd(s.bytes, Weigh(veths, os, k, true, Length), s.bytes, o.p.len);
      } else {
        SameAdd(s.rxPackets, Weigh(veths, os, k, false, One), s.rxPackets, 1);
        SameAdd(s.rxBytes, Weigh(veths, os, k, false, Length), s.rxBytes, o.p.len);
      }
    }
  }

  /** The sum of one counter over all entries. */
  ghost function Sum(f: FlowStat -> nat, flows: Flows): nat
    decreases |flows|
  {
    if flows == map[] then 0
    else
      var k :| k in flows;
      f(flows[k]) + Sum(f, flows - {k})
  }

  lemma {:induction false} SumRemove(f: FlowStat -> nat, flows: Flows, k: FlowKey)
    requires k in flows
    ensures Sum(f, flows) == f(flows[k]) + Sum(f, flows - {k})
    decreases |flows|
  {
    var j :| j in flows && Sum(f, flows) == f(flows[j]) + Sum(f, flows - {j});
    if j != k {
      SumRemove(f, flows - {j}, k);
      SumRemove(f, flows - {k}, j);
      assert flows - {j} - {k} == flows - {k} - {j};
    }
  }

  lemma SumUpdate(f: FlowStat -> nat, flows: Flows, k: FlowKey, s: FlowStat)
    ensures Sum(f, flows[k := s])
      == Sum(f, flows) - (if k in flows then f(flows[k]) else 0) + f(s)
  {
    var after := flows[k := s];
    SumRemove(f, after, k);
    if k in flows {
      SumRemove(f, flows, k);
      assert after - {k} == flows - {k};
    } else {
      assert after - {k} == flows;
    }
  }

  /** Equal as 64-bit counters. */
  predicate Same(a: int, b: int) { (a - b) % WRAP == 0 }

  lemma SameAdd(a: int, b: int, old_: nat, n: nat)
    requires Same(a, b)
    ensures Same(a - old_ + Add(old_, n), b + n)
  {
    assert Add(old_, n) == old_ + n - WRAP * ((old_ + n) / WRAP);
    var q := (old_ + n) / WRAP;
    assert a - old_ + Add(old_, n) - (b + n) == (a - b) - WRAP * q;
    MultipleGone(a - b, q);
  }

  lemma MultipleGone(a: int, q: int)
    requires a % WRAP == 0
    ensures (a - WRAP * q) % WRAP == 0
  {
    assert a == WRAP * (a / WRAP);
    assert a - WRAP * q == WRAP * (a / WRAP - q);
  }

  function TxPackets(s: FlowStat): nat { s.packets }
  function TxBytes(s: FlowStat): nat { s.bytes }
  function RxPackets(s: FlowStat): nat { s.rxPackets }
  function RxBytes(s: FlowStat): nat { s.rxBytes }

  lemma TxSums(flows: Flows, k: FlowKey, len: nat, now: nat, pk: int, bt: int)
    requires Same(Sum(TxPackets, flows), pk) && Same(Sum(TxBytes, flows), bt)
    ensures var after := Tx(flows, k, len, now);
      && Same(Sum(TxPackets, after), pk + 1) && Same(Sum(TxBytes, after), bt + len)
      && Sum(RxPackets, after) == Sum(RxPackets, flows) && Sum(RxBytes, after) == Sum(RxBytes, flows)
  {
    var s := Tx(flows, k, len, now)[k];
    SumUpdate(TxPackets, flows, k, s);
    SumUpdate(TxBytes, flows, k, s);
    SumUpdate(RxPackets, flows, k, s);
    SumUpdate(RxBytes, flows, k, s);
    if k in flows {
      SameAdd(Sum(TxPackets, flows), pk, flows[k].packets, 1);
      SameAdd(Sum(TxBytes, flows), bt, flows[k].bytes, len);
    }
  }

  lemma RxSums(flows: Flows, k: FlowKey, len: nat, now: nat, pk: int, bt: int)
    requires Same(Sum(RxPackets, flows), pk) && Same(Sum(RxBytes, flows), bt)
    ensures var after := Rx(flows, k, len, now);
      && Same(Sum(RxPackets, after), pk + 1) && Same(Sum(RxBytes, after), bt + len)
      && Sum(TxPackets, after) == Sum(TxPackets, flows) && Sum(TxBytes, after) == Sum(TxBytes, flows)
  {
    var s := Rx(flows, k, len, now)[k];
    SumUpdate(TxPackets, flows, k, s);
    SumUpdate(TxBytes, flows, k, s);
    SumUpdate(RxPackets, flows, k, s);
    SumUpdate(RxBytes, flows, k, s);
    if k in flows {
      SameAdd(Sum(RxPackets, flows), pk, flows[k].rxPackets, 1);
      SameAdd(Sum(RxBytes, flows), bt, flows[k].rxBytes, len);
    }
  }

  /** Flow accounting conserves, as 64-bit counters: from empty maps and without eviction,
      over any interleaving of the two hooks, transmit packets and bytes summed over all
      entries are those of the managed outbound packets, which the seen counter also counts,
      and receive packets and bytes are those of the managed inbound ones. */
  lemma {:induction false} AccountingConserves(veths: map<nat, Config>, os: seq<Observation>)
    ensures var c := Run(veths, os);
      && Same(c.seen, Count(veths, os, true))
      && Same(Sum(TxPackets, c.flows), Count(veths, os, true))
      && Same(Sum(TxBytes, c.flows), Bytes(veths, os, true))
      && Same(Sum(RxPackets, c.flows), Count(veths, os, false))
      && Same(Sum(RxBytes, c.flows), Bytes(veths, os, false))
  {
    if os != [] {
      var before, o := os[..|os| - 1], os[|os| - 1];
      AccountingConserves(veths, before);
      var c := Run(veths, before);
      var out, back := Count(veths, before, true), Count(veths, before, false);
      var outBytes, backBytes := Bytes(veths, before, true), Bytes(veths, before, false);
      if o.Out? && Managed(veths, o.p, true) {
        TxSums(c.flows, TxKey(o.p), o.p.len, o.now, out, outBytes);
        SameAdd(c.seen, out, c.seen, 1);
      } else if o.In? && Managed(veths, o.p, false) {
        RxSums(c.flows, RxKey(o.p), o.p.len, o.now, back, backBytes);
      }
    }
  }
}
