/** The inbound exploit-signature scan of the packet program: one bounded loop over the
    flattened (slot, offset) space that stands in for substring search
    (experimental/ebpf-phaseA/netpolicy.bpf.c). */
module SignatureScan {

  const SIG_MAX_LEN := 32
  const SIG_MAX_COUNT := 32
  const SCAN_WINDOW := 256
  const SIG_SCAN_MIN := 32

  type Byte = b: int | 0 <= b < 256

  /** A slot of the signature map.  `len` is a byte of the map value, so it may exceed the
      pattern array. */
  datatype Signature = Signature(len: Byte, enabled: bool, id: nat, pat: seq<Byte>)

  ghost predicate Slots(sigs: seq<Signature>) {
    |sigs| == SIG_MAX_COUNT && forall k :: 0 <= k < |sigs| ==> |sigs[k].pat| == SIG_MAX_LEN
  }

  /** The window a payload of this length gets: the largest load that fits, or none. */
  function Window(avail: nat): nat {
    if avail >= 256 then 256
    else if avail >= 128 then 128
    else if avail >= 64 then 64
    else if avail >= SIG_SCAN_MIN then SIG_SCAN_MIN
    else 0
  }

  /** The largest of 256, 128, 64 and 32 that fits, and none for less. */
  lemma WindowIsLargest(avail: nat, n: nat)
    ensures Window(avail) <= avail && Window(avail) in {0, 32, 64, 128, 256}
    ensures n in {32, 64, 128, 256} && n <= avail ==> n <= Window(avail)
  {
  }

  // ---- the meaning of a scan ----

  ghost predicate OccursAt(pat: seq<Byte>, text: seq<Byte>, i: nat) {
    i + |pat| <= |text| && text[i..i + |pat|] == pat
  }

  ghost predicate Occurs(pat: seq<Byte>, text: seq<Byte>) {
    exists i: nat :: OccursAt(pat, text, i)
  }

  /** An enabled slot with a usable length whose pattern occurs in the text. */
  ghost predicate Matches(s: Signature, text: seq<Byte>)
    requires |s.pat| == SIG_MAX_LEN
  {
    s.enabled && 1 <= s.len <= SIG_MAX_LEN && Occurs(s.pat[..s.len], text)
  }

  /** `id` is that of the lowest matching slot, or 0 when no slot matches. */
  ghost predicate LowestMatch(sigs: seq<Signature>, text: seq<Byte>, id: nat)
    requires Slots(sigs)
  {
    if exists k :: 0 <= k < |sigs| && Matches(sigs[k], text)
    then exists k :: && 0 <= k < |sigs| && Matches(sigs[k], text) && id == sigs[k].id
                     && forall j :: 0 <= j < k ==> !Matches(sigs[j], text)
    else id == 0
  }

  /** `LowestMatch` determines the result. */
  lemma LowestMatchUnique(sigs: seq<Signature>, text: seq<Byte>, x: nat, y: nat)
    requires Slots(sigs) && LowestMatch(sigs, text, x) && LowestMatch(sigs, text, y)
    ensures x == y
  {
    if exists k :: 0 <= k < |sigs| && Matches(sigs[k], text) {
      var k :| && 0 <= k < |sigs| && Matches(sigs[k], text) && x == sigs[k].id
               && forall j :: 0 <= j < k ==> !Matches(sigs[j], text);
      var l :| && 0 <= l < |sigs| && Matches(sigs[l], text) && y == sigs[l].id
               && forall j :: 0 <= j < l ==> !Matches(sigs[j], text);
      assert k == l;
    }
  }

  /** What the callback tests at one (slot, offset) pair. */
  ghost predicate HitAt(s: Signature, text: seq<Byte>, i: nat)
    requires |s.pat| == SIG_MAX_LEN
  {
    s.enabled && 1 <= s.len <= SIG_MAX_LEN && OccursAt(s.pat[..s.len], text, i)
  }

  // ---- the program ----

  class ScanCtx {
    const n: nat
    var matchId: nat

    constructor (n: nat)
      ensures this.n == n && matchId == 0
    {
      this.n := n;
      matchId := 0;
    }
  }

  /** The unrolled compare: the masked index never wraps while a pattern byte is compared. */
  method Compare(buf: array<Byte>, s: Signature, i: nat, slen: nat, n: nat) returns (miss: bool)
    requires buf.Length == SCAN_WINDOW && |s.pat| == SIG_MAX_LEN
    requires slen <= SIG_MAX_LEN && i + slen <= n <= SCAN_WINDOW
    ensures !miss <==> buf[i..i + slen] == s.pat[..slen]
  {
    miss := false;
    for j := 0 to SIG_MAX_LEN
      invariant !miss <==> forall m :: 0 <= m < j && m < slen ==> buf[i + m] == s.pat[m]
    {
      if j < slen {
        var k := (i + j) % SCAN_WINDOW;
        assert k == i + j;
        if buf[k] != s.pat[j] {
          miss := true;
        }
      }
    }
    if !miss {
      assert forall m :: 0 <= m < slen ==> buf[i..i + slen][m] == buf[i + m] == s.pat[..slen][m];
    } else {
      var m :| 0 <= m < SIG_MAX_LEN && m < slen && buf[i + m] != s.pat[m];
      assert buf[i..i + slen][m] != s.pat[..slen][m];
    }
  }

  /** sig_match_at, the bpf_loop callback. */
  method SigMatchAt(sigs: seq<Signature>, buf: array<Byte>, c: ScanCtx, idx: nat) returns (stop: bool)
    requires Slots(sigs) && buf.Length == SCAN_WINDOW && c.n <= SCAN_WINDOW
    requires idx < SIG_MAX_COUNT * SCAN_WINDOW
    modifies c
    ensures var s, i := sigs[idx / SCAN_WINDOW], idx % SCAN_WINDOW;
      if old(c.matchId) != 0 then stop && c.matchId == old(c.matchId)
      else && stop == HitAt(s, buf[..c.n], i)
           && c.matchId == if stop then s.id else 0
  {
    if c.matchId != 0 {
      return true;
    }
    var si := idx / SCAN_WINDOW;
    var i := idx % SCAN_WINDOW;
    var s := sigs[si];
    if !s.enabled {
      return false;
    }
    var slen := s.len;
    if slen == 0 || slen > SIG_MAX_LEN || i + slen > c.n {
      return false;
    }
    var miss := Compare(buf, s, i, slen, c.n);
    assert buf[..c.n][i..i + slen] == buf[i..i + slen];
    if !miss {
      c.matchId := s.id;
      return true;
    }
    return false;
  }

  /** bpf_skb_load_bytes of the window into the front of the scratch buffer, which may hold
      bytes of earlier packets. */
  method Load(buf: array<Byte>, payload: seq<Byte>, n: nat)
    requires n <= |payload| && n <= buf.Length
    modifies buf
    ensures buf[..n] == payload[..n]
  {
    for i := 0 to n
      invariant forall m :: 0 <= m < i ==> buf[m] == payload[m]
    {
      buf[i] := payload[i];
    }
  }

  /** No pair below `idx` hits, in flattened order. */
  ghost predicate NoHitBelow(sigs: seq<Signature>, text: seq<Byte>, idx: nat)
    requires Slots(sigs) && idx <= SIG_MAX_COUNT * SCAN_WINDOW
  {
    forall q, i :: 0 <= q < SIG_MAX_COUNT && 0 <= i < SCAN_WINDOW && q * SCAN_WINDOW + i < idx ==>
      !HitAt(sigs[q], text, i)
  }

  lemma NoHitNoMatch(sigs: seq<Signature>, text: seq<Byte>, idx: nat, q: nat)
    requires Slots(sigs) && |text| <= SCAN_WINDOW && idx <= SIG_MAX_COUNT * SCAN_WINDOW
    requires NoHitBelow(sigs, text, idx) && (q + 1) * SCAN_WINDOW <= idx
    ensures !Matches(sigs[q], text)
  {
    if Matches(sigs[q], text) {
      var i: nat :| OccursAt(sigs[q].pat[..sigs[q].len], text, i);
      assert HitAt(sigs[q], text, i) && q * SCAN_WINDOW + i < idx;
      assert false;
    }
  }

  lemma FirstHitIsLowest(sigs: seq<Signature>, text: seq<Byte>, idx: nat)
    requires Slots(sigs) && |text| <= SCAN_WINDOW && idx < SIG_MAX_COUNT * SCAN_WINDOW
    requires NoHitBelow(sigs, text, idx)
    requires HitAt(sigs[idx / SCAN_WINDOW], text, idx % SCAN_WINDOW)
    ensures LowestMatch(sigs, text, sigs[idx / SCAN_WINDOW].id)
  {
    var k := idx / SCAN_WINDOW;
    assert Matches(sigs[k], text);
    forall j | 0 <= j < k ensures !Matches(sigs[j], text) {
      NoHitNoMatch(sigs, text, idx, j);
    }
  }

  lemma NoHitIsNone(sigs: seq<Signature>, text: seq<Byte>)
    requires Slots(sigs) && |text| <= SCAN_WINDOW
    requires NoHitBelow(sigs, text, SIG_MAX_COUNT * SCAN_WINDOW)
    ensures LowestMatch(sigs, text, 0)
  {
    forall k | 0 <= k < |sigs| ensures !Matches(sigs[k], text) {
      NoHitNoMatch(sigs, text, SIG_MAX_COUNT * SCAN_WINDOW, k);
    }
  }

  /** scan_inbound: the id of the lowest enabled slot whose pattern occurs in the scanned
      window, 0 if none does or the payload is too short, whatever the scratch buffer held. */
  method ScanInbound(sigs: seq<Signature>, buf: array<Byte>, payload: seq<Byte>) returns (id: nat)
    requires Slots(sigs) && buf.Length == SCAN_WINDOW
    modifies buf
    ensures Window(|payload|) == 0 ==> id == 0
    ensures Window(|payload|) != 0 ==> LowestMatch(sigs, payload[..Window(|payload|)], id)
  {
    var avail := |payload|;
    var n: nat;
    if avail >= 256 {
      Load(buf, payload, 256);
      n := 256;
    } else if avail >= 128 {
      Load(buf, payload, 128);
      n := 128;
    } else if avail >= 64 {
      Load(buf, payload, 64);
      n := 64;
    } else if avail >= SIG_SCAN_MIN {
      Load(buf, payload, SIG_SCAN_MIN);
      n := SIG_SCAN_MIN;
    } else {
      return 0;
    }
    id := Loop(sigs, buf, n);
  }

  /** The bpf_loop call of scan_inbound. */
  method Loop(sigs: seq<Signature>, buf: array<Byte>, n: nat) returns (id: nat)
    requires Slots(sigs) && buf.Length == SCAN_WINDOW && n <= SCAN_WINDOW
    ensures LowestMatch(sigs, buf[..n], id)
  {
    var c := new ScanCtx(n);
    ghost var text := buf[..n];
    var idx := 0;
    while idx < SIG_MAX_COUNT * SCAN_WINDOW
      invariant 0 <= idx <= SIG_MAX_COUNT * SCAN_WINDOW
      invariant c.matchId == 0
      invariant NoHitBelow(sigs, text, idx)
      modifies c
    {
      var stop := SigMatchAt(sigs, buf, c, idx);
      if stop {
        FirstHitIsLowest(sigs, text, idx);
        return c.matchId;
      }
      idx := idx + 1;
    }
    NoHitIsNone(sigs, text);
    return c.matchId;
  }
}
