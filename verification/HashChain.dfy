/** The audit log's tamper-evidence chain: the length-prefixed serialization of a row, its
    digest, and the verifier that replays the chain (internal/audit/hash_chain.go). */
module HashChain {
  import opened Wrappers
  import opened Decimal

  /** SHA-256 (section 6.2 of FIPS 180-4) printed in hex: any function from byte strings to
      64-character strings.  Every theorem below holds for every such function; nothing
      assumes that it is injective. */
  type Digest = h: string -> string | forall s :: |h(s)| == 64
    witness (s: string) => seq(64, i => '0')

  const HASH_EMPTY := ""
  const HASH_VERSION1 := 1
  const HASH_VERSION2 := 2
  const CURRENT_HASH_VERSION := HASH_VERSION2

  /** The columns of AuditEntry that a digest may cover; the id is not one of them. */
  datatype Entry = Entry(
    unixNano: int, username: string, action: string, resourceType: string, resourceID: string,
    detail: string, sourceIP: string, statusCode: int,
    actor: string, delegationChain: string, tokenID: string, orgID: string, runID: string)

  datatype Row = Row(id: int, entry: Entry, rowHash: string, prevHash: string, version: int)

  predicate KnownVersion(v: int) { v == HASH_VERSION1 || v == HASH_VERSION2 }

  /** One length-prefixed field: the decimal byte count, ':', the raw bytes. */
  function Field(s: string): string { Itoa(|s|) + ":" + s }

  function Concat(fs: seq<string>): string {
    if fs == [] then "" else Field(fs[0]) + Concat(fs[1..])
  }

  function BaseFields(e: Entry): seq<string> {
    [Itoa(e.unixNano), e.username, e.action, e.resourceType, e.resourceID, e.detail,
     e.sourceIP, Itoa(e.statusCode)]
  }

  function AttributionFields(e: Entry): seq<string> {
    [e.actor, e.delegationChain, e.tokenID, e.orgID, e.runID]
  }

  /** The field list version `v` hashes, the previous hash last. */
  function HashedFields(e: Entry, prev: string, v: int): seq<string> {
    BaseFields(e) + (if v == HASH_VERSION2 then AttributionFields(e) else []) + [prev]
  }

  function Serialize(e: Entry, prev: string, v: int): string {
    Concat(HashedFields(e, prev, v))
  }

  /** A way of sealing rows: a digest over a serialization.  The chain laws that do not
      depend on how a row is written out are stated for every scheme; `AuditScheme` is the
      one the program uses. */
  datatype Scheme = Scheme(digest: Digest, serialize: (Entry, string, int) -> string) {
    function Seal(e: Entry, prev: string, v: int): string { digest(serialize(e, prev, v)) }

    /** The result of computeRowHash: an unknown version is an error. */
    function RowHash(e: Entry, prev: string, v: int): Option<string> {
      if KnownVersion(v) then Some(Seal(e, prev, v)) else None
    }
  }

  function AuditScheme(H: Digest): Scheme { Scheme(H, Serialize) }

  /** Agreement on everything version `v` puts under the digest. */
  predicate SameHashed(d: Entry, e: Entry, v: int) {
    && d.unixNano == e.unixNano && d.username == e.username && d.action == e.action
    && d.resourceType == e.resourceType && d.resourceID == e.resourceID
    && d.detail == e.detail && d.sourceIP == e.sourceIP && d.statusCode == e.statusCode
    && (v == HASH_VERSION2 ==>
          && d.actor == e.actor && d.delegationChain == e.delegationChain
          && d.tokenID == e.tokenID && d.orgID == e.orgID && d.runID == e.runID)
  }

  /** The layout under the digest, field by field, of each version. */
  lemma SerializedAs(e: Entry, prev: string)
    ensures Serialize(e, prev, 1)
      == Concat([Itoa(e.unixNano), e.username, e.action, e.resourceType, e.resourceID, e.detail,
                 e.sourceIP, Itoa(e.statusCode), prev])
    ensures Serialize(e, prev, 2)
      == Concat([Itoa(e.unixNano), e.username, e.action, e.resourceType, e.resourceID, e.detail,
                 e.sourceIP, Itoa(e.statusCode),
                 e.actor, e.delegationChain, e.tokenID, e.orgID, e.runID, prev])
  {
    assert HashedFields(e, prev, 1)
        == [Itoa(e.unixNano), e.username, e.action, e.resourceType, e.resourceID, e.detail,
            e.sourceIP, Itoa(e.statusCode), prev];
    assert HashedFields(e, prev, 2)
        == [Itoa(e.unixNano), e.username, e.action, e.resourceType, e.resourceID, e.detail,
            e.sourceIP, Itoa(e.statusCode),
            e.actor, e.delegationChain, e.tokenID, e.orgID, e.runID, prev];
  }

  // ---- computeRowHash: a running digest fed field by field ----

  /** The bytes written so far to the running digest. */
  class HashWriter {
    var written: string

    constructor ()
      ensures written == ""
    {
      written := "";
    }

    method WriteField(s: string)
      modifies this
      ensures written == old(written) + Field(s)
    {
      written := written + (Itoa(|s|) + ":");
      written := written + s;
    }
  }

  lemma {:induction false} ConcatAppend(fs: seq<string>, gs: seq<string>)
    ensures Concat(fs + gs) == Concat(fs) + Concat(gs)
  {
    if fs == [] {
      assert fs + gs == gs;
    } else {
      assert (fs + gs)[1..] == fs[1..] + gs;
      ConcatAppend(fs[1..], gs);
    }
  }

  lemma ConcatOne(s: string)
    ensures Concat([s]) == Field(s)
  {
    assert [s][1..] == [];
  }

  method WriteFields(w: HashWriter, fs: seq<string>, ghost before: seq<string>)
    requires w.written == Concat(before)
    modifies w
    ensures w.written == Concat(before + fs)
  {
    if fs == [] {
      assert before + fs == before;
    } else {
      w.WriteField(fs[0]);
      ConcatOne(fs[0]);
      ConcatAppend(before, [fs[0]]);
      WriteFields(w, fs[1..], before + [fs[0]]);
      assert before + [fs[0]] + fs[1..] == before + fs;
    }
  }

  method DigestFields(H: Digest, base: seq<string>, own: seq<string>, prev: string)
    returns (h: string)
    ensures h == H(Concat(base + own + [prev]))
  {
    var w := new HashWriter();
    WriteFields(w, base, []);
    assert [] + base == base;
    WriteFields(w, own, base);
    WriteFields(w, [prev], base + own);
    return H(w.written);
  }

  /** computeRowHash: the base fields, then the version's own, then the previous hash.  An
      unknown version is an error, never a digest under the wrong field set. */
  method ComputeRowHash(H: Digest, e: Entry, prev: string, version: int)
    returns (h: Option<string>)
    ensures h == AuditScheme(H).RowHash(e, prev, version)
    ensures h.None? <==> !KnownVersion(version)
  {
    if version == HASH_VERSION1 {
      var d := DigestFields(H, BaseFields(e), [], prev);
      return Some(d);
    } else if version == HASH_VERSION2 {
      var d := DigestFields(H, BaseFields(e), AttributionFields(e), prev);
      return Some(d);
    } else {
      return None;
    }
  }

  // ---- unique decoding ----

  /** A decimal prefix ends at the first ':' and nowhere else. */
  lemma {:induction false} PrefixUnique(a: string, b: string, x: string, y: string)
    requires ':' !in a && ':' !in b
    requires a + ":" + x == b + ":" + y
    ensures a == b && x == y
  {
    var s := a + ":" + x;
    var t := b + ":" + y;
    assert s[|a|] == ':' && t[|b|] == ':';
    assert forall i :: 0 <= i < |a| ==> s[i] == a[i];
    assert forall i :: 0 <= i < |b| ==> t[i] == b[i];
    assert |a| == |b|;
    assert s[..|a|] == a && t[..|b|] == b;
    assert s[|a| + 1..] == x && t[|b| + 1..] == y;
  }

  lemma FieldUnique(s: string, t: string, x: string, y: string)
    requires Field(s) + x == Field(t) + y
    ensures s == t && x == y
  {
    if ':' in Itoa(|s|) { ItoaChars(|s|, ':'); }
    if ':' in Itoa(|t|) { ItoaChars(|t|, ':'); }
    assert Field(s) + x == Itoa(|s|) + ":" + (s + x);
    assert Field(t) + y == Itoa(|t|) + ":" + (t + y);
    PrefixUnique(Itoa(|s|), Itoa(|t|), s + x, t + y);
    ItoaInjective(|s|, |t|);
    assert (s + x)[..|s|] == s && (t + y)[..|t|] == t;
    assert (s + x)[|s|..] == x && (t + y)[|t|..] == y;
  }

  /** No two field lists share a serialization, whatever bytes the fields hold and however
      many fields there are: the claim "impossible to ambiguously rearrange". */
  lemma {:induction false} ConcatInjective(fs: seq<string>, gs: seq<string>)
    requires Concat(fs) == Concat(gs)
    ensures fs == gs
  {
    if fs != [] && gs != [] {
      FieldUnique(fs[0], gs[0], Concat(fs[1..]), Concat(gs[1..]));
      ConcatInjective(fs[1..], gs[1..]);
      assert fs == [fs[0]] + fs[1..] && gs == [gs[0]] + gs[1..];
    }
  }

  /** Equal serializations come from equal versions, equal hashed fields and equal previous
      hashes: version 1 and version 2 rows never share one. */
  lemma SerializeInjective(d: Entry, p: string, v: int, e: Entry, q: string, w: int)
    requires KnownVersion(v) && KnownVersion(w)
    ensures Serialize(d, p, v) == Serialize(e, q, w)
            <==> v == w && p == q && SameHashed(d, e, v)
  {
    var fs, gs := HashedFields(d, p, v), HashedFields(e, q, w);
    if Serialize(d, p, v) == Serialize(e, q, w) {
      ConcatInjective(fs, gs);
      assert |fs| == if v == HASH_VERSION2 then 14 else 9;
      assert v == w;
      assert fs[|fs| - 1] == p && gs[|gs| - 1] == q;
      assert forall i :: 0 <= i < 8 ==> fs[i] == BaseFields(d)[i] && gs[i] == BaseFields(e)[i];
      assert BaseFields(d) == fs[..8] == gs[..8] == BaseFields(e);
      BaseFieldsUnique(d, e);
      if v == HASH_VERSION2 {
        assert AttributionFields(d) == fs[8..13] == gs[8..13] == AttributionFields(e);
        AttributionFieldsUnique(d, e);
      }
    }
    if v == w && p == q && SameHashed(d, e, v) {
      assert fs == gs;
    }
  }

  lemma BaseFieldsUnique(d: Entry, e: Entry)
    requires BaseFields(d) == BaseFields(e)
    ensures SameHashed(d, e, HASH_VERSION1)
  {
    var x, y := BaseFields(d), BaseFields(e);
    assert x[0] == y[0] && x[1] == y[1] && x[2] == y[2] && x[3] == y[3];
    assert x[4] == y[4] && x[5] == y[5] && x[6] == y[6] && x[7] == y[7];
    ItoaInjective(d.unixNano, e.unixNano);
    ItoaInjective(d.statusCode, e.statusCode);
  }

  lemma AttributionFieldsUnique(d: Entry, e: Entry)
    requires AttributionFields(d) == AttributionFields(e)
    ensures d.actor == e.actor && d.delegationChain == e.delegationChain
    ensures d.tokenID == e.tokenID && d.orgID == e.orgID && d.runID == e.runID
  {
    var x, y := AttributionFields(d), AttributionFields(e);
    assert x[0] == y[0] && x[1] == y[1] && x[2] == y[2] && x[3] == y[3] && x[4] == y[4];
  }

  // ---- VerifyChain ----

  datatype Reason = PrevHashMismatch | UnknownVersion | RowHashMismatch

  /** VerifyChain's two results: (0, nil), or a row id with an error. */
  datatype Verdict = Intact | Broken(firstBad: int, reason: Reason)

  /** What is wrong with row `r` after a predecessor whose hash is `prev`, if anything. */
  function Fault(c: Scheme, r: Row, prev: string): Option<Reason> {
    if r.prevHash != prev then Some(PrevHashMismatch)
    else if !KnownVersion(r.version) then Some(UnknownVersion)
    else if r.rowHash != c.Seal(r.entry, r.prevHash, r.version) then Some(RowHashMismatch)
    else None
  }

  /** The hash a row list hands on to its successor. */
  function Tip(rows: seq<Row>, root: string): string {
    if rows == [] then root else rows[|rows| - 1].rowHash
  }

  /** The hash row `i` must refer to. */
  function Before(rows: seq<Row>, root: string, i: nat): string
    requires i <= |rows|
  {
    if i == 0 then root else rows[i - 1].rowHash
  }

  predicate Links(c: Scheme, rows: seq<Row>, root: string, i: nat)
    requires i < |rows|
  {
    Fault(c, rows[i], Before(rows, root, i)) == None
  }

  /** The chain property: every row refers to its predecessor and carries its own digest. */
  ghost predicate Chained(c: Scheme, rows: seq<Row>, root: string) {
    forall i :: 0 <= i < |rows| ==> Links(c, rows, root, i)
  }

  /** Row `k` is the first that fails, for the given reason. */
  ghost predicate FirstFault(c: Scheme, rows: seq<Row>, root: string, k: nat, why: Reason) {
    && k < |rows|
    && (forall j :: 0 <= j < k ==> Links(c, rows, root, j))
    && Fault(c, rows[k], Before(rows, root, k)) == Some(why)
  }

  /** A row that refers to the one before it, the first to `root`, and carries its own digest,
      in its own columns. */
  predicate GoodAt(c: Scheme, rows: seq<Row>, root: string, i: nat)
    requires i < |rows|
  {
    var r := rows[i];
    && r.prevHash == (if i == 0 then root else rows[i - 1].rowHash)
    && (r.version == 1 || r.version == 2)
    && r.rowHash == c.digest(c.serialize(r.entry, r.prevHash, r.version))
  }

  /** What a chain is. */
  lemma ChainedExactly(c: Scheme, rows: seq<Row>, root: string)
    ensures Chained(c, rows, root) <==> forall i :: 0 <= i < |rows| ==> GoodAt(c, rows, root, i)
  {
    forall i | 0 <= i < |rows| ensures Links(c, rows, root, i) <==> GoodAt(c, rows, root, i) {
    }
  }

  /** Row `k` is wrong, and why: the tests are made in this order. */
  ghost predicate WrongAt(c: Scheme, rows: seq<Row>, root: string, k: nat, why: Reason)
    requires k < |rows|
  {
    var r, prev := rows[k], if k == 0 then root else rows[k - 1].rowHash;
    match why
    case PrevHashMismatch => r.prevHash != prev
    case UnknownVersion => r.prevHash == prev && r.version != 1 && r.version != 2
    case RowHashMismatch =>
      && r.prevHash == prev && (r.version == 1 || r.version == 2)
      && r.rowHash != c.digest(c.serialize(r.entry, r.prevHash, r.version))
  }

  /** The first wrong row, with a chain before it. */
  ghost predicate FirstWrong(c: Scheme, rows: seq<Row>, root: string, k: nat, why: Reason) {
    k < |rows| && WrongAt(c, rows, root, k, why) && Chained(c, rows[..k], root)
  }

  lemma FaultIsWrong(c: Scheme, rows: seq<Row>, root: string, k: nat, why: Reason)
    requires FirstFault(c, rows, root, k, why)
    ensures FirstWrong(c, rows, root, k, why)
  {
    forall j | 0 <= j < k ensures Links(c, rows[..k], root, j) {
      assert Links(c, rows, root, j);
    }
  }

  /** VerifyChain, which computes each row's hash under the row's own version. */
  method VerifyChain(c: Scheme, rows: seq<Row>, expectedRoot: string) returns (v: Verdict)
    ensures v.Intact? <==> Chained(c, rows, expectedRoot)
    ensures v.Broken? ==>
      exists k: nat :: && FirstFault(c, rows, expectedRoot, k, v.reason)
                       && FirstWrong(c, rows, expectedRoot, k, v.reason)
                       && rows[k].id == v.firstBad
  {
    var prev := expectedRoot;
    for i := 0 to |rows|
      invariant prev == Before(rows, expectedRoot, i)
      invariant forall j :: 0 <= j < i ==> Links(c, rows, expectedRoot, j)
    {
      var e := rows[i];
      assert Links(c, rows, expectedRoot, i) <==> Fault(c, e, prev) == None;
      if e.prevHash != prev {
        FaultIsWrong(c, rows, expectedRoot, i, PrevHashMismatch);
        return Broken(e.id, PrevHashMismatch);
      }
      var want := c.RowHash(e.entry, e.prevHash, e.version);
      if want.None? {
        FaultIsWrong(c, rows, expectedRoot, i, UnknownVersion);
        return Broken(e.id, UnknownVersion);
      }
      if e.rowHash != want.value {
        FaultIsWrong(c, rows, expectedRoot, i, RowHashMismatch);
        return Broken(e.id, RowHashMismatch);
      }
      prev := e.rowHash;
    }
    return Intact;
  }

  /** Verification composes: a concatenation is intact exactly when its first part is, and
      its second part is from the first part's tip. */
  lemma ChainedConcat(c: Scheme, a: seq<Row>, b: seq<Row>, root: string)
    ensures Chained(c, a + b, root) <==> Chained(c, a, root) && Chained(c, b, Tip(a, root))
  {
    var ab := a + b;
    assert forall i :: 0 <= i < |a| ==> Links(c, ab, root, i) == Links(c, a, root, i);
    assert forall i :: 0 <= i < |b| ==>
        Links(c, ab, root, |a| + i) == Links(c, b, Tip(a, root), i);
    if Chained(c, ab, root) {
      forall i | 0 <= i < |a| ensures Links(c, a, root, i) { assert Links(c, ab, root, i); }
      forall i | 0 <= i < |b| ensures Links(c, b, Tip(a, root), i) {
        assert Links(c, ab, root, |a| + i);
      }
    }
    if Chained(c, a, root) && Chained(c, b, Tip(a, root)) {
      forall i | 0 <= i < |ab| ensures Links(c, ab, root, i) {
        if i < |a| {
          assert Links(c, a, root, i);
        } else {
          assert Links(c, b, Tip(a, root), i - |a|);
        }
      }
    }
  }

  lemma ChainedSnoc(c: Scheme, a: seq<Row>, r: Row, root: string)
    ensures Chained(c, a + [r], root) <==> Chained(c, a, root) && Fault(c, r, Tip(a, root)) == None
  {
    ChainedConcat(c, a, [r], root);
    assert Links(c, [r], Tip(a, root), 0) == (Fault(c, r, Tip(a, root)) == None);
  }

  // ---- tamper evidence ----

  /** Row `r` and row `s` carry the same hashed fields, version and chain columns. */
  predicate SameRow(r: Row, s: Row) {
    && r.version == s.version && r.prevHash == s.prevHash && r.rowHash == s.rowHash
    && SameHashed(r.entry, s.entry, r.version)
  }

  predicate SameRows(a: seq<Row>, b: seq<Row>) {
    |a| == |b| && forall i :: 0 <= i < |a| ==> SameRow(a[i], b[i])
  }

  /** Two byte strings to compare: the serializations of the last rows on which the lists
      part, walking back from the tips. */
  function Suspects(c: Scheme, a: seq<Row>, b: seq<Row>): (string, string)
    requires a != [] && b != []
  {
    var r, s := a[|a| - 1], b[|b| - 1];
    var x := c.serialize(r.entry, r.prevHash, r.version);
    var y := c.serialize(s.entry, s.prevHash, s.version);
    if x != y || |a| == 1 || |b| == 1 then (x, y)
    else Suspects(c, a[..|a| - 1], b[..|b| - 1])
  }

  ghost predicate Collides(H: Digest, p: (string, string)) { p.0 != p.1 && H(p.0) == H(p.1) }

  /** A serialization that determines what it serializes. */
  ghost predicate Decodable(serialize: (Entry, string, int) -> string) {
    forall d, p, v, e, q, w ::
      KnownVersion(v) && KnownVersion(w) && serialize(d, p, v) == serialize(e, q, w) ==>
        v == w && p == q && SameHashed(d, e, v)
  }

  lemma {:induction false} SameTipSameRows(c: Scheme, a: seq<Row>, b: seq<Row>)
    requires Decodable(c.serialize)
    requires a != [] && b != []
    requires Chained(c, a, HASH_EMPTY) && Chained(c, b, HASH_EMPTY)
    requires a[|a| - 1].rowHash == b[|b| - 1].rowHash
    ensures SameRows(a, b) || Collides(c.digest, Suspects(c, a, b))
  {
    var a', r := a[..|a| - 1], a[|a| - 1];
    var b', s := b[..|b| - 1], b[|b| - 1];
    assert a == a' + [r] && b == b' + [s];
    ChainedSnoc(c, a', r, HASH_EMPTY);
    ChainedSnoc(c, b', s, HASH_EMPTY);
    if c.serialize(r.entry, r.prevHash, r.version) == c.serialize(s.entry, s.prevHash, s.version) {
      assert SameRow(r, s);
      if a' != [] { TipNotEmpty(c, a'); }
      if b' != [] { TipNotEmpty(c, b'); }
      if a' != [] && b' != [] {
        SameTipSameRows(c, a', b');
      }
      if SameRows(a', b') {
        SameRowsSnoc(a', r, b', s);
      }
    }
  }

  lemma SameRowsSnoc(a: seq<Row>, r: Row, b: seq<Row>, s: Row)
    requires SameRows(a, b) && SameRow(r, s)
    ensures SameRows(a + [r], b + [s])
  {
  }

  lemma TipNotEmpty(c: Scheme, a: seq<Row>)
    requires a != [] && Chained(c, a, HASH_EMPTY)
    ensures Tip(a, HASH_EMPTY) != HASH_EMPTY
  {
    assert Links(c, a, HASH_EMPTY, |a| - 1);
  }

  lemma SerializeDecodable()
    ensures Decodable(Serialize)
  {
    forall d, p, v, e, q, w | KnownVersion(v) && KnownVersion(w)
                              && Serialize(d, p, v) == Serialize(e, q, w)
      ensures v == w && p == q && SameHashed(d, e, v)
    {
      SerializeInjective(d, p, v, e, q, w);
    }
  }

  /** Tamper evidence.  Two non-empty logs that both verify from the empty root and end in
      the same row hash have the same length and the same rows, or `Suspects` computes a
      collision of the digest. */
  lemma TamperEvident(H: Digest, a: seq<Row>, b: seq<Row>)
    requires a != [] && b != []
    requires Chained(AuditScheme(H), a, HASH_EMPTY) && Chained(AuditScheme(H), b, HASH_EMPTY)
    requires a[|a| - 1].rowHash == b[|b| - 1].rowHash
    ensures SameRows(a, b) || Collides(H, Suspects(AuditScheme(H), a, b))
  {
    SerializeDecodable();
    SameTipSameRows(AuditScheme(H), a, b);
  }

  /** What the chain cannot see, exactly: an edit of row `k` that keeps its chain columns and
      version survives verification if it touches only the id and columns the row's version
      leaves unhashed; any other surviving edit is a collision. */
  lemma EditSurvives(H: Digest, rows: seq<Row>, k: nat, id: int, e: Entry)
    requires k < |rows| && Chained(AuditScheme(H), rows, HASH_EMPTY)
    ensures
      var r := rows[k];
      var old_, new_ := Serialize(r.entry, r.prevHash, r.version), Serialize(e, r.prevHash, r.version);
      Chained(AuditScheme(H), rows[k := r.(id := id, entry := e)], HASH_EMPTY)
      <==> SameHashed(r.entry, e, r.version) || Collides(H, (old_, new_))
  {
    var c, r := AuditScheme(H), rows[k];
    EditKeepsChain(c, rows, k, id, e);
    assert Links(c, rows, HASH_EMPTY, k);
    SerializeInjective(r.entry, r.prevHash, r.version, e, r.prevHash, r.version);
  }

  lemma EditKeepsChain(c: Scheme, rows: seq<Row>, k: nat, id: int, e: Entry)
    requires k < |rows| && Chained(c, rows, HASH_EMPTY)
    ensures Chained(c, rows[k := rows[k].(id := id, entry := e)], HASH_EMPTY)
            <==> rows[k].rowHash == c.Seal(e, rows[k].prevHash, rows[k].version)
  {
    var edited := rows[k := rows[k].(id := id, entry := e)];
    forall i | 0 <= i < |rows|
      ensures Before(edited, HASH_EMPTY, i) == Before(rows, HASH_EMPTY, i)
      ensures Links(c, rows, HASH_EMPTY, i)
    {
    }
    assert forall i :: 0 <= i < |rows| && i != k ==> Links(c, edited, HASH_EMPTY, i);
    assert Links(c, edited, HASH_EMPTY, k)
      <==> rows[k].rowHash == c.Seal(e, rows[k].prevHash, rows[k].version);
  }
}
