/** The audit table: appends by concurrent transactions, verification of an id range, and
    verification against an external anchor (internal/audit/store.go). */
module AuditStore {
  import opened Wrappers
  import opened HashChain

  // ---- timestamps ----

  /** time.Truncate(time.Microsecond), on nanoseconds since the epoch. */
  function Truncate(ns: int): int { ns - ns % 1000 }

  /** What a `timestamp with time zone` column hands back: whole microseconds. */
  function Column(e: Entry): Entry { e.(unixNano := e.unixNano / 1000 * 1000) }

  /** The entry Log hashes: the clock when no time was given, cut to the column's precision. */
  function Stamped(e: Entry, given: bool, now: int): Entry {
    e.(unixNano := Truncate(if given then e.unixNano else now))
  }

  /** Truncating before hashing makes the hashed time the stored one, for every time; an
      untruncated time survives the column only if it had no sub-microsecond part. */
  lemma TruncateMatchesColumn(e: Entry, given: bool, now: int)
    ensures Column(Stamped(e, given, now)) == Stamped(e, given, now)
    ensures Column(e) == e <==> e.unixNano % 1000 == 0
  {
    var n := if given then e.unixNano else now;
    assert Truncate(n) == n / 1000 * 1000;
    assert e.unixNano == e.unixNano / 1000 * 1000 + e.unixNano % 1000;
  }

  /** A row that logs a request: its entry in every field but the time, which is the given time
      or else the clock's, cut down to the microsecond; under version 2. */
  predicate Logs(r: Row, e: Entry, given: bool, now: int) {
    var asked := if given then e.unixNano else now;
    && r.entry == e.(unixNano := r.entry.unixNano) && r.version == 2
    && r.entry.unixNano % 1000 == 0 && asked - 999 <= r.entry.unixNano <= asked
  }

  // ---- Log: transactions that interleave ----

  /** How far one Log call has come.  A transaction not listed has not begun or is over. */
  datatype Tx =
    | Begun(entry: Entry)
    | Locked(entry: Entry)
    | Read(entry: Entry, prev: string)
    | Inserted(row: Row)

  /** The committed rows in id order, the advisory lock, the id sequence, the open
      transactions. */
  datatype Db = Db(rows: seq<Row>, lock: Option<nat>, nextId: int, open: map<nat, Tx>)

  datatype Step =
    | Begin(t: nat, entry: Entry, given: bool, now: int)
    | Lock(t: nat)
    | ReadTail(t: nat)
    | Insert(t: nat)
    | Commit(t: nat)
    | Rollback(t: nat)

  /** SELECT row_hash ... ORDER BY id DESC LIMIT 1, with no row read as the empty hash. */
  function Tail(rows: seq<Row>): string { Tip(rows, HASH_EMPTY) }

  function NewRow(c: Scheme, id: int, e: Entry, prev: string): Row {
    Row(id, Column(e), c.Seal(e, prev, CURRENT_HASH_VERSION), prev, CURRENT_HASH_VERSION)
  }

  lemma NewRowLogs(c: Scheme, id: int, e: Entry, given: bool, now: int, prev: string)
    ensures Logs(NewRow(c, id, Stamped(e, given, now), prev), e, given, now)
  {
    TruncateMatchesColumn(e, given, now);
  }

  function Close(s: Db, t: nat): Db {
    s.(lock := if s.lock == Some(t) then None else s.lock, open := s.open - {t})
  }

  function Inserting(c: Scheme, s: Db, t: nat): Db
    requires t in s.open && s.open[t].Read?
  {
    var r := NewRow(c, s.nextId, s.open[t].entry, s.open[t].prev);
    s.(nextId := s.nextId + 1, open := s.open[t := Inserted(r)])
  }

  /** One step of one transaction.  A step whose turn has not come, such as taking a lock
      that another transaction holds, leaves the database as it is.  An id once drawn from
      the sequence is never returned, not even by a rollback. */
  function Next(c: Scheme, s: Db, step: Step): Db {
    match step
    case Begin(t, e, given, now) =>
      if t in s.open then s else s.(open := s.open[t := Begun(Stamped(e, given, now))])
    case Lock(t) =>
      if t in s.open && s.open[t].Begun? && s.lock.None?
      then s.(lock := Some(t), open := s.open[t := Locked(s.open[t].entry)]) else s
    case ReadTail(t) =>
      if t in s.open && s.open[t].Locked?
      then s.(open := s.open[t := Read(s.open[t].entry, Tail(s.rows))]) else s
    case Insert(t) =>
      if t in s.open && s.open[t].Read? then Inserting(c, s, t) else s
    case Commit(t) =>
      if t in s.open && s.open[t].Inserted?
      then Close(s.(rows := s.rows + [s.open[t].row]), t) else s
    case Rollback(t) =>
      if t in s.open then Close(s, t) else s
  }

  function Exec(c: Scheme, s: Db, steps: seq<Step>): Db {
    if steps == [] then s else Next(c, Exec(c, s, steps[..|steps| - 1]), steps[|steps| - 1])
  }

  ghost predicate Sorted(rows: seq<Row>) {
    forall i, j :: 0 <= i < j < |rows| ==> rows[i].id < rows[j].id
  }

  ghost predicate IdsWithin(rows: seq<Row>, lo: int, hi: int) {
    forall i :: 0 <= i < |rows| ==> lo < rows[i].id < hi
  }

  /** Rows that predate the chain: the column default left their hash empty. */
  ghost predicate Legacy(k: nat, rows: seq<Row>) {
    k <= |rows| && forall i :: 0 <= i < k ==> rows[i].rowHash == HASH_EMPTY
  }

  /** Every row from `k` on is linked to the row just before it and carries its digest. */
  ghost predicate LinkedFrom(c: Scheme, k: nat, rows: seq<Row>) {
    forall i :: k <= i < |rows| ==> Links(c, rows, HASH_EMPTY, i)
  }

  /** A table whose first `k` rows predate the chain, and whose others form one. */
  ghost predicate Sound(c: Scheme, k: nat, rows: seq<Row>) {
    Sorted(rows) && Legacy(k, rows) && LinkedFrom(c, k, rows)
  }

  /** Where a store starts: any sound table, mixed versions included, and nothing open. */
  ghost predicate Init(c: Scheme, k: nat, s: Db) {
    && Sound(c, k, s.rows) && IdsWithin(s.rows, 0, s.nextId) && 0 < s.nextId
    && s.lock == None && s.open == map[]
  }

  /** What an open transaction may believe: past the lock, it holds the lock, and what it
      read or wrote still fits the tail. */
  ghost predicate TxOk(c: Scheme, s: Db, t: nat)
    requires t in s.open
  {
    var x := s.open[t];
    && (!x.Begun? ==> s.lock == Some(t))
    && (!x.Inserted? ==> Column(x.entry) == x.entry)
    && (x.Read? ==> x.prev == Tail(s.rows))
    && (x.Inserted? ==> && Fault(c, x.row, Tail(s.rows)) == None
                        && 0 < x.row.id < s.nextId
                        && IdsWithin(s.rows, 0, x.row.id))
  }

  ghost predicate Inv(c: Scheme, k: nat, s: Db) {
    && Sound(c, k, s.rows) && IdsWithin(s.rows, 0, s.nextId) && 0 < s.nextId
    && (forall t :: t in s.open ==> TxOk(c, s, t))
    && (s.lock.Some? ==> s.lock.value in s.open)
  }

  lemma SoundSnoc(c: Scheme, k: nat, rows: seq<Row>, r: Row, nextId: int)
    requires Sound(c, k, rows) && Fault(c, r, Tail(rows)) == None
    requires IdsWithin(rows, 0, r.id) && 0 < r.id < nextId
    ensures Sound(c, k, rows + [r]) && IdsWithin(rows + [r], 0, nextId)
  {
    forall i | k <= i < |rows + [r]|
      ensures Links(c, rows + [r], HASH_EMPTY, i)
    {
      assert i < |rows| ==> Links(c, rows, HASH_EMPTY, i);
    }
  }

  /** A transaction that does not hold the lock has read nothing yet. */
  lemma WaitingIsBegun(c: Scheme, k: nat, s: Db, u: nat)
    requires Inv(c, k, s) && u in s.open && s.lock != Some(u)
    ensures s.open[u].Begun? && Column(s.open[u].entry) == s.open[u].entry
  {
    assert TxOk(c, s, u);
  }

  lemma CommitKeepsInv(c: Scheme, k: nat, s: Db, s': Db, t: nat)
    requires Inv(c, k, s) && t in s.open && s.open[t].Inserted?
    requires s' == Close(s.(rows := s.rows + [s.open[t].row]), t)
    ensures Inv(c, k, s')
  {
    assert TxOk(c, s, t);
    SoundSnoc(c, k, s.rows, s.open[t].row, s.nextId);
    forall u | u in s'.open
      ensures TxOk(c, s', u)
    {
      WaitingIsBegun(c, k, s, u);
      assert s'.open[u] == s.open[u];
    }
  }

  /** A step that leaves the rows alone and moves one transaction along. */
  lemma MoveKeepsInv(c: Scheme, k: nat, s: Db, s': Db, t: nat)
    requires Inv(c, k, s)
    requires s'.rows == s.rows && s.nextId <= s'.nextId
    requires forall u :: u != t ==> (u in s'.open <==> u in s.open)
    requires forall u :: u != t && u in s.open ==> s'.open[u] == s.open[u]
    requires s'.lock == s.lock || (s.lock == None && s'.lock == Some(t))
             || (s.lock == Some(t) && s'.lock == None)
    requires s'.lock == Some(t) ==> t in s'.open
    requires t in s'.open ==> TxOk(c, s', t)
    ensures Inv(c, k, s')
  {
    forall u | u in s'.open && u != t
      ensures TxOk(c, s', u)
    {
      assert TxOk(c, s, u);
    }
  }

  lemma BeginKeepsInv(c: Scheme, k: nat, s: Db, t: nat, e: Entry, given: bool, now: int)
    requires Inv(c, k, s) && t !in s.open
    ensures Inv(c, k, s.(open := s.open[t := Begun(Stamped(e, given, now))]))
  {
    TruncateMatchesColumn(e, given, now);
    MoveKeepsInv(c, k, s, s.(open := s.open[t := Begun(Stamped(e, given, now))]), t);
  }

  lemma LockKeepsInv(c: Scheme, k: nat, s: Db, t: nat)
    requires Inv(c, k, s) && t in s.open && s.open[t].Begun? && s.lock.None?
    ensures Inv(c, k, s.(lock := Some(t), open := s.open[t := Locked(s.open[t].entry)]))
  {
    assert TxOk(c, s, t);
    MoveKeepsInv(c, k, s, s.(lock := Some(t), open := s.open[t := Locked(s.open[t].entry)]), t);
  }

  lemma ReadKeepsInv(c: Scheme, k: nat, s: Db, t: nat)
    requires Inv(c, k, s) && t in s.open && s.open[t].Locked?
    ensures Inv(c, k, s.(open := s.open[t := Read(s.open[t].entry, Tail(s.rows))]))
  {
    assert TxOk(c, s, t);
    MoveKeepsInv(c, k, s, s.(open := s.open[t := Read(s.open[t].entry, Tail(s.rows))]), t);
  }

  lemma InsertKeepsInv(c: Scheme, k: nat, s: Db, t: nat)
    requires Inv(c, k, s) && t in s.open && s.open[t].Read?
    ensures Inv(c, k, Inserting(c, s, t))
  {
    assert TxOk(c, s, t);
    InsertedFits(c, s, t);
    MoveKeepsInv(c, k, s, Inserting(c, s, t), t);
  }

  lemma InsertedFits(c: Scheme, s: Db, t: nat)
    requires t in s.open && s.open[t].Read? && TxOk(c, s, t)
    requires IdsWithin(s.rows, 0, s.nextId) && 0 < s.nextId
    ensures TxOk(c, Inserting(c, s, t), t)
  {
  }

  lemma RollbackKeepsInv(c: Scheme, k: nat, s: Db, t: nat)
    requires Inv(c, k, s) && t in s.open
    ensures Inv(c, k, Close(s, t))
  {
    MoveKeepsInv(c, k, s, Close(s, t), t);
  }

  /** Every step of every transaction keeps the invariant. */
  lemma StepKeepsInv(c: Scheme, k: nat, s: Db, step: Step)
    requires Inv(c, k, s)
    ensures Inv(c, k, Next(c, s, step))
  {
    var s', t := Next(c, s, step), step.t;
    if s' != s {
      match step
      case Begin(_, e, given, now) => BeginKeepsInv(c, k, s, t, e, given, now);
      case Lock(_) => LockKeepsInv(c, k, s, t);
      case ReadTail(_) => ReadKeepsInv(c, k, s, t);
      case Insert(_) => InsertKeepsInv(c, k, s, t);
      case Commit(_) => CommitKeepsInv(c, k, s, s', t);
      case Rollback(_) => RollbackKeepsInv(c, k, s, t);
    }
  }

  lemma {:induction false} RunKeepsInv(c: Scheme, k: nat, s: Db, steps: seq<Step>)
    requires Init(c, k, s)
    ensures Inv(c, k, Exec(c, s, steps))
  {
    if steps != [] {
      var before := steps[..|steps| - 1];
      RunKeepsInv(c, k, s, before);
      StepKeepsInv(c, k, Exec(c, s, before), steps[|steps| - 1]);
    }
  }

  /** Under every interleaving of any number of Log transactions, with commits and rollbacks
      at any point, no fork appears: every chained row refers to the row just before it in id
      order, a legacy row counting as the empty hash. */
  lemma NoFork(c: Scheme, k: nat, s: Db, steps: seq<Step>, i: nat)
    requires Init(c, k, s)
    ensures var rows := Exec(c, s, steps).rows;
      k <= i < |rows| ==>
        && rows[i].prevHash == (if i == 0 then HASH_EMPTY else rows[i - 1].rowHash)
        && c.RowHash(rows[i].entry, rows[i].prevHash, rows[i].version) == Some(rows[i].rowHash)
        && (i > 0 ==> rows[i - 1].id < rows[i].id)
  {
    RunKeepsInv(c, k, s, steps);
    var rows := Exec(c, s, steps).rows;
    if k <= i < |rows| {
      assert Links(c, rows, HASH_EMPTY, i);
    }
  }

  // ---- which entries the rows carry ----

  /** One call of Log: the entry, whether it came with a time, and the clock. */
  datatype Request = Request(entry: Entry, given: bool, now: int)

  /** The request with which the transaction open as `t` began. */
  function Asked(c: Scheme, s: Db, steps: seq<Step>, t: nat): Option<Request> {
    if steps == [] then None
    else
      var before, step := steps[..|steps| - 1], steps[|steps| - 1];
      if step.Begin? && step.t == t && t !in Exec(c, s, before).open
      then Some(Request(step.entry, step.given, step.now)) else Asked(c, s, before, t)
  }

  /** The requests of the transactions that committed, in commit order. */
  function Committed(c: Scheme, s: Db, steps: seq<Step>): seq<Option<Request>> {
    if steps == [] then []
    else
      var before, step := steps[..|steps| - 1], steps[|steps| - 1];
      var open := Exec(c, s, before).open;
      if step.Commit? && step.t in open && open[step.t].Inserted?
      then Committed(c, s, before) + [Asked(c, s, before, step.t)] else Committed(c, s, before)
  }

  /** An open transaction carries the request it began with. */
  ghost predicate Carries(x: Tx, q: Option<Request>) {
    && q.Some?
    && (x.Inserted? ==> Logs(x.row, q.value.entry, q.value.given, q.value.now))
    && (!x.Inserted? ==> x.entry == Stamped(q.value.entry, q.value.given, q.value.now))
  }

  ghost predicate RowLogs(r: Row, q: Option<Request>) {
    q.Some? && Logs(r, q.value.entry, q.value.given, q.value.now)
  }

  lemma StepCarries(c: Scheme, s: Db, step: Step, t: nat, q: Option<Request>)
    requires t in s.open ==> Carries(s.open[t], q)
    ensures var q' := if step.Begin? && step.t == t && t !in s.open
                      then Some(Request(step.entry, step.given, step.now)) else q;
      t in Next(c, s, step).open ==> Carries(Next(c, s, step).open[t], q')
  {
    if step.t != t {
      assert t in Next(c, s, step).open ==> t in s.open && Next(c, s, step).open[t] == s.open[t];
    } else if step.Insert? && t in s.open && s.open[t].Read? {
      InsertCarries(c, s, t, q);
    }
  }

  lemma InsertCarries(c: Scheme, s: Db, t: nat, q: Option<Request>)
    requires t in s.open && s.open[t].Read? && Carries(s.open[t], q)
    ensures t in Inserting(c, s, t).open && Carries(Inserting(c, s, t).open[t], q)
  {
    NewRowLogs(c, s.nextId, q.value.entry, q.value.given, q.value.now, s.open[t].prev);
  }

  lemma {:induction false} OpenCarries(c: Scheme, s: Db, steps: seq<Step>, t: nat)
    requires s.open == map[]
    ensures t in Exec(c, s, steps).open ==> Carries(Exec(c, s, steps).open[t], Asked(c, s, steps, t))
  {
    if steps != [] {
      var before := steps[..|steps| - 1];
      OpenCarries(c, s, before, t);
      StepCarries(c, Exec(c, s, before), steps[|steps| - 1], t, Asked(c, s, before, t));
    }
  }

  /** Under every interleaving the rows appended are, in commit order, those of the requests
      with which the committed transactions began; a transaction that rolled back, or is still
      open, leaves no row, and the rows there were stay. */
  lemma {:induction false} RowsAreCommitted(c: Scheme, s: Db, steps: seq<Step>)
    requires s.open == map[]
    ensures var rows, asked := Exec(c, s, steps).rows, Committed(c, s, steps);
      && |rows| == |s.rows| + |asked| && s.rows <= rows
      && forall i :: 0 <= i < |asked| ==> RowLogs(rows[|s.rows| + i], asked[i])
  {
    if steps != [] {
      var before, step := steps[..|steps| - 1], steps[|steps| - 1];
      RowsAreCommitted(c, s, before);
      var now := Exec(c, s, before);
      if step.Commit? && step.t in now.open && now.open[step.t].Inserted? {
        OpenCarries(c, s, before, step.t);
      } else {
        assert Next(c, now, step).rows == now.rows;
      }
    }
  }

  // ---- reading a range ----

  /** WHERE id > from AND row_hash <> '' ORDER BY id, over a table in id order. */
  function After(rows: seq<Row>, from: int): seq<Row> {
    if rows == [] then []
    else if rows[0].id > from && rows[0].rowHash != HASH_EMPTY
    then [rows[0]] + After(rows[1..], from)
    else After(rows[1..], from)
  }

  lemma {:induction false} AfterWithin(rows: seq<Row>, from: int)
    ensures forall r :: r in After(rows, from) <==> r in rows && from < r.id && r.rowHash != HASH_EMPTY
  {
    if rows != [] {
      AfterWithin(rows[1..], from);
      assert rows == [rows[0]] + rows[1..];
    }
  }

  const DEFAULT_VERIFY_BATCH := 1000

  /** The batch one VerifyChainSinceID call reads; a limit that is not positive is 1000. */
  function Batch(rows: seq<Row>, from: int, limit: int): seq<Row> {
    var n := if limit <= 0 then DEFAULT_VERIFY_BATCH else limit;
    var all := After(rows, from);
    if n < |all| then all[..n] else all
  }

  /** The hash the first row of a batch is held against: its own claim, unless the range
      starts at the chain's head. */
  function BatchRoot(batch: seq<Row>, from: int): string {
    if from == 0 || batch == [] then HASH_EMPTY else batch[0].prevHash
  }

  ghost predicate BatchOk(c: Scheme, rows: seq<Row>, from: int, limit: int) {
    var batch := Batch(rows, from, limit);
    Chained(c, batch, BatchRoot(batch, from))
  }

  /** A hashed row of the table, past `from`, has this id. */
  ghost predicate HashedAt(rows: seq<Row>, from: int, id: int) {
    exists r :: r in rows && from < r.id && r.rowHash != HASH_EMPTY && r.id == id
  }

  /** What one call checks, row by row: of the hashed rows past `from`, in id order, the first
      `limit`, or 1000, each carry their own digest and refer to the one before; the very first
      refers to none if the range starts at the head of the chain, else to what it claims. */
  lemma SinceIDExactly(c: Scheme, rows: seq<Row>, from: int, limit: int)
    ensures var hs := After(rows, from);
      var asked := if limit <= 0 then 1000 else limit;
      var n := if asked < |hs| then asked else |hs|;
      var root := if from == 0 || hs == [] then "" else hs[0].prevHash;
      BatchOk(c, rows, from, limit) <==> forall i :: 0 <= i < n ==> GoodAt(c, hs, root, i)
  {
    var batch, hs := Batch(rows, from, limit), After(rows, from);
    var root := BatchRoot(batch, from);
    assert root == if from == 0 || hs == [] then "" else hs[0].prevHash;
    ChainedExactly(c, batch, root);
    PrefixGood(c, hs, |batch|, root);
    assert batch == hs[..|batch|];
  }

  lemma PrefixGood(c: Scheme, hs: seq<Row>, n: nat, root: string)
    requires n <= |hs|
    ensures (forall i :: 0 <= i < n ==> GoodAt(c, hs[..n], root, i))
            <==> forall i :: 0 <= i < n ==> GoodAt(c, hs, root, i)
  {
    forall i | 0 <= i < n ensures GoodAt(c, hs[..n], root, i) == GoodAt(c, hs, root, i) {
    }
  }

  method VerifyChainSinceID(c: Scheme, rows: seq<Row>, from: int, limit: int)
    returns (v: Verdict)
    ensures v.Intact? <==> BatchOk(c, rows, from, limit)
    ensures v.Broken? ==> HashedAt(rows, from, v.firstBad)
  {
    var entries := Batch(rows, from, limit);
    if |entries| == 0 {
      return Intact;
    }
    var expectedRoot := entries[0].prevHash;
    if from == 0 {
      expectedRoot := HASH_EMPTY;
    }
    v := VerifyChain(c, entries, expectedRoot);
    if v.Broken? {
      ghost var k: nat :| && FirstFault(c, entries, expectedRoot, k, v.reason)
                    && entries[k].id == v.firstBad;
      AfterWithin(rows, from);
      assert entries[k] in After(rows, from);
    }
  }

  lemma {:induction false} AfterAll(rows: seq<Row>, from: int)
    requires forall i :: 0 <= i < |rows| ==> from < rows[i].id && rows[i].rowHash != HASH_EMPTY
    ensures After(rows, from) == rows
  {
    if rows != [] {
      AfterAll(rows[1..], from);
      assert rows == [rows[0]] + rows[1..];
    }
  }

  /** Over a sorted table whose unhashed rows come first, a range query is a suffix. */
  lemma {:induction false} AfterIsSuffix(k: nat, rows: seq<Row>, from: int) returns (a: nat)
    requires k <= |rows| && Sorted(rows)
    requires forall i :: 0 <= i < |rows| ==> (rows[i].rowHash == HASH_EMPTY <==> i < k)
    ensures k <= a <= |rows| && After(rows, from) == rows[a..]
    ensures forall i :: k <= i < |rows| ==> (from < rows[i].id <==> a <= i)
  {
    if rows == [] {
      a := 0;
    } else {
      if rows[0].id > from && rows[0].rowHash != HASH_EMPTY {
        a := 0;
        forall i | 0 <= i < |rows| ensures from < rows[i].id && rows[i].rowHash != HASH_EMPTY {
          assert i > 0 ==> rows[0].id < rows[i].id;
        }
        AfterAll(rows, from);
      } else {
        var rest := AfterIsSuffix(if k == 0 then 0 else k - 1, rows[1..], from);
        a := rest + 1;
        assert rows[1..][rest..] == rows[a..];
        forall i | k <= i < |rows| ensures from < rows[i].id <==> a <= i {
          assert i > 0 ==> rows[i] == rows[1..][i - 1];
        }
      }
    }
  }

  lemma HashedExactly(c: Scheme, k: nat, rows: seq<Row>)
    requires Sound(c, k, rows)
    ensures forall i :: 0 <= i < |rows| ==> (rows[i].rowHash == HASH_EMPTY <==> i < k)
  {
    forall i | k <= i < |rows| ensures rows[i].rowHash != HASH_EMPTY {
      assert Links(c, rows, HASH_EMPTY, i);
    }
  }

  lemma SliceChained(c: Scheme, k: nat, rows: seq<Row>, a: nat, b: nat)
    requires k <= a <= b <= |rows| && LinkedFrom(c, k, rows)
    ensures Chained(c, rows[a..b], Before(rows, HASH_EMPTY, a))
  {
    forall i | 0 <= i < b - a
      ensures Links(c, rows[a..b], Before(rows, HASH_EMPTY, a), i)
    {
      assert Links(c, rows, HASH_EMPTY, a + i);
    }
  }

  /** A sound table passes verification from every starting id and for every limit. */
  lemma SoundVerifies(c: Scheme, k: nat, rows: seq<Row>, from: int, limit: int)
    requires Sound(c, k, rows) && (forall i :: 0 <= i < |rows| ==> 0 < rows[i].id)
    ensures BatchOk(c, rows, from, limit)
  {
    HashedExactly(c, k, rows);
    var a := AfterIsSuffix(k, rows, from);
    var batch := Batch(rows, from, limit);
    assert batch == rows[a..a + |batch|];
    SliceChained(c, k, rows, a, a + |batch|);
    if batch != [] {
      assert Links(c, rows, HASH_EMPTY, a);
    }
  }

  /** For every interleaving of Log transactions from any sound table (legacy rows, mixed
      versions), verification succeeds from every id and for every limit. */
  lemma EveryRunVerifies(c: Scheme, k: nat, s: Db, steps: seq<Step>, from: int, limit: int)
    requires Init(c, k, s)
    ensures BatchOk(c, Exec(c, s, steps).rows, from, limit)
  {
    RunKeepsInv(c, k, s, steps);
    SoundVerifies(c, k, Exec(c, s, steps).rows, from, limit);
  }

  // ---- one Log call, uninterrupted ----

  function LogSteps(t: nat, e: Entry, given: bool, now: int): seq<Step> {
    [Begin(t, e, given, now), Lock(t), ReadTail(t), Insert(t), Commit(t)]
  }

  /** The store as one connection sees it between transactions. */
  class Store {
    const H: Digest
    var rows: seq<Row>
    var nextId: int

    constructor (H: Digest)
      ensures this.H == H && rows == [] && nextId == 1
    {
      this.H := H;
      rows := [];
      nextId := 1;
    }

    /** Log: truncate, read the tail, hash under the current version, insert, commit. */
    method Log(entry: Entry, given: bool, now: int)
      modifies this
      ensures nextId == old(nextId) + 1
      ensures rows == old(rows) +
        [NewRow(AuditScheme(H), old(nextId), Stamped(entry, given, now), Tail(old(rows)))]
      ensures Logs(rows[|old(rows)|], entry, given, now) && rows[|old(rows)|].id == old(nextId)
    {
      NewRowLogs(AuditScheme(H), nextId, entry, given, now, Tail(rows));
      var ts := if given then entry.unixNano else now;
      var e := entry.(unixNano := Truncate(ts));
      var prevHash := HASH_EMPTY;
      if |rows| > 0 {
        prevHash := rows[|rows| - 1].rowHash;
      }
      var rowHash := ComputeRowHash(H, e, prevHash, CURRENT_HASH_VERSION);
      rows := rows + [Row(nextId, Column(e), rowHash.value, prevHash, CURRENT_HASH_VERSION)];
      nextId := nextId + 1;
    }
  }

  /** The states one transaction passes through when nothing else runs. */
  function Alone(c: Scheme, rows: seq<Row>, n: int, t: nat, x: Entry, at: nat): Db {
    var r := NewRow(c, n, x, Tail(rows));
    match at
    case 0 => Db(rows, None, n, map[])
    case 1 => Db(rows, None, n, map[t := Begun(x)])
    case 2 => Db(rows, Some(t), n, map[t := Locked(x)])
    case 3 => Db(rows, Some(t), n, map[t := Read(x, Tail(rows))])
    case 4 => Db(rows, Some(t), n + 1, map[t := Inserted(r)])
    case _ => Db(rows + [r], None, n + 1, map[])
  }

  lemma AloneStep(c: Scheme, rows: seq<Row>, n: int, t: nat, e: Entry, given: bool, now: int, at: nat)
    requires at < 5
    ensures Next(c, Alone(c, rows, n, t, Stamped(e, given, now), at), LogSteps(t, e, given, now)[at])
      == Alone(c, rows, n, t, Stamped(e, given, now), at + 1)
  {
    var x, steps := Stamped(e, given, now), LogSteps(t, e, given, now);
    if at == 0 {
      assert steps[at] == Begin(t, e, given, now);
    } else if at == 1 {
      assert steps[at] == Lock(t);
    } else if at == 2 {
      assert steps[at] == ReadTail(t);
    } else if at == 3 {
      assert steps[at] == Insert(t);
      AloneInserts(c, rows, n, t, x);
    } else {
      assert steps[at] == Commit(t);
      assert map[t := Inserted(NewRow(c, n, x, Tail(rows)))] - {t} == map[];
    }
  }

  lemma AloneInserts(c: Scheme, rows: seq<Row>, n: int, t: nat, x: Entry)
    ensures Next(c, Alone(c, rows, n, t, x, 3), Insert(t)) == Alone(c, rows, n, t, x, 4)
  {
  }

  lemma {:induction false} AlonePrefix(c: Scheme, rows: seq<Row>, n: int, t: nat,
                                       e: Entry, given: bool, now: int, at: nat)
    requires at <= 5
    ensures Exec(c, Db(rows, None, n, map[]), LogSteps(t, e, given, now)[..at])
      == Alone(c, rows, n, t, Stamped(e, given, now), at)
  {
    if at > 0 {
      var steps := LogSteps(t, e, given, now);
      AlonePrefix(c, rows, n, t, e, given, now, at - 1);
      AloneStep(c, rows, n, t, e, given, now, at - 1);
      assert steps[..at] == steps[..at - 1] + [steps[at - 1]];
      ExecSnoc(c, Db(rows, None, n, map[]), steps[..at - 1], steps[at - 1],
               Alone(c, rows, n, t, Stamped(e, given, now), at));
    }
  }

  /** An uninterrupted Log call is one of the runs the theorems above quantify over. */
  lemma LogIsRun(c: Scheme, rows: seq<Row>, n: int, t: nat, e: Entry, given: bool, now: int)
    ensures Exec(c, Db(rows, None, n, map[]), LogSteps(t, e, given, now))
      == Db(rows + [NewRow(c, n, Stamped(e, given, now), Tail(rows))], None, n + 1, map[])
  {
    AlonePrefix(c, rows, n, t, e, given, now, 5);
    assert LogSteps(t, e, given, now)[..5] == LogSteps(t, e, given, now);
  }

  lemma ExecSnoc(c: Scheme, s: Db, before: seq<Step>, step: Step, s': Db)
    requires Next(c, Exec(c, s, before), step) == s'
    ensures Exec(c, s, before + [step]) == s'
  {
    assert (before + [step])[..|before|] == before;
  }

  // ---- verification against an anchor ----

  datatype AnchorResult =
    | NoAnchor
    | Failed(verdict: Verdict)
    | Checked(checkpoint: int, anchorRoot: string, currentRoot: string, firstBad: int)
  {
    predicate OK() { Checked? && anchorRoot == currentRoot && firstBad == 0 }
  }

  function MaxRowID(rows: seq<Row>): int { if rows == [] then 0 else rows[|rows| - 1].id }

  /** RowHashAt; a missing row reads as the empty hash. */
  function RowHashAt(rows: seq<Row>, id: int): string {
    if rows == [] then HASH_EMPTY
    else if rows[0].id == id then rows[0].rowHash
    else RowHashAt(rows[1..], id)
  }

  /** Where the j-th batch of the anchored loop starts. */
  function From(checkpoint: int, j: nat): int { checkpoint + DEFAULT_VERIFY_BATCH * j }

  ghost predicate AllBatchesOk(c: Scheme, rows: seq<Row>, checkpoint: int) {
    forall j: nat :: From(checkpoint, j) < MaxRowID(rows) ==>
      BatchOk(c, rows, From(checkpoint, j), 0)
  }

  ghost predicate BatchesOk(c: Scheme, rows: seq<Row>, checkpoint: int, n: nat) {
    forall j: nat :: j < n ==> BatchOk(c, rows, From(checkpoint, j), 0)
  }

  /** VerifyChainAgainstAnchor.  A broken batch always comes with an error, so a result that
      is returned has FirstBadAfterCheckpoint 0. */
  method VerifyChainAgainstAnchor(c: Scheme, rows: seq<Row>, anchor: Option<(int, string)>)
    returns (r: AnchorResult)
    ensures r.NoAnchor? <==> anchor.None?
    ensures r.Checked? <==> anchor.Some? && AllBatchesOk(c, rows, anchor.value.0)
    ensures r.Checked? ==> r == Checked(anchor.value.0, anchor.value.1,
                                        RowHashAt(rows, anchor.value.0), 0)
    ensures r.OK() <==>
      && anchor.Some? && AllBatchesOk(c, rows, anchor.value.0)
      && RowHashAt(rows, anchor.value.0) == anchor.value.1
    ensures r.Failed? ==> r.verdict.Broken? && HashedAt(rows, anchor.value.0, r.verdict.firstBad)
  {
    if anchor.None? {
      return NoAnchor;
    }
    var (checkpoint, anchorRoot) := anchor.value;
    var currentRoot := RowHashAt(rows, checkpoint);
    var maxID := MaxRowID(rows);
    var from := checkpoint;
    ghost var j: nat := 0;
    while from < maxID
      invariant from == From(checkpoint, j)
      invariant BatchesOk(c, rows, checkpoint, j)
      decreases maxID - from
    {
      var v := VerifyChainSinceID(c, rows, from, 0);
      if v.Broken? {
        return Failed(v);
      }
      from := from + DEFAULT_VERIFY_BATCH;
      j := j + 1;
    }
    return Checked(checkpoint, anchorRoot, currentRoot, 0);
  }

  lemma {:induction false} AfterSorted(rows: seq<Row>, from: int)
    requires Sorted(rows)
    ensures Sorted(After(rows, from))
  {
    if rows != [] {
      AfterSorted(rows[1..], from);
      AfterWithin(rows[1..], from);
      forall r | r in After(rows[1..], from) ensures rows[0].id < r.id {
        var i :| 0 <= i < |rows[1..]| && rows[1..][i] == r;
        assert rows[i + 1] == r;
      }
    }
  }

  lemma {:induction false} AfterTwice(rows: seq<Row>, lo: int, hi: int)
    requires lo <= hi
    ensures After(After(rows, lo), hi) == After(rows, hi)
  {
    if rows != [] {
      AfterTwice(rows[1..], lo, hi);
      if rows[0].id > lo && rows[0].rowHash != HASH_EMPTY {
        assert After(rows, lo)[1..] == After(rows[1..], lo);
      }
    }
  }

  /** How many of the rows have an id up to `f`. */
  function Start(hs: seq<Row>, f: int): nat {
    if hs == [] then 0 else (if hs[0].id <= f then 1 else 0) + Start(hs[1..], f)
  }

  /** The row's stored hash is the digest of the row. */
  predicate Sealed(c: Scheme, r: Row) {
    c.RowHash(r.entry, r.prevHash, r.version) == Some(r.rowHash)
  }

  /** Where the last batch that begins before this id begins. */
  function LastBatch(checkpoint: int, id: int): int {
    checkpoint + DEFAULT_VERIFY_BATCH * ((id - checkpoint - 1) / DEFAULT_VERIFY_BATCH)
  }

  /** The last batch that begins before row `i - 1` still reaches row `i`. */
  predicate SameBatch(hs: seq<Row>, checkpoint: int, i: nat)
    requires 0 < i < |hs|
  {
    i < Start(hs, LastBatch(checkpoint, hs[i - 1].id)) + DEFAULT_VERIFY_BATCH
  }

  lemma {:induction false} StartSplits(hs: seq<Row>, f: int)
    requires Sorted(hs)
    ensures Start(hs, f) <= |hs|
    ensures forall i :: 0 <= i < |hs| ==> (hs[i].id <= f <==> i < Start(hs, f))
  {
    if hs != [] {
      var rest := hs[1..];
      StartSplits(rest, f);
      assert forall i :: 0 < i < |hs| ==> hs[i] == rest[i - 1] && hs[0].id < hs[i].id;
      if hs[0].id > f && rest != [] {
        assert rest[0].id > f;
      }
    }
  }

  lemma StartMonotone(hs: seq<Row>, f: int, g: int)
    requires Sorted(hs) && f <= g
    ensures Start(hs, f) <= Start(hs, g)
  {
    StartSplits(hs, f);
    StartSplits(hs, g);
    assert 0 < Start(hs, f) ==> hs[Start(hs, f) - 1].id <= g;
  }

  /** Ids are distinct integers: past `f`, the row of index `i` has at most id - f - 1 rows
      before it. */
  lemma {:induction false} IndexBound(hs: seq<Row>, f: int, i: nat)
    requires Sorted(hs) && Start(hs, f) <= i < |hs|
    ensures i - Start(hs, f) < hs[i].id - f
  {
    StartSplits(hs, f);
    if i > Start(hs, f) {
      IndexBound(hs, f, i - 1);
    }
  }

  /** Every row past the checkpoint lies in the batch its id falls into. */
  lemma RowInBatch(hs: seq<Row>, checkpoint: int, i: nat) returns (j: nat)
    requires Sorted(hs) && i < |hs| && checkpoint < hs[i].id
    ensures From(checkpoint, j) == LastBatch(checkpoint, hs[i].id) < hs[i].id
    ensures Start(hs, From(checkpoint, j)) <= i < Start(hs, From(checkpoint, j)) + DEFAULT_VERIFY_BATCH
  {
    j := (hs[i].id - checkpoint - 1) / DEFAULT_VERIFY_BATCH;
    StartSplits(hs, From(checkpoint, j));
    IndexBound(hs, From(checkpoint, j), i);
  }

  lemma SuffixAtStart(hs: seq<Row>, f: int) returns (a: nat)
    requires Sorted(hs) && forall i :: 0 <= i < |hs| ==> hs[i].rowHash != HASH_EMPTY
    ensures a == Start(hs, f) <= |hs| && After(hs, f) == hs[a..]
  {
    a := AfterIsSuffix(0, hs, f);
    StartSplits(hs, f);
    assert 0 < a ==> hs[a - 1].id <= f;
    assert 0 < Start(hs, f) ==> hs[Start(hs, f) - 1].id <= f;
  }

  lemma BatchIsSlice(rows: seq<Row>, checkpoint: int, f: int) returns (hs: seq<Row>, b: nat)
    requires Sorted(rows) && checkpoint <= f
    ensures hs == After(rows, checkpoint) && Sorted(hs)
    ensures var a := Start(hs, f);
      && a <= b <= |hs| && Batch(rows, f, 0) == hs[a..b]
      && b == if a + DEFAULT_VERIFY_BATCH < |hs| then a + DEFAULT_VERIFY_BATCH else |hs|
  {
    hs := After(rows, checkpoint);
    AfterSorted(rows, checkpoint);
    AfterWithin(rows, checkpoint);
    AfterTwice(rows, checkpoint, f);
    assert forall i :: 0 <= i < |hs| ==> hs[i] in hs;
    var a := SuffixAtStart(hs, f);
    b := CutBatch(rows, f, hs, a);
  }

  lemma CutBatch(rows: seq<Row>, f: int, hs: seq<Row>, a: nat) returns (b: nat)
    requires a <= |hs| && After(rows, f) == hs[a..]
    ensures a <= b <= |hs| && Batch(rows, f, 0) == hs[a..b]
    ensures b == if a + DEFAULT_VERIFY_BATCH < |hs| then a + DEFAULT_VERIFY_BATCH else |hs|
  {
    b := if a + DEFAULT_VERIFY_BATCH < |hs| then a + DEFAULT_VERIFY_BATCH else |hs|;
    assert hs[a..][..b - a] == hs[a..b];
  }

  /** The tests the anchored loop makes, row by row. */
  ghost predicate RowsChecked(c: Scheme, hs: seq<Row>, checkpoint: int) {
    && (forall i :: 0 <= i < |hs| ==> Sealed(c, hs[i]))
    && (forall i :: 0 < i < |hs| && SameBatch(hs, checkpoint, i) ==>
          hs[i].prevHash == hs[i - 1].rowHash)
    && (checkpoint == 0 && hs != [] ==> hs[0].prevHash == HASH_EMPTY)
  }

  /** A chained slice, seen from the list it was cut from. */
  lemma SliceLink(c: Scheme, hs: seq<Row>, a: nat, b: nat, root: string, i: nat)
    requires a <= i < b <= |hs| && Chained(c, hs[a..b], root)
    ensures Fault(c, hs[i], if i == a then root else hs[i - 1].rowHash) == None
  {
    assert Links(c, hs[a..b], root, i - a);
  }

  /** The batch that row `p` falls into, as a slice of the rows past the checkpoint. */
  lemma BatchOf(c: Scheme, rows: seq<Row>, checkpoint: int, hs: seq<Row>, p: nat)
    returns (f: int, a: nat, b: nat, root: string)
    requires Sorted(rows) && 0 <= checkpoint && AllBatchesOk(c, rows, checkpoint)
    requires hs == After(rows, checkpoint) && p < |hs|
    ensures f == LastBatch(checkpoint, hs[p].id)
    ensures a == Start(hs, f) && a <= p < b <= |hs|
    ensures b == if a + DEFAULT_VERIFY_BATCH < |hs| then a + DEFAULT_VERIFY_BATCH else |hs|
    ensures Chained(c, hs[a..b], root)
    ensures root == if f == 0 then HASH_EMPTY else hs[a].prevHash
  {
    var j := BatchReached(rows, checkpoint, hs, p);
    f := From(checkpoint, j);
    assert BatchOk(c, rows, f, 0);
    var _, end := BatchIsSlice(rows, checkpoint, f);
    a, b := Start(hs, f), end;
    root := BatchRoot(hs[a..b], f);
  }

  /** The loop gets to the batch of every row past the checkpoint. */
  lemma BatchReached(rows: seq<Row>, checkpoint: int, hs: seq<Row>, p: nat) returns (j: nat)
    requires Sorted(rows) && 0 <= checkpoint && hs == After(rows, checkpoint) && p < |hs|
    ensures From(checkpoint, j) == LastBatch(checkpoint, hs[p].id) < MaxRowID(rows)
    ensures checkpoint <= From(checkpoint, j)
    ensures Start(hs, From(checkpoint, j)) <= p < Start(hs, From(checkpoint, j)) + DEFAULT_VERIFY_BATCH
  {
    AfterSorted(rows, checkpoint);
    AfterWithin(rows, checkpoint);
    assert hs[p] in hs;
    IdAtMostMax(rows, hs[p]);
    j := RowInBatch(hs, checkpoint, p);
  }

  lemma RowSealed(c: Scheme, rows: seq<Row>, checkpoint: int, hs: seq<Row>, i: nat)
    requires Sorted(rows) && 0 <= checkpoint && AllBatchesOk(c, rows, checkpoint)
    requires hs == After(rows, checkpoint) && i < |hs|
    ensures Sealed(c, hs[i])
  {
    var f, a, b, root := BatchOf(c, rows, checkpoint, hs, i);
    SliceLink(c, hs, a, b, root, i);
  }

  lemma RowLinked(c: Scheme, rows: seq<Row>, checkpoint: int, hs: seq<Row>, i: nat)
    requires Sorted(rows) && 0 <= checkpoint && AllBatchesOk(c, rows, checkpoint)
    requires hs == After(rows, checkpoint) && 0 < i < |hs| && SameBatch(hs, checkpoint, i)
    ensures hs[i].prevHash == hs[i - 1].rowHash
  {
    var f, a, b, root := BatchOf(c, rows, checkpoint, hs, i - 1);
    assert i < b;
    SliceLink(c, hs, a, b, root, i);
  }

  /** The chain's head, when the anchor sits before the first row. */
  lemma HeadRooted(c: Scheme, rows: seq<Row>, hs: seq<Row>)
    requires Sorted(rows) && AllBatchesOk(c, rows, 0) && hs == After(rows, 0) && hs != []
    ensures hs[0].prevHash == HASH_EMPTY
  {
    AfterWithin(rows, 0);
    assert hs[0] in hs;
    IdAtMostMax(rows, hs[0]);
    var _, b := BatchIsSlice(rows, 0, 0);
    HeadStart(rows);
    assert From(0, 0) == 0;
    assert BatchOk(c, rows, From(0, 0), 0);
    SliceLink(c, hs, 0, b, HASH_EMPTY, 0);
  }

  lemma CheckedRowLinks(c: Scheme, hs: seq<Row>, checkpoint: int, j: nat, i: nat)
    requires Sorted(hs) && 0 < i < |hs| && RowsChecked(c, hs, checkpoint)
    requires var a := Start(hs, From(checkpoint, j)); a < i < a + DEFAULT_VERIFY_BATCH
    ensures Fault(c, hs[i], hs[i - 1].rowHash) == None
  {
    ReachesBack(hs, checkpoint, j, i);
    assert Sealed(c, hs[i]);
  }

  lemma RowsCheckBatch(c: Scheme, rows: seq<Row>, checkpoint: int, j: nat)
    requires Sorted(rows) && 0 <= checkpoint
    requires RowsChecked(c, After(rows, checkpoint), checkpoint)
    ensures BatchOk(c, rows, From(checkpoint, j), 0)
  {
    var f := From(checkpoint, j);
    var hs, b := BatchIsSlice(rows, checkpoint, f);
    var a := Start(hs, f);
    if a < b {
      var root := BatchRoot(hs[a..b], f);
      if f == 0 {
        HeadStart(rows);
      }
      assert Sealed(c, hs[a]);
      assert Fault(c, hs[a], root) == None;
      forall i | a < i < b ensures Fault(c, hs[i], hs[i - 1].rowHash) == None {
        CheckedRowLinks(c, hs, checkpoint, j, i);
      }
      LinksSlice(c, hs, a, b, root);
    }
  }

  lemma HeadStart(rows: seq<Row>)
    requires Sorted(rows)
    ensures Start(After(rows, 0), 0) == 0
  {
    AfterWithin(rows, 0);
    AfterSorted(rows, 0);
    var hs := After(rows, 0);
    StartSplits(hs, 0);
    assert hs != [] ==> hs[0] in hs;
  }

  lemma LinksSlice(c: Scheme, hs: seq<Row>, a: nat, b: nat, root: string)
    requires a < b <= |hs| && Fault(c, hs[a], root) == None
    requires forall i :: a < i < b ==> Fault(c, hs[i], hs[i - 1].rowHash) == None
    ensures Chained(c, hs[a..b], root)
  {
    forall m | 0 <= m < b - a ensures Links(c, hs[a..b], root, m) {
      assert m > 0 ==> Fault(c, hs[a + m], hs[a + m - 1].rowHash) == None;
    }
  }

  /** If any batch holds both row `i - 1` and row `i`, the one `SameBatch` names does. */
  lemma ReachesBack(hs: seq<Row>, checkpoint: int, j: nat, i: nat)
    requires Sorted(hs) && 0 < i < |hs|
    requires var a := Start(hs, From(checkpoint, j)); a < i < a + DEFAULT_VERIFY_BATCH
    ensures SameBatch(hs, checkpoint, i)
  {
    StartSplits(hs, From(checkpoint, j));
    assert hs[i - 1].id > From(checkpoint, j);
    StartMonotone(hs, From(checkpoint, j), LastBatch(checkpoint, hs[i - 1].id));
  }

  /** What an anchored verification that reports no error has checked, exactly.  Every hashed
      row past the checkpoint, whatever the gaps between ids, has had its own hash recomputed;
      a link to the row before it is compared just when one batch of 1000 holds both rows; and
      the first row past a checkpoint other than 0 is not compared with the checkpoint. */
  lemma AnchorExact(c: Scheme, rows: seq<Row>, checkpoint: int)
    requires Sorted(rows) && 0 <= checkpoint
    ensures AllBatchesOk(c, rows, checkpoint)
            <==> RowsChecked(c, After(rows, checkpoint), checkpoint)
  {
    var hs := After(rows, checkpoint);
    if AllBatchesOk(c, rows, checkpoint) {
      forall i | 0 <= i < |hs| ensures Sealed(c, hs[i]) {
        RowSealed(c, rows, checkpoint, hs, i);
      }
      forall i | 0 < i < |hs| && SameBatch(hs, checkpoint, i)
        ensures hs[i].prevHash == hs[i - 1].rowHash
      {
        RowLinked(c, rows, checkpoint, hs, i);
      }
      if checkpoint == 0 && hs != [] {
        HeadRooted(c, rows, hs);
      }
    }
    if RowsChecked(c, hs, checkpoint) {
      forall j: nat | From(checkpoint, j) < MaxRowID(rows)
        ensures BatchOk(c, rows, From(checkpoint, j), 0)
      {
        RowsCheckBatch(c, rows, checkpoint, j);
      }
    }
  }

  /** The gap at the checkpoint: a row that follows the anchored one passes with any previous
      hash it was sealed under, although it does not extend the anchored chain. */
  lemma CheckpointLinkUnchecked(c: Scheme, anchored: Row, next: Row)
    requires 0 < anchored.id < next.id && next.rowHash != HASH_EMPTY && Sealed(c, next)
    ensures AllBatchesOk(c, [anchored, next], anchored.id)
    ensures RowHashAt([anchored, next], anchored.id) == anchored.rowHash
  {
    var rows := [anchored, next];
    var last := [next];
    assert last[1..] == [] && rows[1..] == last;
    assert After(last, anchored.id) == last;
    assert After(rows, anchored.id) == last;
    AnchorExact(c, rows, anchored.id);
  }

  /** A rewrite of the rows up to the checkpoint that keeps their ids and the checkpoint's hash. */
  ghost predicate RewrittenUpTo(rows: seq<Row>, t: seq<Row>, checkpoint: int) {
    && |t| == |rows|
    && forall i :: 0 <= i < |rows| ==>
         && t[i].id == rows[i].id && (checkpoint < rows[i].id ==> t[i] == rows[i])
         && (rows[i].id == checkpoint ==> t[i].rowHash == rows[i].rowHash)
  }

  lemma {:induction false} SameBeyond(rows: seq<Row>, t: seq<Row>, checkpoint: int, f: int)
    requires RewrittenUpTo(rows, t, checkpoint) && checkpoint <= f
    ensures After(t, f) == After(rows, f) && RowHashAt(t, checkpoint) == RowHashAt(rows, checkpoint)
  {
    if rows != [] {
      assert t[0].id == rows[0].id;
      forall i | 0 <= i < |rows[1..]| ensures rows[1..][i] == rows[i + 1] && t[1..][i] == t[i + 1] {
      }
      SameBeyond(rows[1..], t[1..], checkpoint, f);
    }
  }

  /** What an anchored verification cannot see: no rewrite of rows up to the checkpoint, the
      checkpoint's own entry included, changes its result, as long as the checkpoint's stored hash
      stays. */
  lemma AnchorBlind(c: Scheme, rows: seq<Row>, t: seq<Row>, checkpoint: int)
    requires RewrittenUpTo(rows, t, checkpoint)
    ensures AllBatchesOk(c, t, checkpoint) <==> AllBatchesOk(c, rows, checkpoint)
    ensures RowHashAt(t, checkpoint) == RowHashAt(rows, checkpoint)
  {
    SameBeyond(rows, t, checkpoint, checkpoint);
    assert MaxRowID(t) == MaxRowID(rows);
    forall j: nat ensures BatchOk(c, t, From(checkpoint, j), 0) <==> BatchOk(c, rows, From(checkpoint, j), 0) {
      SameBeyond(rows, t, checkpoint, From(checkpoint, j));
    }
  }

  lemma {:induction false} RowHashAtFinds(rows: seq<Row>, id: int) returns (i: nat)
    requires RowHashAt(rows, id) != HASH_EMPTY
    ensures i < |rows| && rows[i].id == id && rows[i].rowHash == RowHashAt(rows, id)
  {
    if rows[0].id == id {
      i := 0;
    } else {
      var k := RowHashAtFinds(rows[1..], id);
      i := k + 1;
    }
  }

  /** The checkpoint's row, among the hashed rows from the head of the chain. */
  lemma CheckpointRow(rows: seq<Row>, checkpoint: int) returns (n: nat)
    requires Sorted(rows) && 0 < checkpoint && RowHashAt(rows, checkpoint) != HASH_EMPTY
    ensures var hs := After(rows, 0);
      && 0 < n <= |hs| && n == Start(hs, checkpoint)
      && hs[n - 1].id == checkpoint && hs[n - 1].rowHash == RowHashAt(rows, checkpoint)
  {
    var hs := After(rows, 0);
    var i := RowHashAtFinds(rows, checkpoint);
    AfterWithin(rows, 0);
    AfterSorted(rows, 0);
    StartSplits(hs, checkpoint);
    assert rows[i] in hs;
    var k: nat :| k < |hs| && hs[k] == rows[i];
    n := Start(hs, checkpoint);
    IdGap(hs, k, n - 1);
  }

  /** What an OK result is worth, for any serialization that decodes: if the table also verifies
      from id 0, its hashed rows up to the checkpoint are the rows that were anchored, or
      `Suspects` is a collision. */
  lemma OkMeans(c: Scheme, rows: seq<Row>, anchored: seq<Row>, r: AnchorResult, limit: int)
    requires Decodable(c.serialize)
    requires Sorted(rows) && |rows| <= limit && 0 < limit && BatchOk(c, rows, 0, limit)
    requires anchored != [] && Chained(c, anchored, HASH_EMPTY)
    requires r.OK() && 0 < r.checkpoint && r.anchorRoot == anchored[|anchored| - 1].rowHash
    requires r.currentRoot == RowHashAt(rows, r.checkpoint)
    ensures var n, hs := Start(After(rows, 0), r.checkpoint), After(rows, 0);
      && 0 < n <= |hs| && hs[n - 1].id == r.checkpoint
      && (SameRows(hs[..n], anchored) || Collides(c.digest, Suspects(c, hs[..n], anchored)))
  {
    TipNotEmpty(c, anchored);
    var n := VerifiedUpTo(c, rows, r.checkpoint, limit);
    SameTipSameRows(c, After(rows, 0)[..n], anchored);
  }

  /** And the audit table's serialization does. */
  lemma AuditSchemeDecodes(H: Digest)
    ensures Decodable(AuditScheme(H).serialize) && AuditScheme(H).digest == H
  {
    SerializeDecodable();
  }

  lemma VerifiedUpTo(c: Scheme, rows: seq<Row>, checkpoint: int, limit: int) returns (n: nat)
    requires Sorted(rows) && |rows| <= limit && 0 < limit && BatchOk(c, rows, 0, limit)
    requires 0 < checkpoint && RowHashAt(rows, checkpoint) != HASH_EMPTY
    ensures var hs := After(rows, 0);
      && 0 < n <= |hs| && n == Start(hs, checkpoint) && Chained(c, hs[..n], HASH_EMPTY)
      && hs[n - 1].id == checkpoint && hs[n - 1].rowHash == RowHashAt(rows, checkpoint)
  {
    var hs := After(rows, 0);
    AfterLength(rows, 0);
    assert Batch(rows, 0, limit) == hs;
    n := CheckpointRow(rows, checkpoint);
    assert hs == hs[..n] + hs[n..];
    ChainedConcat(c, hs[..n], hs[n..], HASH_EMPTY);
  }

  lemma {:induction false} AfterLength(rows: seq<Row>, from: int)
    ensures |After(rows, from)| <= |rows|
  {
    if rows != [] {
      AfterLength(rows[1..], from);
    }
  }

  lemma {:induction false} IdGap(hs: seq<Row>, j: nat, i: nat)
    requires Sorted(hs) && j <= i < |hs|
    ensures i - j <= hs[i].id - hs[j].id
  {
    if j < i {
      IdGap(hs, j, i - 1);
    }
  }

  /** Which links inside the range go unchecked, exactly: that of a row whose predecessor is the
      last of a full batch of consecutive ids. */
  lemma UncheckedExactly(hs: seq<Row>, checkpoint: int, i: nat)
    requires Sorted(hs) && 0 < i < |hs| && checkpoint < hs[0].id
    ensures !SameBatch(hs, checkpoint, i) <==>
      && 1000 <= i && (hs[i - 1].id - checkpoint) % 1000 == 0
      && hs[i - 1000].id == hs[i - 1].id - 999
  {
    var id := hs[i - 1].id;
    assert checkpoint < id;
    var f := LastBatch(checkpoint, id);
    BatchBounds(checkpoint, id);
    StartSplits(hs, f);
    IndexBound(hs, f, i - 1);
    if DEFAULT_VERIFY_BATCH <= i {
      IdGap(hs, i - DEFAULT_VERIFY_BATCH, i - 1);
    }
  }

  lemma BatchBounds(checkpoint: int, id: int)
    requires checkpoint < id
    ensures var f := LastBatch(checkpoint, id);
      && f < id <= f + DEFAULT_VERIFY_BATCH
      && (id == f + DEFAULT_VERIFY_BATCH <==> (id - checkpoint) % DEFAULT_VERIFY_BATCH == 0)
  {
  }

  lemma IdAtMostMax(rows: seq<Row>, r: Row)
    requires Sorted(rows) && r in rows
    ensures r.id <= MaxRowID(rows)
  {
    var i :| 0 <= i < |rows| && rows[i] == r;
    assert i < |rows| - 1 ==> rows[i].id < rows[|rows| - 1].id;
  }
}
