/** tail_log: a bounded read of a file that may grow while it is read, resumable by offset
    (internal/agentbox/tail_log.go). */
module TailLog {
  import opened Wrappers

  const OUTPUT_LIMIT := 262144
  const CHUNK := 65536

  datatype Served = Served(start: nat, end: nat, content: string, truncated: bool)

  /** The served bytes are those of the file between the two offsets.  A start past the end of
      the file is not an error: nothing is served and the offset stays. */
  predicate Exact(file: string, r: Served) {
    if r.start <= |file| then r.start <= r.end <= |file| && r.content == file[r.start..r.end]
    else r.end == r.start && r.content == ""
  }

  /** What the outside world does between two reads: append some bytes, let a read return
      fewer bytes than asked, fail it, or cancel the call. */
  datatype Tick = Tick(appended: string, readAtMost: nat, fails: bool, cancels: bool)

  class File {
    var data: string

    constructor (data: string)
      ensures this.data == data
    {
      this.data := data;
    }

    method Append(s: string)
      modifies this
      ensures data == old(data) + s
    {
      data := data + s;
    }

    /** One Read of at most `size` bytes at `pos`: some bytes, or nothing at the end. */
    method Read(pos: nat, size: nat, most: nat) returns (got: string)
      requires 0 < size
      ensures pos < |data| ==> 0 < |got| <= size && pos + |got| <= |data| && got == data[pos..pos + |got|]
      ensures pos >= |data| ==> got == ""
    {
      if pos >= |data| {
        return "";
      }
      var n := if most == 0 then 1 else most;
      n := if n > size then size else n;
      n := if pos + n > |data| then |data| - pos else n;
      return data[pos..pos + n];
    }
  }

  /** Every iteration serves at least one byte of what was there at the start, until that or
      the limit is used up. */
  predicate Progressed(size: nat, start: nat, iterations: nat, served: nat) {
    served >= iterations || start + served >= size || served >= OUTPUT_LIMIT
  }

  /** The read loop of handleTailLog.  `ticks` are the iterations the deadline leaves room for,
      `taken` those that read; an error or a cancellation yields no content.  The result is marked
      truncated exactly when the limit was reached with an iteration to spare. */
  method Tail(f: File, startOffset: Option<nat>, ticks: seq<Tick>)
    returns (r: Option<Served>, ghost taken: nat)
    modifies f
    ensures old(f.data) <= f.data
    ensures r.Some? ==> Exact(f.data, r.value)
    ensures r.Some? ==> r.value.end == r.value.start + |r.value.content|
    ensures r.Some? ==> |r.value.content| <= 262144
    ensures r.Some? ==> (startOffset.Some? ==> r.value.start == startOffset.value)
                        && (startOffset.None? ==> r.value.start == |old(f.data)|)
    ensures taken <= |ticks| && forall i :: 0 <= i < taken ==> !ticks[i].cancels && !ticks[i].fails
    ensures r.None? ==> taken < |ticks| && (ticks[taken].cancels || ticks[taken].fails)
    ensures r.Some? ==> (r.value.truncated <==> |r.value.content| == 262144 && taken < |ticks|)
    ensures r.Some? ==> if r.value.truncated then !ticks[taken].cancels else taken == |ticks|
    ensures r.Some? ==> Progressed(|old(f.data)|, r.value.start, |ticks|, |r.value.content|)
  {
    taken := 0;
    var start := if startOffset.Some? then startOffset.value else |f.data|;
    var buf, truncated := "", false;
    var i := 0;
    while i < |ticks|
      invariant 0 <= i <= |ticks|
      invariant old(f.data) <= f.data
      invariant |buf| <= OUTPUT_LIMIT && !truncated
      invariant Exact(f.data, Served(start, start + |buf|, buf, false))
      invariant Progressed(|old(f.data)|, start, i, |buf|)
      invariant taken == i && forall k :: 0 <= k < i ==> !ticks[k].cancels && !ticks[k].fails
    {
      ghost var before := f.data;
      f.Append(ticks[i].appended);
      ExactGrows(before, f.data, Served(start, start + |buf|, buf, false));
      if ticks[i].cancels {
        return None, taken;
      }
      var remaining := OUTPUT_LIMIT - |buf|;
      if remaining <= 0 {
        truncated := true;
        break;
      }
      var readSize := CHUNK;
      if readSize > remaining {
        readSize := remaining;
      }
      if ticks[i].fails {
        return None, taken;
      }
      var got := f.Read(start + |buf|, readSize, ticks[i].readAtMost);
      ExactExtends(f.data, start, buf, got);
      buf := buf + got;
      i := i + 1;
      taken := taken + 1;
    }
    return Some(Served(start, start + |buf|, buf, truncated)), taken;
  }

  /** What was served stays what the file holds, however the file grows. */
  lemma ExactGrows(file: string, later: string, r: Served)
    requires Exact(file, r) && file <= later
    ensures Exact(later, r)
  {
    if r.start <= |file| {
      assert later[r.start..r.end] == file[r.start..r.end];
    }
  }

  lemma ExactExtends(file: string, start: nat, buf: string, got: string)
    requires Exact(file, Served(start, start + |buf|, buf, false))
    requires var pos := start + |buf|;
      if pos < |file| then pos + |got| <= |file| && got == file[pos..pos + |got|] else got == ""
    ensures Exact(file, Served(start, start + |buf + got|, buf + got, false))
  {
    if start <= |file| {
      assert file[start..start + |buf| + |got|] == buf + got;
    }
  }

  function Contents(rs: seq<Served>): string {
    if rs == [] then "" else Contents(rs[..|rs| - 1]) + rs[|rs| - 1].content
  }

  /** Calls chained by their end offset. */
  ghost predicate ChainedCalls(rs: seq<Served>) {
    forall i :: 0 < i < |rs| ==> rs[i].start == rs[i - 1].end
  }

  /** Nothing is lost or served twice: over any number of chained calls on a growing file, the
      contents put together are the file's bytes from the first start to the last end. */
  lemma {:induction false} ChainedCallsServeAll(file: string, rs: seq<Served>)
    requires rs != [] && ChainedCalls(rs)
    requires forall i :: 0 <= i < |rs| ==> Exact(file, rs[i])
    ensures Exact(file, Served(rs[0].start, rs[|rs| - 1].end, Contents(rs), false))
  {
    var before, last := rs[..|rs| - 1], rs[|rs| - 1];
    if before == [] {
      assert Contents(before) + last.content == last.content;
    } else {
      ChainedCallsServeAll(file, before);
      if rs[0].start <= |file| {
        assert file[rs[0].start..last.end] == file[rs[0].start..last.start] + file[last.start..last.end];
      }
    }
  }
}
