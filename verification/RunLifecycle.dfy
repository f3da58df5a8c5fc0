/** Durable background runs: a run outlives the agent-box that started it, and its outcome is
    rebuilt from a record, an exit sidecar, the boot and the liveness of a pid
    (internal/agentbox/process.go, run_record.go, exit_sidecar.go).  State is keyed by
    sanitized name. */
module RunLifecycle {
  import opened Wrappers
  import opened Strings
  import opened Decimal
  import opened RunFiles

  // ---- exit sidecar text ----

  function Word(s: string): string {
    if s == "" || IsSpace(s[0]) then "" else [s[0]] + Word(s[1..])
  }

  /** strings.Fields(s)[0], or "" when there is no field. */
  function FirstField(s: string): string {
    if s == "" then "" else if IsSpace(s[0]) then FirstField(s[1..]) else Word(s)
  }

  /** parseExitSidecar's code: an empty or unparsable sidecar is no sidecar. */
  function ParseExitSidecar(data: string): Option<int> { Atoi(FirstField(data)) }

  /** What the wrapper prints: "<code> <unix-seconds>". */
  function SidecarText(code: int, date: int): string { Itoa(code) + " " + Itoa(date) }

  lemma {:induction false} WordOf(w: string, rest: string)
    requires forall i :: 0 <= i < |w| ==> !IsSpace(w[i])
    ensures Word(w + " " + rest) == w
  {
    var s := w + " " + rest;
    if w == "" {
      assert s[0] == ' ';
    } else {
      assert s[1..] == w[1..] + " " + rest;
      WordOf(w[1..], rest);
    }
  }

  /** The code a run writes is the code a later reader gets. */
  lemma SidecarRoundTrip(code: int, date: int)
    ensures ParseExitSidecar(SidecarText(code, date)) == Some(code)
  {
    var w := Itoa(code);
    AtoiItoa(code);
    forall i | 0 <= i < |w| ensures !IsSpace(w[i]) {
      ItoaChars(code, w[i]);
    }
    WordOf(w, Itoa(date));
    assert w != "";
    assert SidecarText(code, date)[0] == w[0];
  }

  /** An empty or blank sidecar is no sidecar. */
  lemma {:induction false} BlankSidecar(data: string)
    requires forall i :: 0 <= i < |data| ==> IsSpace(data[i])
    ensures ParseExitSidecar(data) == None
  {
    if data != "" {
      BlankSidecar(data[1..]);
    }
  }

  // ---- state ----

  /** One spawned wrapper shell.  `command` is the status it captured from the caller's
      command, `sidecar` whether it has put its sidecar in place, `ended` the status wait
      reports for it (-1 for a signal), `reaped` whether its reaper has written the record;
      `written` is all it has output, `inode` the log file it writes to. */
  datatype Run = Run(name: string, boot: nat, started: nat, command: Option<int>, sidecar: bool,
                     ended: Option<int>, reaped: bool, inode: nat, written: string)

  datatype Record = Record(run: nat, boot: nat, started: nat, exitCode: Option<int>)

  /** The log directory (each map from stem to file), the runs there ever were, the reapers
      still alive in some agent-box, and the current boot. */
  datatype World = World(records: map<string, Record>, logs: map<string, nat>,
                         sidecars: map<string, string>, contents: map<nat, string>,
                         runs: map<nat, Run>, reapers: set<nat>, boot: nat)

  datatype Outcome = Running | Exited(code: int) | Unknown

  /** applyExitSidecar: the record's own code wins over the sidecar's. */
  function Folded(w: World, stem: string): Option<int>
    requires stem in w.records
  {
    if w.records[stem].exitCode.Some? then w.records[stem].exitCode
    else if stem in w.sidecars then ParseExitSidecar(w.sidecars[stem]) else None
  }

  /** ResolveOutcome of a name's current record; `alive` is what kill(pid, 0) would say. */
  function Resolve(w: World, name: string, alive: bool): Outcome
    requires name in w.records
  {
    if Folded(w, name).Some? then Exited(Folded(w, name).value)
    else if w.records[name].boot != w.boot then Unknown
    else if alive then Running
    else Unknown
  }

  // ---- steps ----

  datatype Step =
    | Spawn(id: nat, name: string, started: nat, alive: bool)
    | Output(id: nat, bytes: string)
    | CommandExit(id: nat, code: int)
    | WriteSidecar(id: nat, date: int)
    | ShellExit(id: nat)
    | Signal(id: nat)
    | Reap(id: nat)
    | BoxDeath(lost: set<nat>)
    | Reboot
    | OrphanSpawn(id: nat, name: string, started: nat, alive: bool)

  function Rename<T>(m: map<string, T>, from: string, to: string): map<string, T> {
    if from in m then (m - {from})[to := m[from]] else m
  }

  /** rotateFinishedRun: the record, the log and the sidecar move aside together; a missing
      file is not an error. */
  function Rotated(w: World, name: string): World
    requires name in w.records
  {
    var to := RotatedStem(name, w.records[name].started);
    w.(records := Rename(w.records, name, to), logs := Rename(w.logs, name, to),
       sidecars := Rename(w.sidecars, name, to))
  }

  /** Opening the log with O_CREATE|O_TRUNC: an existing file is emptied and shared, a new one
      is its own. */
  function OpenLog(w: World, name: string, id: nat): World {
    if name in w.logs then w.(contents := w.contents[w.logs[name] := ""])
    else w.(logs := w.logs[name := id], contents := w.contents[id := ""])
  }

  /** Open the log and start a child. */
  function Opened(w: World, id: nat, name: string, started: nat): World {
    var v := OpenLog(w, name, id);
    v.(runs := v.runs[id := Run(name, v.boot, started, None, false, None, false, v.logs[name], "")])
  }

  /** Start a child and record it. */
  function Started(w: World, id: nat, name: string, started: nat): World {
    var v := Opened(w, id, name, started);
    v.(records := v.records[name := Record(id, v.boot, started, None)], reapers := v.reapers + {id})
  }

  /** spawnBackgroundProcess: refused while the name's record resolves to running or unknown;
      an exited one is rotated aside first. */
  function Spawned(w: World, id: nat, name: string, started: nat, alive: bool): World {
    if id in w.runs then w
    else if name !in w.records then Started(w, id, name, started)
    else if Resolve(w, name, alive).Exited? then Started(Rotated(w, name), id, name, started)
    else w
  }

  /** The same up to the death of the agent-box after it started the child: no record, no
      reaper. */
  function Orphaned(w: World, id: nat, name: string, started: nat, alive: bool): World {
    if id in w.runs then w
    else if name !in w.records then Opened(w, id, name, started)
    else if Resolve(w, name, alive).Exited? then Opened(Rotated(w, name), id, name, started)
    else w
  }

  function Append(m: map<nat, string>, k: nat, bytes: string): map<nat, string> {
    if k in m then m[k := m[k] + bytes] else m
  }

  function Killed(r: Run): Run { if r.ended.None? then r.(ended := Some(-1)) else r }

  /** One step; a step that is not possible leaves the world as it is. */
  function Next(w: World, step: Step): World {
    match step
    case Spawn(id, name, started, alive) => Spawned(w, id, name, started, alive)
    case Output(id, bytes) =>
      if id in w.runs && w.runs[id].ended.None? then
        var r := w.runs[id];
        w.(contents := Append(w.contents, r.inode, bytes),
           runs := w.runs[id := r.(written := r.written + bytes)])
      else w
    case CommandExit(id, code) =>
      if id in w.runs && w.runs[id].ended.None? && w.runs[id].command.None?
      then w.(runs := w.runs[id := w.runs[id].(command := Some(code))]) else w
    case WriteSidecar(id, date) =>
      if id in w.runs && w.runs[id].ended.None? && w.runs[id].command.Some? && !w.runs[id].sidecar then
        var r := w.runs[id];
        w.(sidecars := w.sidecars[r.name := SidecarText(r.command.value, date)],
           runs := w.runs[id := r.(sidecar := true)])
      else w
    case ShellExit(id) =>
      if id in w.runs && w.runs[id].ended.None? && w.runs[id].command.Some?
      then w.(runs := w.runs[id := w.runs[id].(ended := w.runs[id].command)]) else w
    case Signal(id) =>
      if id in w.runs then w.(runs := w.runs[id := Killed(w.runs[id])]) else w
    case Reap(id) =>
      if id in w.runs && id in w.reapers && w.runs[id].ended.Some? then
        var r := w.runs[id];
        w.(records := w.records[r.name := Record(id, r.boot, r.started, r.ended)],
           runs := w.runs[id := r.(reaped := true)], reapers := w.reapers - {id})
      else w
    case BoxDeath(lost) => w.(reapers := w.reapers - lost)
    case Reboot =>
      w.(runs := map id | id in w.runs :: Killed(w.runs[id]), reapers := {}, boot := w.boot + 1)
    case OrphanSpawn(id, name, started, alive) => Orphaned(w, id, name, started, alive)
  }

  function Exec(w: World, steps: seq<Step>): World {
    if steps == [] then w else Next(Exec(w, steps[..|steps| - 1]), steps[|steps| - 1])
  }

  const FRESH := World(map[], map[], map[], map[], map[], {}, 0)

  // ---- what the environment is assumed to respect ----

  /** A name is reused only after its live reaper has written, with a new start second, and
      never looks like a rotated name; no agent-box dies between starting a child and
      recording it. */
  ghost predicate Assumed(w: World, step: Step) {
    && !step.OrphanSpawn?
    && (step.Spawn? ==>
          && !EndsInDotDigits(step.name)
          && (forall r :: r in w.reapers && r in w.runs ==> w.runs[r].name != step.name)
          && (forall r :: r in w.runs && w.runs[r].name == step.name ==> w.runs[r].started != step.started))
  }

  ghost predicate AllAssumed(steps: seq<Step>) {
    forall i :: 0 <= i < |steps| ==> Assumed(Exec(FRESH, steps[..i]), steps[i])
  }

  // ---- the invariant ----

  /** A code this very run produced: its command's status, or the wrapper's wait status. */
  predicate Produced(r: Run, c: int) {
    (r.sidecar && r.command == Some(c)) || r.ended == Some(c)
  }

  /** The stem a run's files are under. */
  function Stem(w: World, id: nat): string
    requires id in w.runs && w.runs[id].name in w.records
  {
    var r := w.runs[id];
    if w.records[r.name].run == id then r.name else RotatedStem(r.name, r.started)
  }

  ghost predicate IsCurrent(w: World, id: nat)
    requires id in w.runs
  {
    var n := w.runs[id].name;
    n in w.records && w.records[n].run == id
  }

  /** The record, the log and the sidecar of run `id` agree with the run. */
  ghost predicate FilesOk(w: World, id: nat, stem: string)
    requires id in w.runs
  {
    var r := w.runs[id];
    && stem in w.records
    && w.records[stem] == Record(id, r.boot, r.started, if r.reaped then r.ended else None)
    && (r.reaped ==> r.ended.Some?)
    && (r.sidecar ==> r.command.Some?)
    && r.inode == id && stem in w.logs && w.logs[stem] == id
    && id in w.contents && w.contents[id] == r.written
    && (stem in w.sidecars <==> r.sidecar)
    && (r.sidecar ==> ParseExitSidecar(w.sidecars[stem]) == r.command)
  }

  /** A run that can no longer touch the files of its name. */
  ghost predicate Retired(w: World, id: nat)
    requires id in w.runs
  {
    id !in w.reapers && (w.runs[id].sidecar || w.runs[id].ended.Some?)
  }

  ghost predicate RunOk(w: World, id: nat)
    requires id in w.runs
  {
    var r := w.runs[id];
    && !EndsInDotDigits(r.name) && r.name in w.records
    && FilesOk(w, id, Stem(w, id))
    && (!IsCurrent(w, id) ==> Retired(w, id))
  }

  /** Every file under a stem belongs to a run that keeps its files there. */
  ghost predicate StemOk(w: World, stem: string) {
    && (stem in w.records || stem in w.logs || stem in w.sidecars ==>
          && stem in w.records && w.records[stem].run in w.runs
          && var id := w.records[stem].run;
             w.runs[id].name in w.records && Stem(w, id) == stem)
  }

  ghost predicate Inv(w: World) {
    && (forall id :: id in w.runs ==> RunOk(w, id))
    && (forall stem :: StemOk(w, stem))
    && DistinctStarts(w) && w.reapers <= w.runs.Keys
  }

  ghost predicate DistinctStarts(w: World) {
    forall i, j :: i in w.runs && j in w.runs && i != j && w.runs[i].name == w.runs[j].name ==>
      w.runs[i].started != w.runs[j].started
  }

  // ---- every step keeps it ----

  lemma StemsDiffer(w: World, i: nat, j: nat)
    requires i in w.runs && j in w.runs && i != j && RunOk(w, i) && RunOk(w, j)
    ensures Stem(w, i) != Stem(w, j)
  {
  }

  /** `w'` differs from `w` in one run and, of the files, only in that run's own. */
  ghost predicate Touches(w: World, w': World, id: nat)
    requires id in w.runs && w.runs[id].name in w.records
  {
    && w'.runs.Keys == w.runs.Keys && w'.records.Keys == w.records.Keys
    && w'.logs == w.logs && w'.contents.Keys == w.contents.Keys && w'.reapers <= w.reapers
    && w'.runs[id].name == w.runs[id].name && w'.runs[id].started == w.runs[id].started
    && (forall j :: j in w.runs && j != id ==> w'.runs[j] == w.runs[j])
    && (forall st :: st in w.records && st != Stem(w, id) ==> w'.records[st] == w.records[st])
    && Stem(w, id) in w.records && w'.records[Stem(w, id)].run == id
    && (forall st :: st != Stem(w, id) ==>
          (st in w'.sidecars <==> st in w.sidecars) && (st in w.sidecars ==> w'.sidecars[st] == w.sidecars[st]))
    && (forall j :: j in w.contents && j != id ==> w'.contents[j] == w.contents[j])
  }

  lemma TouchKeepsStem(w: World, w': World, id: nat, j: nat)
    requires id in w.runs && j in w.runs && RunOk(w, id) && RunOk(w, j) && Touches(w, w', id)
    ensures j in w'.runs && w'.runs[j].name == w.runs[j].name
    ensures w'.runs[j].name in w'.records && Stem(w', j) == Stem(w, j)
    ensures IsCurrent(w', j) == IsCurrent(w, j)
  {
  }

  lemma TouchKeepsOther(w: World, w': World, id: nat, j: nat)
    requires id in w.runs && j in w.runs && j != id
    requires RunOk(w, id) && RunOk(w, j) && Touches(w, w', id)
    ensures RunOk(w', j)
  {
    StemsDiffer(w, id, j);
    TouchKeepsStem(w, w', id, j);
    assert FilesOk(w, j, Stem(w, j));
  }

  lemma TouchKeepsStemOk(w: World, w': World, id: nat, st: string)
    requires Inv(w) && id in w.runs && RunOk(w, id) && Touches(w, w', id) && RunOk(w', id)
    ensures StemOk(w', st)
  {
    assert StemOk(w, st);
    TouchKeepsStem(w, w', id, id);
    if st != Stem(w, id) && (st in w'.records || st in w'.logs || st in w'.sidecars) {
      var j := w.records[st].run;
      assert RunOk(w, j);
      TouchKeepsStem(w, w', id, j);
    }
  }

  lemma SameStarts(w: World, w': World)
    requires DistinctStarts(w) && w'.runs.Keys == w.runs.Keys
    requires forall j :: j in w.runs ==>
      w'.runs[j].name == w.runs[j].name && w'.runs[j].started == w.runs[j].started
    ensures DistinctStarts(w')
  {
  }

  /** A step that touches only one run and its files keeps the invariant if that run's files
      still agree with it. */
  lemma TouchKeepsInv(w: World, w': World, id: nat)
    requires Inv(w) && id in w.runs && RunOk(w, id) && Touches(w, w', id) && RunOk(w', id)
    ensures Inv(w')
  {
    forall j | j in w'.runs ensures RunOk(w', j) {
      if j != id {
        TouchKeepsOther(w, w', id, j);
      }
    }
    forall st ensures StemOk(w', st) {
      TouchKeepsStemOk(w, w', id, st);
    }
    SameStarts(w, w');
  }

  lemma OutputKeepsInv(w: World, w': World, id: nat, bytes: string)
    requires Inv(w) && id in w.runs && w.runs[id].ended.None? && w' == Next(w, Output(id, bytes))
    ensures Inv(w')
  {
    assert RunOk(w, id);
    assert RunOk(w', id);
    TouchKeepsInv(w, w', id);
  }

  lemma CommandExitKeepsInv(w: World, w': World, id: nat, code: int)
    requires Inv(w) && id in w.runs && w' == Next(w, CommandExit(id, code))
    ensures Inv(w')
  {
    assert RunOk(w, id);
    if w' != w {
      assert RunOk(w', id);
      TouchKeepsInv(w, w', id);
    }
  }

  /** Only the current run of a name can still write that name's sidecar. */
  lemma WriteSidecarKeepsInv(w: World, w': World, id: nat, date: int)
    requires Inv(w) && id in w.runs && w' == Next(w, WriteSidecar(id, date))
    ensures Inv(w')
  {
    assert RunOk(w, id);
    if w' != w {
      SidecarRoundTrip(w.runs[id].command.value, date);
      assert Stem(w, id) == w.runs[id].name;
      assert RunOk(w', id);
      TouchKeepsInv(w, w', id);
    }
  }

  lemma EndKeepsInv(w: World, w': World, id: nat, status: Option<int>)
    requires Inv(w) && id in w.runs && w.runs[id].ended.None? && status.Some?
    requires w' == w.(runs := w.runs[id := w.runs[id].(ended := status)])
    ensures Inv(w')
  {
    assert RunOk(w, id);
    assert RunOk(w', id);
    TouchKeepsInv(w, w', id);
  }

  lemma ReapKeepsInv(w: World, w': World, id: nat)
    requires Inv(w) && id in w.runs && id in w.reapers && w.runs[id].ended.Some?
    requires w' == Next(w, Reap(id))
    ensures Inv(w')
  {
    assert RunOk(w, id);
    assert Stem(w, id) == w.runs[id].name;
    assert RunOk(w', id);
    TouchKeepsInv(w, w', id);
  }

  lemma BoxDeathKeepsInv(w: World, w': World, lost: set<nat>)
    requires Inv(w) && w' == w.(reapers := w.reapers - lost)
    ensures Inv(w')
  {
    forall j | j in w'.runs
      ensures w'.runs[j].name in w'.records && Stem(w', j) == Stem(w, j) && RunOk(w', j)
    {
      assert RunOk(w, j);
    }
    forall st ensures StemOk(w', st) {
      assert StemOk(w, st);
    }
  }

  lemma RebootKeepsInv(w: World, w': World)
    requires Inv(w) && w' == Next(w, Reboot)
    ensures Inv(w')
  {
    forall j | j in w'.runs
      ensures w'.runs[j].name in w'.records && Stem(w', j) == Stem(w, j) && RunOk(w', j)
    {
      assert RunOk(w, j);
    }
    forall st ensures StemOk(w', st) {
      assert StemOk(w, st);
    }
  }

  // ---- spawning ----

  /** A name that can be taken: nothing of it is left in the way. */
  lemma FreeStem(w: World, name: string, prev: nat)
    requires Inv(w) && name in w.records && w.records[name].run == prev && !EndsInDotDigits(name)
    ensures prev in w.runs && w.runs[prev].name == name && Stem(w, prev) == name && RunOk(w, prev)
    ensures var to := RotatedStem(name, w.runs[prev].started);
      to != name && to !in w.records && to !in w.logs && to !in w.sidecars
  {
    assert StemOk(w, name);
    var k := w.records[name].run;
    RotatedEndsInDigits(w.runs[k].name, w.runs[k].started);
    assert RunOk(w, prev);
    var to := RotatedStem(name, w.runs[prev].started);
    RotatedEndsInDigits(name, w.runs[prev].started);
    assert StemOk(w, to);
    if to in w.records {
      var i := w.records[to].run;
      assert RunOk(w, i);
      if Stem(w, i) != w.runs[i].name {
        RotatedUnique(w.runs[i].name, w.runs[i].started, name, w.runs[prev].started);
      }
      assert false;
    }
  }

  /** Files under stem `st` are the same in both worlds. */
  ghost predicate SameFiles(w: World, w': World, st: string) {
    && (st in w.records <==> st in w'.records) && (st in w.records ==> w'.records[st] == w.records[st])
    && (st in w.logs <==> st in w'.logs) && (st in w.logs ==> w'.logs[st] == w.logs[st])
    && (st in w.sidecars <==> st in w'.sidecars) && (st in w.sidecars ==> w'.sidecars[st] == w.sidecars[st])
  }

  /** Files under `from` in `w` are under `to` in `w'`. */
  ghost predicate MovedFiles(w: World, w': World, from: string, to: string) {
    && from in w.records && to in w'.records && w'.records[to] == w.records[from]
    && (from in w.logs <==> to in w'.logs) && (from in w.logs ==> w'.logs[to] == w.logs[from])
    && (from in w.sidecars <==> to in w'.sidecars)
    && (from in w.sidecars ==> w'.sidecars[to] == w.sidecars[from])
  }

  /** What a spawn leaves behind, apart from the files it moved aside. */
  ghost predicate NewRun(w: World, w': World, id: nat, name: string, started: nat) {
    && id !in w.runs
    && w'.runs == w.runs[id := Run(name, w.boot, started, None, false, None, false, id, "")]
    && w'.contents == w.contents[id := ""] && w'.reapers == w.reapers + {id} && w'.boot == w.boot
    && name in w'.records && w'.records[name] == Record(id, w.boot, started, None)
    && name in w'.logs && w'.logs[name] == id && name !in w'.sidecars
  }

  lemma FreshSpawnFacts(w: World, w': World, id: nat, name: string, started: nat)
    requires Inv(w) && id !in w.runs && name !in w.records
    requires w' == Started(w, id, name, started)
    ensures NewRun(w, w', id, name, started)
    ensures forall st :: st != name ==> SameFiles(w, w', st)
  {
    assert StemOk(w, name);
  }

  lemma RotatingSpawnFacts(w: World, w': World, id: nat, name: string, started: nat, prev: nat, to: string)
    requires Inv(w) && id !in w.runs && !EndsInDotDigits(name)
    requires name in w.records && w.records[name].run == prev
    requires to == RotatedStem(name, w.records[name].started)
    requires w' == Started(Rotated(w, name), id, name, started)
    ensures NewRun(w, w', id, name, started)
    ensures MovedFiles(w, w', name, to) && to != name
    ensures forall st :: st != name && st != to ==> SameFiles(w, w', st)
  {
    FreeStem(w, name, prev);
  }

  lemma NewRunOk(w: World, w': World, id: nat, name: string, started: nat)
    requires NewRun(w, w', id, name, started) && !EndsInDotDigits(name)
    ensures RunOk(w', id) && Stem(w', id) == name
  {
  }

  /** A run whose files stay put is not affected by a spawn under any name. */
  lemma SpawnKeepsRun(w: World, w': World, id: nat, name: string, started: nat, j: nat)
    requires NewRun(w, w', id, name, started) && j in w.runs && RunOk(w, j)
    requires Stem(w, j) != name && SameFiles(w, w', Stem(w, j))
    requires w.runs[j].name == name || SameFiles(w, w', w.runs[j].name)
    ensures RunOk(w', j) && Stem(w', j) == Stem(w, j)
  {
    assert FilesOk(w, j, Stem(w, j));
  }

  /** The run that was rotated aside keeps its record, its log and its sidecar. */
  lemma SpawnRetiresRun(w: World, w': World, id: nat, name: string, started: nat, prev: nat, to: string)
    requires NewRun(w, w', id, name, started) && prev in w.runs && RunOk(w, prev)
    requires w.runs[prev].name == name && Stem(w, prev) == name && Folded(w, name).Some?
    requires to == RotatedStem(name, w.runs[prev].started) && MovedFiles(w, w', name, to)
    requires prev !in w.reapers
    ensures RunOk(w', prev) && Stem(w', prev) == to
  {
    assert FilesOk(w, prev, name);
    assert FilesOk(w', prev, to);
  }

  lemma NewStarts(w: World, w': World, id: nat, name: string, started: nat)
    requires DistinctStarts(w) && NewRun(w, w', id, name, started)
    requires forall r :: r in w.runs && w.runs[r].name == name ==> w.runs[r].started != started
    ensures DistinctStarts(w')
  {
  }

  lemma FreshSpawnKeepsInv(w: World, w': World, id: nat, name: string, started: nat)
    requires Inv(w) && id !in w.runs && name !in w.records && !EndsInDotDigits(name)
    requires forall r :: r in w.runs && w.runs[r].name == name ==> w.runs[r].started != started
    requires w' == Started(w, id, name, started)
    ensures Inv(w')
  {
    FreshSpawnFacts(w, w', id, name, started);
    NewRunOk(w, w', id, name, started);
    forall j | j in w.runs ensures RunOk(w', j) && Stem(w', j) == Stem(w, j) {
      assert RunOk(w, j);
      SpawnKeepsRun(w, w', id, name, started, j);
    }
    forall st ensures StemOk(w', st) {
      assert StemOk(w, st);
      assert st != name ==> SameFiles(w, w', st);
    }
    NewStarts(w, w', id, name, started);
  }

  lemma RotatingSpawnKeepsRuns(w: World, w': World, id: nat, name: string, started: nat,
                               prev: nat, to: string, j: nat)
    requires Inv(w) && NewRun(w, w', id, name, started) && j in w.runs && !EndsInDotDigits(name)
    requires name in w.records && w.records[name].run == prev && Folded(w, name).Some?
    requires prev in w.runs && w.runs[prev].name == name && to == RotatedStem(name, w.runs[prev].started)
    requires prev !in w.reapers && MovedFiles(w, w', name, to) && to != name && to !in w.records
    requires forall st :: st != name && st != to ==> SameFiles(w, w', st)
    ensures RunOk(w', j)
    ensures Stem(w', j) == if j == prev then to else Stem(w, j)
  {
    assert RunOk(w, j);
    if j == prev {
      SpawnRetiresRun(w, w', id, name, started, prev, to);
    } else {
      RotatedEndsInDigits(w.runs[j].name, w.runs[j].started);
      assert Stem(w, j) in w.records && Stem(w, j) != to && Stem(w, j) != name;
      assert SameFiles(w, w', Stem(w, j));
      SpawnKeepsRun(w, w', id, name, started, j);
    }
  }

  lemma RotatingSpawnKeepsInv(w: World, w': World, id: nat, name: string, started: nat)
    requires Inv(w) && id !in w.runs && name in w.records && !EndsInDotDigits(name)
    requires Folded(w, name).Some? && w.records[name].run !in w.reapers
    requires forall r :: r in w.runs && w.runs[r].name == name ==> w.runs[r].started != started
    requires w' == Started(Rotated(w, name), id, name, started)
    ensures Inv(w')
  {
    var prev := w.records[name].run;
    FreeStem(w, name, prev);
    var to := RotatedStem(name, w.runs[prev].started);
    RotatingSpawnFacts(w, w', id, name, started, prev, to);
    NewRunOk(w, w', id, name, started);
    forall j | j in w.runs
      ensures RunOk(w', j) && Stem(w', j) == if j == prev then to else Stem(w, j)
    {
      RotatingSpawnKeepsRuns(w, w', id, name, started, prev, to, j);
    }
    forall st ensures StemOk(w', st) {
      assert StemOk(w, st);
      assert st != name && st != to ==> SameFiles(w, w', st);
    }
    NewStarts(w, w', id, name, started);
  }

  lemma SpawnKeepsInv(w: World, w': World, step: Step)
    requires Inv(w) && step.Spawn? && Assumed(w, step) && w' == Next(w, step)
    ensures Inv(w')
  {
    var id, name := step.id, step.name;
    if id in w.runs {
    } else if name !in w.records {
      FreshSpawnKeepsInv(w, w', id, name, step.started);
    } else if Resolve(w, name, step.alive).Exited? {
      assert StemOk(w, name);
      FreeStem(w, name, w.records[name].run);
      RotatingSpawnKeepsInv(w, w', id, name, step.started);
    }
  }

  lemma StepKeepsInv(w: World, step: Step)
    requires Inv(w) && Assumed(w, step)
    ensures Inv(Next(w, step))
  {
    var w' := Next(w, step);
    if w' != w {
      match step
      case Spawn(_, _, _, _) => SpawnKeepsInv(w, w', step);
      case Output(id, bytes) => OutputKeepsInv(w, w', id, bytes);
      case CommandExit(id, code) => CommandExitKeepsInv(w, w', id, code);
      case WriteSidecar(id, date) => WriteSidecarKeepsInv(w, w', id, date);
      case ShellExit(id) => EndKeepsInv(w, w', id, w.runs[id].command);
      case Signal(id) => EndKeepsInv(w, w', id, Some(-1));
      case Reap(id) => ReapKeepsInv(w, w', id);
      case BoxDeath(lost) => BoxDeathKeepsInv(w, w', lost);
      case Reboot => RebootKeepsInv(w, w');
    }
  }

  lemma {:induction false} RunKeepsInv(steps: seq<Step>)
    requires AllAssumed(steps)
    ensures Inv(Exec(FRESH, steps))
  {
    if steps != [] {
      var before := steps[..|steps| - 1];
      AssumedPrefix(steps);
      RunKeepsInv(before);
      assert Assumed(Exec(FRESH, before), steps[|steps| - 1]);
      StepKeepsInv(Exec(FRESH, before), steps[|steps| - 1]);
    }
  }

  /** What every step but a bad one keeps holds throughout a run exactly when no step is bad. */
  lemma {:induction false} HoldsThroughout(steps: seq<Step>, P: seq<Step> -> bool,
                                           Bad: (seq<Step>, Step) -> bool)
    requires P([])
    requires forall before, step :: P(before) ==> (P(before + [step]) <==> !Bad(before, step))
    ensures (forall k :: 0 <= k <= |steps| ==> P(steps[..k]))
            <==> forall k :: 0 <= k < |steps| ==> !Bad(steps[..k], steps[k])
  {
    if steps == [] {
      assert steps[..0] == [];
    } else {
      var before, step := steps[..|steps| - 1], steps[|steps| - 1];
      assert steps == before + [step] && steps[..|steps|] == steps && before[..|before|] == before;
      HoldsThroughout(before, P, Bad);
      assert forall k :: 0 <= k <= |before| ==> before[..k] == steps[..k];
      assert forall k :: 0 <= k < |before| ==> before[k] == steps[k];
    }
  }

  // ---- whose record a name's is ----

  /** A spawn that starts a run of this name. */
  predicate Starts(w: World, step: Step, name: string) {
    && (step.Spawn? || step.OrphanSpawn?) && step.name == name
    && step.id !in w.runs && step.id in Next(w, step).runs
  }

  /** The last run started under a name. */
  function LastSpawn(steps: seq<Step>, name: string): Option<nat> {
    if steps == [] then None
    else
      var before, step := steps[..|steps| - 1], steps[|steps| - 1];
      if Starts(Exec(FRESH, before), step, name) then Some(step.id) else LastSpawn(before, name)
  }

  /** The name's record is of the last run started under it, and there is one exactly when some
      run was. */
  ghost predicate CurrentIsLast(steps: seq<Step>, name: string) {
    var w := Exec(FRESH, steps);
    LastSpawn(steps, name) == if name in w.records then Some(w.records[name].run) else None
  }

  /** A reaper about to write under a name that a later run has taken. */
  ghost predicate ReapsLate(before: seq<Step>, step: Step, name: string) {
    var w := Exec(FRESH, before);
    && step.Reap? && step.id in w.runs && step.id in w.reapers && w.runs[step.id].ended.Some?
    && w.runs[step.id].name == name && LastSpawn(before, name) != Some(step.id)
  }

  /** A run started and never recorded. */
  ghost predicate Orphans(before: seq<Step>, step: Step, name: string) {
    step.OrphanSpawn? && Starts(Exec(FRESH, before), step, name)
  }

  lemma SpawnRecords(w: World, step: Step, name: string)
    requires step.Spawn? && !EndsInDotDigits(name)
    ensures var w' := Next(w, step);
      if Starts(w, step, name) then name in w'.records && w'.records[name].run == step.id
      else (name in w'.records <==> name in w.records)
           && (name in w.records ==> w'.records[name] == w.records[name])
  {
    if step.name in w.records {
      RotatedEndsInDigits(step.name, w.records[step.name].started);
    }
  }

  lemma OrphanRecords(w: World, step: Step, name: string)
    requires step.OrphanSpawn? && !EndsInDotDigits(name)
    ensures var w' := Next(w, step);
      if Starts(w, step, name) then name !in w'.records
      else (name in w'.records <==> name in w.records)
           && (name in w.records ==> w'.records[name] == w.records[name])
  {
    if step.name in w.records {
      RotatedEndsInDigits(step.name, w.records[step.name].started);
    }
  }

  lemma StepRecords(w: World, step: Step, name: string)
    requires !step.Spawn? && !step.OrphanSpawn?
    requires !(step.Reap? && step.id in w.runs && w.runs[step.id].name == name)
    ensures var w' := Next(w, step);
      && (name in w'.records <==> name in w.records)
      && (name in w.records ==> w'.records[name] == w.records[name])
  {
  }

  /** One more step leaves the name with its last run exactly when it is not a late reap and
      starts no run that goes unrecorded. */
  lemma StepKeepsCurrent(before: seq<Step>, step: Step, name: string)
    requires !EndsInDotDigits(name) && CurrentIsLast(before, name)
    ensures CurrentIsLast(before + [step], name)
            <==> !ReapsLate(before, step, name) && !Orphans(before, step, name)
  {
    var w, steps := Exec(FRESH, before), before + [step];
    assert steps[..|steps| - 1] == before && steps[|steps| - 1] == step;
    assert Exec(FRESH, steps) == Next(w, step);
    if step.Spawn? {
      SpawnRecords(w, step, name);
    } else if step.OrphanSpawn? {
      OrphanRecords(w, step, name);
    } else if step.Reap? && step.id in w.runs && w.runs[step.id].name == name {
      assert LastSpawn(steps, name) == LastSpawn(before, name);
    } else {
      StepRecords(w, step, name);
    }
  }

  /** With no assumption at all: a name's record is of the last run started under it, at every
      moment of a run, exactly when no reaper of the name writes late and none of its runs goes
      unrecorded. */
  lemma CurrentIsLastExactly(steps: seq<Step>, name: string)
    requires !EndsInDotDigits(name)
    ensures (forall k :: 0 <= k <= |steps| ==> CurrentIsLast(steps[..k], name))
            <==> forall k :: 0 <= k < |steps| ==>
                   !ReapsLate(steps[..k], steps[k], name) && !Orphans(steps[..k], steps[k], name)
  {
    forall before, step | CurrentIsLast(before, name)
      ensures CurrentIsLast(before + [step], name)
              <==> !ReapsLate(before, step, name) && !Orphans(before, step, name)
    {
      StepKeepsCurrent(before, step, name);
    }
    HoldsThroughout(steps, s => CurrentIsLast(s, name),
                    (s, step) => ReapsLate(s, step, name) || Orphans(s, step, name));
  }

  /** Under the assumptions no reaper writes late. */
  lemma {:induction false} AssumedIsCurrent(steps: seq<Step>, name: string)
    requires AllAssumed(steps) && !EndsInDotDigits(name)
    ensures CurrentIsLast(steps, name)
  {
    if steps != [] {
      var before, step := steps[..|steps| - 1], steps[|steps| - 1];
      AssumedPrefix(steps);
      AssumedIsCurrent(before, name);
      RunKeepsInv(before);
      assert before + [step] == steps;
      StepKeepsCurrent(before, step, name);
      NoLateReap(before, step, name);
    }
  }

  lemma NoLateReap(before: seq<Step>, step: Step, name: string)
    requires Inv(Exec(FRESH, before)) && CurrentIsLast(before, name)
    ensures !ReapsLate(before, step, name)
  {
    var w := Exec(FRESH, before);
    assert step.Reap? && step.id in w.runs ==> RunOk(w, step.id);
  }

  lemma AssumedPrefix(steps: seq<Step>)
    requires AllAssumed(steps) && steps != []
    ensures AllAssumed(steps[..|steps| - 1])
  {
    var before := steps[..|steps| - 1];
    forall i | 0 <= i < |before| ensures Assumed(Exec(FRESH, before[..i]), before[i]) {
      assert before[..i] == steps[..i];
      assert Assumed(Exec(FRESH, steps[..i]), steps[i]);
    }
  }

  // ---- whose sidecar a name's is ----

  predicate WritesSidecar(w: World, step: Step, name: string) {
    && step.WriteSidecar? && step.id in w.runs && w.runs[step.id].name == name
    && w.runs[step.id].ended.None? && w.runs[step.id].command.Some? && !w.runs[step.id].sidecar
  }

  /** The run whose sidecar is under a name now; a rotation takes it away. */
  function SidecarBy(steps: seq<Step>, name: string): Option<nat> {
    if steps == [] then None
    else
      var before, step := steps[..|steps| - 1], steps[|steps| - 1];
      var w := Exec(FRESH, before);
      if WritesSidecar(w, step, name) then Some(step.id)
      else if Starts(w, step, name) && name in w.records then None
      else SidecarBy(before, name)
  }

  /** A sidecar is under the name exactly when the history says whose, and it holds that run's
      own status. */
  ghost predicate SidecarIs(w: World, name: string, whose: Option<nat>) {
    if whose.None? then name !in w.sidecars
    else && name in w.sidecars && whose.value in w.runs && w.runs[whose.value].command.Some?
         && ParseExitSidecar(w.sidecars[name]) == w.runs[whose.value].command
  }

  lemma StepSidecar(w: World, step: Step, name: string, whose: Option<nat>)
    requires !EndsInDotDigits(name) && SidecarIs(w, name, whose)
    ensures SidecarIs(Next(w, step), name,
                      if WritesSidecar(w, step, name) then Some(step.id)
                      else if Starts(w, step, name) && name in w.records then None else whose)
  {
    if whose.Some? {
      StepGrowsRun(w, step, whose.value);
    }
    if step.Spawn? {
      SpawnSidecars(w, step, name);
    } else if step.OrphanSpawn? {
      OrphanSidecars(w, step, name);
    } else if WritesSidecar(w, step, name) {
      SidecarRoundTrip(w.runs[step.id].command.value, step.date);
    }
  }

  lemma OrphanSidecars(w: World, step: Step, name: string)
    requires step.OrphanSpawn? && !EndsInDotDigits(name)
    ensures var w' := Next(w, step);
      if Starts(w, step, name) && name in w.records then name !in w'.sidecars
      else (name in w'.sidecars <==> name in w.sidecars)
           && (name in w.sidecars ==> w'.sidecars[name] == w.sidecars[name])
  {
    if step.name in w.records {
      RotatedEndsInDigits(step.name, w.records[step.name].started);
    }
  }

  lemma SpawnSidecars(w: World, step: Step, name: string)
    requires step.Spawn? && !EndsInDotDigits(name)
    ensures var w' := Next(w, step);
      if Starts(w, step, name) && name in w.records then name !in w'.sidecars
      else (name in w'.sidecars <==> name in w.sidecars)
           && (name in w.sidecars ==> w'.sidecars[name] == w.sidecars[name])
  {
    if step.name in w.records {
      RotatedEndsInDigits(step.name, w.records[step.name].started);
    }
  }

  lemma {:induction false} SidecarByIs(steps: seq<Step>, name: string)
    requires !EndsInDotDigits(name)
    ensures SidecarIs(Exec(FRESH, steps), name, SidecarBy(steps, name))
  {
    if steps != [] {
      var before := steps[..|steps| - 1];
      SidecarByIs(before, name);
      StepSidecar(Exec(FRESH, before), steps[|steps| - 1], name, SidecarBy(before, name));
    }
  }

  /** The sidecar under a name, if any, is that of the last run started under it. */
  predicate OwnSidecar(steps: seq<Step>, name: string) {
    SidecarBy(steps, name).Some? ==> SidecarBy(steps, name) == LastSpawn(steps, name)
  }

  /** A wrapper about to put its sidecar under a name that is no longer its own. */
  predicate WritesForeign(before: seq<Step>, step: Step, name: string) {
    WritesSidecar(Exec(FRESH, before), step, name) && LastSpawn(before, name) != Some(step.id)
  }

  /** A run started where an unrecorded one has left its sidecar: nothing rotates that away. */
  predicate StartsOver(before: seq<Step>, step: Step, name: string) {
    var w := Exec(FRESH, before);
    Starts(w, step, name) && name !in w.records && SidecarBy(before, name).Some?
  }

  lemma StepKeepsOwnSidecar(before: seq<Step>, step: Step, name: string)
    requires !EndsInDotDigits(name) && OwnSidecar(before, name)
    ensures OwnSidecar(before + [step], name)
            <==> !WritesForeign(before, step, name) && !StartsOver(before, step, name)
  {
    var steps := before + [step];
    assert steps[..|steps| - 1] == before && steps[|steps| - 1] == step;
    SidecarByIs(before, name);
  }

  /** With no assumption at all: the sidecar under a name is its last run's own, at every moment
      of a run, exactly when no wrapper puts one under a name that is no longer its own, and no
      run starts where an unrecorded one has left its sidecar. */
  lemma OwnSidecarExactly(steps: seq<Step>, name: string)
    requires !EndsInDotDigits(name)
    ensures (forall k :: 0 <= k <= |steps| ==> OwnSidecar(steps[..k], name))
            <==> forall k :: 0 <= k < |steps| ==>
                   !WritesForeign(steps[..k], steps[k], name) && !StartsOver(steps[..k], steps[k], name)
  {
    forall before, step | OwnSidecar(before, name)
      ensures OwnSidecar(before + [step], name)
              <==> !WritesForeign(before, step, name) && !StartsOver(before, step, name)
    {
      StepKeepsOwnSidecar(before, step, name);
    }
    HoldsThroughout(steps, s => OwnSidecar(s, name),
                    (s, step) => WritesForeign(s, step, name) || StartsOver(s, step, name));
  }

  // ---- what a reader may rely on ----

  /** In every reachable state, through lost connections, reboots and reused names: a name's
      current record belongs to the last run spawned under that name; it resolves to exited
      exactly when that run has put its sidecar in place or been reaped, and then with a code
      that this very run produced; to running exactly when it has not, was started in this boot
      and its process is alive, whatever became of the agent-box; else it is unknown.  No run
      inherits the status of an earlier one. */
  lemma OutcomeIsOwn(steps: seq<Step>, name: string, alive: bool)
    requires AllAssumed(steps) && name in Exec(FRESH, steps).records && !EndsInDotDigits(name)
    ensures var w := Exec(FRESH, steps);
      var id := w.records[name].run;
      && LastSpawn(steps, name) == Some(id) && id in w.runs && w.runs[id].name == name
      && (Resolve(w, name, alive).Exited? <==> w.runs[id].sidecar || w.runs[id].reaped)
      && (Resolve(w, name, alive).Exited? ==> Produced(w.runs[id], Resolve(w, name, alive).code))
      && (Resolve(w, name, alive).Running?
          <==> !w.runs[id].sidecar && !w.runs[id].reaped && w.runs[id].boot == w.boot && alive)
  {
    RunKeepsInv(steps);
    AssumedIsCurrent(steps, name);
    var w := Exec(FRESH, steps);
    FreeStem(w, name, w.records[name].run);
    assert FilesOk(w, w.records[name].run, name);
  }

  /** The death of an agent-box changes what no name resolves to, in any state. */
  lemma BoxDeathUnseen(w: World, lost: set<nat>, name: string, alive: bool)
    requires name in w.records
    ensures var w' := Next(w, BoxDeath(lost));
      name in w'.records && Resolve(w', name, alive) == Resolve(w, name, alive)
  {
  }

  /** A run's identity never changes and its marks are never taken back. */
  predicate Later(r: Run, r': Run) {
    && r'.name == r.name && (r.sidecar ==> r'.sidecar) && (r.reaped ==> r'.reaped)
    && r.written <= r'.written
    && (r.command.Some? ==> r'.command == r.command) && (r.ended.Some? ==> r'.ended == r.ended)
  }

  ghost predicate Grew(w: World, w': World) {
    forall id :: id in w.runs ==> id in w'.runs && Later(w.runs[id], w'.runs[id])
  }

  lemma SpawnLeavesRun(w: World, id: nat, name: string, started: nat, alive: bool, j: nat)
    requires j in w.runs
    ensures var w' := Spawned(w, id, name, started, alive); j in w'.runs && w'.runs[j] == w.runs[j]
  {
  }

  lemma StepGrowsRun(w: World, step: Step, j: nat)
    requires j in w.runs
    ensures j in Next(w, step).runs && Later(w.runs[j], Next(w, step).runs[j])
  {
    if step.Spawn? {
      SpawnLeavesRun(w, step.id, step.name, step.started, step.alive, j);
    } else if step.OrphanSpawn? {
      OrphanLeavesRun(w, step, j);
    } else if step.Output? {
      OutputGrowsRun(w, step.id, step.bytes, j);
    } else if step.Reap? || step.BoxDeath? || step.Reboot? {
      ReapGrowsRun(w, step, j);
    } else {
      MarkGrowsRun(w, step, j);
    }
  }

  lemma ReapGrowsRun(w: World, step: Step, j: nat)
    requires j in w.runs && (step.Reap? || step.BoxDeath? || step.Reboot?)
    ensures j in Next(w, step).runs && Later(w.runs[j], Next(w, step).runs[j])
  {
  }

  lemma OutputGrowsRun(w: World, id: nat, bytes: string, j: nat)
    requires j in w.runs
    ensures var w' := Next(w, Output(id, bytes)); j in w'.runs && Later(w.runs[j], w'.runs[j])
  {
  }

  lemma MarkGrowsRun(w: World, step: Step, j: nat)
    requires j in w.runs
    requires step.CommandExit? || step.WriteSidecar? || step.ShellExit? || step.Signal?
    ensures j in Next(w, step).runs && Later(w.runs[j], Next(w, step).runs[j])
  {
    match step
    case CommandExit(id, _) => assert j != id ==> Next(w, step).runs[j] == w.runs[j];
    case WriteSidecar(id, _) => assert j != id ==> Next(w, step).runs[j] == w.runs[j];
    case ShellExit(id) => assert j != id ==> Next(w, step).runs[j] == w.runs[j];
    case Signal(id) => assert j != id ==> Next(w, step).runs[j] == w.runs[j];
  }

  lemma OrphanLeavesRun(w: World, step: Step, j: nat)
    requires j in w.runs && step.OrphanSpawn?
    ensures var w' := Next(w, step); j in w'.runs && w'.runs[j] == w.runs[j]
  {
  }

  lemma {:induction false} RunGrows(w: World, before: seq<Step>, more: seq<Step>)
    ensures Grew(Exec(w, before), Exec(w, before + more))
  {
    if more == [] {
      assert before + more == before;
    } else {
      var m, step := more[..|more| - 1], more[|more| - 1];
      RunGrows(w, before, m);
      assert before + more == before + m + [step];
      GrewFurther(w, Exec(w, before), before + m, step);
    }
  }

  lemma GrewFurther(w: World, u: World, steps: seq<Step>, step: Step)
    requires Grew(u, Exec(w, steps))
    ensures Grew(u, Exec(w, steps + [step]))
  {
    assert (steps + [step])[..|steps|] == steps;
    var v, v' := Exec(w, steps), Exec(w, steps + [step]);
    assert v' == Next(v, step);
    forall id | id in u.runs ensures id in v'.runs && Later(u.runs[id], v'.runs[id]) {
      StepGrowsRun(v, step, id);
      LaterStill(u.runs[id], v.runs[id], v'.runs[id]);
    }
  }

  lemma LaterStill(a: Run, b: Run, c: Run)
    requires Later(a, b) && Later(b, c)
    ensures Later(a, c)
  {
  }

  /** A signal that ends the wrapper. */
  predicate Kills(w: World, step: Step, id: nat) {
    step == Signal(id) && id in w.runs && w.runs[id].ended.None?
  }

  predicate Signalled(steps: seq<Step>, id: nat) {
    steps != [] &&
    (Signalled(steps[..|steps| - 1], id)
     || Kills(Exec(FRESH, steps[..|steps| - 1]), steps[|steps| - 1], id))
  }

  /** What the wait status of a run can be: -1 if a signal ended its wrapper, else its
      command's status, unless a reboot ended it, and then no reaper is left to write it. */
  ghost predicate EndOk(w: World, signalled: bool, id: nat) {
    if id !in w.runs then !signalled
    else
      var r := w.runs[id];
      && (signalled ==> r.ended == Some(-1)) && (r.reaped ==> r.ended.Some?)
      && (!signalled && r.ended.Some? ==> r.ended == r.command || (id !in w.reapers && !r.reaped))
  }

  lemma StepKeepsEnd(w: World, step: Step, signalled: bool, id: nat)
    requires EndOk(w, signalled, id)
    ensures EndOk(Next(w, step), signalled || Kills(w, step, id), id)
  {
    if step.Spawn? {
      SpawnKeepsEnd(w, step, signalled, id);
    } else if step.OrphanSpawn? {
      OrphanKeepsEnd(w, step, signalled, id);
    }
  }

  lemma OrphanKeepsEnd(w: World, step: Step, signalled: bool, id: nat)
    requires EndOk(w, signalled, id) && step.OrphanSpawn?
    ensures EndOk(Next(w, step), signalled, id)
  {
    if id in w.runs {
      OrphanLeavesRun(w, step, id);
    }
  }

  lemma SpawnKeepsEnd(w: World, step: Step, signalled: bool, id: nat)
    requires EndOk(w, signalled, id) && step.Spawn?
    ensures EndOk(Next(w, step), signalled, id)
  {
    if id in w.runs {
      SpawnLeavesRun(w, step.id, step.name, step.started, step.alive, id);
    }
  }

  lemma {:induction false} EndExplained(steps: seq<Step>, id: nat)
    ensures EndOk(Exec(FRESH, steps), Signalled(steps, id), id)
  {
    if steps != [] {
      EndExplained(steps[..|steps| - 1], id);
      StepKeepsEnd(Exec(FRESH, steps[..|steps| - 1]), steps[|steps| - 1],
                   Signalled(steps[..|steps| - 1], id), id);
    }
  }

  /** The code a record resolves to: the wait status once reaped, before that the sidecar's. */
  lemma CodeIs(steps: seq<Step>, name: string, alive: bool)
    requires AllAssumed(steps) && name in Exec(FRESH, steps).records && !EndsInDotDigits(name)
    requires Resolve(Exec(FRESH, steps), name, alive).Exited?
    ensures var w := Exec(FRESH, steps);
      var id := w.records[name].run;
      && id in w.runs && (w.runs[id].reaped || w.runs[id].sidecar)
      && Some(Resolve(w, name, alive).code)
         == if w.runs[id].reaped then w.runs[id].ended else w.runs[id].command
  {
    RunKeepsInv(steps);
    var w := Exec(FRESH, steps);
    FreeStem(w, name, w.records[name].run);
    assert FilesOk(w, w.records[name].run, name);
  }

  // ---- what a reboot and a lost agent-box end ----

  /** A record carries the boot of its run, and no run is from a boot to come. */
  ghost predicate BootsOk(w: World) {
    && (forall stem :: stem in w.records ==> RecordBoot(w, w.records[stem]))
    && forall id :: id in w.runs ==> w.runs[id].boot <= w.boot
  }

  predicate RecordBoot(w: World, rec: Record) {
    rec.run in w.runs && rec.boot == w.runs[rec.run].boot
  }

  ghost predicate BootsKept(w: World, w': World) {
    && w.boot <= w'.boot
    && forall id :: id in w.runs ==> id in w'.runs && w'.runs[id].boot == w.runs[id].boot
  }

  lemma RotatedBoots(w: World, name: string)
    requires BootsOk(w) && name in w.records
    ensures BootsOk(Rotated(w, name)) && Rotated(w, name).runs == w.runs && Rotated(w, name).boot == w.boot
  {
  }

  lemma OpenedBoots(w: World, id: nat, name: string, started: nat)
    requires BootsOk(w) && id !in w.runs
    ensures BootsOk(Opened(w, id, name, started)) && BootsKept(w, Opened(w, id, name, started))
    ensures BootsOk(Started(w, id, name, started)) && BootsKept(w, Started(w, id, name, started))
  {
    var v := Opened(w, id, name, started);
    assert v.runs.Keys == w.runs.Keys + {id} && v.runs[id].boot == w.boot == v.boot;
    assert v.records == w.records;
    assert Started(w, id, name, started).runs == v.runs;
  }

  lemma StepKeepsBoots(w: World, step: Step)
    requires BootsOk(w)
    ensures BootsOk(Next(w, step)) && BootsKept(w, Next(w, step))
  {
    match step
    case Spawn(id, name, started, alive) => SpawnBoots(w, id, name, started, alive);
    case OrphanSpawn(id, name, started, alive) => SpawnBoots(w, id, name, started, alive);
    case Reap(_) => EndBoots(w, step);
    case BoxDeath(_) =>
    case Reboot => EndBoots(w, step);
    case _ => MarkBoots(w, step);
  }

  lemma EndBoots(w: World, step: Step)
    requires BootsOk(w) && (step.Reap? || step.Reboot?)
    ensures BootsOk(Next(w, step)) && BootsKept(w, Next(w, step))
  {
  }

  lemma MarkBoots(w: World, step: Step)
    requires BootsOk(w)
    requires step.Output? || step.CommandExit? || step.WriteSidecar? || step.ShellExit? || step.Signal?
    ensures BootsOk(Next(w, step)) && BootsKept(w, Next(w, step))
  {
    if Next(w, step) != w {
      OneRunBoots(w, Next(w, step), step.id);
    }
  }

  lemma OneRunBoots(w: World, w': World, id: nat)
    requires BootsOk(w) && w'.records == w.records && w'.boot == w.boot
    requires id in w.runs && id in w'.runs && w'.runs == w.runs[id := w'.runs[id]]
    requires w'.runs[id].boot == w.runs[id].boot
    ensures BootsOk(w') && BootsKept(w, w')
  {
  }

  lemma SpawnBoots(w: World, id: nat, name: string, started: nat, alive: bool)
    requires BootsOk(w)
    ensures var w' := Spawned(w, id, name, started, alive); BootsOk(w') && BootsKept(w, w')
    ensures var w' := Orphaned(w, id, name, started, alive); BootsOk(w') && BootsKept(w, w')
  {
    if id !in w.runs && name in w.records {
      RotatedBoots(w, name);
      OpenedBoots(Rotated(w, name), id, name, started);
    } else if id !in w.runs {
      OpenedBoots(w, id, name, started);
    }
  }

  lemma {:induction false} RunBoots(steps: seq<Step>)
    ensures BootsOk(Exec(FRESH, steps))
  {
    if steps != [] {
      RunBoots(steps[..|steps| - 1]);
      StepKeepsBoots(Exec(FRESH, steps[..|steps| - 1]), steps[|steps| - 1]);
    }
  }

  lemma {:induction false} RunKeepsBoots(steps: seq<Step>, more: seq<Step>)
    ensures BootsKept(Exec(FRESH, steps), Exec(FRESH, steps + more))
  {
    if more == [] {
      assert steps + more == steps;
    } else {
      var all, front := steps + more, more[..|more| - 1];
      assert all[..|all| - 1] == steps + front;
      RunKeepsBoots(steps, front);
      RunBoots(steps + front);
      StepKeepsBoots(Exec(FRESH, steps + front), more[|more| - 1]);
    }
  }

  /** No run outlives the boot it was started in: a reboot ends every run, and whatever comes
      after, a name whose record is of such a run never again resolves to running, even when
      another process has taken its pid. */
  lemma RebootEndsRuns(steps: seq<Step>, more: seq<Step>, id: nat, name: string, alive: bool)
    requires id in Exec(FRESH, steps).runs
    ensures var w := Exec(FRESH, steps + [Reboot] + more);
      && id in w.runs && w.runs[id].ended.Some? && w.runs[id].boot < w.boot
      && (name in w.records && w.records[name].run == id ==> !Resolve(w, name, alive).Running?)
  {
    var up := steps + [Reboot];
    assert up[..|up| - 1] == steps;
    RunBoots(steps);
    RunBoots(up + more);
    RunKeepsBoots(up, more);
    RunGrows(FRESH, up, more);
  }

  lemma StepKeepsUnreaped(w: World, step: Step, id: nat)
    requires id in w.runs && id !in w.reapers
    ensures var w' := Next(w, step); id in w'.runs && id !in w'.reapers && w'.runs[id].reaped == w.runs[id].reaped
  {
    if step.Spawn? {
      SpawnLeavesRun(w, step.id, step.name, step.started, step.alive, id);
    }
  }

  /** A reaper that was lost with its agent-box never writes: whatever comes after, its run has
      been reaped exactly if it had been by then. */
  lemma {:induction false} LostNeverReaped(w: World, lost: set<nat>, more: seq<Step>, id: nat)
    requires id in w.runs && id in lost
    ensures var w' := Exec(Next(w, BoxDeath(lost)), more);
      id in w'.runs && id !in w'.reapers && w'.runs[id].reaped == w.runs[id].reaped
  {
    if more != [] {
      var front := more[..|more| - 1];
      LostNeverReaped(w, lost, front, id);
      StepKeepsUnreaped(Exec(Next(w, BoxDeath(lost)), front), more[|more| - 1], id);
    }
  }

  /** Exited is final: as long as the name's current record is of the same run, however many
      steps later, it resolves to exited.  Its code stays too, with one exception, exactly: a
      wrapper that had put another code in its sidecar is ended by a signal and then reaped. */
  lemma ExitedStaysExited(steps: seq<Step>, more: seq<Step>, name: string, alive: bool, later: bool)
    requires AllAssumed(steps) && AllAssumed(steps + more) && !EndsInDotDigits(name)
    requires name in Exec(FRESH, steps).records && name in Exec(FRESH, steps + more).records
    requires Exec(FRESH, steps + more).records[name].run == Exec(FRESH, steps).records[name].run
    requires Resolve(Exec(FRESH, steps), name, alive).Exited?
    ensures var w, w' := Exec(FRESH, steps), Exec(FRESH, steps + more);
      var id, before := w.records[name].run, Resolve(w, name, alive);
      && id in w.runs && id in w'.runs && Resolve(w', name, later).Exited?
      && (Resolve(w', name, later) == before
          <==> w.runs[id].reaped || before.code == -1
               || !(Signalled(steps + more, id) && w'.runs[id].reaped))
  {
    OutcomeIsOwn(steps, name, alive);
    OutcomeIsOwn(steps + more, name, later);
    RunGrows(FRESH, steps, more);
    var id := Exec(FRESH, steps).records[name].run;
    CodeIs(steps, name, alive);
    CodeIs(steps + more, name, later);
    EndExplained(steps + more, id);
    CodeKept(Exec(FRESH, steps).runs[id], Exec(FRESH, steps + more), Signalled(steps + more, id), id);
  }

  lemma CodeKept(r: Run, w': World, signalled: bool, id: nat)
    requires id in w'.runs && Later(r, w'.runs[id]) && EndOk(w', signalled, id)
    requires r.reaped || (r.sidecar && r.command.Some?)
    requires r.reaped ==> r.ended.Some?
    ensures var r' := w'.runs[id];
      var code := if r.reaped then r.ended else r.command;
      (if r'.reaped then r'.ended else r'.command) == code
      <==> r.reaped || code == Some(-1) || !(signalled && r'.reaped)
  {
  }

  /** Output is never lost: every run ever started has a record and a log, under its current
      or its rotated path, and the log holds all the run has written.  A spawn never truncates
      the log of a run that is running, unknown, or finished and not yet rotated. */
  lemma OutputStaysReadable(steps: seq<Step>, more: seq<Step>, id: nat)
    requires AllAssumed(steps + more) && id in Exec(FRESH, steps).runs
    ensures var w := Exec(FRESH, steps + more);
      && id in w.runs && w.runs[id].name in w.records
      && Exec(FRESH, steps).runs[id].written <= w.runs[id].written
      && var st := Stem(w, id);
         && (st == w.runs[id].name || st == RotatedStem(w.runs[id].name, w.runs[id].started))
         && st in w.records && w.records[st].run == id
         && st in w.logs && w.logs[st] in w.contents
         && w.contents[w.logs[st]] == w.runs[id].written
  {
    RunGrows(FRESH, steps, more);
    RunKeepsInv(steps + more);
    assert RunOk(Exec(FRESH, steps + more), id);
  }

  // ---- why the assumptions are there ----

  /** If an agent-box dies between starting a child and recording it, the orphan's sidecar
      becomes the status of the next run of that name: run 2 resolves to exited with a code
      only run 1 produced. */
  lemma OrphanStatusInherited(n: string, s: nat, started: nat, c: int, date: int, alive: bool)
    ensures
      var w := Next(Next(FRESH, OrphanSpawn(1, n, s, alive)), Spawn(2, n, started, alive));
      var w' := Next(Next(w, CommandExit(1, c)), WriteSidecar(1, date));
      && n in w'.records && w'.records[n].run == 2 && 2 in w'.runs
      && Resolve(w', n, alive) == Exited(c) && !Produced(w'.runs[2], c)
  {
    var o := Run(n, 0, s, None, false, None, false, 1, "");
    var r := Run(n, 0, started, None, false, None, false, 1, "");
    var w1 := FRESH.(logs := map[n := 1], contents := map[1 := ""], runs := map[1 := o]);
    var w2 := w1.(records := map[n := Record(2, 0, started, None)], runs := map[1 := o, 2 := r],
                  reapers := {2});
    var o' := o.(command := Some(c));
    var w3 := w2.(runs := map[1 := o', 2 := r]);
    var w4 := w3.(sidecars := map[n := SidecarText(c, date)],
                  runs := map[1 := o'.(sidecar := true), 2 := r]);
    assert Next(FRESH, OrphanSpawn(1, n, s, alive)) == w1;
    assert Next(w1, Spawn(2, n, started, alive)) == w2;
    assert Next(w2, CommandExit(1, c)) == w3;
    assert Next(w3, WriteSidecar(1, date)) == w4;
    SidecarRoundTrip(c, date);
  }

  /** A run that has put its sidecar in place and ended, its reaper still to write. */
  function Finished(n: string, s: nat, c: int, date: int, alive: bool): World {
    Next(Next(Next(Next(FRESH, Spawn(1, n, s, alive)), CommandExit(1, c)), WriteSidecar(1, date)),
         ShellExit(1))
  }

  /** If a name is reused while the reaper of its previous run is still to write, that write
      replaces the new run's record: run 2 goes on without one, and its name resolves to the
      status of run 1. */
  lemma LateReaperClobbers(n: string, s: nat, t: nat, c: int, date: int, alive: bool)
    requires !EndsInDotDigits(n)
    ensures
      var w := Next(Next(Finished(n, s, c, date, alive), Spawn(2, n, t, alive)), Reap(1));
      && 2 in w.runs && w.runs[2].name == n && w.runs[2].ended == None && !w.runs[2].sidecar
      && n in w.records && w.records[n].run == 1 && Resolve(w, n, alive) == Exited(c)
      && forall st :: st in w.records ==> w.records[st].run != 2
  {
    var r := Run(n, 0, s, Some(c), true, Some(c), false, 1, "");
    var w := World(map[n := Record(1, 0, s, None)], map[n := 1], map[n := SidecarText(c, date)],
                   map[1 := ""], map[1 := r], {1}, 0);
    FinishedIs(n, s, c, date, alive, w);
    ReusedBeforeReap(n, s, t, c, date, alive, w, r);
  }

  lemma ReusedBeforeReap(n: string, s: nat, t: nat, c: int, date: int, alive: bool, w: World, r: Run)
    requires !EndsInDotDigits(n) && r == Run(n, 0, s, Some(c), true, Some(c), false, 1, "")
    requires w == World(map[n := Record(1, 0, s, None)], map[n := 1], map[n := SidecarText(c, date)],
                        map[1 := ""], map[1 := r], {1}, 0)
    ensures var v := Next(Next(w, Spawn(2, n, t, alive)), Reap(1));
      && 2 in v.runs && v.runs[2] == Run(n, 0, t, None, false, None, false, 2, "")
      && n in v.records && v.records[n] == Record(1, 0, s, Some(c))
      && forall st :: st in v.records ==> v.records[st].run != 2
  {
    ReusedName(n, s, t, c, date, alive, w);
    var w1 := Next(w, Spawn(2, n, t, alive));
    assert w1.runs[1] == r;
  }

  lemma ReusedName(n: string, s: nat, t: nat, c: int, date: int, alive: bool, w: World)
    requires !EndsInDotDigits(n) && w.runs.Keys == {1} && w.reapers == {1} && w.boot == 0
    requires w.records == map[n := Record(1, 0, s, None)] && w.logs == map[n := 1]
    requires w.sidecars == map[n := SidecarText(c, date)]
    ensures var v := Next(w, Spawn(2, n, t, alive));
      && v.runs == w.runs[2 := Run(n, 0, t, None, false, None, false, 2, "")] && v.reapers == {1, 2}
      && forall st :: st in v.records && st != n ==> v.records[st].run != 2
  {
    SidecarRoundTrip(c, date);
    RotatedEndsInDigits(n, s);
    assert Next(w, Spawn(2, n, t, alive)) == Started(Rotated(w, n), 2, n, t);
    assert n !in Rotated(w, n).logs;
  }

  lemma FinishedIs(n: string, s: nat, c: int, date: int, alive: bool, w: World)
    requires w == World(map[n := Record(1, 0, s, None)], map[n := 1], map[n := SidecarText(c, date)],
                        map[1 := ""], map[1 := Run(n, 0, s, Some(c), true, Some(c), false, 1, "")], {1}, 0)
    ensures Finished(n, s, c, date, alive) == w
  {
    var r := Run(n, 0, s, None, false, None, false, 1, "");
    var w1 := World(map[n := Record(1, 0, s, None)], map[n := 1], map[], map[1 := ""], map[1 := r], {1}, 0);
    var w2 := w1.(runs := map[1 := r.(command := Some(c))]);
    var w3 := w2.(runs := map[1 := r.(command := Some(c), sidecar := true)],
                  sidecars := map[n := SidecarText(c, date)]);
    assert Next(FRESH, Spawn(1, n, s, alive)) == w1;
    assert Next(w1, CommandExit(1, c)) == w2;
    assert Next(w2, WriteSidecar(1, date)) == w3;
    assert Next(w3, ShellExit(1)) == w;
  }

  // ---- the operations as agent-box performs them ----

  datatype KillReply = NameRequired | NoSuchProcess | OutcomeUnknown | AlreadyExited | Sent(id: nat)

  /** The reply to process_kill, and whom it signals: the process this agent-box started under
      the name, else the run of the name's record if that is running. */
  function KillOf(w: World, registry: map<string, nat>, name: string, alive: bool): KillReply {
    if name == "" then NameRequired
    else if name in registry then Sent(registry[name])
    else if Sanitized(name) !in w.records then NoSuchProcess
    else
      match Resolve(w, Sanitized(name), alive)
      case Unknown => OutcomeUnknown
      case Exited(_) => AlreadyExited
      case Running => Sent(w.records[Sanitized(name)].run)
  }

  /** Whom process_kill signals, in every reachable state: the process this agent-box has under
      the name; for a name it does not have, the last run started under it, and that only if it
      has left no status, was started in this boot and its process is alive. */
  lemma KillReaches(steps: seq<Step>, registry: map<string, nat>, name: string, alive: bool, id: nat)
    requires AllAssumed(steps) && !EndsInDotDigits(Sanitized(name))
    ensures var w, last := Exec(FRESH, steps), LastSpawn(steps, Sanitized(name));
      KillOf(w, registry, name, alive) == Sent(id) <==>
        && name != ""
        && if name in registry then id == registry[name]
           else && last == Some(id) && id in w.runs && !w.runs[id].sidecar && !w.runs[id].reaped
                && w.runs[id].boot == w.boot && alive
  {
    var w, stem := Exec(FRESH, steps), Sanitized(name);
    AssumedIsCurrent(steps, stem);
    if stem in w.records {
      OutcomeIsOwn(steps, stem, alive);
    }
  }

  /** One agent-box on the shared directory; its registry is lost with it. */
  class AgentBox {
    var w: World
    var registry: map<string, nat>

    constructor (w: World)
      ensures this.w == w && registry == map[]
    {
      this.w := w;
      registry := map[];
    }

    /** rotateFinishedRun: three renames, in this order. */
    method RotateFinishedRun(name: string)
      requires name in w.records
      modifies this`w
      ensures w == Rotated(old(w), name)
    {
      var to := RotatedStem(name, w.records[name].started);
      w := w.(records := (w.records - {name})[to := w.records[name]]);
      if name in w.logs {
        w := w.(logs := (w.logs - {name})[to := w.logs[name]]);
      }
      if name in w.sidecars {
        w := w.(sidecars := (w.sidecars - {name})[to := w.sidecars[name]]);
      }
    }

    /** spawnBackgroundProcess: refused while this agent-box has the name, even if its process
        is over, and while the record of the sanitized name is not exited. */
    method Spawn(given: string, command: string, nanos: int, id: nat, started: nat, alive: bool)
      returns (ok: bool)
      requires id !in w.runs
      modifies this
      ensures var raw := if given == "" then "proc-" + Itoa(nanos) else given;
        var name := Sanitized(raw);
        && (ok <==> command != "" && raw !in old(registry)
                    && (name in old(w).records ==> Resolve(old(w), name, alive).Exited?))
        && (ok ==> w == Next(old(w), Step.Spawn(id, name, started, alive))
                   && registry == old(registry)[raw := id])
        && (!ok ==> w == old(w) && registry == old(registry))
    {
      if command == "" {
        return false;
      }
      var raw := given;
      if raw == "" {
        raw := "proc-" + Itoa(nanos);
      }
      if raw in registry {
        return false;
      }
      var name := SanitizeName(raw);
      if name in w.records {
        match Resolve(w, name, alive)
        case Running => return false;
        case Unknown => return false;
        case Exited(_) => RotateFinishedRun(name);
      }
      StartRecorded(id, name, started);
      registry := registry[raw := id];
      return true;
    }

    /** Truncate the log, start the child, write its record, start its reaper. */
    method StartRecorded(id: nat, name: string, started: nat)
      modifies this`w
      ensures w == Started(old(w), id, name, started)
    {
      var inode := id;
      if name in w.logs {
        inode := w.logs[name];
      }
      w := w.(logs := w.logs[name := inode], contents := w.contents[inode := ""]);
      var run := Run(name, w.boot, started, None, false, None, false, inode, "");
      w := w.(runs := w.runs[id := run]);
      w := w.(records := w.records[name := Record(id, w.boot, started, None)]);
      w := w.(reapers := w.reapers + {id});
      assert w == Started(old(w), id, name, started);
    }

    /** handleProcessKill; `ends` is whether the signal ends the wrapper or is ignored. */
    method Kill(name: string, alive: bool, ends: bool) returns (reply: KillReply)
      modifies this
      ensures reply == KillOf(old(w), old(registry), name, alive)
      ensures w == if reply.Sent? && ends then Next(old(w), Signal(reply.id)) else old(w)
      ensures registry == if name == "" then old(registry) else old(registry) - {name}
    {
      if name == "" {
        return NameRequired;
      }
      if name in registry {
        var id := registry[name];
        registry := registry - {name};
        if ends {
          w := Next(w, Signal(id));
        }
        return Sent(id);
      }
      assert registry - {name} == registry;
      var stem := SanitizeName(name);
      if stem !in w.records {
        return NoSuchProcess;
      }
      match Resolve(w, stem, alive)
      case Unknown => return OutcomeUnknown;
      case Exited(_) => return AlreadyExited;
      case Running =>
        var id := w.records[stem].run;
        if ends {
          w := Next(w, Signal(id));
        }
        return Sent(id);
    }
  }
}
