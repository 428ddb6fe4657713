/**
 Crash-safe replacement of a report file: temp file, write, fsync, rename. Any number of writers
 share one target; any call may fail, any writer may be killed at any step, and the machine may
 lose power. A directory has a live view and what of it has reached the disk; file data reaches
 the disk for certain only when it is synced.
 */
module AtomicReplace {
  import opened Binary

  type Name = string

  /** A file's identity: one that was there before, or the one writer i creates. */
  datatype File = Original(name: Name) | Temp(writer: nat)

  datatype Stage = AtCreate | AtWrite | AtSync | AtRename

  datatype Phase =
    | Idle
    | Open(chunks: nat)                           // created, that many chunks written
    | Synced
    | Cleaning(stage: Stage)                      // failed, about to remove its temp name
    | Succeeded
    | Failed(stage: Stage, cleaned: bool)
    | Killed

  /** A writer, and what its own file holds. */
  datatype Writer = Writer(phase: Phase, data: Bytes, synced: bool)

  /** Each writer's temp name and the chunks its `write_fn` writes, and the files already there. */
  datatype Config = Config(target: Name, temps: seq<Name>, payloads: seq<seq<Bytes>>, before: map<Name, Bytes>)

  datatype State = State(
    writers: seq<Writer>,
    dir: map<Name, File>,
    disk: map<Name, File>,
    installed: seq<nat>,                          // writers whose rename succeeded, in order
    cut: bool)                                    // whether power was ever lost

  datatype Act =
    | Create(fails: bool)
    | Write(torn: Bytes, fails: bool)             // a failing write may leave part of its chunk
    | Sync(fails: bool)
    | Rename(fails: bool)
    | Remove(fails: bool)
    | Kill

  datatype Step = By(i: nat, act: Act) | Flush(name: Name) | PowerCut(garbage: seq<Bytes>)

  predicate WellFormed(c: Config) {
    |c.temps| == |c.payloads|
  }

  /** What v4 UUID suffixes give: fresh names, no two alike, none the target's. */
  predicate FreshTemps(c: Config) {
    && (forall i :: 0 <= i < |c.temps| ==> c.temps[i] != c.target && c.temps[i] !in c.before)
    && (forall i, j :: 0 <= i < j < |c.temps| ==> c.temps[i] != c.temps[j])
  }

  function Flatten(chunks: seq<Bytes>): Bytes {
    if chunks == [] then [] else Flatten(chunks[..|chunks| - 1]) + chunks[|chunks| - 1]
  }

  function Init(c: Config): State {
    var there := map n | n in c.before :: Original(n);
    State(seq(|c.temps|, i => Writer(Idle, [], false)), there, there, [], false)
  }

  predicate CanAct(p: Phase, act: Act, payload: seq<Bytes>) {
    match act
    case Create(_) => p.Idle?
    case Write(torn, _) => p.Open? && p.chunks < |payload| && torn <= payload[p.chunks]
    case Sync(_) => p == Open(|payload|)
    case Rename(_) => p.Synced?
    case Remove(_) => p.Cleaning?
    case Kill => !p.Succeeded? && !p.Failed?
  }

  predicate Enabled(c: Config, s: State, step: Step) {
    match step
    case By(i, act) => i < |s.writers| && i < |c.temps| && i < |c.payloads| && CanAct(s.writers[i].phase, act, c.payloads[i])
    case Flush(_) => true
    case PowerCut(garbage) => |garbage| == |s.writers|
  }

  /** `taken`: whether the writer's temp name is in the directory. `create_new` refuses a taken name,
      after which cleanup is attempted all the same; a rename needs the name; and a failed rename
      returns straight away, without the cleanup the other failures get. */
  function Acted(w: Writer, act: Act, payload: seq<Bytes>, taken: bool): Writer
    requires CanAct(w.phase, act, payload)
  {
    match act
    case Create(fails) => w.(phase := if fails || taken then Cleaning(AtCreate) else Open(0))
    case Write(torn, fails) =>
      if fails then w.(phase := Cleaning(AtWrite), data := w.data + torn)
      else w.(phase := Open(w.phase.chunks + 1), data := w.data + payload[w.phase.chunks])
    case Sync(fails) => if fails then w.(phase := Cleaning(AtSync)) else w.(phase := Synced, synced := true)
    case Rename(fails) => w.(phase := if fails || !taken then Failed(AtRename, false) else Succeeded)
    case Remove(fails) => w.(phase := Failed(w.phase.stage, !fails))
    case Kill => w.(phase := Killed)
  }

  function Filed(c: Config, s: State, i: nat, act: Act): map<Name, File>
    requires i < |c.temps|
  {
    var tmp := c.temps[i];
    match act
    case Create(fails) => if fails || tmp in s.dir then s.dir else s.dir[tmp := Temp(i)]
    case Rename(fails) => if fails || tmp !in s.dir then s.dir else s.dir[c.target := s.dir[tmp]] - {tmp}
    case Remove(fails) => if fails then s.dir else s.dir - {tmp}
    case _ => s.dir
  }

  function Apply(c: Config, s: State, step: Step): State
    requires Enabled(c, s, step)
  {
    match step
    case By(i, act) =>
      var w := Acted(s.writers[i], act, c.payloads[i], c.temps[i] in s.dir);
      s.(writers := s.writers[i := w],
         dir := Filed(c, s, i, act),
         installed := if w.phase.Succeeded? then s.installed + [i] else s.installed)
    case Flush(name) => s.(disk := if name in s.dir then s.disk[name := s.dir[name]] else s.disk - {name})
    case PowerCut(garbage) =>
      s.(writers := seq(|s.writers|, i requires 0 <= i < |s.writers| => Rebooted(s.writers[i], garbage[i])),
         dir := s.disk, cut := true)
  }

  /** After a power cut a running writer is gone and unsynced data is anything. */
  function Rebooted(w: Writer, garbage: Bytes): Writer {
    if w.phase.Idle? then w
    else Writer(if w.phase.Succeeded? || w.phase.Failed? then w.phase else Killed, if w.synced then w.data else garbage, w.synced)
  }

  predicate Runs(c: Config, steps: seq<Step>)
    decreases |steps|, 0
  {
    steps == [] ||
    var before := steps[..|steps| - 1];
    Runs(c, before) && Enabled(c, After(c, before), steps[|steps| - 1])
  }

  function After(c: Config, steps: seq<Step>): State
    requires Runs(c, steps)
    decreases |steps|, 1
  {
    if steps == [] then Init(c)
    else
      var before := steps[..|steps| - 1];
      Apply(c, After(c, before), steps[|steps| - 1])
  }

  // ----- what every reachable state keeps -----

  function Payload(c: Config, i: nat): Bytes
    requires i < |c.payloads|
  {
    Flatten(c.payloads[i])
  }

  /** Writer i's file is whole and synced, and its rename went through. */
  predicate Whole(c: Config, s: State, i: nat) {
    && i < |c.payloads| && i < |s.writers|
    && s.writers[i].phase.Succeeded? && s.writers[i].synced && s.writers[i].data == Payload(c, i)
  }

  /** A name may point at the file that was there under it, at its own writer's temp file, or, if it
      is the target, at an installed one. */
  predicate NameOk(c: Config, s: State, n: Name, f: File) {
    match f
    case Original(m) => m == n && n in c.before
    case Temp(i) =>
      || (i < |c.temps| && i < |s.writers| && n == c.temps[i] && !s.writers[i].phase.Idle?)
      || (n == c.target && Whole(c, s, i))
  }

  predicate DirOk(c: Config, s: State, d: map<Name, File>) {
    && (forall n :: n in d ==> NameOk(c, s, n, d[n]))
    && (forall n :: n in c.before ==> n in d && (n != c.target ==> d[n] == Original(n)))
  }

  /** A writer against its own temp name. */
  predicate WriterOk(c: Config, s: State, i: nat)
    requires i < |s.writers| == |c.temps| == |c.payloads|
  {
    var w := s.writers[i];
    var mine := c.temps[i] in s.dir && s.dir[c.temps[i]] == Temp(i);
    match w.phase
    case Idle => !w.synced && c.temps[i] !in s.dir && w.data == []
    case Open(n) => !w.synced && n <= |c.payloads[i]| && w.data == Flatten(c.payloads[i][..n]) && mine
    case Synced => w.synced && w.data == Payload(c, i) && mine
    case Cleaning(stage) => !w.synced && !stage.AtRename? && (!s.cut ==> (c.temps[i] in s.dir <==> !stage.AtCreate?))
    case Succeeded => Whole(c, s, i) && (!s.cut ==> c.temps[i] !in s.dir)
    case Failed(stage, cleaned) =>
      && (stage.AtRename? ==> !cleaned)
      && (!s.cut ==> (c.temps[i] in s.dir <==> !stage.AtCreate? && !cleaned))
    case Killed => true
  }

  /** Until power is lost the target is exactly the last installed file, or what was there. */
  ghost predicate TargetOk(c: Config, s: State) {
    && (forall i: nat :: i in s.installed <==> i < |s.writers| && s.writers[i].phase.Succeeded?)
    && (!s.cut ==>
          if s.installed == [] then
            (c.target in s.dir <==> c.target in c.before) && (c.target in s.dir ==> s.dir[c.target] == Original(c.target))
          else c.target in s.dir && s.dir[c.target] == Temp(s.installed[|s.installed| - 1]))
  }

  ghost predicate Inv(c: Config, s: State) {
    && |s.writers| == |c.temps| == |c.payloads|
    && DirOk(c, s, s.dir) && DirOk(c, s, s.disk)
    && (forall i :: 0 <= i < |s.writers| ==> WriterOk(c, s, i))
    && TargetOk(c, s)
  }

  lemma NameStays(c: Config, s: State, step: Step, n: Name, f: File)
    requires WellFormed(c) && Enabled(c, s, step) && |s.writers| == |c.temps| && NameOk(c, s, n, f)
    ensures NameOk(c, Apply(c, s, step), n, f)
  {
  }

  lemma DirStaysOk(c: Config, s: State, step: Step, d: map<Name, File>)
    requires WellFormed(c) && Enabled(c, s, step) && |s.writers| == |c.temps| && DirOk(c, s, d)
    ensures DirOk(c, Apply(c, s, step), d)
  {
    forall n | n in d ensures NameOk(c, Apply(c, s, step), n, d[n]) {
      NameStays(c, s, step, n, d[n]);
    }
  }

  lemma ActKeepsDir(c: Config, s: State, i: nat, act: Act)
    requires FreshTemps(c) && Inv(c, s) && Enabled(c, s, By(i, act))
    ensures var s' := Apply(c, s, By(i, act)); DirOk(c, s', s'.dir)
  {
    var s' := Apply(c, s, By(i, act));
    DirStaysOk(c, s, By(i, act), s.dir);
    assert WriterOk(c, s, i);
    forall n | n in s'.dir ensures NameOk(c, s', n, s'.dir[n]) {
      if n in s.dir && s'.dir[n] == s.dir[n] {
        assert NameOk(c, s', n, s.dir[n]);
      }
    }
  }

  lemma ActKeepsWriter(c: Config, s: State, i: nat, act: Act, j: nat)
    requires FreshTemps(c) && |s.writers| == |c.temps| == |c.payloads| && j < |s.writers|
    requires WriterOk(c, s, j) && Enabled(c, s, By(i, act)) && WriterOk(c, s, i)
    requires s.writers[i].phase.Idle? ==> c.temps[i] !in s.dir
    ensures WriterOk(c, Apply(c, s, By(i, act)), j)
  {
    if i != j {
      OtherWriterStays(c, s, i, act, j);
    } else {
      var n := |c.payloads[i]|;
      assert c.payloads[i][..n] == c.payloads[i];
      if act.Write? && !act.fails {
        var k := s.writers[i].phase.chunks;
        assert c.payloads[i][..k + 1][..k] == c.payloads[i][..k];
      }
    }
  }

  lemma OtherWriterStays(c: Config, s: State, i: nat, act: Act, j: nat)
    requires FreshTemps(c) && |s.writers| == |c.temps| == |c.payloads| && j < |s.writers| && i != j
    requires WriterOk(c, s, j) && Enabled(c, s, By(i, act))
    ensures WriterOk(c, Apply(c, s, By(i, act)), j)
  {
    var s' := Apply(c, s, By(i, act));
    assert s'.writers[j] == s.writers[j];
    assert c.temps[i] != c.temps[j];
    assert c.temps[j] in s'.dir <==> c.temps[j] in s.dir;
  }

  lemma ActKeepsTarget(c: Config, s: State, i: nat, act: Act)
    requires FreshTemps(c) && |s.writers| == |c.temps| == |c.payloads|
    requires TargetOk(c, s) && Enabled(c, s, By(i, act)) && WriterOk(c, s, i)
    ensures TargetOk(c, Apply(c, s, By(i, act)))
  {
    var s' := Apply(c, s, By(i, act));
    if act == Rename(false) {
      assert s'.installed == s.installed + [i];
    } else {
      assert s'.installed == s.installed;
    }
  }

  lemma CutKeepsWriter(c: Config, s: State, garbage: seq<Bytes>, j: nat)
    requires FreshTemps(c) && Inv(c, s) && Enabled(c, s, PowerCut(garbage)) && j < |s.writers|
    ensures WriterOk(c, Apply(c, s, PowerCut(garbage)), j)
  {
    assert WriterOk(c, s, j);
    if s.writers[j].phase.Idle? && c.temps[j] in s.disk {
      assert NameOk(c, s, c.temps[j], s.disk[c.temps[j]]);
    }
  }

  lemma StepKeepsInv(c: Config, s: State, step: Step)
    requires FreshTemps(c) && Inv(c, s) && Enabled(c, s, step)
    ensures Inv(c, Apply(c, s, step))
  {
    var s' := Apply(c, s, step);
    DirStaysOk(c, s, step, s.disk);
    DirStaysOk(c, s, step, s.dir);
    match step
    case By(i, act) =>
      ActKeepsDir(c, s, i, act);
      ActKeepsTarget(c, s, i, act);
      forall j | 0 <= j < |s'.writers| ensures WriterOk(c, s', j) {
        ActKeepsWriter(c, s, i, act, j);
      }
    case Flush(name) =>
      forall j | 0 <= j < |s'.writers| ensures WriterOk(c, s', j) {
        assert WriterOk(c, s, j);
      }
    case PowerCut(garbage) =>
      forall j | 0 <= j < |s'.writers| ensures WriterOk(c, s', j) {
        CutKeepsWriter(c, s, garbage, j);
      }
  }

  lemma {:induction false} RunKeepsInv(c: Config, steps: seq<Step>)
    requires WellFormed(c) && FreshTemps(c) && Runs(c, steps)
    ensures Inv(c, After(c, steps))
    decreases |steps|
  {
    if steps != [] {
      var before := steps[..|steps| - 1];
      RunKeepsInv(c, before);
      StepKeepsInv(c, After(c, before), steps[|steps| - 1]);
    }
  }

  // ----- what that means for readers of the report -----

  /** The bytes a reader finds through a directory. */
  function Read(c: Config, s: State, d: map<Name, File>, n: Name): (r: Bytes)
    requires n in d && (d[n].Original? ==> d[n].name in c.before) && (d[n].Temp? ==> d[n].writer < |s.writers|)
  {
    match d[n]
    case Original(m) => c.before[m]
    case Temp(i) => s.writers[i].data
  }

  /** The old content (or nothing, if there was nothing), or one successful writer's whole payload. */
  ghost predicate OldOrWhole(c: Config, s: State, d: map<Name, File>) {
    if c.target !in d then c.target !in c.before
    else
      && (d[c.target].Original? ==> d[c.target].name in c.before) && (d[c.target].Temp? ==> d[c.target].writer < |s.writers|)
      && var content := Read(c, s, d, c.target);
      || (c.target in c.before && content == c.before[c.target])
      || (exists i :: 0 <= i < |s.writers| && i < |c.payloads| && s.writers[i].phase.Succeeded? && content == Payload(c, i))
  }

  lemma DirIsOldOrWhole(c: Config, s: State, d: map<Name, File>)
    requires FreshTemps(c) && DirOk(c, s, d)
    ensures OldOrWhole(c, s, d)
  {
    if c.target in d {
      assert NameOk(c, s, c.target, d[c.target]);
    }
  }

  /** In every interleaving, with writers failing or killed anywhere and power lost anywhere, the
      target, both as seen now and as found after a crash, is the old content or one successful
      writer's complete payload; never truncated, never a mixture. Other files are untouched. */
  lemma TargetNeverTorn(c: Config, steps: seq<Step>)
    requires WellFormed(c) && FreshTemps(c) && Runs(c, steps)
    ensures var s := After(c, steps); OldOrWhole(c, s, s.dir) && OldOrWhole(c, s, s.disk)
    ensures forall n :: n in c.before && n != c.target ==> n in After(c, steps).dir && After(c, steps).dir[n] == Original(n)
  {
    RunKeepsInv(c, steps);
    DirIsOldOrWhole(c, After(c, steps), After(c, steps).dir);
    DirIsOldOrWhole(c, After(c, steps), After(c, steps).disk);
  }

  /** Without power loss the target holds exactly the payload of the writer whose rename came last,
      and the renames are exactly the writers that report success. */
  lemma LastRenameWins(c: Config, steps: seq<Step>)
    requires WellFormed(c) && FreshTemps(c) && Runs(c, steps) && !After(c, steps).cut
    ensures var s := After(c, steps);
            && (forall i :: 0 <= i < |s.writers| ==> (i in s.installed <==> s.writers[i].phase.Succeeded?))
            && if s.installed == [] then
                 (c.target in s.dir <==> c.target in c.before) && (c.target in s.dir ==> s.dir[c.target] == Original(c.target))
               else
                 var i := s.installed[|s.installed| - 1];
                 i < |c.payloads| && s.dir[c.target := Temp(i)] == s.dir && Whole(c, s, i)
  {
    RunKeepsInv(c, steps);
    var s := After(c, steps);
    if s.installed != [] {
      var i := s.installed[|s.installed| - 1];
      assert i in s.installed;
      assert WriterOk(c, s, i);
    }
  }

  /** A writer's step leaves the target's file alone unless it is the rename that succeeds. */
  lemma OnlySuccessTouchesTarget(c: Config, s: State, i: nat, act: Act)
    requires FreshTemps(c) && Inv(c, s) && Enabled(c, s, By(i, act))
    ensures var s' := Apply(c, s, By(i, act));
            if s'.writers[i].phase.Succeeded? then c.target in s'.dir && s'.dir[c.target] == Temp(i) && Whole(c, s', i)
            else (c.target in s'.dir <==> c.target in s.dir) && (c.target in s.dir ==> s'.dir[c.target] == s.dir[c.target])
  {
    assert WriterOk(c, s, i);
  }

  /** When a failed writer's temp file is gone. The module's documentation promises it for every
      failure; the code gives it exactly when the file was never created, or the failure came before
      the rename and the cleanup itself worked. */
  lemma TempGoneExactlyWhen(c: Config, steps: seq<Step>, i: nat)
    requires WellFormed(c) && FreshTemps(c) && Runs(c, steps) && !After(c, steps).cut
    requires i < |After(c, steps).writers| && After(c, steps).writers[i].phase.Failed?
    ensures i < |c.temps|
    ensures var s := After(c, steps); var f := s.writers[i].phase;
            c.temps[i] !in s.dir <==> f.stage.AtCreate? || (!f.stage.AtRename? && f.cleaned)
  {
    RunKeepsInv(c, steps);
    assert WriterOk(c, After(c, steps), i);
  }

  lemma Extend(c: Config, steps: seq<Step>, step: Step)
    requires Runs(c, steps) && Enabled(c, After(c, steps), step)
    ensures Runs(c, steps + [step]) && After(c, steps + [step]) == Apply(c, After(c, steps), step)
  {
    hide Enabled, Apply, Init;
    assert (steps + [step])[..|steps|] == steps;
  }

  /** The documented cleanup fails for a rename error: the write is reported failed and the temp file,
      complete and synced, stays in the directory. */
  lemma RenameErrorLeavesTemp(target: Name, tmp: Name) returns (c: Config, steps: seq<Step>)
    requires target != tmp
    ensures WellFormed(c) && FreshTemps(c) && c.target == target && c.temps == [tmp] && Runs(c, steps)
    ensures After(c, steps).writers[..] == [Writer(Failed(AtRename, false), [], true)]
    ensures tmp in After(c, steps).dir && !After(c, steps).cut
  {
    c := Config(target, [tmp], [[]], map[]);
    steps := [];
    assert After(c, steps).writers == [Writer(Idle, [], false)];
    Extend(c, steps, By(0, Create(false)));
    steps := steps + [By(0, Create(false))];
    Extend(c, steps, By(0, Sync(false)));
    steps := steps + [By(0, Sync(false))];
    Extend(c, steps, By(0, Rename(true)));
    steps := steps + [By(0, Rename(true))];
  }

  /** Why the names must be fresh: with one temp name for three writers, the second one's failed
      create removes the first one's file, the third creates it again, and the first one's rename
      installs the third's unfinished file. */
  lemma SharedTempTearsTarget(target: Name, tmp: Name, chunk: Bytes) returns (c: Config, steps: seq<Step>)
    requires target != tmp && chunk != []
    ensures WellFormed(c) && !FreshTemps(c) && c.target == target && Runs(c, steps)
    ensures var s := After(c, steps); target !in c.before && target in s.dir && !OldOrWhole(c, s, s.dir)
  {
    c, steps := ThirdWriterRecreates(target, tmp, chunk);
    Extend(c, steps, By(0, Sync(false)));
    steps := steps + [By(0, Sync(false))];
    Extend(c, steps, By(0, Rename(false)));
    steps := steps + [By(0, Rename(false))];
    var s := After(c, steps);
    assert s.dir[target] == Temp(2) && s.writers[2].data == [];
    assert forall i :: 0 <= i < 3 ==> Payload(c, i) == chunk by { FlattenOne(chunk); }
  }

  lemma FlattenOne(chunk: Bytes)
    ensures Flatten([chunk]) == chunk
  {
    assert [chunk][..0] == [];
  }

  lemma SecondWriterCollides(target: Name, tmp: Name, chunk: Bytes) returns (c: Config, steps: seq<Step>)
    requires target != tmp
    ensures c == Config(target, [tmp, tmp, tmp], [[chunk], [chunk], [chunk]], map[]) && !FreshTemps(c) && Runs(c, steps)
    ensures After(c, steps) == Collision(
      [Writer(Open(1), chunk, false), Writer(Cleaning(AtCreate), [], false), Writer(Idle, [], false)], map[tmp := Temp(0)])
  {
    c := Config(target, [tmp, tmp, tmp], [[chunk], [chunk], [chunk]], map[]);
    assert c.temps[0] == c.temps[1];
    var idle := Writer(Idle, [], false);
    var wrote := Writer(Open(1), chunk, false);
    var s0 := Collision([idle, idle, idle], map[]);
    assert Init(c) == s0;
    var s1 := Collision([idle.(phase := Open(0)), idle, idle], map[tmp := Temp(0)]);
    Reach(c, [], s0, By(0, Create(false)), s1);
    steps := [By(0, Create(false))];
    var s2 := Collision([wrote, idle, idle], map[tmp := Temp(0)]);
    assert [] + chunk == chunk;
    Reach(c, steps, s1, By(0, Write([], false)), s2);
    steps := steps + [By(0, Write([], false))];
    var s3 := Collision([wrote, idle.(phase := Cleaning(AtCreate)), idle], map[tmp := Temp(0)]);
    Reach(c, steps, s2, By(1, Create(false)), s3);
    steps := steps + [By(1, Create(false))];
  }

  lemma ThirdWriterRecreates(target: Name, tmp: Name, chunk: Bytes) returns (c: Config, steps: seq<Step>)
    requires target != tmp
    ensures c == Config(target, [tmp, tmp, tmp], [[chunk], [chunk], [chunk]], map[]) && !FreshTemps(c) && Runs(c, steps)
    ensures After(c, steps).writers ==
            [Writer(Open(1), chunk, false), Writer(Failed(AtCreate, true), [], false), Writer(Open(0), [], false)]
    ensures After(c, steps).dir == map[tmp := Temp(2)]
  {
    c, steps := SecondWriterCollides(target, tmp, chunk);
    var idle := Writer(Idle, [], false);
    var wrote := Writer(Open(1), chunk, false);
    var s3 := Collision([wrote, idle.(phase := Cleaning(AtCreate)), idle], map[tmp := Temp(0)]);
    var s4 := Collision([wrote, idle.(phase := Failed(AtCreate, true)), idle], map[]);
    Reach(c, steps, s3, By(1, Remove(false)), s4);
    steps := steps + [By(1, Remove(false))];
    var s5 := Collision([wrote, idle.(phase := Failed(AtCreate, true)), idle.(phase := Open(0))], map[tmp := Temp(2)]);
    Reach(c, steps, s4, By(2, Create(false)), s5);
    steps := steps + [By(2, Create(false))];
  }

  function Collision(writers: seq<Writer>, dir: map<Name, File>): State {
    State(writers, dir, map[], [], false)
  }

  lemma Reach(c: Config, steps: seq<Step>, s: State, step: Step, s': State)
    requires Runs(c, steps) && After(c, steps) == s && Enabled(c, s, step)
    requires var t := Apply(c, s, step);
             t.writers == s'.writers && t.dir == s'.dir && t.disk == s'.disk && t.installed == s'.installed && t.cut == s'.cut
    ensures Runs(c, steps + [step]) && After(c, steps + [step]) == s'
  {
    Extend(c, steps, step);
  }

  // ----- progress -----

  /** A writer that has not ended can always take its next step, whether or not it fails there, and can be killed; the
      directory may reach the disk at any time, and power may be cut with anything in place of unsynced data. */
  lemma FaultsAreFree(c: Config, steps: seq<Step>, i: nat, fails: bool, torn: Bytes, name: Name, garbage: seq<Bytes>)
    requires WellFormed(c) && FreshTemps(c) && Runs(c, steps) && i < |c.temps|
    ensures i < |After(c, steps).writers|
    ensures var p := After(c, steps).writers[i].phase;
      && (p.Idle? ==> Runs(c, steps + [By(i, Create(fails))]))
      && (p.Open? && p.chunks < |c.payloads[i]| && torn <= c.payloads[i][p.chunks] ==> Runs(c, steps + [By(i, Write(torn, fails))]))
      && (p.Open? && p.chunks >= |c.payloads[i]| ==> Runs(c, steps + [By(i, Sync(fails))]))
      && (p.Synced? ==> Runs(c, steps + [By(i, Rename(fails))]))
      && (p.Cleaning? ==> Runs(c, steps + [By(i, Remove(fails))]))
      && (!p.Succeeded? && !p.Failed? ==> Runs(c, steps + [By(i, Kill)]))
      && Runs(c, steps + [Flush(name)])
      && (|garbage| == |c.temps| ==> Runs(c, steps + [PowerCut(garbage)]))
  {
    RunKeepsInv(c, steps);
    FaultsEnabled(c, After(c, steps), i, fails, torn, name, garbage);
    hide Inv, After, Runs, Enabled;
    forall step | Enabled(c, After(c, steps), step) ensures Runs(c, steps + [step]) {
      Extend(c, steps, step);
    }
  }

  lemma FaultsEnabled(c: Config, s: State, i: nat, fails: bool, torn: Bytes, name: Name, garbage: seq<Bytes>)
    requires Inv(c, s) && i < |c.temps|
    ensures i < |s.writers| == |c.temps| == |c.payloads|
    ensures var p := s.writers[i].phase;
      && (p.Idle? ==> Enabled(c, s, By(i, Create(fails))))
      && (p.Open? && p.chunks < |c.payloads[i]| && torn <= c.payloads[i][p.chunks] ==> Enabled(c, s, By(i, Write(torn, fails))))
      && (p.Open? && p.chunks >= |c.payloads[i]| ==> Enabled(c, s, By(i, Sync(fails))))
      && (p.Synced? ==> Enabled(c, s, By(i, Rename(fails))))
      && (p.Cleaning? ==> Enabled(c, s, By(i, Remove(fails))))
      && (!p.Succeeded? && !p.Failed? ==> Enabled(c, s, By(i, Kill)))
      && Enabled(c, s, Flush(name))
      && (|garbage| == |c.temps| ==> Enabled(c, s, PowerCut(garbage)))
  {
    hide DirOk, TargetOk;
    assert WriterOk(c, s, i);
  }

  /** Left alone, a writer that has not begun writes all its chunks, syncs, renames and succeeds. */
  lemma LoneWriterSucceeds(c: Config, steps: seq<Step>, i: nat) returns (all: seq<Step>)
    requires WellFormed(c) && FreshTemps(c) && Runs(c, steps) && i < |After(c, steps).writers| && i < |c.temps|
    requires After(c, steps).writers[i].phase.Idle?
    ensures steps <= all && Runs(c, all) && i < |After(c, all).writers| && After(c, all).writers[i].phase.Succeeded?
    ensures c.target in After(c, all).dir && After(c, all).dir[c.target] == Temp(i)
  {
    RunKeepsInv(c, steps);
    assert WriterOk(c, After(c, steps), i);
    Extend(c, steps, By(i, Create(false)));
    all := WritesOn(c, steps + [By(i, Create(false))], i);
    SyncsAndRenames(c, all, i);
    all := all + [By(i, Sync(false))] + [By(i, Rename(false))];
  }

  lemma SyncsAndRenames(c: Config, steps: seq<Step>, i: nat)
    requires WellFormed(c) && FreshTemps(c) && Runs(c, steps) && i < |After(c, steps).writers| && i < |c.temps|
    requires After(c, steps).writers[i].phase == Open(|c.payloads[i]|)
    ensures var all := steps + [By(i, Sync(false))] + [By(i, Rename(false))];
      && Runs(c, all) && i < |After(c, all).writers| && After(c, all).writers[i].phase.Succeeded?
      && c.target in After(c, all).dir && After(c, all).dir[c.target] == Temp(i)
  {
    RunKeepsInv(c, steps);
    Extend(c, steps, By(i, Sync(false)));
    var synced := steps + [By(i, Sync(false))];
    RunKeepsInv(c, synced);
    assert WriterOk(c, After(c, synced), i);
    Extend(c, synced, By(i, Rename(false)));
    OnlySuccessTouchesTarget(c, After(c, synced), i, Rename(false));
  }

  lemma {:induction false} WritesOn(c: Config, steps: seq<Step>, i: nat) returns (all: seq<Step>)
    requires WellFormed(c) && FreshTemps(c) && Runs(c, steps) && i < |After(c, steps).writers| && i < |c.temps|
    requires After(c, steps).writers[i].phase.Open?
    ensures steps <= all && Runs(c, all) && i < |After(c, all).writers|
    ensures After(c, all).writers[i].phase == Open(|c.payloads[i]|)
    decreases |c.payloads[i]| - After(c, steps).writers[i].phase.chunks
  {
    RunKeepsInv(c, steps);
    assert WriterOk(c, After(c, steps), i);
    hide Inv, WriterOk, Runs;
    if After(c, steps).writers[i].phase.chunks == |c.payloads[i]| {
      all := steps;
    } else {
      Extend(c, steps, By(i, Write([], false)));
      all := WritesOn(c, steps + [By(i, Write([], false))], i);
    }
  }

  /** A power cut leaves of each file that was begun what a sync had put on the disk, and else anything. */
  lemma CutKeepsOnlySynced(c: Config, steps: seq<Step>, garbage: seq<Bytes>, i: nat)
    requires WellFormed(c) && FreshTemps(c) && Runs(c, steps) && i < |c.temps| == |garbage|
    ensures var cut := steps + [PowerCut(garbage)];
      && Runs(c, cut) && i < |After(c, steps).writers| == |After(c, cut).writers|
      && var w, v := After(c, steps).writers[i], After(c, cut).writers[i];
         v.data == if w.phase.Idle? then [] else if w.phase.Synced? || w.phase.Succeeded? || w.synced then w.data else garbage[i]
  {
    RunKeepsInv(c, steps);
    assert WriterOk(c, After(c, steps), i);
    Extend(c, steps, PowerCut(garbage));
  }

  /** What a name stands for survives a power cut once the directory has reached the disk, and nothing else about the
      directory does. */
  lemma FlushedSurvives(c: Config, steps: seq<Step>, name: Name, garbage: seq<Bytes>, other: Name)
    requires WellFormed(c) && FreshTemps(c) && Runs(c, steps) && |garbage| == |c.temps|
    ensures var cut := steps + [Flush(name)] + [PowerCut(garbage)];
      && Runs(c, cut)
      && var s, t := After(c, steps), After(c, cut);
         && (name in t.dir <==> name in s.dir) && (name in s.dir ==> t.dir[name] == s.dir[name])
         && (other != name ==> (other in t.dir <==> other in s.disk) && (other in s.disk ==> t.dir[other] == s.disk[other]))
  {
    RunKeepsInv(c, steps);
    Extend(c, steps, Flush(name));
    Extend(c, steps + [Flush(name)], PowerCut(garbage));
    hide Inv;
  }

  /** Success is not yet durable: power lost before the directory has reached the disk brings the old file back, under
      a writer that reported success. */
  lemma CutUndoesRename(target: Name, tmp: Name, was: Bytes, chunk: Bytes) returns (c: Config, steps: seq<Step>)
    requires target != tmp
    ensures WellFormed(c) && FreshTemps(c) && c == Config(target, [tmp], [[chunk]], map[target := was]) && Runs(c, steps)
    ensures var s := After(c, steps);
      && s.writers == [Writer(Succeeded, chunk, true)] && s.installed == [0]
      && s.dir == map[target := Original(target)] && Read(c, s, s.dir, target) == was
  {
    c := Config(target, [tmp], [[chunk]], map[target := was]);
    var there := map[target := Original(target)];
    var idle := Writer(Idle, [], false);
    steps := [];
    var s0 := State([idle], there, there, [], false);
    assert Init(c) == s0;
    var s1 := s0.(writers := [idle.(phase := Open(0))], dir := there[tmp := Temp(0)]);
    Reach(c, steps, s0, By(0, Create(false)), s1);
    steps := steps + [By(0, Create(false))];
    assert [] + chunk == chunk;
    var s2 := s1.(writers := [Writer(Open(1), chunk, false)]);
    Reach(c, steps, s1, By(0, Write([], false)), s2);
    steps := steps + [By(0, Write([], false))];
    var s3 := s2.(writers := [Writer(Synced, chunk, true)]);
    Reach(c, steps, s2, By(0, Sync(false)), s3);
    steps := steps + [By(0, Sync(false))];
    var s4 := s3.(writers := [Writer(Succeeded, chunk, true)], dir := map[target := Temp(0)], installed := [0]);
    Reach(c, steps, s3, By(0, Rename(false)), s4);
    steps := steps + [By(0, Rename(false))];
    var s5 := s4.(dir := there, cut := true);
    Reach(c, steps, s4, PowerCut([[]]), s5);
    steps := steps + [PowerCut([[]])];
  }
}
