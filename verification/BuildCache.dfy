/** The cached simulator build: which stamp lets it be reused, and what holds of it whatever runs
    overlap and wherever they crash. */
module BuildCache {
  import opened Options
  import opened StampText

  /** What a simulator binary was compiled from: the settings, and the modification time of the
      `filelist.f` that was read for it. */
  datatype Made = Made(top: Str, rtlDir: Str, trace: bool, devMode: bool, mtime: nat)

  /** `made` is `None` for whatever an interrupted or failed build leaves behind. */
  datatype Bin = NoBin | Bin(made: Option<Made>)

  datatype Disk = Disk(bin: Bin, stamp: Option<string>)

  datatype Key = Top | RtlDir | Trace | DevMode

  datatype Reason = Requested | NoCachedBuild | NoBuildStamp | Changed(key: Key) | Regenerated

  /** Why the cached build cannot be reused, or `None` if it can. */
  function StaleReason(d: Disk, want: Stamp): Option<Reason> {
    if d.bin.NoBin? then Some(NoCachedBuild)
    else match d.stamp
      case None => Some(NoBuildStamp)
      case Some(text) =>
        match Loads(text)
        case None => Some(NoBuildStamp)
        case Some(cached) =>
          if cached.top != want.top then Some(Changed(Top))
          else if cached.rtlDir != want.rtlDir then Some(Changed(RtlDir))
          else if cached.trace != want.trace then Some(Changed(Trace))
          else if cached.devMode != want.devMode then Some(Changed(DevMode))
          else if want.mtime > cached.mtime then Some(Regenerated)
          else None
  }

  /** The binary was built with the stamp's settings, from a file list at least as new. */
  ghost predicate BuiltFor(bin: Bin, s: Stamp) {
    && bin.Bin? && bin.made.Some?
    && var m := bin.made.value;
      m.top == s.top && m.rtlDir == s.rtlDir && m.trace == s.trace && m.devMode == s.devMode && m.mtime >= s.mtime
  }

  /** A stamp that reads back tells the truth about the binary. */
  ghost predicate Truthful(d: Disk) {
    d.stamp.Some? && Loads(d.stamp.value).Some? ==> BuiltFor(d.bin, Loads(d.stamp.value).value)
  }

  /** Reuse is allowed only for a binary built as the run wants. */
  lemma ReuseIsSound(d: Disk, want: Stamp)
    requires Truthful(d) && StaleReason(d, want) == None
    ensures BuiltFor(d.bin, want)
  {
    hide Loads;
  }

  /** A stamp file that was cut short anywhere before its last newline, or a build begun and not
      finished, always leads to a rebuild. */
  lemma InterruptedIsStale(d: Disk, s: Stamp, k: nat, want: Stamp)
    requires d.stamp == None || (k + 1 < |FileText(s)| && d.stamp == Some(FileText(s)[..k]))
    ensures StaleReason(d, want) == Some(NoCachedBuild) || StaleReason(d, want) == Some(NoBuildStamp)
  {
    hide Loads, FileText;
    if d.stamp.Some? { TornNeverReads(s, k); }
  }

  // ---- what the decision means ----

  ghost predicate SameSettings(s: Stamp, t: Stamp) {
    s.top == t.top && s.rtlDir == t.rtlDir && s.trace == t.trace && s.devMode == t.devMode
  }

  /** The setting `key` is the first, in the order top, RTL directory, trace, dev mode, in which the
      stamps differ. */
  ghost predicate FirstChange(key: Key, s: Stamp, t: Stamp) {
    match key
    case Top => s.top != t.top
    case RtlDir => s.rtlDir != t.rtlDir && s.top == t.top
    case Trace => s.trace != t.trace && s.top == t.top && s.rtlDir == t.rtlDir
    case DevMode => s.devMode != t.devMode && s.top == t.top && s.rtlDir == t.rtlDir && s.trace == t.trace
  }

  /** The reason for building given a disk on which a build with the stamp `s` has finished. */
  ghost predicate Explains(reason: Reason, s: Stamp, want: Stamp) {
    match reason
    case Changed(key) => FirstChange(key, s, want)
    case Regenerated => SameSettings(s, want) && want.mtime > s.mtime
    case _ => false
  }

  /** With a binary and a whole stamp on disk the decision is reuse exactly for the same settings and
      a file list no newer than stamped; otherwise the reason is the first changed setting, or that
      the RTL was regenerated. */
  lemma DecisionMeans(d: Disk, s: Stamp, want: Stamp)
    requires d.bin.Bin? && d.stamp == Some(FileText(s))
    ensures StaleReason(d, want) == None <==> SameSettings(s, want) && want.mtime <= s.mtime
    ensures StaleReason(d, want).Some? ==> Explains(StaleReason(d, want).value, s, want)
  {
    hide Loads, FileText;
    FileRoundTrip(s);
  }

  /** The stamp the disk holds in whole, if any. */
  ghost predicate Stamped(d: Disk, s: Stamp) {
    d.bin.Bin? && d.stamp == Some(FileText(s))
  }

  // ---- one run, uninterrupted ----

  /** What the Verilator build does: end in an exception or return, leaving some binary or none. */
  datatype Outcome = Outcome(ok: bool, bin: Bin)

  /** Assumed of the build tool: if it returns and there is a binary, it is the one asked for. */
  ghost predicate Honest(o: Outcome, want: Stamp) {
    o.ok && o.bin.Bin? ==> BuiltFor(o.bin, want)
  }

  datatype Result = Reused | Built(reason: Reason) | BuildError

  class BuildDir {
    var bin: Bin
    var stamp: Option<string>

    function Contents(): Disk
      reads this
    {
      Disk(bin, stamp)
    }

    constructor ()
      ensures bin == NoBin && stamp == None && Truthful(Contents())
    {
      bin, stamp := NoBin, None;
    }

    method BuildOrReuse(want: Stamp, rebuild: bool, build: Outcome) returns (r: Result)
      requires Truthful(Contents()) && Honest(build, want)
      modifies this
      ensures Truthful(Contents())
      ensures r.Reused? <==> !rebuild && StaleReason(old(Contents()), want) == None
      ensures r.Built? <==> !r.Reused? && build.ok && build.bin.Bin?
      ensures r.Reused? ==> Contents() == old(Contents())
      ensures r.Built? ==>
        && Contents() == Disk(build.bin, Some(FileText(want)))
        && Some(r.reason) == (if rebuild then Some(Requested) else StaleReason(old(Contents()), want))
      ensures r.BuildError? ==> Contents() == Disk(build.bin, None)
      ensures !r.BuildError? ==> BuiltFor(bin, want)
      // on a disk with a whole stamp `s`
      ensures forall s :: Stamped(old(Contents()), s) ==>
        (r.Reused? <==> !rebuild && SameSettings(s, want) && want.mtime <= s.mtime)
      ensures forall s :: Stamped(old(Contents()), s) && r.Built? && !rebuild ==> Explains(r.reason, s, want)
      // and otherwise
      ensures r.Built? ==> (r.reason == Requested <==> rebuild)
      ensures r.Built? && !rebuild ==> (r.reason == NoCachedBuild <==> old(bin) == NoBin)
      ensures r.Built? && !rebuild && old(bin).Bin? ==>
        (r.reason == NoBuildStamp <==> old(stamp) == None || Loads(old(stamp).value) == None)
    {
      hide Loads, FileText, SameSettings, Explains;
      forall s | Stamped(Contents(), s)
        ensures StaleReason(Contents(), want) == None <==> SameSettings(s, want) && want.mtime <= s.mtime
        ensures StaleReason(Contents(), want).Some? ==> Explains(StaleReason(Contents(), want).value, s, want)
      {
        DecisionMeans(Contents(), s, want);
      }
      var reason := if rebuild then Some(Requested) else StaleReason(Contents(), want);
      if reason == None {
        ReuseIsSound(Contents(), want);
        r := Reused;
      } else {
        stamp := None;
        bin := build.bin;
        if !build.ok || bin.NoBin? {
          return BuildError;
        }
        stamp := Some(FileText(want));
        FileRoundTrip(want);
        r := Built(reason.value);
      }
    }
  }

  /** After a call that did not fail, the next one that asks for the same reuses the build. */
  method BuildTwice(dir: BuildDir, want: Stamp, rebuild: bool, first: Outcome, second: Outcome)
    returns (r1: Result, r2: Result)
    requires Truthful(dir.Contents()) && Honest(first, want) && Honest(second, want)
    modifies dir
    ensures !r1.BuildError? ==> r2.Reused?
    ensures r1.Built? ==> dir.Contents() == Disk(first.bin, Some(FileText(want)))
  {
    hide Loads, FileText, Truthful, BuiltFor, Explains;
    r1 := dir.BuildOrReuse(want, rebuild, first);
    assert r1.Built? ==> Stamped(dir.Contents(), want);
    r2 := dir.BuildOrReuse(want, false, second);
  }

  // ---- any number of runs ----

  /** Where a run is in `run_cosim`. `seen` is the modification time of the `filelist.f` it read
      under the lock; from `Locked` to `Leaving` or `Failing` it holds the lock. */
  datatype Run =
    | Starting(top: Str, rtlDir: Str, trace: bool, devMode: bool, rebuild: bool)
    | Waiting(want: Stamp, rebuild: bool)
    | Locked(want: Stamp, rebuild: bool)
    | Listed(want: Stamp, rebuild: bool, seen: nat)
    | Unlinking(want: Stamp, seen: nat)
    | Building(want: Stamp, seen: nat)
    | Compiled(want: Stamp, seen: nat)
    | Writing(want: Stamp, seen: nat, done: nat)
    | Leaving(want: Stamp)
    | Failing
    | Released(want: Stamp)
    | Simulating(want: Stamp, sim: Bin)
    | Failed
    | Crashed

  predicate HoldsLock(r: Run) {
    r.Locked? || r.Listed? || r.Unlinking? || r.Building? || r.Compiled? || r.Writing? || r.Leaving? || r.Failing?
  }

  predicate Ended(r: Run) {
    r.Simulating? || r.Failed? || r.Crashed?
  }

  /** `mtimes` gives the modification time of each RTL directory's `filelist.f`. */
  datatype World = World(disk: Disk, mtimes: map<Str, nat>, lock: Option<nat>, runs: seq<Run>)

  datatype Act =
    | Stat                   // build the stamp, with the time of filelist.f
    | Acquire
    | ReadList               // write the absolute file list
    | Decide
    | Unlink
    | Churn(bin: Bin)        // the build tool writes
    | Compile(build: Outcome) // the build tool ends
    | Create                 // open the stamp file for writing
    | Write                  // one more character reaches it
    | Close
    | Release
    | Simulate
    | Crash

  datatype Step = Of(i: nat, act: Act) | Regenerate(dir: Str, mtime: nat)

  ghost predicate Enabled(w: World, s: Step) {
    match s
    case Regenerate(dir, mtime) => dir in w.mtimes ==> w.mtimes[dir] <= mtime
    case Of(i, act) => i < |w.runs| && RunEnabled(w, w.runs[i], act)
  }

  ghost predicate RunEnabled(w: World, r: Run, act: Act) {
    match act
    case Stat => r.Starting?
    case Acquire => r.Waiting? && w.lock == None
    case ReadList => r.Locked? && r.want.rtlDir in w.mtimes
    case Decide => r.Listed?
    case Unlink => r.Unlinking?
    case Churn(_) => r.Building?
    case Compile(build) => r.Building? && Honest(build, AsSeen(r.want, r.seen))
    case Create => r.Compiled?
    case Write => r.Writing? && r.done < |FileText(r.want)|
    case Close => r.Writing? && r.done == |FileText(r.want)|
    case Release => r.Leaving? || r.Failing?
    case Simulate => r.Released?
    case Crash => !Ended(r)
  }

  /** The stamp with the time of the file list the build reads. */
  function AsSeen(want: Stamp, seen: nat): Stamp { want.(mtime := seen) }

  ghost function Do(w: World, s: Step): (v: World)
    requires Enabled(w, s)
    ensures |v.runs| == |w.runs|
  {
    match s
    case Regenerate(dir, mtime) => w.(mtimes := w.mtimes[dir := mtime])
    case Of(i, act) =>
      var r := w.runs[i];
      World(DiskAfter(w, r, act), w.mtimes, LockAfter(w.lock, i, r, act), w.runs[i := RunAfter(w, r, act)])
  }

  /** The stamp a run builds on entry. */
  function Wanted(w: World, r: Run): Stamp
    requires r.Starting? && r.rtlDir in w.mtimes
  {
    Stamp(r.top, r.rtlDir, w.mtimes[r.rtlDir], r.trace, r.devMode)
  }

  /** `stat` of a missing `filelist.f` ends the run with an error. */
  ghost function RunAfter(w: World, r: Run, act: Act): Run
    requires RunEnabled(w, r, act)
  {
    match act
    case Stat => if r.rtlDir in w.mtimes then Waiting(Wanted(w, r), r.rebuild) else Failed
    case Acquire => Locked(r.want, r.rebuild)
    case ReadList => Listed(r.want, r.rebuild, w.mtimes[r.want.rtlDir])
    case Decide =>
      if !r.rebuild && StaleReason(w.disk, r.want) == None then Leaving(r.want) else Unlinking(r.want, r.seen)
    case Unlink => Building(r.want, r.seen)
    case Churn(_) => r
    case Compile(build) => if build.ok && build.bin.Bin? then Compiled(r.want, r.seen) else Failing
    case Create => Writing(r.want, r.seen, 0)
    case Write => Writing(r.want, r.seen, r.done + 1)
    case Close => Leaving(r.want)
    case Release => if r.Leaving? then Released(r.want) else Failed
    case Simulate => Simulating(r.want, w.disk.bin)
    case Crash => Crashed
  }

  ghost function DiskAfter(w: World, r: Run, act: Act): Disk
    requires RunEnabled(w, r, act)
  {
    match act
    case Unlink => Disk(w.disk.bin, None)
    case Churn(bin) => Disk(bin, w.disk.stamp)
    case Compile(build) => Disk(build.bin, w.disk.stamp)
    case Create => Disk(w.disk.bin, Some(""))
    case Write => Disk(w.disk.bin, Some(FileText(r.want)[..r.done + 1]))
    case _ => w.disk
  }

  /** The kernel drops the lock of a run that crashes. */
  function LockAfter(lock: Option<nat>, i: nat, r: Run, act: Act): Option<nat> {
    if act.Acquire? then Some(i)
    else if act.Release? || (act.Crash? && HoldsLock(r)) then None
    else lock
  }

  // ---- the invariant ----

  /** What a run may rely on where it is. */
  ghost predicate RunOk(d: Disk, mtimes: map<Str, nat>, r: Run) {
    (r.Listed? || r.Unlinking? || r.Building? ==> r.want.rtlDir in mtimes && r.seen <= mtimes[r.want.rtlDir]) &&
    match r
    case Waiting(want, _) => want.rtlDir in mtimes && want.mtime <= mtimes[want.rtlDir]
    case Locked(want, _) => want.rtlDir in mtimes && want.mtime <= mtimes[want.rtlDir]
    case Listed(want, _, seen) => want.mtime <= seen
    case Unlinking(want, seen) => want.mtime <= seen
    case Building(want, seen) => want.mtime <= seen && d.stamp == None
    case Compiled(want, seen) => BuiltFor(d.bin, want) && d.stamp == None
    case Writing(want, seen, done) =>
      BuiltFor(d.bin, want) && done <= |FileText(want)| && d.stamp == Some(FileText(want)[..done])
    case Leaving(want) => BuiltFor(d.bin, want)
    case Failing => d.stamp == None
    case _ => true
  }

  ghost predicate Inv(w: World) {
    && Truthful(w.disk)
    && (forall i :: 0 <= i < |w.runs| ==> (HoldsLock(w.runs[i]) <==> w.lock == Some(i)))
    && (w.lock.Some? ==> w.lock.value < |w.runs|)
    && (forall i :: 0 <= i < |w.runs| ==> RunOk(w.disk, w.mtimes, w.runs[i]))
  }

  /** Only the holder of the lock depends on, or changes, the disk. */
  lemma OnlyHolder(d: Disk, e: Disk, mtimes: map<Str, nat>, r: Run)
    requires RunOk(d, mtimes, r) && !HoldsLock(r)
    ensures RunOk(e, mtimes, r)
  {
  }

  lemma TruthfulPrefix(bin: Bin, want: Stamp, k: nat)
    requires BuiltFor(bin, want) && k <= |FileText(want)|
    ensures Truthful(Disk(bin, Some(FileText(want)[..k])))
  {
    hide Loads, FileText;
    TornNeverReads(want, k);
  }

  /** The disk and the stepping run are all right after a step. */
  lemma StepDisk(w: World, r: Run, act: Act)
    requires Truthful(w.disk) && RunOk(w.disk, w.mtimes, r) && RunEnabled(w, r, act)
    ensures Truthful(DiskAfter(w, r, act)) && RunOk(DiskAfter(w, r, act), w.mtimes, RunAfter(w, r, act))
    ensures !HoldsLock(r) ==> DiskAfter(w, r, act) == w.disk
  {
    hide Loads, FileText, BuiltFor;
    match act
    case Decide =>
      if !r.rebuild && StaleReason(w.disk, r.want) == None { ReuseIsSound(w.disk, r.want); }
    case Compile(build) =>
      if build.ok && build.bin.Bin? { SeenIsEnough(build.bin, r.want, r.seen); }
    case Create =>
      TruthfulPrefix(w.disk.bin, r.want, 0);
      assert FileText(r.want)[..0] == "";
    case Write => TruthfulPrefix(w.disk.bin, r.want, r.done + 1);
    case _ =>
  }

  lemma SeenIsEnough(bin: Bin, want: Stamp, seen: nat)
    requires BuiltFor(bin, AsSeen(want, seen)) && want.mtime <= seen
    ensures BuiltFor(bin, want)
  {
  }

  lemma StepLock(w: World, i: nat, r: Run, act: Act)
    requires RunEnabled(w, r, act) && (HoldsLock(r) <==> w.lock == Some(i))
    ensures var lock := LockAfter(w.lock, i, r, act);
      && (HoldsLock(RunAfter(w, r, act)) <==> lock == Some(i))
      && forall j :: j != i ==> (lock == Some(j) <==> w.lock == Some(j))
  {
    hide StaleReason, FileText;
  }

  lemma StepKeeps(w: World, s: Step)
    requires Inv(w) && Enabled(w, s)
    ensures Inv(Do(w, s))
  {
    hide Truthful, RunEnabled, HoldsLock, LockAfter, RunAfter, DiskAfter, BuiltFor, FileText;
    if s.Of? {
      var r := w.runs[s.i];
      StepDisk(w, r, s.act);
      StepLock(w, s.i, r, s.act);
      var v := Do(w, s);
      forall j | 0 <= j < |v.runs|
        ensures RunOk(v.disk, v.mtimes, v.runs[j]) && (HoldsLock(v.runs[j]) <==> v.lock == Some(j))
      {
        if j != s.i && v.disk != w.disk { OnlyHolder(w.disk, v.disk, w.mtimes, w.runs[j]); }
      }
    }
  }

  // ---- all executions ----

  ghost predicate Possible(w: World, steps: seq<Step>)
    decreases |steps|
  {
    steps == [] || (Enabled(w, steps[0]) && Possible(Do(w, steps[0]), steps[1..]))
  }

  ghost function After(w: World, steps: seq<Step>): (v: World)
    requires Possible(w, steps)
    ensures |v.runs| == |w.runs|
    decreases |steps|
  {
    if steps == [] then w else After(Do(w, steps[0]), steps[1..])
  }

  /** No run yet, and whatever an earlier, truthful, session left in the cache. */
  ghost predicate Fresh(w: World) {
    Truthful(w.disk) && w.lock == None && forall i :: 0 <= i < |w.runs| ==> w.runs[i].Starting?
  }

  /** Any runs may start together, on a cache that never held anything or that any earlier runs, ended
      or crashed, left behind. */
  lemma StartsFresh(w: World, steps: seq<Step>, runs: seq<Run>)
    requires w.disk == Disk(NoBin, None) || (Inv(w) && Possible(w, steps))
    requires forall i :: 0 <= i < |runs| ==> runs[i].Starting?
    ensures Fresh(World(if w.disk == Disk(NoBin, None) then w.disk else After(w, steps).disk, w.mtimes, None, runs))
  {
    hide Possible, After, BuiltFor, Loads;
    if w.disk != Disk(NoBin, None) { AlwaysInv(w, steps); }
  }

  lemma {:induction false} AlwaysInv(w: World, steps: seq<Step>)
    requires Inv(w) && Possible(w, steps)
    ensures Inv(After(w, steps))
    decreases |steps|
  {
    hide Inv, Do, Enabled;
    if steps != [] {
      StepKeeps(w, steps[0]);
      AlwaysInv(Do(w, steps[0]), steps[1..]);
    }
  }

  // ---- what may go wrong at any point ----

  /** A run that has not ended can crash wherever it is; while it builds, anything may stand where the
      binary is, and the build tool may fail or return with no binary or with the one asked for; RTL
      may be regenerated at any time. */
  lemma AnythingGoes(w: World, i: nat, bin: Bin, dir: Str, mtime: nat)
    requires i < |w.runs|
    ensures Enabled(w, Of(i, Crash)) <==> !w.runs[i].Simulating? && !w.runs[i].Failed? && !w.runs[i].Crashed?
    ensures w.runs[i].Building? ==> Enabled(w, Of(i, Churn(bin))) && Enabled(w, Of(i, Compile(Outcome(false, bin))))
    ensures w.runs[i].Building? ==> Enabled(w, Of(i, Compile(Outcome(true, NoBin))))
    ensures w.runs[i].Building? && BuiltFor(bin, AsSeen(w.runs[i].want, w.runs[i].seen)) ==>
      Enabled(w, Of(i, Compile(Outcome(true, bin))))
    ensures dir !in w.mtimes || mtime >= w.mtimes[dir] ==> Enabled(w, Regenerate(dir, mtime))
  {
  }

  /** A run whose build has succeeded can crash with any part of the stamp file written. */
  lemma {:induction false} StampTornAnywhere(w: World, i: nat, k: nat) returns (steps: seq<Step>)
    requires Inv(w) && i < |w.runs| && (w.runs[i].Compiled? || (w.runs[i].Writing? && w.runs[i].done <= k))
    requires k <= |FileText(w.runs[i].want)|
    ensures Possible(w, steps)
    ensures After(w, steps).runs[i].Crashed? && After(w, steps).lock == None
    ensures After(w, steps).disk == Disk(w.disk.bin, Some(FileText(w.runs[i].want)[..k]))
    decreases if w.runs[i].Compiled? then k + 1 else k - w.runs[i].done
  {
    hide FileText, StaleReason, BuiltFor, Truthful, Possible, After;
    var r := w.runs[i];
    assert RunOk(w.disk, w.mtimes, r);
    if r.Writing? && r.done == k {
      NoSteps(Do(w, Of(i, Crash)));
      StepThen(w, Of(i, Crash), []);
      steps := [Of(i, Crash)] + [];
    } else {
      var s := Of(i, if r.Compiled? then Create else Write);
      StepKeeps(w, s);
      steps := StampTornAnywhere(Do(w, s), i, k);
      StepThen(w, s, steps);
      steps := [s] + steps;
    }
  }

  // ---- from a run's arguments to its binary ----

  predicate HasWant(r: Run) {
    r.Waiting? || r.Locked? || r.Listed? || r.Unlinking? || r.Building? || r.Compiled? || r.Writing? || r.Leaving?
    || r.Released? || r.Simulating?
  }

  /** What a stamp built from the arguments `r` of a run holds, but for the time. */
  ghost predicate AsAsked(r: Run, want: Stamp)
    requires r.Starting?
  {
    want.top == r.top && want.rtlDir == r.rtlDir && want.trace == r.trace && want.devMode == r.devMode
  }

  /** Step `k` is the `stat` of run `i`, and found this time. */
  ghost predicate StatFound(w: World, steps: seq<Step>, i: nat, k: nat, dir: Str, mtime: nat) {
    && k < |steps| && steps[k] == Of(i, Stat) && Possible(w, steps[..k])
    && dir in After(w, steps[..k]).mtimes && After(w, steps[..k]).mtimes[dir] == mtime
  }

  /** Step `k` is the end of the build tool of run `i`, which left this binary. */
  ghost predicate Compiles(steps: seq<Step>, i: nat, k: nat, bin: Bin) {
    k < |steps| && steps[k].Of? && steps[k].i == i && steps[k].act.Compile? && steps[k].act.build.bin == bin
  }

  /** Where run `i`, started with the arguments `asked`, has got to after the steps, as `r` says. */
  ghost predicate Traced(w: World, steps: seq<Step>, i: nat, asked: Run, r: Run, bin: Bin)
    requires asked.Starting?
  {
    && (r.Starting? ==> r == asked)
    && (HasWant(r) ==> AsAsked(asked, r.want) && exists k :: StatFound(w, steps, i, k, asked.rtlDir, r.want.mtime))
    && (r.Waiting? || r.Locked? || r.Listed? ==> r.rebuild == asked.rebuild)
    && (r.Compiled? || r.Writing? ==> exists k :: Compiles(steps, i, k, bin))
    && (r.Leaving? && asked.rebuild ==> exists k :: Compiles(steps, i, k, bin))
  }

  lemma {:induction false} AfterSnoc(w: World, steps: seq<Step>, s: Step)
    requires Possible(w, steps + [s])
    ensures Possible(w, steps) && Enabled(After(w, steps), s)
    ensures After(w, steps + [s]) == Do(After(w, steps), s)
    decreases |steps|
  {
    hide Enabled, Do;
    if steps == [] {
      assert steps + [s] == [s] && [s][1..] == [];
    } else {
      assert (steps + [s])[1..] == steps[1..] + [s];
      AfterSnoc(Do(w, steps[0]), steps[1..], s);
    }
  }

  /** One more step keeps the witnesses. */
  lemma WitnessesStay(w: World, steps: seq<Step>, s: Step, i: nat, k: nat, dir: Str, mtime: nat, bin: Bin)
    ensures StatFound(w, steps, i, k, dir, mtime) ==> StatFound(w, steps + [s], i, k, dir, mtime)
    ensures Compiles(steps, i, k, bin) ==> Compiles(steps + [s], i, k, bin)
  {
    if k < |steps| { assert (steps + [s])[..k] == steps[..k]; }
  }

  lemma TraceStays(w: World, steps: seq<Step>, s: Step, i: nat, asked: Run, r: Run, bin: Bin)
    requires asked.Starting? && Traced(w, steps, i, asked, r, bin)
    ensures Traced(w, steps + [s], i, asked, r, bin)
  {
    hide StatFound, Compiles;
    if HasWant(r) {
      var k :| StatFound(w, steps, i, k, asked.rtlDir, r.want.mtime);
      WitnessesStay(w, steps, s, i, k, asked.rtlDir, r.want.mtime, bin);
    }
    if k :| Compiles(steps, i, k, bin) { WitnessesStay(w, steps, s, i, k, [], 0, bin); }
  }

  /** The run's own step. */
  lemma TraceOwn(w: World, steps: seq<Step>, v: World, i: nat, act: Act, asked: Run)
    requires asked.Starting? && i < |v.runs| && Possible(w, steps) && v == After(w, steps)
    requires Traced(w, steps, i, asked, v.runs[i], v.disk.bin) && RunEnabled(v, v.runs[i], act)
    ensures Traced(w, steps + [Of(i, act)], i, asked, RunAfter(v, v.runs[i], act), DiskAfter(v, v.runs[i], act).bin)
  {
    hide Traced, Possible, After, StatFound, Compiles, RunEnabled, RunAfter, DiskAfter;
    var s, r := Of(i, act), v.runs[i];
    TraceStays(w, steps, s, i, asked, r, v.disk.bin);
    if act.Stat? {
      if asked.rtlDir in v.mtimes { StatIsWitness(w, steps, i, asked.rtlDir); }
      TraceStat(w, steps + [s], v, i, asked, |steps|);
    } else if act.Compile? {
      CompileIsWitness(steps, i, act.build);
      TraceCompile(w, steps + [s], v, i, act.build, asked, |steps|);
    } else {
      TraceOnward(w, steps + [s], v, i, act, asked);
    }
  }

  lemma TraceStat(w: World, steps: seq<Step>, v: World, i: nat, asked: Run, k: nat)
    requires asked.Starting? && i < |v.runs| && RunEnabled(v, v.runs[i], Stat)
    requires Traced(w, steps, i, asked, v.runs[i], v.disk.bin)
    requires asked.rtlDir in v.mtimes ==> StatFound(w, steps, i, k, asked.rtlDir, v.mtimes[asked.rtlDir])
    ensures Traced(w, steps, i, asked, RunAfter(v, v.runs[i], Stat), DiskAfter(v, v.runs[i], Stat).bin)
  {
    hide StatFound, Compiles, FileText, StaleReason;
    var r := RunAfter(v, v.runs[i], Stat);
    if r.Waiting? { assert StatFound(w, steps, i, k, asked.rtlDir, r.want.mtime); }
  }

  lemma TraceCompile(w: World, steps: seq<Step>, v: World, i: nat, build: Outcome, asked: Run, k: nat)
    requires asked.Starting? && i < |v.runs| && RunEnabled(v, v.runs[i], Compile(build))
    requires Traced(w, steps, i, asked, v.runs[i], v.disk.bin) && Compiles(steps, i, k, build.bin)
    ensures Traced(w, steps, i, asked, RunAfter(v, v.runs[i], Compile(build)), DiskAfter(v, v.runs[i], Compile(build)).bin)
  {
    hide StatFound, Compiles, FileText, StaleReason;
    assert Compiles(steps, i, k, DiskAfter(v, v.runs[i], Compile(build)).bin);
  }

  lemma TraceOnward(w: World, steps: seq<Step>, v: World, i: nat, act: Act, asked: Run)
    requires asked.Starting? && i < |v.runs| && RunEnabled(v, v.runs[i], act) && !act.Stat? && !act.Compile?
    requires Traced(w, steps, i, asked, v.runs[i], v.disk.bin)
    ensures Traced(w, steps, i, asked, RunAfter(v, v.runs[i], act), DiskAfter(v, v.runs[i], act).bin)
  {
    hide StatFound, Compiles, FileText, StaleReason;
  }

  lemma StatIsWitness(w: World, steps: seq<Step>, i: nat, dir: Str)
    requires Possible(w, steps) && dir in After(w, steps).mtimes
    ensures StatFound(w, steps + [Of(i, Stat)], i, |steps|, dir, After(w, steps).mtimes[dir])
  {
    hide Possible, After;
    assert (steps + [Of(i, Stat)])[..|steps|] == steps;
  }

  lemma CompileIsWitness(steps: seq<Step>, i: nat, build: Outcome)
    ensures Compiles(steps + [Of(i, Compile(build))], i, |steps|, build.bin)
  {
  }

  /** A step of another run, or a regeneration: only the holder of the lock changes the binary. */
  lemma TraceOther(w: World, steps: seq<Step>, v: World, s: Step, i: nat, asked: Run)
    requires asked.Starting? && i < |v.runs| && Inv(v) && Enabled(v, s) && (s.Of? ==> s.i != i)
    requires Traced(w, steps, i, asked, v.runs[i], v.disk.bin)
    ensures Traced(w, steps + [s], i, asked, Do(v, s).runs[i], Do(v, s).disk.bin)
  {
    TraceStays(w, steps, s, i, asked, v.runs[i], v.disk.bin);
    hide RunOk, Truthful, StatFound, Compiles, StaleReason, FileText;
    if s.Of? && HoldsLock(v.runs[i]) {
      assert !HoldsLock(v.runs[s.i]);
      assert DiskAfter(v, v.runs[s.i], s.act) == v.disk;
    }
  }

  lemma {:induction false} RunTraced(w: World, steps: seq<Step>, i: nat)
    requires Fresh(w) && Possible(w, steps) && i < |w.runs|
    ensures w.runs[i].Starting?
    ensures Traced(w, steps, i, w.runs[i], After(w, steps).runs[i], After(w, steps).disk.bin)
    decreases |steps|
  {
    hide Traced, Possible, After, Enabled, Do, Inv, RunAfter, DiskAfter, RunEnabled;
    if steps == [] {
      NoSteps(w);
      TracedAtFirst(w, i);
    } else {
      var pre, s := steps[..|steps| - 1], steps[|steps| - 1];
      assert steps == pre + [s];
      AfterSnoc(w, pre, s);
      RunTraced(w, pre, i);
      FreshInv(w);
      AlwaysInv(w, pre);
      var v := After(w, pre);
      if s.Of? && s.i == i {
        OwnStep(v, i, s.act);
        TraceOwn(w, pre, v, i, s.act, w.runs[i]);
      } else {
        TraceOther(w, pre, v, s, i, w.runs[i]);
      }
    }
  }

  lemma TracedAtFirst(w: World, i: nat)
    requires i < |w.runs| && w.runs[i].Starting?
    ensures Traced(w, [], i, w.runs[i], w.runs[i], w.disk.bin)
  {
  }

  lemma OwnStep(v: World, i: nat, act: Act)
    requires i < |v.runs| && Enabled(v, Of(i, act))
    ensures RunEnabled(v, v.runs[i], act)
    ensures Do(v, Of(i, act)).runs[i] == RunAfter(v, v.runs[i], act)
    ensures Do(v, Of(i, act)).disk == DiskAfter(v, v.runs[i], act)
  {
    hide RunEnabled, RunAfter, DiskAfter, LockAfter;
  }

  lemma FreshInv(w: World)
    requires Fresh(w)
    ensures Inv(w)
  {
    hide Truthful;
  }

  /** Built as the arguments `r` ask, from a `filelist.f` at least as new as `mtime`. */
  ghost predicate BuiltAsAsked(bin: Bin, r: Run, mtime: nat)
    requires r.Starting?
  {
    && bin.Bin? && bin.made.Some?
    && var m := bin.made.value;
      m.top == r.top && m.rtlDir == r.rtlDir && m.trace == r.trace && m.devMode == r.devMode && m.mtime >= mtime
  }

  /** Across any interleaving of runs, regenerations and crashes: a stamp that reads back tells the
      truth about the binary, and at most one run holds the lock. A run about to release it without
      an error has a binary built with the settings it was started with, from a `filelist.f` no older
      than the one its `stat` found before it took the lock; if it was started with `rebuild`, that is
      the binary its own build tool left. */
  lemma CacheIsSound(w: World, steps: seq<Step>, i: nat, j: nat)
    requires Fresh(w) && Possible(w, steps) && i < |w.runs| && j < |w.runs|
    ensures w.runs[i].Starting?
    ensures var v, asked := After(w, steps), w.runs[i];
      && Truthful(v.disk)
      && (HoldsLock(v.runs[i]) && HoldsLock(v.runs[j]) ==> i == j)
      && (v.runs[i].Leaving? ==> BuiltFor(v.disk.bin, v.runs[i].want))
      && (v.runs[i].Leaving? ==> exists k, mtime ::
            StatFound(w, steps, i, k, asked.rtlDir, mtime) && BuiltAsAsked(v.disk.bin, asked, mtime))
      && (v.runs[i].Leaving? && asked.rebuild ==> exists k :: Compiles(steps, i, k, v.disk.bin))
  {
    hide Possible, After, Truthful, StatFound, Compiles;
    FreshInv(w);
    AlwaysInv(w, steps);
    RunTraced(w, steps, i);
    var v, asked := After(w, steps), w.runs[i];
    assert RunOk(v.disk, v.mtimes, v.runs[i]);
    if v.runs[i].Leaving? {
      var k :| StatFound(w, steps, i, k, asked.rtlDir, v.runs[i].want.mtime);
      assert BuiltAsAsked(v.disk.bin, asked, v.runs[i].want.mtime);
    }
  }

  // ---- no run is blocked for good ----

  /** Steps of its own a run still has before it ends, but for the stamp file's characters. */
  function Phase(r: Run): nat {
    match r
    case Starting(_, _, _, _, _) => 11
    case Waiting(_, _) => 10
    case Locked(_, _) => 9
    case Listed(_, _, _) => 8
    case Unlinking(_, _) => 7
    case Building(_, _) => 6
    case Compiled(_, _) => 5
    case Writing(_, _, _) => 4
    case Leaving(_) => 3
    case Failing => 2
    case Released(_) => 1
    case _ => 0
  }

  function CharsLeft(r: Run): nat {
    if r.Writing? && r.done <= |FileText(r.want)| then |FileText(r.want)| - r.done else 0
  }

  ghost predicate Sooner(r: Run, s: Run) {
    Phase(r) < Phase(s) || (Phase(r) == Phase(s) && CharsLeft(r) < CharsLeft(s))
  }

  /** Every step of a run other than a write of its build tool brings its end nearer. */
  lemma OwnStepNearer(w: World, r: Run, act: Act)
    requires RunEnabled(w, r, act) && !act.Churn?
    ensures Sooner(RunAfter(w, r, act), r)
  {
    hide FileText, StaleReason;
  }

  /** A run that crashes does not keep the lock, and its crash does not take it from another. */
  lemma CrashFreesLock(w: World, i: nat)
    requires Inv(w) && Enabled(w, Of(i, Crash))
    ensures Do(w, Of(i, Crash)).lock == if w.lock == Some(i) then None else w.lock
    ensures Inv(Do(w, Of(i, Crash)))
  {
    hide RunOk, Truthful;
    StepKeeps(w, Of(i, Crash));
  }

  /** A step by the run itself, or by the holder of the lock it waits for: no crash, and no more
      writes of a build tool. */
  ghost predicate Helps(w: World, i: nat, s: Step)
    requires i < |w.runs|
  {
    && s.Of? && !s.act.Crash? && !s.act.Churn?
    && s.i == if w.runs[i].Waiting? && w.lock.Some? then w.lock.value else i
  }

  /** While a run has not ended, such a step can be taken. */
  lemma SomeoneMoves(w: World, i: nat) returns (s: Step)
    requires Inv(w) && i < |w.runs| && !Ended(w.runs[i])
    ensures Enabled(w, s) && Helps(w, i, s)
  {
    hide StaleReason, Truthful, FileText, BuiltFor;
    var j := if w.runs[i].Waiting? && w.lock.Some? then w.lock.value else i;
    var r := w.runs[j];
    assert RunOk(w.disk, w.mtimes, r);
    s := Of(j, match r
      case Starting(_, _, _, _, _) => Stat
      case Waiting(_, _) => Acquire
      case Locked(_, _) => ReadList
      case Listed(_, _, _) => Decide
      case Unlinking(_, _) => Unlink
      case Building(_, _) => Compile(Outcome(false, NoBin))
      case Compiled(_, _) => Create
      case Writing(want, _, done) => if done < |FileText(want)| then Write else Close
      case Released(_) => Simulate
      case _ => Release);
  }

  ghost predicate Gentle(steps: seq<Step>) {
    forall k :: 0 <= k < |steps| ==> steps[k].Of? && !steps[k].act.Crash? && !steps[k].act.Churn?
  }

  /** From every reachable state, whoever crashed before and whoever holds the lock, any run can
      still be brought to its end without a crash: to the simulation or to an error. */
  lemma {:induction false} RunEnds(w: World, i: nat) returns (steps: seq<Step>)
    requires Inv(w) && i < |w.runs|
    ensures Possible(w, steps) && Gentle(steps)
    ensures Ended(After(w, steps).runs[i]) && (!w.runs[i].Crashed? ==> !After(w, steps).runs[i].Crashed?)
    decreases Phase(w.runs[i]), CharsLeft(w.runs[i]), Phase(AwaitedBy(w, i)), CharsLeft(AwaitedBy(w, i))
  {
    hide Inv, RunEnabled, DiskAfter, LockAfter, RunAfter, FileText, Possible, After, Phase, CharsLeft, AwaitedBy;
    if Ended(w.runs[i]) {
      steps := [];
      NoSteps(w);
    } else {
      var s := SomeoneMoves(w, i);
      StepKeeps(w, s);
      OwnStepNearer(w, w.runs[s.i], s.act);
      StepAwaited(w, i, s);
      StaysUncrashed(w, w.runs[s.i], s.act);
      steps := RunEnds(Do(w, s), i);
      StepThen(w, s, steps);
      steps := [s] + steps;
    }
  }

  lemma NoSteps(w: World)
    ensures Possible(w, []) && After(w, []) == w
  {
  }

  lemma StaysUncrashed(w: World, r: Run, act: Act)
    requires RunEnabled(w, r, act) && !act.Crash?
    ensures !RunAfter(w, r, act).Crashed?
  {
  }

  /** The run a waiting run waits for; one that has ended if none. */
  function AwaitedBy(w: World, i: nat): Run
    requires i < |w.runs|
  {
    if w.runs[i].Waiting? && w.lock.Some? && w.lock.value < |w.runs| then w.runs[w.lock.value] else Crashed
  }

  /** Such a step brings nearer the end of the run, or of the one it waits for. */
  lemma StepAwaited(w: World, i: nat, s: Step)
    requires Inv(w) && i < |w.runs| && Enabled(w, s) && Helps(w, i, s)
    requires Sooner(RunAfter(w, w.runs[s.i], s.act), w.runs[s.i])
    ensures var v := Do(w, s);
      || Sooner(v.runs[i], w.runs[i])
      || (v.runs[i] == w.runs[i] && Sooner(AwaitedBy(v, i), AwaitedBy(w, i)))
  {
    hide RunOk, Truthful, FileText, StaleReason, RunAfter, DiskAfter, CharsLeft;
    if s.i != i {
      var r, v := w.runs[s.i], Do(w, s);
      assert w.lock == Some(s.i) && HoldsLock(r);
      if v.lock == None { GoneIsSooner(r); }
      assert v.lock == None || v.lock == w.lock by { HolderKeeps(w, r, s); }
    }
  }

  lemma HolderKeeps(w: World, r: Run, s: Step)
    requires s.Of? && RunEnabled(w, r, s.act) && HoldsLock(r)
    ensures LockAfter(w.lock, s.i, r, s.act) == None || LockAfter(w.lock, s.i, r, s.act) == w.lock
  {
    hide FileText;
  }

  lemma GoneIsSooner(r: Run)
    requires HoldsLock(r)
    ensures Sooner(Crashed, r)
  {
    hide FileText;
  }

  // ---- after the lock is released ----

  lemma StepThen(w: World, s: Step, steps: seq<Step>)
    requires Enabled(w, s) && Possible(Do(w, s), steps)
    ensures Possible(w, [s] + steps) && After(w, [s] + steps) == After(Do(w, s), steps)
  {
    hide Enabled, Do;
    assert ([s] + steps)[1..] == steps;
  }

  /** A run that still can rebuild, given what is on disk: it has not built its stamp yet, or will
      find the cached build stale or was told to rebuild, or is past that decision and has not
      finished building. */
  ghost predicate MayRebuild(d: Disk, r: Run) {
    match r
    case Starting(_, _, _, _, _) => true
    case Waiting(want, rebuild) => rebuild || StaleReason(d, want) != None
    case Locked(want, rebuild) => rebuild || StaleReason(d, want) != None
    case Listed(want, rebuild, _) => rebuild || StaleReason(d, want) != None
    case Unlinking(_, _) => true
    case Building(_, _) => true
    case _ => false
  }

  /** After these steps run `i` simulates a binary that was not built for it. */
  ghost predicate Spoils(w: World, i: nat, steps: seq<Step>) {
    && i < |w.runs| && Possible(w, steps)
    && var r := After(w, steps).runs[i]; r.Simulating? && !BuiltFor(r.sim, r.want)
  }

  // -- if some run may rebuild, run `i` can be spoiled --

  /** A modification time that makes the cached build stale. */
  function Newer(d: Disk): nat {
    if d.stamp.Some? && Loads(d.stamp.value).Some? then Loads(d.stamp.value).value.mtime + 1 else 0
  }

  lemma NewerIsStale(d: Disk, want: Stamp)
    requires want.mtime >= Newer(d)
    ensures StaleReason(d, want) != None
  {
    hide Loads;
  }

  predicate ListIsNewer(w: World, r: Run)
    requires r.Starting?
  {
    r.rtlDir in w.mtimes && w.mtimes[r.rtlDir] >= Newer(w.disk)
  }

  /** Steps until run `j`, which may rebuild, is building. */
  function ToBuilding(w: World, r: Run): nat {
    match r
    case Starting(_, _, _, _, _) => if ListIsNewer(w, r) then 6 else 7
    case Waiting(_, _) => if w.lock.Some? then 5 else 4
    case Locked(_, _) => 3
    case Listed(_, _, _) => 2
    case Unlinking(_, _) => 1
    case _ => 0
  }

  /** The next of those steps: a regeneration if the list is not newer than the stamp, a crash of
      the holder of the lock if the run has to wait, or the run's own step. */
  function TowardsBuilding(w: World, j: nat): Step
    requires j < |w.runs|
  {
    var r := w.runs[j];
    match r
    case Starting(_, dir, _, _, _) =>
      if ListIsNewer(w, r) then Of(j, Stat)
      else Regenerate(dir, if dir in w.mtimes then w.mtimes[dir] + Newer(w.disk) else Newer(w.disk))
    case Waiting(_, _) => if w.lock.Some? then Of(w.lock.value, Crash) else Of(j, Acquire)
    case Locked(_, _) => Of(j, ReadList)
    case Listed(_, _, _) => Of(j, Decide)
    case _ => Of(j, Unlink)
  }

  lemma StepTowards(w: World, i: nat, j: nat)
    requires Inv(w) && i < |w.runs| && j < |w.runs| && w.runs[i].Released?
    requires MayRebuild(w.disk, w.runs[j]) && !w.runs[j].Building?
    ensures var s := TowardsBuilding(w, j);
      && Enabled(w, s)
      && var v := Do(w, s);
        v.runs[i] == w.runs[i] && MayRebuild(v.disk, v.runs[j]) && ToBuilding(v, v.runs[j]) < ToBuilding(w, w.runs[j])
  {
    hide Truthful, FileText, StaleReason, BuiltFor, Newer;
    var r := w.runs[j];
    assert RunOk(w.disk, w.mtimes, r);
    if r.Starting? && ListIsNewer(w, r) { NewerIsStale(w.disk, Wanted(w, r)); }
  }

  lemma {:induction false} Spoil(w: World, i: nat, j: nat) returns (steps: seq<Step>)
    requires Inv(w) && i < |w.runs| && j < |w.runs| && w.runs[i].Released?
    requires MayRebuild(w.disk, w.runs[j])
    ensures Spoils(w, i, steps)
    decreases ToBuilding(w, w.runs[j])
  {
    hide Inv, Enabled, Do, MayRebuild, TowardsBuilding, ToBuilding, Possible, After;
    if w.runs[j].Building? {
      steps := SpoilBuilding(w, i, j);
    } else {
      StepTowards(w, i, j);
      var s := TowardsBuilding(w, j);
      StepKeeps(w, s);
      steps := Spoil(Do(w, s), i, j);
      StepThen(w, s, steps);
      steps := [s] + steps;
    }
  }

  /** The build tool removes the binary, and run `i` goes on. */
  lemma SpoilBuilding(w: World, i: nat, j: nat) returns (steps: seq<Step>)
    requires i < |w.runs| && j < |w.runs| && w.runs[i].Released? && w.runs[j].Building?
    ensures Spoils(w, i, steps)
  {
    hide StaleReason, FileText;
    var s, t := Of(j, Churn(NoBin)), Of(i, Simulate);
    NoSteps(Do(Do(w, s), t));
    StepThen(Do(w, s), t, []);
    StepThen(w, s, [t] + []);
    steps := [s] + ([t] + []);
  }

  // -- if none may, it cannot --

  ghost predicate Settled(w: World) {
    forall j :: 0 <= j < |w.runs| ==> !MayRebuild(w.disk, w.runs[j])
  }

  /** A run that cannot rebuild leaves the binary alone and cannot rebuild afterwards. */
  lemma SettledStep(w: World, r: Run, act: Act)
    requires RunOk(w.disk, w.mtimes, r) && RunEnabled(w, r, act) && !MayRebuild(w.disk, r)
    ensures DiskAfter(w, r, act).bin == w.disk.bin
    ensures !MayRebuild(DiskAfter(w, r, act), RunAfter(w, r, act))
  {
    hide StaleReason, FileText, BuiltFor;
  }

  /** What it writes to the stamp file does not make another run's build stale. */
  lemma SettledOthers(w: World, r: Run, act: Act, other: Run)
    requires RunOk(w.disk, w.mtimes, r) && RunEnabled(w, r, act) && !MayRebuild(w.disk, r)
    requires !MayRebuild(w.disk, other)
    ensures !MayRebuild(DiskAfter(w, r, act), other)
  {
    hide FileText, BuiltFor, Loads;
    if act.Write? {
      TornNeverReads(r.want, r.done);
      TornNeverReads(r.want, r.done + 1);
    }
  }

  lemma SettledKeeps(w: World, s: Step)
    requires Inv(w) && Settled(w) && Enabled(w, s)
    ensures Settled(Do(w, s)) && Do(w, s).disk.bin == w.disk.bin
  {
    hide MayRebuild, RunEnabled, RunAfter, DiskAfter, Truthful, RunOk, LockAfter;
    if s.Of? {
      var r, v := w.runs[s.i], Do(w, s);
      SettledStep(w, r, s.act);
      forall j | 0 <= j < |v.runs| ensures !MayRebuild(v.disk, v.runs[j]) {
        if j != s.i { SettledOthers(w, r, s.act, w.runs[j]); }
      }
    }
  }

  /** Run `i` is past the lock with its binary still in place, or simulating it, or crashed. */
  ghost predicate HasItsBinary(w: World, i: nat)
    requires i < |w.runs|
  {
    match w.runs[i]
    case Released(want) => BuiltFor(w.disk.bin, want)
    case Simulating(want, sim) => BuiltFor(sim, want)
    case Crashed => true
    case _ => false
  }

  lemma {:induction false} SettledRuns(w: World, i: nat, steps: seq<Step>)
    requires Inv(w) && Settled(w) && i < |w.runs| && HasItsBinary(w, i) && Possible(w, steps)
    ensures !Spoils(w, i, steps)
    decreases |steps|
  {
    hide Inv, Settled, BuiltFor, DiskAfter, LockAfter, FileText, StaleReason;
    if steps != [] {
      StepKeeps(w, steps[0]);
      SettledKeeps(w, steps[0]);
      SettledRuns(Do(w, steps[0]), i, steps[1..]);
    }
  }

  /** Exactly when a run that has released the lock can still come to simulate a binary that was
      not built for it: the binary is already another, or some run may rebuild, be it with the same
      settings. The lock does not protect the time from its release to `simulate`. */
  lemma SpoiledIff(w: World, i: nat)
    requires Inv(w) && i < |w.runs| && w.runs[i].Released?
    ensures (exists steps :: Spoils(w, i, steps))
       <==> !BuiltFor(w.disk.bin, w.runs[i].want) || exists j :: 0 <= j < |w.runs| && MayRebuild(w.disk, w.runs[j])
  {
    hide Inv, Spoils, MayRebuild, BuiltFor, RunEnabled, DiskAfter, LockAfter;
    if j :| 0 <= j < |w.runs| && MayRebuild(w.disk, w.runs[j]) {
      var steps := Spoil(w, i, j);
    } else if !BuiltFor(w.disk.bin, w.runs[i].want) {
      AlreadySpoiled(w, i);
    } else {
      forall steps ensures !Spoils(w, i, steps) {
        SpoilsIsPossible(w, i, steps);
        if Possible(w, steps) { SettledRuns(w, i, steps); }
      }
    }
  }

  lemma SpoilsIsPossible(w: World, i: nat, steps: seq<Step>)
    ensures Spoils(w, i, steps) ==> Possible(w, steps)
  {
  }

  lemma AlreadySpoiled(w: World, i: nat)
    requires i < |w.runs| && w.runs[i].Released? && !BuiltFor(w.disk.bin, w.runs[i].want)
    ensures Spoils(w, i, [Of(i, Simulate)])
  {
    NoSteps(Do(w, Of(i, Simulate)));
    StepThen(w, Of(i, Simulate), []);
    assert [Of(i, Simulate)] + [] == [Of(i, Simulate)];
  }
}
