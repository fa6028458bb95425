/** How daemonising in src/daemon/main.c relays a start-up status: the launcher
    forks a child, the child forks the daemon, and the daemon's status travels
    back through two pipes. Every process can fail or die at every step, and
    reads and writes can be cut into pieces. */
module Daemonize {
  import opened Common

  /** The statuses that occur, as the four bytes of an `int`. */
  type status = n: int | n == 0 || n == 1

  function Bytes(v: status): (b: seq<byte>)
    ensures |b| == 4
  {
    [v, 0, 0, 0]
  }

  /** The `int` that four bytes make, least significant first. */
  function Value(b: seq<byte>): int
    requires |b| == 4
  {
    b[0] as int + 0x100 * b[1] as int + 0x1_0000 * b[2] as int + 0x100_0000 * b[3] as int
  }

  datatype Launcher =
    | LStart
    | LForked                     // still holds the write end of the first pipe
    | LReading(got: seq<byte>)
    | LDone(exit: int)
    | LCrashed

  datatype Child =
    | CNone
    | CStart
    | CForked                     // still holds the write end of the second pipe
    | CReading(got: seq<byte>)
    | CWriting(rest: seq<byte>)
    | CDone

  datatype Daemon =
    | DNone
    | DForked                     // still holds the write end of the first pipe
    | DStarting
    | DWriting(rest: seq<byte>)
    | DDone                       // running or gone; its pipes are closed

  /** The daemon came up, found another instance running, or gave up. */
  datatype Outcome = Undecided | Started | Already | Failed

  datatype State = State(
    startMode: bool,              // --start
    launcher: Launcher,
    child: Child,
    daemon: Daemon,
    pipe1: seq<byte>,             // all that was ever written
    pipe2: seq<byte>,
    // the history
    relayed: Option<seq<byte>>,   // what the child decided to write
    reported: Option<seq<byte>>,  // what the daemon decided to write
    outcome: Outcome,             // what became of the daemon
    forkFailed: bool,             // the launcher or the child could not go on
    faults: nat)                  // crashes and failed reads and writes

  /** Whether some process can still write to a pipe. */
  predicate Open1(s: State) {
    || s.launcher.LForked? || s.daemon.DForked?
    || s.child.CStart? || s.child.CForked? || s.child.CReading? || s.child.CWriting?
  }

  predicate Open2(s: State) {
    s.child.CForked? || s.daemon.DForked? || s.daemon.DStarting? || s.daemon.DWriting?
  }

  datatype Step =
    | LFail | LFork | LClose | LRead(n: nat) | LEof | LError | LCrash
    | CFail | CFork | CClose | CRead(n: nat) | CEof | CError | CWrite(n: nat) | CWriteError | CCrash
    | DClose | DFail | DAlready | DSuccess | DWrite(n: nat) | DWriteError | DCrash

  predicate IsFault(step: Step) {
    || step.LError? || step.LCrash?
    || step.CError? || step.CWriteError? || step.CCrash?
    || step.DWriteError? || step.DCrash?
  }

  predicate Readable(got: seq<byte>, n: nat, pipe: seq<byte>) {
    0 < n <= 4 - |got| && |got| + n <= |pipe|
  }

  predicate Enabled(s: State, step: Step) {
    match step
    case LFail => s.launcher.LStart?
    case LFork => s.launcher.LStart? && s.child.CNone?
    case LClose => s.launcher.LForked?
    case LRead(n) => s.launcher.LReading? && Readable(s.launcher.got, n, s.pipe1)
    case LEof => s.launcher.LReading? && |s.launcher.got| == |s.pipe1| && !Open1(s)
    case LError => s.launcher.LReading?
    case LCrash => !s.launcher.LDone? && !s.launcher.LCrashed?
    case CFail => s.child.CStart?
    case CFork => s.child.CStart? && s.daemon.DNone?
    case CClose => s.child.CForked?
    case CRead(n) => s.child.CReading? && Readable(s.child.got, n, s.pipe2)
    case CEof => s.child.CReading? && |s.child.got| == |s.pipe2| && !Open2(s)
    case CError => s.child.CReading?
    case CWrite(n) => s.child.CWriting? && 0 < n <= |s.child.rest|
    case CWriteError => s.child.CWriting?
    case CCrash => !s.child.CNone? && !s.child.CDone?
    case DClose => s.daemon.DForked?
    case DFail => s.daemon.DStarting?
    case DAlready => s.daemon.DStarting? && s.startMode
    case DSuccess => s.daemon.DStarting?
    case DWrite(n) => s.daemon.DWriting? && 0 < n <= |s.daemon.rest|
    case DWriteError => s.daemon.DWriting?
    case DCrash => !s.daemon.DNone? && !s.daemon.DDone?
  }

  /** The child has a status, the daemon's or its own, and goes on to write it. */
  function Relaying(s: State, status: seq<byte>): State {
    s.(relayed := Some(status), child := CWriting(status))
  }

  function Reporting(s: State, status: seq<byte>): State {
    s.(reported := Some(status), daemon := DWriting(status))
  }

  function LauncherRead(s: State, n: nat): State
    requires s.launcher.LReading? && Readable(s.launcher.got, n, s.pipe1)
  {
    var got := s.launcher.got + s.pipe1[|s.launcher.got|..|s.launcher.got| + n];
    s.(launcher := if |got| == 4 then LDone(Value(got)) else LReading(got))
  }

  function ChildRead(s: State, n: nat): State
    requires s.child.CReading? && Readable(s.child.got, n, s.pipe2)
  {
    var got := s.child.got + s.pipe2[|s.child.got|..|s.child.got| + n];
    if |got| == 4 then Relaying(s, got) else s.(child := CReading(got))
  }

  function ChildWrote(s: State, n: nat): State
    requires s.child.CWriting? && n <= |s.child.rest|
  {
    s.(pipe1 := s.pipe1 + s.child.rest[..n],
       child := if n == |s.child.rest| then CDone else CWriting(s.child.rest[n..]))
  }

  function DaemonWrote(s: State, n: nat): State
    requires s.daemon.DWriting? && n <= |s.daemon.rest|
  {
    s.(pipe2 := s.pipe2 + s.daemon.rest[..n],
       daemon := if n == |s.daemon.rest| then DDone else DWriting(s.daemon.rest[n..]))
  }

  function Perform(s: State, step: Step): State
    requires Enabled(s, step)
  {
    match step
    case LFail => s.(launcher := LDone(1), forkFailed := true)
    case LFork => s.(launcher := LForked, child := CStart)
    case LClose => s.(launcher := LReading([]))
    case LRead(n) => LauncherRead(s, n)
    case LEof => s.(launcher := LDone(1))
    case LError => s.(launcher := LDone(1))
    case LCrash => s.(launcher := LCrashed)
    case CFail => Relaying(s.(forkFailed := true), Bytes(1))
    case CFork => s.(child := CForked, daemon := DForked)
    case CClose => s.(child := CReading([]))
    case CRead(n) => ChildRead(s, n)
    case CEof => Relaying(s, Bytes(1))
    case CError => Relaying(s, Bytes(1))
    case CWrite(n) => ChildWrote(s, n)
    case CWriteError => s.(child := CDone)
    case CCrash => s.(child := CDone)
    case DClose => s.(daemon := DStarting)
    case DFail => Reporting(s.(outcome := Failed), Bytes(1))
    case DAlready => Reporting(s.(outcome := Already), Bytes(0))
    case DSuccess => Reporting(s.(outcome := Started), Bytes(0))
    case DWrite(n) => DaemonWrote(s, n)
    case DWriteError => s.(daemon := DDone)
    case DCrash => s.(daemon := DDone)
  }

  function Apply(s: State, step: Step): State
    requires Enabled(s, step)
  {
    var t := Perform(s, step);
    if IsFault(step) then t.(faults := t.faults + 1) else t
  }

  function Init(startMode: bool): State {
    State(startMode, LStart, CNone, DNone, [], [], None, None, Undecided, false, 0)
  }

  // ----- What every interleaving keeps -----

  /** Nobody runs before being forked. */
  predicate OrderOk(s: State) {
    && (s.child.CNone? <==> s.launcher.LStart? || (s.child.CNone? && (s.launcher.LDone? || s.launcher.LCrashed?)))
    && (s.launcher.LForked? || s.launcher.LReading? ==> !s.child.CNone?)
    && (s.child.CNone? || s.child.CStart? ==> s.daemon.DNone?)
    && (s.child.CForked? || s.child.CReading? ==> !s.daemon.DNone?)
  }

  /** The daemon came up, or found another instance running in start mode. */
  predicate Succeeded(s: State) {
    (s.outcome == Started || (s.outcome == Already && s.startMode)) && s.reported == Some(Bytes(0))
  }

  /** The daemon reports once it has come to an outcome, and 0 or 1 by it. */
  predicate OutcomeOk(s: State) {
    && (s.reported.Some? <==> s.outcome != Undecided)
    && (s.outcome == Already ==> s.startMode)
    && (s.reported.Some? ==> s.reported.value == Bytes(if s.outcome == Failed then 1 else 0))
  }

  /** The second pipe carries a prefix of what the daemon reports. */
  predicate Pipe2Ok(s: State) {
    && (s.daemon.DWriting? ==> s.reported.Some? && s.daemon.rest != [] && s.pipe2 + s.daemon.rest == s.reported.value)
    && (s.reported.None? ==> s.pipe2 == [] && !s.daemon.DWriting?)
    && (s.reported.Some? ==>
          s.pipe2 <= s.reported.value && !s.daemon.DNone? && !s.daemon.DForked? && !s.daemon.DStarting?)
    && (s.daemon.DDone? && s.faults == 0 ==> s.reported.Some? && s.pipe2 == s.reported.value)
  }

  /** What the child relays is 1, or what the daemon reported in full. */
  predicate RelayOk(s: State) {
    && (s.child.CReading? ==> |s.child.got| < 4 && s.child.got <= s.pipe2)
    && (s.relayed.Some? ==>
          || s.relayed.value == Bytes(1)
          || (s.reported.Some? && s.relayed.value == s.pipe2 == s.reported.value))
    && (s.relayed.Some? && s.faults == 0 && !s.forkFailed ==>
          s.reported.Some? && s.relayed.value == s.reported.value)
  }

  /** The first pipe carries a prefix of what the child relays. */
  predicate Pipe1Ok(s: State) {
    && (s.child.CWriting? ==> s.relayed.Some? && s.child.rest != [] && s.pipe1 + s.child.rest == s.relayed.value)
    && (s.relayed.None? ==> s.pipe1 == [] && !s.child.CWriting?)
    && (s.relayed.Some? ==>
          |s.relayed.value| == 4 && s.pipe1 <= s.relayed.value && (s.child.CWriting? || s.child.CDone?))
    && (s.child.CDone? && s.faults == 0 ==> s.relayed.Some? && s.pipe1 == s.relayed.value)
  }

  /** The launcher leaves with 1, or with what the child relayed in full. */
  predicate ExitOk(s: State) {
    && (s.launcher.LReading? ==> |s.launcher.got| < 4 && s.launcher.got <= s.pipe1)
    && (s.launcher.LDone? && s.launcher.exit != 1 ==> Relayed(s, s.launcher.exit))
    && (s.launcher.LDone? && s.faults == 0 && !s.forkFailed ==> Relayed(s, s.launcher.exit))
  }

  predicate Relayed(s: State, v: int) {
    s.relayed.Some? && |s.relayed.value| == 4 && Value(s.relayed.value) == v
  }

  predicate Inv(s: State) {
    OrderOk(s) && OutcomeOk(s) && Pipe2Ok(s) && RelayOk(s) && Pipe1Ok(s) && ExitOk(s)
  }

  lemma ValueOf(v: status)
    ensures Value(Bytes(v)) == v
  {
  }

  /** Reading on from a pipe. */
  lemma Joins(got: seq<byte>, pipe: seq<byte>, n: nat)
    requires got <= pipe && |got| + n <= |pipe|
    ensures got + pipe[|got|..|got| + n] <= pipe
  {
  }

  lemma LauncherReads(s: State, got: seq<byte>)
    requires Inv(s) && s.launcher.LReading? && got <= s.pipe1
    ensures |got| < 4 ==> Inv(s.(launcher := LReading(got)))
    ensures |got| == 4 ==> Inv(s.(launcher := LDone(Value(got))))
  {
    if |got| == 4 {
      assert got == s.relayed.value;
    }
  }

  lemma LReadKeeps(s: State, n: nat)
    requires Inv(s) && s.launcher.LReading? && Readable(s.launcher.got, n, s.pipe1)
    ensures Inv(LauncherRead(s, n))
  {
    Joins(s.launcher.got, s.pipe1, n);
    LauncherReads(s, s.launcher.got + s.pipe1[|s.launcher.got|..|s.launcher.got| + n]);
  }

  /** The child may turn to relaying 1 when something went wrong, and the daemon's
      status when it has all of it. */
  lemma RelayStarts(s: State, status: seq<byte>)
    requires Inv(s) && (s.child.CReading? || s.child.CStart?)
    requires || (status == Bytes(1) && (s.faults > 0 || s.forkFailed))
             || (s.reported.Some? && status == s.pipe2 == s.reported.value)
    ensures Inv(Relaying(s, status))
  {
  }

  lemma CReadKeeps(s: State, n: nat)
    requires Inv(s) && s.child.CReading? && Readable(s.child.got, n, s.pipe2)
    ensures Inv(ChildRead(s, n))
  {
    Joins(s.child.got, s.pipe2, n);
    ChildReads(s, s.child.got + s.pipe2[|s.child.got|..|s.child.got| + n]);
  }

  lemma ChildReads(s: State, got: seq<byte>)
    requires Inv(s) && s.child.CReading? && got <= s.pipe2
    ensures |got| < 4 ==> Inv(s.(child := CReading(got)))
    ensures |got| == 4 ==> Inv(Relaying(s, got))
  {
    if |got| == 4 {
      assert got == s.pipe2 == s.reported.value;
      RelayStarts(s, got);
    } else if |got| < 4 {
      ReadsOn(s, got);
    }
  }

  lemma ReadsOn(s: State, got: seq<byte>)
    requires Inv(s) && s.child.CReading? && got <= s.pipe2 && |got| < 4
    ensures Inv(s.(child := CReading(got)))
  {
  }

  /** Writing part of a status leaves a prefix of it on the pipe. */
  lemma Splits(before: seq<byte>, all: seq<byte>, n: nat, status: seq<byte>, got: seq<byte>)
    returns (pipe: seq<byte>, rest: seq<byte>)
    requires before + all == status && n <= |all| && got <= before
    ensures pipe == before + all[..n] && rest == all[n..]
    ensures before <= pipe <= status && pipe + rest == status && got <= pipe
    ensures rest == [] <==> n == |all|
    ensures rest == [] ==> pipe == status
  {
    pipe, rest := before + all[..n], all[n..];
  }

  lemma ChildWritesOn(s: State, pipe: seq<byte>, rest: seq<byte>)
    requires Inv(s) && s.child.CWriting? && rest != [] && pipe <= s.relayed.value && pipe + rest == s.relayed.value
    requires s.launcher.LReading? ==> s.launcher.got <= pipe
    ensures Inv(s.(pipe1 := pipe, child := CWriting(rest)))
  {
  }

  lemma ChildWritesLast(s: State, pipe: seq<byte>)
    requires Inv(s) && s.child.CWriting? && pipe == s.relayed.value
    requires s.launcher.LReading? ==> s.launcher.got <= pipe
    ensures Inv(s.(pipe1 := pipe, child := CDone))
  {
  }

  lemma CWriteKeeps(s: State, n: nat)
    requires Inv(s) && s.child.CWriting? && n <= |s.child.rest|
    ensures Inv(ChildWrote(s, n))
  {
    var got := if s.launcher.LReading? then s.launcher.got else [];
    var pipe, rest := Splits(s.pipe1, s.child.rest, n, s.relayed.value, got);
    if rest == [] {
      ChildWritesLast(s, pipe);
    } else {
      ChildWritesOn(s, pipe, rest);
    }
  }

  lemma DaemonWritesOn(s: State, pipe: seq<byte>, rest: seq<byte>)
    requires Inv(s) && s.daemon.DWriting? && rest != [] && s.pipe2 <= pipe
    requires pipe <= s.reported.value && pipe + rest == s.reported.value
    requires s.child.CReading? ==> s.child.got <= pipe
    ensures Inv(s.(pipe2 := pipe, daemon := DWriting(rest)))
  {
    assert |s.pipe2| + |s.daemon.rest| == 4;
  }

  lemma DaemonWritesLast(s: State, pipe: seq<byte>)
    requires Inv(s) && s.daemon.DWriting? && pipe == s.reported.value
    requires s.child.CReading? ==> s.child.got <= pipe
    ensures Inv(s.(pipe2 := pipe, daemon := DDone))
  {
    assert |s.pipe2| + |s.daemon.rest| == 4;
  }

  lemma DWriteKeeps(s: State, n: nat)
    requires Inv(s) && s.daemon.DWriting? && n <= |s.daemon.rest|
    ensures Inv(DaemonWrote(s, n))
  {
    var got := if s.child.CReading? then s.child.got else [];
    var pipe, rest := Splits(s.pipe2, s.daemon.rest, n, s.reported.value, got);
    if rest == [] {
      DaemonWritesLast(s, pipe);
    } else {
      DaemonWritesOn(s, pipe, rest);
    }
  }

  /** An end of file before a complete status means that something went wrong. */
  lemma CEofKeeps(s: State)
    requires Inv(s) && Enabled(s, CEof)
    ensures Inv(Apply(s, CEof))
  {
    assert s.daemon.DDone?;
    RelayStarts(s, Bytes(1));
  }

  lemma LauncherMoves(s: State, l: Launcher)
    requires Inv(s) && !s.launcher.LStart?
    requires l == LReading([]) || l == LCrashed || (l == LDone(1) && (s.faults > 0 || s.forkFailed))
    requires l.LReading? ==> s.launcher.LForked?
    ensures Inv(s.(launcher := l))
  {
  }

  lemma LauncherFails(s: State)
    requires Inv(s) && s.launcher.LStart?
    ensures Inv(s.(launcher := LDone(1), forkFailed := true))
    ensures Inv(s.(launcher := LCrashed))
  {
  }

  lemma LauncherForks(s: State)
    requires Inv(s) && s.launcher.LStart? && s.child.CNone?
    ensures Inv(s.(launcher := LForked, child := CStart))
  {
  }

  lemma ChildForks(s: State)
    requires Inv(s) && s.child.CStart? && s.daemon.DNone?
    ensures Inv(s.(child := CForked, daemon := DForked))
  {
  }

  lemma ChildCloses(s: State)
    requires Inv(s) && s.child.CForked?
    ensures Inv(s.(child := CReading([])))
  {
  }

  lemma ChildEnds(s: State)
    requires Inv(s) && !s.child.CNone? && s.faults > 0
    ensures Inv(s.(child := CDone))
  {
  }

  lemma DaemonCloses(s: State)
    requires Inv(s) && s.daemon.DForked?
    ensures Inv(s.(daemon := DStarting))
  {
  }

  lemma DaemonReports(s: State, outcome: Outcome)
    requires Inv(s) && s.daemon.DStarting? && outcome != Undecided && (outcome == Already ==> s.startMode)
    ensures Inv(Reporting(s.(outcome := outcome), Bytes(if outcome == Failed then 1 else 0)))
  {
  }

  lemma DaemonEnds(s: State)
    requires Inv(s) && !s.daemon.DNone? && s.faults > 0
    ensures Inv(s.(daemon := DDone))
  {
  }

  lemma FaultKeeps(s: State)
    requires Inv(s)
    ensures Inv(s.(faults := s.faults + 1))
  {
  }

  /** An end of file before a complete status means that something went wrong. */
  lemma LEofKeeps(s: State)
    requires Inv(s) && Enabled(s, LEof)
    ensures Inv(Apply(s, LEof))
  {
    assert s.child.CDone?;
    LauncherMoves(s, LDone(1));
  }

  lemma LauncherKeeps(s: State, step: Step)
    requires Inv(s) && Enabled(s, step)
    requires step.LFail? || step.LFork? || step.LClose? || step.LEof? || step.LError? || step.LCrash?
    ensures Inv(Apply(s, step))
  {
    FaultKeeps(s);
    var f := s.(faults := s.faults + 1);
    match step
    case LFail => LauncherFails(s);
    case LFork => LauncherForks(s);
    case LClose => LauncherMoves(s, LReading([]));
    case LEof => LEofKeeps(s);
    case LError => LauncherMoves(f, LDone(1));
    case LCrash =>
      if s.launcher.LStart? {
        LauncherFails(f);
      } else {
        LauncherMoves(f, LCrashed);
      }
  }

  lemma ChildKeeps(s: State, step: Step)
    requires Inv(s) && Enabled(s, step)
    requires step.CFork? || step.CClose? || step.CWriteError? || step.CCrash?
    ensures Inv(Apply(s, step))
  {
    if step.CFork? {
      ChildForks(s);
    } else if step.CClose? {
      ChildCloses(s);
    } else {
      FaultKeeps(s);
      ChildEnds(s.(faults := s.faults + 1));
    }
  }

  lemma OutcomeReported(s: State, step: Step)
    requires Inv(s) && Enabled(s, step) && (step.DFail? || step.DAlready? || step.DSuccess?)
    ensures Inv(Apply(s, step))
  {
    if step.DFail? {
      DaemonReports(s, Failed);
    } else if step.DAlready? {
      DaemonReports(s, Already);
    } else {
      DaemonReports(s, Started);
    }
  }

  lemma DaemonKeeps(s: State, step: Step)
    requires Inv(s) && Enabled(s, step) && (step.DClose? || step.DWriteError? || step.DCrash?)
    ensures Inv(Apply(s, step))
  {
    if step.DClose? {
      DaemonCloses(s);
    } else {
      FaultKeeps(s);
      DaemonEnds(s.(faults := s.faults + 1));
    }
  }

  lemma StepKeeps(s: State, step: Step)
    requires Inv(s) && Enabled(s, step)
    ensures Inv(Apply(s, step))
  {
    match step
    case LRead(n) => LReadKeeps(s, n);
    case CRead(n) => CReadKeeps(s, n);
    case CWrite(n) => CWriteKeeps(s, n);
    case DWrite(n) => DWriteKeeps(s, n);
    case CFail => GivesUpKeeps(s, step);
    case CError => GivesUpKeeps(s, step);
    case CEof => CEofKeeps(s);
    case CFork => ChildKeeps(s, step);
    case CClose => ChildKeeps(s, step);
    case CWriteError => ChildKeeps(s, step);
    case CCrash => ChildKeeps(s, step);
    case DClose => DaemonKeeps(s, step);
    case DFail => OutcomeReported(s, step);
    case DAlready => OutcomeReported(s, step);
    case DSuccess => OutcomeReported(s, step);
    case DWriteError => DaemonKeeps(s, step);
    case DCrash => DaemonKeeps(s, step);
    case _ => LauncherKeeps(s, step);
  }

  lemma GivesUpKeeps(s: State, step: Step)
    requires Inv(s) && Enabled(s, step) && (step.CFail? || step.CError?)
    ensures Inv(Apply(s, step))
  {
    if step.CFail? {
      RelayStarts(s.(forkFailed := true), Bytes(1));
    } else {
      FaultKeeps(s);
      RelayStarts(s.(faults := s.faults + 1), Bytes(1));
    }
  }

  // ----- Runs -----

  ghost predicate Runs(s: State, steps: seq<Step>)
    decreases |steps|
  {
    steps == [] || (Enabled(s, steps[0]) && Runs(Apply(s, steps[0]), steps[1..]))
  }

  ghost function After(s: State, steps: seq<Step>): State
    requires Runs(s, steps)
    decreases |steps|
  {
    if steps == [] then s else After(Apply(s, steps[0]), steps[1..])
  }

  lemma {:induction false} RunKeeps(s: State, steps: seq<Step>)
    requires Inv(s) && Runs(s, steps)
    ensures Inv(After(s, steps))
    decreases |steps|
  {
    if steps != [] {
      StepKeeps(s, steps[0]);
      RunKeeps(Apply(s, steps[0]), steps[1..]);
    }
  }

  /** In every interleaving, whatever fails: each pipe carries at most one
      complete status; the launcher leaves with 1 or with the status that the
      daemon wrote in full; and it leaves with 0 only if the daemon came up, or
      found another instance running in start mode. */
  lemma StatusHonest(startMode: bool, steps: seq<Step>)
    requires Runs(Init(startMode), steps)
    ensures var s := After(Init(startMode), steps);
            && |s.pipe1| <= 4 && |s.pipe2| <= 4
            && (s.launcher.LDone? && s.launcher.exit != 1 ==>
                  Reported(s, s.launcher.exit) && s.pipe2 == s.reported.value)
            && (s.launcher == LDone(0) ==> Succeeded(s))
  {
    RunKeeps(Init(startMode), steps);
    ValueOf(1);
  }

  predicate Reported(s: State, v: int) {
    s.reported.Some? && |s.reported.value| == 4 && Value(s.reported.value) == v
  }

  /** What a step makes of the outcome. */
  function OutcomeOf(step: Step, before: Outcome): Outcome {
    if step.DSuccess? then Started else if step.DAlready? then Already else if step.DFail? then Failed else before
  }

  lemma StepOutcome(s: State, step: Step)
    requires Enabled(s, step)
    ensures Apply(s, step).outcome == OutcomeOf(step, s.outcome)
  {
  }

  /** The outcome is the step of that name, which is taken at most once. */
  lemma {:induction false} OutcomeIsStep(s: State, steps: seq<Step>)
    requires Inv(s) && Runs(s, steps)
    ensures var t := After(s, steps);
            && (t.outcome == Started <==> s.outcome == Started || DSuccess in steps)
            && (t.outcome == Already <==> s.outcome == Already || DAlready in steps)
            && (t.outcome == Failed <==> s.outcome == Failed || DFail in steps)
    decreases |steps|
  {
    if steps != [] {
      StepKeeps(s, steps[0]);
      StepOutcome(s, steps[0]);
      OutcomeIsStep(Apply(s, steps[0]), steps[1..]);
      assert steps == [steps[0]] + steps[1..];
    }
  }

  /** No process fails on its way: no fault, and both forks succeed. */
  predicate Undisturbed(steps: seq<Step>) {
    forall i :: 0 <= i < |steps| ==> !IsFault(steps[i]) && !steps[i].LFail? && !steps[i].CFail?
  }

  lemma StepUndisturbed(s: State, step: Step)
    requires Enabled(s, step) && !IsFault(step) && !step.LFail? && !step.CFail?
    ensures Apply(s, step).faults == s.faults && Apply(s, step).forkFailed == s.forkFailed
  {
  }

  lemma {:induction false} RunUndisturbed(s: State, steps: seq<Step>)
    requires Runs(s, steps) && Undisturbed(steps)
    ensures After(s, steps).faults == s.faults && After(s, steps).forkFailed == s.forkFailed
    decreases |steps|
  {
    if steps != [] {
      StepUndisturbed(s, steps[0]);
      RunUndisturbed(Apply(s, steps[0]), steps[1..]);
    }
  }

  /** When nothing fails on the way, the launcher leaves with 0 exactly when the
      daemon came up or found another instance running, which counts in start mode
      only, and with 1 exactly when the daemon gave up. */
  lemma StatusExact(startMode: bool, steps: seq<Step>)
    requires Runs(Init(startMode), steps) && Undisturbed(steps)
    requires After(Init(startMode), steps).launcher.LDone?
    ensures var exit := After(Init(startMode), steps).launcher.exit;
            && (exit == 0 <==> DSuccess in steps || DAlready in steps)
            && (exit == 1 <==> DFail in steps)
            && (DAlready in steps ==> After(Init(startMode), steps).startMode)
  {
    RunKeeps(Init(startMode), steps);
    RunUndisturbed(Init(startMode), steps);
    OutcomeIsStep(Init(startMode), steps);
    ValueOf(0);
    ValueOf(1);
  }

  // ----- Nobody waits forever -----

  predicate Finished(s: State) {
    s.launcher.LDone? || s.launcher.LCrashed?
  }

  /** As long as the launcher is not done, some process can go on without a fault. */
  lemma Progress(s: State) returns (step: Step)
    requires Inv(s) && !Finished(s)
    ensures Enabled(s, step) && !IsFault(step)
  {
    match s.launcher
    case LStart => step := LFork;
    case LForked => step := LClose;
    case LReading(got) =>
      if |got| < |s.pipe1| {
        step := LRead(1);
      } else if !Open1(s) {
        step := LEof;
      } else if s.daemon.DForked? {
        step := DClose;
      } else {
        step := ChildGoesOn(s);
      }
  }

  lemma ChildGoesOn(s: State) returns (step: Step)
    requires Inv(s) && !s.daemon.DForked? && !s.child.CNone? && !s.child.CDone?
    ensures Enabled(s, step) && !IsFault(step)
  {
    match s.child
    case CStart => step := CFork;
    case CForked => step := CClose;
    case CWriting(rest) => step := CWrite(1);
    case CReading(got) =>
      if |got| < |s.pipe2| {
        step := CRead(1);
      } else if !Open2(s) {
        step := CEof;
      } else if s.daemon.DStarting? {
        step := DSuccess;
      } else {
        step := DWrite(1);
      }
  }

  function LauncherRank(l: Launcher): int {
    match l
    case LStart => 26
    case LForked => 6
    case LReading(got) => 5 - |got|
    case _ => 0
  }

  function ChildRank(c: Child): int {
    match c
    case CStart => 19
    case CForked => 11
    case CReading(got) => 10 - |got|
    case CWriting(rest) => 1 + |rest|
    case _ => 0
  }

  function DaemonRank(d: Daemon): int {
    match d
    case DForked => 7
    case DStarting => 6
    case DWriting(rest) => 1 + |rest|
    case _ => 0
  }

  /** A bound on the steps that are left. */
  function Rank(s: State): int {
    LauncherRank(s.launcher) + ChildRank(s.child) + DaemonRank(s.daemon)
  }

  lemma LauncherDrops(s: State, step: Step)
    requires Enabled(s, step) && (s.launcher.LReading? ==> |s.launcher.got| < 4)
    requires step.LFail? || step.LFork? || step.LClose? || step.LRead? || step.LEof? || step.LError? || step.LCrash?
    ensures Rank(Apply(s, step)) < Rank(s)
  {
  }

  lemma ChildDrops(s: State, step: Step)
    requires Enabled(s, step) && (s.child.CReading? ==> |s.child.got| < 4)
    requires step.CFail? || step.CFork? || step.CClose? || step.CEof?
          || step.CError? || step.CWriteError? || step.CCrash?
    ensures Rank(Apply(s, step)) < Rank(s)
  {
  }

  lemma TransferDrops(s: State, step: Step)
    requires Enabled(s, step) && (s.child.CReading? ==> |s.child.got| < 4) && (step.CRead? || step.CWrite?)
    ensures Rank(Apply(s, step)) < Rank(s)
  {
  }

  lemma DaemonDrops(s: State, step: Step)
    requires Enabled(s, step)
    requires step.DClose? || step.DFail? || step.DAlready? || step.DSuccess?
          || step.DWrite? || step.DWriteError? || step.DCrash?
    ensures Rank(Apply(s, step)) < Rank(s)
  {
  }

  lemma RankDrops(s: State, step: Step)
    requires Enabled(s, step)
    requires (s.launcher.LReading? ==> |s.launcher.got| < 4) && (s.child.CReading? ==> |s.child.got| < 4)
    ensures Rank(Apply(s, step)) < Rank(s)
  {
    if step.LFail? || step.LFork? || step.LClose? || step.LRead? || step.LEof? || step.LError? || step.LCrash? {
      LauncherDrops(s, step);
    } else if step.DClose? || step.DFail? || step.DAlready? || step.DSuccess?
           || step.DWrite? || step.DWriteError? || step.DCrash? {
      DaemonDrops(s, step);
    } else if step.CRead? || step.CWrite? {
      TransferDrops(s, step);
    } else {
      ChildDrops(s, step);
    }
  }

  lemma RankNatural(s: State)
    requires Inv(s)
    ensures Rank(s) >= 0
  {
  }

  /** Every run ends after at most 26 steps, and ends with the launcher gone. */
  lemma {:induction false} RunsEnd(s: State, steps: seq<Step>)
    requires Inv(s) && Runs(s, steps)
    ensures |steps| <= Rank(s)
    decreases |steps|
  {
    RankNatural(s);
    if steps != [] {
      RankDrops(s, steps[0]);
      StepKeeps(s, steps[0]);
      RunsEnd(Apply(s, steps[0]), steps[1..]);
    }
  }

  lemma LauncherEnds(startMode: bool, steps: seq<Step>)
    requires Runs(Init(startMode), steps)
    ensures |steps| <= 26
    ensures (forall step | Enabled(After(Init(startMode), steps), step) :: IsFault(step)) ==>
              Finished(After(Init(startMode), steps))
  {
    RunsEnd(Init(startMode), steps);
    RunKeeps(Init(startMode), steps);
    var s := After(Init(startMode), steps);
    if !Finished(s) {
      var step := Progress(s);
    }
  }
}
