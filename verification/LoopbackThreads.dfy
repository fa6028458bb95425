/** The three threads of module-loopback.c.

    The input thread posts audio and rewinds and counts what it sent; the output
    thread works through those messages, counts what it received and steers the
    length of its block queue; the main thread takes a snapshot of the output
    thread and then one of the input thread. The steps below are the single
    actions of these threads. */
module LoopbackThreads {

  datatype Message = Post(len: nat) | Rewind(len: nat)

  // ----- The block queue -----

  /** pa_memblockq as far as the module can see it: two indices, and the
      prebuffering state that holds back reads. */
  datatype Queue = Queue(read: int, write: int, prebuf: nat, inPrebuf: bool)

  function Length(q: Queue): nat {
    if q.write <= q.read then 0 else q.write - q.read
  }

  /** update_prebuf: the state after the check; reads are held back while it is set. */
  function Prebuffering(q: Queue): bool {
    if q.inPrebuf then Length(q) < q.prebuf else q.prebuf > 0 && q.read >= q.write
  }

  function Drop(q: Queue, n: nat): Queue {
    if n == 0 then q
    else if Prebuffering(q) then q.(inPrebuf := true)
    else q.(read := q.read + n, inPrebuf := false)
  }

  function Seek(q: Queue, distance: int): Queue {
    q.(write := q.write + distance)
  }

  /** Reads are held back from an empty queue until it holds as much as is to be
      prebuffered, and not from a queue that is neither empty nor filling up. */
  lemma PrebufferingIff(q: Queue)
    ensures Prebuffering(q) <==> Length(q) < q.prebuf && (Length(q) == 0 || q.inPrebuf)
  {
  }

  /** Whoever takes something from the queue gets it, or is held back, and the queue
      remembers which. */
  lemma DropIff(q: Queue, n: nat)
    requires n > 0
    ensures Drop(q, n).inPrebuf <==> Prebuffering(q)
    ensures Drop(q, n).read == if Prebuffering(q) then q.read else q.read + n
    ensures Drop(q, n) == q.(read := Drop(q, n).read, inPrebuf := Drop(q, n).inPrebuf)
  {
  }

  /** Set the queue to the requested length: drop what is too much, and append
      silence for what is missing when that is allowed. */
  function Adjusted(q: Queue, requested: nat, allowPush: bool): Queue {
    if Length(q) > requested then Drop(q, Length(q) - requested)
    else if Length(q) < requested && allowPush then Seek(q, requested - Length(q))
    else q
  }

  /** When the correction reaches the requested length, and that it never moves
      away from it: too long a queue is cut unless prebuffering holds it back,
      too short a queue is filled up unless silence is not allowed or the write
      index lags behind the read index. */
  lemma AdjustedExactIff(q: Queue, requested: nat, allowPush: bool)
    ensures Length(Adjusted(q, requested, allowPush)) == requested
            <==> (Length(q) == requested
                  || (Length(q) > requested && !Prebuffering(q))
                  || (Length(q) < requested && allowPush && q.read <= q.write))
    ensures Length(q) <= requested ==> Length(q) <= Length(Adjusted(q, requested, allowPush)) <= requested
    ensures Length(q) >= requested ==> requested <= Length(Adjusted(q, requested, allowPush)) <= Length(q)
  {
  }

  // ----- Configuration and state -----

  /** latency, the common sample rate and the frame size in bytes. */
  datatype Config = Config(latency: nat, rate: nat, frame: nat)

  predicate ValidConfig(c: Config) {
    c.rate > 0 && c.frame > 0
  }

  function UsecToBytes(c: Config, usec: nat): nat {
    usec * c.rate / 1_000_000 * c.frame
  }

  function BytesToUsec(c: Config, bytes: nat): nat
    requires ValidConfig(c)
  {
    bytes / c.frame * 1_000_000 / c.rate
  }

  datatype InputPc = Reading | Posted(delta: int)
  datatype OutputPc = Polling | Draining | Popping
  datatype MainPc = Waiting | HaveSink | HaveBoth

  datatype Flags = Flags(popCalled: bool, popAdjust: bool, firstPopDone: bool, pushCalled: bool)

  datatype Snapshot = Snapshot(recv: int, queued: nat, send: int)

  datatype State = State(
    log: seq<Message>,        // every message ever posted; log[processed..] is in flight
    send: int,                // send_counter
    input: InputPc,
    processed: nat,
    recv: int,                // recv_counter
    q: Queue,
    flags: Flags,
    minimum: nat,             // the output thread's copy of minimum_latency
    effective: nat,           // effective_source_latency
    output: OutputPc,
    main: MainPc,
    snapshot: Snapshot,
    // the history that the theorems speak about
    sinkAt: nat,              // messages processed at the sink snapshot
    queueAt: nat,             // the length of the queue at the sink snapshot
    sourceAt: nat,            // messages posted at the source snapshot
    corrections: nat,         // latency corrections done in POST
    changes: nat)             // source changes, sink moves and sink suspends

  /** What the output thread reads from its surroundings while it runs: whether
      the queue has room, source latency plus transit time plus sink latency, and
      the latency requested from the sink. */
  datatype Env = Env(fits: bool, delay: int, sinkLatency: nat)

  datatype Step =
    | PostAudio(len: nat)
    | PostRewind(len: nat)
    | CountSent
    | Process(env: Env)
    | BeginPop
    | EndDrain
    | Pop(taken: nat, env: Env)
    | SinkRewind(bytes: nat)
    | SetPrebuf(prebuf: nat)
    | FastAdjust(offset: int, env: Env)
    | SetMinimum(usec: nat)
    | SetEffective(usec: nat)
    | SourceChanged
    | SinkMoved
    | SinkSnapshot
    | SourceSnapshot
    | AdjustRates

  predicate Enabled(s: State, step: Step) {
    match step
    case PostAudio(_) => s.input.Reading?
    case PostRewind(_) => s.input.Reading?
    case CountSent => s.input.Posted?
    case Process(_) => s.processed < |s.log| && !s.output.Popping?
    case BeginPop => s.output.Polling?
    case EndDrain => s.output.Draining? && s.processed == |s.log|
    case Pop(_, _) => s.output.Popping?
    case SinkSnapshot => s.output.Polling? && s.main.Waiting?
    case SourceSnapshot => s.input.Reading? && s.main.HaveSink?
    case AdjustRates => s.main.HaveBoth?
    case _ => s.output.Polling?
  }

  // ----- The handlers of the output thread -----

  function RequestedLength(c: Config, minimum: nat, offset: int, sinkLatency: nat): nat {
    var target := (if c.latency > minimum then c.latency else minimum) - offset;
    UsecToBytes(c, if target < sinkLatency then sinkLatency else target)
  }

  function Adjust(c: Config, s: State, q: Queue, offset: int, env: Env, allowPush: bool): Queue {
    Adjusted(q, RequestedLength(c, s.minimum, offset, env.sinkLatency), allowPush)
  }

  /** Whether POST has to correct the latency. */
  predicate Due(f: Flags) {
    f.popCalled && (!f.pushCalled || f.popAdjust)
  }

  function HandlePost(c: Config, s: State, len: nat, env: Env): State
    requires ValidConfig(c)
  {
    var pushed := if env.fits then Seek(s.q, len) else s.q;
    var usec := BytesToUsec(c, len);
    var offset := env.delay - (if usec > s.effective then s.effective else usec);
    var corrected := if Due(s.flags) then Adjust(c, s, pushed, offset, env, true) else pushed;
    var trimmed := if s.flags.popCalled then corrected else Adjust(c, s, corrected, 0, env, false);
    s.(processed := s.processed + 1, recv := s.recv + len, q := trimmed,
       flags := if Due(s.flags) then s.flags.(popAdjust := false, pushCalled := true) else s.flags,
       corrections := if Due(s.flags) then s.corrections + 1 else s.corrections)
  }

  function HandleRewind(s: State, len: nat): State {
    s.(processed := s.processed + 1, recv := s.recv - len,
       q := if s.flags.pushCalled then Seek(s.q, 0 - len) else s.q)
  }

  /** The part of sink_input_pop_cb behind the drain loop. */
  function FinishPop(c: Config, s: State, taken: nat, env: Env): State {
    var f := s.flags;
    var second := !f.popCalled && f.firstPopDone;
    var flags := f.(popCalled := f.popCalled || second, popAdjust := f.popAdjust || second, firstPopDone := true);
    var q := if Prebuffering(s.q) then s.q.(inPrebuf := true)
             else
               var rest := Drop(s.q, taken);
               if flags.pushCalled then rest else Adjust(c, s, rest, 0, env, true);
    s.(flags := flags, q := q, output := Polling)
  }

  function Apply(c: Config, s: State, step: Step): State
    requires ValidConfig(c) && Enabled(s, step)
  {
    match step
    case PostAudio(len) => s.(log := s.log + [Post(len)], input := Posted(len))
    case PostRewind(len) => s.(log := s.log + [Rewind(len)], input := Posted(0 - len))
    case CountSent => s.(send := s.send + s.input.delta, input := Reading)
    case Process(env) =>
      (match s.log[s.processed]
       case Post(len) => HandlePost(c, s, len, env)
       case Rewind(len) => HandleRewind(s, len))
    case BeginPop => s.(output := Draining)
    case EndDrain => s.(output := Popping)
    case Pop(taken, env) => FinishPop(c, s, taken, env)
    case SinkRewind(bytes) => s.(q := s.q.(read := s.q.read - bytes))
    case SetPrebuf(n) => s.(q := s.q.(prebuf := n, inPrebuf := s.q.inPrebuf && Length(s.q) < n))
    case FastAdjust(offset, env) => s.(q := Adjust(c, s, s.q, offset, env, true))
    case SetMinimum(usec) => s.(minimum := usec)
    case SetEffective(usec) => s.(effective := usec)
    case SourceChanged => s.(flags := s.flags.(pushCalled := false), changes := s.changes + 1)
    case SinkMoved => s.(flags := s.flags.(popCalled := false, firstPopDone := false), changes := s.changes + 1)
    case SinkSnapshot =>
      s.(snapshot := s.snapshot.(recv := s.recv, queued := Length(s.q)), sinkAt := s.processed,
         queueAt := Length(s.q), main := HaveSink)
    case SourceSnapshot => s.(snapshot := s.snapshot.(send := s.send), sourceAt := |s.log|, main := HaveBoth)
    case AdjustRates => s.(main := Waiting)
  }

  // ----- What a correction achieves -----

  /** `bytes` is the longest stretch of whole frames that lasts no longer than `usec`. */
  predicate Lasts(c: Config, bytes: nat, usec: nat)
    requires ValidConfig(c)
  {
    && bytes % c.frame == 0
    && bytes / c.frame * 1_000_000 <= usec * c.rate < (bytes / c.frame + 1) * 1_000_000
  }

  lemma WholeFrames(f: nat, frame: nat)
    requires frame > 0
    ensures f * frame / frame == f && f * frame % frame == 0
  {
    OneQuotient(f * frame / frame, f * frame % frame, f, frame);
  }

  lemma OneQuotient(q: int, r: int, f: nat, frame: nat)
    requires frame > 0 && 0 <= r < frame && q * frame + r == f * frame
    ensures q == f && r == 0
  {
    assert (f - q) * frame == r;
    if f != q {
      AtLeastOne(f - q, frame);
    }
  }

  lemma AtLeastOne(d: int, frame: nat)
    requires d != 0
    ensures d * frame >= frame || d * frame <= 0 - frame
  {
  }

  lemma NotAbove(u: nat, usec: nat, rate: nat)
    requires rate > 0 && u * rate <= usec * rate
    ensures u <= usec
  {
  }

  lemma UsecToBytesLasts(c: Config, usec: nat)
    requires ValidConfig(c)
    ensures Lasts(c, UsecToBytes(c, usec), usec)
  {
    WholeFrames(usec * c.rate / 1_000_000, c.frame);
  }

  lemma LastsUnique(c: Config, a: nat, b: nat, usec: nat)
    requires ValidConfig(c) && Lasts(c, a, usec) && Lasts(c, b, usec)
    ensures a == b
  {
    assert a / c.frame == b / c.frame;
    assert a == a / c.frame * c.frame && b == b / c.frame * c.frame;
  }

  lemma BytesToUsecBounds(c: Config, bytes: nat)
    requires ValidConfig(c)
    ensures var u := BytesToUsec(c, bytes); u * c.rate <= bytes / c.frame * 1_000_000 < (u + 1) * c.rate
  {
    Quotient(bytes / c.frame * 1_000_000, c.rate);
  }

  lemma Quotient(a: nat, rate: nat)
    requires rate > 0
    ensures a / rate * rate <= a < (a / rate + 1) * rate
  {
    assert a == a / rate * rate + a % rate;
  }

  /** Rounding to frames and to microseconds costs less than a frame and a microsecond. */
  lemma LastsAlmost(c: Config, bytes: nat, usec: nat)
    requires ValidConfig(c) && Lasts(c, bytes, usec)
    ensures BytesToUsec(c, bytes) <= usec
    ensures (usec - BytesToUsec(c, bytes)) * c.rate < 1_000_000 + c.rate
  {
    var u := BytesToUsec(c, bytes);
    BytesToUsecBounds(c, bytes);
    NotAbove(u, usec, c.rate);
  }

  /** The latency that the queue is to hold: what the other parts of the path leave of
      the configured latency or the minimum, and at least one sink latency. */
  function WantedUsec(c: Config, minimum: nat, offset: int, sinkLatency: nat): (u: nat)
    ensures u >= sinkLatency && u >= c.latency - offset && u >= minimum - offset
    ensures u == sinkLatency || u + offset == c.latency || u + offset == minimum
  {
    if c.latency >= minimum && c.latency - offset >= sinkLatency then c.latency - offset
    else if minimum >= c.latency && minimum - offset >= sinkLatency then minimum - offset
    else sinkLatency
  }

  /** A correction makes the queue last exactly that long, unless prebuffering holds
      back what is too much, or silence is not allowed or swallowed by a lagging
      write index. */
  lemma CorrectionIff(c: Config, s: State, q: Queue, offset: int, env: Env, allowPush: bool, want: nat)
    requires ValidConfig(c) && Lasts(c, want, WantedUsec(c, s.minimum, offset, env.sinkLatency))
    ensures Length(Adjust(c, s, q, offset, env, allowPush)) == want
            <==> (|| Length(q) == want
                  || (Length(q) > want && !Prebuffering(q))
                  || (Length(q) < want && allowPush && q.read <= q.write))
  {
    var usec := WantedUsec(c, s.minimum, offset, env.sinkLatency);
    UsecToBytesLasts(c, usec);
    LastsUnique(c, want, UsecToBytes(c, usec), usec);
    AdjustedExactIff(q, want, allowPush);
  }

  lemma CorrectionReaches(c: Config, s: State, q: Queue, offset: int, env: Env)
    requires ValidConfig(c) && !Prebuffering(q) && q.read <= q.write
    ensures Lasts(c, Length(Adjust(c, s, q, offset, env, true)), WantedUsec(c, s.minimum, offset, env.sinkLatency))
  {
    var usec := WantedUsec(c, s.minimum, offset, env.sinkLatency);
    UsecToBytesLasts(c, usec);
    CorrectionIff(c, s, q, offset, env, true, UsecToBytes(c, usec));
  }

  /** The part of the chunk's duration that the source latency already counts. */
  function Counted(c: Config, s: State, len: nat): (u: nat)
    requires ValidConfig(c)
    ensures u <= BytesToUsec(c, len) && u <= s.effective && (u == BytesToUsec(c, len) || u == s.effective)
  {
    if s.effective < BytesToUsec(c, len) then s.effective else BytesToUsec(c, len)
  }

  /** A POST that corrects the latency: with what the source, the way and the sink
      hold, less what the chunk was counted for twice, the whole path has the
      configured latency or the minimum, up to a frame and a microsecond, whenever
      that leaves the queue one sink latency; else the queue holds just that. */
  lemma PostReaches(c: Config, s: State, len: nat, env: Env)
    requires ValidConfig(c) && Due(s.flags)
    requires var pushed := if env.fits then s.q.(write := s.q.write + len) else s.q;
             !Prebuffering(pushed) && pushed.read <= pushed.write
    ensures var queued := BytesToUsec(c, Length(HandlePost(c, s, len, env).q));
            var target := if c.latency > s.minimum then c.latency else s.minimum;
            var elsewhere := env.delay - Counted(c, s, len);
            if target - elsewhere >= env.sinkLatency
            then queued + elsewhere <= target && (target - (queued + elsewhere)) * c.rate < 1_000_000 + c.rate
            else queued <= env.sinkLatency && (env.sinkLatency - queued) * c.rate < 1_000_000 + c.rate
  {
    var pushed := if env.fits then s.q.(write := s.q.write + len) else s.q;
    var offset := env.delay - Counted(c, s, len);
    assert HandlePost(c, s, len, env).q == Adjust(c, s, pushed, offset, env, true);
    CorrectionReaches(c, s, pushed, offset, env);
    LastsAlmost(c, Length(HandlePost(c, s, len, env).q), WantedUsec(c, s.minimum, offset, env.sinkLatency));
  }

  /** The same for the message that asks for a correction outright. */
  lemma FastAdjustReaches(c: Config, s: State, offset: int, env: Env)
    requires ValidConfig(c) && Enabled(s, FastAdjust(offset, env)) && !Prebuffering(s.q) && s.q.read <= s.q.write
    ensures Lasts(c, Length(Apply(c, s, FastAdjust(offset, env)).q), WantedUsec(c, s.minimum, offset, env.sinkLatency))
  {
    CorrectionReaches(c, s, s.q, offset, env);
  }

  /** Before the first push, every pop leaves the whole latency in the queue. */
  lemma PopReaches(c: Config, s: State, taken: nat, env: Env)
    requires ValidConfig(c) && Enabled(s, Pop(taken, env)) && !s.flags.pushCalled && !Prebuffering(s.q)
    requires var rest := Drop(s.q, taken); !Prebuffering(rest) && rest.read <= rest.write
    ensures Lasts(c, Length(Apply(c, s, Pop(taken, env)).q), WantedUsec(c, s.minimum, 0, env.sinkLatency))
  {
    CorrectionReaches(c, s, Drop(s.q, taken), 0, env);
  }

  /** Before the first pop, a POST leaves no more than the latency in the queue, and
      takes away nothing when there is no more. */
  lemma TrimReaches(c: Config, s: State, len: nat, env: Env, want: nat)
    requires ValidConfig(c) && !s.flags.popCalled
    requires Lasts(c, want, WantedUsec(c, s.minimum, 0, env.sinkLatency))
    requires var pushed := if env.fits then s.q.(write := s.q.write + len) else s.q; !Prebuffering(pushed)
    ensures var pushed := if env.fits then s.q.(write := s.q.write + len) else s.q;
            Length(HandlePost(c, s, len, env).q) == if Length(pushed) > want then want else Length(pushed)
  {
    var pushed := if env.fits then s.q.(write := s.q.write + len) else s.q;
    CorrectionIff(c, s, pushed, 0, env, false, want);
    var usec := WantedUsec(c, s.minimum, 0, env.sinkLatency);
    UsecToBytesLasts(c, usec);
    LastsUnique(c, want, UsecToBytes(c, usec), usec);
  }

  function Init(q: Queue, minimum: nat, effective: nat): State {
    State([], 0, Reading, 0, 0, q, Flags(false, false, false, false), minimum, effective,
          Polling, Waiting, Snapshot(0, 0, 0), 0, 0, 0, 0, 0)
  }

  // ----- What every interleaving keeps -----

  function Delta(m: Message): int {
    if m.Post? then m.len else 0 - m.len
  }

  /** Bytes posted less bytes rewound. */
  function Net(log: seq<Message>): int {
    if log == [] then 0
    else
      var last := log[|log| - 1];
      Net(log[..|log| - 1]) + Delta(last)
  }

  lemma NetExtends(log: seq<Message>, m: Message)
    ensures Net(log + [m]) == Net(log) + Delta(m)
  {
  }

  lemma NetNext(log: seq<Message>, n: nat)
    requires n < |log|
    ensures Net(log[..n + 1]) == Net(log[..n]) + Delta(log[n])
  {
    assert log[..n + 1] == log[..n] + [log[n]];
    NetExtends(log[..n], log[n]);
  }

  lemma {:induction false} NetSplit(log: seq<Message>, n: nat)
    requires n <= |log|
    ensures Net(log) == Net(log[..n]) + Net(log[n..])
  {
    if n == |log| {
      assert log[..n] == log;
    } else {
      var front := log[..|log| - 1];
      NetSplit(front, n);
      assert front[..n] == log[..n];
      assert log[n..][..|log[n..]| - 1] == front[n..];
    }
  }

  /** Whether a correction can still come without another change. */
  function Credit(f: Flags): nat {
    if f.popCalled && f.pushCalled && !f.popAdjust then 0 else 1
  }

  ghost predicate CountersOk(s: State) {
    && s.processed <= |s.log|
    && s.send + (if s.input.Posted? then s.input.delta else 0) == Net(s.log)
    && s.recv == Net(s.log[..s.processed])
  }

  ghost predicate SnapshotOk(s: State) {
    && (!s.main.Waiting? ==>
          s.sinkAt <= |s.log| && s.snapshot.recv == Net(s.log[..s.sinkAt]) && s.snapshot.queued == s.queueAt)
    && (s.main.HaveBoth? ==> s.sinkAt <= s.sourceAt <= |s.log| && s.snapshot.send == Net(s.log[..s.sourceAt]))
  }

  ghost predicate Inv(s: State) {
    CountersOk(s) && SnapshotOk(s) && s.corrections + Credit(s.flags) <= 1 + s.changes
  }

  lemma PostingKeeps(s: State, t: State, m: Message)
    requires Inv(s) && s.input.Reading?
    requires t == s.(log := s.log + [m], input := Posted(Delta(m)))
    ensures Inv(t)
  {
    NetExtends(s.log, m);
    assert forall n :: 0 <= n <= |s.log| ==> t.log[..n] == s.log[..n];
  }

  lemma ProcessKeeps(c: Config, s: State, env: Env)
    requires ValidConfig(c) && Inv(s) && Enabled(s, Process(env))
    ensures Inv(Apply(c, s, Process(env)))
  {
    NetNext(s.log, s.processed);
  }

  lemma StepKeeps(c: Config, s: State, step: Step)
    requires ValidConfig(c) && Inv(s) && Enabled(s, step)
    ensures Inv(Apply(c, s, step))
  {
    match step
    case PostAudio(len) => PostingKeeps(s, Apply(c, s, step), Post(len));
    case PostRewind(len) => PostingKeeps(s, Apply(c, s, step), Rewind(len));
    case Process(env) => ProcessKeeps(c, s, env);
    case SourceSnapshot => assert s.log[..|s.log|] == s.log;
    case _ =>
  }

  // ----- Runs -----

  ghost predicate Runs(c: Config, s: State, steps: seq<Step>)
    requires ValidConfig(c)
    decreases |steps|
  {
    steps == [] || (Enabled(s, steps[0]) && Runs(c, Apply(c, s, steps[0]), steps[1..]))
  }

  ghost function After(c: Config, s: State, steps: seq<Step>): State
    requires ValidConfig(c) && Runs(c, s, steps)
    decreases |steps|
  {
    if steps == [] then s else After(c, Apply(c, s, steps[0]), steps[1..])
  }

  lemma {:induction false} RunKeeps(c: Config, s: State, steps: seq<Step>)
    requires ValidConfig(c) && Inv(s) && Runs(c, s, steps)
    ensures Inv(After(c, s, steps))
    decreases |steps|
  {
    if steps != [] {
      StepKeeps(c, s, steps[0]);
      RunKeeps(c, Apply(c, s, steps[0]), steps[1..]);
    }
  }

  /** In every interleaving the two counters differ by what is in flight: the
      audio that the output thread has still to take, less the rewinds. */
  lemma CountersAgree(c: Config, init: State, steps: seq<Step>)
    requires ValidConfig(c) && Inv(init) && Runs(c, init, steps)
    ensures var s := After(c, init, steps);
            && s.processed <= |s.log|
            && s.send - s.recv == Net(s.log[s.processed..]) - (if s.input.Posted? then s.input.delta else 0)
  {
    RunKeeps(c, init, steps);
    var s := After(c, init, steps);
    NetSplit(s.log, s.processed);
  }

  /** adjust_rates: the fill level worked out from the two snapshots. */
  function Buffer(p: Snapshot): nat {
    if p.recv <= p.send then p.queued + (p.send - p.recv)
    else if p.queued > p.recv - p.send then p.queued - (p.recv - p.send)
    else 0
  }

  /** What adjust_rates takes for the fill level is the queue at the sink
      snapshot plus everything posted by the source snapshot that the sink had not
      yet processed at its own, clipped at zero. */
  lemma BufferExact(c: Config, init: State, steps: seq<Step>)
    requires ValidConfig(c) && Inv(init) && Runs(c, init, steps)
    requires After(c, init, steps).main.HaveBoth?
    ensures var s := After(c, init, steps);
            && s.sinkAt <= s.sourceAt <= |s.log|
            && var level := s.queueAt + Net(s.log[s.sinkAt..s.sourceAt]);
               Buffer(s.snapshot) == if level < 0 then 0 else level
  {
    RunKeeps(c, init, steps);
    var s := After(c, init, steps);
    var sent := s.log[..s.sourceAt];
    NetSplit(sent, s.sinkAt);
    assert sent[..s.sinkAt] == s.log[..s.sinkAt];
    assert sent[s.sinkAt..] == s.log[s.sinkAt..s.sourceAt];
  }

  /** The main thread gets both snapshots whenever the two threads can answer, and
      then works with the queue as it is and all that is under way. */
  lemma SnapshotsTaken(c: Config, s: State)
    requires ValidConfig(c) && Inv(s) && s.output.Polling? && s.input.Reading? && s.main.Waiting?
    ensures Runs(c, s, [SinkSnapshot, SourceSnapshot, AdjustRates])
    ensures var t := After(c, s, [SinkSnapshot, SourceSnapshot]);
            && t.main.HaveBoth?
            && var level := Length(s.q) + Net(s.log[s.processed..]);
               Buffer(t.snapshot) == if level < 0 then 0 else level
    ensures After(c, s, [SinkSnapshot, SourceSnapshot, AdjustRates]).main.Waiting?
  {
    var s1 := Apply(c, s, SinkSnapshot);
    var s2 := Apply(c, s1, SourceSnapshot);
    StepRuns(c, s2, AdjustRates, []);
    StepRuns(c, s1, SourceSnapshot, [AdjustRates]);
    StepRuns(c, s, SinkSnapshot, [SourceSnapshot, AdjustRates]);
    StepRuns(c, s1, SourceSnapshot, []);
    StepRuns(c, s, SinkSnapshot, [SourceSnapshot]);
    BufferExact(c, s, [SinkSnapshot, SourceSnapshot]);
    assert s.log[s.processed..|s.log|] == s.log[s.processed..];
  }

  lemma InitOk(q: Queue, minimum: nat, effective: nat)
    ensures Inv(Init(q, minimum, effective))
  {
  }

  /** Over any run the corrections in POST number at most one more than the
      source changes, sink moves and sink suspends. */
  lemma CorrectionsBounded(c: Config, q: Queue, minimum: nat, effective: nat, steps: seq<Step>)
    requires ValidConfig(c) && Runs(c, Init(q, minimum, effective), steps)
    ensures var s := After(c, Init(q, minimum, effective), steps);
            s.corrections <= 1 + s.changes
  {
    InitOk(q, minimum, effective);
    RunKeeps(c, Init(q, minimum, effective), steps);
  }

  // ----- When a correction is due -----

  /** What the four flags stand for: how many pops were seen since the start or the
      last move of the sink, where two are enough, and whether something changed
      since the last correction. */
  datatype Schedule = Schedule(pops: nat, owing: bool)

  function Scheduled(f: Flags): Schedule {
    Schedule(if f.popCalled then 2 else if f.firstPopDone then 1 else 0,
             !f.popCalled || !f.pushCalled || f.popAdjust)
  }

  predicate Corrects(p: Schedule) {
    p.pops == 2 && p.owing
  }

  /** How a step changes that; `post` when it processes audio. */
  function NextSchedule(p: Schedule, step: Step, post: bool): Schedule {
    match step
    case Pop(_, _) => p.(pops := if p.pops < 2 then p.pops + 1 else 2)
    case SourceChanged => p.(owing := true)
    case SinkMoved => Schedule(0, true)
    case Process(_) => if post && Corrects(p) then p.(owing := false) else p
    case _ => p
  }

  predicate FlagsOk(f: Flags) {
    f.popCalled ==> f.firstPopDone
  }

  predicate IsPost(s: State, step: Step) {
    step.Process? && s.processed < |s.log| && s.log[s.processed].Post?
  }

  lemma StepSchedule(c: Config, s: State, step: Step)
    requires ValidConfig(c) && Enabled(s, step) && FlagsOk(s.flags)
    ensures var t := Apply(c, s, step);
            && FlagsOk(t.flags) && Scheduled(t.flags) == NextSchedule(Scheduled(s.flags), step, IsPost(s, step))
            && t.corrections == s.corrections + (if IsPost(s, step) && Corrects(Scheduled(s.flags)) then 1 else 0)
            && t.changes == s.changes + (if step.SourceChanged? || step.SinkMoved? then 1 else 0)
  {
  }

  ghost function ScheduleAfter(c: Config, s: State, p: Schedule, steps: seq<Step>): Schedule
    requires ValidConfig(c) && Runs(c, s, steps)
    decreases |steps|
  {
    if steps == [] then p
    else ScheduleAfter(c, Apply(c, s, steps[0]), NextSchedule(p, steps[0], IsPost(s, steps[0])), steps[1..])
  }

  lemma {:induction false} RunSchedule(c: Config, s: State, steps: seq<Step>)
    requires ValidConfig(c) && Runs(c, s, steps) && FlagsOk(s.flags)
    ensures FlagsOk(After(c, s, steps).flags)
    ensures Scheduled(After(c, s, steps).flags) == ScheduleAfter(c, s, Scheduled(s.flags), steps)
    decreases |steps|
  {
    if steps != [] {
      StepSchedule(c, s, steps[0]);
      RunSchedule(c, Apply(c, s, steps[0]), steps[1..]);
    }
  }

  /** In every interleaving, the flags follow the schedule: audio is processed with a
      correction exactly when two pops came since the start or the last move of the
      sink and something changed since the last correction. */
  lemma CorrectsIff(c: Config, q: Queue, minimum: nat, effective: nat, steps: seq<Step>, env: Env)
    requires ValidConfig(c) && Runs(c, Init(q, minimum, effective), steps)
    requires IsPost(After(c, Init(q, minimum, effective), steps), Process(env))
    requires Enabled(After(c, Init(q, minimum, effective), steps), Process(env))
    ensures var init := Init(q, minimum, effective);
            var s := After(c, init, steps);
            Apply(c, s, Process(env)).corrections > s.corrections
            <==> Corrects(ScheduleAfter(c, init, Schedule(0, true), steps))
  {
    var init := Init(q, minimum, effective);
    RunSchedule(c, init, steps);
    StepSchedule(c, After(c, init, steps), Process(env));
  }

  /** The latest figures that the main thread sent. */
  function LastMinimum(minimum: nat, steps: seq<Step>): nat
    decreases |steps|
  {
    if steps == [] then minimum
    else LastMinimum(if steps[0].SetMinimum? then steps[0].usec else minimum, steps[1..])
  }

  function LastEffective(effective: nat, steps: seq<Step>): nat
    decreases |steps|
  {
    if steps == [] then effective
    else LastEffective(if steps[0].SetEffective? then steps[0].usec else effective, steps[1..])
  }

  /** The output thread always works with the latest figures. */
  lemma {:induction false} SettingsHold(c: Config, s: State, steps: seq<Step>)
    requires ValidConfig(c) && Runs(c, s, steps)
    ensures After(c, s, steps).minimum == LastMinimum(s.minimum, steps)
    ensures After(c, s, steps).effective == LastEffective(s.effective, steps)
    decreases |steps|
  {
    if steps != [] {
      SettingsHold(c, Apply(c, s, steps[0]), steps[1..]);
    }
  }

  // ----- What moves the queue -----

  /** A step that may correct the length of the queue. */
  predicate MayCorrect(s: State, step: Step) {
    || step.FastAdjust?
    || (IsPost(s, step) && (Due(s.flags) || !s.flags.popCalled))
    || (step.Pop? && !s.flags.pushCalled)
  }

  /** Bytes that a step puts into the queue, less those that a rewind takes back. */
  function Stored(s: State, step: Step): int
    requires Enabled(s, step)
  {
    if IsPost(s, step) then (if step.env.fits then s.log[s.processed].len else 0)
    else if step.Process? && s.flags.pushCalled then -(s.log[s.processed].len as int)
    else 0
  }

  /** Bytes that a step plays, less those that the sink wants again. */
  function Played(s: State, step: Step): int {
    if step.Pop? && !Prebuffering(s.q) then step.taken
    else if step.SinkRewind? then -(step.bytes as int)
    else 0
  }

  lemma QueueMoves(c: Config, s: State, step: Step)
    requires ValidConfig(c) && Enabled(s, step) && !MayCorrect(s, step)
    ensures var t := Apply(c, s, step);
            && t.q.write == s.q.write + Stored(s, step) && t.q.read == s.q.read + Played(s, step)
            && t.q.prebuf == (if step.SetPrebuf? then step.prebuf else s.q.prebuf)
            && (step.Pop? && step.taken > 0 ==> (t.q.inPrebuf <==> Prebuffering(s.q)))
  {
  }

  ghost predicate NoCorrection(c: Config, s: State, steps: seq<Step>)
    requires ValidConfig(c) && Runs(c, s, steps)
    decreases |steps|
  {
    steps == [] || (!MayCorrect(s, steps[0]) && NoCorrection(c, Apply(c, s, steps[0]), steps[1..]))
  }

  /** Stored less played, over a run. */
  ghost function Balance(c: Config, s: State, steps: seq<Step>): int
    requires ValidConfig(c) && Runs(c, s, steps)
    decreases |steps|
  {
    if steps == [] then 0
    else Stored(s, steps[0]) - Played(s, steps[0]) + Balance(c, Apply(c, s, steps[0]), steps[1..])
  }

  /** Between two corrections the queue grows and shrinks by exactly what is stored,
      rewound and played. */
  lemma {:induction false} QueueConserved(c: Config, s: State, steps: seq<Step>)
    requires ValidConfig(c) && Runs(c, s, steps) && NoCorrection(c, s, steps)
    ensures var t := After(c, s, steps);
            t.q.write - t.q.read == s.q.write - s.q.read + Balance(c, s, steps)
    decreases |steps|
  {
    if steps != [] {
      QueueMoves(c, s, steps[0]);
      QueueConserved(c, Apply(c, s, steps[0]), steps[1..]);
    }
  }

  // ----- The bound is reached -----

  /** Both threads at rest, nothing in flight, and the sink started. */
  predicate Settled(s: State) {
    s.input.Reading? && s.output.Polling? && s.processed == |s.log| && s.flags.popCalled
  }

  const SOME_ENV := Env(true, 0, 0)

  /** A source change followed by one chunk costs one correction. */
  function Cycle(len: nat): seq<Step> {
    [SourceChanged, PostAudio(len), CountSent, Process(SOME_ENV)]
  }

  lemma CycleCorrects(c: Config, s: State, len: nat)
    requires ValidConfig(c) && Settled(s)
    ensures Runs(c, s, Cycle(len))
    ensures var t := After(c, s, Cycle(len));
            Settled(t) && t.corrections == s.corrections + 1 && t.changes == s.changes + 1
  {
    var s1 := Apply(c, s, SourceChanged);
    var s2 := Apply(c, s1, PostAudio(len));
    var s3 := Apply(c, s2, CountSent);
    var s4 := Apply(c, s3, Process(SOME_ENV));
    StepRuns(c, s3, Process(SOME_ENV), []);
    StepRuns(c, s2, CountSent, [Process(SOME_ENV)]);
    StepRuns(c, s1, PostAudio(len), [CountSent, Process(SOME_ENV)]);
    StepRuns(c, s, SourceChanged, [PostAudio(len), CountSent, Process(SOME_ENV)]);
  }

  lemma StepRuns(c: Config, s: State, step: Step, rest: seq<Step>)
    requires ValidConfig(c) && Enabled(s, step) && Runs(c, Apply(c, s, step), rest)
    ensures Runs(c, s, [step] + rest) && After(c, s, [step] + rest) == After(c, Apply(c, s, step), rest)
  {
  }

  lemma {:induction false} RunsJoin(c: Config, s: State, a: seq<Step>, b: seq<Step>)
    requires ValidConfig(c) && Runs(c, s, a) && Runs(c, After(c, s, a), b)
    ensures Runs(c, s, a + b) && After(c, s, a + b) == After(c, After(c, s, a), b)
    decreases |a|
  {
    if a == [] {
      assert a + b == b;
    } else {
      RunsJoin(c, Apply(c, s, a[0]), a[1..], b);
      assert (a + b)[1..] == a[1..] + b;
    }
  }

  /** For every number of changes there is a run with one correction more. */
  lemma {:induction false} BoundReached(c: Config, q: Queue, minimum: nat, effective: nat, k: nat)
    returns (steps: seq<Step>)
    requires ValidConfig(c)
    ensures Runs(c, Init(q, minimum, effective), steps)
    ensures var s := After(c, Init(q, minimum, effective), steps);
            Settled(s) && s.changes == k && s.corrections == k + 1
  {
    if k == 0 {
      steps := FirstCorrection(c, Init(q, minimum, effective));
    } else {
      var before := BoundReached(c, q, minimum, effective, k - 1);
      var s := After(c, Init(q, minimum, effective), before);
      CycleCorrects(c, s, 0);
      RunsJoin(c, Init(q, minimum, effective), before, Cycle(0));
      steps := before + Cycle(0);
    }
  }

  lemma OnePop(c: Config, s: State)
    requires ValidConfig(c) && s.output.Polling? && s.processed == |s.log|
    ensures Runs(c, s, [BeginPop, EndDrain, Pop(0, SOME_ENV)])
    ensures After(c, s, [BeginPop, EndDrain, Pop(0, SOME_ENV)])
         == FinishPop(c, s.(output := Popping), 0, SOME_ENV)
  {
    var s1 := Apply(c, s, BeginPop);
    var s2 := Apply(c, s1, EndDrain);
    StepRuns(c, s2, Pop(0, SOME_ENV), []);
    StepRuns(c, s1, EndDrain, [Pop(0, SOME_ENV)]);
    StepRuns(c, s, BeginPop, [EndDrain, Pop(0, SOME_ENV)]);
  }

  lemma OnePost(c: Config, s: State)
    requires ValidConfig(c) && Settled(s)
    ensures Runs(c, s, [PostAudio(0), CountSent, Process(SOME_ENV)])
    ensures var t := After(c, s, [PostAudio(0), CountSent, Process(SOME_ENV)]);
            Settled(t) && t.changes == s.changes
            && t.corrections == if Due(s.flags) then s.corrections + 1 else s.corrections
  {
    var s2 := Apply(c, s, PostAudio(0));
    var s3 := Apply(c, s2, CountSent);
    StepRuns(c, s3, Process(SOME_ENV), []);
    StepRuns(c, s2, CountSent, [Process(SOME_ENV)]);
    StepRuns(c, s, PostAudio(0), [CountSent, Process(SOME_ENV)]);
  }

  /** The sink's second pop and then one chunk bring the first correction. */
  lemma FirstCorrection(c: Config, s: State) returns (steps: seq<Step>)
    requires ValidConfig(c) && s.input.Reading? && s.output.Polling? && s.processed == |s.log|
    requires s.flags == Flags(false, false, false, false)
    ensures Runs(c, s, steps)
    ensures var t := After(c, s, steps);
            Settled(t) && t.changes == s.changes && t.corrections == s.corrections + 1
  {
    var pop := [BeginPop, EndDrain, Pop(0, SOME_ENV)];
    OnePop(c, s);
    var s1 := After(c, s, pop);
    OnePop(c, s1);
    var s2 := After(c, s1, pop);
    OnePost(c, s2);
    RunsJoin(c, s1, pop, [PostAudio(0), CountSent, Process(SOME_ENV)]);
    RunsJoin(c, s, pop, pop + [PostAudio(0), CountSent, Process(SOME_ENV)]);
    steps := pop + (pop + [PostAudio(0), CountSent, Process(SOME_ENV)]);
  }
}
