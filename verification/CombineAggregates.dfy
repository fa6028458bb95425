/** The request size and latency range that module-combine-sink.c publishes.

    Every output thread stores its own figures in atomics and then posts an
    UPDATE message; the sink thread answers a message by reading the atomics of
    all active outputs, one load at a time, while the output threads go on
    storing. The steps below are those single loads, stores and posts. */
module CombineAggregates {

  type Id = nat

  /** What fits the `int` atomics: requests in bytes, latencies in microseconds. */
  type int31 = n: int | 0 <= n < 0x8000_0000

  /** (pa_usec_t) -1, the "no output seen yet" mark of update_latency_range. */
  const UNSET := 0xFFFF_FFFF_FFFF_FFFF

  datatype Message = UpdateMaxRequest | UpdateLatencyRange

  /** Where an output thread is in its two update callbacks. */
  datatype WriterPc = AtRest | RequestStored | MinStored(max: int31) | RangeStored

  datatype Output = Output(request: int31, min: int31, max: int31, pc: WriterPc, outq: seq<Message>)

  /** Where the sink thread is: in update_max_request with `k` outputs read, or
      in update_latency_range with `k` minima read and `k` or `k - 1` maxima. */
  datatype SinkPc =
    | Idle
    | Requests(k: nat, acc: nat, rangeToo: bool)
    | Minima(k: nat, lo: nat, hi: nat)
    | Maxima(k: nat, lo: nat, hi: nat)

  datatype Config = Config(defaultMin: nat, defaultMax: nat)

  datatype State = State(
    outputs: map<Id, Output>,
    active: seq<Id>,
    sink: SinkPc,
    block: nat,          // block_usec, in bytes
    // what was published last
    request: nat,
    min: nat,
    max: nat,
    blockUsed: nat)      // the block size when the request was published

  datatype Step =
    | New(id: Id, o: Output)
    | Add(id: Id, request: int31, min: int31, max: int31)
    | Remove(id: Id)
    | Flush(id: Id)
    | SetBlock(bytes: nat)
    | StoreRequest(id: Id, n: int31)
    | PostRequest(id: Id)
    | StoreMin(id: Id, min: int31, max: int31)
    | StoreMax(id: Id)
    | PostRange(id: Id)
    | Take(id: Id)
    | ReadRequest
    | PublishRequest
    | ReadMin
    | ReadMax
    | PublishRange

  function Without(s: seq<Id>, id: Id): (r: seq<Id>)
    ensures forall x :: x in r <==> x in s && x != id
  {
    if s == [] then [] else if s[0] == id then Without(s[1..], id) else [s[0]] + Without(s[1..], id)
  }

  predicate Present(s: State, i: nat) {
    i < |s.active| && s.active[i] in s.outputs
  }

  predicate Enabled(s: State, step: Step) {
    match step
    case New(id, o) => id !in s.outputs && o.pc.AtRest? && o.outq == []
    case Add(id, _, _, _) => id in s.outputs && id !in s.active && s.sink.Idle? && s.outputs[id].pc.AtRest?
    case Remove(id) => id in s.active && id in s.outputs && s.sink.Idle? && s.outputs[id].pc.AtRest?
    case Flush(id) => id in s.outputs && id !in s.active
    case SetBlock(n) => s.sink.Idle?
    case StoreRequest(id, _) => id in s.outputs && s.outputs[id].pc.AtRest?
    case PostRequest(id) => id in s.outputs && s.outputs[id].pc.RequestStored?
    case StoreMin(id, _, _) => id in s.outputs && s.outputs[id].pc.AtRest?
    case StoreMax(id) => id in s.outputs && s.outputs[id].pc.MinStored?
    case PostRange(id) => id in s.outputs && s.outputs[id].pc.RangeStored?
    case Take(id) => s.sink.Idle? && id in s.active && id in s.outputs && s.outputs[id].outq != []
    case ReadRequest => s.sink.Requests? && Present(s, s.sink.k)
    case PublishRequest => s.sink.Requests? && s.sink.k == |s.active|
    case ReadMin => s.sink.Minima? && Present(s, s.sink.k)
    case ReadMax => s.sink.Maxima? && s.sink.k > 0 && Present(s, s.sink.k - 1)
    case PublishRange => s.sink.Minima? && s.sink.k == |s.active|
  }

  function Update(s: State, id: Id, o: Output): State {
    s.(outputs := s.outputs[id := o])
  }

  /** The caps at the end of update_latency_range: the greatest latency that neither
      `hi` nor the default exceeds, but never less than the minimum. */
  function CappedMax(c: Config, lo: nat, hi: nat): (max: nat)
    ensures max >= lo && (max > lo ==> max <= hi && max <= c.defaultMax)
    ensures max >= hi || max >= c.defaultMax
  {
    var capped := if hi > c.defaultMax then c.defaultMax else hi;
    if capped < lo then lo else capped
  }

  function Apply(c: Config, s: State, step: Step): State
    requires Enabled(s, step)
  {
    match step
    case New(id, o) => Update(s, id, o)
    case Add(id, request, min, max) =>
      Update(s, id, s.outputs[id].(request := request, min := min, max := max))
      .(active := [id] + s.active, sink := Requests(0, 0, true))
    case Remove(id) => s.(active := Without(s.active, id), sink := Requests(0, 0, true))
    case Flush(id) => Update(s, id, s.outputs[id].(outq := []))
    case SetBlock(n) => s.(block := n)
    case StoreRequest(id, n) =>
      var o := s.outputs[id];
      if o.request == n then s else Update(s, id, o.(request := n, pc := RequestStored))
    case PostRequest(id) =>
      var o := s.outputs[id];
      Update(s, id, o.(pc := AtRest, outq := o.outq + [UpdateMaxRequest]))
    case StoreMin(id, min, max) =>
      var o := s.outputs[id];
      if o.min == min && o.max == max then s else Update(s, id, o.(min := min, pc := MinStored(max)))
    case StoreMax(id) =>
      var o := s.outputs[id];
      Update(s, id, o.(max := o.pc.max, pc := RangeStored))
    case PostRange(id) =>
      var o := s.outputs[id];
      Update(s, id, o.(pc := AtRest, outq := o.outq + [UpdateLatencyRange]))
    case Take(id) =>
      var o := s.outputs[id];
      Update(s, id, o.(outq := o.outq[1..]))
      .(sink := if o.outq[0].UpdateMaxRequest? then Requests(0, 0, false) else Minima(0, 0, UNSET))
    case ReadRequest =>
      var n := s.outputs[s.active[s.sink.k]].request;
      s.(sink := Requests(s.sink.k + 1, if n > s.sink.acc then n else s.sink.acc, s.sink.rangeToo))
    case PublishRequest =>
      s.(request := if s.sink.acc == 0 then s.block else s.sink.acc, blockUsed := s.block,
         sink := if s.sink.rangeToo then Minima(0, 0, UNSET) else Idle)
    case ReadMin =>
      var n := s.outputs[s.active[s.sink.k]].min;
      s.(sink := Maxima(s.sink.k + 1, if n > s.sink.lo then n else s.sink.lo, s.sink.hi))
    case ReadMax =>
      var n := s.outputs[s.active[s.sink.k - 1]].max;
      s.(sink := Minima(s.sink.k, s.sink.lo, if s.sink.hi == UNSET || n < s.sink.hi then n else s.sink.hi))
    case PublishRange =>
      var lo := if s.sink.hi == UNSET then c.defaultMin else s.sink.lo;
      var hi := if s.sink.hi == UNSET then c.defaultMax else s.sink.hi;
      s.(min := lo, max := CappedMax(c, lo, hi), sink := Idle)
  }

  function Init(c: Config, block: nat): State {
    State(map[], [], Idle, block, block, c.defaultMin, CappedMax(c, c.defaultMin, c.defaultMax), block)
  }

  // ----- What the figures should be -----

  predicate RequestDirty(o: Output) {
    o.pc.RequestStored? || UpdateMaxRequest in o.outq
  }

  predicate RangeDirty(o: Output) {
    o.pc.MinStored? || o.pc.RangeStored? || UpdateLatencyRange in o.outq
  }

  predicate WellFormed(s: State) {
    forall id :: id in s.active ==> id in s.outputs
  }

  /** The active outputs as they are now. */
  function Row(s: State): seq<Output>
    requires WellFormed(s)
  {
    seq(|s.active|, i requires 0 <= i < |s.active| => s.outputs[s.active[i]])
  }

  /** No change of these outputs is still to be announced or answered. */
  predicate RequestsClean(row: seq<Output>) {
    forall i :: 0 <= i < |row| ==> !RequestDirty(row[i])
  }

  predicate RangesClean(row: seq<Output>) {
    forall i :: 0 <= i < |row| ==> !RangeDirty(row[i])
  }

  /** The greatest request, 0 when there is none. */
  predicate GreatestRequest(row: seq<Output>, m: nat) {
    && (forall i :: 0 <= i < |row| ==> row[i].request <= m)
    && (m == 0 || exists i :: 0 <= i < |row| && row[i].request == m)
  }

  predicate GreatestMin(row: seq<Output>, m: nat) {
    && (forall i :: 0 <= i < |row| ==> row[i].min <= m)
    && (m == 0 || exists i :: 0 <= i < |row| && row[i].min == m)
  }

  predicate LeastMax(row: seq<Output>, m: nat) {
    && (forall i :: 0 <= i < |row| ==> m <= row[i].max)
    && (if row == [] then m == UNSET else exists i :: 0 <= i < |row| && row[i].max == m)
  }

  /** The published request answers to these outputs. */
  ghost predicate RequestRight(row: seq<Output>, request: nat, blockUsed: nat) {
    exists m: nat :: GreatestRequest(row, m) && request == if m == 0 then blockUsed else m
  }

  /** So does the published latency range. */
  ghost predicate RangeRight(c: Config, row: seq<Output>, min: nat, max: nat) {
    if row == [] then min == c.defaultMin && max == CappedMax(c, c.defaultMin, c.defaultMax)
    else GreatestMin(row, min) && exists hi: nat :: LeastMax(row, hi) && max == CappedMax(c, min, hi)
  }

  // ----- What every interleaving keeps -----

  ghost predicate RequestOk(row: seq<Output>, request: nat, blockUsed: nat) {
    RequestsClean(row) ==> RequestRight(row, request, blockUsed)
  }

  ghost predicate RangeOk(c: Config, row: seq<Output>, min: nat, max: nat) {
    RangesClean(row) ==> RangeRight(c, row, min, max)
  }

  /** What has been read so far is right unless one of those read has changed since. */
  predicate RequestsRead(row: seq<Output>, acc: nat) {
    RequestsClean(row) ==> GreatestRequest(row, acc)
  }

  predicate MinimaRead(row: seq<Output>, lo: nat) {
    RangesClean(row) ==> GreatestMin(row, lo)
  }

  predicate MaximaRead(row: seq<Output>, hi: nat) {
    RangesClean(row) ==> LeastMax(row, hi)
  }

  ghost predicate SinkOk(c: Config, s: State, row: seq<Output>) {
    match s.sink
    case Idle => RequestOk(row, s.request, s.blockUsed) && RangeOk(c, row, s.min, s.max)
    case Requests(k, acc, rangeToo) =>
      k <= |row| && RequestsRead(row[..k], acc) && (rangeToo || RangeOk(c, row, s.min, s.max))
    case Minima(k, lo, hi) =>
      && k <= |row| && (hi == UNSET <==> k == 0) && RequestOk(row, s.request, s.blockUsed)
      && MinimaRead(row[..k], lo) && MaximaRead(row[..k], hi)
    case Maxima(k, lo, hi) =>
      && 0 < k <= |row| && (hi == UNSET <==> k == 1) && RequestOk(row, s.request, s.blockUsed)
      && MinimaRead(row[..k], lo) && MaximaRead(row[..k - 1], hi)
  }

  ghost predicate Inv(c: Config, s: State) {
    && WellFormed(s)
    && s.min <= s.max
    && SinkOk(c, s, Row(s))
  }

  /** Every request is as it was, or its change is marked. */
  predicate RequestsAnnounced(row: seq<Output>, now: seq<Output>) {
    && |row| == |now|
    && forall i :: 0 <= i < |row| ==>
         RequestDirty(now[i]) || (now[i].request == row[i].request && !RequestDirty(row[i]))
  }

  predicate RangesAnnounced(row: seq<Output>, now: seq<Output>) {
    && |row| == |now|
    && forall i :: 0 <= i < |row| ==>
         RangeDirty(now[i]) || (now[i].min == row[i].min && now[i].max == row[i].max && !RangeDirty(row[i]))
  }

  lemma RequestsSurvive(row: seq<Output>, now: seq<Output>)
    requires RequestsAnnounced(row, now)
    ensures forall m: nat :: RequestsRead(row, m) ==> RequestsRead(now, m)
    ensures forall r: nat, b: nat :: RequestOk(row, r, b) ==> RequestOk(now, r, b)
  {
    forall m: nat | RequestsClean(now) && GreatestRequest(row, m)
      ensures GreatestRequest(now, m)
    {
      if m != 0 {
        var i :| 0 <= i < |row| && row[i].request == m;
        assert now[i].request == m;
      }
    }
  }

  lemma RangeReadSurvives(row: seq<Output>, now: seq<Output>)
    requires RangesAnnounced(row, now)
    ensures forall m: nat :: MinimaRead(row, m) ==> MinimaRead(now, m)
    ensures forall m: nat :: MaximaRead(row, m) ==> MaximaRead(now, m)
  {
  }

  lemma RangeOkSurvives(c: Config, row: seq<Output>, now: seq<Output>, min: nat, max: nat)
    requires RangesAnnounced(row, now) && RangeOk(c, row, min, max)
    ensures RangeOk(c, now, min, max)
  {
  }

  /** What the sink thread knows survives every announced change. */
  lemma AnnouncedKeeps(c: Config, s: State, row: seq<Output>, now: seq<Output>)
    requires SinkOk(c, s, row) && RequestsAnnounced(row, now) && RangesAnnounced(row, now)
    ensures SinkOk(c, s, now)
  {
    RequestsSurvive(row, now);
    match s.sink
    case Idle =>
      RangeOkSurvives(c, row, now, s.min, s.max);
    case Requests(k, acc, rangeToo) =>
      RequestsSurvive(row[..k], now[..k]);
      if !rangeToo {
        RangeOkSurvives(c, row, now, s.min, s.max);
      }
    case Minima(k, lo, hi) =>
      RangeReadSurvives(row[..k], now[..k]);
    case Maxima(k, lo, hi) =>
      RangeReadSurvives(row[..k], now[..k]);
      RangeReadSurvives(row[..k - 1], now[..k - 1]);
  }

  predicate IsWriterStep(step: Step) {
    step.StoreRequest? || step.PostRequest? || step.StoreMin? || step.StoreMax? || step.PostRange?
  }

  /** Every step of an output thread is announced: a changed figure is marked
      from the store until the message is taken. */
  lemma WriterAnnounces(c: Config, s: State, step: Step)
    requires Enabled(s, step) && IsWriterStep(step) && WellFormed(s)
    ensures var t := Apply(c, s, step);
            && WellFormed(t) && t == s.(outputs := t.outputs)
            && RequestsAnnounced(Row(s), Row(t)) && RangesAnnounced(Row(s), Row(t))
  {
  }

  /** A step that touches no active output. */
  lemma InactiveKeeps(c: Config, s: State, id: Id, o: Output)
    requires Inv(c, s) && id !in s.active
    ensures Inv(c, Update(s, id, o))
  {
    assert Row(Update(s, id, o)) == Row(s);
  }

  // ----- The sink thread's steps -----

  lemma ReadRequestKeeps(c: Config, s: State)
    requires Inv(c, s) && Enabled(s, ReadRequest)
    ensures Inv(c, Apply(c, s, ReadRequest))
  {
    var row, k := Row(s), s.sink.k;
    assert row[..k + 1] == row[..k] + [row[k]];
    if RequestsClean(row[..k + 1]) {
      assert RequestsClean(row[..k]);
      RequestJoins(row[..k], row[k], s.sink.acc);
    }
  }

  lemma RequestJoins(row: seq<Output>, o: Output, acc: nat)
    requires GreatestRequest(row, acc)
    ensures GreatestRequest(row + [o], if o.request > acc then o.request else acc)
  {
    var all := row + [o];
    assert forall i :: 0 <= i < |row| ==> row[i] == all[i];
    assert all[|row|] == o;
  }

  lemma ReadMinKeeps(c: Config, s: State)
    requires Inv(c, s) && Enabled(s, ReadMin)
    ensures Inv(c, Apply(c, s, ReadMin))
  {
    var row, k := Row(s), s.sink.k;
    assert row[..k + 1] == row[..k] + [row[k]];
    if RangesClean(row[..k + 1]) {
      assert RangesClean(row[..k]);
      MinJoins(row[..k], row[k], s.sink.lo);
    }
  }

  lemma MinJoins(row: seq<Output>, o: Output, lo: nat)
    requires GreatestMin(row, lo)
    ensures GreatestMin(row + [o], if o.min > lo then o.min else lo)
  {
    var all := row + [o];
    assert forall i :: 0 <= i < |row| ==> row[i] == all[i];
    assert all[|row|] == o;
  }

  lemma ReadMaxKeeps(c: Config, s: State)
    requires Inv(c, s) && Enabled(s, ReadMax)
    ensures Inv(c, Apply(c, s, ReadMax))
  {
    var row, k := Row(s), s.sink.k - 1;
    assert row[..k + 1] == row[..k] + [row[k]];
    if RangesClean(row[..k + 1]) {
      assert RangesClean(row[..k]);
      MaxJoins(row[..k], row[k], s.sink.hi);
    }
  }

  lemma MaxJoins(row: seq<Output>, o: Output, hi: nat)
    requires LeastMax(row, hi)
    ensures LeastMax(row + [o], if hi == UNSET || o.max < hi then o.max else hi)
  {
    var all := row + [o];
    assert forall i :: 0 <= i < |row| ==> row[i] == all[i];
    assert all[|row|] == o;
  }

  lemma PublishKeeps(c: Config, s: State, step: Step)
    requires Inv(c, s) && Enabled(s, step) && (step.PublishRequest? || step.PublishRange?)
    ensures Inv(c, Apply(c, s, step))
  {
    var row := Row(s);
    assert row[..|row|] == row;
    assert Row(Apply(c, s, step)) == row;
  }

  /** Taking a message of one kind leaves the other kind's marks alone. */
  lemma TakeKeeps(c: Config, s: State, id: Id)
    requires Inv(c, s) && Enabled(s, Take(id))
    ensures Inv(c, Apply(c, s, Take(id)))
  {
    var o := s.outputs[id];
    assert o.outq == [o.outq[0]] + o.outq[1..];
    var row, now := Row(s), Row(Apply(c, s, Take(id)));
    if o.outq[0].UpdateMaxRequest? {
      assert RangesAnnounced(row, now) by { TakeAnnounces(c, s, id); }
      RangeOkSurvives(c, row, now, s.min, s.max);
    } else {
      assert RequestsAnnounced(row, now) by { TakeAnnounces(c, s, id); }
      RequestsSurvive(row, now);
    }
  }

  lemma TakeAnnounces(c: Config, s: State, id: Id)
    requires WellFormed(s) && Enabled(s, Take(id))
    ensures var now := Row(Apply(c, s, Take(id)));
            if s.outputs[id].outq[0].UpdateMaxRequest? then RangesAnnounced(Row(s), now)
            else RequestsAnnounced(Row(s), now)
  {
  }

  /** update_max_request as one loop, when no output changes under it. */
  method FoldRequests(row: seq<Output>, block: nat) returns (request: nat)
    ensures RequestRight(row, request, block)
  {
    request := 0;
    for k := 0 to |row|
      invariant GreatestRequest(row[..k], request)
    {
      RequestJoins(row[..k], row[k], request);
      assert row[..k + 1] == row[..k] + [row[k]];
      if row[k].request > request {
        request := row[k].request;
      }
    }
    assert row[..|row|] == row;
    if request == 0 {
      request := block;
    }
  }

  /** update_latency_range as one loop, when no output changes under it. */
  method FoldRanges(c: Config, row: seq<Output>) returns (min: nat, max: nat)
    ensures RangeRight(c, row, min, max) && min <= max
  {
    min, max := 0, UNSET;
    for k := 0 to |row|
      invariant GreatestMin(row[..k], min) && LeastMax(row[..k], max)
    {
      MinJoins(row[..k], row[k], min);
      MaxJoins(row[..k], row[k], max);
      assert row[..k + 1] == row[..k] + [row[k]];
      if row[k].min > min {
        min := row[k].min;
      }
      if max == UNSET || row[k].max < max {
        max := row[k].max;
      }
    }
    assert row[..|row|] == row;
    if max == UNSET {
      min, max := c.defaultMin, c.defaultMax;
    }
    if max > c.defaultMax {
      max := c.defaultMax;
    }
    if max < min {
      max := min;
    }
  }

  lemma StepKeeps(c: Config, s: State, step: Step)
    requires Inv(c, s) && Enabled(s, step)
    ensures Inv(c, Apply(c, s, step))
  {
    if IsWriterStep(step) {
      WriterAnnounces(c, s, step);
      AnnouncedKeeps(c, s, Row(s), Row(Apply(c, s, step)));
    } else {
      match step
      case New(id, o) => InactiveKeeps(c, s, id, o);
      case Add(id, _, _, _) =>
      case Remove(id) =>
      case Flush(id) => InactiveKeeps(c, s, id, s.outputs[id].(outq := []));
      case SetBlock(_) => assert Row(Apply(c, s, step)) == Row(s);
      case Take(id) => TakeKeeps(c, s, id);
      case ReadRequest => ReadRequestKeeps(c, s);
      case ReadMin => ReadMinKeeps(c, s);
      case ReadMax => ReadMaxKeeps(c, s);
      case _ => PublishKeeps(c, s, step);
    }
  }

  // ----- Runs -----

  ghost predicate Runs(c: Config, s: State, steps: seq<Step>)
    decreases |steps|
  {
    steps == [] || (Enabled(s, steps[0]) && Runs(c, Apply(c, s, steps[0]), steps[1..]))
  }

  ghost function After(c: Config, s: State, steps: seq<Step>): State
    requires Runs(c, s, steps)
    decreases |steps|
  {
    if steps == [] then s else After(c, Apply(c, s, steps[0]), steps[1..])
  }

  lemma {:induction false} RunKeeps(c: Config, s: State, steps: seq<Step>)
    requires Inv(c, s) && Runs(c, s, steps)
    ensures Inv(c, After(c, s, steps))
    decreases |steps|
  {
    if steps != [] {
      StepKeeps(c, s, steps[0]);
      RunKeeps(c, Apply(c, s, steps[0]), steps[1..]);
    }
  }

  /** In every interleaving of adds, removes and concurrent changes: once no
      change of an active output is unannounced or unanswered and the sink thread
      is at rest, what it last published is right for the outputs as they are. */
  lemma PublishedIsRight(c: Config, block: nat, steps: seq<Step>)
    requires Runs(c, Init(c, block), steps)
    ensures var s := After(c, Init(c, block), steps);
            && WellFormed(s) && s.min <= s.max
            && (s.sink.Idle? && RequestsClean(Row(s)) ==> RequestRight(Row(s), s.request, s.blockUsed))
            && (s.sink.Idle? && RangesClean(Row(s)) ==> RangeRight(c, Row(s), s.min, s.max))
  {
    assert GreatestRequest([], 0);
    assert Row(Init(c, block)) == [];
    RunKeeps(c, Init(c, block), steps);
  }

  // ----- Whose figures these are -----

  /** What an output last reported, and whether it takes part. */
  datatype Figures = Figures(request: int31, min: int31, max: int31, active: bool)

  /** The maximum of an output that has stored its minimum is on its way. */
  function FiguresOf(s: State, id: Id): Figures {
    if id in s.outputs then
      var o := s.outputs[id];
      Figures(o.request, o.min, if o.pc.MinStored? then o.pc.max else o.max, id in s.active)
    else Figures(0, 0, 0, id in s.active)
  }

  function NextFigures(f: Figures, step: Step, id: Id): Figures {
    match step
    case New(i, o) => if i == id then f.(request := o.request, min := o.min, max := o.max) else f
    case Add(i, request, min, max) => if i == id then Figures(request, min, max, true) else f
    case Remove(i) => if i == id then f.(active := false) else f
    case StoreRequest(i, n) => if i == id then f.(request := n) else f
    case StoreMin(i, min, max) => if i == id then f.(min := min, max := max) else f
    case _ => f
  }

  function FiguresAfter(f: Figures, steps: seq<Step>, id: Id): Figures
    decreases |steps|
  {
    if steps == [] then f else FiguresAfter(NextFigures(f, steps[0], id), steps[1..], id)
  }

  lemma StepFigures(c: Config, s: State, step: Step, id: Id)
    requires WellFormed(s) && Enabled(s, step)
    ensures FiguresOf(Apply(c, s, step), id) == NextFigures(FiguresOf(s, id), step, id)
  {
  }

  /** The figures that are folded are those that the outputs reported last, and the
      outputs that take part are those that were added and not removed since. */
  lemma {:induction false} FiguresFollow(c: Config, s: State, steps: seq<Step>, id: Id)
    requires Inv(c, s) && Runs(c, s, steps)
    ensures FiguresOf(After(c, s, steps), id) == FiguresAfter(FiguresOf(s, id), steps, id)
    decreases |steps|
  {
    if steps != [] {
      StepFigures(c, s, steps[0], id);
      StepKeeps(c, s, steps[0]);
      FiguresFollow(c, Apply(c, s, steps[0]), steps[1..], id);
    }
  }

  function LastBlock(block: nat, steps: seq<Step>): nat
    decreases |steps|
  {
    if steps == [] then block else LastBlock(if steps[0].SetBlock? then steps[0].bytes else block, steps[1..])
  }

  /** The block size is the one that was set last. */
  lemma {:induction false} BlockFollows(c: Config, s: State, steps: seq<Step>)
    requires Runs(c, s, steps)
    ensures After(c, s, steps).block == LastBlock(s.block, steps)
    decreases |steps|
  {
    if steps != [] {
      BlockFollows(c, Apply(c, s, steps[0]), steps[1..]);
    }
  }

  /** An output thread comes to rest by itself once it has announced its change. */
  lemma WriterRests(c: Config, s: State, id: Id) returns (steps: seq<Step>)
    requires id in s.outputs
    ensures Runs(c, s, steps) && |steps| <= 2 && forall i :: 0 <= i < |steps| ==> IsWriterStep(steps[i])
    ensures var t := After(c, s, steps);
            && id in t.outputs && t.outputs[id].pc.AtRest? && t.sink == s.sink && t.active == s.active
            && (s.outputs[id].pc.RequestStored? ==> UpdateMaxRequest in t.outputs[id].outq)
            && (s.outputs[id].pc.MinStored? || s.outputs[id].pc.RangeStored? ==>
                  UpdateLatencyRange in t.outputs[id].outq)
  {
    match s.outputs[id].pc
    case AtRest => steps := [];
    case RequestStored =>
      StepRuns(c, s, PostRequest(id), []);
      steps := [PostRequest(id)];
    case MinStored(_) =>
      StepRuns(c, Apply(c, s, StoreMax(id)), PostRange(id), []);
      StepRuns(c, s, StoreMax(id), [PostRange(id)]);
      steps := [StoreMax(id), PostRange(id)];
    case RangeStored =>
      StepRuns(c, s, PostRange(id), []);
      steps := [PostRange(id)];
  }

  // ----- The sink thread catches up -----

  predicate IsSinkStep(step: Step) {
    step.Take? || step.ReadRequest? || step.PublishRequest? || step.ReadMin? || step.ReadMax? || step.PublishRange?
  }

  /** The steps that are left of the fold. */
  function Work(s: State): int {
    var n := |s.active|;
    match s.sink
    case Idle => 0
    case Requests(k, _, rangeToo) => n - k + 1 + if rangeToo then 2 * n + 1 else 0
    case Minima(k, _, _) => 2 * (n - k) + 1
    case Maxima(k, _, _) => 2 * (n - k) + 2
  }

  lemma FoldGoesOn(c: Config, s: State) returns (step: Step)
    requires Inv(c, s) && !s.sink.Idle?
    ensures Enabled(s, step) && IsSinkStep(step)
    ensures var t := Apply(c, s, step);
            t.outputs == s.outputs && t.active == s.active && 0 <= Work(t) < Work(s)
  {
    match s.sink
    case Requests(k, _, _) => step := if k < |s.active| then ReadRequest else PublishRequest;
    case Minima(k, _, _) => step := if k < |s.active| then ReadMin else PublishRange;
    case Maxima(k, _, _) => step := ReadMax;
  }

  lemma {:induction false} FoldEnds(c: Config, s: State) returns (steps: seq<Step>)
    requires Inv(c, s) && Work(s) >= 0
    ensures Runs(c, s, steps) && forall i :: 0 <= i < |steps| ==> IsSinkStep(steps[i])
    ensures var t := After(c, s, steps);
            Inv(c, t) && t.sink.Idle? && t.outputs == s.outputs && t.active == s.active
    decreases Work(s)
  {
    if s.sink.Idle? {
      steps := [];
    } else {
      var step := FoldGoesOn(c, s);
      StepKeeps(c, s, step);
      var rest := FoldEnds(c, Apply(c, s, step));
      steps := [step] + rest;
      StepRuns(c, s, step, rest);
    }
  }

  lemma StepRuns(c: Config, s: State, step: Step, rest: seq<Step>)
    requires Enabled(s, step) && Runs(c, Apply(c, s, step), rest)
    ensures Runs(c, s, [step] + rest) && After(c, s, [step] + rest) == After(c, Apply(c, s, step), rest)
  {
  }

  lemma {:induction false} RunsJoin(c: Config, s: State, a: seq<Step>, b: seq<Step>)
    requires Runs(c, s, a) && Runs(c, After(c, s, a), b)
    ensures Runs(c, s, a + b) && After(c, s, a + b) == After(c, After(c, s, a), b)
    decreases |a|
  {
    if a == [] {
      assert a + b == b;
    } else {
      RunsJoin(c, Apply(c, s, a[0]), a[1..], b);
      assert (a + b)[1..] == a[1..] + b;
    }
  }

  /** The messages that the active outputs have sent and the sink thread has not taken. */
  function Messages(row: seq<Output>): nat {
    if row == [] then 0 else |row[0].outq| + Messages(row[1..])
  }

  lemma {:induction false} FewerMessages(a: seq<Output>, b: seq<Output>, k: nat)
    requires |a| == |b| && forall i :: 0 <= i < |a| ==> |a[i].outq| <= |b[i].outq|
    requires k < |a| ==> |a[k].outq| < |b[k].outq|
    ensures Messages(a) <= Messages(b) && (k < |a| ==> Messages(a) < Messages(b))
  {
    if a != [] {
      FewerMessages(a[1..], b[1..], if k == 0 then |a| else k - 1);
    }
  }

  /** One message answered: it is taken and its fold done. */
  lemma OneAnswered(c: Config, s: State, k: nat) returns (steps: seq<Step>)
    requires Inv(c, s) && s.sink.Idle? && k < |s.active| && s.outputs[s.active[k]].outq != []
    ensures Runs(c, s, steps) && forall i :: 0 <= i < |steps| ==> IsSinkStep(steps[i])
    ensures var t := After(c, s, steps);
            && Inv(c, t) && t.sink.Idle? && t.active == s.active && Messages(Row(t)) < Messages(Row(s))
            && forall id :: id in s.active ==> t.outputs[id].pc == s.outputs[id].pc
  {
    var take := Take(s.active[k]);
    var mid := Apply(c, s, take);
    StepKeeps(c, s, take);
    FewerMessages(Row(mid), Row(s), k);
    var rest := FoldEnds(c, mid);
    StepRuns(c, s, take, rest);
    steps := [take] + rest;
    assert Row(After(c, mid, rest)) == Row(mid);
  }

  lemma {:induction false} NoMessages(row: seq<Output>, k: nat)
    requires Messages(row) == 0 && k < |row|
    ensures row[k].outq == []
  {
    if k > 0 {
      NoMessages(row[1..], k - 1);
    }
  }

  lemma {:induction false} SomeMessage(row: seq<Output>) returns (k: nat)
    requires Messages(row) > 0
    ensures k < |row| && row[k].outq != []
  {
    if row[0].outq != [] {
      k := 0;
    } else {
      var j := SomeMessage(row[1..]);
      k := j + 1;
    }
  }

  /** From every reachable state: while the output threads rest, the sink thread alone
      comes to a state in which what is published is right for the active outputs. */
  lemma {:induction false} CatchesUp(c: Config, s: State) returns (steps: seq<Step>)
    requires Inv(c, s) && s.sink.Idle? && forall id :: id in s.active ==> s.outputs[id].pc.AtRest?
    ensures Runs(c, s, steps) && forall i :: 0 <= i < |steps| ==> IsSinkStep(steps[i])
    ensures var t := After(c, s, steps);
            && WellFormed(t) && t.active == s.active && t.sink.Idle?
            && RequestRight(Row(t), t.request, t.blockUsed) && RangeRight(c, Row(t), t.min, t.max)
    decreases Messages(Row(s))
  {
    if Messages(Row(s)) == 0 {
      steps := [];
      forall i | 0 <= i < |Row(s)|
        ensures Row(s)[i].outq == []
      {
        NoMessages(Row(s), i);
      }
    } else {
      var k := SomeMessage(Row(s));
      var first := OneAnswered(c, s, k);
      var rest := CatchesUp(c, After(c, s, first));
      RunsJoin(c, s, first, rest);
      steps := first + rest;
    }
  }
}
