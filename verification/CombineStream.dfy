/** How module-combine-sink.c replicates one rendered stream to many outputs.

    The sink thread and the output threads are steps of one state machine. An
    output that runs dry blocks in a NEED request; the sink thread renders on
    its behalf, posts each chunk to the queues of the other active outputs and
    pushes it directly into the block queue of the requesting one. */
module CombineStream {
  import opened Common

  type Bytes = seq<byte>
  type Id = nat

  const MEMBLOCKQ_MAXLENGTH := 1024 * 1024 * 16

  /** Where an output thread is in its pop callback. */
  datatype OutputPc =
    | Waiting                 // in its poll loop
    | Draining(len: nat)      // request_memblock, processing queued POSTs
    | Blocked(need: nat)      // inside the NEED send
    | Peeking(served: bool)   // about to peek; `served` when a NEED was answered

  datatype Output = Output(
    inq: seq<Bytes>,   // audio_inq: POST messages not processed yet
    q: Bytes,          // memblockq
    isOpen: bool,      // state of the slave sink
    pc: OutputPc,
    // the history since the last ADD_OUTPUT
    carry: Bytes,      // what the queues held at that moment
    start: nat,        // how much had been rendered by then
    popped: Bytes,     // what the output has played since
    lost: nat)         // how many bytes were dropped since

  /** Where the sink thread is in render_memblock. */
  datatype SinkPc =
    | Idle
    | DrainFor(o: Id, len: nat)
    | Loop(o: Id, len: nat)
    | Posting(o: Id, len: nat, chunk: Bytes, todo: seq<Id>)

  datatype State = State(
    running: bool,
    rendered: Bytes,
    active: seq<Id>,
    outputs: map<Id, Output>,
    sink: SinkPc)

  function Flat(inq: seq<Bytes>): Bytes {
    if inq == [] then [] else inq[0] + Flat(inq[1..])
  }

  function Without(s: seq<Id>, id: Id): (r: seq<Id>)
    ensures forall x :: x in r <==> x in s && x != id
    ensures Distinct(s) ==> Distinct(r)
    ensures |r| <= |s|
  {
    if s == [] then []
    else if s[0] == id then Without(s[1..], id)
    else
      assert Distinct(s) ==> s[0] !in s[1..];
      [s[0]] + Without(s[1..], id)
  }

  predicate Distinct(s: seq<Id>) {
    forall i, j :: 0 <= i < j < |s| ==> s[i] != s[j]
  }

  // ----- The handlers -----

  /** pa_memblockq_push_align: a chunk that does not fit is dropped. */
  function Push(o: Output, chunk: Bytes): Output {
    if |o.q| + |chunk| > MEMBLOCKQ_MAXLENGTH then o.(lost := o.lost + |chunk|) else o.(q := o.q + chunk)
  }

  /** SINK_INPUT_MESSAGE_POST: push the chunk, or flush when the slave sink is not opened. */
  function HandlePost(o: Output): Output
    requires o.inq != []
  {
    var rest := o.(inq := o.inq[1..]);
    if o.isOpen then Push(rest, o.inq[0])
    else rest.(q := [], lost := o.lost + |o.q| + |o.inq[0]|)
  }

  datatype Step =
    | NewOutput(id: Id)
    | AddOutput(id: Id)
    | RemoveOutput(id: Id)
    | Flush(id: Id)
    | SetOpened(id: Id, b: bool)
    | SetRunning(b: bool)
    | RenderNull(chunk: Bytes)
    | ProcessPost(id: Id)              // from the output's poll loop
    | StartPop(id: Id, nbytes: nat)
    | DrainOne(id: Id)
    | DrainDone(id: Id)
    | Peek(id: Id, n: nat)
    | TakeNeed(id: Id)                 // the sink thread receives NEED
    | SinkDrainOne
    | SinkDrainDone
    | Render(chunk: Bytes)
    | PostOne
    | PushDirect
    | ReplyNeed

  predicate Enabled(s: State, step: Step) {
    match step
    case NewOutput(id) => id !in s.outputs
    case AddOutput(id) => id in s.outputs && id !in s.active && s.sink.Idle? && s.outputs[id].pc.Waiting?
    case RemoveOutput(id) => id in s.active && id in s.outputs && s.sink.Idle? && s.outputs[id].pc.Waiting?
    case Flush(id) => id in s.outputs && id !in s.active
    case SetOpened(id, b) => id in s.outputs && s.outputs[id].pc.Waiting?
    case SetRunning(b) => s.sink.Idle?
    case RenderNull(chunk) => s.sink.Idle? && s.active == []
    case ProcessPost(id) => id in s.outputs && s.outputs[id].pc.Waiting? && s.outputs[id].inq != []
    case StartPop(id, nbytes) => id in s.outputs && id in s.active && s.outputs[id].pc.Waiting?
    case DrainOne(id) => id in s.outputs && s.outputs[id].pc.Draining? && s.outputs[id].inq != []
    case DrainDone(id) => id in s.outputs && s.outputs[id].pc.Draining? && s.outputs[id].inq == []
    case Peek(id, n) =>
      && id in s.outputs && s.outputs[id].pc.Peeking?
      && (if s.outputs[id].q == [] then n == 0 else 1 <= n <= |s.outputs[id].q|)
    case TakeNeed(id) => s.sink.Idle? && id in s.outputs && s.outputs[id].pc.Blocked?
    case SinkDrainOne => s.sink.DrainFor? && s.sink.o in s.outputs && s.outputs[s.sink.o].inq != []
    case SinkDrainDone => s.sink.DrainFor? && s.sink.o in s.outputs && s.outputs[s.sink.o].inq == []
    case Render(chunk) =>
      && s.sink.Loop? && s.sink.o in s.outputs && s.outputs[s.sink.o].q == []
      && 0 < |chunk| <= MEMBLOCKQ_MAXLENGTH
    case PostOne => s.sink.Posting? && s.sink.todo != [] && s.sink.todo[0] in s.outputs
    case PushDirect => s.sink.Posting? && s.sink.todo == [] && s.sink.o in s.outputs
    case ReplyNeed => s.sink.Loop? && s.sink.o in s.outputs && s.outputs[s.sink.o].q != []
  }

  function Update(s: State, id: Id, o: Output): State {
    s.(outputs := s.outputs[id := o])
  }

  function Apply(s: State, step: Step): State
    requires Enabled(s, step)
  {
    match step
    case NewOutput(id) => Update(s, id, Output([], [], false, Waiting, [], |s.rendered|, [], 0))
    case AddOutput(id) =>
      var o := s.outputs[id];
      Update(s, id, o.(carry := o.q + Flat(o.inq), start := |s.rendered|, popped := [], lost := 0))
      .(active := [id] + s.active)
    case RemoveOutput(id) => s.(active := Without(s.active, id))
    case Flush(id) => Update(s, id, s.outputs[id].(q := [], inq := []))
    case SetOpened(id, b) => Update(s, id, s.outputs[id].(isOpen := b))
    case SetRunning(b) => s.(running := b)
    case RenderNull(chunk) => s.(rendered := s.rendered + chunk)
    case ProcessPost(id) => Update(s, id, HandlePost(s.outputs[id]))
    case StartPop(id, nbytes) => Update(s, id, s.outputs[id].(pc := Draining(nbytes)))
    case DrainOne(id) => Update(s, id, HandlePost(s.outputs[id]))
    case DrainDone(id) =>
      var o := s.outputs[id];
      Update(s, id, o.(pc := if o.q == [] && s.running then Blocked(o.pc.len) else Peeking(false)))
    case Peek(id, n) =>
      var o := s.outputs[id];
      Update(s, id, o.(popped := o.popped + o.q[..n], q := o.q[n..], pc := Waiting))
    case TakeNeed(id) =>
      if s.running then s.(sink := DrainFor(id, s.outputs[id].pc.need))
      else Update(s, id, s.outputs[id].(pc := Peeking(false)))
    case SinkDrainOne => Update(s, s.sink.o, HandlePost(s.outputs[s.sink.o]))
    case SinkDrainDone => s.(sink := Loop(s.sink.o, s.sink.len))
    case Render(chunk) =>
      s.(rendered := s.rendered + chunk, sink := Posting(s.sink.o, s.sink.len, chunk, Without(s.active, s.sink.o)))
    case PostOne =>
      var j := s.sink.todo[0];
      Update(s, j, s.outputs[j].(inq := s.outputs[j].inq + [s.sink.chunk]))
      .(sink := s.sink.(todo := s.sink.todo[1..]))
    case PushDirect =>
      Update(s, s.sink.o, Push(s.outputs[s.sink.o], s.sink.chunk)).(sink := Loop(s.sink.o, s.sink.len))
    case ReplyNeed => Update(s, s.sink.o, s.outputs[s.sink.o].(pc := Peeking(true))).(sink := Idle)
  }

  const Init := State(false, [], [], map[], Idle)

  // ----- What every interleaving keeps -----

  /** The chunk that is rendered but not yet handed to the output. */
  function Pending(s: State, id: Id): Bytes {
    if s.sink.Posting? && (id == s.sink.o || id in s.sink.todo) then s.sink.chunk else []
  }

  /** What the output has played, holds, and has under way. */
  function Delivered(s: State, id: Id): Bytes
    requires id in s.outputs
  {
    s.outputs[id].popped + s.outputs[id].q + Flat(s.outputs[id].inq) + Pending(s, id)
  }

  /** What it should have: what it held when it joined, and all that was rendered since. */
  function Owed(s: State, id: Id): Bytes
    requires id in s.outputs && s.outputs[id].start <= |s.rendered|
  {
    s.outputs[id].carry + s.rendered[s.outputs[id].start..]
  }

  ghost predicate Conserved(s: State, id: Id)
    requires id in s.outputs
  {
    && s.outputs[id].start <= |s.rendered|
    && |Delivered(s, id)| + s.outputs[id].lost == |Owed(s, id)|
    && (s.outputs[id].lost == 0 ==> Delivered(s, id) == Owed(s, id))
  }

  ghost predicate OutputOk(s: State, id: Id)
    requires id in s.outputs
  {
    var o := s.outputs[id];
    && (id in s.active ==> Conserved(s, id))
    && (id !in s.active ==> o.pc.Waiting?)
    && (o.pc == Peeking(true) ==> o.q != [])
    && NoEmptyPost(o.inq)
  }

  /** Only rendered chunks are posted, and those are never empty. */
  ghost predicate NoEmptyPost(inq: seq<Bytes>) {
    forall i :: 0 <= i < |inq| ==> inq[i] != []
  }

  ghost predicate SinkOk(s: State) {
    match s.sink
    case Idle => true
    case DrainFor(o, _) => o in s.active && o in s.outputs && s.outputs[o].pc.Blocked?
    case Loop(o, _) => o in s.active && o in s.outputs && s.outputs[o].pc.Blocked? && s.outputs[o].inq == []
    case Posting(o, _, chunk, todo) =>
      && o in s.active && o in s.outputs && s.outputs[o].pc.Blocked?
      && s.outputs[o].inq == [] && s.outputs[o].q == []
      && 0 < |chunk| <= MEMBLOCKQ_MAXLENGTH
      && Distinct(todo) && o !in todo && forall j :: j in todo ==> j in s.active
  }

  ghost predicate Inv(s: State) {
    && Distinct(s.active)
    && (forall id :: id in s.active ==> id in s.outputs)
    && SinkOk(s)
    && forall id :: id in s.outputs ==> OutputOk(s, id)
  }

  lemma {:induction false} FlatAppend(inq: seq<Bytes>, chunk: Bytes)
    ensures Flat(inq + [chunk]) == Flat(inq) + chunk
  {
    if inq == [] {
      assert Flat([chunk]) == chunk;
    } else {
      assert (inq + [chunk])[1..] == inq[1..] + [chunk];
      FlatAppend(inq[1..], chunk);
    }
  }

  /** Handling a POST moves its bytes into the block queue or drops them. */
  lemma HandlePostConserves(o: Output)
    requires o.inq != []
    ensures var h := HandlePost(o);
            && h.popped == o.popped && h.carry == o.carry && h.start == o.start && h.pc == o.pc
            && |h.q| + |Flat(h.inq)| + h.lost == |o.q| + |Flat(o.inq)| + o.lost
            && h.lost >= o.lost
            && (h.lost == o.lost ==> h.q + Flat(h.inq) == o.q + Flat(o.inq))
            && (!o.isOpen ==> h.q == [])
            && (o.isOpen && h.lost > o.lost ==> h.q == o.q && h.lost == o.lost + |o.inq[0]|)
  {
  }

  /** A step that only touches one output has to answer for that output alone. */
  lemma LocalStep(s: State, id: Id, o: Output)
    requires Inv(s) && id in s.outputs
    requires OutputOk(Update(s, id, o), id) && SinkOk(Update(s, id, o))
    ensures Inv(Update(s, id, o))
  {
  }

  /** Regrouping what an output has, around its two queues. */
  lemma DeliveredParts(s: State, id: Id)
    requires id in s.outputs
    ensures var o := s.outputs[id];
            Delivered(s, id) == o.popped + (o.q + Flat(o.inq)) + Pending(s, id)
  {
  }

  lemma PostConserves(s: State, id: Id)
    requires id in s.outputs && s.outputs[id].inq != [] && Conserved(s, id)
    ensures Conserved(Update(s, id, HandlePost(s.outputs[id])), id)
  {
    var t := Update(s, id, HandlePost(s.outputs[id]));
    HandlePostConserves(s.outputs[id]);
    DeliveredParts(s, id);
    DeliveredParts(t, id);
    assert Pending(t, id) == Pending(s, id);
  }

  lemma PostHandled(s: State, id: Id)
    requires Inv(s) && id in s.outputs && s.outputs[id].inq != []
    requires s.outputs[id].pc != Peeking(true)
    requires !(s.sink.Loop? || s.sink.Posting?) || s.sink.o != id
    ensures Inv(Update(s, id, HandlePost(s.outputs[id])))
  {
    var h := HandlePost(s.outputs[id]);
    assert h.pc == s.outputs[id].pc;
    assert OutputOk(s, id);
    if id in s.active {
      PostConserves(s, id);
    }
    assert SinkOk(Update(s, id, h));
    LocalStep(s, id, h);
  }

  lemma PeekConserves(s: State, id: Id, n: nat)
    requires id in s.outputs && n <= |s.outputs[id].q|
    ensures var o := s.outputs[id];
            var h := o.(popped := o.popped + o.q[..n], q := o.q[n..], pc := Waiting);
            Delivered(Update(s, id, h), id) == Delivered(s, id)
  {
  }

  lemma PeekKeeps(s: State, id: Id, n: nat)
    requires Inv(s) && Enabled(s, Peek(id, n))
    ensures Inv(Apply(s, Peek(id, n)))
  {
    var o := s.outputs[id];
    var h := o.(popped := o.popped + o.q[..n], q := o.q[n..], pc := Waiting);
    assert OutputOk(s, id);
    PeekConserves(s, id, n);
    LocalStep(s, id, h);
  }

  /** Output-thread steps that change neither queue nor history. */
  lemma ControlKeeps(s: State, id: Id, o: Output)
    requires Inv(s) && id in s.outputs
    requires o.q == s.outputs[id].q && o.inq == s.outputs[id].inq && o.carry == s.outputs[id].carry
    requires o.start == s.outputs[id].start && o.popped == s.outputs[id].popped && o.lost == s.outputs[id].lost
    requires id !in s.active ==> o.pc.Waiting?
    requires o.pc == Peeking(true) ==> o.q != []
    requires s.sink.Idle? || s.sink.o != id || o.pc.Blocked?
    ensures Inv(Update(s, id, o))
  {
    assert OutputOk(s, id);
    assert Delivered(Update(s, id, o), id) == Delivered(s, id);
    LocalStep(s, id, o);
  }

  lemma RenderKeeps(s: State, chunk: Bytes)
    requires Inv(s) && Enabled(s, Render(chunk))
    ensures Inv(Apply(s, Render(chunk)))
  {
    var t := Apply(s, Render(chunk));
    forall id | id in t.outputs
      ensures OutputOk(t, id)
    {
      assert OutputOk(s, id);
      if id in s.active {
        assert Pending(s, id) == [] && Pending(t, id) == chunk;
        assert Delivered(t, id) == Delivered(s, id) + chunk;
        assert Owed(t, id) == Owed(s, id) + chunk;
      }
    }
  }

  lemma PostKeeps(s: State)
    requires Inv(s) && Enabled(s, PostOne)
    ensures Inv(Apply(s, PostOne))
  {
    var t := Apply(s, PostOne);
    var j := s.sink.todo[0];
    FlatAppend(s.outputs[j].inq, s.sink.chunk);
    assert s.sink.todo == [j] + t.sink.todo;
    assert j !in t.sink.todo;
    forall id | id in t.outputs
      ensures OutputOk(t, id)
    {
      assert OutputOk(s, id);
      if id == j {
        assert Pending(s, id) == s.sink.chunk && Pending(t, id) == [];
        assert Delivered(t, id) == Delivered(s, id);
      } else {
        assert Pending(s, id) == Pending(t, id);
        assert Delivered(t, id) == Delivered(s, id);
      }
    }
  }

  /** The direct push cannot overtake a POST: the requesting output's queue was
      drained before the first chunk was rendered, and only the sink thread,
      which skips the requesting output, posts to it. */
  lemma PushDirectKeeps(s: State)
    requires Inv(s) && Enabled(s, PushDirect)
    ensures s.outputs[s.sink.o].inq == []
    ensures Inv(Apply(s, PushDirect))
    ensures Apply(s, PushDirect).outputs[s.sink.o].q != []
  {
    var t := Apply(s, PushDirect);
    forall id | id in t.outputs
      ensures OutputOk(t, id)
    {
      assert OutputOk(s, id);
      assert Delivered(t, id) == Delivered(s, id);
    }
  }

  lemma AddKeeps(s: State, id: Id)
    requires Inv(s) && Enabled(s, AddOutput(id))
    ensures Inv(Apply(s, AddOutput(id)))
  {
    var t := Apply(s, AddOutput(id));
    forall j | j in t.outputs
      ensures OutputOk(t, j)
    {
      assert OutputOk(s, j);
      if j != id {
        assert j in t.active <==> j in s.active;
        assert Delivered(t, j) == Delivered(s, j);
      } else {
        assert t.rendered[|t.rendered|..] == [];
        assert Delivered(t, j) == t.outputs[j].carry == Owed(t, j);
      }
    }
  }

  lemma RemoveKeeps(s: State, id: Id)
    requires Inv(s) && Enabled(s, RemoveOutput(id))
    ensures Inv(Apply(s, RemoveOutput(id)))
  {
  }

  lemma RenderNullKeeps(s: State, chunk: Bytes)
    requires Inv(s) && Enabled(s, RenderNull(chunk))
    ensures Inv(Apply(s, RenderNull(chunk)))
  {
  }

  /** Steps that change only where a thread is. */
  lemma SinkMoves(s: State, t: State)
    requires Inv(s) && t.outputs == s.outputs && t.active == s.active && t.rendered == s.rendered
    requires !s.sink.Posting? && !t.sink.Posting? && SinkOk(t)
    ensures Inv(t)
  {
  }

  lemma NewKeeps(s: State, id: Id)
    requires Inv(s) && Enabled(s, NewOutput(id))
    ensures Inv(Apply(s, NewOutput(id)))
  {
  }

  lemma StepKeeps(s: State, step: Step)
    requires Inv(s) && Enabled(s, step)
    ensures Inv(Apply(s, step))
  {
    match step
    case NewOutput(id) => NewKeeps(s, id);
    case AddOutput(id) => AddKeeps(s, id);
    case RemoveOutput(id) => RemoveKeeps(s, id);
    case Flush(id) =>
      assert OutputOk(s, id);
      LocalStep(s, id, s.outputs[id].(q := [], inq := []));
    case SetOpened(id, b) => ControlKeeps(s, id, s.outputs[id].(isOpen := b));
    case SetRunning(b) => SinkMoves(s, Apply(s, step));
    case RenderNull(chunk) => RenderNullKeeps(s, chunk);
    case ProcessPost(id) => PostHandled(s, id);
    case StartPop(id, nbytes) => ControlKeeps(s, id, s.outputs[id].(pc := Draining(nbytes)));
    case DrainOne(id) => PostHandled(s, id);
    case DrainDone(id) =>
      var o := s.outputs[id];
      assert OutputOk(s, id);
      ControlKeeps(s, id, o.(pc := if o.q == [] && s.running then Blocked(o.pc.len) else Peeking(false)));
    case Peek(id, n) => PeekKeeps(s, id, n);
    case TakeNeed(id) =>
      assert OutputOk(s, id);
      if s.running {
        SinkMoves(s, Apply(s, step));
      } else {
        ControlKeeps(s, id, s.outputs[id].(pc := Peeking(false)));
      }
    case SinkDrainOne => PostHandled(s, s.sink.o);
    case SinkDrainDone => SinkMoves(s, Apply(s, step));
    case Render(chunk) => RenderKeeps(s, chunk);
    case PostOne => PostKeeps(s);
    case PushDirect => PushDirectKeeps(s);
    case ReplyNeed =>
      var idle := s.(sink := Idle);
      SinkMoves(s, idle);
      ControlKeeps(idle, s.sink.o, s.outputs[s.sink.o].(pc := Peeking(true)));
  }

  // ----- Runs -----

  /** Any interleaving: a sequence of steps, each enabled where it is taken. */
  ghost predicate Runs(s: State, steps: seq<Step>)
    decreases |steps|
  {
    steps == [] || (Enabled(s, steps[0]) && Runs(Apply(s, steps[0]), steps[1..]))
  }

  ghost function After(s: State, steps: seq<Step>): State
    requires Runs(s, steps)
    decreases |steps|
  {
    if steps == [] then s else After(Apply(s, steps[0]), steps[1..])
  }

  lemma {:induction false} RunKeeps(s: State, steps: seq<Step>)
    requires Inv(s) && Runs(s, steps)
    ensures Inv(After(s, steps))
    decreases |steps|
  {
    if steps != [] {
      StepKeeps(s, steps[0]);
      RunKeeps(Apply(s, steps[0]), steps[1..]);
    }
  }

  /** In every interleaving, what an active output has played, then its block
      queue, then its queued POSTs, are exactly the stream rendered since it
      joined, if and only if nothing was dropped on the way; what is missing
      otherwise is exactly what was dropped. */
  lemma StreamExact(steps: seq<Step>, id: Id)
    requires Runs(Init, steps)
    requires id in After(Init, steps).active
    ensures var s := After(Init, steps);
            && id in s.outputs && s.outputs[id].start <= |s.rendered|
            && (s.outputs[id].lost == 0 <==> Delivered(s, id) == Owed(s, id))
            && |Delivered(s, id)| + s.outputs[id].lost == |Owed(s, id)|
  {
    RunKeeps(Init, steps);
    var s := After(Init, steps);
    assert OutputOk(s, id);
  }

  /** Two outputs that joined with empty queues and dropped nothing play the
      same byte at every position of the rendered stream that both have reached. */
  lemma OutputsAgree(steps: seq<Step>, a: Id, b: Id, p: nat)
    requires Runs(Init, steps)
    requires var s := After(Init, steps);
             && a in s.active && b in s.active && a in s.outputs && b in s.outputs
             && s.outputs[a].carry == [] == s.outputs[b].carry
             && s.outputs[a].lost == 0 == s.outputs[b].lost
             && s.outputs[a].start <= p < s.outputs[a].start + |s.outputs[a].popped|
             && s.outputs[b].start <= p < s.outputs[b].start + |s.outputs[b].popped|
    ensures var s := After(Init, steps);
            s.outputs[a].popped[p - s.outputs[a].start] == s.outputs[b].popped[p - s.outputs[b].start]
  {
    PlaysRendered(steps, a, p);
    PlaysRendered(steps, b, p);
  }

  lemma PlaysRendered(steps: seq<Step>, id: Id, p: nat)
    requires Runs(Init, steps)
    requires var s := After(Init, steps);
             && id in s.active && id in s.outputs && s.outputs[id].carry == [] && s.outputs[id].lost == 0
             && s.outputs[id].start <= p < s.outputs[id].start + |s.outputs[id].popped|
    ensures var s := After(Init, steps);
            p < |s.rendered| && s.outputs[id].popped[p - s.outputs[id].start] == s.rendered[p]
  {
    StreamExact(steps, id);
    var s := After(Init, steps);
    var o := s.outputs[id];
    var k := p - o.start;
    assert Delivered(s, id)[k] == o.popped[k];
    assert Owed(s, id) == s.rendered[o.start..];
    assert Owed(s, id)[k] == s.rendered[o.start + k];
  }

  /** An answered NEED always finds something to play. */
  lemma ServedNeedHasData(steps: seq<Step>, id: Id)
    requires Runs(Init, steps)
    requires id in After(Init, steps).outputs && After(Init, steps).outputs[id].pc == Peeking(true)
    ensures After(Init, steps).outputs[id].q != []
  {
    RunKeeps(Init, steps);
    assert OutputOk(After(Init, steps), id);
  }

  /** An output about to play has nothing to play. */
  predicate Starved(s: State, id: Id) {
    id in s.outputs && s.outputs[id].pc.Peeking? && s.outputs[id].q == []
  }

  /** While the sink runs, no output comes to that: it asks for more first, and
      waits until there is something. */
  lemma StarvesOnlyWhenStopped(s: State, step: Step, id: Id)
    requires Inv(s) && Enabled(s, step) && !Starved(s, id) && Starved(Apply(s, step), id)
    ensures !s.running
  {
  }

  // ----- Exactly when nothing is lost -----

  /** The steps in which a POST is taken from the output's queue. */
  predicate TakesPost(s: State, step: Step, id: Id) {
    step == ProcessPost(id) || step == DrainOne(id) || (step == SinkDrainOne && s.sink.DrainFor? && s.sink.o == id)
  }

  /** A POST that is taken finds its slave sink opened and room in the block queue. */
  predicate PostFits(s: State, step: Step, id: Id) {
    TakesPost(s, step, id) && id in s.outputs && s.outputs[id].inq != [] ==>
      s.outputs[id].isOpen && |s.outputs[id].q| + |s.outputs[id].inq[0]| <= MEMBLOCKQ_MAXLENGTH
  }

  /** The output neither joins nor leaves. */
  predicate Stays(step: Step, id: Id) {
    step != AddOutput(id) && step != RemoveOutput(id)
  }

  lemma PostLossIff(o: Output)
    requires o.inq != [] && o.inq[0] != []
    ensures HandlePost(o).lost >= o.lost
    ensures HandlePost(o).lost == o.lost <==> o.isOpen && |o.q| + |o.inq[0]| <= MEMBLOCKQ_MAXLENGTH
  {
  }

  /** The direct push goes into an empty queue. */
  lemma DirectPushFits(s: State, id: Id)
    requires Inv(s) && Enabled(s, PushDirect) && id in s.active
    ensures var t := Apply(s, PushDirect); id in t.active && id in t.outputs && t.outputs[id].lost == s.outputs[id].lost
  {
  }

  lemma NoLossElsewhere(s: State, step: Step, id: Id)
    requires Inv(s) && Enabled(s, step) && id in s.active && Stays(step, id) && !TakesPost(s, step, id)
    ensures id in Apply(s, step).active && id in Apply(s, step).outputs
    ensures Apply(s, step).outputs[id].lost == s.outputs[id].lost
  {
    if step.PushDirect? {
      DirectPushFits(s, id);
    }
  }

  /** Bytes of an active output are dropped by exactly the POSTs that do not fit. */
  lemma LossIff(s: State, step: Step, id: Id)
    requires Inv(s) && Enabled(s, step) && id in s.active && Stays(step, id)
    ensures id in Apply(s, step).active && id in Apply(s, step).outputs
    ensures Apply(s, step).outputs[id].lost >= s.outputs[id].lost
    ensures Apply(s, step).outputs[id].lost == s.outputs[id].lost <==> PostFits(s, step, id)
  {
    if TakesPost(s, step, id) {
      assert OutputOk(s, id);
      PostLossIff(s.outputs[id]);
      assert Apply(s, step) == Update(s, id, HandlePost(s.outputs[id]));
    } else {
      NoLossElsewhere(s, step, id);
    }
  }

  ghost predicate PostsFit(s: State, steps: seq<Step>, id: Id)
    requires Runs(s, steps)
    decreases |steps|
  {
    steps == [] || (PostFits(s, steps[0], id) && PostsFit(Apply(s, steps[0]), steps[1..], id))
  }

  lemma {:induction false} NothingLostIff(s: State, steps: seq<Step>, id: Id)
    requires Inv(s) && Runs(s, steps) && id in s.active && forall i :: 0 <= i < |steps| ==> Stays(steps[i], id)
    ensures id in After(s, steps).active && id in After(s, steps).outputs
    ensures After(s, steps).outputs[id].lost >= s.outputs[id].lost
    ensures After(s, steps).outputs[id].lost == s.outputs[id].lost <==> PostsFit(s, steps, id)
    decreases |steps|
  {
    if steps != [] {
      var t := Apply(s, steps[0]);
      LossIff(s, steps[0], id);
      StepKeeps(s, steps[0]);
      assert forall i :: 0 <= i < |steps[1..]| ==> steps[1..][i] == steps[i + 1];
      NothingLostIff(t, steps[1..], id);
    }
  }

  lemma {:induction false} RunSplits(s: State, steps: seq<Step>, k: nat)
    requires Runs(s, steps) && k <= |steps|
    ensures Runs(s, steps[..k]) && Runs(After(s, steps[..k]), steps[k..])
    ensures After(s, steps) == After(After(s, steps[..k]), steps[k..])
    decreases k
  {
    if k == 0 {
      assert steps[..0] == [] && steps[0..] == steps;
    } else {
      RunSplits(Apply(s, steps[0]), steps[1..], k - 1);
      assert steps[..k][1..] == steps[1..][..k - 1];
      assert steps[1..][k - 1..] == steps[k..];
    }
  }

  lemma AddStartsAnew(s: State, id: Id)
    requires Enabled(s, AddOutput(id))
    ensures var t := Apply(s, AddOutput(id));
            id in t.active && id in t.outputs && t.outputs[id].lost == 0 && t.outputs[id].popped == []
  {
  }

  /** Joining starts the account of an output anew. */
  lemma JoinsExact(steps: seq<Step>, id: Id, k: nat)
    requires k < |steps| && Runs(Init, steps) && steps[k] == AddOutput(id)
    ensures Runs(Init, steps[..k + 1])
    ensures var s := After(Init, steps[..k + 1]);
            && Inv(s) && id in s.active && id in s.outputs && s.outputs[id].lost == 0
            && s.outputs[id].popped == []
  {
    RunSplits(Init, steps, k + 1);
    var joined := steps[..k + 1];
    RunSplits(Init, joined, k);
    RunKeeps(Init, joined);
    assert joined[k..] == [AddOutput(id)];
    var before := After(Init, joined[..k]);
    assert After(before, [AddOutput(id)]) == Apply(before, AddOutput(id));
    AddStartsAnew(before, id);
  }

  /** In every interleaving, for an output that joined at step `k` and has stayed:
      what it played, holds and has under way is exactly the stream since then, if
      and only if every POST taken for it found its slave sink opened and room in
      its block queue. */
  lemma StreamExactIff(steps: seq<Step>, id: Id, k: nat)
    requires k < |steps| && Runs(Init, steps) && steps[k] == AddOutput(id)
    requires forall i :: k < i < |steps| ==> Stays(steps[i], id)
    ensures Runs(Init, steps[..k + 1]) && Runs(After(Init, steps[..k + 1]), steps[k + 1..])
    ensures var s := After(Init, steps);
            && id in s.active && id in s.outputs && s.outputs[id].start <= |s.rendered|
            && (Delivered(s, id) == Owed(s, id) <==> PostsFit(After(Init, steps[..k + 1]), steps[k + 1..], id))
  {
    JoinsExact(steps, id, k);
    RunSplits(Init, steps, k + 1);
    var joined, rest := After(Init, steps[..k + 1]), steps[k + 1..];
    assert forall i :: 0 <= i < |rest| ==> rest[i] == steps[k + 1 + i];
    NothingLostIff(joined, rest, id);
    StreamExact(steps, id);
  }

  // ----- What is held after a loss -----

  /** What the output holds and has under way. */
  function Held(s: State, id: Id): Bytes
    requires id in s.outputs
  {
    s.outputs[id].q + Flat(s.outputs[id].inq) + Pending(s, id)
  }

  /** What the output holds is the latest part of the stream. */
  ghost predicate Current(s: State, id: Id) {
    && id in s.outputs && s.outputs[id].start <= |s.rendered|
    && Suffix(Held(s, id), Owed(s, id))
  }

  predicate Suffix(x: Bytes, y: Bytes) {
    |x| <= |y| && y[|y| - |x|..] == x
  }

  lemma SuffixDrops(x: Bytes, y: Bytes, n: nat)
    requires Suffix(x, y) && n <= |x|
    ensures Suffix(x[n..], y)
  {
  }

  lemma SuffixGrows(x: Bytes, y: Bytes, more: Bytes)
    requires Suffix(x, y)
    ensures Suffix(x + more, y + more)
  {
  }

  /** A POST that finds the sink opened but no room. */
  predicate Overflows(s: State, step: Step, id: Id) {
    && TakesPost(s, step, id) && id in s.outputs && s.outputs[id].inq != []
    && s.outputs[id].isOpen && |s.outputs[id].q| + |s.outputs[id].inq[0]| > MEMBLOCKQ_MAXLENGTH
  }

  /** Whatever happens to a POST that does not overflow, what remains is the end
      of what was there. */
  lemma PostDropsFront(o: Output)
    requires o.inq != [] && !(o.isOpen && |o.q| + |o.inq[0]| > MEMBLOCKQ_MAXLENGTH)
    ensures var h := HandlePost(o); Suffix(h.q + Flat(h.inq), o.q + Flat(o.inq))
  {
    assert o.q + Flat(o.inq) == (o.q + o.inq[0]) + Flat(o.inq[1..]);
  }

  lemma SuffixTransitive(x: Bytes, y: Bytes, z: Bytes)
    requires Suffix(x, y) && Suffix(y, z)
    ensures Suffix(x, z)
  {
  }

  lemma PostCurrent(s: State, id: Id)
    requires Current(s, id) && s.outputs[id].inq != []
    requires !(s.outputs[id].isOpen && |s.outputs[id].q| + |s.outputs[id].inq[0]| > MEMBLOCKQ_MAXLENGTH)
    ensures Current(Update(s, id, HandlePost(s.outputs[id])), id)
  {
    var o := s.outputs[id];
    var h := HandlePost(o);
    PostDropsFront(o);
    SuffixGrows(h.q + Flat(h.inq), o.q + Flat(o.inq), Pending(s, id));
    SuffixTransitive(h.q + Flat(h.inq) + Pending(s, id), Held(s, id), Owed(s, id));
  }

  lemma PeekCurrent(s: State, id: Id, n: nat)
    requires Current(s, id) && n <= |s.outputs[id].q|
    ensures var o := s.outputs[id];
            Current(Update(s, id, o.(popped := o.popped + o.q[..n], q := o.q[n..], pc := Waiting)), id)
  {
    var o := s.outputs[id];
    SuffixDrops(Held(s, id), Owed(s, id), n);
    DropsFirst(o.q, Flat(o.inq), Pending(s, id), n);
  }

  lemma DropsFirst(x: Bytes, y: Bytes, z: Bytes, n: nat)
    requires n <= |x|
    ensures (x + y + z)[n..] == x[n..] + y + z
  {
  }

  lemma RenderCurrent(s: State, chunk: Bytes, id: Id)
    requires Inv(s) && Enabled(s, Render(chunk)) && Current(s, id) && id in s.active
    ensures Current(Apply(s, Render(chunk)), id)
  {
    var t := Apply(s, Render(chunk));
    assert Pending(s, id) == [] && Pending(t, id) == chunk;
    assert Held(t, id) == Held(s, id) + chunk && Owed(t, id) == Owed(s, id) + chunk;
    SuffixGrows(Held(s, id), Owed(s, id), chunk);
  }

  lemma PostOneCurrent(s: State, id: Id)
    requires Inv(s) && Enabled(s, PostOne) && Current(s, id)
    ensures Current(Apply(s, PostOne), id)
  {
    var t := Apply(s, PostOne);
    var j := s.sink.todo[0];
    FlatAppend(s.outputs[j].inq, s.sink.chunk);
    assert s.sink.todo == [j] + t.sink.todo;
    if id == j {
      assert Pending(s, id) == s.sink.chunk && Pending(t, id) == [];
    } else {
      assert Pending(s, id) == Pending(t, id);
    }
    assert Held(t, id) == Held(s, id);
  }

  lemma PushCurrent(s: State, id: Id)
    requires Inv(s) && Enabled(s, PushDirect) && Current(s, id)
    ensures Current(Apply(s, PushDirect), id)
  {
    assert Held(Apply(s, PushDirect), id) == Held(s, id);
  }

  /** All other steps leave alone what the output holds. */
  lemma OtherCurrent(s: State, step: Step, id: Id)
    requires Inv(s) && Enabled(s, step) && Current(s, id) && id in s.active
    requires Stays(step, id) && !TakesPost(s, step, id)
    requires !step.Render? && !step.PostOne? && !step.PushDirect? && !(step.Peek? && step.id == id)
    ensures Current(Apply(s, step), id)
  {
    var t := Apply(s, step);
    assert t.rendered == s.rendered && id in t.outputs;
    assert t.outputs[id].q == s.outputs[id].q && t.outputs[id].inq == s.outputs[id].inq;
    assert t.outputs[id].carry == s.outputs[id].carry && t.outputs[id].start == s.outputs[id].start;
    assert Pending(t, id) == Pending(s, id);
  }

  lemma StepCurrent(s: State, step: Step, id: Id)
    requires Inv(s) && Enabled(s, step) && Current(s, id) && id in s.active && Stays(step, id)
    requires !Overflows(s, step, id)
    ensures Current(Apply(s, step), id)
  {
    if TakesPost(s, step, id) {
      PostCurrent(s, id);
      assert Apply(s, step) == Update(s, id, HandlePost(s.outputs[id]));
    } else if step.Render? {
      RenderCurrent(s, step.chunk, id);
    } else if step.PostOne? {
      PostOneCurrent(s, id);
    } else if step.PushDirect? {
      PushCurrent(s, id);
    } else if step.Peek? && step.id == id {
      PeekCurrent(s, id, step.n);
    } else {
      OtherCurrent(s, step, id);
    }
  }

  ghost predicate NoOverflow(s: State, steps: seq<Step>, id: Id)
    requires Runs(s, steps)
    decreases |steps|
  {
    steps == [] || (!Overflows(s, steps[0], id) && NoOverflow(Apply(s, steps[0]), steps[1..], id))
  }

  lemma {:induction false} RunCurrent(s: State, steps: seq<Step>, id: Id)
    requires Inv(s) && Runs(s, steps) && id in s.active && forall i :: 0 <= i < |steps| ==> Stays(steps[i], id)
    requires Current(s, id) && NoOverflow(s, steps, id)
    ensures Current(After(s, steps), id)
    decreases |steps|
  {
    if steps != [] {
      LossIff(s, steps[0], id);
      StepKeeps(s, steps[0]);
      StepCurrent(s, steps[0], id);
      assert forall i :: 0 <= i < |steps[1..]| ==> steps[1..][i] == steps[i + 1];
      RunCurrent(Apply(s, steps[0]), steps[1..], id);
    }
  }

  lemma JoinedCurrent(s: State, id: Id)
    requires Inv(s) && id in s.active && id in s.outputs && s.outputs[id].lost == 0 && s.outputs[id].popped == []
    ensures Current(s, id)
  {
    assert OutputOk(s, id);
    assert Held(s, id) == Delivered(s, id);
  }

  /** In every interleaving, for an output that joined at step `k` and has stayed:
      as long as no POST overflowed its queue, what it holds and has under way is
      the latest part of the stream, whatever was thrown away while its slave sink
      was closed. So it never plays anything from before such a gap after it. */
  lemma HeldIsLatest(steps: seq<Step>, id: Id, k: nat)
    requires k < |steps| && Runs(Init, steps) && steps[k] == AddOutput(id)
    requires forall i :: k < i < |steps| ==> Stays(steps[i], id)
    requires Runs(Init, steps[..k + 1]) && Runs(After(Init, steps[..k + 1]), steps[k + 1..])
    requires NoOverflow(After(Init, steps[..k + 1]), steps[k + 1..], id)
    ensures var s := After(Init, steps);
            && id in s.outputs && s.outputs[id].start <= |s.rendered|
            && Suffix(s.outputs[id].q + Flat(s.outputs[id].inq) + Pending(s, id), Owed(s, id))
  {
    JoinsExact(steps, id, k);
    RunSplits(Init, steps, k + 1);
    var joined, rest := After(Init, steps[..k + 1]), steps[k + 1..];
    assert forall i :: 0 <= i < |rest| ==> rest[i] == steps[k + 1 + i];
    JoinedCurrent(joined, id);
    RunCurrent(joined, rest, id);
  }

  /** A POST that is taken while the slave sink is closed leaves nothing to play. */
  lemma ClosedFlushes(s: State, step: Step, id: Id)
    requires Inv(s) && Enabled(s, step) && TakesPost(s, step, id) && id in s.outputs && !s.outputs[id].isOpen
    ensures id in Apply(s, step).outputs && Apply(s, step).outputs[id].q == []
  {
    HandlePostConserves(s.outputs[id]);
    assert Apply(s, step) == Update(s, id, HandlePost(s.outputs[id]));
  }

  // ----- Who takes part, and what is rendered -----

  /** Whether an output takes part, and whether its slave sink is opened. */
  datatype Standing = Standing(active: bool, isOpen: bool)

  function StandingOf(s: State, id: Id): Standing {
    Standing(id in s.active, id in s.outputs && s.outputs[id].isOpen)
  }

  function NextStanding(t: Standing, step: Step, id: Id): Standing {
    match step
    case AddOutput(i) => if i == id then t.(active := true) else t
    case RemoveOutput(i) => if i == id then t.(active := false) else t
    case SetOpened(i, b) => if i == id then t.(isOpen := b) else t
    case _ => t
  }

  lemma StepActive(s: State, step: Step, id: Id)
    requires Enabled(s, step)
    ensures id in Apply(s, step).active
            <==> step == AddOutput(id) || (id in s.active && step != RemoveOutput(id))
  {
  }

  lemma StepOpen(s: State, step: Step, id: Id)
    requires Enabled(s, step) && id in s.outputs
    ensures id in Apply(s, step).outputs
    ensures Apply(s, step).outputs[id].isOpen
         == if step.SetOpened? && step.id == id then step.b else s.outputs[id].isOpen
  {
  }

  lemma StepNew(s: State, step: Step, id: Id)
    requires Inv(s) && Enabled(s, step) && id !in s.outputs
    ensures id !in Apply(s, step).outputs || (step == NewOutput(id) && !Apply(s, step).outputs[id].isOpen)
    ensures !(step.SetOpened? && step.id == id)
  {
  }

  lemma StepStanding(s: State, step: Step, id: Id)
    requires Inv(s) && Enabled(s, step)
    ensures StandingOf(Apply(s, step), id) == NextStanding(StandingOf(s, id), step, id)
  {
    StepActive(s, step, id);
    if id in s.outputs {
      StepOpen(s, step, id);
    } else {
      StepNew(s, step, id);
    }
  }

  function StandingAfter(t: Standing, steps: seq<Step>, id: Id): Standing
    decreases |steps|
  {
    if steps == [] then t else StandingAfter(NextStanding(t, steps[0], id), steps[1..], id)
  }

  /** What a step adds to the stream. */
  function Adds(step: Step): Bytes {
    if step.Render? || step.RenderNull? then step.chunk else []
  }

  function AllAdded(steps: seq<Step>): Bytes {
    if steps == [] then [] else Adds(steps[0]) + AllAdded(steps[1..])
  }

  lemma StepRendered(s: State, step: Step)
    requires Enabled(s, step)
    ensures Apply(s, step).rendered == s.rendered + Adds(step)
  {
  }

  /** The stream is all that was rendered, in order. */
  lemma {:induction false} StreamIsRendered(s: State, steps: seq<Step>)
    requires Runs(s, steps)
    ensures After(s, steps).rendered == s.rendered + AllAdded(steps)
    decreases |steps|
  {
    if steps != [] {
      StepRendered(s, steps[0]);
      StreamIsRendered(Apply(s, steps[0]), steps[1..]);
    }
  }

  /** An output takes part from the step that adds it to the one that removes it, and
      its slave sink is opened or not as it was told last. */
  lemma {:induction false} StandingFollows(s: State, steps: seq<Step>, id: Id)
    requires Inv(s) && Runs(s, steps)
    ensures StandingOf(After(s, steps), id) == StandingAfter(StandingOf(s, id), steps, id)
    decreases |steps|
  {
    if steps != [] {
      StepStanding(s, steps[0], id);
      StepKeeps(s, steps[0]);
      StandingFollows(Apply(s, steps[0]), steps[1..], id);
    }
  }

  /** Nothing is rendered for an output unless the sink runs. */
  lemma StepBusyRuns(s: State, step: Step)
    requires Inv(s) && Enabled(s, step) && (s.sink.Idle? || s.running)
    ensures Apply(s, step).sink.Idle? || Apply(s, step).running
  {
  }

  lemma {:induction false} BusyRuns(s: State, steps: seq<Step>)
    requires Inv(s) && Runs(s, steps) && (s.sink.Idle? || s.running)
    ensures After(s, steps).sink.Idle? || After(s, steps).running
    decreases |steps|
  {
    if steps != [] {
      StepBusyRuns(s, steps[0]);
      StepKeeps(s, steps[0]);
      BusyRuns(Apply(s, steps[0]), steps[1..]);
    }
  }

  /** An output that is flushed before it joins owes nothing to the time before. */
  lemma FlushedStartsClean(s: State, id: Id)
    requires Enabled(s, Flush(id)) && Enabled(Apply(s, Flush(id)), AddOutput(id))
    ensures var t := Apply(Apply(s, Flush(id)), AddOutput(id));
            id in t.outputs && t.outputs[id].start == |t.rendered| && Owed(t, id) == []
  {
  }

  // ----- Every request is answered -----

  /** The sink thread is free, or at work for this output. */
  predicate Serves(s: State, id: Id) {
    s.sink.Idle? || s.sink.o == id
  }

  predicate Waits(s: State, id: Id) {
    id in s.outputs && s.outputs[id].pc.Blocked?
  }

  /** The steps that are left until the request is answered. */
  function Distance(s: State, id: Id): nat
    requires id in s.outputs
  {
    match s.sink
    case Idle => |s.outputs[id].inq| + |s.active| + 7
    case DrainFor(_, _) => |s.outputs[id].inq| + |s.active| + 6
    case Loop(_, _) => if s.outputs[id].q == [] then |s.active| + 5 else 1
    case Posting(_, _, _, todo) => |todo| + 3
  }

  /** A step of the sink thread brought the answer nearer. */
  predicate Nearer(s: State, t: State, id: Id)
    requires Waits(s, id)
  {
    && Waits(t, id) && t.running == s.running
    && Serves(t, id) && !t.sink.Idle? && Distance(t, id) < Distance(s, id)
  }

  lemma ServeDrain(s: State, id: Id)
    requires Inv(s) && s.sink.DrainFor? && s.sink.o == id && Waits(s, id)
    ensures var step := if s.outputs[id].inq == [] then SinkDrainDone else SinkDrainOne;
            Enabled(s, step) && Nearer(s, Apply(s, step), id)
  {
  }

  lemma ServeRender(s: State, id: Id, chunk: Bytes)
    requires Inv(s) && s.sink.Loop? && s.sink.o == id && Waits(s, id) && s.outputs[id].q == []
    requires 0 < |chunk| <= MEMBLOCKQ_MAXLENGTH
    ensures Enabled(s, Render(chunk)) && Nearer(s, Apply(s, Render(chunk)), id)
  {
  }

  lemma ServePost(s: State, id: Id)
    requires Inv(s) && s.sink.Posting? && s.sink.o == id && Waits(s, id) && s.sink.todo != []
    ensures Enabled(s, PostOne) && Nearer(s, Apply(s, PostOne), id)
  {
    assert s.sink.todo[0] in s.active;
  }

  lemma ServePush(s: State, id: Id)
    requires Inv(s) && s.sink.Posting? && s.sink.o == id && Waits(s, id) && s.sink.todo == []
    ensures Enabled(s, PushDirect) && Nearer(s, Apply(s, PushDirect), id)
  {
  }

  lemma ServeReply(s: State, id: Id)
    requires Inv(s) && s.sink.Loop? && s.sink.o == id && Waits(s, id) && s.outputs[id].q != []
    ensures Enabled(s, ReplyNeed)
    ensures var t := Apply(s, ReplyNeed);
            id in t.outputs && t.outputs[id].pc == Peeking(true) && t.outputs[id].q == s.outputs[id].q
  {
  }

  lemma ServeTake(s: State, id: Id)
    requires Inv(s) && s.sink.Idle? && Waits(s, id)
    ensures Enabled(s, TakeNeed(id))
    ensures var t := Apply(s, TakeNeed(id));
            if s.running
            then Nearer(s, t, id)
            else id in t.outputs && t.outputs[id].pc == Peeking(false)
  {
  }

  /** The next step for the output that is served, when it still waits after it. */
  lemma ServeStep(s: State, id: Id, chunk: Bytes) returns (step: Step)
    requires Inv(s) && s.running && Serves(s, id) && Waits(s, id) && 0 < |chunk| <= MEMBLOCKQ_MAXLENGTH
    requires !(s.sink.Loop? && s.outputs[id].q != [])
    ensures Enabled(s, step) && Nearer(s, Apply(s, step), id)
  {
    match s.sink
    case Idle =>
      ServeTake(s, id);
      step := TakeNeed(id);
    case DrainFor(_, _) =>
      ServeDrain(s, id);
      step := if s.outputs[id].inq == [] then SinkDrainDone else SinkDrainOne;
    case Loop(_, _) =>
      ServeRender(s, id, chunk);
      step := Render(chunk);
    case Posting(_, _, _, todo) =>
      if todo == [] {
        ServePush(s, id);
        step := PushDirect;
      } else {
        ServePost(s, id);
        step := PostOne;
      }
  }

  /** From every state that can be reached, the sink thread answers an output that
      waits, once it is free for it: while the sink runs, with something to play. */
  lemma {:induction false} NeedAnswered(s: State, id: Id, chunk: Bytes) returns (steps: seq<Step>)
    requires Inv(s) && s.running && Serves(s, id) && Waits(s, id) && 0 < |chunk| <= MEMBLOCKQ_MAXLENGTH
    ensures Runs(s, steps)
    ensures var t := After(s, steps); id in t.outputs && t.outputs[id].pc == Peeking(true) && t.outputs[id].q != []
    decreases Distance(s, id)
  {
    if s.sink.Loop? && s.outputs[id].q != [] {
      ServeReply(s, id);
      StepRuns(s, ReplyNeed, []);
      steps := [ReplyNeed];
    } else {
      var step := ServeStep(s, id, chunk);
      StepKeeps(s, step);
      var rest := NeedAnswered(Apply(s, step), id, chunk);
      StepRuns(s, step, rest);
      steps := [step] + rest;
    }
  }

  // ----- A run that loses bytes -----

  lemma StepRuns(s: State, step: Step, rest: seq<Step>)
    requires Enabled(s, step) && Runs(Apply(s, step), rest)
    ensures Runs(s, [step] + rest) && After(s, [step] + rest) == After(Apply(s, step), rest)
  {
    assert ([step] + rest)[1..] == rest;
  }

  lemma {:induction false} RunsJoin(s: State, a: seq<Step>, b: seq<Step>)
    requires Runs(s, a) && Runs(After(s, a), b)
    ensures Runs(s, a + b) && After(s, a + b) == After(After(s, a), b)
    decreases |a|
  {
    if a == [] {
      assert a + b == b;
    } else {
      RunsJoin(Apply(s, a[0]), a[1..], b);
      assert (a + b)[1..] == a[1..] + b;
    }
  }

  const FRESH := Output([], [], false, Waiting, [], 0, [], 0)

  /** Two outputs have joined, both with slave sinks that are not opened. */
  const BOTH_JOINED := State(true, [], [1, 0], map[0 := FRESH, 1 := FRESH], Idle)

  /** The first one has asked for data, and its request was answered. */
  const SERVED := State(true, [7], [1, 0],
    map[0 := FRESH.(q := [7], pc := Peeking(true)), 1 := FRESH.(inq := [[7]])], Idle)

  lemma BothJoin()
    ensures var steps := [NewOutput(0), NewOutput(1), AddOutput(0), AddOutput(1), SetRunning(true)];
            Runs(Init, steps) && After(Init, steps) == BOTH_JOINED
  {
    var s1 := Apply(Init, NewOutput(0));
    var s2 := Apply(s1, NewOutput(1));
    var s3 := Apply(s2, AddOutput(0));
    var s4 := Apply(s3, AddOutput(1));
    assert FRESH.q + Flat(FRESH.inq) == [];
    assert s2.outputs == map[0 := FRESH, 1 := FRESH] == s3.outputs == s4.outputs;
    assert s4.active == [1, 0];
    StepRuns(s4, SetRunning(true), []);
    StepRuns(s3, AddOutput(1), [SetRunning(true)]);
    StepRuns(s2, AddOutput(0), [AddOutput(1), SetRunning(true)]);
    StepRuns(s1, NewOutput(1), [AddOutput(0), AddOutput(1), SetRunning(true)]);
    StepRuns(Init, NewOutput(0), [NewOutput(1), AddOutput(0), AddOutput(1), SetRunning(true)]);
  }

  const ASKED := BOTH_JOINED.(outputs := map[0 := FRESH.(pc := Blocked(1)), 1 := FRESH], sink := Loop(0, 1))

  lemma FirstAsks()
    ensures var steps := [StartPop(0, 1), DrainDone(0), TakeNeed(0), SinkDrainDone];
            Runs(BOTH_JOINED, steps) && After(BOTH_JOINED, steps) == ASKED
  {
    var s1 := Apply(BOTH_JOINED, StartPop(0, 1));
    var s2 := Apply(s1, DrainDone(0));
    var s3 := Apply(s2, TakeNeed(0));
    assert s2.outputs == ASKED.outputs;
    StepRuns(s3, SinkDrainDone, []);
    StepRuns(s2, TakeNeed(0), [SinkDrainDone]);
    StepRuns(s1, DrainDone(0), [TakeNeed(0), SinkDrainDone]);
    StepRuns(BOTH_JOINED, StartPop(0, 1), [DrainDone(0), TakeNeed(0), SinkDrainDone]);
  }

  const POSTED := State(true, [7], [1, 0],
    map[0 := FRESH.(pc := Blocked(1)), 1 := FRESH.(inq := [[7]])], Posting(0, 1, [7], []))

  lemma SinkPosts()
    ensures Runs(ASKED, [Render([7]), PostOne]) && After(ASKED, [Render([7]), PostOne]) == POSTED
  {
    var s1 := Apply(ASKED, Render([7]));
    assert Without([1, 0], 0) == [1] by {
      assert [1, 0][1..] == [0] && [0][1..] == [];
    }
    var s2 := Apply(s1, PostOne);
    assert s2.outputs[1].inq == [[7]] && s2.rendered == [7];
    assert s2.outputs == POSTED.outputs;
    StepRuns(s1, PostOne, []);
    StepRuns(ASKED, Render([7]), [PostOne]);
  }

  lemma SinkReplies()
    ensures Runs(POSTED, [PushDirect, ReplyNeed]) && After(POSTED, [PushDirect, ReplyNeed]) == SERVED
  {
    var s3 := Apply(POSTED, PushDirect);
    assert s3.outputs[0].q == [7];
    var s4 := Apply(s3, ReplyNeed);
    assert s4.outputs == SERVED.outputs;
    StepRuns(s3, ReplyNeed, []);
    StepRuns(POSTED, PushDirect, [ReplyNeed]);
  }

  /** The POST to an output whose slave sink is not opened is thrown away: that
      output has nothing of the one byte that was rendered. */
  lemma LosingRun() returns (steps: seq<Step>)
    ensures Runs(Init, steps) && 1 in After(Init, steps).active && 1 in After(Init, steps).outputs
    ensures var s := After(Init, steps);
            s.outputs[1].start <= |s.rendered| && Delivered(s, 1) == [] && Owed(s, 1) == [7]
  {
    BothJoin();
    FirstAsks();
    SinkPosts();
    SinkReplies();
    var join := [NewOutput(0), NewOutput(1), AddOutput(0), AddOutput(1), SetRunning(true)];
    var ask := [StartPop(0, 1), DrainDone(0), TakeNeed(0), SinkDrainDone];
    RunsJoin(Init, join, ask);
    RunsJoin(Init, join + ask, [Render([7]), PostOne]);
    RunsJoin(Init, join + ask + [Render([7]), PostOne], [PushDirect, ReplyNeed]);
    StepRuns(SERVED, ProcessPost(1), []);
    RunsJoin(Init, join + ask + [Render([7]), PostOne] + [PushDirect, ReplyNeed], [ProcessPost(1)]);
    steps := join + ask + [Render([7]), PostOne] + [PushDirect, ReplyNeed] + [ProcessPost(1)];
    var o := Apply(SERVED, ProcessPost(1)).outputs[1];
    assert o.inq == [] && o.q == [] && o.popped == [] && o.carry == [] && o.start == 0;
  }
}
