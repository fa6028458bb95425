/** The handshake of module-esound-sink.c: three requests are written, two replies
    read, all in pieces of any size, and at the end the socket is handed over to
    the IO thread. */
module EsdHandshake {
  import opened Common

  const ESD_KEY_LEN := 16
  const ESD_NAME_MAX := 128
  const ESD_ENDIAN_KEY := 0x454E_444E
  const ESD_PROTO_STREAM_PLAY := 3
  const ESD_PROTO_LATENCY := 23

  /** The name of the stream, "PulseAudio Tunnel". */
  const STREAM_NAME: seq<byte> := [80, 117, 108, 115, 101, 65, 117, 100, 105, 111, 32, 84, 117, 110, 110, 101, 108]

  /** A 32-bit integer as it lies in the memory of a little-endian machine. */
  function Le32(v: nat): (b: seq<byte>)
    ensures |b| == 4
  {
    [v % 0x100, v / 0x100 % 0x100, v / 0x1_0000 % 0x100, v / 0x100_0000 % 0x100]
  }

  // ----- The requests -----

  /** The bytes of the three requests, in the order in which they are due. */
  datatype Requests = Requests(auth: seq<byte>, latency: seq<byte>, play: seq<byte>)

  predicate Proper(q: Requests) {
    q.auth != [] && q.latency != [] && q.play != []
  }

  function Whole(q: Requests): seq<byte> {
    q.auth + q.latency + q.play
  }

  function RequestsFor(cookie: seq<byte>, format: nat, rate: nat): (q: Requests)
    requires |cookie| == ESD_KEY_LEN
    ensures Proper(q) && |q.auth| == 20 && |q.latency| == 4 && |q.play| == 140
  {
    Requests(cookie + Le32(ESD_ENDIAN_KEY),
             Le32(ESD_PROTO_LATENCY),
             Le32(ESD_PROTO_STREAM_PLAY) + Le32(format) + Le32(rate)
             + STREAM_NAME + seq(ESD_NAME_MAX - |STREAM_NAME|, i => 0))
  }

  /** The 32-bit integer that a little-endian server finds at an offset. */
  function Int32At(b: seq<byte>, i: nat): nat
    requires i + 4 <= |b|
  {
    b[i] as nat + 0x100 * b[i + 1] as nat + 0x1_0000 * b[i + 2] as nat + 0x100_0000 * b[i + 3] as nat
  }

  lemma Le32Read(v: nat, b: seq<byte>, i: nat)
    requires v < 0x1_0000_0000 && i + 4 <= |b| && b[i..i + 4] == Le32(v)
    ensures Int32At(b, i) == v
  {
    assert b[i] == b[i..i + 4][0] && b[i + 1] == b[i..i + 4][1];
    assert b[i + 2] == b[i..i + 4][2] && b[i + 3] == b[i..i + 4][3];
    Digits(v);
  }

  lemma Digits(v: nat)
    requires v < 0x1_0000_0000
    ensures v % 0x100 + 0x100 * (v / 0x100 % 0x100) + 0x1_0000 * (v / 0x1_0000 % 0x100)
            + 0x100_0000 * (v / 0x100_0000 % 0x100) == v
  {
    var a, b, c := v / 0x100, v / 0x1_0000, v / 0x100_0000;
    assert a / 0x100 == b && b / 0x100 == c && c < 0x100;
  }

  /** What a server reads: the cookie and the key "ENDN"; the request for the latency,
      which is message 23; and the request to play, message 3, with format, rate and
      the name of the stream, filled up with zeros. */
  lemma ServerReads(cookie: seq<byte>, format: nat, rate: nat)
    requires |cookie| == ESD_KEY_LEN && format < 0x1_0000_0000 && rate < 0x1_0000_0000
    ensures var q := RequestsFor(cookie, format, rate);
            && q.auth[..16] == cookie && Int32At(q.auth, 16) == 0x454E_444E
            && Int32At(q.latency, 0) == 23
            && Int32At(q.play, 0) == 3 && Int32At(q.play, 4) == format && Int32At(q.play, 8) == rate
            && (forall i :: 0 <= i < 17 ==> q.play[12 + i] as int == "PulseAudio Tunnel"[i] as int)
            && (forall i :: 29 <= i < 140 ==> q.play[i] == 0)
  {
    var q := RequestsFor(cookie, format, rate);
    var zeros: seq<byte> := seq(ESD_NAME_MAX - |STREAM_NAME|, i => 0);
    assert q.play == Le32(3) + Le32(format) + Le32(rate) + STREAM_NAME + zeros;
    Le32Read(ESD_ENDIAN_KEY, q.auth, 16);
    Le32Read(23, q.latency, 0);
    Le32Read(3, q.play, 0);
    Le32Read(format, q.play, 4);
    Le32Read(rate, q.play, 8);
    assert q.play[12..29] == STREAM_NAME;
    forall i | 0 <= i < 17
      ensures q.play[12 + i] as int == "PulseAudio Tunnel"[i] as int
    {
      assert q.play[12 + i] == q.play[12..29][i];
    }
  }

  // ----- The state -----

  datatype Phase = Auth | Latency | Prepare | Running

  /** What the socket does in one call of io_callback: whether it is readable and
      what a read gives (None for an error, nothing at the end of file), whether
      it is writable and how much a write takes (None for an error). */
  datatype Event = Event(readable: bool, input: Option<seq<byte>>, writable: bool, taken: Option<nat>)

  /** How a call ends: normally, with the connection given up, or in a failed assertion. */
  datatype Outcome = Fine | GivenUp | Aborted

  /** What lies before the request of a phase, and with it. */
  function Upto(q: Requests, p: Phase): seq<byte> {
    match p
    case Auth => q.auth
    case Latency => q.auth + q.latency
    case _ => Whole(q)
  }

  lemma UptoIsPrefix(q: Requests, p: Phase, wire: seq<byte>, rest: seq<byte>)
    requires Proper(q) && wire + rest == Upto(q, p)
    ensures wire <= Whole(q)
    ensures wire == Whole(q) <==> (p == Prepare || p == Running) && rest == []
  {
  }

  class Handshake {
    const q: Requests
    var phase: Phase
    var pending: seq<byte>   // what is left of the request being written; [] for no write_data
    var got: seq<byte>       // the reply so far
    var open: bool           // whether io is there
    var fd: bool             // whether fd is set
    // the history
    var wire: seq<byte>      // all that was written
    var passes: nat          // PASS_SOCKET messages sent

    constructor (cookie: seq<byte>, format: nat, rate: nat)
      requires |cookie| == ESD_KEY_LEN
      ensures Valid() && q == RequestsFor(cookie, format, rate) && wire == [] && open && phase == Auth
    {
      q := RequestsFor(cookie, format, rate);
      phase, pending, got, open, fd := Auth, RequestsFor(cookie, format, rate).auth, [], true, false;
      wire, passes := [], 0;
    }

    ghost predicate Valid()
      reads this
    {
      && Proper(q)
      && wire + pending == Upto(q, phase)
      && (open ==> |got| < 4)
      && (phase == Prepare ==> pending != [])
      && (phase == Running <==> fd) && passes == (if fd then 1 else 0)
      && (phase == Running ==> pending == [] && !open)
    }

    /** do_write: write what the socket takes, and hand the socket over when the
        last request is out. */
    method DoWrite(e: Event) returns (r: Outcome)
      requires Valid() && open
      modifies this`pending, this`wire, this`phase, this`open, this`fd, this`passes
      ensures Valid() && r != Aborted && old(wire) <= wire
      ensures r == GivenUp <==> e.writable && old(pending) != [] && e.taken.None?
      ensures r == GivenUp ==> unchanged(this)
      ensures phase == (if wire == Whole(q) then Running else old(phase))
      ensures open <==> phase != Running
    {
      if !e.writable {
        return Fine;
      }
      if pending != [] {
        if e.taken.None? {
          return GivenUp;
        }
        var n := if e.taken.value < |pending| then e.taken.value else |pending|;
        assert wire + pending == wire + pending[..n] + pending[n..];
        wire := wire + pending[..n];
        pending := pending[n..];
      }
      UptoIsPrefix(q, phase, wire, pending);
      if pending == [] && phase == Prepare {
        assert !fd;
        fd, open, passes, phase := true, false, passes + 1, Running;
      }
      return Fine;
    }

    /** handle_response: take the reply and queue the next request. */
    method HandleResponse() returns (r: Outcome)
      requires Proper(q) && wire + pending == Upto(q, phase) && open
      requires |got| == 4 && (phase == Auth || phase == Latency)
      requires !fd && passes == 0
      modifies this`phase, this`pending, this`got
      ensures r == GivenUp <==> old(phase) == Auth && old(got) == [0, 0, 0, 0]
      ensures r == Aborted <==> r != GivenUp && old(pending) != []
      ensures r == Fine ==> Valid() && phase == (if old(phase) == Auth then Latency else Prepare) && pending != []
      ensures r != Fine ==> unchanged(this)
    {
      if phase == Auth && got == [0, 0, 0, 0] {
        return GivenUp;
      }
      if pending != [] {
        return Aborted;
      }
      if phase == Auth {
        pending, phase := q.latency, Latency;
      } else {
        pending, phase := q.play, Prepare;
      }
      got := [];
      return Fine;
    }

    /** The reply that a call makes complete, and whether it is a refusal. */
    predicate Completes(e: Event)
      reads this
    {
      (phase == Auth || phase == Latency) && e.readable && e.input.Some? && |got| + |e.input.value| >= 4 && |got| < 4
    }

    predicate Refused(e: Event)
      reads this
    {
      Completes(e) && phase == Auth && got + e.input.value[..4 - |got|] == [0, 0, 0, 0]
    }

    /** do_read: collect the reply. An assertion fails exactly when the server's
        reply is complete before the request is. */
    method DoRead(e: Event) returns (r: Outcome)
      requires Valid() && open
      modifies this`phase, this`pending, this`got
      ensures r == Fine ==> Valid()
      ensures r == Aborted <==> old(Completes(e) && !Refused(e) && pending != [])
      ensures r == Fine && old(Completes(e)) ==> phase == (if old(phase) == Auth then Latency else Prepare)
      ensures r != Fine || !old(Completes(e)) ==> phase == old(phase) && pending == old(pending)
    {
      if !e.readable || phase == Prepare || phase == Running {
        return Fine;
      }
      if e.input.None? || e.input.value == [] {
        return GivenUp;
      }
      var n := if |e.input.value| < 4 - |got| then |e.input.value| else 4 - |got|;
      got := got + e.input.value[..n];
      if |got| == 4 {
        r := HandleResponse();
      } else {
        r := Fine;
      }
    }

    /** io_callback: whatever the socket does, what is on the wire is the beginning
        of the three requests; the socket has been handed over, once, exactly when
        all of them are out. */
    method IoCallback(e: Event) returns (r: Outcome)
      requires Valid() && open
      modifies this
      ensures r != Aborted ==> Valid()
      ensures r == Aborted <==> old(Completes(e) && !Refused(e) && pending != [])
      ensures old(wire) <= wire <= Whole(q)
      ensures passes <= 1 && (passes == 1 <==> wire == Whole(q))
      ensures r == GivenUp || passes == 1 ==> !open
      ensures r == Fine && passes == 0 ==> open
    {
      UptoIsPrefix(q, phase, wire, pending);
      r := DoRead(e);
      if r == Fine {
        UptoIsPrefix(q, phase, wire, pending);
        r := DoWrite(e);
        UptoIsPrefix(q, phase, wire, pending);
      }
      if r == GivenUp {
        open := false;
      }
    }
  }

  /** A server is polite in a call when it sends nothing before the request that
      it answers is complete. */
  predicate Polite(h: Handshake, e: Event)
    reads h
  {
    h.pending != [] && (h.phase == Auth || h.phase == Latency) ==> !e.readable || e.input.None? || e.input.value == []
  }

  /** A whole session: the callbacks for any series of events, until the socket is
      handed over or given up or an assertion fails. A `polite` server keeps its
      replies back until the request is complete; against it no assertion fails. */
  method Session(cookie: seq<byte>, format: nat, rate: nat, events: seq<Event>, polite: bool)
    returns (wire: seq<byte>, passes: nat, aborted: bool)
    requires |cookie| == ESD_KEY_LEN
    ensures var whole := Whole(RequestsFor(cookie, format, rate));
            wire <= whole && passes <= 1 && (passes == 1 <==> wire == whole)
    ensures polite ==> !aborted
  {
    var h := new Handshake(cookie, format, rate);
    UptoIsPrefix(h.q, h.phase, h.wire, h.pending);
    aborted := false;
    var i := 0;
    while i < |events| && h.open && !aborted
      invariant 0 <= i <= |events|
      invariant fresh(h) && h.q == RequestsFor(cookie, format, rate)
      invariant !aborted ==> h.Valid()
      invariant h.wire <= Whole(h.q) && h.passes <= 1 && (h.passes == 1 <==> h.wire == Whole(h.q))
      invariant polite ==> !aborted
    {
      var early := polite && !Polite(h, events[i]);
      var r := h.IoCallback(if early then events[i].(readable := false) else events[i]);
      aborted := r == Aborted;
      i := i + 1;
    }
    wire, passes := h.wire, h.passes;
  }
}
