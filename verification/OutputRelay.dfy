/**
 The two output relays of the selected child. One thread per stream reads its pipe and, under a
 lock shared with the other, writes numbered frames to the client. The lock makes each write one step.
 */
module OutputRelay {

  type Byte = x: int | 0 <= x < 256

  datatype Stream = Stdout | Stderr

  datatype Frame = Frame(sequence: nat, stream: Stream, payload: seq<Byte>)

  /** What one attempt to write left on the client's socket: all of a frame, or only some of its bytes. */
  datatype Sent = Whole(frame: Frame) | Torn

  datatype Phase = Reading | Holding(payload: seq<Byte>) | Finished | Broken

  datatype Thread = Thread(phase: Phase, read: nat)

  datatype Bridge = Bridge(wire: seq<Sent>, sequence: nat, stdout: Thread, stderr: Thread)

  const START: Bridge := Bridge([], 0, Thread(Reading, 0), Thread(Reading, 0))

  /** Everything the child will ever write to its two pipes. */
  datatype Output = Output(stdout: seq<Byte>, stderr: seq<Byte>)

  function Of(b: Bridge, s: Stream): Thread { if s.Stdout? then b.stdout else b.stderr }
  function Source(input: Output, s: Stream): seq<Byte> { if s.Stdout? then input.stdout else input.stderr }
  function Put(b: Bridge, s: Stream, t: Thread): Bridge {
    if s.Stdout? then b.(stdout := t) else b.(stderr := t)
  }

  const MAX_U64: nat := 0xFFFF_FFFF_FFFF_FFFF

  /** The counter after `n` times `saturating_add(1)`. */
  function Saturated(n: nat): nat { if n <= MAX_U64 then n else MAX_U64 }

  function SaturatingIncrement(n: nat): nat { if n < MAX_U64 then n + 1 else MAX_U64 }

  datatype Action =
    | Read(count: nat)
    | EndOfFile
    | ReadFails
    | Emit
    | EmitRefused
    | EmitTorn

  predicate May(b: Bridge, input: Output, limit: nat, s: Stream, a: Action) {
    var t := Of(b, s);
    match a
    case Read(n) => t.phase.Reading? && 0 < n <= limit && t.read + n <= |Source(input, s)|
    case EndOfFile => t.phase.Reading? && t.read == |Source(input, s)|
    case ReadFails => t.phase.Reading?
    case _ => t.phase.Holding?
  }

  function Do(b: Bridge, input: Output, limit: nat, s: Stream, a: Action): Bridge
    requires May(b, input, limit, s, a)
  {
    var t := Of(b, s);
    match a
    case Read(n) => Put(b, s, Thread(Holding(Source(input, s)[t.read..t.read + n]), t.read + n))
    case EndOfFile => Put(b, s, t.(phase := Finished))
    case ReadFails => Put(b, s, t.(phase := Broken))
    case Emit =>
      var frame := Frame(b.sequence, s, t.phase.payload);
      Put(b, s, t.(phase := Reading))
      .(wire := b.wire + [Whole(frame)], sequence := SaturatingIncrement(b.sequence))
    case EmitRefused => Put(b, s, t.(phase := Broken))
    case EmitTorn => Put(b, s, t.(phase := Broken)).(wire := b.wire + [Torn])
  }

  /** Any interleaving of the two threads. */
  ghost predicate Run(input: Output, limit: nat, states: seq<Bridge>) {
    && states != [] && states[0] == START
    && forall i :: 0 < i < |states| ==> Next(states[i - 1], input, limit, states[i])
  }

  ghost predicate Next(b: Bridge, input: Output, limit: nat, c: Bridge) {
    exists s, a :: May(b, input, limit, s, a) && c == Do(b, input, limit, s, a)
  }

  // ---------------------------------------------------------------- what the client sees

  /** The frames the client can decode: those before the first torn write. */
  function Seen(wire: seq<Sent>): seq<Frame> {
    if wire == [] || wire[0].Torn? then [] else [wire[0].frame] + Seen(wire[1..])
  }

  function Payload(wire: seq<Sent>, s: Stream): seq<Byte> {
    if wire == [] then []
    else
      var last := wire[|wire| - 1];
      Payload(wire[..|wire| - 1], s) + if last.Whole? && last.frame.stream == s then last.frame.payload else []
  }

  function SeenPayload(frames: seq<Frame>, s: Stream): seq<Byte> {
    if frames == [] then []
    else (if frames[0].stream == s then frames[0].payload else []) + SeenPayload(frames[1..], s)
  }

  function Wholes(wire: seq<Sent>): nat {
    if wire == [] then 0
    else Wholes(wire[..|wire| - 1]) + if wire[|wire| - 1].Whole? then 1 else 0
  }

  // ---------------------------------------------------------------- what every step keeps

  ghost predicate Numbered(wire: seq<Sent>) {
    forall i :: 0 <= i < |wire| && wire[i].Whole? ==> wire[i].frame.sequence == Saturated(Wholes(wire[..i]))
  }

  predicate Accounted(wire: seq<Sent>, t: Thread, s: Stream, source: seq<Byte>) {
    && t.read <= |source|
    && var taken := source[..t.read];
    match t.phase
    case Reading => Payload(wire, s) == taken
    case Holding(p) => Payload(wire, s) + p == taken
    case Finished => Payload(wire, s) == taken && t.read == |source|
    case Broken => Payload(wire, s) <= taken
  }

  ghost predicate Inv(b: Bridge, input: Output) {
    && Numbered(b.wire)
    && b.sequence == Saturated(Wholes(b.wire))
    && (forall s :: Accounted(b.wire, Of(b, s), s, Source(input, s)))
    && (Torn in b.wire ==> b.stdout.phase.Broken? || b.stderr.phase.Broken?)
  }

  lemma Appended(wire: seq<Sent>, e: Sent)
    requires Numbered(wire)
    requires e.Whole? ==> e.frame.sequence == Saturated(Wholes(wire))
    ensures Numbered(wire + [e])
    ensures Wholes(wire + [e]) == Wholes(wire) + if e.Whole? then 1 else 0
    ensures forall s :: Payload(wire + [e], s)
                        == Payload(wire, s) + if e.Whole? && e.frame.stream == s then e.frame.payload else []
  {
    var more := wire + [e];
    assert more[..|more| - 1] == wire;
    forall i | 0 <= i < |more| && more[i].Whole?
      ensures more[i].frame.sequence == Saturated(Wholes(more[..i]))
    {
      if i < |wire| {
        assert more[..i] == wire[..i];
      }
    }
  }

  /** A step moves one thread; the other, and the count of its bytes, stays. */
  lemma ThreadMoved(b: Bridge, c: Bridge, input: Output, s: Stream)
    requires Inv(b, input)
    requires Numbered(c.wire) && c.sequence == Saturated(Wholes(c.wire))
    requires forall o | o != s :: Of(c, o) == Of(b, o) && Payload(c.wire, o) == Payload(b.wire, o)
    requires Accounted(c.wire, Of(c, s), s, Source(input, s))
    requires Torn in c.wire ==> c.stdout.phase.Broken? || c.stderr.phase.Broken?
    ensures Inv(c, input)
  {
    hide Numbered, Payload, Wholes;
    forall o ensures Accounted(c.wire, Of(c, o), o, Source(input, o)) {
      assert Accounted(b.wire, Of(b, o), o, Source(input, o));
    }
  }

  lemma StepKeeps(b: Bridge, input: Output, limit: nat, s: Stream, a: Action)
    requires Inv(b, input) && May(b, input, limit, s, a)
    ensures Inv(Do(b, input, limit, s, a), input)
  {
    hide Accounted;
    if a.Emit? || a.EmitTorn? {
      WriteKeeps(b, input, limit, s, a);
    } else {
      QuietStepKeeps(b, input, limit, s, a);
    }
  }

  lemma WriteKeeps(b: Bridge, input: Output, limit: nat, s: Stream, a: Action)
    requires Inv(b, input) && May(b, input, limit, s, a) && (a.Emit? || a.EmitTorn?)
    ensures Inv(Do(b, input, limit, s, a), input)
  {
    hide Numbered, Payload, Wholes;
    assert Accounted(b.wire, Of(b, s), s, Source(input, s));
    Appended(b.wire, if a.Emit? then Whole(Frame(b.sequence, s, Of(b, s).phase.payload)) else Torn);
    ThreadMoved(b, Do(b, input, limit, s, a), input, s);
  }

  lemma QuietStepKeeps(b: Bridge, input: Output, limit: nat, s: Stream, a: Action)
    requires Inv(b, input) && May(b, input, limit, s, a) && !a.Emit? && !a.EmitTorn?
    ensures Inv(Do(b, input, limit, s, a), input)
  {
    hide Numbered, Payload, Wholes;
    assert Accounted(b.wire, Of(b, s), s, Source(input, s));
    if a.Read? {
      ReadIsAccounted(b.wire, Of(b, s), s, Source(input, s), a.count);
    }
    ThreadMoved(b, Do(b, input, limit, s, a), input, s);
  }

  lemma ReadIsAccounted(wire: seq<Sent>, t: Thread, s: Stream, source: seq<Byte>, n: nat)
    requires Accounted(wire, t, s, source) && t.phase.Reading? && t.read + n <= |source|
    ensures Accounted(wire, Thread(Holding(source[t.read..t.read + n]), t.read + n), s, source)
  {
    assert source[..t.read] + source[t.read..t.read + n] == source[..t.read + n];
  }

  lemma {:induction false} RunKeeps(input: Output, limit: nat, states: seq<Bridge>)
    requires Run(input, limit, states)
    ensures Inv(states[|states| - 1], input)
  {
    var n := |states| - 1;
    if n > 0 {
      var before := states[..n];
      RunKeeps(input, limit, before);
      assert Next(states[n - 1], input, limit, states[n]);
      var s, a :| May(states[n - 1], input, limit, s, a) && states[n] == Do(states[n - 1], input, limit, s, a);
      StepKeeps(states[n - 1], input, limit, s, a);
    }
  }

  predicate FitsIn(payload: seq<Byte>, limit: nat) { 0 < |payload| <= limit }

  /** No frame is empty or over the limit, on the wire or in a thread's hands. */
  ghost predicate Bounded(b: Bridge, limit: nat) {
    && (forall e <- b.wire :: e.Whole? ==> FitsIn(e.frame.payload, limit))
    && (forall s :: Of(b, s).phase.Holding? ==> FitsIn(Of(b, s).phase.payload, limit))
  }

  lemma StepIsBounded(b: Bridge, input: Output, limit: nat, s: Stream, a: Action)
    requires Bounded(b, limit) && May(b, input, limit, s, a)
    ensures Bounded(Do(b, input, limit, s, a), limit)
  {
    var c := Do(b, input, limit, s, a);
    forall o | o != s ensures Of(c, o) == Of(b, o) {}
  }

  /** In every interleaving each frame that the client decodes carries between one and `limit` bytes. */
  lemma {:induction false} FramesAreBounded(input: Output, limit: nat, states: seq<Bridge>)
    requires Run(input, limit, states)
    ensures Bounded(states[|states| - 1], limit)
    ensures forall f <- Seen(states[|states| - 1].wire) :: 0 < |f.payload| <= limit
  {
    hide Bounded, May, Do;
    var n := |states| - 1;
    if n > 0 {
      var before := states[..n];
      FramesAreBounded(input, limit, before);
      assert Next(states[n - 1], input, limit, states[n]);
      var s, a :| May(states[n - 1], input, limit, s, a) && states[n] == Do(states[n - 1], input, limit, s, a);
      StepIsBounded(states[n - 1], input, limit, s, a);
    } else {
      StartIsBounded(limit);
    }
    SeenIsBounded(states[n], limit);
  }

  lemma StartIsBounded(limit: nat)
    ensures Bounded(START, limit)
  {
  }

  lemma SeenIsBounded(b: Bridge, limit: nat)
    requires Bounded(b, limit)
    ensures forall f <- Seen(b.wire) :: FitsIn(f.payload, limit)
  {
    SeenIsPrefix(b.wire);
    forall f <- Seen(b.wire) ensures FitsIn(f.payload, limit) {
      var i :| 0 <= i < |Seen(b.wire)| && Seen(b.wire)[i] == f;
      assert b.wire[i] in b.wire;
    }
  }

  // ---------------------------------------------------------------- the client's view

  lemma {:induction false} SeenIsPrefix(wire: seq<Sent>)
    ensures |Seen(wire)| <= |wire|
    ensures forall i :: 0 <= i < |Seen(wire)| ==> wire[i] == Whole(Seen(wire)[i])
    ensures Torn !in wire ==> |Seen(wire)| == |wire|
  {
    if wire != [] && wire[0].Whole? {
      SeenIsPrefix(wire[1..]);
    }
  }

  lemma {:induction false} AllWhole(wire: seq<Sent>)
    requires forall e <- wire :: e.Whole?
    ensures Wholes(wire) == |wire|
  {
    if wire != [] {
      AllWhole(wire[..|wire| - 1]);
    }
  }

  /**
   In every interleaving, frame `i` at the client carries the number `i`, up to the saturation of
   the counter.
   */
  lemma SequenceNumbers(input: Output, limit: nat, states: seq<Bridge>)
    requires Run(input, limit, states)
    ensures var frames := Seen(states[|states| - 1].wire);
            forall i :: 0 <= i < |frames| ==> frames[i].sequence == Saturated(i)
  {
    var wire := states[|states| - 1].wire;
    RunKeeps(input, limit, states);
    SeenIsPrefix(wire);
    var frames := Seen(wire);
    forall i | 0 <= i < |frames| ensures frames[i].sequence == Saturated(i) {
      assert wire[i].Whole?;
      forall e <- wire[..i] ensures e.Whole? {
        var k :| 0 <= k < i && wire[k] == e;
      }
      AllWhole(wire[..i]);
    }
  }

  /** No number is repeated or skipped exactly while there are at most 2^64 frames. */
  lemma NoRepeatExactly(input: Output, limit: nat, states: seq<Bridge>)
    requires Run(input, limit, states)
    ensures var frames := Seen(states[|states| - 1].wire);
            (forall i :: 0 <= i < |frames| ==> frames[i].sequence == i) <==> |frames| <= MAX_U64 + 1
  {
    SequenceNumbers(input, limit, states);
    var frames := Seen(states[|states| - 1].wire);
    if |frames| > MAX_U64 + 1 {
      var top := MAX_U64 + 1;
      assert frames[top].sequence == Saturated(top) == MAX_U64;
    }
  }

  lemma {:induction false} PayloadOfSeen(wire: seq<Sent>, s: Stream)
    requires Torn !in wire
    ensures SeenPayload(Seen(wire), s) == Payload(wire, s)
  {
    if wire != [] {
      var before, last := wire[..|wire| - 1], wire[|wire| - 1];
      PayloadOfSeen(before, s);
      assert wire == before + [last];
      SeenAppended(before, last.frame, s);
    }
  }

  lemma {:induction false} SeenAppended(wire: seq<Sent>, frame: Frame, s: Stream)
    requires Torn !in wire
    ensures Seen(wire + [Whole(frame)]) == Seen(wire) + [frame]
    ensures SeenPayload(Seen(wire) + [frame], s)
            == SeenPayload(Seen(wire), s) + if frame.stream == s then frame.payload else []
  {
    var more := wire + [Whole(frame)];
    if wire == [] {
      assert Seen(wire) + [frame] == [frame];
      assert more[1..] == [];
    } else {
      SeenAppended(wire[1..], frame, s);
      assert more[1..] == wire[1..] + [Whole(frame)];
      assert (Seen(wire) + [frame])[1..] == Seen(wire[1..]) + [frame];
    }
  }

  /** When both relays return `Ok`, the client holds exactly the bytes of each stream, in order. */
  lemma NothingLost(input: Output, limit: nat, states: seq<Bridge>, s: Stream)
    requires Run(input, limit, states)
    requires var b := states[|states| - 1]; b.stdout.phase.Finished? && b.stderr.phase.Finished?
    ensures SeenPayload(Seen(states[|states| - 1].wire), s) == Source(input, s)
  {
    var b := states[|states| - 1];
    RunKeeps(input, limit, states);
    assert Accounted(b.wire, Of(b, s), s, Source(input, s));
    PayloadOfSeen(b.wire, s);
  }

  lemma {:induction false} SeenPayloadIsPrefix(wire: seq<Sent>, s: Stream)
    ensures SeenPayload(Seen(wire), s) <= Payload(wire, s)
  {
    if wire != [] {
      var before, last := wire[..|wire| - 1], wire[|wire| - 1];
      assert wire == before + [last];
      if Torn !in wire {
        PayloadOfSeen(wire, s);
      } else {
        SeenPayloadIsPrefix(before, s);
        SeenUnaffected(before, last);
      }
    }
  }

  /** A torn write ends the client's view for good. */
  lemma {:induction false} SeenUnaffected(wire: seq<Sent>, e: Sent)
    requires Torn in wire || e.Torn?
    ensures Seen(wire + [e]) == Seen(wire)
  {
    var more := wire + [e];
    if wire != [] && wire[0].Whole? {
      assert more[1..] == wire[1..] + [e];
      SeenUnaffected(wire[1..], e);
    }
  }

  /** At every moment the client holds, of each stream, a first part of what the child wrote. */
  lemma AlwaysAPrefix(input: Output, limit: nat, states: seq<Bridge>, s: Stream)
    requires Run(input, limit, states)
    ensures SeenPayload(Seen(states[|states| - 1].wire), s) <= Source(input, s)
  {
    var b := states[|states| - 1];
    RunKeeps(input, limit, states);
    assert Accounted(b.wire, Of(b, s), s, Source(input, s));
    SeenPayloadIsPrefix(b.wire, s);
  }
}
