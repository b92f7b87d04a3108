/**
 The ring as an object, with its methods run one at a time, and the two loops of
 `plugin/src/PluginProcessor.cpp` that fill and drain it.
 */
module MidiFifo {
  import opened Arithmetic
  import opened FifoProtocol
  import opened FifoInvariant
  import opened FifoSafety

  /** The `len` events from index `r` on, read through the mask. */
  function Window(c: nat, buffer: seq<Event>, r: nat, len: nat): (events: seq<Event>)
    requires |buffer| == Pow2(c)
    ensures |events| == len
  {
    seq(len, (i: nat) requires i < len => buffer[Slot(c, r + i)])
  }

  lemma SlotWrap(n: nat, c: nat, r: nat, i: nat)
    requires c < n
    ensures Slot(c, r % Pow2(n) + i) == Slot(c, r + i)
  {
    hide Slot, Pow2;
    var m := Pow2(n);
    WrapSlot(n, c, r + i);
    WrapSlot(n, c, r % m + i);
    assert r + i == (r % m + i) + m * (r / m);
    ModWrap(r % m + i, r / m, m);
  }

  lemma WindowWrap(n: nat, c: nat, buffer: seq<Event>, r: nat, len: nat)
    requires c < n && |buffer| == Pow2(c)
    ensures Window(c, buffer, r % Pow2(n), len) == Window(c, buffer, r, len)
  {
    hide Slot, Pow2;
    var low, all := Window(c, buffer, r % Pow2(n), len), Window(c, buffer, r, len);
    forall i: nat | i < len ensures low[i] == all[i] {
      SlotWrap(n, c, r, i);
    }
  }

  /** Writing the slot after the window extends it. */
  lemma WindowPush(c: nat, buffer: seq<Event>, r: nat, len: nat, w: nat, e: Event)
    requires |buffer| == Pow2(c) && len < Pow2(c) && Slot(c, w) == Slot(c, r + len)
    ensures Window(c, buffer[Slot(c, w) := e], r, len + 1) == Window(c, buffer, r, len) + [e]
  {
    hide Slot;
    var longer, grown := Window(c, buffer[Slot(c, w) := e], r, len + 1), Window(c, buffer, r, len) + [e];
    forall i: nat | i < len + 1 ensures longer[i] == grown[i] {
      if i < len {
        SlotsDiffer(c, r + i, r + len);
      }
    }
  }

  lemma WindowPop(c: nat, buffer: seq<Event>, r: nat, len: nat)
    requires |buffer| == Pow2(c) && len > 0
    ensures Window(c, buffer, r, len)[0] == buffer[Slot(c, r)]
    ensures Window(c, buffer, r + 1, len - 1) == Window(c, buffer, r, len)[1..]
  {
    hide Slot;
    var shorter, rest := Window(c, buffer, r + 1, len - 1), Window(c, buffer, r, len)[1..];
    forall i: nat | i < len - 1 ensures shorter[i] == rest[i] {
      assert r + 1 + i == r + (i + 1);
    }
  }

  /** The write index sits `len` places after the read index, up to wrapping. */
  lemma EndOfWindow(n: nat, c: nat, r: nat, w: nat)
    requires c < n && r < Pow2(n) && w < Pow2(n)
    ensures var len := Diff(Bits(n), w, r); len >= 0 && Slot(c, w) == Slot(c, r + len) && w == (r + len) % Pow2(n)
  {
    hide Slot, Pow2;
    var m := Pow2(n);
    var len := (w - r) % m;
    var q := (w - r) / m;
    assert r + len == w + m * (0 - q);
    ModWrap(w, 0 - q, m);
    SmallMod(w, m);
    WrapSlot(n, c, r + len);
  }

  class Fifo {
    const bits: nat
    const c: nat
    var buffer: array<Event>
    var writePos: nat
    var readPos: nat

    ghost predicate Valid()
      reads this
    {
      && c < bits
      && buffer.Length == Pow2(c)
      && writePos < Pow2(bits) && readPos < Pow2(bits)
      && Diff(Bits(bits), writePos, readPos) <= Pow2(c)
    }

    /** The events waiting, oldest first. */
    ghost function Contents(): seq<Event>
      requires Valid()
      reads this, buffer
    {
      Window(c, buffer[..], readPos, Diff(Bits(bits), writePos, readPos))
    }

    constructor (bits: nat, c: nat)
      requires c < bits
      ensures Valid() && fresh(buffer) && this.bits == bits && this.c == c
      ensures Contents() == []
    {
      this.bits := bits;
      this.c := c;
      buffer := new Event[Pow2(c)](_ => EMPTY_EVENT);
      writePos, readPos := 0, 0;
      new;
      SmallMod(0, Pow2(bits));
    }

    /** The number of events waiting. */
    method Size() returns (size: int)
      requires Valid()
      ensures size == |Contents()| <= Pow2(c)
    {
      var w := writePos;
      var r := readPos;
      size := Diff(Bits(bits), w, r);
    }

    /** Appends the event, unless the ring is full. */
    method Push(ev: Event) returns (ok: bool)
      requires Valid()
      modifies this`writePos, buffer
      ensures Valid()
      ensures ok <==> |old(Contents())| < Pow2(c)
      ensures Contents() == if ok then old(Contents()) + [ev] else old(Contents())
    {
      hide Slot, Pow2, Window;
      var w := writePos;
      var r := readPos;
      ghost var len := Diff(Bits(bits), w, r);
      if Diff(Bits(bits), w, r) >= Pow2(c) {
        return false;
      }
      EndOfWindow(bits, c, r, w);
      WindowPush(c, buffer[..], r, len, w, ev);
      buffer[Slot(c, w)] := ev;
      writePos := Next(Bits(bits), w);
      NextDiff(bits, c, r, w);
      return true;
    }

    /** Removes the oldest event, unless the ring is empty. */
    method Pop() returns (ok: bool, out: Event)
      requires Valid()
      modifies this`readPos
      ensures Valid()
      ensures ok <==> old(Contents()) != []
      ensures ok ==> old(Contents()) == [out] + Contents()
      ensures !ok ==> Contents() == old(Contents())
    {
      hide Slot, Pow2, Window;
      var r := readPos;
      var w := writePos;
      ghost var len := Diff(Bits(bits), w, r);
      DiffZero(bits, r, w);
      if r == w {
        return false, EMPTY_EVENT;
      }
      WindowPop(c, buffer[..], r, len);
      out := buffer[Slot(c, r)];
      readPos := Next(Bits(bits), r);
      StepDiff(bits, r, w);
      WindowWrap(bits, c, buffer[..], r + 1, len - 1);
      ok := true;
    }

    /** Discards everything that is waiting. */
    method Clear()
      requires Valid()
      modifies this`readPos
      ensures Valid() && Contents() == []
    {
      readPos := writePos;
      SmallMod(0, Pow2(bits));
    }
  }

  lemma DiffZero(n: nat, r: nat, w: nat)
    requires r < Pow2(n) && w < Pow2(n)
    ensures Diff(Bits(n), w, r) == 0 <==> r == w
    ensures 0 <= Diff(Bits(n), w, r) < Pow2(n)
  {
    var m := Pow2(n);
    if r <= w {
      SmallMod(w - r, m);
    } else {
      ModWrap(w - r, 1, m);
      SmallMod(w - r + m, m);
    }
  }

  /** Publishing one more event makes the distance one larger. */
  lemma NextDiff(n: nat, c: nat, r: nat, w: nat)
    requires c < n && r < Pow2(n) && w < Pow2(n) && Diff(Bits(n), w, r) < Pow2(c)
    ensures Next(Bits(n), w) < Pow2(n)
    ensures Diff(Bits(n), Next(Bits(n), w), r) == Diff(Bits(n), w, r) + 1
  {
    hide Pow2;
    var m := Pow2(n);
    Pow2Monotone(c, n);
    ModAdd(w - r, 1, m);
    SmallMod(1, m);
    ReducedFirst(w + 1, r, m);
    assert w - r + 1 == w + 1 - r;
  }

  lemma ReducedFirst(a: nat, r: nat, m: nat)
    requires m > 0
    ensures a % m < m && (a % m - r) % m == (a - r) % m
  {
    assert a == m * (a / m) + a % m;
    ModWrap(a % m - r, a / m, m);
  }

  /** Consuming one event makes the distance one smaller. */
  lemma StepDiff(n: nat, r: nat, w: nat)
    requires r < Pow2(n) && w < Pow2(n) && r != w
    ensures Next(Bits(n), r) < Pow2(n)
    ensures Diff(Bits(n), w, Next(Bits(n), r)) == Diff(Bits(n), w, r) - 1
  {
    hide Pow2;
    var m := Pow2(n);
    DiffZero(n, r, w);
    var r' := (r + 1) % m;
    var len := (w - r) % m;
    assert w - r' == (len - 1) + m * ((w - r) / m + (r + 1) / m) by {
      Distribute(m, (w - r) / m, (r + 1) / m);
    }
    ModWrap(len - 1, (w - r) / m + (r + 1) / m, m);
    SmallMod(len - 1, m);
  }

  // ----- the loops of the processor

  /** `enqueueMidiEvents`: events enter in order until the ring is full; the rest is dropped. */
  method EnqueueMidiEvents(fifo: Fifo, events: seq<Event>) returns (accepted: nat)
    requires fifo.Valid()
    modifies fifo`writePos, fifo.buffer
    ensures fifo.Valid()
    ensures accepted <= |events| && fifo.Contents() == old(fifo.Contents()) + events[..accepted]
    ensures accepted < |events| ==> |fifo.Contents()| == Pow2(fifo.c)
  {
    hide Slot, Pow2, Window, Diff;
    accepted := 0;
    while accepted < |events|
      invariant fifo.Valid() && accepted <= |events|
      invariant fifo.Contents() == old(fifo.Contents()) + events[..accepted]
    {
      var ok := fifo.Push(events[accepted]);
      if !ok {
        return;
      }
      accepted := accepted + 1;
    }
  }

  /** A message for the host, with the one-based channel and the position inside the block. */
  datatype HostMessage = NoteOn(channel: nat, note: nat, velocity: nat, pos: nat) | NoteOff(channel: nat, note: nat, pos: nat)

  function ToHost(e: Event, numSamples: nat): HostMessage
    requires numSamples > 0
  {
    var pos := if e.samplePosition < numSamples - 1 then e.samplePosition else numSamples - 1;
    if e.isNoteOn then NoteOn(e.channel + 1, e.note, e.velocity, pos) else NoteOff(e.channel + 1, e.note, pos)
  }

  function AllToHost(events: seq<Event>, numSamples: nat): seq<HostMessage>
    requires numSamples > 0
  {
    if events == [] then [] else [ToHost(events[0], numSamples)] + AllToHost(events[1..], numSamples)
  }

  lemma {:induction false} AllToHostConcat(a: seq<Event>, b: seq<Event>, numSamples: nat)
    requires numSamples > 0
    ensures AllToHost(a + b, numSamples) == AllToHost(a, numSamples) + AllToHost(b, numSamples)
  {
    if a == [] {
      assert a + b == b;
    } else {
      AllToHostConcat(a[1..], b, numSamples);
      assert (a + b)[1..] == a[1..] + b;
    }
  }

  lemma OneMoreToHost(events: seq<Event>, e: Event, numSamples: nat)
    requires numSamples > 0
    ensures AllToHost([], numSamples) == []
    ensures AllToHost(events + [e], numSamples) == AllToHost(events, numSamples) + [ToHost(e, numSamples)]
  {
    AllToHostConcat(events, [e], numSamples);
  }

  lemma Associates(a: seq<Event>, b: seq<Event>, c: seq<Event>)
    ensures a + (b + c) == (a + b) + c
  {
  }

  /** The message says what the event said: kind, note and velocity, the channel counted from one, the position clamped. */
  predicate Conveys(e: Event, m: HostMessage, numSamples: nat) {
    && m.pos < numSamples && m.pos <= e.samplePosition && (m.pos == e.samplePosition || m.pos == numSamples - 1)
    && m.channel == e.channel + 1 && m.note == e.note
    && (m.NoteOn? <==> e.isNoteOn) && (m.NoteOn? ==> m.velocity == e.velocity)
  }

  lemma {:induction false} AllConveyed(events: seq<Event>, numSamples: nat)
    requires numSamples > 0
    ensures |AllToHost(events, numSamples)| == |events|
    ensures forall i :: 0 <= i < |events| ==> Conveys(events[i], AllToHost(events, numSamples)[i], numSamples)
  {
    if events != [] {
      AllConveyed(events[1..], numSamples);
    }
  }

  // ----- batches that arrive while the ring is drained

  /** The room in the ring before pop number `i`, counting from zero, when `before` events entered and `i` left. */
  function Room(cap: nat, before: nat, i: nat): int {
    cap - (before - i)
  }

  /**
   Batch `i` arrives before pop number `i`. All of it enters if there is room, and otherwise
   as much of it as fills the ring.
   */
  ghost predicate ArrivedBy(cap: nat, waiting: nat, arrivals: seq<seq<Event>>, batches: seq<Batch>) {
    |batches| <= |arrivals| && forall i :: 0 <= i < |batches| ==>
      && batches[i].events == arrivals[i]
      && batches[i].accepted == Least(|arrivals[i]|, Room(cap, waiting + |Accepted(batches[..i])|, i))
  }

  function Least(a: int, b: int): int {
    if a <= b then a else b
  }

  lemma AcceptedMore(batches: seq<Batch>, b: Batch)
    requires b.accepted <= |b.events|
    ensures Accepted(batches + [b]) == Accepted(batches) + b.events[..b.accepted]
  {
    assert (batches + [b])[..|batches|] == batches;
  }

  lemma ArrivedMore(cap: nat, waiting: nat, arrivals: seq<seq<Event>>, batches: seq<Batch>, b: Batch)
    requires ArrivedBy(cap, waiting, arrivals, batches) && |batches| < |arrivals| && b.events == arrivals[|batches|]
    requires b.accepted == Least(|b.events|, Room(cap, waiting + |Accepted(batches)|, |batches|))
    ensures ArrivedBy(cap, waiting, arrivals, batches + [b])
  {
    hide Accepted;
    var more := batches + [b];
    forall i | 0 <= i < |more| ensures more[..i] == batches[..i] {
    }
    assert batches[..|batches|] == batches;
  }

  /** The next batch, if there is one, arrives before pop number `pops`. */
  method Arrive(fifo: Fifo, arrivals: seq<seq<Event>>, ghost waiting: nat, ghost pops: nat, batches: seq<Batch>)
    returns (batches': seq<Batch>)
    requires fifo.Valid() && ArrivedBy(Pow2(fifo.c), waiting, arrivals, batches)
    requires |batches| == Least(|arrivals|, pops) && |fifo.Contents()| == waiting + |Accepted(batches)| - pops
    modifies fifo`writePos, fifo.buffer
    ensures fifo.Valid() && ArrivedBy(Pow2(fifo.c), waiting, arrivals, batches')
    ensures |batches'| == Least(|arrivals|, pops + 1) && batches <= batches'
    ensures exists more :: Accepted(batches') == Accepted(batches) + more && fifo.Contents() == old(fifo.Contents()) + more
  {
    hide Slot, Pow2, Window, Diff, ArrivedBy, Accepted;
    var i := |batches|;
    batches' := batches;
    if i < |arrivals| {
      var k := EnqueueMidiEvents(fifo, arrivals[i]);
      Holds(fifo);
      var b := Batch(arrivals[i], k);
      AcceptedMore(batches, b);
      ArrivedMore(Pow2(fifo.c), waiting, arrivals, batches, b);
      batches' := batches + [b];
      assert fifo.Contents() == old(fifo.Contents()) + arrivals[i][..k];
    } else {
      assert Accepted(batches) == Accepted(batches) + [] && fifo.Contents() == old(fifo.Contents()) + [];
    }
  }

  lemma Holds(fifo: Fifo)
    requires fifo.Valid()
    ensures |fifo.Contents()| <= Pow2(fifo.c)
  {
  }

  /**
   The drain loop of `processBlock`, while the producer may enqueue a batch before every
   `pop`. With samples in the block, everything that was waiting or entered from the batches
   goes to the host in order, and the ring is empty at the end. With an empty block, the loop
   still pops one event before it looks at the block size, so that event is lost.
   */
  method Drain(fifo: Fifo, numSamples: nat, arrivals: seq<seq<Event>>) returns (midi: seq<HostMessage>, batches: seq<Batch>)
    requires fifo.Valid()
    modifies fifo`readPos, fifo`writePos, fifo.buffer
    ensures fifo.Valid()
    ensures ArrivedBy(Pow2(fifo.c), |old(fifo.Contents())|, arrivals, batches)
    ensures |batches| == Least(|arrivals|, |midi| + 1)
    ensures numSamples > 0 ==>
      var events := old(fifo.Contents()) + Accepted(batches);
      && fifo.Contents() == [] && |midi| == |events|
      && forall i :: 0 <= i < |events| ==> Conveys(events[i], midi[i], numSamples)
    ensures numSamples == 0 ==> midi == [] && fifo.Contents() == Tail(old(fifo.Contents()) + Accepted(batches))
  {
    hide Slot, Pow2, Window, Diff, Accepted, ArrivedBy, AllToHost, ToHost, Conveys, Tail;
    midi := [];
    if numSamples > 0 {
      OneMoreToHost([], EMPTY_EVENT, numSamples);
    }
    ghost var start := fifo.Contents();
    ghost var taken := [];
    NoneAccepted(Pow2(fifo.c), |start|, arrivals);
    batches := Arrive(fifo, arrivals, |start|, 0, []);
    ghost var first :| Accepted(batches) == [] + first && fifo.Contents() == start + first;
    assert [] + first == first;
    var ok, ev := fifo.Pop();
    assert taken + (if ok then [ev] else []) + fifo.Contents() == start + first;
    while ok
      invariant fifo.Valid() && (numSamples == 0 ==> taken == [])
      invariant ArrivedBy(Pow2(fifo.c), |start|, arrivals, batches)
      invariant |midi| == |taken| && |batches| == Least(|arrivals|, |midi| + 1)
      invariant start + Accepted(batches) == taken + (if ok then [ev] else []) + fifo.Contents()
      invariant numSamples > 0 ==> midi == AllToHost(taken, numSamples)
      invariant !ok ==> fifo.Contents() == []
      decreases |arrivals| - |batches|, |fifo.Contents()|, ok
    {
      if numSamples == 0 {
        assert taken + [ev] + fifo.Contents() == [ev] + fifo.Contents();
        TailOf(ev, fifo.Contents());
        break;
      }
      midi := midi + [ToHost(ev, numSamples)];
      OneMoreToHost(taken, ev, numSamples);
      taken := taken + [ev];
      ghost var rest, before, arrived := fifo.Contents(), Accepted(batches), batches;
      assert start + before == taken + rest;
      batches := Arrive(fifo, arrivals, |start|, |taken|, batches);
      ghost var more :| Accepted(batches) == before + more && fifo.Contents() == rest + more;
      assert |batches| == |arrived| ==> batches == arrived && more == [];
      Associates(start, before, more);
      Associates(taken, rest, more);
      ok, ev := fifo.Pop();
      ghost var next := if ok then [ev] else [];
      assert rest + more == next + fifo.Contents();
      Associates(taken, next, fifo.Contents());
    }
    assert !ok ==> taken + [] + [] == taken;
    NoTail();
    if numSamples > 0 {
      AllConveyed(start + Accepted(batches), numSamples);
    }
  }

  lemma NoneAccepted(cap: nat, waiting: nat, arrivals: seq<seq<Event>>)
    ensures Accepted([]) == [] && ArrivedBy(cap, waiting, arrivals, [])
  {
  }

  function Tail(events: seq<Event>): seq<Event> {
    if events == [] then [] else events[1..]
  }

  lemma TailOf(e: Event, events: seq<Event>)
    ensures Tail([e] + events) == events
  {
  }

  lemma NoTail()
    ensures Tail([]) == []
  {
  }
}
