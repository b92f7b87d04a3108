/**
 The lock-free single-producer single-consumer ring of `plugin/src/engine/MidiFifo.hpp`
 as a state machine over its atomic micro-steps.

 A run is a sequence of `Step` labels chosen by an arbitrary scheduler. Each atomic
 index is kept as its modification order: a load by the other thread may return any
 value stored since the one that thread saw last, so stale reads are part of every
 run. The same machine is run with unbounded counters and with the wrapping counters
 of `std::size_t`; `WrappingRefines` shows that they cannot be told apart.
 */
module FifoProtocol {
  import opened Arithmetic

  datatype Event = Event(samplePosition: nat, channel: nat, note: nat, velocity: nat, isNoteOn: bool)

  datatype Option<+T> = None | Some(value: T)

  // ----- index arithmetic

  datatype Width = Unbounded | Bits(n: nat)

  /** The index after `w`. */
  function Next(m: Width, w: nat): nat {
    match m
    case Unbounded => w + 1
    case Bits(n) => (w + 1) % Pow2(n)
  }

  /** `w - r` as the index type computes it. */
  function Diff(m: Width, w: nat, r: nat): int {
    match m
    case Unbounded => w - r
    case Bits(n) => (w - r) % Pow2(n)
  }

  function BitAnd(a: nat, b: nat): nat {
    if a == 0 || b == 0 then 0
    else 2 * BitAnd(a / 2, b / 2) + (if a % 2 == 1 && b % 2 == 1 then 1 else 0)
  }

  /** The slot of an index: `w & (Capacity - 1)` for `Capacity == 2^c`. */
  function Slot(c: nat, w: nat): (i: nat)
    ensures i < Pow2(c)
  {
    MaskIsModulo(c, w);
    BitAnd(w, Pow2(c) - 1)
  }

  /** Masking with `2^c - 1` is the remainder modulo `2^c`. */
  lemma {:induction false} MaskIsModulo(c: nat, w: nat)
    ensures BitAnd(w, Pow2(c) - 1) == w % Pow2(c)
  {
    hide BitAnd;
    AndStep(w, Pow2(c) - 1);
    if c > 0 && w > 0 {
      MaskIsModulo(c - 1, w / 2);
      HalfMask(Pow2(c - 1));
      ModTwice(w, Pow2(c - 1));
    } else {
      SmallMod(0, Pow2(c));
    }
  }

  lemma HalfMask(p: nat)
    requires p > 0
    ensures (2 * p - 1) % 2 == 1 && (2 * p - 1) / 2 == p - 1
  {
  }

  lemma AndStep(a: nat, b: nat)
    ensures a == 0 || b == 0 ==> BitAnd(a, b) == 0
    ensures a > 0 && b % 2 == 1 ==> BitAnd(a, b) == 2 * BitAnd(a / 2, b / 2) + a % 2
  {
  }

  // ----- the machine

  /** Where the producer stands inside `push` or `size`. */
  datatype Producer =
    | Idle
    | HasOwn(w: nat)
    | HasBoth(w: nat, r: nat)
    | Writing(w: nat)
    | Written(w: nat)
    | Sizing(w: nat)

  /** Where the consumer stands inside `pop`, `clear` or `size`. */
  datatype Consumer =
    | Resting
    | KnowsOwn(r: nat)
    | KnowsBoth(r: nat, w: nat)
    | Reading(r: nat)
    | Holding(r: nat, out: Event)
    | Clearing(w: nat)
    | Measuring(w: nat)

  /** A batch handed to `enqueueMidiEvents` and how many of its events were taken in. */
  datatype Batch = Batch(events: seq<Event>, accepted: nat)

  /** What the consumer did: delivered one event, or cleared a block of them. */
  datatype Take = Delivered(event: Event) | Cleared(block: seq<Event>)

  /** A result of `size`, with the number of events that were really waiting at its last load. */
  datatype Size = Size(byProducer: bool, result: int, waiting: int)

  datatype State = State(
    buffer: seq<Event>,
    writeLog: seq<nat>,      // modification order of write_pos_
    readLog: seq<nat>,       // modification order of read_pos_
    sawRead: nat,            // last entry of readLog the producer has seen
    sawWrite: nat,           // last entry of writeLog the consumer has seen
    producer: Producer,
    consumer: Consumer,
    batch: seq<Event>,       // the batch being enqueued
    done: nat,               // how many of its events are in
    finished: seq<Batch>,
    pushed: seq<Event>,      // every event ever published, in order
    taken: seq<Take>,        // everything the consumer ever did, in order
    sizes: seq<Size>)        // every result of size, in order

  datatype Step =
    | Enqueue(events: seq<Event>)
    | LoadOwnWrite
    | LoadRead(at: nat)
    | CheckFull
    | WriteSlot
    | PublishWrite
    | LoadOwnRead
    | LoadWrite(at: nat)
    | CheckEmpty
    | ReadSlot
    | PublishRead
    | ClearLoad(at: nat)
    | ClearStore
    | SizeOwnWrite           // `size` called by the producer
    | SizeRead(at: nat)
    | SizeWrite(at: nat)     // `size` called by the consumer
    | SizeOwnRead

  const EMPTY_EVENT := Event(0, 0, 0, 0, false)

  function Initial(c: nat): State {
    State(seq(Pow2(c), (i: nat) => EMPTY_EVENT), [0], [0], 0, 0, Idle, Resting, [], 0, [], [], [], [])
  }

  predicate Enabled(c: nat, s: State, step: Step) {
    && |s.writeLog| > 0 && |s.readLog| > 0 && |s.buffer| == Pow2(c)
    && s.sawRead < |s.readLog| && s.sawWrite < |s.writeLog|
    && match step
       case Enqueue(_) => s.producer == Idle && s.batch == [] && s.done == 0
       case LoadOwnWrite => s.producer == Idle && s.done < |s.batch|
       case LoadRead(at) => s.producer.HasOwn? && s.sawRead <= at < |s.readLog|
       case CheckFull => s.producer.HasBoth?
       case WriteSlot => s.producer.Writing? && s.done < |s.batch|
       case PublishWrite => s.producer.Written? && s.done < |s.batch|
       case LoadOwnRead => s.consumer == Resting
       case LoadWrite(at) => s.consumer.KnowsOwn? && s.sawWrite <= at < |s.writeLog|
       case CheckEmpty => s.consumer.KnowsBoth?
       case ReadSlot => s.consumer.Reading?
       case PublishRead => s.consumer.Holding?
       case ClearLoad(at) => s.consumer == Resting && s.sawWrite <= at < |s.writeLog|
       case ClearStore => s.consumer.Clearing?
       case SizeOwnWrite => s.producer == Idle
       case SizeRead(at) => s.producer.Sizing? && s.sawRead <= at < |s.readLog|
       case SizeWrite(at) => s.consumer == Resting && s.sawWrite <= at < |s.writeLog|
       case SizeOwnRead => s.consumer.Measuring?
  }

  function Last(log: seq<nat>): nat
    requires |log| > 0
  {
    log[|log| - 1]
  }

  /** The loop over the batch moves on after a successful push, and forgets the rest after a failed one. */
  function BatchOver(s: State): State {
    s.(finished := s.finished + [Batch(s.batch, s.done)], batch := [], done := 0)
  }

  function Apply(m: Width, c: nat, s: State, step: Step): State
    requires Enabled(c, s, step)
  {
    match step
    case Enqueue(events) =>
      if events == [] then s.(finished := s.finished + [Batch([], 0)]) else s.(batch := events)
    case LoadOwnWrite => s.(producer := HasOwn(Last(s.writeLog)))
    case LoadRead(at) => s.(producer := HasBoth(s.producer.w, s.readLog[at]), sawRead := at)
    case CheckFull =>
      if Diff(m, s.producer.w, s.producer.r) >= Pow2(c)
      then BatchOver(s.(producer := Idle))
      else s.(producer := Writing(s.producer.w))
    case WriteSlot =>
      s.(buffer := s.buffer[Slot(c, s.producer.w) := s.batch[s.done]], producer := Written(s.producer.w))
    case PublishWrite =>
      var s' := s.(writeLog := s.writeLog + [Next(m, s.producer.w)],
                   pushed := s.pushed + [s.batch[s.done]],
                   done := s.done + 1,
                   producer := Idle);
      if s'.done == |s'.batch| then BatchOver(s') else s'
    case LoadOwnRead => s.(consumer := KnowsOwn(Last(s.readLog)))
    case LoadWrite(at) => s.(consumer := KnowsBoth(s.consumer.r, s.writeLog[at]), sawWrite := at)
    case CheckEmpty =>
      if s.consumer.r == s.consumer.w then s.(consumer := Resting) else s.(consumer := Reading(s.consumer.r))
    case ReadSlot => s.(consumer := Holding(s.consumer.r, s.buffer[Slot(c, s.consumer.r)]))
    case PublishRead =>
      s.(readLog := s.readLog + [Next(m, s.consumer.r)],
         taken := s.taken + [Delivered(s.consumer.out)],
         consumer := Resting)
    case ClearLoad(at) => s.(consumer := Clearing(s.writeLog[at]), sawWrite := at)
    case ClearStore =>
      s.(readLog := s.readLog + [s.consumer.w],
         taken := s.taken + [Cleared(Dropped(s))],
         consumer := Resting)
    case SizeOwnWrite => s.(producer := Sizing(Last(s.writeLog)))
    case SizeRead(at) =>
      s.(producer := Idle, sawRead := at, sizes := s.sizes + [Size(true, Diff(m, s.producer.w, s.readLog[at]), Waiting(s))])
    case SizeWrite(at) => s.(consumer := Measuring(s.writeLog[at]), sawWrite := at)
    case SizeOwnRead =>
      s.(consumer := Resting, sizes := s.sizes + [Size(false, Diff(m, s.consumer.w, Last(s.readLog)), Waiting(s))])
  }

  /** How many events are published and not yet consumed. */
  function Waiting(s: State): int {
    |s.pushed| - |Consumed(s.taken)|
  }

  /** The events that a pending `clear` is about to skip, for the record. */
  function Dropped(s: State): seq<Event> {
    var from := |Consumed(s.taken)|;
    if from <= s.sawWrite <= |s.pushed| then s.pushed[from..s.sawWrite] else []
  }

  /** Everything the consumer has moved past, in order. */
  function Consumed(taken: seq<Take>): seq<Event> {
    if taken == [] then []
    else
      Consumed(taken[..|taken| - 1]) +
      match taken[|taken| - 1]
      case Delivered(event) => [event]
      case Cleared(block) => block
  }

  /** Everything the consumer has handed to the host, in order. */
  function Delivery(taken: seq<Take>): seq<Event> {
    if taken == [] then []
    else
      Delivery(taken[..|taken| - 1]) +
      match taken[|taken| - 1]
      case Delivered(event) => [event]
      case Cleared(_) => []
  }

  /** Everything that entered from the batches, in order. */
  function Accepted(batches: seq<Batch>): seq<Event> {
    if batches == [] then []
    else
      var b := batches[|batches| - 1];
      Accepted(batches[..|batches| - 1]) + (if b.accepted <= |b.events| then b.events[..b.accepted] else b.events)
  }

  /** The state after a schedule, if the schedule is possible. */
  function Run(m: Width, c: nat, schedule: seq<Step>): Option<State> {
    if schedule == [] then Some(Initial(c))
    else
      match Run(m, c, schedule[..|schedule| - 1])
      case None => None
      case Some(s) =>
        var step := schedule[|schedule| - 1];
        if Enabled(c, s, step) then Some(Apply(m, c, s, step)) else None
  }
}
