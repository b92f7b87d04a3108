/**
 What every run of the ring keeps, with unbounded counters.
 */
module FifoInvariant {
  import opened Arithmetic
  import opened FifoProtocol

  /** How many events were published and how many were consumed. */
  function WriteCount(s: State): nat {
    |s.pushed|
  }

  function ReadCount(s: State): nat {
    |Consumed(s.taken)|
  }

  ghost predicate LogsAgree(c: nat, s: State) {
    && |s.buffer| == Pow2(c)
    && |s.writeLog| == WriteCount(s) + 1
    && (forall k :: 0 <= k < |s.writeLog| ==> s.writeLog[k] == k)
    && |s.readLog| > 0 && Last(s.readLog) == ReadCount(s)
    && (forall j, k :: 0 <= j <= k < |s.readLog| ==> s.readLog[j] <= s.readLog[k])
    && s.sawRead < |s.readLog| && s.sawWrite < |s.writeLog|
    && ReadCount(s) <= s.sawWrite
    && WriteCount(s) <= s.readLog[s.sawRead] + Pow2(c)
  }

  /** Consumption follows publication, event by event. */
  ghost predicate InOrder(s: State) {
    ReadCount(s) <= WriteCount(s) && Consumed(s.taken) == s.pushed[..ReadCount(s)]
  }

  /** The unread events sit in their slots. */
  ghost predicate RingHolds(c: nat, s: State)
    requires |s.buffer| == Pow2(c)
  {
    forall i: nat :: ReadCount(s) <= i < WriteCount(s) ==> s.buffer[Slot(c, i)] == s.pushed[i]
  }

  ghost predicate ProducerAt(c: nat, s: State)
    requires |s.buffer| == Pow2(c) && s.sawRead < |s.readLog|
  {
    && (s.producer == Idle || s.producer.Sizing? || s.done < |s.batch|)
    && match s.producer
       case Idle => true
       case HasOwn(w) => w == WriteCount(s)
       case HasBoth(w, r) => w == WriteCount(s) && r == s.readLog[s.sawRead]
       case Writing(w) => w == WriteCount(s) && w < s.readLog[s.sawRead] + Pow2(c)
       case Written(w) => w == WriteCount(s) && w < s.readLog[s.sawRead] + Pow2(c) && s.buffer[Slot(c, w)] == s.batch[s.done]
       case Sizing(w) => w == WriteCount(s)
  }

  ghost predicate ConsumerAt(s: State) {
    match s.consumer
    case Resting => true
    case KnowsOwn(r) => r == ReadCount(s)
    case KnowsBoth(r, w) => r == ReadCount(s) && w == s.sawWrite
    case Reading(r) => r == ReadCount(s) && r < s.sawWrite
    case Holding(r, out) => r == ReadCount(s) && r < s.sawWrite <= WriteCount(s) && out == s.pushed[r]
    case Clearing(w) => w == s.sawWrite
    case Measuring(w) => w == s.sawWrite
  }

  /** The producer never sees too few events, the consumer never too many, and neither more than the ring holds. */
  ghost predicate SizesBounded(c: nat, sizes: seq<Size>) {
    forall z :: z in sizes ==>
      0 <= z.result <= Pow2(c) && if z.byProducer then z.waiting <= z.result else z.result <= z.waiting
  }

  /** Each finished batch entered as a prefix, and the current one is partly in. */
  ghost predicate BatchesEnter(s: State) {
    && s.done <= |s.batch| && (s.batch == [] || s.done < |s.batch|)
    && (forall b :: b in s.finished ==> b.accepted <= |b.events|)
    && s.pushed == Accepted(s.finished) + s.batch[..s.done]
  }

  ghost predicate Inv(c: nat, s: State) {
    && LogsAgree(c, s) && InOrder(s) && RingHolds(c, s)
    && ProducerAt(c, s) && ConsumerAt(s) && BatchesEnter(s) && SizesBounded(c, s.sizes)
  }

  lemma InitialInv(c: nat)
    ensures Inv(c, Initial(c))
  {
  }

  /** Indices less than a capacity apart have different slots. */
  lemma SlotsDiffer(c: nat, i: nat, j: nat)
    requires i < j < i + Pow2(c)
    ensures Slot(c, i) != Slot(c, j)
  {
    hide BitAnd;
    MaskIsModulo(c, i);
    MaskIsModulo(c, j);
    var n := Pow2(c);
    ModAdd(i, j - i, n);
    SmallMod(j - i, n);
  }

  lemma ConsumedAppend(taken: seq<Take>, t: Take)
    ensures Consumed(taken + [t]) == Consumed(taken) + (match t case Delivered(e) => [e] case Cleared(b) => b)
  {
    assert (taken + [t])[..|taken|] == taken;
  }

  lemma AcceptedAppend(batches: seq<Batch>, b: Batch)
    requires b.accepted <= |b.events|
    ensures Accepted(batches + [b]) == Accepted(batches) + b.events[..b.accepted]
  {
    assert (batches + [b])[..|batches|] == batches;
  }

  // ----- the producer's steps

  lemma EnqueueInv(c: nat, s: State, events: seq<Event>)
    requires Inv(c, s) && Enabled(c, s, Enqueue(events))
    ensures Inv(c, Apply(Unbounded, c, s, Enqueue(events)))
  {
    hide Slot, Pow2, SizesBounded;
    AcceptedAppend(s.finished, Batch([], 0));
  }

  lemma LoadsInv(c: nat, s: State, step: Step)
    requires Inv(c, s) && Enabled(c, s, step)
    requires step.LoadOwnWrite? || step.LoadRead? || step.SizeOwnWrite?
    ensures Inv(c, Apply(Unbounded, c, s, step))
  {
    hide Slot, Pow2, SizesBounded;
  }

  lemma CheckFullInv(c: nat, s: State)
    requires Inv(c, s) && Enabled(c, s, CheckFull)
    ensures Inv(c, Apply(Unbounded, c, s, CheckFull))
  {
    hide Slot, Pow2, SizesBounded;
    AcceptedAppend(s.finished, Batch(s.batch, s.done));
  }

  lemma WriteSlotInv(c: nat, s: State)
    requires Inv(c, s) && Enabled(c, s, WriteSlot)
    ensures Inv(c, Apply(Unbounded, c, s, WriteSlot))
  {
    hide Slot, SizesBounded;
    var s' := Apply(Unbounded, c, s, WriteSlot);
    forall i: nat | ReadCount(s') <= i < WriteCount(s') ensures s'.buffer[Slot(c, i)] == s'.pushed[i] {
      assert s.readLog[s.sawRead] <= Last(s.readLog);
      SlotsDiffer(c, i, WriteCount(s));
    }
  }

  lemma PublishWriteBatches(c: nat, s: State)
    requires BatchesEnter(s) && Enabled(c, s, PublishWrite)
    ensures BatchesEnter(Apply(Unbounded, c, s, PublishWrite))
  {
    hide Slot, Pow2, Accepted;
    var entered := Accepted(s.finished);
    assert s.batch[..s.done + 1] == s.batch[..s.done] + [s.batch[s.done]];
    assert entered + s.batch[..s.done] + [s.batch[s.done]] == entered + s.batch[..s.done + 1];
    AcceptedAppend(s.finished, Batch(s.batch, s.done + 1));
    assert entered + s.batch[..s.done + 1] + [] == entered + s.batch[..s.done + 1];
  }

  lemma PublishWriteInv(c: nat, s: State)
    requires Inv(c, s) && Enabled(c, s, PublishWrite)
    ensures Inv(c, Apply(Unbounded, c, s, PublishWrite))
  {
    hide Slot, Pow2, BatchesEnter, Accepted, SizesBounded;
    PublishWriteBatches(c, s);
  }

  // ----- the consumer's steps

  lemma ConsumerLoadsInv(c: nat, s: State, step: Step)
    requires Inv(c, s) && Enabled(c, s, step)
    requires step.LoadOwnRead? || step.LoadWrite? || step.ClearLoad? || step.SizeWrite?
    ensures Inv(c, Apply(Unbounded, c, s, step))
  {
    hide Slot, Pow2, SizesBounded;
  }

  lemma CheckEmptyInv(c: nat, s: State)
    requires Inv(c, s) && Enabled(c, s, CheckEmpty)
    ensures Inv(c, Apply(Unbounded, c, s, CheckEmpty))
  {
    hide Slot, Pow2, SizesBounded;
  }

  lemma ReadSlotInv(c: nat, s: State)
    requires Inv(c, s) && Enabled(c, s, ReadSlot)
    ensures Inv(c, Apply(Unbounded, c, s, ReadSlot))
  {
    hide Slot, Pow2, SizesBounded;
  }

  lemma PublishReadInv(c: nat, s: State)
    requires Inv(c, s) && Enabled(c, s, PublishRead)
    ensures Inv(c, Apply(Unbounded, c, s, PublishRead))
  {
    hide Slot, Pow2, SizesBounded;
    ConsumedAppend(s.taken, Delivered(s.consumer.out));
    assert s.pushed[..ReadCount(s) + 1] == s.pushed[..ReadCount(s)] + [s.pushed[ReadCount(s)]];
  }

  lemma ClearFrame(s: State, s': State)
    requires BatchesEnter(s) && s' == s.(readLog := s'.readLog, taken := s'.taken, consumer := s'.consumer)
    ensures BatchesEnter(s')
  {
  }

  lemma ClearStoreInv(c: nat, s: State)
    requires Inv(c, s) && Enabled(c, s, ClearStore)
    ensures Inv(c, Apply(Unbounded, c, s, ClearStore))
  {
    hide Slot, Pow2, SizesBounded, BatchesEnter, Consumed;
    ConsumedAppend(s.taken, Cleared(Dropped(s)));
    ClearFrame(s, Apply(Unbounded, c, s, ClearStore));
    assert s.pushed[..s.sawWrite] == s.pushed[..ReadCount(s)] + s.pushed[ReadCount(s)..s.sawWrite];
  }

  // ----- measuring

  lemma SizesGrow(c: nat, sizes: seq<Size>, z: Size)
    requires SizesBounded(c, sizes) && SizesBounded(c, [z])
    ensures SizesBounded(c, sizes + [z])
  {
    assert z in [z];
  }

  lemma SizeReadInv(c: nat, s: State, at: nat)
    requires Inv(c, s) && Enabled(c, s, SizeRead(at))
    ensures Inv(c, Apply(Unbounded, c, s, SizeRead(at)))
  {
    hide Slot, Pow2, RingHolds, BatchesEnter;
    assert s.readLog[s.sawRead] <= s.readLog[at] <= Last(s.readLog);
    SizesGrow(c, s.sizes, Size(true, s.producer.w - s.readLog[at], Waiting(s)));
    SizeFrame(c, s, Apply(Unbounded, c, s, SizeRead(at)));
  }

  lemma SizeOwnReadInv(c: nat, s: State)
    requires Inv(c, s) && Enabled(c, s, SizeOwnRead)
    ensures Inv(c, Apply(Unbounded, c, s, SizeOwnRead))
  {
    hide Slot, Pow2, RingHolds, BatchesEnter;
    assert s.readLog[s.sawRead] <= Last(s.readLog);
    SizesGrow(c, s.sizes, Size(false, s.consumer.w - Last(s.readLog), Waiting(s)));
    SizeFrame(c, s, Apply(Unbounded, c, s, SizeOwnRead));
  }

  /** Measuring touches neither the ring nor the batches. */
  lemma SizeFrame(c: nat, s: State, s': State)
    requires Inv(c, s)
    requires s' == s.(producer := s'.producer, consumer := s'.consumer, sawRead := s'.sawRead, sawWrite := s'.sawWrite, sizes := s'.sizes)
    ensures RingHolds(c, s') && BatchesEnter(s')
  {
    hide Slot, Pow2;
  }

  lemma StepInv(c: nat, s: State, step: Step)
    requires Inv(c, s) && Enabled(c, s, step)
    ensures Inv(c, Apply(Unbounded, c, s, step))
  {
    hide Inv, Apply;
    match step
    case Enqueue(events) => EnqueueInv(c, s, events);
    case CheckFull => CheckFullInv(c, s);
    case WriteSlot => WriteSlotInv(c, s);
    case PublishWrite => PublishWriteInv(c, s);
    case PublishRead => PublishReadInv(c, s);
    case ClearStore => ClearStoreInv(c, s);
    case LoadOwnWrite => LoadsInv(c, s, step);
    case LoadRead(_) => LoadsInv(c, s, step);
    case SizeOwnWrite => LoadsInv(c, s, step);
    case SizeRead(at) => SizeReadInv(c, s, at);
    case SizeOwnRead => SizeOwnReadInv(c, s);
    case CheckEmpty => CheckEmptyInv(c, s);
    case ReadSlot => ReadSlotInv(c, s);
    case _ => ConsumerLoadsInv(c, s, step);
  }

  /** Every state that an unbounded run reaches satisfies the invariant. */
  lemma {:induction false} RunInv(c: nat, schedule: seq<Step>)
    ensures Run(Unbounded, c, schedule).Some? ==> Inv(c, Run(Unbounded, c, schedule).value)
  {
    hide Inv, Apply;
    if schedule == [] {
      InitialInv(c);
    } else {
      var before, step := schedule[..|schedule| - 1], schedule[|schedule| - 1];
      RunInv(c, before);
      if Run(Unbounded, c, schedule).Some? {
        StepInv(c, Run(Unbounded, c, before).value, step);
      }
    }
  }
}
