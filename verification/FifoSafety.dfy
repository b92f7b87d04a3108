/**
 The wrapping ring refines the unbounded one, and what that gives for every
 schedule of the real indices.
 */
module FifoSafety {
  import opened Arithmetic
  import opened FifoProtocol
  import opened FifoInvariant

  // ----- wrapping

  /** The low `n` bits of an unbounded counter. */
  function Low(n: nat, w: nat): nat {
    w % Pow2(n)
  }

  function WrapLog(n: nat, log: seq<nat>): (wrapped: seq<nat>)
    ensures |wrapped| == |log|
  {
    seq(|log|, (i: nat) requires i < |log| => Low(n, log[i]))
  }

  function WrapProducer(n: nat, p: Producer): Producer {
    match p
    case Idle => Idle
    case HasOwn(w) => HasOwn(Low(n, w))
    case HasBoth(w, r) => HasBoth(Low(n, w), Low(n, r))
    case Writing(w) => Writing(Low(n, w))
    case Written(w) => Written(Low(n, w))
    case Sizing(w) => Sizing(Low(n, w))
  }

  function WrapConsumer(n: nat, k: Consumer): Consumer {
    match k
    case Resting => Resting
    case KnowsOwn(r) => KnowsOwn(Low(n, r))
    case KnowsBoth(r, w) => KnowsBoth(Low(n, r), Low(n, w))
    case Reading(r) => Reading(Low(n, r))
    case Holding(r, out) => Holding(Low(n, r), out)
    case Clearing(w) => Clearing(Low(n, w))
    case Measuring(w) => Measuring(Low(n, w))
  }

  /** The state with every index reduced to `n` bits; nothing else changes. */
  function Wrap(n: nat, s: State): State {
    s.(writeLog := WrapLog(n, s.writeLog),
       readLog := WrapLog(n, s.readLog),
       producer := WrapProducer(n, s.producer),
       consumer := WrapConsumer(n, s.consumer))
  }

  lemma WrapNext(n: nat, w: nat)
    ensures Next(Bits(n), w % Pow2(n)) == (w + 1) % Pow2(n)
  {
    var m := Pow2(n);
    assert w + 1 == (w % m + 1) + m * (w / m);
    ModWrap(w % m + 1, w / m, m);
  }

  lemma WrapDiff(n: nat, w: nat, r: nat)
    requires r <= w < r + Pow2(n)
    ensures Diff(Bits(n), w % Pow2(n), r % Pow2(n)) == w - r
  {
    var m := Pow2(n);
    var qw, qr := w / m, r / m;
    assert w % m - r % m == (w - r) + m * (qr - qw) by {
      Distribute(m, qr, -qw);
    }
    ModWrap(w - r, qr - qw, m);
    SmallMod(w - r, m);
  }

  lemma WrapEqual(n: nat, w: nat, r: nat)
    requires r <= w < r + Pow2(n)
    ensures r % Pow2(n) == w % Pow2(n) <==> r == w
  {
    WrapDiff(n, w, r);
    SmallMod(0, Pow2(n));
  }

  /** The capacity divides the range of the index type, so wrapping does not move slots. */
  lemma WrapSlot(n: nat, c: nat, w: nat)
    requires c <= n
    ensures Slot(c, w % Pow2(n)) == Slot(c, w)
  {
    hide BitAnd, Pow2;
    var m, p := Pow2(n), Pow2(c);
    Pow2Split(n, c);
    var k := Pow2(n - c);
    assert w == w % m + p * (k * (w / m)) by {
      assert (k * p) * (w / m) == p * (k * (w / m));
    }
    ModWrap(w % m, k * (w / m), p);
    MaskIsModulo(c, w);
    MaskIsModulo(c, w % m);
  }

  lemma WrapLogAppend(n: nat, log: seq<nat>, w: nat)
    ensures WrapLog(n, log + [w]) == WrapLog(n, log) + [Low(n, w)]
  {
  }

  lemma WrapEnabled(n: nat, c: nat, s: State, step: Step)
    ensures Enabled(c, Wrap(n, s), step) <==> Enabled(c, s, step)
  {
  }

  lemma WrapLoads(n: nat, c: nat, s: State, step: Step)
    requires Enabled(c, s, step)
    requires !step.CheckFull? && !step.CheckEmpty? && !step.WriteSlot? && !step.ReadSlot?
    requires !step.PublishWrite? && !step.PublishRead? && !step.ClearStore? && !step.SizeRead? && !step.SizeOwnRead?
    ensures Enabled(c, Wrap(n, s), step)
    ensures Apply(Bits(n), c, Wrap(n, s), step) == Wrap(n, Apply(Unbounded, c, s, step))
  {
    WrapEnabled(n, c, s, step);
  }

  lemma WrapChecks(n: nat, c: nat, s: State, step: Step)
    requires c < n && Inv(c, s) && Enabled(c, s, step)
    requires step.CheckFull? || step.CheckEmpty?
    ensures Enabled(c, Wrap(n, s), step)
    ensures Apply(Bits(n), c, Wrap(n, s), step) == Wrap(n, Apply(Unbounded, c, s, step))
  {
    hide RingHolds, BatchesEnter, SizesBounded;
    WrapEnabled(n, c, s, step);
    Pow2Monotone(c, n);
    if step.CheckFull? {
      assert s.readLog[s.sawRead] <= Last(s.readLog);
      WrapDiff(n, s.producer.w, s.producer.r);
    } else {
      assert s.readLog[s.sawRead] <= Last(s.readLog);
      WrapEqual(n, s.consumer.w, s.consumer.r);
    }
  }

  lemma WrapSizes(n: nat, c: nat, s: State, step: Step)
    requires c < n && Inv(c, s) && Enabled(c, s, step)
    requires step.SizeRead? || step.SizeOwnRead?
    ensures Enabled(c, Wrap(n, s), step)
    ensures Apply(Bits(n), c, Wrap(n, s), step) == Wrap(n, Apply(Unbounded, c, s, step))
  {
    hide RingHolds, BatchesEnter, SizesBounded, Pow2, Slot;
    WrapEnabled(n, c, s, step);
    Pow2Monotone(c, n);
    assert s.readLog[s.sawRead] <= Last(s.readLog);
    if step.SizeRead? {
      assert s.readLog[s.sawRead] <= s.readLog[step.at] <= Last(s.readLog);
      WrapDiff(n, s.producer.w, s.readLog[step.at]);
    } else {
      WrapDiff(n, s.consumer.w, Last(s.readLog));
    }
  }

  lemma WrapSlots(n: nat, c: nat, s: State, step: Step)
    requires c < n && Enabled(c, s, step)
    requires step.WriteSlot? || step.ReadSlot?
    ensures Enabled(c, Wrap(n, s), step)
    ensures Apply(Bits(n), c, Wrap(n, s), step) == Wrap(n, Apply(Unbounded, c, s, step))
  {
    hide Slot;
    WrapEnabled(n, c, s, step);
    WrapSlot(n, c, if step.WriteSlot? then s.producer.w else s.consumer.r);
  }

  lemma WrapStores(n: nat, c: nat, s: State, step: Step)
    requires Enabled(c, s, step)
    requires step.PublishWrite? || step.PublishRead? || step.ClearStore?
    ensures Enabled(c, Wrap(n, s), step)
    ensures Apply(Bits(n), c, Wrap(n, s), step) == Wrap(n, Apply(Unbounded, c, s, step))
  {
    hide WrapLog;
    WrapEnabled(n, c, s, step);
    match step {
      case PublishWrite =>
        WrapNext(n, s.producer.w);
        WrapLogAppend(n, s.writeLog, s.producer.w + 1);
      case PublishRead =>
        WrapNext(n, s.consumer.r);
        WrapLogAppend(n, s.readLog, s.consumer.r + 1);
      case ClearStore =>
        WrapLogAppend(n, s.readLog, s.consumer.w);
    }
  }

  lemma WrapStep(n: nat, c: nat, s: State, step: Step)
    requires c < n && Inv(c, s) && Enabled(c, s, step)
    ensures Enabled(c, Wrap(n, s), step)
    ensures Apply(Bits(n), c, Wrap(n, s), step) == Wrap(n, Apply(Unbounded, c, s, step))
  {
    hide Inv, Apply, Wrap, Enabled;
    if step.CheckFull? || step.CheckEmpty? {
      WrapChecks(n, c, s, step);
    } else if step.SizeRead? || step.SizeOwnRead? {
      WrapSizes(n, c, s, step);
    } else if step.WriteSlot? || step.ReadSlot? {
      WrapSlots(n, c, s, step);
    } else if step.PublishWrite? || step.PublishRead? || step.ClearStore? {
      WrapStores(n, c, s, step);
    } else {
      WrapLoads(n, c, s, step);
    }
  }

  /**
   Over runs of any length, the ring with `n`-bit indices goes through exactly the
   states of the ring with unbounded counters, reduced to `n` bits, as long as its
   capacity is a power of two below `2^n`.
   */
  lemma {:induction false} WrappingRefines(n: nat, c: nat, schedule: seq<Step>)
    requires c < n
    ensures Run(Bits(n), c, schedule)
         == match Run(Unbounded, c, schedule)
            case None => None
            case Some(s) => Some(Wrap(n, s))
  {
    hide Inv, Apply, Enabled;
    if schedule == [] {
      WrapInitial(n, c);
    } else {
      var before, step := schedule[..|schedule| - 1], schedule[|schedule| - 1];
      WrappingRefines(n, c, before);
      if Run(Unbounded, c, before).Some? {
        var s := Run(Unbounded, c, before).value;
        RunInv(c, before);
        WrapEnabled(n, c, s, step);
        if Enabled(c, s, step) {
          WrapStep(n, c, s, step);
        }
      }
    }
  }

  lemma WrapInitial(n: nat, c: nat)
    ensures Wrap(n, Initial(c)) == Initial(c)
  {
    SmallMod(0, Pow2(n));
  }

  // ----- what holds of every schedule of the wrapping ring

  /** The unbounded state behind a state of the wrapping ring. */
  lemma Unwrapped(n: nat, c: nat, schedule: seq<Step>) returns (u: State)
    requires c < n && Run(Bits(n), c, schedule).Some?
    ensures Inv(c, u) && Run(Bits(n), c, schedule).value == Wrap(n, u)
  {
    hide Inv, Wrap;
    WrappingRefines(n, c, schedule);
    RunInv(c, schedule);
    u := Run(Unbounded, c, schedule).value;
  }

  /**
   First in, first out: what the consumer has moved past is a prefix of what was
   published, event by event, and what was published is, batch by batch, a prefix
   of each batch offered.
   */
  lemma FirstInFirstOut(n: nat, c: nat, schedule: seq<Step>)
    requires c < n && Run(Bits(n), c, schedule).Some?
    ensures var s := Run(Bits(n), c, schedule).value;
            && Consumed(s.taken) <= s.pushed
            && s.done <= |s.batch|
            && s.pushed == Accepted(s.finished) + s.batch[..s.done]
            && (forall b :: b in s.finished ==> b.accepted <= |b.events|)
  {
    var u := Unwrapped(n, c, schedule);
  }

  /**
   Every result of `size()`, whose two loads may be apart and stale, lies between zero and the
   capacity. On the producer's side it counts everything that is waiting, and perhaps more; on
   the consumer's side everything it counts is waiting.
   */
  lemma SizeBounded(n: nat, c: nat, schedule: seq<Step>)
    requires c < n && Run(Bits(n), c, schedule).Some?
    ensures forall z :: z in Run(Bits(n), c, schedule).value.sizes ==>
      0 <= z.result <= Pow2(c) && if z.byProducer then z.waiting <= z.result else z.result <= z.waiting
  {
    hide LogsAgree, RingHolds, BatchesEnter, ProducerAt, ConsumerAt;
    var u := Unwrapped(n, c, schedule);
  }

  /** At any instant the indices differ by the number of events waiting, which never exceeds the capacity. */
  lemma OccupancyBounded(n: nat, c: nat, schedule: seq<Step>)
    requires c < n && Run(Bits(n), c, schedule).Some?
    ensures var s := Run(Bits(n), c, schedule).value;
            && |s.writeLog| > 0 && |s.readLog| > 0
            && Diff(Bits(n), Last(s.writeLog), Last(s.readLog)) == |s.pushed| - |Consumed(s.taken)|
            && 0 <= |s.pushed| - |Consumed(s.taken)| <= Pow2(c)
  {
    hide Inv, Run, Wrap, Diff;
    var u := Unwrapped(n, c, schedule);
    WrappedCounts(n, c, u);
  }

  lemma WrappedCounts(n: nat, c: nat, u: State)
    requires c < n && Inv(c, u)
    ensures var s := Wrap(n, u);
            && |s.writeLog| > 0 && |s.readLog| > 0 && s.pushed == u.pushed && s.taken == u.taken
            && Diff(Bits(n), Last(s.writeLog), Last(s.readLog)) == |s.pushed| - |Consumed(s.taken)|
            && 0 <= |s.pushed| - |Consumed(s.taken)| <= Pow2(c)
  {
    hide Inv, Pow2, Diff, Consumed;
    Counts(c, u);
    Pow2Monotone(c, n);
    WrapDiff(n, WriteCount(u), ReadCount(u));
  }

  /** Both indices are the counts, and never further apart than the capacity. */
  lemma Counts(c: nat, u: State)
    requires Inv(c, u)
    ensures |u.writeLog| > 0 && |u.readLog| > 0
    ensures Last(u.writeLog) == WriteCount(u) && Last(u.readLog) == ReadCount(u)
    ensures ReadCount(u) <= WriteCount(u) <= ReadCount(u) + Pow2(c)
  {
    hide RingHolds, BatchesEnter, SizesBounded, Pow2, Slot, ProducerAt, ConsumerAt;
    assert u.readLog[u.sawRead] <= Last(u.readLog);
  }

  /** The producer never writes a slot that the consumer is reading. */
  lemma NoSlotShared(n: nat, c: nat, schedule: seq<Step>)
    requires c < n && Run(Bits(n), c, schedule).Some?
    ensures var s := Run(Bits(n), c, schedule).value;
            s.producer.Writing? && s.consumer.Reading? ==>
              Slot(c, s.producer.w) != Slot(c, s.consumer.r)
  {
    hide Slot;
    var s := Run(Bits(n), c, schedule).value;
    var u := Unwrapped(n, c, schedule);
    if s.producer.Writing? && s.consumer.Reading? {
      assert u.readLog[u.sawRead] <= Last(u.readLog);
      SlotsDiffer(c, u.consumer.r, u.producer.w);
      WrapSlot(n, c, u.producer.w);
      WrapSlot(n, c, u.consumer.r);
    }
  }

  lemma {:induction false} DeliveryWithoutClear(taken: seq<Take>)
    requires forall t :: t in taken ==> t.Delivered?
    ensures Delivery(taken) == Consumed(taken)
  {
    if taken != [] {
      var last := taken[|taken| - 1];
      assert last in taken;
      DeliveryWithoutClear(taken[..|taken| - 1]);
    }
  }

  /** As long as nothing was cleared, the host received a prefix of what was published. */
  lemma DeliveredInOrder(n: nat, c: nat, schedule: seq<Step>)
    requires c < n && Run(Bits(n), c, schedule).Some?
    requires forall t :: t in Run(Bits(n), c, schedule).value.taken ==> t.Delivered?
    ensures var s := Run(Bits(n), c, schedule).value;
            Delivery(s.taken) <= s.pushed
  {
    FirstInFirstOut(n, c, schedule);
    DeliveryWithoutClear(Run(Bits(n), c, schedule).value.taken);
  }
}
