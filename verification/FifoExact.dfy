/**
 What the ring does, beyond what it never does: a batch is cut only by a full ring, an empty
 ring is the only reason not to read, every batch that is offered is worked on, and the
 micro-steps of one call, run without interruption, are that call.
 */
module FifoExact {
  import opened Arithmetic
  import opened FifoProtocol
  import opened FifoInvariant
  import opened FifoSafety

  // ----- one more step

  lemma RunStep(m: Width, c: nat, schedule: seq<Step>, step: Step)
    ensures Run(m, c, schedule + [step])
         == match Run(m, c, schedule)
            case None => None
            case Some(s) => if Enabled(c, s, step) then Some(Apply(m, c, s, step)) else None
  {
    hide Enabled, Apply;
    assert (schedule + [step])[..|schedule|] == schedule;
  }

  /** The states of the wrapping ring before and after a step, as the unbounded ones behind them. */
  lemma UnwrappedStep(n: nat, c: nat, schedule: seq<Step>, step: Step) returns (u: State)
    requires c < n && Run(Bits(n), c, schedule + [step]).Some?
    ensures Run(Unbounded, c, schedule) == Some(u) && Inv(c, u) && Enabled(c, u, step)
    ensures Run(Bits(n), c, schedule) == Some(Wrap(n, u))
    ensures Run(Bits(n), c, schedule + [step]) == Some(Wrap(n, Apply(Unbounded, c, u, step)))
  {
    hide Inv, Wrap, Apply, Enabled, Run;
    RunStep(Bits(n), c, schedule, step);
    RunStep(Unbounded, c, schedule, step);
    WrappingRefines(n, c, schedule);
    WrappingRefines(n, c, schedule + [step]);
    RunInv(c, schedule);
    u := Run(Unbounded, c, schedule).value;
  }

  /** How many events had been consumed when the read index that the producer saw last was stored. */
  ghost function SeenConsumed(c: nat, schedule: seq<Step>): nat {
    match Run(Unbounded, c, schedule)
    case None => 0
    case Some(u) => if u.sawRead < |u.readLog| then u.readLog[u.sawRead] else 0
  }

  /**
   The full test cuts the batch exactly when, by the read index the producer saw, the ring holds
   as many events as it has slots. With a current read index that is a full ring.
   */
  lemma FullTestExact(n: nat, c: nat, schedule: seq<Step>)
    requires c < n && Run(Bits(n), c, schedule + [CheckFull]).Some?
    ensures Run(Bits(n), c, schedule).Some?
    ensures var (s, t) := (Run(Bits(n), c, schedule).value, Run(Bits(n), c, schedule + [CheckFull]).value);
            && SeenConsumed(c, schedule) <= |Consumed(s.taken)|
            && (s.sawRead == |s.readLog| - 1 ==> SeenConsumed(c, schedule) == |Consumed(s.taken)|)
            && (if |s.pushed| - SeenConsumed(c, schedule) == Pow2(c)
                then t.producer == Idle && t.finished == s.finished + [Batch(s.batch, s.done)] && t.batch == []
                else t.producer.Writing? && t.finished == s.finished && t.batch == s.batch && t.done == s.done)
  {
    hide RingHolds, BatchesEnter, SizesBounded, ConsumerAt, Pow2, Slot;
    var u := UnwrappedStep(n, c, schedule, CheckFull);
    assert u.readLog[u.sawRead] <= Last(u.readLog);
  }

  /** The empty test goes on to read exactly when something that the consumer saw published is not consumed. */
  lemma EmptyTestExact(n: nat, c: nat, schedule: seq<Step>)
    requires c < n && Run(Bits(n), c, schedule + [CheckEmpty]).Some?
    ensures Run(Bits(n), c, schedule).Some?
    ensures var (s, t) := (Run(Bits(n), c, schedule).value, Run(Bits(n), c, schedule + [CheckEmpty]).value);
            && |Consumed(s.taken)| <= s.sawWrite <= |s.pushed|
            && (s.sawWrite == |s.writeLog| - 1 ==> s.sawWrite == |s.pushed|)
            && (if |Consumed(s.taken)| < s.sawWrite then t.consumer.Reading? else t.consumer == Resting)
  {
    hide RingHolds, BatchesEnter, SizesBounded, ProducerAt, Pow2, Slot;
    var u := UnwrappedStep(n, c, schedule, CheckEmpty);
  }

  // ----- batches

  /** The batches that a schedule offers, in order. */
  function Offered(schedule: seq<Step>): seq<seq<Event>> {
    if schedule == [] then []
    else
      var last := schedule[|schedule| - 1];
      Offered(schedule[..|schedule| - 1]) + if last.Enqueue? then [last.events] else []
  }

  function BatchEvents(batches: seq<Batch>): (events: seq<seq<Event>>)
    ensures |events| == |batches|
  {
    seq(|batches|, (i: nat) requires i < |batches| => batches[i].events)
  }

  function Current(s: State): seq<seq<Event>> {
    if s.batch == [] then [] else [s.batch]
  }

  lemma BatchEventsAppend(batches: seq<Batch>, b: Batch)
    ensures BatchEvents(batches + [b]) == BatchEvents(batches) + [b.events]
  {
  }

  lemma BatchesStep(c: nat, u: State, step: Step)
    requires Inv(c, u) && Enabled(c, u, step)
    ensures var t := Apply(Unbounded, c, u, step);
            BatchEvents(t.finished) + Current(t) == BatchEvents(u.finished) + Current(u) + if step.Enqueue? then [step.events] else []
  {
    hide LogsAgree, InOrder, RingHolds, ConsumerAt, SizesBounded, Pow2, Slot, BatchEvents, Accepted;
    var t := Apply(Unbounded, c, u, step);
    if t.finished != u.finished {
      BatchEventsAppend(u.finished, t.finished[|u.finished|]);
    }
    assert Current(u) + [] == Current(u);
  }

  /** Every batch that was offered is finished or being worked on, whole and in order. */
  lemma {:induction false} BatchesAreOffered(n: nat, c: nat, schedule: seq<Step>)
    requires c < n && Run(Bits(n), c, schedule).Some?
    ensures var s := Run(Bits(n), c, schedule).value;
            BatchEvents(s.finished) + Current(s) == Offered(schedule)
  {
    hide Inv, Apply, Enabled, BatchEvents;
    if schedule == [] {
      assert BatchEvents([]) + [] == [];
    } else {
      var before, step := schedule[..|schedule| - 1], schedule[|schedule| - 1];
      assert before + [step] == schedule;
      var u := UnwrappedStep(n, c, before, step);
      BatchesAreOffered(n, c, before);
      BatchesStep(c, u, step);
    }
  }

  /** A batch leaves events behind only when the ring was full by what the producer had seen. */
  lemma CutByFullRing(n: nat, c: nat, schedule: seq<Step>, step: Step)
    requires c < n && Run(Bits(n), c, schedule + [step]).Some?
    ensures Run(Bits(n), c, schedule).Some?
    ensures var (s, t) := (Run(Bits(n), c, schedule).value, Run(Bits(n), c, schedule + [step]).value);
            t.finished == s.finished
            || (exists b: Batch :: t.finished == s.finished + [b] &&
                 (b.accepted < |b.events| ==> step == CheckFull && |s.pushed| - SeenConsumed(c, schedule) == Pow2(c)))
  {
    hide LogsAgree, InOrder, RingHolds, ConsumerAt, SizesBounded, Pow2, Slot, Accepted;
    var u := UnwrappedStep(n, c, schedule, step);
    var s, t := Run(Bits(n), c, schedule).value, Run(Bits(n), c, schedule + [step]).value;
    if t.finished != s.finished {
      var b := t.finished[|s.finished|];
      assert t.finished == s.finished + [b];
      if step == CheckFull {
        FullTestExact(n, c, schedule);
      }
    }
  }

  // ----- a call that is not interrupted

  /** The state after some more steps. */
  function Then(m: Width, c: nat, s: State, steps: seq<Step>): Option<State>
    decreases |steps|
  {
    if steps == [] then Some(s)
    else if Enabled(c, s, steps[0]) then Then(m, c, Apply(m, c, s, steps[0]), steps[1..])
    else None
  }

  lemma {:induction false} RunThen(m: Width, c: nat, schedule: seq<Step>, steps: seq<Step>)
    requires Run(m, c, schedule).Some?
    ensures Run(m, c, schedule + steps) == Then(m, c, Run(m, c, schedule).value, steps)
    decreases |steps|
  {
    hide Enabled, Apply, Run;
    if steps == [] {
      assert schedule + steps == schedule;
    } else {
      RunStep(m, c, schedule, steps[0]);
      assert schedule + steps == schedule + [steps[0]] + steps[1..];
      if Run(m, c, schedule + [steps[0]]).Some? {
        RunThen(m, c, schedule + [steps[0]], steps[1..]);
      } else {
        NoneStays(m, c, schedule + [steps[0]], steps[1..]);
      }
    }
  }

  lemma {:induction false} NoneStays(m: Width, c: nat, schedule: seq<Step>, steps: seq<Step>)
    requires Run(m, c, schedule) == None
    ensures Run(m, c, schedule + steps) == None
    decreases |steps|
  {
    hide Enabled, Apply, Run;
    if steps == [] {
      assert schedule + steps == schedule;
    } else {
      RunStep(m, c, schedule, steps[0]);
      assert schedule + steps == schedule + [steps[0]] + steps[1..];
      NoneStays(m, c, schedule + [steps[0]], steps[1..]);
    }
  }

  lemma ThenStep(m: Width, c: nat, s: State, step: Step, steps: seq<Step>)
    requires Enabled(c, s, step)
    ensures Then(m, c, s, [step] + steps) == Then(m, c, Apply(m, c, s, step), steps)
  {
    hide Enabled, Apply;
    assert ([step] + steps)[0] == step && ([step] + steps)[1..] == steps;
  }

  /** Transfers an uninterrupted call from the unbounded ring to the wrapping one. */
  lemma CallWraps(n: nat, c: nat, schedule: seq<Step>, steps: seq<Step>) returns (u: State)
    requires c < n && Run(Bits(n), c, schedule).Some?
    ensures Inv(c, u) && Run(Bits(n), c, schedule).value == Wrap(n, u)
    ensures Then(Unbounded, c, u, steps).Some? ==>
      Run(Bits(n), c, schedule + steps) == Some(Wrap(n, Then(Unbounded, c, u, steps).value))
  {
    hide Inv, Wrap, Run, Then;
    WrappingRefines(n, c, schedule);
    WrappingRefines(n, c, schedule + steps);
    RunInv(c, schedule);
    u := Run(Unbounded, c, schedule).value;
    RunThen(Unbounded, c, schedule, steps);
  }

  /** The loads and the test of `push`, with the newest read index. */
  function FullCheck(s: State): seq<Step>
    requires |s.readLog| > 0
  {
    [LoadOwnWrite, LoadRead(|s.readLog| - 1), CheckFull]
  }

  /** The loads and the test of `pop`, with the newest write index. */
  function EmptyCheck(s: State): seq<Step>
    requires |s.writeLog| > 0
  {
    [LoadOwnRead, LoadWrite(|s.writeLog| - 1), CheckEmpty]
  }

  lemma ThreeSteps(m: Width, c: nat, s: State, a: Step, b: Step, d: Step, rest: seq<Step>)
    requires Enabled(c, s, a) && Enabled(c, Apply(m, c, s, a), b) && Enabled(c, Apply(m, c, Apply(m, c, s, a), b), d)
    ensures Then(m, c, s, [a, b, d] + rest) == Then(m, c, Apply(m, c, Apply(m, c, Apply(m, c, s, a), b), d), rest)
  {
    hide Enabled, Apply, Then;
    var s1 := Apply(m, c, s, a);
    assert [a, b, d] + rest == [a] + ([b] + ([d] + rest));
    ThenStep(m, c, s, a, [b] + ([d] + rest));
    ThenStep(m, c, s1, b, [d] + rest);
    ThenStep(m, c, Apply(m, c, s1, b), d, rest);
  }

  lemma TwoSteps(m: Width, c: nat, s: State, a: Step, b: Step)
    requires Enabled(c, s, a) && Enabled(c, Apply(m, c, s, a), b)
    ensures Then(m, c, s, [a, b]) == Some(Apply(m, c, Apply(m, c, s, a), b))
  {
    hide Enabled, Apply;
    ThenStep(m, c, s, a, [b]);
    ThenStep(m, c, Apply(m, c, s, a), b, []);
    assert [a] + [b] == [a, b] && [b] + [] == [b];
  }

  lemma NoSteps(m: Width, c: nat, s: State)
    ensures Then(m, c, s, []) == Some(s)
  {
  }

  /** The state after an uninterrupted `push` of the next event. */
  function AfterPush(c: nat, u: State): State
    requires Inv(c, u) && u.done < |u.batch|
  {
    var w := |u.pushed|;
    var t := u.(buffer := u.buffer[Slot(c, w) := u.batch[u.done]], sawRead := |u.readLog| - 1, writeLog := u.writeLog + [w + 1],
                pushed := u.pushed + [u.batch[u.done]], done := u.done + 1);
    if t.done == |t.batch| then BatchOver(t) else t
  }

  /** The producer's three steps up to the test. */
  lemma PushTested(c: nat, u: State)
    requires Inv(c, u) && u.producer == Idle && u.done < |u.batch|
    ensures var v := u.(sawRead := |u.readLog| - 1);
            forall rest: seq<Step> :: Then(Unbounded, c, u, FullCheck(u) + rest)
              == Then(Unbounded, c, if Waiting(u) < Pow2(c) then v.(producer := Writing(|u.pushed|)) else BatchOver(v), rest)
  {
    hide InOrder, RingHolds, BatchesEnter, SizesBounded, ConsumerAt, Pow2, Slot, Then, Consumed;
    var last := |u.readLog| - 1;
    assert u.readLog[last] == Last(u.readLog);
    forall rest: seq<Step>
      ensures Then(Unbounded, c, u, FullCheck(u) + rest) == Then(Unbounded, c,
        if Waiting(u) < Pow2(c) then u.(sawRead := last, producer := Writing(|u.pushed|)) else BatchOver(u.(sawRead := last)), rest)
    {
      ThreeSteps(Unbounded, c, u, LoadOwnWrite, LoadRead(last), CheckFull, rest);
    }
  }

  lemma PushUnbounded(c: nat, u: State)
    requires Inv(c, u) && u.producer == Idle && u.done < |u.batch|
    ensures Waiting(u) < Pow2(c) ==>
      Then(Unbounded, c, u, FullCheck(u) + [WriteSlot, PublishWrite]) == Some(AfterPush(c, u))
    ensures Waiting(u) >= Pow2(c) ==>
      Then(Unbounded, c, u, FullCheck(u)) == Some(BatchOver(u.(sawRead := |u.readLog| - 1)))
  {
    hide InOrder, RingHolds, BatchesEnter, SizesBounded, ConsumerAt, ProducerAt, Pow2, Slot, Then, Consumed, Waiting;
    PushTested(c, u);
    var v := u.(sawRead := |u.readLog| - 1);
    if Waiting(u) < Pow2(c) {
      TwoSteps(Unbounded, c, v.(producer := Writing(|u.pushed|)), WriteSlot, PublishWrite);
    } else {
      assert FullCheck(u) + [] == FullCheck(u);
      NoSteps(Unbounded, c, BatchOver(v));
    }
  }

  /**
   An uninterrupted `push` with a current read index publishes the next event of the batch when
   there is room, and gives the rest of the batch up when there is none.
   */
  lemma PushAlone(n: nat, c: nat, schedule: seq<Step>)
    requires c < n && Run(Bits(n), c, schedule).Some?
    ensures |Run(Bits(n), c, schedule).value.readLog| > 0
    ensures var s := Run(Bits(n), c, schedule).value;
            s.producer == Idle && s.done < |s.batch| ==>
              if Waiting(s) < Pow2(c)
              then var t := Run(Bits(n), c, schedule + (FullCheck(s) + [WriteSlot, PublishWrite]));
                   t.Some? && t.value.pushed == s.pushed + [s.batch[s.done]] && t.value.taken == s.taken && t.value.producer == Idle
              else var t := Run(Bits(n), c, schedule + FullCheck(s));
                   t.Some? && t.value.pushed == s.pushed && t.value.taken == s.taken && t.value.producer == Idle
                   && t.value.finished == s.finished + [Batch(s.batch, s.done)]
  {
    hide Inv, Then, Pow2, Consumed, Slot, Run;
    var s := Run(Bits(n), c, schedule).value;
    var u0 := Unwrapped(n, c, schedule);
    assert |u0.readLog| > 0 by { Counts(c, u0); }
    if s.producer == Idle && s.done < |s.batch| {
      var u := CallWraps(n, c, schedule, FullCheck(s) + [WriteSlot, PublishWrite]);
      var u' := CallWraps(n, c, schedule, FullCheck(s));
      PushUnbounded(c, u);
      PushUnbounded(c, u');
    }
  }

  /** The consumer's three steps up to the test. */
  lemma PopTested(c: nat, u: State)
    requires Inv(c, u) && u.consumer == Resting
    ensures var v := u.(sawWrite := |u.pushed|);
            forall rest: seq<Step> :: Then(Unbounded, c, u, EmptyCheck(u) + rest)
              == Then(Unbounded, c, if Waiting(u) > 0 then v.(consumer := Reading(ReadCount(u))) else v, rest)
  {
    hide RingHolds, BatchesEnter, SizesBounded, ProducerAt, Pow2, Slot, Then, Consumed;
    forall rest: seq<Step>
      ensures Then(Unbounded, c, u, EmptyCheck(u) + rest) == Then(Unbounded, c,
        if Waiting(u) > 0 then u.(sawWrite := |u.pushed|, consumer := Reading(ReadCount(u))) else u.(sawWrite := |u.pushed|), rest)
    {
      ThreeSteps(Unbounded, c, u, LoadOwnRead, LoadWrite(|u.writeLog| - 1), CheckEmpty, rest);
    }
  }

  lemma PopUnbounded(c: nat, u: State)
    requires Inv(c, u) && u.consumer == Resting
    ensures Waiting(u) > 0 ==>
      var t := Then(Unbounded, c, u, EmptyCheck(u) + [ReadSlot, PublishRead]);
      t.Some? && t.value.taken == u.taken + [Delivered(u.pushed[ReadCount(u)])] && t.value.pushed == u.pushed && t.value.consumer == Resting
    ensures Waiting(u) <= 0 ==> Then(Unbounded, c, u, EmptyCheck(u)) == Some(u.(sawWrite := |u.pushed|))
  {
    hide BatchesEnter, SizesBounded, ProducerAt, Pow2, Slot, Then, Consumed;
    PopTested(c, u);
    var v := u.(sawWrite := |u.pushed|);
    if Waiting(u) > 0 {
      TwoSteps(Unbounded, c, v.(consumer := Reading(ReadCount(u))), ReadSlot, PublishRead);
    } else {
      assert EmptyCheck(u) + [] == EmptyCheck(u);
      NoSteps(Unbounded, c, v);
    }
  }

  /** An uninterrupted `pop` with a current write index delivers the oldest waiting event, or nothing when none waits. */
  lemma PopAlone(n: nat, c: nat, schedule: seq<Step>)
    requires c < n && Run(Bits(n), c, schedule).Some?
    ensures var s := Run(Bits(n), c, schedule).value;
            && |s.writeLog| > 0 && Waiting(s) >= 0
            && (s.consumer == Resting ==>
              if Waiting(s) > 0
              then var t := Run(Bits(n), c, schedule + (EmptyCheck(s) + [ReadSlot, PublishRead]));
                   t.Some? && t.value.taken == s.taken + [Delivered(s.pushed[|Consumed(s.taken)|])] && t.value.pushed == s.pushed
                   && t.value.consumer == Resting
              else var t := Run(Bits(n), c, schedule + EmptyCheck(s));
                   t.Some? && t.value.taken == s.taken && t.value.pushed == s.pushed && t.value.consumer == Resting)
  {
    hide Inv, Then, Pow2, Consumed, Slot, Run;
    var s := Run(Bits(n), c, schedule).value;
    var u0 := Unwrapped(n, c, schedule);
    Counts(c, u0);
    if s.consumer == Resting {
      var u := CallWraps(n, c, schedule, EmptyCheck(s) + [ReadSlot, PublishRead]);
      var u' := CallWraps(n, c, schedule, EmptyCheck(s));
      PopUnbounded(c, u);
      PopUnbounded(c, u');
    }
  }

  lemma ClearUnbounded(c: nat, u: State)
    requires Inv(c, u) && u.consumer == Resting
    ensures var t := Then(Unbounded, c, u, [ClearLoad(|u.writeLog| - 1), ClearStore]);
            && t.Some? && Consumed(t.value.taken) == u.pushed == t.value.pushed
            && t.value.taken == u.taken + [Cleared(u.pushed[ReadCount(u)..])] && t.value.consumer == Resting
  {
    hide RingHolds, BatchesEnter, SizesBounded, ProducerAt, Pow2, Slot, Then, Consumed;
    TwoSteps(Unbounded, c, u, ClearLoad(|u.writeLog| - 1), ClearStore);
    ConsumedAppend(u.taken, Cleared(u.pushed[ReadCount(u)..]));
    assert u.pushed[..ReadCount(u)] + u.pushed[ReadCount(u)..] == u.pushed;
    assert u.pushed[ReadCount(u)..|u.pushed|] == u.pushed[ReadCount(u)..];
  }

  /** An uninterrupted `clear` with a current write index drops exactly what is waiting. */
  lemma ClearAlone(n: nat, c: nat, schedule: seq<Step>)
    requires c < n && Run(Bits(n), c, schedule).Some?
    ensures var s := Run(Bits(n), c, schedule).value;
            && |s.writeLog| > 0 && |Consumed(s.taken)| <= |s.pushed|
            && (s.consumer == Resting ==>
              var t := Run(Bits(n), c, schedule + [ClearLoad(|s.writeLog| - 1), ClearStore]);
              t.Some? && t.value.taken == s.taken + [Cleared(s.pushed[|Consumed(s.taken)|..])] && t.value.pushed == s.pushed && Waiting(t.value) == 0)
  {
    hide Inv, Then, Pow2, Consumed, Slot, Run;
    var s := Run(Bits(n), c, schedule).value;
    var u0 := Unwrapped(n, c, schedule);
    Counts(c, u0);
    if s.consumer == Resting {
      var u := CallWraps(n, c, schedule, [ClearLoad(|s.writeLog| - 1), ClearStore]);
      ClearUnbounded(c, u);
    }
  }

  lemma SizeUnbounded(c: nat, u: State)
    requires Inv(c, u)
    ensures u.producer == Idle ==>
      var t := Then(Unbounded, c, u, [SizeOwnWrite, SizeRead(|u.readLog| - 1)]);
      t.Some? && t.value.sizes == u.sizes + [Size(true, Waiting(u), Waiting(u))]
    ensures u.consumer == Resting ==>
      var t := Then(Unbounded, c, u, [SizeWrite(|u.writeLog| - 1), SizeOwnRead]);
      t.Some? && t.value.sizes == u.sizes + [Size(false, Waiting(u), Waiting(u))]
  {
    hide RingHolds, BatchesEnter, SizesBounded, Pow2, Slot, Then, Consumed;
    if u.producer == Idle {
      TwoSteps(Unbounded, c, u, SizeOwnWrite, SizeRead(|u.readLog| - 1));
    }
    if u.consumer == Resting {
      TwoSteps(Unbounded, c, u, SizeWrite(|u.writeLog| - 1), SizeOwnRead);
    }
  }

  /** An uninterrupted `size` with a current index, on either thread, is the number of waiting events. */
  lemma SizeAlone(n: nat, c: nat, schedule: seq<Step>)
    requires c < n && Run(Bits(n), c, schedule).Some?
    ensures var s := Run(Bits(n), c, schedule).value;
            && |s.writeLog| > 0 && |s.readLog| > 0
            && (s.producer == Idle ==>
              var t := Run(Bits(n), c, schedule + [SizeOwnWrite, SizeRead(|s.readLog| - 1)]);
              t.Some? && t.value.sizes == s.sizes + [Size(true, Waiting(s), Waiting(s))])
            && (s.consumer == Resting ==>
              var t := Run(Bits(n), c, schedule + [SizeWrite(|s.writeLog| - 1), SizeOwnRead]);
              t.Some? && t.value.sizes == s.sizes + [Size(false, Waiting(s), Waiting(s))])
  {
    hide Inv, Then, Pow2, Consumed, Slot, Run;
    var s := Run(Bits(n), c, schedule).value;
    var u0 := Unwrapped(n, c, schedule);
    Counts(c, u0);
    var u := CallWraps(n, c, schedule, [SizeOwnWrite, SizeRead(|s.readLog| - 1)]);
    var u' := CallWraps(n, c, schedule, [SizeWrite(|s.writeLog| - 1), SizeOwnRead]);
    SizeUnbounded(c, u);
    SizeUnbounded(c, u');
  }
}
