/** The second core: drain the FrameWaiter, then sleep until an event. */
module CoreOne {
  import opened Sequences
  import opened Framing
  import opened FrameWaiterModel
  import opened FrameWaiterTheorems

  /** Deciding: about to call tryReadFrame. Blocked: inside __wfe with the event register clear. */
  datatype Place = Deciding | InCall | AtWfe | Blocked

  datatype Core = Core(waiter: State, event: bool, place: Place)

  datatype CoreStep =
    | Produce(step: Step)  // the other core feeds; its callback is __sev
    | Enter
    | Advance
    | Wfe
    | Wake
    | OtherEvent           // any other __sev

  function InitCore(size: nat): Core { Core(Init(size), false, Deciding) }

  function LastStatus(m: State): ReadFrameStatus {
    if m.results == [] then NoFrame else m.results[|m.results| - 1].status
  }

  function NextCore(c: Core, step: CoreStep): Core {
    match step
    case Produce(s) =>
      if IsProducerStep(s) then
        c.(waiter := Next(c.waiter, s), event := c.event || (s.Proceed? && c.waiter.producer.Notifying?))
      else c
    case Enter =>
      if c.place.Deciding? then c.(waiter := Next(c.waiter, Call(c.waiter.size)), place := InCall) else c
    case Advance =>
      if c.place.InCall? then
        var w := Next(c.waiter, Consume);
        c.(waiter := w,
           place := if !w.consumer.Idle? then InCall else if LastStatus(w).OK? then Deciding else AtWfe)
      else c
    case Wfe =>
      if !c.place.AtWfe? then c
      else if c.event then c.(event := false, place := Deciding)
      else c.(place := Blocked)
    case Wake =>
      if c.place.Blocked? && c.event then c.(event := false, place := Deciding) else c
    case OtherEvent => c.(event := true)
  }

  function AfterCore(c: Core, steps: seq<CoreStep>): Core
    decreases |steps|
  {
    if steps == [] then c else NextCore(AfterCore(c, steps[..|steps| - 1]), steps[|steps| - 1])
  }

  lemma AfterCoreSnoc(c: Core, steps: seq<CoreStep>, step: CoreStep)
    ensures AfterCore(c, steps + [step]) == NextCore(AfterCore(c, steps), step)
  {
    assert (steps + [step])[..|steps|] == steps;
  }

  lemma {:induction false} AfterCoreConcat(c: Core, a: seq<CoreStep>, b: seq<CoreStep>)
    ensures AfterCore(c, a + b) == AfterCore(AfterCore(c, a), b)
    decreases |b|
  {
    if b == [] {
      EmptyRight(a);
    } else {
      hide AfterCore, NextCore;
      var front, x := b[..|b| - 1], b[|b| - 1];
      FrontLast(b);
      AfterCoreConcat(c, a, front);
      Associate(a, front, [x]);
      AfterCoreSnoc(c, a + front, x);
      AfterCoreSnoc(AfterCore(c, a), front, x);
    }
  }

  /** A wake-up has happened or is certain. */
  predicate Alert(c: Core) { c.event || c.waiter.producer.Notifying? }

  /** The core is past the point where it would have noticed a delimiter by itself. */
  predicate Committed(c: Core) {
    match c.place
    case Deciding => false
    case InCall => c.waiter.consumer.Checking? || (c.waiter.consumer.Dropping? && c.waiter.consumer.overflowed)
    case AtWfe => !LastStatus(c.waiter).BufferTooSmall?
    case Blocked => !LastStatus(c.waiter).BufferTooSmall?
  }

  ghost predicate CoreInv(c: Core) {
    && (c.waiter.consumer.Idle? <==> !c.place.InCall?)
    && (Committed(c) && DELIMITER in c.waiter.ring ==> Alert(c))
  }

  lemma ProduceKeepsCoreInv(c: Core, step: Step)
    requires CoreInv(c) && IsProducerStep(step)
    ensures CoreInv(NextCore(c, Produce(step)))
  {
  }

  lemma AdvanceKeepsCoreInv(c: Core)
    requires CoreInv(c)
    ensures CoreInv(NextCore(c, Advance))
  {
    if c.place.InCall? {
      var m := c.waiter;
      var n := ConsumeStep(m);
      hide ConsumeStep;
      ConsumeResults(m);
      ConsumeShrinks(m);
    }
  }

  lemma ConsumeShrinks(m: State)
    ensures var n := ConsumeStep(m);
            && n.producer == m.producer
            && (n.ring == m.ring || (m.ring != [] && n.ring == m.ring[1..]))
            && (n.consumer.Checking? ==> n.ring == [])
            && (n.consumer.Dropping? && n.consumer.overflowed ==>
                  m.consumer.Checking? || (m.consumer.Dropping? && m.consumer.overflowed))
  {
  }

  lemma CoreNextKeepsInv(c: Core, step: CoreStep)
    requires CoreInv(c)
    ensures CoreInv(NextCore(c, step))
  {
    match step
    case Produce(s) => if IsProducerStep(s) { ProduceKeepsCoreInv(c, s); }
    case Enter =>
    case Advance => AdvanceKeepsCoreInv(c);
    case Wfe =>
    case Wake =>
    case OtherEvent =>
  }

  lemma {:induction false} CoreRunsKeepInv(c: Core, steps: seq<CoreStep>)
    requires CoreInv(c)
    ensures CoreInv(AfterCore(c, steps))
    decreases |steps|
  {
    if steps != [] {
      hide NextCore, CoreInv;
      CoreRunsKeepInv(c, steps[..|steps| - 1]);
      CoreNextKeepsInv(AfterCore(c, steps[..|steps| - 1]), steps[|steps| - 1]);
    }
  }

  /** The core sleeps beside a delivered frame, and no event is set or on its way. */
  predicate MissesFrame(c: Core) {
    c.place.Blocked? && !Alert(c) && DELIMITER in c.waiter.ring
  }

  /** The core never sleeps beside a delivered frame unless its last call gave up on one. */
  lemma MissesOnlyAfterGivingUp(size: nat, steps: seq<CoreStep>)
    requires MissesFrame(AfterCore(InitCore(size), steps))
    ensures LastStatus(AfterCore(InitCore(size), steps).waiter).BufferTooSmall?
  {
    CoreRunsKeepInv(InitCore(size), steps);
  }

  // ----- When the inserted frames fit -----

  /** The FrameWaiter's part of a run of the core. */
  lemma {:induction false} WaiterRun(size: nat, steps: seq<CoreStep>) returns (run: seq<Step>)
    ensures After(Init(size), run) == AfterCore(InitCore(size), steps).waiter
    ensures CapacitiesAre(AfterCore(InitCore(size), steps).waiter, size)
    decreases |steps|
  {
    if steps == [] {
      run := [];
    } else {
      hide After, AfterCore, Next, NextCore, WaiterStep, CapacitiesAre;
      var front, step := steps[..|steps| - 1], steps[|steps| - 1];
      var p := AfterCore(InitCore(size), front);
      var early := WaiterRun(size, front);
      var s := WaiterStep(p, step);
      FrontLast(steps);
      AfterCoreSnoc(InitCore(size), front, step);
      WaiterStepIs(p, step);
      run := early + s;
      if s == [] {
        EmptyRight(early);
      } else {
        AfterSnoc(Init(size), early, s[0]);
        assert s == [s[0]];
      }
      CapacitiesStay(p, step, size);
    }
  }

  function WaiterStep(c: Core, step: CoreStep): (s: seq<Step>)
    ensures |s| <= 1
  {
    match step
    case Produce(s) => if IsProducerStep(s) then [s] else []
    case Enter => if c.place.Deciding? then [Call(c.waiter.size)] else []
    case Advance => if c.place.InCall? then [Consume] else []
    case _ => []
  }

  lemma WaiterStepIs(c: Core, step: CoreStep)
    ensures NextCore(c, step).waiter
         == if WaiterStep(c, step) == [] then c.waiter else Next(c.waiter, WaiterStep(c, step)[0])
  {
  }

  /** Every call of the core passes a buffer as large as the ring. */
  ghost predicate CapacitiesAre(m: State, size: nat) {
    && m.size == size
    && (m.consumer.Reading? || m.consumer.Checking? || m.consumer.Dropping? ==> m.consumer.capacity == size)
  }

  lemma CapacitiesStay(c: Core, step: CoreStep, size: nat)
    requires CapacitiesAre(c.waiter, size)
    ensures CapacitiesAre(NextCore(c, step).waiter, size)
  {
  }

  /** No frame of the inserted stream is longer than the buffers. */
  ghost predicate InsertedFits(m: State) {
    |m.fed| == |m.fate| && Fits(Kept(m.fed, m.fate), m.size)
  }

  /** The consumer has never given up on a frame, and what it holds is no more than the frame under way. */
  ghost predicate NeverGaveUp(m: State) {
    && (m.consumer.Dropping? ==> m.consumer.overflowed)
    && (!m.consumer.Dropping? ==> |m.pending| <= |Tail(m.removed)|)
    && !LastStatus(m).BufferTooSmall?
  }

  lemma StepGivesUpNothing(m: State, step: Step)
    requires NeverGaveUp(m) && |m.pending| <= m.size && CapacitiesAre(m, m.size)
    requires m.ring != [] ==> |Tail(m.removed + [m.ring[0]])| <= m.size
    ensures NeverGaveUp(Next(m, step))
  {
    hide Tail, ConsumeStep;
    if step.Consume? {
      ConsumeGivesUpNothing(m);
    } else if IsProducerStep(step) {
      hide Next;
      ProducerFrame(m, step);
    }
  }

  lemma ConsumeGivesUpNothing(m: State)
    requires NeverGaveUp(m) && |m.pending| <= m.size && CapacitiesAre(m, m.size)
    requires m.ring != [] ==> |Tail(m.removed + [m.ring[0]])| <= m.size
    ensures NeverGaveUp(ConsumeStep(m))
  {
    hide Tail, ReadOctet;
    if m.ring != [] && m.consumer.Reading? {
      ReadingGivesUpNothing(m);
    }
  }

  lemma ReadingGivesUpNothing(m: State)
    requires NeverGaveUp(m) && |m.pending| <= m.size && m.consumer == Reading(m.size) && m.ring != []
    requires |Tail(m.removed + [m.ring[0]])| <= m.size
    ensures NeverGaveUp(ReadOctet(RemoveFirst(m), m.ring[0], m.size))
  {
    hide Tail;
    Snoc(m.removed, m.ring[0]);
  }

  /** The head of the ring fits behind what has been removed. */
  lemma HeadFits(m: State)
    requires Inv(m) && InsertedFits(m)
    ensures m.ring != [] ==> |Tail(m.removed + [m.ring[0]])| <= m.size
  {
    hide Fits, Kept, Losing, Refusals, FatesExplained, Tail;
    if m.ring != [] {
      FitsPrefix(m.removed + m.ring, m.removed + [m.ring[0]], m.size);
    }
  }

  lemma PendingFits(m: State)
    requires Inv(m)
    ensures |m.pending| <= m.size
  {
  }

  lemma FitsEarlier(m: State, n: State)
    requires Extends(m, n) && |m.fed| == |m.fate| && InsertedFits(n)
    ensures InsertedFits(m)
  {
    hide Fits, Kept;
    KeptSinceSplits(m, n);
    FitsPrefix(Kept(n.fed, n.fate), Kept(m.fed, m.fate), m.size);
  }

  lemma {:induction false} FittingNeverGivesUp(size: nat, steps: seq<CoreStep>)
    requires InsertedFits(AfterCore(InitCore(size), steps).waiter)
    ensures NeverGaveUp(AfterCore(InitCore(size), steps).waiter)
    decreases |steps|
  {
    if steps != [] {
      hide After, AfterCore, Next, NextCore, WaiterStep, Inv, InsertedFits, NeverGaveUp;
      var front, step := steps[..|steps| - 1], steps[|steps| - 1];
      var p := AfterCore(InitCore(size), front);
      FrontLast(steps);
      AfterCoreSnoc(InitCore(size), front, step);
      var run := WaiterRun(size, front);
      InitInv(size);
      RunsKeepInv(Init(size), run);
      InvKept(p.waiter);
      var s := WaiterStep(p, step);
      WaiterStepIs(p, step);
      if s == [] {
        FittingNeverGivesUp(size, front);
      } else {
        NextExtends(p.waiter, s[0]);
        FitsEarlier(p.waiter, Next(p.waiter, s[0]));
        FittingNeverGivesUp(size, front);
        HeadFits(p.waiter);
        PendingFits(p.waiter);
        StepGivesUpNothing(p.waiter, s[0]);
      }
    }
  }

  /**
    * No lost wake-up whenever the inserted frames fit the buffers, whatever was refused: while the core
    * sleeps with no event set or about to be set, no delimiter waits in the ring.
    */
  lemma NoLostWakeup(size: nat, steps: seq<CoreStep>)
    requires InsertedFits(AfterCore(InitCore(size), steps).waiter)
    ensures !MissesFrame(AfterCore(InitCore(size), steps))
  {
    hide AfterCore, InsertedFits, MissesFrame;
    FittingNeverGivesUp(size, steps);
    if MissesFrame(AfterCore(InitCore(size), steps)) {
      MissesOnlyAfterGivingUp(size, steps);
    }
  }

  /** The wake-up theorem as the firmware needs it: no refusals, no fed frame longer than the buffers. */
  lemma NoLostWakeupWithoutOverflow(size: nat, steps: seq<CoreStep>)
    requires var m := AfterCore(InitCore(size), steps).waiter;
             Fits(m.fed, size) && forall i :: 0 <= i < |m.fate| ==> !m.fate[i].Refused?
    ensures !MissesFrame(AfterCore(InitCore(size), steps))
    ensures var m := AfterCore(InitCore(size), steps).waiter; m.removed + m.ring == m.fed
  {
    hide After, AfterCore, Fits, Kept, Losing, Refusals, Tail, FatesExplained;
    var m := AfterCore(InitCore(size), steps).waiter;
    var run := WaiterRun(size, steps);
    InitInv(size);
    RunsKeepInv(Init(size), run);
    NoLossWithoutRefusal(m.fed, m.fate);
    KeptAll(m.fed, m.fate);
    NoLostWakeup(size, steps);
  }

  // ----- Which rings can lose a wake-up at all -----

  ghost predicate AtMostOneDelimiter(ring: seq<Octet>) {
    forall i, j :: 0 <= i < j < |ring| ==> ring[i] != DELIMITER || ring[j] != DELIMITER
  }

  /** In a ring of two octets a call that gives up leaves no delimiter behind without an alert. */
  ghost predicate SmallInv(c: Core) {
    && CoreInv(c) && CapacitiesAre(c.waiter, c.waiter.size)
    && |c.waiter.ring| <= c.waiter.size <= 2 && |c.waiter.pending| <= c.waiter.size
    && (c.place.InCall? && c.waiter.consumer.Dropping? && !Alert(c) ==> AtMostOneDelimiter(c.waiter.ring))
    && ((c.place.AtWfe? || c.place.Blocked?) && !Alert(c) ==> DELIMITER !in c.waiter.ring)
  }

  lemma SmallProduce(c: Core, step: Step)
    requires SmallInv(c) && IsProducerStep(step)
    ensures SmallInv(NextCore(c, Produce(step)))
  {
    ProduceKeepsCoreInv(c, step);
  }

  lemma FewDelimiters(ring: seq<Octet>)
    ensures |ring| <= 1 || DELIMITER !in ring ==> AtMostOneDelimiter(ring)
    ensures ring != [] && AtMostOneDelimiter(ring) ==>
              AtMostOneDelimiter(ring[1..]) && (ring[0] == DELIMITER ==> DELIMITER !in ring[1..])
  {
  }

  lemma ConsumeInSmallRing(m: State)
    requires CapacitiesAre(m, m.size) && |m.pending| <= m.size && |m.ring| <= 2
    ensures var n := ConsumeStep(m);
            && |n.pending| <= n.size == m.size
            && (n.consumer.Dropping? && !m.consumer.Dropping? ==> n.consumer.overflowed || |n.ring| <= 1)
            && (m.consumer.Dropping? && n.consumer.Dropping? ==> m.ring != [] && n.ring == m.ring[1..])
            && (!m.consumer.Idle? && n.consumer.Idle? && LastStatus(n).BufferTooSmall? ==>
                 m.consumer.Dropping? && (n.ring == [] || (m.ring[0] == DELIMITER && n.ring == m.ring[1..])))
  {
  }

  lemma SmallAdvance(c: Core)
    requires SmallInv(c)
    ensures SmallInv(NextCore(c, Advance))
  {
    hide ConsumeStep, LastStatus, AtMostOneDelimiter;
    AdvanceKeepsCoreInv(c);
    var m := c.waiter;
    ConsumeInSmallRing(m);
    ConsumeShrinks(m);
    CapacitiesStay(c, Advance, m.size);
    FewDelimiters(m.ring);
    FewDelimiters(ConsumeStep(m).ring);
  }

  lemma SmallNext(c: Core, step: CoreStep)
    requires SmallInv(c)
    ensures SmallInv(NextCore(c, step))
  {
    CoreNextKeepsInv(c, step);
    match step
    case Produce(s) => if IsProducerStep(s) { SmallProduce(c, s); }
    case Advance => SmallAdvance(c);
    case Enter =>
    case Wfe =>
    case Wake =>
    case OtherEvent =>
  }

  lemma {:induction false} SmallRuns(size: nat, steps: seq<CoreStep>)
    requires size <= 2
    ensures SmallInv(AfterCore(InitCore(size), steps))
    decreases |steps|
  {
    if steps != [] {
      hide NextCore, SmallInv;
      SmallRuns(size, steps[..|steps| - 1]);
      SmallNext(AfterCore(InitCore(size), steps[..|steps| - 1]), steps[|steps| - 1]);
    }
  }
}
