/** The second core's drain loop as it runs, against the core's state machine. */
module CoreOneLoop {
  import opened Sequences
  import opened Framing
  import opened FrameWaiterModel
  import opened CoreOne
  import FrameWaiter

  function CoreStepOf(step: Step): CoreStep {
    if IsProducerStep(step) then Produce(step) else if step.Consume? then Advance else Enter
  }

  function CoreSteps(run: seq<Step>): seq<CoreStep> {
    if run == [] then [] else CoreSteps(run[..|run| - 1]) + [CoreStepOf(run[|run| - 1])]
  }

  /** The core is where the loop puts it: in the call, or past it according to its result. */
  predicate Placed(c: Core) {
    c.place == if !c.waiter.consumer.Idle? then InCall else if LastStatus(c.waiter).OK? then Deciding else AtWfe
  }

  lemma FollowsOne(c: Core, step: Step)
    requires Placed(c) && (step.Consume? || IsProducerStep(step))
    ensures var d := NextCore(c, CoreStepOf(step)); d.waiter == Next(c.waiter, step) && Placed(d)
  {
    hide FeedStep, ProceedStep, ConsumeStep;
    if IsProducerStep(step) {
      ProducerFrame(c.waiter, step);
    } else if c.waiter.consumer.Idle? {
      IdleConsumes(c.waiter);
    }
  }

  lemma IdleConsumes(m: State)
    requires m.consumer.Idle?
    ensures ConsumeStep(m) == m
  {
  }

  /** A call of tryReadFrame, interference included, is a run of the core. */
  lemma {:induction false} CallIsCoreRun(c: Core, run: seq<Step>)
    requires c.place.Deciding? && c.waiter.consumer.Idle?
    requires [Call(c.waiter.size)] <= run && FrameWaiter.OneCall(run)
    ensures var d := AfterCore(c, CoreSteps(run)); d.waiter == After(c.waiter, run) && Placed(d)
    decreases |run|
  {
    hide AfterCore, After, NextCore, Next, Placed;
    var front, x := run[..|run| - 1], run[|run| - 1];
    FrontLast(run);
    CoreStepsLast(run);
    AfterCoreSnoc(c, CoreSteps(front), CoreStepOf(x));
    AfterSnoc(c.waiter, front, x);
    if |run| == 1 {
      assert x == Call(c.waiter.size) && front == [];
      Nothing(c);
      Entering(c);
    } else {
      CallIsCoreRun(c, front);
      FollowsOne(AfterCore(c, CoreSteps(front)), x);
    }
  }

  lemma CoreStepsLast(run: seq<Step>)
    requires run != []
    ensures CoreSteps(run) == CoreSteps(run[..|run| - 1]) + [CoreStepOf(run[|run| - 1])]
  {
  }

  lemma Nothing(c: Core)
    ensures AfterCore(c, CoreSteps([])) == c && After(c.waiter, []) == c.waiter
  {
  }

  lemma Entering(c: Core)
    requires c.place.Deciding? && c.waiter.consumer.Idle?
    ensures var d := NextCore(c, Enter); d.waiter == Next(c.waiter, Call(c.waiter.size)) && Placed(d)
  {
  }

  /** What the other core does in a run of this one. */
  function Productions(steps: seq<CoreStep>): seq<Step> {
    if steps == [] then []
    else
      var last := steps[|steps| - 1];
      Productions(steps[..|steps| - 1])
      + if last.Produce? && IsProducerStep(last.step) then [last.step] else []
  }

  /** How many shared actions this core takes in it. */
  function Advances(steps: seq<CoreStep>): nat {
    if steps == [] then 0 else Advances(steps[..|steps| - 1]) + if steps[|steps| - 1].Advance? then 1 else 0
  }

  /** The other core takes its turns in the order of the schedule, one before each shared action, while any are left. */
  ghost predicate Paced(steps: seq<CoreStep>, schedule: seq<FrameWaiter.Turn>, turns: nat) {
    && turns <= |schedule| && Productions(steps) == FrameWaiter.Flat(schedule[..turns])
    && turns == if Advances(steps) < |schedule| then Advances(steps) else |schedule|
  }

  lemma PacedNone(schedule: seq<FrameWaiter.Turn>)
    ensures Paced([], schedule, 0)
  {
  }

  lemma {:induction false} CallProduces(run: seq<Step>)
    ensures Productions(CoreSteps(run)) == FrameWaiter.ProducerPart(run)
    ensures Advances(CoreSteps(run)) == FrameWaiter.Consumes(run)
    decreases |run|
  {
    if run != [] {
      var front, x := run[..|run| - 1], run[|run| - 1];
      CallProduces(front);
      CoreStepsLast(run);
      assert CoreSteps(run)[..|CoreSteps(run)| - 1] == CoreSteps(front);
    }
  }

  lemma {:induction false} ProductionsConcat(a: seq<CoreStep>, b: seq<CoreStep>)
    ensures Productions(a + b) == Productions(a) + Productions(b)
    ensures Advances(a + b) == Advances(a) + Advances(b)
    decreases |b|
  {
    if b == [] {
      EmptyRight(a);
      EmptyRight(Productions(a));
    } else {
      var front, x := b[..|b| - 1], b[|b| - 1];
      ProductionsConcat(a, front);
      assert (a + b)[..|a + b| - 1] == a + front;
    }
  }

  lemma {:induction false} FlatSplit(a: seq<FrameWaiter.Turn>, b: seq<FrameWaiter.Turn>)
    ensures FrameWaiter.Flat(a + b) == FrameWaiter.Flat(a) + FrameWaiter.Flat(b)
    decreases |b|
  {
    if b == [] {
      EmptyRight(a);
      EmptyRight(FrameWaiter.Flat(a));
    } else {
      hide FrameWaiter.Flat;
      var front, x := b[..|b| - 1], b[|b| - 1];
      FlatSplit(a, front);
      FrontLast(b);
      Associate(a, front, [x]);
      FlatSnoc(front, x);
      FlatSnoc(a + front, x);
      Associate(FrameWaiter.Flat(a), FrameWaiter.Flat(front), x);
    }
  }

  lemma FlatSnoc(turns: seq<FrameWaiter.Turn>, turn: FrameWaiter.Turn)
    ensures FrameWaiter.Flat(turns + [turn]) == FrameWaiter.Flat(turns) + turn
  {
    assert (turns + [turn])[..|turns|] == turns;
  }

  /** One more call, paced by what is left of the schedule. */
  lemma PacedOn(steps: seq<CoreStep>, schedule: seq<FrameWaiter.Turn>, turns: nat, run: seq<Step>, more: nat)
    requires Paced(steps, schedule, turns) && more <= |schedule| - turns
    requires FrameWaiter.ProducerPart(run) == FrameWaiter.Flat(schedule[turns..][..more])
    requires var n, left := FrameWaiter.Consumes(run), |schedule| - turns; more == if n < left then n else left
    ensures Paced(steps + CoreSteps(run), schedule, turns + more)
  {
    hide Productions, Advances, FrameWaiter.ProducerPart, FrameWaiter.Consumes, FrameWaiter.Flat, CoreSteps;
    CallProduces(run);
    ProductionsConcat(steps, CoreSteps(run));
    FlatSplit(schedule[..turns], schedule[turns..][..more]);
    assert schedule[..turns] + schedule[turns..][..more] == schedule[..turns + more];
  }

  /** The frames a list of results handed over. */
  function Handed(results: seq<Return>): seq<seq<Octet>> {
    if results == [] then []
    else
      var r := results[|results| - 1];
      Handed(results[..|results| - 1]) + if r.status.OK? then [r.frame] else []
  }

  lemma HandedSnoc(results: seq<Return>, r: Return)
    ensures Handed(results + [r]) == Handed(results) + if r.status.OK? then [r.frame] else []
  {
    assert (results + [r])[..|results|] == results;
  }

  /** The state machine has come from c to a core around this waiter. */
  ghost predicate Reaches(c: Core, steps: seq<CoreStep>, m: State) {
    AfterCore(c, steps).waiter == m
  }

  lemma NoSteps(c: Core)
    ensures AfterCore(c, []) == c && Handed([]) == []
  {
  }

  lemma TrackRun(start: State, run: seq<Step>, now: State, schedule: seq<FrameWaiter.Turn>, turns: nat)
    requires FrameWaiter.Track(start, run, now, schedule, turns)
    ensures now == After(start, run) && FrameWaiter.OneCall(run) && turns <= |schedule|
    ensures FrameWaiter.ProducerPart(run) == FrameWaiter.Flat(schedule[..turns])
    ensures var n := FrameWaiter.Consumes(run); turns == if n < |schedule| then n else |schedule|
  {
  }

  /**
    * The inner loop of one round, under any interference: it leads the core to its __wfe and hands over
    * exactly the frames its calls returned, in order.
    */
  method Drain(waiter: FrameWaiter.FrameWaiter, buffer: array<Octet>, schedule: seq<FrameWaiter.Turn>, ghost c: Core)
    returns (handled: seq<seq<Octet>>, ghost steps: seq<CoreStep>, taken: nat)
    requires waiter.Valid() && c.waiter == waiter.model && c.place.Deciding? && waiter.model.consumer.Idle?
    requires buffer.Length == waiter.size && buffer != waiter.pendingFrameBuffer
    modifies waiter, waiter.pendingFrameBuffer, buffer
    ensures waiter.Valid() && waiter.model.consumer.Idle?
    ensures Reaches(c, steps, waiter.model) && AfterCore(c, steps).place.AtWfe? && Paced(steps, schedule, taken)
    ensures exists results :: waiter.model.results == old(waiter.model.results) + results && handled == Handed(results)
  {
    hide AfterCore, After, Handed, FrameWaiterModel.Inv, FrameWaiter.Track, Next, NextCore, Paced;
    handled, steps, taken := [], [], 0;
    PacedNone(schedule);
    ghost var results: seq<Return> := [];
    NoSteps(c);
    while true
      invariant waiter.Valid() && waiter.model.consumer.Idle?
      invariant Reaches(c, steps, waiter.model) && AfterCore(c, steps).place.Deciding?
      invariant taken <= |schedule| && Paced(steps, schedule, taken)
      invariant waiter.model.results == old(waiter.model.results) + results && handled == Handed(results)
      decreases |schedule| - taken, |waiter.buffer|
    {
      ghost var d := AfterCore(c, steps);
      var status, bytesWritten, turns;
      ghost var run;
      status, bytesWritten, run, turns := waiter.TryReadFrame(buffer, buffer.Length, schedule[taken..]);
      TrackRun(d.waiter, run, waiter.model, schedule[taken..], turns);
      PacedOn(steps, schedule, taken, run, turns);
      CallIsCoreRun(d, run);
      AfterCoreConcat(c, steps, CoreSteps(run));
      steps, taken := steps + CoreSteps(run), taken + turns;
      HandedSnoc(results, waiter.model.results[|waiter.model.results| - 1]);
      results := results + [waiter.model.results[|waiter.model.results| - 1]];
      if !status.OK? {
        break;
      }
      handled := handled + [buffer[..bytesWritten]];
    }
  }
}
