/** What each call of feed and tryReadFrame promises by itself, over every interleaving. */
module FrameWaiterLaws {
  import opened Sequences
  import opened Framing
  import opened FrameWaiterModel
  import opened FrameWaiterTheorems

  // ----- feed -----

  /** A loss is under way: an octet was refused with no delimiter fed after it. */
  ghost predicate LossUnderWay(m: State)
    requires |m.fed| == |m.fate|
  {
    exists j :: LostFrom(m.fed, m.fate, j, |m.fed|)
  }

  /** What feed makes of an octet in this state. */
  ghost predicate Fated(m: State, its: Fate)
    requires |m.fed| == |m.fate|
  {
    && (its.Skipped? <==> LossUnderWay(m))
    && (its.Refused? <==> !LossUnderWay(m) && |m.ring| == m.size)
  }

  /**
    * One octet is skipped while a loss is under way, refused otherwise if the ring is full, and otherwise
    * inserted at its end. A refusal raises the flag, an inserted delimiter calls back, and neither happens else.
    */
  lemma FeedLaw(m: State, octet: Octet) returns (its: Fate)
    requires Inv(m) && m.producer.Ready?
    ensures Fated(m, its)
    ensures After(m, [Feed(octet), Proceed])
         == m.(fed := m.fed + [octet], fate := m.fate + [its],
               ring := m.ring + (if its.Inserted? then [octet] else []),
               overflow := m.overflow || its.Refused?,
               dropping := its.Refused? || (its.Skipped? && octet != DELIMITER),
               callbacks := m.callbacks + if its.Inserted? && octet == DELIMITER then 1 else 0)
  {
    hide After, Kept, Losing, Refusals, FatesExplained;
    LosingIff(m.fed, m.fate);
    AfterTwo(m, Feed(octet), Proceed);
    its := if m.dropping then Skipped else if |m.ring| >= m.size then Refused else Inserted;
    EmptyRight(m.ring);
  }

  /** While the producer has not raised the flag yet, nothing else it is asked to feed begins. */
  lemma {:induction false} StillRefusing(m: State, steps: seq<Step>)
    requires m.producer.Refusing? && Proceed !in steps
    ensures After(m, steps).producer.Refusing?
    decreases |steps|
  {
    if steps != [] {
      StillRefusing(m, steps[..|steps| - 1]);
      assert steps[|steps| - 1] in steps;
    }
  }

  /**
    * Every refusal is reported: once feed has returned from it, no call returns IncompleteFrame before one has
    * returned Overflow, whatever the consumer did in the middle of feed.
    */
  lemma RefusalIsReported(m: State, middle: seq<Step>, steps: seq<Step>, k: nat)
    requires m.producer.Refusing? && Proceed !in middle
    requires var r := Next(After(m, middle), Proceed);
             && |r.results| <= k < |After(r, steps).results|
             && After(r, steps).results[k].status.IncompleteFrame?
    ensures var r := Next(After(m, middle), Proceed);
            exists j :: |r.results| <= j < k && After(r, steps).results[j].status.Overflow?
  {
    hide After;
    StillRefusing(m, middle);
    OverflowBeforeIncomplete(Next(After(m, middle), Proceed), steps, k);
  }

  // ----- The callback -----

  /** The callback has been made once for each inserted frame, but for one that is about to be made. */
  ghost predicate Called(m: State) {
    && |m.fed| == |m.fate|
    && m.callbacks + (if m.producer.Notifying? then 1 else 0) == |Frames(Kept(m.fed, m.fate))|
  }

  lemma FeedCalls(m: State, octet: Octet)
    requires Called(m) && m.producer.Ready?
    ensures Called(FeedStep(m, octet))
  {
    hide Kept, Losing, Frames, Tail;
    var n := FeedStep(m, octet);
    var its := n.fate[|m.fate|];
    Grow(m.fed, m.fate, octet, its);
    Snoc(Kept(m.fed, m.fate), octet);
    EmptyRight(Kept(m.fed, m.fate));
    assert n.fate == m.fate + [its];
  }

  lemma NextCalls(m: State, step: Step)
    requires Called(m)
    ensures Called(Next(m, step))
  {
    hide Kept, Frames;
    if step.Feed? {
      hide FeedStep, Called;
      if m.producer.Ready? {
        FeedCalls(m, step.octet);
      }
    } else if step.Consume? {
      ConsumeLeavesProducer(m);
      hide ConsumeStep;
    }
  }

  lemma ConsumeLeavesProducer(m: State)
    ensures var n := ConsumeStep(m);
            n.fed == m.fed && n.fate == m.fate && n.producer == m.producer && n.callbacks == m.callbacks
  {
  }

  /** The consumer is called back for every frame inserted, once, and for nothing else. */
  lemma {:induction false} CallbackPerFrame(size: nat, steps: seq<Step>)
    ensures Called(After(Init(size), steps))
    decreases |steps|
  {
    if steps != [] {
      hide Next, Called;
      CallbackPerFrame(size, steps[..|steps| - 1]);
      NextCalls(After(Init(size), steps[..|steps| - 1]), steps[|steps| - 1]);
    }
  }

  // ----- Results -----

  /** Only a frame handed over writes anything: plain octets that fit the caller's buffer and the waiter's. */
  ghost predicate Sound(r: Return, size: nat) {
    && !r.status.NoFrame?
    && (if r.status.OK? then Plain(r.frame) && |r.frame| <= r.capacity && |r.frame| <= size else r.frame == [])
  }

  ghost predicate AllSound(m: State) {
    && (forall k :: 0 <= k < |m.results| ==> Sound(m.results[k], m.size))
    && Plain(m.pending) && |m.pending| <= m.size
  }

  lemma NextSound(m: State, step: Step)
    requires AllSound(m)
    ensures AllSound(Next(m, step))
  {
    if IsProducerStep(step) {
      hide Next;
      ProducerFrame(m, step);
      NextExtends(m, step);
    } else if step.Consume? {
      ConsumeResults(m);
      ConsumeKeepsInput(m);
      ConsumePending(m);
      hide ConsumeStep;
    }
  }

  lemma ConsumePending(m: State)
    requires Plain(m.pending) && |m.pending| <= m.size
    ensures Plain(ConsumeStep(m).pending) && |ConsumeStep(m).pending| <= m.size
  {
  }

  /** No call ever answers NoFrame, and what a call writes is a plain frame that fits both buffers, or nothing. */
  lemma {:induction false} ResultsAreSound(size: nat, steps: seq<Step>)
    ensures AllSound(After(Init(size), steps))
    decreases |steps|
  {
    if steps != [] {
      hide Next, AllSound;
      ResultsAreSound(size, steps[..|steps| - 1]);
      NextSound(After(Init(size), steps[..|steps| - 1]), steps[|steps| - 1]);
    }
  }

  function Overflows(results: seq<Return>): nat {
    if results == [] then 0
    else Overflows(results[..|results| - 1]) + if results[|results| - 1].status.Overflow? then 1 else 0
  }

  lemma OverflowsSnoc(results: seq<Return>, r: Return)
    ensures Overflows(results + [r]) == Overflows(results) + if r.status.Overflow? then 1 else 0
  {
    assert (results + [r])[..|results|] == results;
  }

  /** Each flag taken ends in one Overflow, but for the one a call is dropping for. */
  ghost predicate Reported(m: State) {
    Overflows(m.results) + (if m.consumer.Dropping? && m.consumer.overflowed then 1 else 0) == m.taken
  }

  lemma NextReports(m: State, step: Step)
    requires Reported(m)
    ensures Reported(Next(m, step))
  {
    hide Overflows;
    if IsProducerStep(step) {
      hide Next;
      ProducerFrame(m, step);
    } else if step.Consume? {
      hide Reported;
      ConsumeReports(m);
    } else if step.CallNull? {
      OverflowsSnoc(m.results, Return(BufferNullptr, 0, []));
    }
  }

  lemma ConsumeReports(m: State)
    requires Reported(m)
    ensures Reported(ConsumeStep(m))
  {
    hide Overflows;
    var n := ConsumeStep(m);
    if n.results != m.results {
      OverflowsSnoc(m.results, n.results[|m.results|]);
    }
  }

  lemma {:induction false} FlagsAreReported(size: nat, steps: seq<Step>)
    ensures Reported(After(Init(size), steps))
    decreases |steps|
  {
    if steps != [] {
      hide Next, Reported;
      FlagsAreReported(size, steps[..|steps| - 1]);
      NextReports(After(Init(size), steps[..|steps| - 1]), steps[|steps| - 1]);
    }
  }

  /** No Overflow without a refusal: there are never more of them than octets were refused. */
  lemma NoFalseOverflow(size: nat, steps: seq<Step>)
    ensures var m := After(Init(size), steps); Overflows(m.results) <= m.taken <= Refusals(m.fate)
  {
    hide After, Overflows, Kept, Losing, FatesExplained, Refusals;
    FlagsAreReported(size, steps);
    InitInv(size);
    RunsKeepInv(Init(size), steps);
  }
}
