/** What FrameWaiter guarantees over every interleaving of its producer and its consumer. */
module FrameWaiterTheorems {
  import opened Framing
  import opened FrameWaiterModel

  lemma InitInv(size: nat)
    ensures Inv(Init(size))
  {
  }

  // ----- Loss accounting -----

  /**
    * On the way into the ring nothing is lost but whole segments, each from a refused octet to the first
    * delimiter strictly after it; the rest is removed in order.
    */
  lemma LossAccounting(size: nat, steps: seq<Step>)
    ensures var m := After(Init(size), steps);
            && |m.fed| == |m.fate|
            && m.removed + m.ring == Kept(m.fed, m.fate)
            && forall i :: 0 <= i < |m.fate| ==> (m.fate[i].Skipped? <==> exists j :: LostFrom(m.fed, m.fate, j, i))
  {
    var m := After(Init(size), steps);
    InitInv(size);
    RunsKeepInv(Init(size), steps);
    forall i | 0 <= i < |m.fate| ensures m.fate[i].Skipped? <==> exists j :: LostFrom(m.fed, m.fate, j, i) {
      hide Kept, Losing, After;
      LosingIff(m.fed[..i], m.fate[..i]);
      assert m.fate[i].Skipped? <==> Losing(m.fed[..i], m.fate[..i]);
      forall j ensures LostFrom(m.fed[..i], m.fate[..i], j, i) <==> LostFrom(m.fed, m.fate, j, i) {
        LostFromPrefix(m.fed, m.fate, j, i);
      }
    }
  }

  lemma LostFromPrefix(fed: seq<Octet>, fate: seq<Fate>, j: int, i: int)
    requires |fed| == |fate| && 0 <= i <= |fed|
    ensures LostFrom(fed[..i], fate[..i], j, i) <==> LostFrom(fed, fate, j, i)
  {
    if LostFrom(fed[..i], fate[..i], j, i) {
      assert fate[..i][j] == fate[j];
      forall k | j < k < i ensures fed[k] != DELIMITER {
        assert fed[..i][k] == fed[k];
      }
    }
  }

  // ----- Histories only grow -----

  ghost predicate Extends(m0: State, m: State) {
    m0.size == m.size && m0.fed <= m.fed && m0.fate <= m.fate && m0.removed <= m.removed && m0.results <= m.results
    && m0.taken <= m.taken
  }

  lemma NextExtends(m: State, step: Step)
    ensures Extends(m, Next(m, step))
  {
    match step
    case Feed(octet) =>
    case Proceed =>
    case CallNull =>
    case Call(capacity) =>
    case Consume => ConsumeExtends(m);
  }

  /** The result a consumer step reports, if it ends the call. */
  function ConsumeResult(m: State): seq<Return> {
    match m.consumer
    case Idle => []
    case Reading(capacity) =>
      if m.ring == [] || m.ring[0] != DELIMITER then []
      else if |m.pending| > capacity then [Return(BufferTooSmall, capacity, [])]
      else [Return(OK, capacity, m.pending)]
    case Checking(capacity) => if m.overflow then [] else [Return(IncompleteFrame, capacity, [])]
    case Dropping(overflowed, capacity) =>
      if m.ring == [] || m.ring[0] == DELIMITER then
        [Return(if overflowed then Overflow else BufferTooSmall, capacity, [])]
      else []
  }

  lemma ConsumeResults(m: State)
    ensures ConsumeStep(m).results == m.results + ConsumeResult(m)
    ensures ConsumeStep(m).consumer.Idle? <==> m.consumer.Idle? || ConsumeResult(m) != []
    ensures m.overflow && !ConsumeStep(m).overflow ==>
              ConsumeStep(m).consumer.Dropping? && ConsumeStep(m).consumer.overflowed
    ensures m.consumer.Dropping? && !ConsumeStep(m).consumer.Idle? ==> ConsumeStep(m).consumer == m.consumer
  {
    assert m.results + [] == m.results;
  }

  /** The octet a consumer step removes. */
  function RemovedBy(m: State): seq<Octet> {
    if (m.consumer.Reading? || m.consumer.Dropping?) && m.ring != [] then [m.ring[0]] else []
  }

  lemma ConsumeRemoves(m: State)
    ensures ConsumeStep(m).removed == m.removed + RemovedBy(m)
  {
    assert m.removed + [] == m.removed;
  }

  lemma ConsumeExtends(m: State)
    ensures Extends(m, ConsumeStep(m))
  {
    ConsumeResults(m);
    ConsumeRemoves(m);
    ConsumeKeepsInput(m);
    hide ConsumeStep;
  }

  lemma ConsumeKeepsInput(m: State)
    ensures var n := ConsumeStep(m); n.size == m.size && n.fed == m.fed && n.fate == m.fate && m.taken <= n.taken
  {
  }

  lemma {:induction false} RunsExtend(m: State, steps: seq<Step>)
    ensures Extends(m, After(m, steps))
    decreases |steps|
  {
    if steps != [] {
      RunsExtend(m, steps[..|steps| - 1]);
      hide Next;
      NextExtends(After(m, steps[..|steps| - 1]), steps[|steps| - 1]);
    }
  }

  // ----- Overflow is reported before the next incomplete frame -----

  ghost predicate NoneIncomplete(results: seq<Return>, from: nat, to: nat)
    requires to <= |results|
  {
    forall k :: from <= k < to ==> !results[k].status.IncompleteFrame?
  }

  ghost predicate OverflowFirst(results: seq<Return>, from: nat) {
    exists j :: from <= j < |results| && results[j].status.Overflow? && NoneIncomplete(results, from, j)
  }

  /** An overflow is on its way, or has been reported first among the results from the given one on. */
  ghost predicate OverflowDue(from: nat, m: State) {
    OverflowFirst(m.results, from)
    || (NoneIncomplete(m.results, from, |m.results|)
        && (m.overflow || (m.consumer.Dropping? && m.consumer.overflowed)))
  }

  lemma OverflowFirstGrows(results: seq<Return>, more: seq<Return>, from: nat)
    requires OverflowFirst(results, from)
    ensures OverflowFirst(results + more, from)
  {
    var j :| from <= j < |results| && results[j].status.Overflow? && NoneIncomplete(results, from, j);
    assert NoneIncomplete(results + more, from, j);
    assert (results + more)[j] == results[j];
  }

  lemma OverflowDueConsume(from: nat, m: State)
    requires OverflowDue(from, m) && from <= |m.results|
    ensures OverflowDue(from, ConsumeStep(m))
  {
    hide ConsumeStep;
    var n := ConsumeStep(m);
    var more := ConsumeResult(m);
    ConsumeResults(m);
    if OverflowFirst(m.results, from) {
      OverflowFirstGrows(m.results, more, from);
    } else if more != [] && more[0].status.Overflow? {
      assert n.results[|m.results|].status.Overflow?;
      assert NoneIncomplete(n.results, from, |m.results|);
      assert OverflowFirst(n.results, from);
    } else {
      assert NoneIncomplete(n.results, from, |n.results|);
    }
  }

  lemma OverflowDueNext(from: nat, m: State, step: Step)
    requires OverflowDue(from, m) && from <= |m.results|
    ensures OverflowDue(from, Next(m, step))
  {
    if IsProducerStep(step) {
      hide Next;
      ProducerFrame(m, step);
    } else if step.Consume? {
      hide ConsumeStep, OverflowDue;
      OverflowDueConsume(from, m);
    } else if step.CallNull? && m.consumer.Idle? {
      var r := Return(BufferNullptr, 0, []);
      assert Next(m, step).results == m.results + [r];
      if OverflowFirst(m.results, from) {
        OverflowFirstGrows(m.results, [r], from);
      }
    }
  }

  lemma {:induction false} OverflowDueRuns(m: State, steps: seq<Step>)
    requires m.overflow
    ensures OverflowDue(|m.results|, After(m, steps))
    decreases |steps|
  {
    if steps != [] {
      hide Next, OverflowDue;
      OverflowDueRuns(m, steps[..|steps| - 1]);
      RunsExtend(m, steps[..|steps| - 1]);
      OverflowDueNext(|m.results|, After(m, steps[..|steps| - 1]), steps[|steps| - 1]);
    }
  }

  /** Once the flag is up, no call returns IncompleteFrame before one has returned Overflow. */
  lemma OverflowBeforeIncomplete(m: State, steps: seq<Step>, k: nat)
    requires m.overflow
    requires |m.results| <= k < |After(m, steps).results|
    requires After(m, steps).results[k].status.IncompleteFrame?
    ensures exists j :: |m.results| <= j < k && After(m, steps).results[j].status.Overflow?
  {
    hide After, Next, OverflowDue;
    OverflowDueRuns(m, steps);
    DueThenFirst(|m.results|, After(m, steps), k);
  }

  lemma DueThenFirst(from: nat, m: State, k: nat)
    requires OverflowDue(from, m)
    requires from <= k < |m.results| && m.results[k].status.IncompleteFrame?
    ensures exists j :: from <= j < k && m.results[j].status.Overflow?
  {
    if OverflowFirst(m.results, from) {
      var j :| from <= j < |m.results| && m.results[j].status.Overflow? && NoneIncomplete(m.results, from, j);
      assert j < k;
    }
  }

  // ----- Exact framing -----

  /** What a call with this capacity makes of a frame. */
  function Outcome(frame: seq<Octet>, capacity: nat): Return {
    if |frame| > capacity then Return(BufferTooSmall, capacity, []) else Return(OK, capacity, frame)
  }

  /** The results that consumed a frame. */
  function FrameResults(results: seq<Return>): seq<Return> {
    if results == [] then []
    else
      var last := |results| - 1;
      FrameResults(results[..last])
      + if results[last].status.OK? || results[last].status.BufferTooSmall? then [results[last]] else []
  }

  /** One result per frame, in order, each what its call's capacity makes of the frame. */
  ghost predicate Matches(results: seq<Return>, frames: seq<seq<Octet>>) {
    |results| == |frames| && forall i :: 0 <= i < |frames| ==> results[i] == Outcome(frames[i], results[i].capacity)
  }

  function KeptSince(m0: State, m: State): seq<Octet>
    requires Extends(m0, m) && |m0.fed| == |m0.fate| && |m.fed| == |m.fate|
  {
    Kept(m.fed[|m0.fed|..], m.fate[|m0.fate|..])
  }

  function RemovedSince(m0: State, m: State): seq<Octet>
    requires Extends(m0, m)
  {
    m.removed[|m0.removed|..]
  }

  function ResultsSince(m0: State, m: State): seq<Return>
    requires Extends(m0, m)
  {
    m.results[|m0.results|..]
  }

  /** Between frames: the next octet removed starts one. */
  ghost predicate AtBoundary(m: State) { !m.consumer.Dropping? && m.pending == [] }

  /** The stream the consumer sees from m0 on. */
  function StreamSince(m0: State, m: State): seq<Octet>
    requires Extends(m0, m) && |m0.fed| == |m0.fate| && |m.fed| == |m.fate|
  {
    m0.ring + KeptSince(m0, m)
  }

  lemma StreamIsRemovedAndRing(m0: State, m: State)
    requires Inv(m0) && Inv(m) && Extends(m0, m)
    ensures RemovedSince(m0, m) + m.ring == StreamSince(m0, m)
  {
    hide Kept, Inv;
    InvKept(m0);
    InvKept(m);
    var r, k := RemovedSince(m0, m), KeptSince(m0, m);
    KeptSinceSplits(m0, m);
    assert m.removed == m0.removed + r;
    CancelFront(m0.removed, r, m.ring, m0.ring, k);
  }

  lemma InvKept(m: State)
    requires Inv(m)
    ensures |m.fed| == |m.fate| && m.removed + m.ring == Kept(m.fed, m.fate)
  {
  }

  lemma KeptSinceSplits(m0: State, m: State)
    requires Extends(m0, m) && |m0.fed| == |m0.fate| && |m.fed| == |m.fate|
    ensures Kept(m.fed, m.fate) == Kept(m0.fed, m0.fate) + KeptSince(m0, m)
  {
    hide Kept;
    assert m.fed == m0.fed + m.fed[|m0.fed|..];
    assert m.fate == m0.fate + m.fate[|m0.fate|..];
    KeptConcat(m0.fed, m0.fate, m.fed[|m0.fed|..], m.fate[|m0.fate|..]);
  }

  lemma CancelFront(front: seq<Octet>, a: seq<Octet>, b: seq<Octet>, c: seq<Octet>, d: seq<Octet>)
    requires front + a + b == front + c + d
    ensures a + b == c + d
  {
    assert a + b == (front + a + b)[|front|..];
    assert c + d == (front + c + d)[|front|..];
  }

  /** Pending octets and results agree with the octets removed since the boundary. */
  ghost predicate Exact(removed: seq<Octet>, results: seq<Return>, m: State) {
    !m.consumer.Dropping? && m.pending == Tail(removed) && Matches(FrameResults(results), Frames(removed))
  }

  lemma FrameResultsSnoc(results: seq<Return>, r: Return)
    ensures FrameResults(results + [r])
         == FrameResults(results) + if r.status.OK? || r.status.BufferTooSmall? then [r] else []
  {
    assert (results + [r])[..|results|] == results;
  }

  lemma ExactRead(removed: seq<Octet>, results: seq<Return>, m: State, octet: Octet, capacity: nat)
    requires Exact(removed, results, m) && m.consumer == Reading(capacity)
    requires |Tail(removed + [octet])| <= m.size
    requires m.ring != [] && m.ring[0] == octet
    ensures Exact(removed + [octet], results + ConsumeResult(m), ReadOctet(RemoveFirst(m), octet, capacity))
  {
    hide Frames, FrameResults, Tail;
    Snoc(removed, octet);
    if octet == DELIMITER {
      FrameResultsSnoc(results, Outcome(m.pending, capacity));
    } else {
      assert results + [] == results;
    }
  }

  lemma ExactConsume(removed: seq<Octet>, results: seq<Return>, m: State)
    requires Exact(removed, results, m)
    requires m.consumer.Reading? && m.ring != [] ==> |Tail(removed + [m.ring[0]])| <= m.size
    requires ConsumeStep(m).taken == m.taken
    ensures Exact(removed + RemovedBy(m), results + ConsumeResult(m), ConsumeStep(m))
  {
    if m.consumer.Reading? && m.ring != [] {
      hide Exact, Tail, ConsumeResult;
      ExactRead(removed, results, m, m.ring[0], m.consumer.capacity);
    } else {
      hide Frames, Tail, FrameResults, Matches;
      assert results + [] == results && removed + [] == removed;
      if m.consumer.Checking? {
        FrameResultsSnoc(results, Return(IncompleteFrame, m.consumer.capacity, []));
      }
    }
  }

  lemma ExactNext(m0: State, m: State, step: Step)
    requires Extends(m0, m) && Extends(m, Next(m, step))
    requires Exact(RemovedSince(m0, m), ResultsSince(m0, m), m)
    requires Next(m, step).taken == m.taken
    requires step.Consume? && m.consumer.Reading? && m.ring != [] ==>
               |Tail(RemovedSince(m0, m) + [m.ring[0]])| <= m.size
    ensures Extends(m0, Next(m, step))
    ensures Exact(RemovedSince(m0, Next(m, step)), ResultsSince(m0, Next(m, step)), Next(m, step))
  {
    hide Tail, Frames, FrameResults, Matches, ConsumeStep, ConsumeResult, RemovedBy;
    var n := Next(m, step);
    var removed, results := RemovedSince(m0, m), ResultsSince(m0, m);
    if IsProducerStep(step) {
      hide Next;
      ProducerFrame(m, step);
    } else if step.Consume? {
      hide Exact;
      ConsumeResults(m);
      ExactConsume(removed, results, m);
      assert ResultsSince(m0, n) == results + ConsumeResult(m);
      ConsumeRemoves(m);
      assert RemovedSince(m0, n) == removed + RemovedBy(m);
    } else if step.CallNull? && m.consumer.Idle? {
      FrameResultsSnoc(results, Return(BufferNullptr, 0, []));
      assert FrameResults(results) + [] == FrameResults(results);
      assert ResultsSince(m0, n) == results + [Return(BufferNullptr, 0, [])];
    }
  }

  /** No frame of the stream from m0 on is longer than the buffer. */
  ghost predicate FitsSince(m0: State, m: State) {
    Extends(m0, m) && |m0.fed| == |m0.fate| && |m.fed| == |m.fate| && Fits(StreamSince(m0, m), m0.size)
  }

  /** No frame removed since m0, finished or not, is longer than the buffer. */
  ghost predicate RemovedFits(m0: State, m: State) {
    Extends(m0, m) && Fits(RemovedSince(m0, m), m0.size)
  }

  /**
    * From any boundary on, as long as the consumer takes no overflow flag and gives up on no frame, the results
    * are exactly the frames it has removed, in order; a frame longer than the caller's capacity costs itself and
    * nothing else.
    */
  lemma {:induction false} ExactRemoved(m0: State, steps: seq<Step>)
    requires AtBoundary(m0)
    requires After(m0, steps).taken == m0.taken
    requires RemovedFits(m0, After(m0, steps))
    ensures var m := After(m0, steps);
            Extends(m0, m) && Exact(RemovedSince(m0, m), ResultsSince(m0, m), m)
    decreases |steps|
  {
    hide Next, Exact, Fits, Tail, After;
    var m := After(m0, steps);
    if steps == [] {
      AfterNone(m0);
      ExactAtBoundary(m0);
    } else {
      var front, step := steps[..|steps| - 1], steps[|steps| - 1];
      var p := After(m0, front);
      AfterLast(m0, steps);
      RunsExtend(m0, front);
      NextExtends(p, step);
      FitsPrefix(RemovedSince(m0, m), RemovedSince(m0, p), m0.size);
      ExactRemoved(m0, front);
      if step.Consume? && p.consumer.Reading? && p.ring != [] {
        ReadingRemoves(m0, p);
        FitsPrefix(RemovedSince(m0, m), RemovedSince(m0, m), m0.size);
      }
      ExactNext(m0, p, step);
    }
  }

  lemma ReadingRemoves(m0: State, m: State)
    requires Extends(m0, m) && m.consumer.Reading? && m.ring != []
    ensures Extends(m0, Next(m, Consume))
    ensures RemovedSince(m0, Next(m, Consume)) == RemovedSince(m0, m) + [m.ring[0]]
  {
    hide ConsumeStep;
    ConsumeRemoves(m);
    NextExtends(m, Consume);
  }

  /**
    * Exact framing on the stream: from any boundary on, as long as the consumer takes no overflow flag and no
    * frame of the inserted stream outgrows the buffer, the results are exactly the frames of that stream, in
    * order, none lost.
    */
  lemma ExactFraming(m0: State, steps: seq<Step>)
    requires Inv(m0) && AtBoundary(m0)
    requires After(m0, steps).taken == m0.taken
    requires FitsSince(m0, After(m0, steps))
    ensures var m := After(m0, steps);
            && Inv(m) && Extends(m0, m)
            && RemovedSince(m0, m) + m.ring == StreamSince(m0, m)
            && Exact(RemovedSince(m0, m), ResultsSince(m0, m), m)
  {
    hide Exact, Inv, Fits, After, KeptSince;
    var m := After(m0, steps);
    RunsKeepInv(m0, steps);
    RunsExtend(m0, steps);
    StreamIsRemovedAndRing(m0, m);
    FitsPrefix(StreamSince(m0, m), RemovedSince(m0, m), m0.size);
    ExactRemoved(m0, steps);
  }

  lemma ExactAtBoundary(m: State)
    requires AtBoundary(m)
    ensures Extends(m, m) && Exact(RemovedSince(m, m), ResultsSince(m, m), m)
  {
    assert RemovedSince(m, m) == [] && ResultsSince(m, m) == [];
  }

  // ----- Without refusals -----

  lemma {:induction false} KeptAll(fed: seq<Octet>, fate: seq<Fate>)
    requires |fed| == |fate| && forall i :: 0 <= i < |fate| ==> fate[i].Inserted?
    ensures Kept(fed, fate) == fed && !Losing(fed, fate)
  {
    if fed != [] {
      var last := |fed| - 1;
      KeptAll(fed[..last], fate[..last]);
      assert fed == fed[..last] + [fed[last]];
    }
  }

  lemma {:induction false} NoLossWithoutRefusal(fed: seq<Octet>, fate: seq<Fate>)
    requires |fed| == |fate| && FatesExplained(fed, fate)
    requires forall i :: 0 <= i < |fate| ==> !fate[i].Refused?
    ensures forall i :: 0 <= i < |fate| ==> fate[i].Inserted?
    ensures Refusals(fate) == 0 && !Losing(fed, fate)
  {
    if fed != [] {
      var last := |fed| - 1;
      assert FatesExplained(fed[..last], fate[..last]) by {
        forall i {:trigger fate[..last][i]} | 0 <= i < last
          ensures fate[..last][i].Skipped? <==> Losing(fed[..last][..i], fate[..last][..i])
        {
          assert fed[..last][..i] == fed[..i] && fate[..last][..i] == fate[..i] && fate[..last][i] == fate[i];
        }
      }
      NoLossWithoutRefusal(fed[..last], fate[..last]);
      assert fate[last].Skipped? <==> Losing(fed[..last], fate[..last]);
      forall i | 0 <= i < |fate| ensures fate[i].Inserted? {
        if i < last {
          assert fate[..last][i] == fate[i];
        }
      }
    }
  }

  /**
    * Exact concurrent framing: while no insertion fails and no frame outgrows the buffer, the octets
    * removed and the ring make up what was fed, the pending octets follow the last delimiter removed,
    * and the results are the fed frames in order.
    */
  lemma ExactWithoutOverflow(size: nat, steps: seq<Step>)
    requires var m := After(Init(size), steps);
             Fits(m.fed, size) && forall i :: 0 <= i < |m.fate| ==> !m.fate[i].Refused?
    ensures var m := After(Init(size), steps);
            && m.removed + m.ring == m.fed
            && m.pending == Tail(m.removed)
            && Matches(FrameResults(m.results), Frames(m.removed))
            && !m.overflow && m.taken == 0
  {
    hide Inv, Fits, Kept, Losing, FatesExplained, Refusals, Tail, Frames, FrameResults, Matches;
    var m0, m := Init(size), After(Init(size), steps);
    InitInv(size);
    RunsKeepInv(m0, steps);
    RunsExtend(m0, steps);
    InvFates(m);
    NoLossWithoutRefusal(m.fed, m.fate);
    KeptAll(m.fed, m.fate);
    InvKept(m);
    assert m.fed[0..] == m.fed && m.fate[0..] == m.fate;
    assert m.removed[0..] == m.removed && m.results[0..] == m.results;
    assert StreamSince(m0, m) == m.fed;
    ExactFraming(m0, steps);
  }

  lemma InvFates(m: State)
    requires Inv(m)
    ensures |m.fed| == |m.fate| && FatesExplained(m.fed, m.fate)
    ensures Losing(m.fed, m.fate) <==> m.dropping || m.producer.Refusing?
    ensures Refusals(m.fate) == 0 ==> m.taken == 0 && !m.overflow
  {
    hide FatesExplained;
  }

  // ----- After the last refusal -----

  ghost predicate InsertedFrom(fate: seq<Fate>, from: nat) {
    forall i :: from <= i < |fate| ==> fate[i].Inserted?
  }

  lemma InsertedFromPrefix(fate: seq<Fate>, prefix: seq<Fate>, from: nat)
    requires InsertedFrom(fate, from) && prefix <= fate && from <= |prefix|
    ensures InsertedFrom(prefix, from) && InsertedFrom(fate, |prefix|)
  {
  }

  lemma QuietNext(m: State, step: Step)
    requires !m.overflow && !m.producer.Refusing?
    requires InsertedFrom(Next(m, step).fate, |m.fate|)
    ensures var n := Next(m, step); !n.overflow && !n.producer.Refusing? && n.taken == m.taken
  {
    if step.Feed? && m.producer.Ready? {
      assert Next(m, step).fate[|m.fate|].Inserted?;
    }
  }

  lemma {:induction false} QuietRun(m: State, steps: seq<Step>)
    requires !m.overflow && !m.producer.Refusing?
    requires InsertedFrom(After(m, steps).fate, |m.fate|)
    ensures var n := After(m, steps); !n.overflow && !n.producer.Refusing? && n.taken == m.taken
    decreases |steps|
  {
    if steps != [] {
      hide Next, InsertedFrom;
      var p, step := After(m, steps[..|steps| - 1]), steps[|steps| - 1];
      RunsExtend(m, steps[..|steps| - 1]);
      NextExtends(p, step);
      InsertedFromPrefix(Next(p, step).fate, p.fate, |m.fate|);
      QuietRun(m, steps[..|steps| - 1]);
      QuietNext(p, step);
    }
  }

  /** The last octet removed is the delimiter fed at index d, and nothing fed from d on was lost. */
  ghost predicate CaughtUp(m: State, d: nat) {
    && d < |m.fed| == |m.fate| && m.fed[d] == DELIMITER
    && |m.removed| == |Kept(m.fed[..d + 1], m.fate[..d + 1])|
    && InsertedFrom(m.fate, d)
  }

  lemma {:induction false} NotLosingPast(fed: seq<Octet>, fate: seq<Fate>, d: nat)
    requires d < |fed| == |fate| && fed[d] == DELIMITER
    requires forall i :: d <= i < |fate| ==> fate[i].Inserted?
    ensures !Losing(fed, fate)
    decreases |fed|
  {
    var last := |fed| - 1;
    if d < last {
      NotLosingPast(fed[..last], fate[..last], d);
    }
  }

  lemma CaughtUpRing(m: State, d: nat)
    requires Inv(m) && CaughtUp(m, d)
    ensures m.ring == m.fed[d + 1..] && m.pending == []
    ensures !m.dropping && !m.producer.Refusing?
  {
    hide Kept, Losing, FatesExplained, Refusals;
    var front, back := m.fed[..d + 1], m.fed[d + 1..];
    var frontFate, backFate := m.fate[..d + 1], m.fate[d + 1..];
    assert m.fed == front + back && m.fate == frontFate + backFate;
    KeptConcat(front, frontFate, back, backFate);
    KeptAll(back, backFate);
    assert m.removed == (m.removed + m.ring)[..|m.removed|];
    assert m.ring == (m.removed + m.ring)[|m.removed|..];
    assert m.removed == Kept(front, frontFate);
    assert front == m.fed[..d] + [DELIMITER] && frontFate == m.fate[..d] + [Inserted];
    Grow(m.fed[..d], m.fate[..d], DELIMITER, Inserted);
    NotLosingPast(m.fed, m.fate, d);
  }

  /**
    * Resynchronisation: once the overflow flag has been taken and the consumer has then removed one
    * delimiter fed after the dropped segment, every later result is exactly the next fed frame.
    */
  lemma Resynchronisation(size: nat, before: seq<Step>, after: seq<Step>, d: nat)
    requires var m0 := After(Init(size), before); var m := After(m0, after);
             && CaughtUp(m0, d) && !m0.overflow && !m0.consumer.Dropping?
             && InsertedFrom(m.fate, |m0.fate|)
             && d < |m.fed| && Fits(m.fed[d + 1..], size)
    ensures var m0 := After(Init(size), before); var m := After(m0, after);
            && Extends(m0, m)
            && RemovedSince(m0, m) + m.ring == m.fed[d + 1..]
            && m.pending == Tail(RemovedSince(m0, m))
            && Matches(FrameResults(ResultsSince(m0, m)), Frames(RemovedSince(m0, m)))
  {
    hide Inv, Fits, Kept, Tail, Frames, FrameResults, Matches, CaughtUp, After, StreamSince, Next;
    var m0 := After(Init(size), before);
    var m := After(m0, after);
    InitInv(size);
    RunsKeepInv(Init(size), before);
    RunsKeepInv(m0, after);
    RunsExtend(Init(size), before);
    RunsExtend(m0, after);
    CaughtUpRing(m0, d);
    CaughtUpStream(m0, m, d);
    QuietRun(m0, after);
    ExactFraming(m0, after);
  }

  lemma CaughtUpStream(m0: State, m: State, d: nat)
    requires Inv(m0) && Inv(m) && Extends(m0, m)
    requires CaughtUp(m0, d) && InsertedFrom(m.fate, |m0.fate|)
    ensures |m0.fed| == |m0.fate| && |m.fed| == |m.fate| && d < |m.fed|
    ensures StreamSince(m0, m) == m.fed[d + 1..]
  {
    hide Kept, Inv;
    InvKept(m0);
    InvKept(m);
    CaughtUpRing(m0, d);
    KeptAll(m.fed[|m0.fed|..], m.fate[|m0.fate|..]);
    SliceAcross(m0.fed, m.fed, d + 1);
  }

  lemma SliceAcross(prefix: seq<Octet>, whole: seq<Octet>, from: nat)
    requires prefix <= whole && from <= |prefix|
    ensures whole[from..] == prefix[from..] + whole[|prefix|..]
  {
  }
}
