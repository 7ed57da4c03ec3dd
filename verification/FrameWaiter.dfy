/** FrameWaiter as it runs: the fields it updates in place, tied to the model at every shared action. */
module FrameWaiter {
  import opened Sequences
  import opened Framing
  import opened FrameWaiterModel

  type Turn = t: seq<Step> | forall s :: s in t ==> IsProducerStep(s) witness []

  /** The producer's steps in a run. */
  function ProducerPart(run: seq<Step>): seq<Step> {
    if run == [] then []
    else
      var last := |run| - 1;
      ProducerPart(run[..last]) + if IsProducerStep(run[last]) then [run[last]] else []
  }

  function Consumes(run: seq<Step>): nat {
    if run == [] then 0 else Consumes(run[..|run| - 1]) + if run[|run| - 1].Consume? then 1 else 0
  }

  function Flat(turns: seq<Turn>): seq<Step> {
    if turns == [] then [] else Flat(turns[..|turns| - 1]) + turns[|turns| - 1]
  }

  lemma ProducerPartSnoc(run: seq<Step>, step: Step)
    ensures ProducerPart(run + [step]) == ProducerPart(run) + if IsProducerStep(step) then [step] else []
    ensures Consumes(run + [step]) == Consumes(run) + if step.Consume? then 1 else 0
  {
    assert (run + [step])[..|run|] == run;
  }

  /** Feeding a range octet by octet. */
  function Feeding(range: seq<Octet>): seq<Step> {
    if range == [] then [] else Feeding(range[..|range| - 1]) + [Feed(range[|range| - 1]), Proceed]
  }

  /** It feeds exactly the octets of the range, in order. */
  lemma {:induction false} FeedingFeeds(m: State, range: seq<Octet>)
    requires m.producer.Ready?
    ensures var n := After(m, Feeding(range)); n.fed == m.fed + range && n.producer.Ready?
    decreases |range|
  {
    if range == [] {
      EmptyRight(m.fed);
    } else {
      hide After, Feeding;
      var front, x := range[..|range| - 1], range[|range| - 1];
      FrontLast(range);
      FeedingFeeds(m, front);
      FeedingSnoc(front, x);
      AfterConcat(m, Feeding(front), [Feed(x), Proceed]);
      FeedingOne(After(m, Feeding(front)), x);
      Associate(m.fed, front, [x]);
    }
  }

  lemma FeedingSnoc(range: seq<Octet>, x: Octet)
    ensures Feeding(range + [x]) == Feeding(range) + [Feed(x), Proceed]
  {
    assert (range + [x])[..|range|] == range;
  }

  lemma FeedingOne(m: State, x: Octet)
    requires m.producer.Ready?
    ensures var n := After(m, [Feed(x), Proceed]); n.fed == m.fed + [x] && n.producer.Ready?
  {
    hide After;
    AfterTwo(m, Feed(x), Proceed);
  }

  /** Only the first step of the run enters tryReadFrame. */
  ghost predicate OneCall(run: seq<Step>) {
    forall i :: 1 <= i < |run| ==> run[i].Consume? || IsProducerStep(run[i])
  }

  /** The run so far leads from start to now, and the producer's steps in it are the turns taken. */
  ghost predicate Follows(start: State, run: seq<Step>, now: State, schedule: seq<Turn>, turns: nat) {
    && turns <= |schedule| && now == After(start, run) && ProducerPart(run) == Flat(schedule[..turns])
    && OneCall(run)
  }

  /** And one turn was taken before each shared action of the consumer, while there were any left. */
  ghost predicate Track(start: State, run: seq<Step>, now: State, schedule: seq<Turn>, turns: nat) {
    && Follows(start, run, now, schedule, turns)
    && turns == if Consumes(run) < |schedule| then Consumes(run) else |schedule|
  }

  lemma TrackTurns(start: State, run: seq<Step>, now: State, schedule: seq<Turn>, turns: nat)
    requires Track(start, run, now, schedule, turns)
    ensures turns <= |schedule|
  {
  }

  // ----- What a remove does, seen from the consumer's place in the call -----

  lemma ConsumeShared(m: State)
    requires m.consumer.Reading? || m.consumer.Dropping?
    ensures var n := ConsumeStep(m);
            && n.size == m.size && n.overflow == m.overflow && n.dropping == m.dropping && n.producer == m.producer
            && n.ring == if m.ring == [] then [] else m.ring[1..]
  {
  }

  lemma ConsumeReading(m: State, capacity: nat)
    requires m.consumer == Reading(capacity)
    ensures var n := ConsumeStep(m);
            if m.ring == [] then
              n.consumer == Checking(capacity) && n.pending == m.pending && n.results == m.results
            else if m.ring[0] == DELIMITER then
              && n.consumer.Idle? && n.pending == []
              && n.results == m.results + [if |m.pending| > capacity then Return(BufferTooSmall, capacity, [])
                                           else Return(OK, capacity, m.pending)]
            else
              && n.results == m.results
              && if |m.pending| >= m.size then n.consumer == Dropping(false, capacity) && n.pending == m.pending
                 else n.consumer == m.consumer && n.pending == m.pending + [m.ring[0]]
  {
  }

  lemma ConsumeDropping(m: State)
    requires m.consumer.Dropping?
    ensures var n := ConsumeStep(m); var c := m.consumer;
            if m.ring == [] || m.ring[0] == DELIMITER then
              && n.consumer.Idle? && n.pending == []
              && n.results == m.results + [Return(if c.overflowed then Overflow else BufferTooSmall, c.capacity, [])]
            else n.consumer == c && n.pending == m.pending && n.results == m.results
  {
  }

  lemma TrackNone(m: State, schedule: seq<Turn>)
    ensures Track(m, [], m, schedule, 0) && Follows(m, [], m, schedule, 0) && Consumes([]) == 0
  {
  }

  lemma TrackConsumer(start: State, run: seq<Step>, now: State, schedule: seq<Turn>, turns: nat, step: Step)
    requires Follows(start, run, now, schedule, turns) && !IsProducerStep(step) && (run == [] || step.Consume?)
    requires turns == if Consumes(run + [step]) < |schedule| then Consumes(run + [step]) else |schedule|
    ensures Track(start, run + [step], Next(now, step), schedule, turns)
  {
    hide Next;
    AfterSnoc(start, run, step);
    ProducerPartSnoc(run, step);
    assert ProducerPart(run) + [] == ProducerPart(run);
  }

  class FrameWaiter {
    const size: nat
    const pendingFrameBuffer: array<Octet>
    var buffer: seq<Octet>  // the ring, oldest octet first
    var pendingFrameSize: nat
    var overflow: bool
    var droppingFeedBytes: bool
    var producer: Producer  // how far the producer is inside feed
    ghost var model: State

    ghost predicate Valid()
      reads this, pendingFrameBuffer
    {
      && SharedValid()
      && pendingFrameSize <= size == pendingFrameBuffer.Length
      && model.pending == pendingFrameBuffer[..pendingFrameSize]
    }

    /** Everything but the consumer's own pending octets. */
    ghost predicate SharedValid()
      reads this`buffer, this`overflow, this`droppingFeedBytes, this`producer, this`model
    {
      && model.size == size
      && model.ring == buffer
      && model.overflow == overflow
      && model.dropping == droppingFeedBytes
      && model.producer == producer
      && Inv(model)
    }

    constructor (size: nat)
      ensures Valid() && fresh(pendingFrameBuffer)
      ensures this.size == size && model == Init(size)
    {
      this.size := size;
      pendingFrameBuffer := new Octet[size];
      buffer := [];
      pendingFrameSize := 0;
      overflow := false;
      droppingFeedBytes := false;
      producer := Ready;
      model := Init(size);
    }

    /** One octet, fed without interruption. */
    method Feed(byte: Octet)
      requires Valid() && producer.Ready?
      modifies this`buffer, this`overflow, this`droppingFeedBytes, this`producer, this`model
      ensures Valid() && producer.Ready?
      ensures model == After(old(model), [Step.Feed(byte), Proceed]) && model.fed == old(model).fed + [byte]
    {
      FeedingOne(model, byte);
      FeedStart(byte);
      FeedFinish();
      AfterTwo(old(model), Step.Feed(byte), Proceed);
    }

    method FeedRange(range: seq<Octet>)
      requires Valid() && producer.Ready?
      modifies this`buffer, this`overflow, this`droppingFeedBytes, this`producer, this`model
      ensures Valid() && producer.Ready?
      ensures model == After(old(model), Feeding(range)) && model.fed == old(model).fed + range
    {
      FeedingFeeds(model, range);
      AfterNone(model);
      for i := 0 to |range|
        invariant Valid() && producer.Ready?
        invariant model == After(old(model), Feeding(range[..i]))
      {
        Feed(range[i]);
        assert range[..i + 1][..i] == range[..i];
        AfterConcat(old(model), Feeding(range[..i]), [Step.Feed(range[i]), Proceed]);
      }
      assert range[..|range|] == range;
    }

    method InsertDelimiter()
      requires Valid() && producer.Ready?
      modifies this`buffer, this`overflow, this`droppingFeedBytes, this`producer, this`model
      ensures Valid() && producer.Ready?
      ensures model == After(old(model), [Step.Feed(DELIMITER), Proceed])
      ensures model.fed == old(model).fed + [DELIMITER]
    {
      Feed(DELIMITER);
    }

    /** feed up to and including the insertion; a producer already inside feed does nothing. */
    method FeedStart(byte: Octet)
      requires Valid()
      modifies this`buffer, this`droppingFeedBytes, this`producer, this`model
      ensures Valid() && model == Next(old(model), Step.Feed(byte))
    {
      hide Inv;
      NextKeepsInv(model, Step.Feed(byte));
      model := Next(model, Step.Feed(byte));
      if producer.Ready? {
        if droppingFeedBytes {
          if byte == DELIMITER {
            droppingFeedBytes := false;
          }
        } else if |buffer| < size {
          buffer := buffer + [byte];
          if byte == DELIMITER {
            producer := Notifying;
          }
        } else {
          producer := Refusing;
        }
      }
    }

    /** The rest of feed: raise the flags after a refusal, call back after a delimiter. */
    method FeedFinish()
      requires Valid()
      modifies this`overflow, this`droppingFeedBytes, this`producer, this`model
      ensures Valid() && producer.Ready? && model == Next(old(model), Proceed)
    {
      hide Inv;
      NextKeepsInv(model, Proceed);
      model := Next(model, Proceed);
      if producer.Refusing? {
        overflow := true;
        droppingFeedBytes := true;
      }
      producer := Ready;
    }

    /** The other core runs for a while. */
    method Interfere(turn: Turn, ghost start: State, ghost run: seq<Step>) returns (ghost now: seq<Step>)
      requires Valid() && model == After(start, run) && OneCall(run)
      modifies this`buffer, this`overflow, this`droppingFeedBytes, this`producer, this`model
      ensures Valid() && model == After(start, now) && OneCall(now) && run <= now
      ensures ProducerPart(now) == ProducerPart(run) + turn && Consumes(now) == Consumes(run)
      ensures model.consumer == old(model.consumer) && model.results == old(model.results)
      ensures model.pending == old(model.pending)
    {
      hide Next, After, Inv, ProducerPart, Consumes;
      now := run;
      for i := 0 to |turn|
        invariant Valid() && model == After(start, now) && OneCall(now) && run <= now
        invariant ProducerPart(now) == ProducerPart(run) + turn[..i] && Consumes(now) == Consumes(run)
        invariant model.consumer == old(model.consumer) && model.results == old(model.results)
        invariant model.pending == old(model.pending)
      {
        var step := turn[i];
        ProducerFrame(model, step);
        if step.Feed? {
          FeedStart(step.octet);
        } else {
          FeedFinish();
        }
        AfterSnoc(start, now, step);
        ProducerPartSnoc(now, step);
        now := now + [step];
      }
    }

    /** Before the consumer's next shared action the other core takes its next turn, if it has one left. */
    method NextTurn(schedule: seq<Turn>, turns: nat, ghost start: State, ghost run: seq<Step>)
      returns (taken: nat, ghost now: seq<Step>)
      requires Valid() && Track(start, run, model, schedule, turns)
      modifies this`buffer, this`overflow, this`droppingFeedBytes, this`producer, this`model
      ensures Valid() && Follows(start, now, model, schedule, taken) && run <= now
      ensures Follows(start, run, old(model), schedule, turns) && Consumes(now) == Consumes(run)
      ensures taken == if Consumes(now) + 1 < |schedule| then Consumes(now) + 1 else |schedule|
      ensures if turns < |schedule| then taken == turns + 1 else taken == turns && buffer == old(buffer)
      ensures model.consumer == old(model.consumer) && model.results == old(model.results)
      ensures model.pending == old(model.pending)
    {
      hide Inv, After, ProducerPart, Consumes;
      taken, now := turns, run;
      if turns < |schedule| {
        taken := turns + 1;
        now := Interfere(schedule[turns], start, run);
        assert schedule[..taken][..turns] == schedule[..turns];
      }
    }

    /** After the other core's turn, one remove from the ring. */
    method Remove(schedule: seq<Turn>, turns: nat, ghost start: State, ghost run: seq<Step>)
      returns (ok: bool, byte: Octet, taken: nat, ghost now: seq<Step>, ghost prior: State)
      requires Valid() && Track(start, run, model, schedule, turns)
      requires model.consumer.Reading? || model.consumer.Dropping?
      modifies this`buffer, this`overflow, this`droppingFeedBytes, this`producer, this`model
      ensures SharedValid() && Track(start, now, model, schedule, taken) && run <= now
      ensures turns <= taken && (taken == turns ==> if ok then |buffer| < |old(buffer)| else buffer == old(buffer))
      ensures prior.consumer == old(model.consumer) && prior.results == old(model.results)
      ensures prior.pending == old(model.pending) && prior.size == size
      ensures model == ConsumeStep(prior)
      ensures if ok then prior.ring != [] && byte == prior.ring[0] else prior.ring == []
    {
      hide Inv, Track, Follows, After, ProducerPart, Consumes;
      taken, now := NextTurn(schedule, turns, start, run);
      prior := model;
      NextKeepsInv(prior, Consume);
      ProducerPartSnoc(now, Consume);
      TrackConsumer(start, now, prior, schedule, taken, Consume);
      now := now + [Consume];
      model := Next(model, Consume);
      ConsumeShared(prior);
      hide ConsumeStep;
      ok, byte := buffer != [], DELIMITER;
      if ok {
        byte := buffer[0];
        buffer := buffer[1..];
      }
    }

    /** Entering tryReadFrame shares nothing with the other core. */
    ghost method BeginCall(isNull: bool, capacity: nat, schedule: seq<Turn>) returns (run: seq<Step>)
      requires Valid() && model.consumer.Idle?
      modifies this`model
      ensures Valid() && Track(old(model), run, model, schedule, 0) && model.pending == old(model.pending)
      ensures run == [if isNull then CallNull else Call(capacity)]
      ensures if isNull then
                model.consumer.Idle? && model.results == old(model.results) + [Return(BufferNullptr, 0, [])]
              else model.consumer == Reading(capacity) && model.results == old(model.results)
    {
      hide Inv, Track, After, ProducerPart;
      var step := if isNull then CallNull else Call(capacity);
      TrackNone(model, schedule);
      NextKeepsInv(model, step);
      ProducerPartSnoc([], step);
      TrackConsumer(model, [], model, schedule, 0, step);
      model := Next(model, step);
      run := [] + [step];
    }

    /** The call under any interference: the other core takes one turn before each shared action. */
    method TryReadFrame(outputBuffer: array?<Octet>, bufferCapacity: nat, schedule: seq<Turn>)
      returns (status: ReadFrameStatus, bytesWritten: nat, ghost run: seq<Step>, turns: nat)
      requires Valid() && model.consumer.Idle?
      requires outputBuffer != null ==> bufferCapacity <= outputBuffer.Length && outputBuffer != pendingFrameBuffer
      modifies this`buffer, this`pendingFrameSize, this`overflow, this`droppingFeedBytes, this`producer, this`model
      modifies pendingFrameBuffer, if outputBuffer == null then {} else {outputBuffer}
      ensures Valid() && model.consumer.Idle?
      ensures Track(old(model), run, model, schedule, turns)
      ensures [if outputBuffer == null then CallNull else Call(bufferCapacity)] <= run
      ensures status.OK? && turns == 0 ==> |buffer| < |old(buffer)|
      ensures outputBuffer == null ==>
                status == BufferNullptr && bytesWritten == 0
                && model.results == old(model.results) + [Return(BufferNullptr, 0, [])]
      ensures outputBuffer != null ==>
                && bytesWritten <= outputBuffer.Length
                && model.results == old(model.results) + [Return(status, bufferCapacity, outputBuffer[..bytesWritten])]
                && outputBuffer[bytesWritten..] == old(outputBuffer[bytesWritten..])
    {
      hide Inv, Track, After, ConsumeStep, Next, SharedValid;
      bytesWritten := 0;
      var t := 0;
      ghost var start := model;
      run := BeginCall(outputBuffer == null, bufferCapacity, schedule);
      if outputBuffer == null {
        return BufferNullptr, 0, run, 0;
      }
      while true
        invariant Valid() && Track(start, run, model, schedule, t) && [Call(bufferCapacity)] <= run
        invariant t == 0 ==> |buffer| <= |old(buffer)|
        invariant model.consumer == Reading(bufferCapacity) && model.results == start.results
        invariant outputBuffer[..] == old(outputBuffer[..])
        decreases |schedule| - t, |buffer|
      {
        var ok, byte;
        ghost var prior;
        TrackTurns(start, run, model, schedule, t);
        ok, byte, t, run, prior := Remove(schedule, t, start, run);
        TrackTurns(start, run, model, schedule, t);
        ConsumeReading(prior, bufferCapacity);
        if !ok {
          break;
        }
        if byte == DELIMITER {
          var n := pendingFrameSize;
          pendingFrameSize := 0;
          if n > bufferCapacity {
            return BufferTooSmall, 0, run, t;
          }
          CopyPending(outputBuffer, n);
          return OK, n, run, t;
        }
        if pendingFrameSize >= pendingFrameBuffer.Length {
          t, run := DropBufferUntilDelimiterOrEmpty(schedule, t, start, run);
          return BufferTooSmall, 0, run, t;
        }
        pendingFrameBuffer[pendingFrameSize] := byte;
        pendingFrameSize := pendingFrameSize + 1;
      }
      var raised;
      raised, t, run := ExchangeOverflow(schedule, t, start, run);
      if raised {
        t, run := DropBufferUntilDelimiterOrEmpty(schedule, t, start, run);
        return Overflow, 0, run, t;
      }
      return IncompleteFrame, 0, run, t;
    }

    /** After the other core's turn, the flag is read and cleared in one action. */
    method ExchangeOverflow(schedule: seq<Turn>, turns: nat, ghost start: State, ghost run: seq<Step>)
      returns (raised: bool, taken: nat, ghost now: seq<Step>)
      requires Valid() && Track(start, run, model, schedule, turns) && model.consumer.Checking?
      modifies this`buffer, this`overflow, this`droppingFeedBytes, this`producer, this`model
      ensures Valid() && Track(start, now, model, schedule, taken) && run <= now
      ensures var c := old(model.consumer).capacity;
              if raised then model.consumer == Dropping(true, c) && model.results == old(model.results)
              else model.consumer.Idle? && model.results == old(model.results) + [Return(IncompleteFrame, c, [])]
    {
      hide Inv, Track, Follows, After, ProducerPart, Consumes;
      taken, now := NextTurn(schedule, turns, start, run);
      ghost var prior := model;
      NextKeepsInv(prior, Consume);
      ProducerPartSnoc(now, Consume);
      TrackConsumer(start, now, prior, schedule, taken, Consume);
      now := now + [Consume];
      model := Next(model, Consume);
      raised := overflow;
      overflow := false;
    }

    /** Discards up to the next delimiter, then the pending octets, which ends the call. */
    method DropBufferUntilDelimiterOrEmpty(schedule: seq<Turn>, turns: nat, ghost start: State, ghost run: seq<Step>)
      returns (taken: nat, ghost now: seq<Step>)
      requires Valid() && Track(start, run, model, schedule, turns) && model.consumer.Dropping?
      modifies this`buffer, this`pendingFrameSize, this`overflow, this`droppingFeedBytes, this`producer, this`model
      ensures Valid() && Track(start, now, model, schedule, taken) && run <= now && model.consumer.Idle?
      ensures var c := old(model.consumer);
              model.results == old(model.results)
                + [Return(if c.overflowed then Overflow else BufferTooSmall, c.capacity, [])]
    {
      hide Inv, Track, After, ConsumeStep;
      taken, now := turns, run;
      while true
        invariant Valid() && Track(start, now, model, schedule, taken) && run <= now
        invariant model.consumer == old(model.consumer) && model.results == old(model.results)
        decreases |schedule| - taken, |buffer|
      {
        var ok, byte;
        ghost var prior;
        TrackTurns(start, now, model, schedule, taken);
        ok, byte, taken, now, prior := Remove(schedule, taken, start, now);
        TrackTurns(start, now, model, schedule, taken);
        ConsumeDropping(prior);
        if !ok || byte == DELIMITER {
          break;
        }
      }
      pendingFrameSize := 0;
    }

    /** memcpy of the pending octets to the caller's buffer. */
    method CopyPending(target: array<Octet>, n: nat)
      requires n <= pendingFrameBuffer.Length && n <= target.Length && target != pendingFrameBuffer
      modifies target
      ensures target[..] == pendingFrameBuffer[..n] + old(target[n..])
    {
      for i := 0 to n
        invariant target[..i] == pendingFrameBuffer[..i]
        invariant target[i..] == old(target[i..])
      {
        target[i] := pendingFrameBuffer[i];
      }
    }
  }
}
