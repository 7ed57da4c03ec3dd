/** When the frames handed over are the frames fed, what a drop discards, and when the second core can oversleep. */
module FrameWaiterLimits {
  import opened Sequences
  import opened Framing
  import opened FrameWaiterModel
  import opened FrameWaiterTheorems
  import opened CoreOne

  lemma AfterFour(m: State, a: Step, b: Step, c: Step, d: Step)
    ensures After(m, [a, b, c, d]) == Next(Next(Next(Next(m, a), b), c), d)
  {
    hide Next, After;
    AfterTwo(m, a, b);
    AfterTwo(After(m, [a, b]), c, d);
    AfterConcat(m, [a, b], [c, d]);
    assert [a, b] + [c, d] == [a, b, c, d];
  }

  ghost predicate NoneRefused(fate: seq<Fate>) {
    forall i :: 0 <= i < |fate| ==> !fate[i].Refused?
  }

  // ----- Producer and consumer in lockstep -----

  /** Every octet is removed before the next one is fed. */
  function Lockstep(size: nat, octets: seq<Octet>): seq<Step> {
    if octets == [] then []
    else
      var last := |octets| - 1;
      Lockstep(size, octets[..last]) + [Call(size), Feed(octets[last]), Proceed, Consume]
  }

  lemma LockstepSnoc(size: nat, octets: seq<Octet>, x: Octet)
    ensures Lockstep(size, octets + [x]) == Lockstep(size, octets) + [Call(size), Feed(x), Proceed, Consume]
  {
    assert (octets + [x])[..|octets|] == octets;
  }

  /** Between two such octets, nothing has ever been refused. */
  ghost predicate Calm(m: State) {
    && m.size > 0 && m.ring == [] && m.producer.Ready? && !m.dropping && !m.overflow
    && (m.consumer.Idle? || m.consumer == Reading(m.size))
    && |m.fed| == |m.fate| && NoneRefused(m.fate)
  }

  /** n is m after these octets, with this frame under way and these results. */
  ghost predicate Moved(m: State, n: State, octets: seq<Octet>, pending: seq<Octet>, results: seq<Return>) {
    && Calm(n) && n.size == m.size && n.fed == m.fed + octets && n.removed == m.removed + octets
    && n.pending == pending && n.results == results
  }

  lemma LockTurn(m: State, x: Octet)
    requires Calm(m) && (if x == DELIMITER then |m.pending| <= m.size else |m.pending| < m.size)
    ensures Moved(m, After(m, [Call(m.size), Feed(x), Proceed, Consume]), [x],
                  if x == DELIMITER then [] else m.pending + [x],
                  if x == DELIMITER then m.results + [Return(OK, m.size, m.pending)] else m.results)
  {
    hide After;
    AfterFour(m, Call(m.size), Feed(x), Proceed, Consume);
  }

  /** The results of a lockstep run, which has given every frame in full. */
  function Delivered(size: nat, frames: seq<seq<Octet>>): seq<Return> {
    if frames == [] then []
    else Delivered(size, frames[..|frames| - 1]) + [Return(OK, size, frames[|frames| - 1])]
  }

  lemma DeliveredSnoc(size: nat, frames: seq<seq<Octet>>, frame: seq<Octet>)
    ensures Delivered(size, frames + [frame]) == Delivered(size, frames) + [Return(OK, size, frame)]
  {
    assert (frames + [frame])[..|frames|] == frames;
  }

  /** From a boundary, octets that fit are all handed over, frame by frame. */
  lemma {:induction false} LockRun(m: State, octets: seq<Octet>)
    requires Calm(m) && m.pending == [] && Fits(octets, m.size)
    ensures Moved(m, After(m, Lockstep(m.size, octets)), octets, Tail(octets),
                  m.results + Delivered(m.size, Frames(octets)))
    decreases |octets|
  {
    hide After, Calm, Fits, Tail, Frames, Delivered, Lockstep;
    if octets == [] {
      LockNothing(m);
    } else {
      var front, x := octets[..|octets| - 1], octets[|octets| - 1];
      FrontLast(octets);
      FitsPrefix(octets, front, m.size);
      FitsPrefix(octets, octets, m.size);
      LockRun(m, front);
      var p := After(m, Lockstep(m.size, front));
      Snoc(front, x);
      LockTurn(p, x);
      LockstepSnoc(m.size, front, x);
      AfterConcat(m, Lockstep(m.size, front), [Call(m.size), Feed(x), Proceed, Consume]);
      Associate(m.fed, front, [x]);
      Associate(m.removed, front, [x]);
      if x == DELIMITER {
        DeliveredSnoc(m.size, Frames(front), Tail(front));
        Associate(m.results, Delivered(m.size, Frames(front)), [Return(OK, m.size, Tail(front))]);
      }
    }
  }

  lemma LockNothing(m: State)
    requires Calm(m) && m.pending == []
    ensures Moved(m, After(m, Lockstep(m.size, [])), [], Tail([]), m.results + Delivered(m.size, Frames([])))
  {
  }

  /** One octet too many makes the call give up; the ring is empty, so at once. */
  lemma GivesUp(m: State, x: Octet)
    requires Calm(m) && |m.pending| == m.size && x != DELIMITER
    ensures Moved(m, After(m, [Call(m.size), Feed(x), Proceed, Consume] + [Consume]), [x], [],
                  m.results + [Return(BufferTooSmall, m.size, [])])
  {
    hide After;
    var turn := [Call(m.size), Feed(x), Proceed, Consume];
    AfterFour(m, Call(m.size), Feed(x), Proceed, Consume);
    AfterSnoc(m, turn, Consume);
  }

  lemma InitCalm(size: nat)
    requires size > 0
    ensures Calm(Init(size))
  {
  }

  // ----- Oversized frames -----

  /** In every run without refusals that feeds a prefix of the stream, the results are the frames removed. */
  ghost predicate AlwaysExact(size: nat, stream: seq<Octet>) {
    forall steps ::
      var m := After(Init(size), steps);
      m.fed <= stream && NoneRefused(m.fate) ==> Matches(FrameResults(m.results), Frames(m.removed))
  }

  /** The first octet at which a frame outgrows the buffer. */
  lemma {:induction false} Outgrows(stream: seq<Octet>, limit: nat) returns (k: nat)
    requires !Fits(stream, limit)
    ensures k < |stream| && Fits(stream[..k], limit)
    ensures stream[k] != DELIMITER && |Tail(stream[..k])| == limit
    decreases |stream|
  {
    hide Tail;
    if stream == [] {
      EmptyFits(limit);
      assert false;
    }
    var front, x := stream[..|stream| - 1], stream[|stream| - 1];
    FrontLast(stream);
    if Fits(front, limit) {
      k := |stream| - 1;
      Snoc(front, x);
      FitsPrefix(front, front, limit);
      FitsSnoc(front, x, limit);
    } else {
      k := Outgrows(front, limit);
      assert front[..k] == stream[..k];
    }
  }

  lemma EmptyFits(limit: nat)
    ensures Fits([], limit)
  {
  }

  lemma FitsSnoc(front: seq<Octet>, x: Octet, limit: nat)
    requires Fits(front, limit)
    ensures Fits(front + [x], limit) <==> |Tail(front + [x])| <= limit
  {
    hide Tail;
    var stream := front + [x];
    assert stream[..|stream|] == stream;
    forall i | 0 <= i <= |front| ensures |Tail(stream[..i])| <= limit {
      assert stream[..i] == front[..i];
    }
    forall i | |front| < i <= |stream| ensures stream[..i] == stream {
    }
  }

  /** A run without refusals in which a call gives up on an oversized frame although none has ended. */
  lemma OversizedBreaks(size: nat, stream: seq<Octet>) returns (steps: seq<Step>)
    requires size > 0 && !Fits(stream, size)
    ensures var m := After(Init(size), steps);
            && m.fed <= stream && NoneRefused(m.fate)
            && !Matches(FrameResults(m.results), Frames(m.removed))
  {
    hide After, Fits, Tail, Frames, FrameResults, Delivered, Lockstep;
    var k := Outgrows(stream, size);
    var front, x := stream[..k], stream[k];
    var m0 := Init(size);
    InitCalm(size);
    LockRun(m0, front);
    var p := After(m0, Lockstep(size, front));
    GivesUp(p, x);
    var more := [Call(size), Feed(x), Proceed, Consume] + [Consume];
    steps := Lockstep(size, front) + more;
    AfterConcat(m0, Lockstep(size, front), more);
    var m := After(m0, steps);
    assert m.fed == stream[..k + 1];
    Snoc(front, x);
    assert p.removed == front && m.removed == front + [x];
    assert p.fed <= front;
    FitsPrefix(front, p.fed, size);
    ExactWithoutOverflow(size, Lockstep(size, front));
    FrameResultsSnoc(p.results, Return(BufferTooSmall, size, []));
  }

  /** A ring without room gives no frame and no reason to give up. */
  ghost predicate Barren(m: State) {
    && m.size == 0 && m.ring == [] && m.removed == [] && (m.consumer.Dropping? ==> m.consumer.overflowed)
    && FrameResults(m.results) == []
  }

  lemma BarrenStep(m: State, step: Step)
    requires Barren(m)
    ensures Barren(Next(m, step))
  {
    hide FrameResults;
    var n := Next(m, step);
    if n.results != m.results {
      FrameResultsSnoc(m.results, n.results[|m.results|]);
    }
  }

  lemma {:induction false} BarrenRun(steps: seq<Step>)
    ensures Barren(After(Init(0), steps))
    decreases |steps|
  {
    if steps != [] {
      hide Next, Barren;
      BarrenRun(steps[..|steps| - 1]);
      BarrenStep(After(Init(0), steps[..|steps| - 1]), steps[|steps| - 1]);
    }
  }

  /**
    * Without refusals the results are exactly the fed frames, whatever the interleaving, if and only if no
    * frame of the stream is longer than the buffer.
    */
  lemma ExactIffFits(size: nat, stream: seq<Octet>)
    ensures AlwaysExact(size, stream) <==> size == 0 || Fits(stream, size)
  {
    hide After, Fits, Frames, FrameResults, Matches;
    if size > 0 && !Fits(stream, size) {
      var steps := OversizedBreaks(size, stream);
    } else {
      forall steps | After(Init(size), steps).fed <= stream && NoneRefused(After(Init(size), steps).fate)
        ensures var m := After(Init(size), steps); Matches(FrameResults(m.results), Frames(m.removed))
      {
        if size == 0 {
          BarrenRun(steps);
          NothingMatches();
        } else {
          FitsPrefix(stream, After(Init(size), steps).fed, size);
          ExactWithoutOverflow(size, steps);
        }
      }
    }
  }

  lemma NothingMatches()
    ensures Matches([], Frames([]))
  {
  }

  lemma {:induction false} PlainFits(frame: seq<Octet>, limit: nat)
    requires Plain(frame) && |frame| <= limit
    ensures Fits(frame, limit) && Fits(frame + [DELIMITER], limit)
    ensures Frames(frame + [DELIMITER]) == [frame] && Tail(frame + [DELIMITER]) == []
  {
    hide Tail, Frames;
    OnlyFrame(frame);
    forall i | 0 <= i <= |frame| ensures |Tail(frame[..i])| <= limit {
      PlainTail([], frame[..i]);
      NoFrames();
      assert [] + frame[..i] == frame[..i];
    }
    FitsSnoc(frame, DELIMITER, limit);
  }

  lemma NoFrames()
    ensures Frames([]) == [] && Tail([]) == []
  {
  }

  lemma OnlyFrame(frame: seq<Octet>)
    requires Plain(frame)
    ensures Frames(frame + [DELIMITER]) == [frame] && Tail(frame + [DELIMITER]) == []
  {
    hide Tail, Frames;
    NoFrames();
    PlainTail([], frame);
    assert [] + frame == frame;
    Snoc(frame, DELIMITER);
  }

  /** The octets of that many pieces at which the calls give up. */
  function Lost(size: nat, pieces: nat): nat { pieces * (size + 1) }

  lemma LostNext(size: nat, pieces: nat)
    ensures Lost(size, 0) == 0 && Lost(size, pieces + 1) == Lost(size, pieces) + size + 1
  {
  }

  /** How often that many octets go into such pieces. */
  function Pieces(size: nat, octets: nat): (pieces: nat)
    ensures Lost(size, pieces) <= octets < Lost(size, pieces) + size + 1
  {
    LostNext(size, 0);
    if octets <= size then 0
    else
      LostNext(size, Pieces(size, octets - size - 1));
      Pieces(size, octets - size - 1) + 1
  }

  /** A buffer full of octets and one more go in one BufferTooSmall. */
  lemma GiveUpOnce(m: State, octets: seq<Octet>) returns (steps: seq<Step>)
    requires Calm(m) && m.pending == [] && Plain(octets) && |octets| == m.size + 1
    ensures Moved(m, After(m, steps), octets, [], m.results + [Return(BufferTooSmall, m.size, [])])
  {
    hide After, Fits, Tail, Frames, Delivered, Lockstep, Calm;
    var head, x := octets[..m.size], octets[m.size];
    FrontLast(octets);
    PlainFits(head, m.size);
    NoFrames();
    PlainTail([], head);
    assert [] + head == head;
    LockRun(m, head);
    NoneDelivered(m.size);
    EmptyRight(m.results);
    var p := After(m, Lockstep(m.size, head));
    GivesUp(p, x);
    var more := [Call(m.size), Feed(x), Proceed, Consume] + [Consume];
    steps := Lockstep(m.size, head) + more;
    AfterConcat(m, Lockstep(m.size, head), more);
    Associate(m.fed, head, [x]);
    Associate(m.removed, head, [x]);
  }

  lemma {:induction false} GiveUps(m: State, octets: seq<Octet>, pieces: nat) returns (steps: seq<Step>)
    requires Calm(m) && m.pending == [] && Plain(octets) && |octets| == Lost(m.size, pieces)
    ensures Moved(m, After(m, steps), octets, [],
                  m.results + Repeated(Return(BufferTooSmall, m.size, []), pieces))
    decreases pieces
  {
    hide After, Calm, Lost, Repeated;
    var refusal := Return(BufferTooSmall, m.size, []);
    if pieces == 0 {
      LostNext(m.size, 0);
      steps := [];
      StandsStill(m);
      RepeatedNone(refusal);
    } else {
      LostNext(m.size, pieces - 1);
      var front, piece := octets[..Lost(m.size, pieces - 1)], octets[Lost(m.size, pieces - 1)..];
      assert octets == front + piece;
      var some := GiveUps(m, front, pieces - 1);
      var more := GiveUpOnce(After(m, some), piece);
      steps := some + more;
      AfterConcat(m, some, more);
      Associate(m.fed, front, piece);
      Associate(m.removed, front, piece);
      RepeatedNext(refusal, pieces - 1);
      Associate(m.results, Repeated(refusal, pieces - 1), [refusal]);
    }
  }

  lemma StandsStill(m: State)
    requires Calm(m)
    ensures Moved(m, After(m, []), [], m.pending, m.results)
  {
  }

  lemma RepeatedNone<T>(x: T)
    ensures Repeated(x, 0) == []
  {
  }

  /**
    * What an oversized frame leaves behind: in a ring of any size, the calls can give up on the buffer full of
    * octets and one more, again and again, and hand over what is then left as a frame. So of every frame longer
    * than the buffer, a suffix nobody fed is handed over.
    */
  lemma OversizedFrameLeavesSuffix(size: nat, frame: seq<Octet>) returns (steps: seq<Step>)
    requires size > 0 && Plain(frame)
    ensures var m := After(Init(size), steps); var pieces := Pieces(size, |frame|);
            && m.fed == frame + [DELIMITER] && Frames(m.fed) == [frame] && NoneRefused(m.fate)
            && m.results == Repeated(Return(BufferTooSmall, size, []), pieces)
                            + [Return(OK, size, frame[Lost(size, pieces)..])]
  {
    hide After, Fits, Tail, Frames, Delivered, Lockstep, Calm, Repeated, Lost, Pieces;
    var pieces := Pieces(size, |frame|);
    var lost, rest := frame[..Lost(size, pieces)], frame[Lost(size, pieces)..];
    var m0 := Init(size);
    InitCalm(size);
    OnlyFrame(frame);
    var some := GiveUps(m0, lost, pieces);
    var p := After(m0, some);
    PlainFits(rest, size);
    LockRun(p, rest + [DELIMITER]);
    OneDelivered(size, rest);
    steps := some + Lockstep(size, rest + [DELIMITER]);
    AfterConcat(m0, some, Lockstep(size, rest + [DELIMITER]));
    var m := After(m0, steps);
    CalmRefusesNone(m);
    assert frame + [DELIMITER] == lost + (rest + [DELIMITER]);
  }

  lemma CalmRefusesNone(m: State)
    requires Calm(m)
    ensures NoneRefused(m.fate)
  {
  }

  lemma OneDelivered(size: nat, frame: seq<Octet>)
    ensures Delivered(size, [frame]) == [Return(OK, size, frame)]
  {
    NoneDelivered(size);
    DeliveredSnoc(size, [], frame);
    assert [] + [frame] == [frame];
  }

  lemma NoneDelivered(size: nat)
    ensures Delivered(size, []) == []
  {
  }

  // ----- The frame after a loss -----

  /** Octet j was refused, the loss ended with delimiter d, and the next frame, up to delimiter e, was inserted. */
  ghost predicate FrameAfterLoss(fed: seq<Octet>, fate: seq<Fate>, j: nat, d: nat, e: nat) {
    && j < d < e < |fed| == |fate|
    && fate[j].Refused? && fed[d] == DELIMITER && fed[e] == DELIMITER
    && Plain(fed[j + 1..d]) && Plain(fed[d + 1..e])
    && (forall i :: d < i <= e ==> fate[i].Inserted?)
  }

  /** What is left without a delimiter of the octets inserted before b: at a refusal, the head it cuts off. */
  function Cut(fed: seq<Octet>, fate: seq<Fate>, b: nat): seq<Octet>
    requires b <= |fed| == |fate|
  {
    Tail(Kept(fed[..b], fate[..b]))
  }

  function Last<T>(s: seq<T>): T
    requires s != []
  {
    s[|s| - 1]
  }

  lemma {:induction false} KeptNone(fed: seq<Octet>, fate: seq<Fate>)
    requires |fed| == |fate| && forall i :: 0 <= i < |fate| ==> !fate[i].Inserted?
    ensures Kept(fed, fate) == []
  {
    if fed != [] {
      KeptNone(fed[..|fed| - 1], fate[..|fate| - 1]);
    }
  }

  lemma PlainSlice(fed: seq<Octet>, from: nat, to: nat)
    requires from <= to <= |fed| && Plain(fed[from..to])
    ensures forall k :: from <= k < to ==> fed[k] != DELIMITER
  {
    forall k | from <= k < to ensures fed[k] != DELIMITER {
      assert fed[from..to][k - from] == fed[k];
    }
  }

  lemma FrameCompleted(before: seq<Octet>, frame: seq<Octet>)
    requires Plain(frame)
    ensures Frames(before + (frame + [DELIMITER])) == Frames(before) + [Tail(before) + frame]
  {
    hide Frames, Tail;
    PlainTail(before, frame);
    Associate(before, frame, [DELIMITER]);
    Snoc(before + frame, DELIMITER);
  }

  // ----- Frames fed and frames inserted -----

  /** The octets from b up to the delimiter e are a frame that was fed. */
  ghost predicate FedFrame(fed: seq<Octet>, b: nat, e: nat) {
    && b <= e < |fed| && fed[e] == DELIMITER && Plain(fed[b..e]) && (b == 0 || fed[b - 1] == DELIMITER)
  }

  /** A frame whose delimiter was inserted was inserted whole. */
  lemma InsertedWhole(fed: seq<Octet>, fate: seq<Fate>, b: nat, e: nat)
    requires |fed| == |fate| && FatesExplained(fed, fate) && FedFrame(fed, b, e) && fate[e].Inserted?
    ensures forall i :: b <= i <= e ==> fate[i].Inserted?
  {
    hide Losing;
    PlainSlice(fed, b, e);
    LosingIff(fed[..e], fate[..e]);
    assert !Losing(fed[..e], fate[..e]);
    forall i | b <= i < e ensures fate[i].Inserted? {
      assert !LostFrom(fed[..e], fate[..e], i, e);
      forall j ensures !LostFrom(fed[..i], fate[..i], j, i) {
        assert !LostFrom(fed[..e], fate[..e], j, e);
        LostFromPrefix(fed, fate, j, i);
        LostFromPrefix(fed, fate, j, e);
      }
      LosingIff(fed[..i], fate[..i]);
    }
  }

  /** The inserted frame that ends at e is what was cut joined to the frame fed. */
  lemma InsertedFrame(fed: seq<Octet>, fate: seq<Fate>, b: nat, e: nat)
    requires |fed| == |fate| && FatesExplained(fed, fate) && FedFrame(fed, b, e) && fate[e].Inserted?
    ensures Frames(Kept(fed[..e + 1], fate[..e + 1]))
         == Frames(Kept(fed[..b], fate[..b])) + [Cut(fed, fate, b) + fed[b..e]]
  {
    hide Kept, Frames, Tail, FatesExplained;
    InsertedWhole(fed, fate, b, e);
    KeptAll(fed[b..e + 1], fate[b..e + 1]);
    assert fed[..e + 1] == fed[..b] + fed[b..e + 1] && fate[..e + 1] == fate[..b] + fate[b..e + 1];
    KeptConcat(fed[..b], fate[..b], fed[b..e + 1], fate[b..e + 1]);
    assert fed[b..e + 1] == fed[b..e] + [DELIMITER];
    FrameCompleted(Kept(fed[..b], fate[..b]), fed[b..e]);
  }

  /** After a loss, what was cut is the head that the refusal cut off. */
  lemma CutByLoss(fed: seq<Octet>, fate: seq<Fate>, j: nat, d: nat, e: nat)
    requires FrameAfterLoss(fed, fate, j, d, e) && FatesExplained(fed, fate)
    ensures FedFrame(fed, d + 1, e) && Cut(fed, fate, d + 1) == Cut(fed, fate, j)
  {
    hide Kept, Tail, Losing;
    PlainSlice(fed, j + 1, d);
    forall i | j <= i <= d ensures !fate[i].Inserted? {
      if i > j {
        assert LostFrom(fed, fate, j, i);
        LostFromPrefix(fed, fate, j, i);
        LosingIff(fed[..i], fate[..i]);
      }
    }
    KeptNone(fed[j..d + 1], fate[j..d + 1]);
    assert fed[..d + 1] == fed[..j] + fed[j..d + 1] && fate[..d + 1] == fate[..j] + fate[j..d + 1];
    KeptConcat(fed[..j], fate[..j], fed[j..d + 1], fate[j..d + 1]);
    EmptyRight(Kept(fed[..j], fate[..j]));
  }

  /** With no loss just before it, nothing is joined to a frame. */
  lemma CutByNothing(fed: seq<Octet>, fate: seq<Fate>, b: nat)
    requires b <= |fed| == |fate| && (b == 0 || (fed[b - 1] == DELIMITER && fate[b - 1].Inserted?))
    ensures Cut(fed, fate, b) == []
  {
    hide Kept;
    if b == 0 {
      KeptNone(fed[..0], fate[..0]);
    } else {
      assert fed[..b] == fed[..b - 1] + [DELIMITER] && fate[..b] == fate[..b - 1] + [Inserted];
      Grow(fed[..b - 1], fate[..b - 1], DELIMITER, Inserted);
      Snoc(Kept(fed[..b - 1], fate[..b - 1]), DELIMITER);
    }
  }

  /**
    * The frame completed after a loss is the head that the refusal cut off joined to the frame fed, so it is
    * the frame fed if and only if the refusal cut nothing off.
    */
  lemma FrameAfterLossIff(m: State, j: nat, d: nat, e: nat)
    requires Inv(m) && FrameAfterLoss(m.fed, m.fate, j, d, e)
    ensures var whole := m.fed[d + 1..e];
            var fedFrames, kept := Frames(m.fed[..e + 1]), Frames(Kept(m.fed[..e + 1], m.fate[..e + 1]));
            && fedFrames != [] && Last(fedFrames) == whole
            && kept != [] && Last(kept) == Cut(m.fed, m.fate, j) + whole
            && (Last(kept) == whole <==> Cut(m.fed, m.fate, j) == [])
  {
    hide Kept, Frames, Tail, FatesExplained, Losing, Refusals;
    var whole := m.fed[d + 1..e];
    CutByLoss(m.fed, m.fate, j, d, e);
    InsertedFrame(m.fed, m.fate, d + 1, e);
    assert m.fed[..e + 1] == m.fed[..d + 1] + (whole + [DELIMITER]);
    FrameCompleted(m.fed[..d + 1], whole);
    assert m.fed[..d + 1] == m.fed[..d] + [DELIMITER];
    Snoc(m.fed[..d], DELIMITER);
  }

  lemma {:induction false} FramesPrefix(stream: seq<Octet>, prefix: seq<Octet>)
    requires prefix <= stream
    ensures Frames(prefix) <= Frames(stream)
    decreases |stream|
  {
    if |prefix| < |stream| {
      hide Frames, Tail;
      var front, x := stream[..|stream| - 1], stream[|stream| - 1];
      FrontLast(stream);
      FramesPrefix(front, prefix);
      Snoc(front, x);
    } else {
      assert prefix == stream;
    }
  }

  lemma PrefixesCompare(whole: seq<Octet>, a: seq<Octet>, b: seq<Octet>)
    requires a <= whole && b <= whole
    ensures a <= b || b <= a
  {
  }

  lemma KeptPrefix(fed: seq<Octet>, fate: seq<Fate>, to: nat)
    requires to <= |fed| == |fate|
    ensures Kept(fed[..to], fate[..to]) <= Kept(fed, fate)
  {
    hide Kept;
    assert fed == fed[..to] + fed[to..] && fate == fate[..to] + fate[to..];
    KeptConcat(fed[..to], fate[..to], fed[to..], fate[to..]);
  }

  // ----- Frames inserted and frames handed over -----

  /** The first of these frames, with something in front of it. */
  function Resumed(front: seq<Octet>, frames: seq<seq<Octet>>): seq<seq<Octet>> {
    if frames == [] then [] else [front + frames[0]] + frames[1..]
  }

  /** Frames of a stream read on from the middle of a frame. */
  lemma {:induction false} FramesOn(before: seq<Octet>, stream: seq<Octet>)
    ensures Frames(before + stream) == Frames(before) + Resumed(Tail(before), Frames(stream))
    ensures Tail(before + stream) == if Frames(stream) == [] then Tail(before) + Tail(stream) else Tail(stream)
    decreases |stream|
  {
    hide Frames, Tail;
    if stream == [] {
      NoFrames();
      EmptyRight(before);
      EmptyRight(Frames(before));
      EmptyRight(Tail(before));
    } else {
      var front, x := stream[..|stream| - 1], stream[|stream| - 1];
      FrontLast(stream);
      FramesOn(before, front);
      Associate(before, front, [x]);
      Snoc(front, x);
      Snoc(before + front, x);
      if x == DELIMITER {
        ResumedSnoc(Tail(before), Frames(front), Tail(front));
        Associate(Frames(before), Resumed(Tail(before), Frames(front)),
                  [if Frames(front) == [] then Tail(before) + Tail(front) else Tail(front)]);
      } else {
        Associate(Tail(before), Tail(front), [x]);
      }
    }
  }

  lemma ResumedSnoc(front: seq<Octet>, frames: seq<seq<Octet>>, frame: seq<Octet>)
    ensures Resumed(front, frames + [frame])
         == Resumed(front, frames) + [if frames == [] then front + frame else frame]
  {
    if frames != [] {
      assert (frames + [frame])[1..] == frames[1..] + [frame];
    }
  }

  /** What the consumer had thrown away of the frame that its n-th frame result since m0 belongs to. */
  function Gone(m0: State, n: nat): seq<Octet> {
    if n == 0 then Tail(m0.removed) else []
  }

  /** The result number n since m0 is about the fed frame from b to e. */
  ghost predicate ResultOf(m0: State, m: State, n: nat, b: nat, e: nat)
    requires Extends(m0, m) && |m.fed| == |m.fate|
  {
    && FedFrame(m.fed, b, e) && m.fate[e].Inserted?
    && n < |FrameResults(ResultsSince(m0, m))|
    && |Frames(Kept(m.fed[..e + 1], m.fate[..e + 1]))| == |Frames(m0.removed)| + n + 1
  }

  /**
    * From any boundary on, until the next drop: the result for a fed frame is about a piece of it, such that
    * what the consumer had thrown away and the piece are what a loss had cut and the frame. If the call
    * answered OK, it handed over exactly the frame fed if and only if as much was thrown away as had been cut.
    */
  lemma HandedIff(m0: State, steps: seq<Step>, n: nat, b: nat, e: nat)
    requires Inv(m0) && AtBoundary(m0)
    requires var m := After(m0, steps);
             m.taken == m0.taken && RemovedFits(m0, m) && |m.fed| == |m.fate| && ResultOf(m0, m, n, b, e)
    ensures var m := After(m0, steps);
            var r, whole, cut := FrameResults(ResultsSince(m0, m))[n], m.fed[b..e], Cut(m.fed, m.fate, b);
            && n < |Frames(RemovedSince(m0, m))|
            && var piece := Frames(RemovedSince(m0, m))[n];
            && r == Outcome(piece, r.capacity) && Gone(m0, n) + piece == cut + whole
            && (r.status.OK? ==> (r.frame == whole <==> |Gone(m0, n)| == |cut|))
  {
    hide After, Kept, Frames, Tail, FrameResults, Fits, Cut, Inv, ResultsSince;
    var m := After(m0, steps);
    RunsKeepInv(m0, steps);
    ExactRemoved(m0, steps);
    InvKept(m);
    InvFates(m);
    InsertedFrame(m.fed, m.fate, b, e);
    var upTo := Kept(m.fed[..e + 1], m.fate[..e + 1]);
    KeptPrefix(m.fed, m.fate, e + 1);
    assert m.removed <= m.removed + m.ring;
    PrefixesCompare(Kept(m.fed, m.fate), m.removed, upTo);
    var since := RemovedSince(m0, m);
    assert m.removed == m0.removed + since;
    FramesOn(m0.removed, since);
    if upTo <= m.removed {
      FramesPrefix(m.removed, upTo);
    } else {
      FramesPrefix(upTo, m.removed);
    }
    var k := |Frames(m0.removed)| + n;
    assert Frames(m.removed)[k] == Frames(upTo)[k];
    SameEnds(Gone(m0, n), Frames(since)[n], Cut(m.fed, m.fate, b), m.fed[b..e]);
  }

  lemma SameEnds(a: seq<Octet>, b: seq<Octet>, c: seq<Octet>, d: seq<Octet>)
    requires a + b == c + d
    ensures b == d <==> |a| == |c|
  {
    if |a| == |c| {
      assert b == (a + b)[|a|..] && d == (c + d)[|c|..];
    }
  }

  /** Every frame result is about some fed frame. */
  lemma EveryResultHasItsFrame(m0: State, steps: seq<Step>, n: nat) returns (b: nat, e: nat)
    requires Inv(m0) && AtBoundary(m0)
    requires var m := After(m0, steps);
             m.taken == m0.taken && RemovedFits(m0, m) && n < |FrameResults(ResultsSince(m0, m))|
    ensures var m := After(m0, steps); Extends(m0, m) && |m.fed| == |m.fate| && ResultOf(m0, m, n, b, e)
  {
    hide After, Kept, Frames, Tail, FrameResults, Fits, Inv, ResultsSince;
    var m := After(m0, steps);
    RunsKeepInv(m0, steps);
    ExactRemoved(m0, steps);
    InvKept(m);
    var since := RemovedSince(m0, m);
    assert m.removed == m0.removed + since;
    FramesOn(m0.removed, since);
    assert m.removed <= m.removed + m.ring;
    FramesPrefix(Kept(m.fed, m.fate), m.removed);
    e := KeptFrameEnds(m.fed, m.fate, |Frames(m0.removed)| + n);
    b := FrameStart(m.fed, e);
  }

  /** The delimiter that ends the k-th inserted frame. */
  lemma {:induction false} KeptFrameEnds(fed: seq<Octet>, fate: seq<Fate>, k: nat) returns (e: nat)
    requires |fed| == |fate| && k < |Frames(Kept(fed, fate))|
    ensures e < |fed| && fed[e] == DELIMITER && fate[e].Inserted?
    ensures |Frames(Kept(fed[..e + 1], fate[..e + 1]))| == k + 1
    decreases |fed|
  {
    hide Kept, Frames, Tail, Losing;
    if fed == [] {
      KeptNone(fed, fate);
      NoFrames();
      assert false;
    }
    var last := |fed| - 1;
    FrontLast(fed);
    FrontLast(fate);
    Grow(fed[..last], fate[..last], fed[last], fate[last]);
    if k < |Frames(Kept(fed[..last], fate[..last]))| {
      e := KeptFrameEnds(fed[..last], fate[..last], k);
      assert fed[..last][..e + 1] == fed[..e + 1] && fate[..last][..e + 1] == fate[..e + 1];
    } else {
      e := last;
      EmptyRight(Kept(fed[..last], fate[..last]));
      if fate[last].Inserted? {
        Snoc(Kept(fed[..last], fate[..last]), fed[last]);
      }
      assert fed[..e + 1] == fed && fate[..e + 1] == fate;
    }
  }

  lemma {:induction false} FrameStart(fed: seq<Octet>, e: nat) returns (b: nat)
    requires e < |fed| && fed[e] == DELIMITER
    ensures FedFrame(fed, b, e)
  {
    b := e;
    while b > 0 && fed[b - 1] != DELIMITER
      invariant b <= e && Plain(fed[b..e])
    {
      assert fed[b - 1..e] == [fed[b - 1]] + fed[b..e];
      b := b - 1;
    }
  }

  /**
    * The result for the frame after a loss, from any boundary on: if OK, it is the frame fed if and only if the
    * consumer had thrown away as much as the refusal had cut off.
    */
  lemma ResultAfterLossIff(m0: State, steps: seq<Step>, n: nat, j: nat, d: nat, e: nat)
    requires Inv(m0) && AtBoundary(m0)
    requires var m := After(m0, steps);
             && m.taken == m0.taken && RemovedFits(m0, m) && FrameAfterLoss(m.fed, m.fate, j, d, e)
             && ResultOf(m0, m, n, d + 1, e)
    ensures var m := After(m0, steps); var r := FrameResults(ResultsSince(m0, m))[n];
            r.status.OK? ==> (r.frame == m.fed[d + 1..e] <==> |Gone(m0, n)| == |Cut(m.fed, m.fate, j)|)
  {
    hide After, Kept, Frames, Tail, FrameResults, Fits, Cut, Inv, ResultsSince;
    var m := After(m0, steps);
    RunsKeepInv(m0, steps);
    InvFates(m);
    CutByLoss(m.fed, m.fate, j, d, e);
    HandedIff(m0, steps, n, d + 1, e);
  }

  // ----- Drops -----

  /** While a call drops, it removes octets up to a delimiter and hands nothing over. */
  lemma {:induction false} DropRun(m: State, steps: seq<Step>)
    requires m.consumer.Dropping? && After(m, steps).results == m.results
    ensures var p := After(m, steps);
            && Extends(m, p) && p.consumer == m.consumer && p.pending == m.pending && p.taken == m.taken
            && Plain(RemovedSince(m, p))
    decreases |steps|
  {
    hide Next, After;
    if steps == [] {
      AfterNone(m);
    } else {
      var front, x := steps[..|steps| - 1], steps[|steps| - 1];
      var p := After(m, front);
      FrontLast(steps);
      AfterSnoc(m, front, x);
      RunsExtend(m, front);
      NextExtends(p, x);
      DropRun(m, front);
      DropStep(p, x);
      var q := Next(p, x);
      assert q.removed == p.removed + q.removed[|p.removed|..];
      assert RemovedSince(m, q) == RemovedSince(m, p) + q.removed[|p.removed|..];
    }
  }

  lemma DropStep(p: State, step: Step)
    requires p.consumer.Dropping? && Next(p, step).results == p.results
    ensures var q := Next(p, step);
            && p.removed <= q.removed && Plain(q.removed[|p.removed|..])
            && q.consumer == p.consumer && q.pending == p.pending && q.taken == p.taken
  {
    if IsProducerStep(step) {
      hide Next;
      ProducerFrame(p, step);
    }
  }

  /** A drop begins when the flag is taken off an empty ring, or at an octet for which there is no room. */
  lemma DropBegins(m: State)
    requires !m.consumer.Dropping? && ConsumeStep(m).consumer.Dropping?
    ensures var n := ConsumeStep(m);
            && n.pending == m.pending && n.results == m.results && n.removed == m.removed + NoRoom(m)
            && if n.consumer.overflowed then m.overflow && m.consumer.Checking?
               else m.consumer.Reading? && m.ring != [] && m.ring[0] != DELIMITER && |m.pending| >= m.size
  {
  }

  /** The octet for which there was no room, if that is why the drop begins at m. */
  function NoRoom(m: State): seq<Octet> {
    if m.consumer.Reading? && m.ring != [] then [m.ring[0]] else []
  }

  /** The call drops from m on, p comes after these steps, and the drop ends there. */
  ghost predicate Drops(m: State, drop: seq<Step>) {
    var n := ConsumeStep(m);
    var p := After(n, drop);
    && !m.consumer.Dropping? && n.consumer.Dropping? && p.results == n.results && ConsumeStep(p).results != p.results
  }

  /** What it removes meanwhile, and what it leaves. */
  lemma DropSpan(m: State, drop: seq<Step>)
    requires Drops(m, drop)
    ensures var n := ConsumeStep(m); var p := After(n, drop); var q := ConsumeStep(p);
            && Extends(n, p) && Plain(NoRoom(m)) && Plain(RemovedSince(n, p))
            && q.removed == m.removed + NoRoom(m) + RemovedSince(n, p) + (if p.ring == [] then [] else [DELIMITER])
            && q.results == m.results
                 + [Return(if n.consumer.overflowed then Overflow else BufferTooSmall, n.consumer.capacity, [])]
            && AtBoundary(q) && q.consumer.Idle? && q.size == m.size && m.taken <= q.taken
            && m.fed <= q.fed && m.fate <= q.fate
            && Tail(q.removed) == if p.ring == [] then Tail(m.removed) + NoRoom(m) + RemovedSince(n, p) else []
  {
    hide After, Tail, ConsumeStep;
    var n := ConsumeStep(m);
    var p := After(n, drop);
    DropBegins(m);
    DropRun(n, drop);
    DropFinishes(p);
    ConsumeKeepsInput(m);
    ConsumeKeepsInput(p);
    var ring, noRoom := RemovedSince(n, p), NoRoom(m);
    assert p.removed == m.removed + noRoom + ring;
    EmptyRight(p.removed);
    Associate(m.removed, noRoom, ring);
    PlainTail(m.removed, noRoom + ring);
    Associate(Tail(m.removed), noRoom, ring);
  }

  /**
    * Exactly what a drop discards: from a boundary m0 on, all octets removed after the last frame handed over.
    * These are the pending ones, the one for which there was no room, and those of the ring up to its first
    * delimiter or, if the call comes to an empty ring before one, all of it. That delimiter goes too. None of
    * them is in any result, and the call leaves a boundary.
    */
  lemma DropDiscards(m0: State, steps: seq<Step>, drop: seq<Step>)
    requires AtBoundary(m0)
    requires var m := After(m0, steps); m.taken == m0.taken && RemovedFits(m0, m) && Drops(m, drop)
    ensures var m := After(m0, steps); var n := ConsumeStep(m); var p := After(n, drop); var q := ConsumeStep(p);
            && Extends(m0, m) && Extends(n, p) && Extends(m0, q)
            && m.pending == Tail(RemovedSince(m0, m))
            && Matches(FrameResults(ResultsSince(m0, m)), Frames(RemovedSince(m0, m)))
            && Plain(NoRoom(m)) && Plain(RemovedSince(n, p))
            && RemovedSince(m0, q) == RemovedSince(m0, m) + NoRoom(m) + RemovedSince(n, p)
                                      + (if p.ring == [] then [] else [DELIMITER])
            && q.results == m.results
                 + [Return(if n.consumer.overflowed then Overflow else BufferTooSmall, n.consumer.capacity, [])]
            && AtBoundary(q) && q.consumer.Idle?
            && Tail(q.removed) == if p.ring == [] then Tail(m.removed) + NoRoom(m) + RemovedSince(n, p) else []
  {
    hide After, Tail, Frames, FrameResults, Matches, Fits, ConsumeStep, NoRoom, Drops;
    var m := After(m0, steps);
    RunsExtend(m0, steps);
    ExactRemoved(m0, steps);
    DropSpan(m, drop);
    var n := ConsumeStep(m);
    var p := After(n, drop);
    SinceGrows(m0.removed, m.removed, NoRoom(m), RemovedSince(n, p), if p.ring == [] then [] else [DELIMITER]);
  }

  lemma SinceGrows(start: seq<Octet>, before: seq<Octet>, a: seq<Octet>, b: seq<Octet>, c: seq<Octet>)
    requires start <= before
    ensures start <= before + a + b + c
    ensures (before + a + b + c)[|start|..] == before[|start|..] + a + b + c
  {
  }

  lemma DropFinishes(p: State)
    requires p.consumer.Dropping? && ConsumeStep(p).results != p.results
    ensures var q := ConsumeStep(p);
            && q.results == p.results + [Return(if p.consumer.overflowed then Overflow else BufferTooSmall,
                                                p.consumer.capacity, [])]
            && q.pending == [] && q.consumer.Idle? && AtBoundary(q)
            && q.removed == p.removed + (if p.ring == [] then [] else [DELIMITER])
            && (p.ring != [] ==> Tail(q.removed) == []) && (p.ring == [] ==> Tail(q.removed) == Tail(p.removed))
  {
    hide Tail;
    EmptyRight(p.removed);
    Snoc(p.removed, DELIMITER);
  }

  function Ones(n: nat): (s: seq<Octet>)
    ensures |s| == n && Plain(s)
  {
    if n == 0 then [] else Ones(n - 1) + [1]
  }

  function Repeated<T>(x: T, n: nat): seq<T> {
    if n == 0 then [] else Repeated(x, n - 1) + [x]
  }

  /** An idle waiter whose ring, so far, holds all that was fed. */
  predicate Filled(m: State, size: nat, octets: seq<Octet>) {
    && m.size == size && m.ring == octets && m.fed == octets && m.producer.Ready? && !m.overflow && !m.dropping
    && m.consumer.Idle? && m.pending == [] && m.removed == [] && m.results == [] && m.taken == 0
    && m.fate == Repeated(Inserted, |octets|)
  }

  lemma FillOne(m: State, size: nat, octets: seq<Octet>)
    requires Filled(m, size, octets) && |octets| < size
    ensures Filled(Next(m, Feed(1)), size, octets + [1])
  {
  }

  lemma FillNone(size: nat)
    ensures Filled(After(Init(size), Repeated(Feed(1), 0)), size, Ones(0))
  {
  }

  lemma {:induction false} FillRun(size: nat, n: nat)
    requires n <= size
    ensures Filled(After(Init(size), Repeated(Feed(1), n)), size, Ones(n))
  {
    hide After, Next, Ones, Filled, Repeated;
    if n == 0 {
      FillNone(size);
    } else {
      FillRun(size, n - 1);
      RepeatedNext(Feed(1), n - 1);
      AfterSnoc(Init(size), Repeated(Feed(1), n - 1), Feed(1));
      OnesSnoc(n - 1);
      FillOne(After(Init(size), Repeated(Feed(1), n - 1)), size, Ones(n - 1));
    }
  }

  lemma OnesSnoc(n: nat)
    ensures Ones(n + 1) == Ones(n) + [1]
  {
  }

  /** m after the consumer has taken n octets of a frame off the ring. */
  function Drained(m: State, n: nat): State
    requires n <= |m.ring|
  {
    m.(ring := m.ring[n..], pending := m.pending + m.ring[..n], removed := m.removed + m.ring[..n])
  }

  lemma DrainNext(m: State, n: nat)
    requires m.consumer.Reading? && n < |m.ring| && m.ring[n] != DELIMITER && |m.pending| + n < m.size
    ensures Next(Drained(m, n), Consume) == Drained(m, n + 1)
  {
    assert m.ring[n..][0] == m.ring[n];
    assert m.ring[n..][1..] == m.ring[n + 1..];
    assert m.ring[..n + 1] == m.ring[..n] + [m.ring[n]];
    Associate(m.pending, m.ring[..n], [m.ring[n]]);
    Associate(m.removed, m.ring[..n], [m.ring[n]]);
  }

  lemma DrainedNone(m: State)
    ensures After(m, Repeated(Consume, 0)) == Drained(m, 0)
  {
    EmptyRight(m.pending);
    EmptyRight(m.removed);
  }

  lemma RepeatedNext<T>(x: T, n: nat)
    ensures Repeated(x, n + 1) == Repeated(x, n) + [x]
  {
  }

  /** The consumer takes n octets of the ring, none of them a delimiter, and has room for them. */
  lemma {:induction false} DrainRun(m: State, n: nat)
    requires m.consumer.Reading? && n <= |m.ring| && Plain(m.ring[..n]) && |m.pending| + n <= m.size
    ensures After(m, Repeated(Consume, n)) == Drained(m, n)
  {
    hide After, Next, Drained, Repeated;
    if n == 0 {
      DrainedNone(m);
    } else {
      assert m.ring[..n][..n - 1] == m.ring[..n - 1] && m.ring[..n][n - 1] == m.ring[n - 1];
      DrainRun(m, n - 1);
      DrainNext(m, n - 1);
      RepeatedNext(Consume, n - 1);
      AfterSnoc(m, Repeated(Consume, n - 1), Consume);
    }
  }

  /**
    * A joined frame in a ring of any size: the ring is full when an octet is refused; the head before it is
    * then handed over at the next delimiter, as a frame nobody fed.
    */
  lemma TruncatedHeadJoinsLaterFrame(size: nat) returns (steps: seq<Step>)
    requires size > 0
    ensures var m := After(Init(size), steps);
            && m.fed == Ones(size) + [2, 0, 0] && Frames(m.fed) == [Ones(size) + [2], []]
            && m.results == [Return(OK, size, Ones(size))] && Ones(size) !in Frames(m.fed)
  {
    hide After, Ones, Frames, Tail, Repeated, Next;
    var m0 := Init(size);
    var fill, refuse := Repeated(Feed(1), size), [Feed(2), Proceed, Feed(0), Call(size)];
    var drain, finish := Repeated(Consume, size), [Feed(0), Proceed, Consume, Proceed];
    FillRun(size, size);
    var a := After(m0, fill);
    RefuseOne(a, size);
    var b := After(a, refuse);
    assert b.ring[..size] == Ones(size);
    DrainRun(b, size);
    var c := After(b, drain);
    FinishOne(c, size);
    steps := fill + refuse + drain + finish;
    AfterConcat(m0, fill, refuse);
    AfterConcat(m0, fill + refuse, drain);
    AfterConcat(m0, fill + refuse + drain, finish);
    var m := After(m0, steps);
    assert m.fed == Ones(size) + [2, 0] + [0] == (Ones(size) + [2]) + [0] + [0];
    OnlyFrame(Ones(size) + [2]);
    Snoc(Ones(size) + [2] + [0], DELIMITER);
    assert Frames(m.fed) == [Ones(size) + [2]] + [[]];
  }

  lemma RefuseOne(m: State, size: nat)
    requires size > 0 && Filled(m, size, Ones(size))
    ensures var n := After(m, [Feed(2), Proceed, Feed(0), Call(size)]);
            && n == m.(fed := m.fed + [2, 0], fate := m.fate + [Refused, Skipped], overflow := true,
                       consumer := Reading(size))
  {
    hide After, Ones;
    AfterFour(m, Feed(2), Proceed, Feed(0), Call(size));
    assert m.fed + [2] + [0] == m.fed + [2, 0] && m.fate + [Refused] + [Skipped] == m.fate + [Refused, Skipped];
  }

  lemma FinishOne(m: State, size: nat)
    requires size > 0 && m.size == size && m.ring == [] && m.pending == Ones(size) && m.consumer == Reading(size)
    requires m.producer.Ready? && !m.dropping
    ensures var n := After(m, [Feed(0), Proceed, Consume, Proceed]);
            n.fed == m.fed + [0] && n.results == m.results + [Return(OK, size, Ones(size))]
  {
    hide After, Ones;
    AfterFour(m, Feed(0), Proceed, Consume, Proceed);
  }

  /** One octet less than the ring holds, a delimiter, and then an octet without room. */
  lemma SpillOne(m: State, size: nat)
    requires size > 0 && Filled(m, size, Ones(size - 1))
    ensures After(m, [Feed(0), Proceed, Feed(1), Proceed])
         == m.(ring := m.ring + [0], fed := m.fed + [0, 1], fate := m.fate + [Inserted, Refused],
               overflow := true, dropping := true, callbacks := m.callbacks + 1)
  {
    hide After, Ones, Repeated;
    AfterFour(m, Feed(0), Proceed, Feed(1), Proceed);
    assert m.fed + [0] + [1] == m.fed + [0, 1] && m.fate + [Inserted] + [Refused] == m.fate + [Inserted, Refused];
  }

  lemma SkipOne(m: State, size: nat)
    requires m.dropping && m.producer.Ready? && m.consumer.Idle?
    ensures After(m, [Feed(0), Call(size)])
         == m.(fed := m.fed + [0], fate := m.fate + [Skipped], dropping := false, consumer := Reading(size))
  {
    hide After;
    AfterTwo(m, Feed(0), Call(size));
  }

  /** The frame before the loss is handed over; the next call finds the ring empty and takes the flag. */
  lemma TakeFlag(m: State, size: nat)
    requires m.consumer == Reading(size) && m.ring == [0] && |m.pending| <= size && m.overflow
    ensures After(m, [Consume, Call(size), Consume, Consume])
         == m.(ring := [], pending := [], removed := m.removed + [0], overflow := false, taken := m.taken + 1,
               results := m.results + [Return(OK, size, m.pending)], consumer := Dropping(true, size))
  {
    hide After;
    AfterFour(m, Consume, Call(size), Consume, Consume);
  }

  /** The drop eats the first octet of the next frame, then comes to an empty ring. */
  lemma EatOne(m: State, size: nat)
    requires m.size > 0 && m.consumer == Dropping(true, size) && m.ring == [] && m.producer.Ready? && !m.dropping
    ensures After(m, [Feed(5), Consume, Consume, Call(size)])
         == m.(pending := [], fed := m.fed + [5], fate := m.fate + [Inserted], removed := m.removed + [5],
               results := m.results + [Return(Overflow, size, [])], consumer := Reading(size))
  {
    hide After;
    AfterFour(m, Feed(5), Consume, Consume, Call(size));
  }

  lemma RestOfFrame(m: State, size: nat)
    requires size > 0 && m.size == size && m.consumer == Reading(size) && m.ring == [] && m.pending == []
    requires m.producer.Ready? && !m.dropping
    ensures var n := After(m, [Feed(6), Consume, Feed(0), Proceed] + [Consume]);
            && n.fed == m.fed + [6, 0] && n.fate == m.fate + [Inserted, Inserted]
            && n.results == m.results + [Return(OK, size, [6])]
  {
    hide After;
    var turn := [Feed(6), Consume, Feed(0), Proceed];
    assert m.pending + [6] == [6] && m.fed + [6] + [0] == m.fed + [6, 0];
    AfterFour(m, Feed(6), Consume, Feed(0), Proceed);
    assert After(m, turn).pending == [6];
    AfterSnoc(m, turn, Consume);
  }

  /**
    * A refusal that cuts nothing off can still cost a frame its head, in a ring of any size: the frame before
    * the loss has ended, so the frame after it is inserted exactly as fed; but the call that reports the
    * overflow eats its first octet, comes to an empty ring, and the next call hands the rest over.
    */
  lemma OverflowLeavesSuffix(size: nat) returns (steps: seq<Step>)
    requires size > 0
    ensures var m := After(Init(size), steps);
            && m.fed == Ones(size - 1) + [0, 1, 0, 5, 6, 0] && |m.fate| == |m.fed|
            && FrameAfterLoss(m.fed, m.fate, size, size + 1, size + 4) && m.fed[size + 2..size + 4] == [5, 6]
            && Cut(m.fed, m.fate, size) == []
            && m.results == [Return(OK, size, Ones(size - 1)), Return(Overflow, size, []), Return(OK, size, [6])]
  {
    hide After, Ones, Repeated, Next, FrameAfterLoss, Cut;
    var m0, n := Init(size), size - 1;
    var fill, spill, skip := Repeated(Feed(1), n), [Feed(0), Proceed, Feed(1), Proceed], [Feed(0), Call(size)];
    var drain, take := Repeated(Consume, n), [Consume, Call(size), Consume, Consume];
    var eat, rest := [Feed(5), Consume, Consume, Call(size)], [Feed(6), Consume, Feed(0), Proceed] + [Consume];
    FillRun(size, n);
    var a := After(m0, fill);
    SpillOne(a, size);
    var b := After(a, spill);
    SkipOne(b, size);
    var c := After(b, skip);
    assert c.ring[..n] == Ones(n) && c.ring[n..] == [0];
    hide Filled;
    DrainRun(c, n);
    var d := After(c, drain);
    assert d.ring == [0] && d.pending == Ones(n);
    TakeFlag(d, size);
    var e := After(d, take);
    EatOne(e, size);
    var f := After(e, eat);
    RestOfFrame(f, size);
    steps := fill + spill + skip + drain + take + eat + rest;
    AfterConcat(m0, fill, spill);
    AfterConcat(m0, fill + spill, skip);
    AfterConcat(m0, fill + spill + skip, drain);
    AfterConcat(m0, fill + spill + skip + drain, take);
    AfterConcat(m0, fill + spill + skip + drain + take, eat);
    AfterConcat(m0, fill + spill + skip + drain + take + eat, rest);
    SuffixFates(size, After(m0, steps).fed, After(m0, steps).fate);
  }

  lemma {:induction false} RepeatedAll<T>(x: T, n: nat)
    ensures |Repeated(x, n)| == n && forall i :: 0 <= i < n ==> Repeated(x, n)[i] == x
  {
    if n > 0 {
      RepeatedAll(x, n - 1);
    }
  }

  lemma SuffixFates(size: nat, fed: seq<Octet>, fate: seq<Fate>)
    requires size > 0 && fed == Ones(size - 1) + [0, 1, 0, 5, 6, 0]
    requires fate == Repeated(Inserted, size - 1) + [Inserted, Refused, Skipped, Inserted, Inserted, Inserted]
    ensures FrameAfterLoss(fed, fate, size, size + 1, size + 4) && fed[size + 2..size + 4] == [5, 6]
    ensures |fate| == |fed| && Cut(fed, fate, size) == []
  {
    hide Ones, Repeated, Cut;
    RepeatedAll(Inserted, size - 1);
    assert fed[size + 1..size + 1] == [] && fed[size + 2..size + 4] == [5, 6];
    CutByNothing(fed, fate, size);
  }

  /** The drop takes the next frame whole, its delimiter too. */
  lemma SwallowOne(m: State, size: nat)
    requires size > 0 && m.size == size && m.consumer == Reading(size) && m.ring == [] && m.overflow
    requires m.producer.Ready? && !m.dropping
    ensures var n := After(m, [Consume, Consume, Feed(7), Consume] + [Feed(0), Proceed, Consume]);
            && n.fed == m.fed + [7, 0] && n.fate == m.fate + [Inserted, Inserted] && n.ring == [] && n.pending == []
            && n.results == m.results + [Return(Overflow, size, [])]
  {
    hide After;
    AfterFour(m, Consume, Consume, Feed(7), Consume);
    var n := After(m, [Consume, Consume, Feed(7), Consume]);
    AfterTwo(n, Feed(0), Proceed);
    AfterSnoc(n, [Feed(0), Proceed], Consume);
    assert [Feed(0), Proceed] + [Consume] == [Feed(0), Proceed, Consume];
    AfterConcat(m, [Consume, Consume, Feed(7), Consume], [Feed(0), Proceed, Consume]);
  }

  /**
    * A frame inserted whole can be thrown away whole, in a ring of any size: the call that reports the overflow
    * drops the head that was cut off, finds the ring empty and goes on to drop the frame fed meanwhile.
    */
  lemma OverflowSwallowsFrame(size: nat) returns (steps: seq<Step>)
    requires size > 0
    ensures var m := After(Init(size), steps);
            && m.fed == Ones(size) + [2, 0, 7, 0] && |m.fate| == |m.fed|
            && FedFrame(m.fed, size + 2, size + 3) && m.fed[size + 2..size + 3] == [7]
            && m.fate[size + 2].Inserted? && m.fate[size + 3].Inserted? && m.ring == [] && m.pending == []
            && m.results == [Return(Overflow, size, [])]
  {
    hide After, Ones, Repeated, Next, FedFrame;
    var m0 := Init(size);
    var fill, refuse := Repeated(Feed(1), size), [Feed(2), Proceed, Feed(0), Call(size)];
    var drain, swallow := Repeated(Consume, size), [Consume, Consume, Feed(7), Consume] + [Feed(0), Proceed, Consume];
    FillRun(size, size);
    var a := After(m0, fill);
    RefuseOne(a, size);
    var b := After(a, refuse);
    assert b.ring[..size] == Ones(size);
    DrainRun(b, size);
    var c := After(b, drain);
    SwallowOne(c, size);
    steps := fill + refuse + drain + swallow;
    AfterConcat(m0, fill, refuse);
    AfterConcat(m0, fill + refuse, drain);
    AfterConcat(m0, fill + refuse + drain, swallow);
    SwallowedFates(size, After(m0, steps).fed, After(m0, steps).fate);
  }

  lemma SwallowedFates(size: nat, fed: seq<Octet>, fate: seq<Fate>)
    requires fed == Ones(size) + [2, 0, 7, 0]
    requires fate == Repeated(Inserted, size) + [Refused, Skipped, Inserted, Inserted]
    ensures FedFrame(fed, size + 2, size + 3) && fed[size + 2..size + 3] == [7]
    ensures |fate| == |fed| && fate[size + 2].Inserted? && fate[size + 3].Inserted?
  {
    hide Ones, Repeated;
    RepeatedAll(Inserted, size);
    assert fed[size + 2..size + 3] == [7];
  }

  // ----- Lost wake-ups -----

  lemma CoreTwo(c: Core, s: CoreStep, t: CoreStep)
    ensures AfterCore(c, [s, t]) == NextCore(NextCore(c, s), t)
  {
    hide NextCore, AfterCore;
    CoreNone(c);
    AfterCoreSnoc(c, [], s);
    assert [] + [s] == [s];
    AfterCoreSnoc(c, [s], t);
    assert [s] + [t] == [s, t];
  }

  lemma CoreNone(c: Core)
    ensures AfterCore(c, []) == c
  {
  }

  lemma CoreFour(c: Core, s: CoreStep, t: CoreStep, u: CoreStep, v: CoreStep)
    ensures AfterCore(c, [s, t, u, v]) == NextCore(NextCore(NextCore(NextCore(c, s), t), u), v)
  {
    hide NextCore, AfterCore;
    CoreTwo(c, s, t);
    CoreTwo(AfterCore(c, [s, t]), u, v);
    AfterCoreConcat(c, [s, t], [u, v]);
    assert [s, t] + [u, v] == [s, t, u, v];
  }

  /** The core at a place, with no loss ever. */
  predicate Stands(c: Core, size: nat, place: Place, event: bool, ring: seq<Octet>, held: nat) {
    && c.place == place && c.event == event && c.waiter.size == size && c.waiter.ring == ring
    && |c.waiter.pending| == held && !c.waiter.dropping && !c.waiter.overflow
    && c.waiter.consumer == if place.InCall? then Reading(size) else Idle
  }

  function Collecting(n: nat): seq<CoreStep> {
    if n == 0 then [Enter] else Collecting(n - 1) + [Produce(Feed(1)), Advance]
  }

  lemma CollectOne(c: Core, size: nat, held: nat)
    requires held < size && Stands(c, size, InCall, false, [], held) && c.waiter.producer.Ready?
    ensures var d := AfterCore(c, [Produce(Feed(1)), Advance]);
            Stands(d, size, InCall, false, [], held + 1) && d.waiter.producer.Ready?
  {
    hide AfterCore;
    CoreTwo(c, Produce(Feed(1)), Advance);
  }

  lemma CollectNone(size: nat)
    ensures var c := AfterCore(InitCore(size), [Enter]);
            Stands(c, size, InCall, false, [], 0) && c.waiter.producer.Ready?
  {
    hide AfterCore;
    CoreNone(InitCore(size));
    AfterCoreSnoc(InitCore(size), [], Enter);
    assert [] + [Enter] == [Enter];
  }

  /** The core collects a frame octet by octet, until its buffer is full. */
  lemma {:induction false} CollectRun(size: nat, n: nat)
    requires n <= size
    ensures var c := AfterCore(InitCore(size), Collecting(n));
            Stands(c, size, InCall, false, [], n) && c.waiter.producer.Ready?
  {
    hide AfterCore, NextCore, Stands;
    if n == 0 {
      CollectNone(size);
    } else {
      CollectRun(size, n - 1);
      CollectingNext(n - 1);
      CollectOne(AfterCore(InitCore(size), Collecting(n - 1)), size, n - 1);
      AfterCoreConcat(InitCore(size), Collecting(n - 1), [Produce(Feed(1)), Advance]);
    }
  }

  lemma CollectingNext(n: nat)
    ensures Collecting(n + 1) == Collecting(n) + [Produce(Feed(1)), Advance]
  {
  }

  /** The call ends for want of octets; then one octet too many comes, and a delimiter. */
  lemma Sleeping1(c: Core, size: nat)
    requires size >= 3 && Stands(c, size, InCall, false, [], size) && c.waiter.producer.Ready?
    ensures var d := AfterCore(c, [Advance, Advance, Produce(Feed(1)), Produce(Feed(0))]);
            Stands(d, size, AtWfe, false, [1, 0], size) && d.waiter.producer.Notifying?
  {
    hide AfterCore;
    CoreFour(c, Advance, Advance, Produce(Feed(1)), Produce(Feed(0)));
  }

  /** A second delimiter comes before the core takes the one event both have set. */
  lemma Sleeping2(c: Core, size: nat)
    requires size >= 3 && Stands(c, size, AtWfe, false, [1, 0], size) && c.waiter.producer.Notifying?
    ensures var d := AfterCore(c, [Produce(Proceed), Produce(Feed(0)), Produce(Proceed), Wfe]);
            Stands(d, size, Deciding, false, [1, 0, 0], size) && d.waiter.producer.Ready?
  {
    hide AfterCore;
    CoreFour(c, Produce(Proceed), Produce(Feed(0)), Produce(Proceed), Wfe);
  }

  /** The next call gives up, and the core sleeps beside the second frame. */
  lemma Sleeping3(c: Core, size: nat)
    requires size >= 3 && Stands(c, size, Deciding, false, [1, 0, 0], size) && c.waiter.producer.Ready?
    ensures var d := AfterCore(c, [Enter, Advance, Advance, Wfe]);
            Stands(d, size, Blocked, false, [0], 0) && d.waiter.producer.Ready?
  {
    hide AfterCore;
    CoreFour(c, Enter, Advance, Advance, Wfe);
  }

  /** In every ring of at least three octets, giving up on an oversized frame can cost the wake-up for the next. */
  lemma OversizedFrameLosesWakeup(size: nat) returns (steps: seq<CoreStep>)
    requires size >= 3
    ensures MissesFrame(AfterCore(InitCore(size), steps))
  {
    hide AfterCore, Collecting;
    var c0, collect := InitCore(size), Collecting(size);
    var g1 := [Advance, Advance, Produce(Feed(1)), Produce(Feed(0))];
    var g2 := [Produce(Proceed), Produce(Feed(0)), Produce(Proceed), Wfe];
    var g3 := [Enter, Advance, Advance, Wfe];
    CollectRun(size, size);
    Sleeping1(AfterCore(c0, collect), size);
    AfterCoreConcat(c0, collect, g1);
    Sleeping2(AfterCore(c0, collect + g1), size);
    AfterCoreConcat(c0, collect + g1, g2);
    Sleeping3(AfterCore(c0, collect + g1 + g2), size);
    AfterCoreConcat(c0, collect + g1 + g2, g3);
    steps := collect + g1 + g2 + g3;
  }

  /** Some run loses a wake-up if and only if the ring holds three octets: one too many and two delimiters. */
  lemma LostWakeupIff(size: nat)
    ensures (exists steps :: MissesFrame(AfterCore(InitCore(size), steps))) <==> size >= 3
  {
    hide AfterCore, CoreInv;
    if size >= 3 {
      var steps := OversizedFrameLosesWakeup(size);
    } else {
      forall steps ensures !MissesFrame(AfterCore(InitCore(size), steps)) {
        SmallRuns(size, steps);
      }
    }
  }
}
