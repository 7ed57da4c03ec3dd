/** The steps of one producer and one consumer around a FrameWaiter, interleaved in any order. */
module FrameWaiterModel {
  import opened Framing
  import opened Sequences

  datatype ReadFrameStatus = OK | NoFrame | BufferTooSmall | BufferNullptr | IncompleteFrame | Overflow

  /** What became of an octet that was fed. */
  datatype Fate = Inserted | Refused | Skipped

  /** Where the producer stands inside feed. */
  datatype Producer = Ready | Refusing | Notifying

  /** Where the consumer stands inside tryReadFrame. */
  datatype Consumer =
    | Idle
    | Reading(capacity: nat)
    | Checking(capacity: nat)
    | Dropping(overflowed: bool, capacity: nat)

  /** One finished call of tryReadFrame; the frame is what it wrote. */
  datatype Return = Return(status: ReadFrameStatus, capacity: nat, frame: seq<Octet>)

  datatype State = State(
    size: nat,
    ring: seq<Octet>,
    pending: seq<Octet>,
    overflow: bool,
    dropping: bool,
    producer: Producer,
    consumer: Consumer,
    // History.
    fed: seq<Octet>,
    fate: seq<Fate>,
    removed: seq<Octet>,
    results: seq<Return>,
    taken: nat,
    callbacks: nat
  )

  function Init(size: nat): State {
    State(size, [], [], false, false, Ready, Idle, [], [], [], [], 0, 0)
  }

  /** A step that does not apply in the current state changes nothing. */
  datatype Step =
    | Feed(octet: Octet)
    | Proceed
    | CallNull
    | Call(capacity: nat)
    | Consume

  predicate IsProducerStep(step: Step) { step.Feed? || step.Proceed? }

  function Next(m: State, step: Step): State {
    match step
    case Feed(octet) => if m.producer.Ready? then FeedStep(m, octet) else m
    case Proceed => ProceedStep(m)
    case CallNull => if m.consumer.Idle? then Returned(m, BufferNullptr, 0, []) else m
    case Call(capacity) => if m.consumer.Idle? then m.(consumer := Reading(capacity)) else m
    case Consume => ConsumeStep(m)
  }

  /** feed up to its first effect that the consumer can see. */
  function FeedStep(m: State, octet: Octet): State {
    var fed := m.fed + [octet];
    if m.dropping then
      m.(fed := fed, fate := m.fate + [Skipped], dropping := octet != DELIMITER)
    else if |m.ring| >= m.size then
      m.(fed := fed, fate := m.fate + [Refused], producer := Refusing)
    else
      m.(fed := fed, fate := m.fate + [Inserted], ring := m.ring + [octet],
         producer := if octet == DELIMITER then Notifying else Ready)
  }

  /** The rest of feed: raising the flags, or the callback. */
  function ProceedStep(m: State): State {
    match m.producer
    case Ready => m
    case Refusing => m.(overflow := true, dropping := true, producer := Ready)
    case Notifying => m.(callbacks := m.callbacks + 1, producer := Ready)
  }

  /** A call ends and leaves no pending octets, unless the frame is still incomplete. */
  function Returned(m: State, status: ReadFrameStatus, capacity: nat, frame: seq<Octet>): State {
    m.(consumer := Idle, results := m.results + [Return(status, capacity, frame)])
  }

  function RemoveFirst(m: State): State
    requires m.ring != []
  {
    m.(ring := m.ring[1..], removed := m.removed + [m.ring[0]])
  }

  /** One remove, or one exchange of the overflow flag. */
  function ConsumeStep(m: State): State {
    match m.consumer
    case Idle => m
    case Reading(capacity) =>
      if m.ring == [] then m.(consumer := Checking(capacity)) else ReadOctet(RemoveFirst(m), m.ring[0], capacity)
    case Checking(capacity) =>
      if m.overflow then m.(overflow := false, taken := m.taken + 1, consumer := Dropping(true, capacity))
      else Returned(m, IncompleteFrame, capacity, [])
    case Dropping(overflowed, capacity) =>
      var status := if overflowed then Overflow else BufferTooSmall;
      if m.ring == [] then Returned(m.(pending := []), status, capacity, [])
      else if m.ring[0] == DELIMITER then Returned(RemoveFirst(m).(pending := []), status, capacity, [])
      else RemoveFirst(m)
  }

  function ReadOctet(m: State, octet: Octet, capacity: nat): State {
    if octet == DELIMITER then
      if |m.pending| > capacity then Returned(m.(pending := []), BufferTooSmall, capacity, [])
      else Returned(m.(pending := []), OK, capacity, m.pending)
    else if |m.pending| >= m.size then m.(consumer := Dropping(false, capacity))
    else m.(pending := m.pending + [octet])
  }

  /** A run: the state after any sequence of steps. */
  function After(m: State, steps: seq<Step>): State
    decreases |steps|
  {
    if steps == [] then m else Next(After(m, steps[..|steps| - 1]), steps[|steps| - 1])
  }

  lemma AfterNone(m: State)
    ensures After(m, []) == m
  {
  }

  lemma AfterLast(m: State, steps: seq<Step>)
    requires steps != []
    ensures After(m, steps) == Next(After(m, steps[..|steps| - 1]), steps[|steps| - 1])
  {
  }

  lemma AfterSnoc(m: State, steps: seq<Step>, step: Step)
    ensures After(m, steps + [step]) == Next(After(m, steps), step)
  {
    assert (steps + [step])[..|steps|] == steps;
  }

  lemma AfterOne(m: State, a: Step)
    ensures After(m, [a]) == Next(m, a)
  {
    hide Next;
    AfterNone(m);
    AfterSnoc(m, [], a);
    assert [] + [a] == [a];
  }

  lemma AfterTwo(m: State, a: Step, b: Step)
    ensures After(m, [a, b]) == Next(Next(m, a), b)
  {
    hide Next, After;
    AfterOne(m, a);
    AfterSnoc(m, [a], b);
    assert [a] + [b] == [a, b];
  }

  lemma {:induction false} AfterConcat(m: State, first: seq<Step>, second: seq<Step>)
    ensures After(m, first + second) == After(After(m, first), second)
    decreases |second|
  {
    hide After, Next;
    AfterNone(After(m, first));
    if second == [] {
      EmptyRight(first);
    } else {
      var front, x := second[..|second| - 1], second[|second| - 1];
      FrontLast(second);
      AfterConcat(m, first, front);
      Associate(first, front, [x]);
      AfterSnoc(m, first + front, x);
      AfterSnoc(After(m, first), front, x);
    }
  }

  /** The producer leaves the consumer alone and can only raise the overflow flag. */
  lemma ProducerFrame(m: State, step: Step)
    requires IsProducerStep(step)
    ensures var n := Next(m, step);
            && n.consumer == m.consumer && n.pending == m.pending && n.removed == m.removed
            && n.results == m.results && n.taken == m.taken && (m.overflow ==> n.overflow)
  {
  }

  // ----- The inserted stream -----

  /** The octets whose insertion succeeded. */
  function Kept(fed: seq<Octet>, fate: seq<Fate>): seq<Octet>
    requires |fed| == |fate|
  {
    if fed == [] then []
    else
      var last := |fed| - 1;
      Kept(fed[..last], fate[..last]) + if fate[last].Inserted? then [fed[last]] else []
  }

  /** A loss is under way: an octet was refused and no delimiter has been fed after it. */
  function Losing(fed: seq<Octet>, fate: seq<Fate>): bool
    requires |fed| == |fate|
  {
    if fed == [] then false
    else
      var last := |fed| - 1;
      fate[last].Refused? || (Losing(fed[..last], fate[..last]) && fed[last] != DELIMITER)
  }

  lemma Grow(fed: seq<Octet>, fate: seq<Fate>, octet: Octet, its: Fate)
    requires |fed| == |fate|
    ensures Kept(fed + [octet], fate + [its]) == Kept(fed, fate) + if its.Inserted? then [octet] else []
    ensures Losing(fed + [octet], fate + [its]) <==> its.Refused? || (Losing(fed, fate) && octet != DELIMITER)
  {
    assert (fed + [octet])[..|fed|] == fed && (fate + [its])[..|fate|] == fate;
  }

  lemma {:induction false} KeptConcat(fed: seq<Octet>, fate: seq<Fate>, more: seq<Octet>, moreFate: seq<Fate>)
    requires |fed| == |fate| && |more| == |moreFate|
    ensures Kept(fed + more, fate + moreFate) == Kept(fed, fate) + Kept(more, moreFate)
    decreases |more|
  {
    if more == [] {
      assert fed + more == fed && fate + moreFate == fate;
    } else {
      hide Kept, Losing;
      var front, x := more[..|more| - 1], more[|more| - 1];
      var frontFate, its := moreFate[..|more| - 1], moreFate[|more| - 1];
      KeptConcat(fed, fate, front, frontFate);
      FrontLast(more);
      FrontLast(moreFate);
      Associate(fed, front, [x]);
      Associate(fate, frontFate, [its]);
      Grow(front, frontFate, x, its);
      Grow(fed + front, fate + frontFate, x, its);
      Associate(Kept(fed, fate), Kept(front, frontFate), if its.Inserted? then [x] else []);
    }
  }

  /** Octet j was refused and the octets strictly between j and i hold no delimiter. */
  ghost predicate LostFrom(fed: seq<Octet>, fate: seq<Fate>, j: int, i: int)
    requires |fed| == |fate|
  {
    0 <= j < i <= |fed| && fate[j].Refused? && forall k :: j < k < i ==> fed[k] != DELIMITER
  }

  lemma {:induction false} LosingIff(fed: seq<Octet>, fate: seq<Fate>)
    requires |fed| == |fate|
    ensures Losing(fed, fate) <==> exists j :: LostFrom(fed, fate, j, |fed|)
  {
    if fed != [] {
      var last := |fed| - 1;
      var fed0, fate0 := fed[..last], fate[..last];
      LosingIff(fed0, fate0);
      if fate[last].Refused? {
        assert LostFrom(fed, fate, last, |fed|);
      } else if Losing(fed0, fate0) && fed[last] != DELIMITER {
        var j :| LostFrom(fed0, fate0, j, last);
        assert LostFrom(fed, fate, j, |fed|);
      }
      if j :| LostFrom(fed, fate, j, |fed|) {
        if j < last {
          assert LostFrom(fed0, fate0, j, last);
        }
      }
    }
  }

  function Refusals(fate: seq<Fate>): nat {
    if fate == [] then 0
    else Refusals(fate[..|fate| - 1]) + if fate[|fate| - 1].Refused? then 1 else 0
  }

  // ----- The invariant -----

  ghost predicate FatesExplained(fed: seq<Octet>, fate: seq<Fate>)
    requires |fed| == |fate|
  {
    forall i {:trigger fate[i]} :: 0 <= i < |fate| ==> (fate[i].Skipped? <==> Losing(fed[..i], fate[..i]))
  }

  predicate EndsFrame(octets: seq<Octet>) {
    octets != [] && octets[|octets| - 1] == DELIMITER
  }

  ghost predicate Inv(m: State) {
    && |m.fed| == |m.fate|
    && |m.ring| <= m.size && |m.pending| <= m.size
    && m.removed + m.ring == Kept(m.fed, m.fate)
    && (EndsFrame(m.removed) ==> m.pending == [])
    && FatesExplained(m.fed, m.fate)
    && (Losing(m.fed, m.fate) <==> m.dropping || m.producer.Refusing?)
    && Refusals(m.fate) >= m.taken + (if m.overflow then 1 else 0) + (if m.producer.Refusing? then 1 else 0)
  }

  lemma FatesGrow(fed: seq<Octet>, fate: seq<Fate>, octet: Octet, its: Fate)
    requires |fed| == |fate| && FatesExplained(fed, fate)
    requires its.Skipped? <==> Losing(fed, fate)
    ensures FatesExplained(fed + [octet], fate + [its])
  {
    hide Losing;
    var fed1, fate1 := fed + [octet], fate + [its];
    forall i {:trigger fate1[i]} | 0 <= i < |fate1|
      ensures fate1[i].Skipped? <==> Losing(fed1[..i], fate1[..i])
    {
      assert fed1[..i] == fed[..i] && fate1[..i] == fate[..i];
      if i == |fate| {
        assert fed[..i] == fed && fate[..i] == fate;
      }
    }
  }

  lemma RefusalsGrow(fate: seq<Fate>, its: Fate)
    ensures Refusals(fate + [its]) == Refusals(fate) + if its.Refused? then 1 else 0
  {
    assert (fate + [its])[..|fate|] == fate;
  }

  lemma FeedKeepsInv(m: State, octet: Octet)
    requires Inv(m) && m.producer.Ready?
    ensures Inv(FeedStep(m, octet))
  {
    hide Kept, Losing, Refusals, FatesExplained;
    var n := FeedStep(m, octet);
    var its := if m.dropping then Skipped else if |m.ring| >= m.size then Refused else Inserted;
    Grow(m.fed, m.fate, octet, its);
    FatesGrow(m.fed, m.fate, octet, its);
    RefusalsGrow(m.fate, its);
    assert m.removed + (m.ring + [octet]) == m.removed + m.ring + [octet];
  }

  lemma RemoveKeepsKept(m: State)
    requires m.ring != []
    ensures RemoveFirst(m).removed + RemoveFirst(m).ring == m.removed + m.ring
  {
    assert m.removed + m.ring == m.removed + [m.ring[0]] + m.ring[1..];
  }

  lemma ConsumeKeepsInv(m: State)
    requires Inv(m)
    ensures Inv(ConsumeStep(m))
  {
    hide Kept, Losing, Refusals, FatesExplained;
    if m.ring != [] {
      RemoveKeepsKept(m);
      if m.consumer.Reading? {
        ReadKeeps(m, m.consumer.capacity);
      }
    }
  }

  lemma ReadKeeps(m: State, capacity: nat)
    requires m.ring != [] && |m.pending| <= m.size
    ensures var r := RemoveFirst(m); var n := ReadOctet(r, m.ring[0], capacity);
            && n == r.(pending := n.pending, consumer := n.consumer, results := n.results)
            && |n.pending| <= m.size && (EndsFrame(n.removed) ==> n.pending == [])
  {
  }

  lemma NextKeepsInv(m: State, step: Step)
    requires Inv(m)
    ensures Inv(Next(m, step))
  {
    match step
    case Feed(octet) => if m.producer.Ready? { FeedKeepsInv(m, octet); }
    case Proceed =>
    case CallNull =>
    case Call(capacity) =>
    case Consume => ConsumeKeepsInv(m);
  }

  /** Every run from the start keeps the invariant. */
  lemma {:induction false} RunsKeepInv(m: State, steps: seq<Step>)
    requires Inv(m)
    ensures Inv(After(m, steps))
    decreases |steps|
  {
    if steps != [] {
      RunsKeepInv(m, steps[..|steps| - 1]);
      NextKeepsInv(After(m, steps[..|steps| - 1]), steps[|steps| - 1]);
    }
  }
}
