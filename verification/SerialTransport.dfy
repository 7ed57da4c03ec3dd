/** The serial transport as it runs: each handler updates the fields in place, as the model says. */
module SerialTransport {
  import opened Sequences
  import opened Framing
  import opened Sizes
  import opened TransportModel
  import opened TransportLists
  import opened TransportInvariant
  import opened TransportSteps
  import opened TransportFlags

  /** What the strand, the stream and the other threads do before thread p's next shared access. */
  datatype Turn = Turn(steps: seq<Step>, spurious: bool)

  predicate Mine(p: nat, step: Step) { IsThreadStep(step) && step.p == p }

  /** A step that is not thread p's, and requests no open: p is between its check and its post. */
  predicate Other(p: nat, step: Step) {
    && !(step.Request? && step.event.OpenEvent?) && !Mine(p, step)
    && (step.CompleteWrite? ==> NoneMine(p, step.between))
  }

  predicate NoneMine(p: nat, steps: seq<Step>) {
    forall i :: 0 <= i < |steps| ==> !Mine(p, steps[i])
  }

  predicate AllOther(p: nat, steps: seq<Step>) {
    forall i :: 0 <= i < |steps| ==> Other(p, steps[i])
  }

  predicate Schedule(p: nat, turns: seq<Turn>) {
    forall t :: 0 <= t < |turns| ==> AllOther(p, turns[t].steps)
  }

  /** The steps of a run that are not thread p's. */
  function Others(p: nat, run: seq<Step>): seq<Step> {
    if run == [] then []
    else
      var last := |run| - 1;
      Others(p, run[..last]) + if Other(p, run[last]) then [run[last]] else []
  }

  /** How many turns have been taken n shared accesses after the given one: one before each, while there are any. */
  function Later(turns: seq<Turn>, taken: nat, n: nat): nat {
    if taken + n < |turns| then taken + n else |turns|
  }

  function Flat(turns: seq<Turn>): seq<Step> {
    if turns == [] then [] else Flat(turns[..|turns| - 1]) + turns[|turns| - 1].steps
  }

  lemma OthersSnoc(p: nat, run: seq<Step>, step: Step)
    ensures Others(p, run + [step]) == Others(p, run) + if Other(p, step) then [step] else []
  {
    assert (run + [step])[..|run|] == run;
  }

  /** The run so far leads from start to now, and the others' steps in it are the turns taken. */
  ghost predicate Track(p: nat, start: State, run: seq<Step>, now: State, turns: seq<Turn>, taken: nat) {
    taken <= |turns| && now == After(start, run) && Others(p, run) == Flat(turns[..taken])
  }

  lemma TrackOwn(p: nat, start: State, run: seq<Step>, now: State, turns: seq<Turn>, taken: nat, step: Step)
    requires Track(p, start, run, now, turns, taken) && !Other(p, step)
    ensures Track(p, start, run + [step], Next(now, step), turns, taken)
  {
    hide Next;
    AfterSnoc(start, run, step);
    OthersSnoc(p, run, step);
    EmptyRight(Others(p, run));
  }

  lemma TrackNone(p: nat, start: State, turns: seq<Turn>)
    ensures Track(p, start, [], start, turns, 0)
    ensures AccountOf(p, start, []) == Account([], [])
  {
  }

  /** What thread p did in a run: its own steps in order, and the packets they had accepted. */
  datatype Account = Account(own: seq<Step>, accepted: seq<Packet>)

  /** The packets that a step accepts. */
  function Accepting(m: State, step: Step): seq<Packet> {
    var n := Next(m, step);
    if |m.accepted| <= |n.accepted| then n.accepted[|m.accepted|..] else []
  }

  function AccountOf(p: nat, start: State, run: seq<Step>): Account {
    if run == [] then Account([], [])
    else
      var front, step := run[..|run| - 1], run[|run| - 1];
      var a := AccountOf(p, start, front);
      if Other(p, step) then a
      else Account(a.own + [step], a.accepted + Accepting(After(start, front), step))
  }

  lemma AccountSnoc(p: nat, start: State, run: seq<Step>, step: Step)
    ensures Other(p, step) ==> AccountOf(p, start, run + [step]) == AccountOf(p, start, run)
    ensures !Other(p, step) ==>
              && AccountOf(p, start, run + [step]).own == AccountOf(p, start, run).own + [step]
              && AccountOf(p, start, run + [step]).accepted
              == AccountOf(p, start, run).accepted + Accepting(After(start, run), step)
  {
    assert (run + [step])[..|run|] == run;
  }

  /** The steps of a call of asyncWrite that ended with this status. */
  function CallSteps(p: nat, bytes: seq<Octet>, packetId: SizeT, claims: seq<Step>, status: WriteStatus): seq<Step> {
    [CheckStep(p, bytes, packetId)]
    + (if status.Closed? || status.MessageTooLong? then []
       else [LoadStep(p)] + claims + (if status.Scheduled? then [PostStep(p)] else []))
  }

  lemma CallStepsAre(p: nat, bytes: seq<Octet>, packetId: SizeT, claims: seq<Step>)
    ensures var began := [] + [CheckStep(p, bytes, packetId)];
            && CallSteps(p, bytes, packetId, [], WriteStatus.Closed) == began
            && CallSteps(p, bytes, packetId, [], MessageTooLong) == began
            && CallSteps(p, bytes, packetId, claims, QueueFull) == began + [LoadStep(p)] + claims
            && CallSteps(p, bytes, packetId, claims, Scheduled) == began + [LoadStep(p)] + claims + [PostStep(p)]
  {
  }

  predicate AllClaims(p: nat, steps: seq<Step>) {
    forall i :: 0 <= i < |steps| ==> steps[i].ClaimStep? && steps[i].p == p
  }

  /** Thread p stands where it stood. */
  predicate SameThread(before: seq<Producer>, now: seq<Producer>, p: nat) {
    p < |before| == |now| && now[p] == before[p]
  }

  /** The others do not move thread p. */
  lemma OtherFrame(m: State, p: nat, step: Step)
    requires p < |m.producers| && Other(p, step)
    ensures SameThread(m.producers, Next(m, step).producers, p)
  {
    hide Cancel, Without, ReadSize, ReadMayReport, WriteMayReport, LiveRead, HandleRead, HandleWrite, RunEvent;
    hide ThreadStep;
    match step
    case RunNext(openOk) => if m.queue != [] { EventFrame(m.(queue := m.queue[1..]), m.queue[0], openOk); }
    case CompleteRead(i, ec) =>
      if i < |m.readOps| {
        ReadFrame(m.(readOps := Without(m.readOps, i)), ec, ReadSize(m), m.readOps[i].generation);
      }
    case CompleteWrite(i, ec, between) =>
      if i < |m.writeOps| {
        WriteFrame(m.(writeOps := Without(m.writeOps, i)), ec, m.writeOps[i].generation, between, p);
      }
    case _ => if IsThreadStep(step) { ThreadFrame(m, p, step); }
  }

  lemma ThreadFrame(m: State, p: nat, step: Step)
    requires p < |m.producers| && !Mine(p, step)
    ensures SameThread(m.producers, ThreadStep(m, step).producers, p)
  {
    hide TransportModel.Check, TransportModel.Load, TransportModel.TryClaim, TransportModel.Post;
    match step
    case CheckStep(q, bytes, packetId) => if q < |m.producers| { CheckFrame(m, q, bytes, packetId, p); }
    case LoadStep(q) => if q < |m.producers| && m.producers[q].Checked? { LoadFrame(m, q, p); }
    case ClaimStep(q, spurious) => if q < |m.producers| && m.producers[q].Loaded? { ClaimFrame(m, q, spurious, p); }
    case PostStep(q) => if q < |m.producers| && m.producers[q].Claimed? { PostFrame(m, q, p); }
    case _ =>
  }

  lemma {:induction false} BetweenFrame(m: State, p: nat, steps: seq<Step>)
    requires p < |m.producers| && NoneMine(p, steps)
    ensures SameThread(m.producers, Between(m, steps).producers, p)
    decreases |steps|
  {
    if steps != [] {
      hide ThreadStep;
      BetweenFrame(m, p, steps[..|steps| - 1]);
      ThreadFrame(Between(m, steps[..|steps| - 1]), p, steps[|steps| - 1]);
    }
  }

  lemma CheckFrame(m: State, q: nat, bytes: seq<Octet>, packetId: SizeT, p: nat)
    requires q < |m.producers| && p < |m.producers| && q != p
    ensures SameThread(m.producers, TransportModel.Check(m, q, bytes, packetId).producers, p)
  {
  }

  lemma LoadFrame(m: State, q: nat, p: nat)
    requires q < |m.producers| && p < |m.producers| && q != p && m.producers[q].Checked?
    ensures SameThread(m.producers, TransportModel.Load(m, q).producers, p)
  {
  }

  lemma ClaimFrame(m: State, q: nat, spurious: bool, p: nat)
    requires q < |m.producers| && p < |m.producers| && q != p && m.producers[q].Loaded?
    ensures SameThread(m.producers, TransportModel.TryClaim(m, q, spurious).producers, p)
  {
  }

  lemma PostFrame(m: State, q: nat, p: nat)
    requires q < |m.producers| && p < |m.producers| && q != p && m.producers[q].Claimed?
    ensures SameThread(m.producers, TransportModel.Post(m, q).producers, p)
  {
  }

  lemma EventFrame(m: State, event: Event, openOk: bool)
    ensures RunEvent(m, event, openOk).producers == m.producers
  {
    hide Cancel;
  }

  lemma ReadFrame(m: State, ec: ErrorCode, bytesRead: nat, generation: nat)
    ensures HandleRead(m, ec, bytesRead, generation).producers == m.producers
  {
    hide Cancel;
  }

  lemma WriteFrame(m: State, ec: ErrorCode, generation: nat, between: seq<Step>, p: nat)
    requires p < |m.producers| && NoneMine(p, between)
    ensures SameThread(m.producers, HandleWrite(m, ec, generation, between).producers, p)
  {
    hide Cancel, Between;
    BetweenFrame(m.(pendingWrites := FetchSub(m.pendingWrites)), p, between);
  }

  // ----- What thread p's own steps do -----

  lemma CheckOutcome(m: State, p: nat, bytes: seq<Octet>, packetId: SizeT)
    requires p < |m.producers| && m.producers[p].Away?
    ensures var n := Next(m, CheckStep(p, bytes, packetId));
            && |n.producers| == |m.producers|
            && if Halted(m) then n.producers[p].Away? && n.statuses == m.statuses + [WriteStatus.Closed]
               else if |bytes| > m.config.txMaxSizePerElement then
                 n.producers[p].Away? && n.statuses == m.statuses + [MessageTooLong]
               else n.producers[p] == Checked(bytes, packetId)
    ensures Accepting(m, CheckStep(p, bytes, packetId)) == []
  {
  }

  lemma LoadOutcome(m: State, p: nat)
    requires p < |m.producers| && m.producers[p].Checked?
    ensures var n := Next(m, LoadStep(p));
            && |n.producers| == |m.producers|
            && n.producers[p] == Loaded(m.producers[p].bytes, m.producers[p].packetId, m.pendingWrites)
    ensures Accepting(m, LoadStep(p)) == []
  {
  }

  lemma ClaimOutcome(m: State, p: nat, spurious: bool)
    requires p < |m.producers| && m.producers[p].Loaded?
    ensures var c := m.producers[p]; var n := Next(m, ClaimStep(p, spurious));
            && |n.producers| == |m.producers| && n.config == m.config
            && if c.observed >= m.config.txMaxElementsInQueue then
                 n.producers[p].Away? && n.statuses == m.statuses + [QueueFull]
               else if m.pendingWrites == c.observed && !spurious then
                 n.producers[p] == Claimed(Packet(c.bytes, c.packetId, |m.accepted|))
               else
                 n.producers[p] == Loaded(c.bytes, c.packetId, m.pendingWrites) && n.pendingWrites == m.pendingWrites
    ensures Accepting(m, ClaimStep(p, spurious)) == ClaimOf(Next(m, ClaimStep(p, spurious)).producers[p])
  {
  }

  /** The write just posted is this packet. */
  predicate Queued(m: State, packet: Packet) {
    && m.posted != [] && m.posted[|m.posted| - 1] == packet
    && m.queue != [] && m.queue[|m.queue| - 1] == WriteEvent(packet)
  }

  /** One packet, with these octets and this identifier. */
  predicate JustOne(packets: seq<Packet>, bytes: seq<Octet>, packetId: SizeT) {
    |packets| == 1 && packets[0].bytes == bytes && packets[0].packetId == packetId
  }

  lemma PostOutcome(m: State, p: nat)
    requires p < |m.producers| && m.producers[p].Claimed?
    ensures var n := Next(m, PostStep(p)); var packet := m.producers[p].packet;
            && |n.producers| == |m.producers| && n.producers[p].Away?
            && n.statuses == m.statuses + [Scheduled] && Queued(n, packet)
    ensures Accepting(m, PostStep(p)) == []
  {
  }

  /** Where the loop has taken a thread that entered it with a loaded counter. */
  predicate InLoop(caller: Producer, now: Producer)
    requires caller.Loaded?
  {
    match now
    case Away => true
    case Checked(_, _) => false
    case Loaded(bytes, packetId, _) => bytes == caller.bytes && packetId == caller.packetId
    case Claimed(packet) => packet.bytes == caller.bytes && packet.packetId == caller.packetId
  }

  lemma InLoopAlready(caller: Producer)
    requires caller.Loaded?
    ensures InLoop(caller, caller)
  {
  }

  lemma InLoopNext(caller: Producer, m: State, p: nat, spurious: bool)
    requires caller.Loaded? && p < |m.producers| && m.producers[p].Loaded? && InLoop(caller, m.producers[p])
    ensures |Next(m, ClaimStep(p, spurious)).producers| == |m.producers|
    ensures InLoop(caller, Next(m, ClaimStep(p, spurious)).producers[p])
  {
    hide Next, Accepting;
    ClaimOutcome(m, p, spurious);
  }

  predicate LeavesLoop(caller: Producer, now: Producer)
    requires caller.Loaded?
  {
    InLoop(caller, now) && !now.Loaded?
  }

  /** At some moment of the run the counter had reached the count. */
  ghost predicate WasFull(start: State, run: seq<Step>, count: nat) {
    exists k :: 0 <= k <= |run| && After(start, run[..k]).pendingWrites >= count
  }

  lemma StillFull(start: State, run: seq<Step>, longer: seq<Step>, count: nat)
    requires WasFull(start, run, count) && run <= longer
    ensures WasFull(start, longer, count)
  {
    hide After;
    var k :| 0 <= k <= |run| && After(start, run[..k]).pendingWrites >= count;
    assert longer[..k] == run[..k];
  }

  lemma FullAtLimit(start: State, run: seq<Step>, count: nat, limit: nat)
    requires WasFull(start, run, count)
    ensures count >= limit ==> WasFull(start, run, limit)
  {
    hide After;
  }

  lemma Observes(p: nat, start: State, run: seq<Step>, now: State, turns: seq<Turn>, taken: nat)
    requires Track(p, start, run, now, turns, taken)
    ensures WasFull(start, run, now.pendingWrites)
  {
    hide After, Others;
    assert run[..|run|] == run;
  }

  lemma ReadStoresAre(m: State, i: nat, ec: ErrorCode)
    requires i < |m.readOps| && ReadMayReport(m, m.readOps[i], ec)
    ensures Stores(m, Step.CompleteRead(i, ec))
         == if StopsAfter(m.(readOps := Without(m.readOps, i)), ec, m.readOps[i].generation)
            then StopStores(FlagsOf(m)) else []
  {
    hide StopStores, ReadMayReport, Without;
  }

  lemma WriteStoresAre(m: State, i: nat, ec: ErrorCode, between: seq<Step>)
    requires i < |m.writeOps| && WriteMayReport(m.writeOps[i], ec)
    requires !Halted(m) && m.writeOps[i].generation == m.generation ==> m.txDeque != []
    ensures Stores(m, Step.CompleteWrite(i, ec, between))
         == if StopsAfter(m.(writeOps := Without(m.writeOps, i)), ec, m.writeOps[i].generation)
            then StopStores(FlagsOf(m)) else []
  {
    hide StopStores, WriteMayReport, Without;
  }

  lemma OpenStoresAre(f: Flags, ok: bool)
    ensures f.closing ==> OpenStores(f, ok) == []
    ensures !f.closing && ok ==>
              OpenStores(f, ok) == [Flags(false, true, f.lifecycle), Flags(false, true, Opening)]
                                   + [Flags(false, false, Opening)] + [Flags(false, false, Lifecycle.Open)]
    ensures !f.closing && !ok ==>
              OpenStores(f, ok) == [Flags(false, true, f.lifecycle), Flags(false, true, Opening)]
                                   + [Flags(false, true, Faulted)]
  {
  }

  /** What reaches handleRead past its guards. */
  lemma LiveReadReport(m: State, i: nat, ec: ErrorCode)
    requires Inv(m) && i < |m.readOps| && ReadMayReport(m, m.readOps[i], ec)
    ensures !Halted(m) && m.readOps[i].generation == m.generation && ec.NoError? ==> ReadSize(m) <= |m.rxBuffer|
  {
    hide StrandInv, WritesInv;
    if m.readOps[i].generation == m.generation {
      LiveReadIsOnly(m, i);
    }
  }

  /** What reaches handleWrite past its guards. */
  lemma LiveWriteReport(m: State, i: nat)
    requires Inv(m) && i < |m.writeOps|
    ensures !Halted(m) && m.writeOps[i].generation == m.generation ==> m.txDeque != []
  {
    hide StrandInv, WritesInv;
    if m.writeOps[i].generation == m.generation {
      LiveWriteIsFront(m, i);
    }
  }

  /** The strand, the stream, the threads inside asyncWrite, what callers are told, and the history. */
  datatype World = World(
    queue: seq<Event>,
    readOps: seq<Op>,
    writeOps: seq<Op>,
    producers: seq<Producer>,
    cancels: nat,
    closes: nat,
    session: nat,
    opens: nat,
    accepted: seq<Packet>,
    posted: seq<Packet>,
    discarded: seq<Packet>,
    leaked: nat,
    received: seq<Octet>,
    wire: seq<Octet>,
    earlier: seq<Notice>,
    log: seq<Notice>,
    statuses: seq<WriteStatus>
  )

  /** The state in which the user's handler is called for an error: reading on, or stopped with the port shut. */
  function TellingOf(m: State, ec: ErrorCode, settled: nat): seq<State>
    requires settled <= |m.txDeque|
  {
    if ec.NotFound? then [TransportModel.RecoverFromError(m)]
    else if ClarifyFatalError(ec).Some? then [TransportModel.StopAfterIoError(m, settled)]
    else []
  }

  /** The states in which the user's handlers are called for a write that ends here, its packet still in front. */
  function WriteTelling(m: State, ec: ErrorCode): seq<State>
    requires m.txDeque != []
  {
    [m] + if ec.NoError? then []
          else TellingOf(m.(log := m.log + [WriteNotice(Failed, m.txDeque[0], m.handlers.write)]), ec, 1)
  }

  class Pimpl {
    var bufferConfig: BufferConfig
    var rxBuffer: seq<Octet>
    var txDeque: seq<Packet>
    var handlers: Handlers
    var closing: bool
    var stopped: bool
    var generation: nat
    var pendingWrites: SizeT
    var currentState: Lifecycle

    var terminated: bool  // std::terminate, from an exception inside a noexcept function
    var world: World
    ghost var published: seq<Flags>  // the flags after every store to one of them
    ghost var told: seq<State>       // the state as each handler of the user is called

    /** The state of the model. */
    function Model(): State
      reads this
    {
      State(bufferConfig, rxBuffer, txDeque, handlers, closing, stopped, generation, pendingWrites, currentState,
            world.queue, world.readOps, world.writeOps, world.producers, world.cancels, world.closes,
            world.session, world.opens, world.accepted, world.posted, world.discarded, world.leaked,
            world.received, world.wire, world.earlier, world.log, world.statuses, terminated)
    }

    constructor (threads: nat)
      ensures Model() == Init(threads)
    {
      bufferConfig, rxBuffer, txDeque, handlers := DEFAULT_CONFIG, [], [], Handlers(false, false, false, false);
      closing, stopped, generation, pendingWrites, currentState := false, true, 0, 0, Lifecycle.Closed;
      terminated, published, told := false, [], [];
      world := World([], [], [], seq(threads, i => Away), 0, 0, 0, 0, [], [], [], 0, [], [], [], [], []);
      new;
      assert world.producers == Init(threads).producers;
    }

    /**
      * At any instant, in the middle of a handler too, it answers what the last store shows; between two
      * handlers that is whether asyncWrite would get past its check.
      */
    method IsOpen() returns (r: bool)
      ensures r <==> ShowsOpen(Seen())
      ensures Inv(Model()) ==> (r <==> LetsWrite(Seen()))
    {
      hide Inv, StrandInv, WritesInv;
      if Inv(Model()) {
        LifeOf(Model());
      }
      r := currentState.Open?;
    }

    /** Calls the handler the notice is for, if it is set. */
    method Tell(notice: Notice)
      modifies this`world, this`told
      ensures world == old(world).(log := old(world).log + [notice]) && told == old(told) + [old(Model())]
    {
      told := told + [Model()];
      world := world.(log := world.log + [notice]);
    }

    // ----- Opening and closing -----

    ghost function Seen(): Flags
      reads this`closing, this`stopped, this`currentState
    {
      Flags(closing, stopped, currentState)
    }

    method StoreStopped(value: bool)
      modifies this`stopped, this`published
      ensures stopped == value && published == old(published) + [Seen()]
    {
      stopped := value;
      published := published + [Seen()];
    }

    method StoreState(value: Lifecycle)
      modifies this`currentState, this`published
      ensures currentState == value && published == old(published) + [Seen()]
    {
      currentState := value;
      published := published + [Seen()];
    }

    method ExchangeClosing() returns (was: bool)
      modifies this`closing, this`published
      ensures was == old(closing) && closing && published == old(published) + [Seen()]
    {
      was, closing := closing, true;
      published := published + [Seen()];
    }

    /** open; it throws when the port does not open or does not take its options. */
    method Open(newBufferConfig: BufferConfig, portOpens: bool) returns (thrown: bool)
      modifies this
      ensures Model() == RunOpen(old(Model()), newBufferConfig, portOpens)
      ensures published == old(published) + OpenStores(old(Seen()), portOpens)
      ensures thrown == (!old(closing) && !portOpens)
    {
      hide TransportModel.StartRead, OpenStores;
      OpenStoresAre(Seen(), portOpens);
      if closing {
        return false;
      }
      Reset(newBufferConfig);
      if !portOpens {
        StoreState(Faulted);
        return true;
      }
      Enter();
      return false;
    }

    /** The part of open after the port has opened. */
    method Enter()
      modifies this
      ensures Model() == TransportModel.StartRead(
                old(Model()).(stopped := false, lifecycle := Lifecycle.Open, opens := old(Model()).opens + 1))
      ensures published == old(published) + [old(Seen()).(stopped := false)]
                           + [old(Seen()).(stopped := false, lifecycle := Lifecycle.Open)]
    {
      hide TransportModel.StartRead;
      StoreStopped(false);
      StoreState(Lifecycle.Open);
      world := world.(opens := world.opens + 1);
      StartRead();
    }

    /** The part of open before the port is opened. */
    method Reset(newBufferConfig: BufferConfig)
      requires !closing
      modifies this
      ensures Model() == ResetSession(old(Model()), newBufferConfig)
      ensures published == old(published) + [Flags(false, true, old(currentState)), Flags(false, true, Opening)]
    {
      generation := generation + 1;
      StoreStopped(true);
      StoreState(Opening);
      ClearSession(newBufferConfig);
    }

    method ClearSession(newBufferConfig: BufferConfig)
      modifies this`rxBuffer, this`world, this`txDeque, this`pendingWrites, this`bufferConfig
      ensures rxBuffer == [] && txDeque == [] && pendingWrites == 0 && bufferConfig == newBufferConfig
      ensures world == old(world).(
        discarded := old(world).discarded + old(txDeque), session := old(world).session + 1,
        posted := [], leaked := 0, received := [], wire := [],
        earlier := old(world).earlier + old(world).log, log := [])
    {
      rxBuffer := [];
      NewSession();
      txDeque := [];
      pendingWrites := 0;
      bufferConfig := newBufferConfig;
    }

    /** The history of one session ends and that of the next begins. */
    method NewSession()
      modifies this`world
      ensures world == old(world).(
        discarded := old(world).discarded + txDeque, session := old(world).session + 1,
        posted := [], leaked := 0, received := [], wire := [],
        earlier := old(world).earlier + old(world).log, log := [])
    {
      world := world.(
        discarded := world.discarded + txDeque, session := world.session + 1,
        posted := [], leaked := 0, received := [], wire := [],
        earlier := world.earlier + world.log, log := []);
    }

    /** The queued packets from the given one on will get no outcome. */
    method Discard(settled: nat)
      requires settled <= |txDeque|
      modifies this`world
      ensures world == old(world).(
        discarded := old(world).discarded + txDeque[settled..], leaked := old(world).leaked + |txDeque| - settled)
    {
      world := world.(
        discarded := world.discarded + txDeque[settled..], leaked := world.leaked + |txDeque| - settled);
    }

    /** serial.cancel and serial.close: every operation under way ends soon with an error. */
    method CancelAndClose()
      modifies this`world
      ensures Model() == ShutPort(old(Model()))
    {
      world := world.(readOps := Cancel(world.readOps), writeOps := Cancel(world.writeOps),
                      cancels := world.cancels + 1, closes := world.closes + 1);
    }

    method CloseOnStrand()
      modifies this
      ensures Model() == TransportModel.CloseOnStrand(old(Model()))
      ensures published == old(published) + CloseStores(old(Seen()))
    {
      hide TransportModel.FinishClose;
      var was := ExchangeClosing();
      if !was {
        FinishClose();
      }
    }

    method FinishClose()
      modifies this
      ensures Model() == TransportModel.FinishClose(old(Model()))
      ensures published == old(published)
        + [Flags(old(closing), true, old(currentState)), Flags(old(closing), true, Closing),
           Flags(old(closing), true, Lifecycle.Closed)]
    {
      hide Cancel;
      StoreStopped(true);
      StoreState(Closing);
      generation := generation + 1;
      rxBuffer := [];
      Discard(0);
      txDeque := [];
      CancelAndClose();
      StoreState(Lifecycle.Closed);
    }

    method SetHandler(kind: HandlerKind, present: bool)
      modifies this`handlers
      ensures Model() == TransportModel.SetHandler(old(Model()), kind, present)
    {
      if closing {
        return;
      }
      match kind
      case FrameHandler => handlers := handlers.(frame := present);
      case FatalErrorHandler => handlers := handlers.(fatal := present);
      case RecuperableErrorHandler => handlers := handlers.(recuperable := present);
      case WriteHandler => handlers := handlers.(write := present);
    }

    // ----- Reading -----

    method StartRead()
      modifies this`world
      ensures Model() == TransportModel.StartRead(old(Model()))
    {
      if closing || stopped {
        return;
      }
      world := world.(readOps := world.readOps + [ReadOp(generation, world.session, false)]);
    }

    method HandleRead(ec: ErrorCode, bytesRead: nat, operationGeneration: nat)
      requires !closing && !stopped && operationGeneration == generation ==>
                 ec.NoError? ==> bytesRead <= |rxBuffer|
      modifies this
      ensures Model() == TransportModel.HandleRead(old(Model()), ec, bytesRead, operationGeneration)
      ensures published == old(published)
        + if StopsAfter(old(Model()), ec, operationGeneration) then StopStores(old(Seen())) else []
      ensures told == old(told)
        + if Halted(old(Model())) || operationGeneration != old(generation) then []
          else if ec.NoError? then [old(Model())]
          else TellingOf(old(Model()), ec, 0)
    {
      hide TransportModel.DispatchError, TransportModel.StartRead, StopStores, TellingOf;
      if closing || stopped || operationGeneration != generation {
        return;
      }
      if !ec.NoError? {
        DispatchError(ec, 0);
        return;
      }
      var package := rxBuffer[..bytesRead];
      Tell(FrameNotice(package, handlers.frame));
      rxBuffer := rxBuffer[bytesRead..];
      StartRead();
    }

    // ----- Writing -----

    method DoWrite()
      modifies this`world
      ensures Model() == TransportModel.DoWrite(old(Model()))
    {
      if closing || stopped || txDeque == [] {
        return;
      }
      world := world.(writeOps := world.writeOps + [WriteOp(generation, world.session, false, txDeque[0], 0)]);
    }

    /** The threads in asyncWrite, and the user's callback through it, go on in the middle of the handler. */
    method HandleWrite(ec: ErrorCode, operationGeneration: nat, between: seq<Step>)
      requires !closing && !stopped && operationGeneration == generation ==> txDeque != []
      modifies this
      ensures Model() == TransportModel.HandleWrite(old(Model()), ec, operationGeneration, between)
      ensures published == old(published)
        + if StopsAfter(old(Model()), ec, operationGeneration) then StopStores(old(Seen())) else []
      ensures told == old(told)
        + if Halted(old(Model())) || operationGeneration != old(generation) then []
          else WriteTelling(Between(old(Model()).(pendingWrites := FetchSub(old(pendingWrites))), between), ec)
    {
      hide TransportModel.FinishWrite, Between, StopStores, WriteTelling;
      if closing || stopped || operationGeneration != generation {
        return;
      }
      pendingWrites := FetchSub(pendingWrites);
      LetThreads(between);
      FinishWrite(ec);
    }

    /** The rest of it: the user is called with the packet still in front. */
    method FinishWrite(ec: ErrorCode)
      requires txDeque != []
      modifies this
      ensures Model() == TransportModel.FinishWrite(old(Model()), ec)
      ensures published == old(published) + if ec.NoError? || ec.NotFound? then [] else StopStores(old(Seen()))
      ensures told == old(told) + WriteTelling(old(Model()), ec)
    {
      hide TransportModel.DispatchError, StopStores, TellingOf;
      if !ec.NoError? {
        Tell(WriteNotice(Failed, txDeque[0], handlers.write));
        DispatchError(ec, 1);
        return;
      }
      Tell(WriteNotice(Written, txDeque[0], handlers.write));
      txDeque := txDeque[1..];
      if txDeque != [] {
        DoWrite();
      }
    }

    /** The closure that asyncWrite posts. */
    method RunWrite(packet: Packet)
      modifies this`pendingWrites, this`txDeque, this`world, this`told
      ensures Model() == TransportModel.RunWrite(old(Model()), packet)
      ensures told == old(told)
        + if Halted(old(Model())) then [old(Model()).(pendingWrites := FetchSub(old(pendingWrites)))] else []
    {
      if closing || stopped {
        pendingWrites := FetchSub(pendingWrites);
        Tell(WriteNotice(Cancelled, packet, handlers.write));
        return;
      }
      var idle := txDeque == [];
      txDeque := txDeque + [packet];
      if idle {
        DoWrite();
      }
    }

    // ----- Errors -----

    method StopAfterIoError(settled: nat)
      requires settled <= |txDeque|
      modifies this
      ensures Model() == TransportModel.StopAfterIoError(old(Model()), settled)
      ensures published == old(published) + StopStores(old(Seen())) && told == old(told)
    {
      hide ShutPort;
      StoreStopped(true);
      StoreState(Faulted);
      generation := generation + 1;
      rxBuffer := [];
      Discard(settled);
      txDeque := [];
      CancelAndClose();
    }

    method RecoverFromError()
      modifies this`rxBuffer, this`world
      ensures Model() == TransportModel.RecoverFromError(old(Model()))
    {
      rxBuffer := [];
      StartRead();
    }

    /** The user's handler is called last: it finds the transport reading on, or stopped with its port shut. */
    method DispatchError(ec: ErrorCode, settled: nat)
      requires settled <= |txDeque|
      modifies this
      ensures Model() == TransportModel.DispatchError(old(Model()), ec, settled)
      ensures published == old(published) + if ec.NotFound? then [] else StopStores(old(Seen()))
      ensures told == old(told) + TellingOf(old(Model()), ec, settled)
    {
      hide Cancel, TransportModel.RecoverFromError, StopStores;
      if ec.NotFound? {
        var lost := rxBuffer;
        RecoverFromError();
        Tell(RecoverableNotice(RxBufferFull, lost, handlers.recuperable));
      } else {
        StopAfterIoError(settled);
        match ClarifyFatalError(ec)
        case Some(e) => Tell(FatalNotice(e, handlers.fatal));
        case None =>
          if handlers.fatal {
            terminated := true;  // the exception of clarifyFatalError meets noexcept
          }
      }
    }

    // ----- asyncWrite, one shared access at a time -----

    /** asyncWrite returns. */
    method Answer(status: WriteStatus)
      modifies this`world
      ensures world == old(world).(statuses := old(world).statuses + [status])
    {
      world := world.(statuses := world.statuses + [status]);
    }

    /** Thread p goes on inside asyncWrite. */
    method Move(p: nat, now: Producer)
      requires p < |world.producers|
      modifies this`world
      ensures world == old(world).(producers := old(world).producers[p := now])
    {
      world := world.(producers := world.producers[p := now]);
    }

    method Check(p: nat, toWrite: seq<Octet>, packetID: SizeT)
      requires p < |world.producers| && world.producers[p].Away?
      modifies this`world
      ensures Model() == TransportModel.Check(old(Model()), p, toWrite, packetID)
    {
      if closing || stopped {
        Answer(WriteStatus.Closed);
      } else if |toWrite| > bufferConfig.txMaxSizePerElement {
        Answer(MessageTooLong);
      } else {
        Move(p, Checked(toWrite, packetID));
      }
    }

    method Load(p: nat)
      requires p < |world.producers| && world.producers[p].Checked?
      modifies this`world
      ensures Model() == TransportModel.Load(old(Model()), p)
    {
      var caller := world.producers[p];
      Move(p, Loaded(caller.bytes, caller.packetId, pendingWrites));
    }

    /** compare_exchange_weak(expected, expected + 1). */
    method CompareExchangeWeak(expected: SizeT, spurious: bool) returns (ok: bool, observed: SizeT)
      requires expected + 1 < SIZE_RANGE
      modifies this`pendingWrites
      ensures ok == (old(pendingWrites) == expected && !spurious) && observed == old(pendingWrites)
      ensures pendingWrites == if ok then expected + 1 else old(pendingWrites)
    {
      ok, observed := pendingWrites == expected && !spurious, pendingWrites;
      if ok {
        pendingWrites := expected + 1;
      }
    }

    method TryClaim(p: nat, spurious: bool)
      requires p < |world.producers| && world.producers[p].Loaded?
      modifies this`pendingWrites, this`world
      ensures Model() == TransportModel.TryClaim(old(Model()), p, spurious)
    {
      var caller := world.producers[p];
      if caller.observed >= bufferConfig.txMaxElementsInQueue {
        Move(p, Away);
        Answer(QueueFull);
        return;
      }
      var ok, observed := CompareExchangeWeak(caller.observed, spurious);
      if ok {
        var packet := Packet(caller.bytes, caller.packetId, |world.accepted|);
        Move(p, Claimed(packet));
        world := world.(accepted := world.accepted + [packet]);
      } else {
        Move(p, Loaded(caller.bytes, caller.packetId, observed));
      }
    }

    method Post(p: nat)
      requires p < |world.producers| && world.producers[p].Claimed?
      modifies this`world
      ensures Model() == TransportModel.Post(old(Model()), p)
    {
      var packet := world.producers[p].packet;
      world := world.(queue := world.queue + [WriteEvent(packet)], posted := world.posted + [packet]);
      Move(p, Away);
      Answer(Scheduled);
    }

    /** One shared access of a thread, if it can happen. */
    method LetThread(step: Step)
      modifies this`pendingWrites, this`world
      ensures Model() == ThreadStep(old(Model()), step)
    {
      hide TransportModel.Check, TransportModel.Load, TransportModel.TryClaim, TransportModel.Post;
      match step
      case CheckStep(p, bytes, packetId) =>
        if p < |world.producers| && world.producers[p].Away? { Check(p, bytes, packetId); }
      case LoadStep(p) => if p < |world.producers| && world.producers[p].Checked? { Load(p); }
      case ClaimStep(p, spurious) => if p < |world.producers| && world.producers[p].Loaded? { TryClaim(p, spurious); }
      case PostStep(p) => if p < |world.producers| && world.producers[p].Claimed? { Post(p); }
      case _ =>
    }

    method LetThreads(steps: seq<Step>)
      modifies this`pendingWrites, this`world
      ensures Model() == Between(old(Model()), steps)
    {
      hide ThreadStep;
      for i := 0 to |steps|
        invariant Model() == Between(old(Model()), steps[..i])
      {
        assert steps[..i + 1][..i] == steps[..i];
        LetThread(steps[i]);
      }
      assert steps[..|steps|] == steps;
    }

    // ----- The strand, the stream and the threads -----

    /** The strand runs one closure. */
    method RunEvent(event: Event, portOpens: bool)
      modifies this
      ensures Model() == TransportModel.RunEvent(old(Model()), event, portOpens)
      ensures published == old(published)
        + match event
          case OpenEvent(_) => OpenStores(old(Seen()), portOpens)
          case CloseEvent => CloseStores(old(Seen()))
          case _ => []
    {
      hide OpenStores, CloseStores, RunOpen, TransportModel.CloseOnStrand, TransportModel.SetHandler,
           TransportModel.RunWrite;
      match event
      case OpenEvent(config) =>
        var thrown := Open(config, portOpens);
      case CloseEvent => CloseOnStrand();
      case SetHandlerEvent(kind, present) => SetHandler(kind, present);
      case WriteEvent(packet) => RunWrite(packet);
    }

    /** A read ends: its handler runs. A live read reports only what the handler can take. */
    method CompleteRead(i: nat, ec: ErrorCode)
      requires Inv(Model()) && i < |world.readOps| && ReadMayReport(Model(), world.readOps[i], ec)
      modifies this
      ensures Model() == Next(old(Model()), Step.CompleteRead(i, ec))
      ensures published == old(published) + Stores(old(Model()), Step.CompleteRead(i, ec))
    {
      hide Inv, Stores, StopStores, StopsAfter, ReadSize, TransportModel.HandleRead;
      LiveReadReport(Model(), i, ec);
      ReadStoresAre(Model(), i, ec);
      var operationGeneration := world.readOps[i].generation;
      var bytesRead := ReadSize(Model());
      world := world.(readOps := Without(world.readOps, i));
      HandleRead(ec, bytesRead, operationGeneration);
    }

    /** A write ends: its handler runs. A live write finds its packet at the front of the queue. */
    method CompleteWrite(i: nat, ec: ErrorCode, between: seq<Step>)
      requires Inv(Model()) && i < |world.writeOps| && WriteMayReport(world.writeOps[i], ec)
      modifies this
      ensures Model() == Next(old(Model()), Step.CompleteWrite(i, ec, between))
      ensures published == old(published) + Stores(old(Model()), Step.CompleteWrite(i, ec, between))
    {
      hide Inv, Stores, StopStores, StopsAfter, TransportModel.HandleWrite;
      LiveWriteReport(Model(), i);
      WriteStoresAre(Model(), i, ec, between);
      var operationGeneration := world.writeOps[i].generation;
      world := world.(writeOps := Without(world.writeOps, i));
      HandleWrite(ec, operationGeneration, between);
    }

    /** Octets arrive for the read under way. */
    method ReceiveChunk(chunk: seq<Octet>)
      modifies this`rxBuffer, this`world
      ensures Model() == TransportModel.ReceiveChunk(old(Model()), chunk)
    {
      if (exists i :: 0 <= i < |world.readOps| && !world.readOps[i].cancelled)
         && DELIMITER !in rxBuffer && |rxBuffer| + |chunk| <= bufferConfig.rxBufferMaxSize {
        rxBuffer := rxBuffer + chunk;
        world := world.(received := world.received + chunk);
      }
    }

    /** Octets leave through a write under way. */
    method TransmitOctets(i: nat, count: nat)
      modifies this`world
      ensures Model() == TransportModel.TransmitOctets(old(Model()), i, count)
    {
      if i < |world.writeOps| && world.writeOps[i].WriteOp? && !world.writeOps[i].cancelled
         && world.writeOps[i].sent + count <= |world.writeOps[i].packet.bytes| {
        var op := world.writeOps[i];
        world := world.(writeOps := world.writeOps[i := op.(sent := op.sent + count)],
                        wire := world.wire + op.packet.bytes[op.sent..op.sent + count]);
      }
    }

    /** Any one step; one that cannot happen now changes nothing. */
    method Perform(step: Step)
      requires Inv(Model()) && DisciplinedStep(Model(), step)
      modifies this
      ensures Model() == Next(old(Model()), step) && Inv(Model())
      ensures published == old(published) + Stores(old(Model()), step)
    {
      hide Inv;
      NextKeepsInv(Model(), step);
      Dispatch(step);
    }

    method Dispatch(step: Step)
      requires Inv(Model())
      modifies this
      ensures Model() == Next(old(Model()), step)
      ensures published == old(published) + Stores(old(Model()), step)
    {
      hide Inv, StopStores, OpenStores, CloseStores, ReadMayReport, WriteMayReport, TransportModel.RunEvent,
           TransportModel.HandleRead, TransportModel.HandleWrite, TransportModel.ReceiveChunk,
           TransportModel.TransmitOctets, ThreadStep;
      match step
      case Request(event) =>
        if !event.WriteEvent? {
          world := world.(queue := world.queue + [event]);
        }
      case RunNext(openOk) =>
        if world.queue != [] {
          var event := world.queue[0];
          world := world.(queue := world.queue[1..]);
          RunEvent(event, openOk);
        }
      case CheckStep(_, _, _) => LetThread(step);
      case LoadStep(_) => LetThread(step);
      case ClaimStep(_, _) => LetThread(step);
      case PostStep(_) => LetThread(step);
      case Receive(chunk) => ReceiveChunk(chunk);
      case Transmit(i, count) => TransmitOctets(i, count);
      case CompleteRead(i, ec) =>
        if i < |world.readOps| && ReadMayReport(Model(), world.readOps[i], ec) { CompleteRead(i, ec); }
      case CompleteWrite(i, ec, between) =>
        if i < |world.writeOps| && WriteMayReport(world.writeOps[i], ec) { CompleteWrite(i, ec, between); }
    }

    // ----- asyncWrite under interference -----

    /** The others run for a while. */
    method Interfere(p: nat, steps: seq<Step>, ghost start: State, ghost run: seq<Step>) returns (ghost now: seq<Step>)
      requires Inv(Model()) && Model() == After(start, run) && AllOther(p, steps) && p < |world.producers|
      modifies this
      ensures Inv(Model()) && Model() == After(start, now) && run <= now
      ensures Others(p, now) == Others(p, run) + steps && AccountOf(p, start, now) == AccountOf(p, start, run)
      ensures SameThread(old(world.producers), world.producers, p)
    {
      hide Inv, Next, After, Others, AccountOf, Accepting;
      now := run;
      EmptyRight(Others(p, run));
      for i := 0 to |steps|
        invariant Inv(Model()) && Model() == After(start, now) && run <= now
        invariant Others(p, now) == Others(p, run) + steps[..i] && AccountOf(p, start, now) == AccountOf(p, start, run)
        invariant SameThread(old(world.producers), world.producers, p)
      {
        OtherFrame(Model(), p, steps[i]);
        Perform(steps[i]);
        AfterSnoc(start, now, steps[i]);
        OthersSnoc(p, now, steps[i]);
        AccountSnoc(p, start, now, steps[i]);
        assert steps[..i + 1] == steps[..i] + [steps[i]];
        Associate(Others(p, run), steps[..i], [steps[i]]);
        now := now + [steps[i]];
      }
      assert steps[..|steps|] == steps;
    }

    /** The others take their next turn, if they have one left; then compare_exchange_weak fails or not. */
    method NextTurn(p: nat, turns: seq<Turn>, taken: nat, ghost start: State, ghost run: seq<Step>)
      returns (t: nat, spurious: bool, ghost now: seq<Step>)
      requires Inv(Model()) && p < |world.producers| && Schedule(p, turns)
      requires Track(p, start, run, Model(), turns, taken) && taken <= |turns|
      modifies this
      ensures Inv(Model()) && Track(p, start, now, Model(), turns, t) && run <= now && t <= |turns|
      ensures SameThread(old(world.producers), world.producers, p)
      ensures AccountOf(p, start, now) == AccountOf(p, start, run)
      ensures if taken < |turns| then t == taken + 1 else t == taken && !spurious && Model() == old(Model())
    {
      hide Inv, After, Others, AccountOf;
      t, spurious, now := taken, false, run;
      if taken < |turns| {
        t, spurious := taken + 1, turns[taken].spurious;
        now := Interfere(p, turns[taken].steps, start, run);
        assert turns[..t][..taken] == turns[..taken];
      }
    }

    /** Thread p's own next step. */
    method Own(p: nat, step: Step, turns: seq<Turn>, taken: nat, ghost start: State, ghost run: seq<Step>)
      returns (ghost now: seq<Step>)
      requires Inv(Model()) && Track(p, start, run, Model(), turns, taken) && !Other(p, step) && !step.Request?
      modifies this
      ensures Inv(Model()) && Model() == Next(old(Model()), step)
      ensures now == run + [step] && Track(p, start, now, Model(), turns, taken)
      ensures var a := AccountOf(p, start, run);
              AccountOf(p, start, now) == Account(a.own + [step], a.accepted + Accepting(old(Model()), step))
    {
      hide Inv, Next, After, Others, AccountOf, Accepting;
      TrackOwn(p, start, run, Model(), turns, taken, step);
      AccountSnoc(p, start, run, step);
      Perform(step);
      now := run + [step];
    }

    /** The others' turn, then the first load of the counter. */
    method LoadCounter(p: nat, turns: seq<Turn>, taken: nat, ghost start: State, ghost run: seq<Step>)
      returns (t: nat, ghost now: seq<Step>)
      requires Inv(Model()) && p < |world.producers| && world.producers[p].Checked? && Schedule(p, turns)
      requires Track(p, start, run, Model(), turns, taken) && taken <= |turns|
      modifies this
      ensures Inv(Model()) && Track(p, start, now, Model(), turns, t) && t <= |turns|
      ensures p < |world.producers| && world.producers[p].Loaded?
      ensures world.producers[p].bytes == old(world.producers[p].bytes)
      ensures world.producers[p].packetId == old(world.producers[p].packetId)
      ensures WasFull(start, now, world.producers[p].observed) && t == Later(turns, taken, 1)
      ensures var a := AccountOf(p, start, run); AccountOf(p, start, now) == Account(a.own + [LoadStep(p)], a.accepted)
    {
      hide Inv, Track, After, Next, WasFull, AccountOf, Accepting;
      var spurious;
      t, spurious, now := NextTurn(p, turns, taken, start, run);
      LoadOutcome(Model(), p);
      Observes(p, start, now, Model(), turns, t);
      StillFull(start, now, now + [LoadStep(p)], pendingWrites);
      EmptyRight(AccountOf(p, start, run).accepted);
      now := Own(p, LoadStep(p), turns, t, start, now);
    }

    /** The others' turn, then the post. */
    method PostClaim(p: nat, turns: seq<Turn>, taken: nat, ghost start: State, ghost run: seq<Step>)
      returns (t: nat, ghost now: seq<Step>)
      requires Inv(Model()) && p < |world.producers| && world.producers[p].Claimed? && Schedule(p, turns)
      requires Track(p, start, run, Model(), turns, taken) && taken <= |turns|
      modifies this
      ensures Inv(Model()) && Track(p, start, now, Model(), turns, t)
      ensures p < |world.producers| && world.producers[p].Away?
      ensures world.statuses != [] && world.statuses[|world.statuses| - 1] == Scheduled
      ensures Queued(Model(), old(world.producers[p].packet)) && t == Later(turns, taken, 1)
      ensures var a := AccountOf(p, start, run); AccountOf(p, start, now) == Account(a.own + [PostStep(p)], a.accepted)
    {
      hide Inv, Track, After, Next, AccountOf, Accepting;
      var spurious;
      t, spurious, now := NextTurn(p, turns, taken, start, run);
      PostOutcome(Model(), p);
      EmptyRight(AccountOf(p, start, run).accepted);
      now := Own(p, PostStep(p), turns, t, start, now);
    }

    /** The loop around compare_exchange_weak. */
    method ClaimSlot(p: nat, turns: seq<Turn>, taken: nat, ghost start: State, ghost run: seq<Step>)
      returns (t: nat, ghost now: seq<Step>, ghost claims: seq<Step>)
      requires Inv(Model()) && p < |world.producers| && world.producers[p].Loaded? && Schedule(p, turns)
      requires Track(p, start, run, Model(), turns, taken) && taken <= |turns|
      requires WasFull(start, run, world.producers[p].observed)
      modifies this
      ensures Inv(Model()) && Track(p, start, now, Model(), turns, t) && t <= |turns|
      ensures p < |world.producers| && LeavesLoop(old(world.producers[p]), world.producers[p])
      ensures AllClaims(p, claims) && t == Later(turns, taken, |claims|)
      ensures var a := AccountOf(p, start, run);
              AccountOf(p, start, now) == Account(a.own + claims, a.accepted + ClaimOf(world.producers[p]))
      ensures world.producers[p].Away? ==>
                && WasFull(start, now, bufferConfig.txMaxElementsInQueue)
                && world.statuses != [] && world.statuses[|world.statuses| - 1] == QueueFull
    {
      hide Inv, Track, After, Next, WasFull, AccountOf, Accepting, InLoop;
      t, now, claims := taken, run, [];
      ghost var a := AccountOf(p, start, run);
      EmptyRight(a.own);
      EmptyRight(a.accepted);
      InLoopAlready(world.producers[p]);
      while world.producers[p].Loaded?
        invariant Inv(Model()) && t <= |turns| && Track(p, start, now, Model(), turns, t)
        invariant p < |world.producers| && InLoop(old(world.producers[p]), world.producers[p])
        invariant AllClaims(p, claims) && t == Later(turns, taken, |claims|)
        invariant AccountOf(p, start, now) == Account(a.own + claims, a.accepted + ClaimOf(world.producers[p]))
        invariant world.producers[p].Loaded? ==> WasFull(start, now, world.producers[p].observed)
        invariant world.producers[p].Away? ==>
                    && WasFull(start, now, bufferConfig.txMaxElementsInQueue)
                    && world.statuses != [] && world.statuses[|world.statuses| - 1] == QueueFull
        decreases |turns| - t,
                  if !world.producers[p].Loaded? then 0
                  else if world.producers[p].observed == pendingWrites then 1 else 2
      {
        ghost var earlier, observed := now, world.producers[p].observed;
        var spurious;
        t, spurious, now := NextTurn(p, turns, t, start, now);
        StillFull(start, earlier, now + [ClaimStep(p, spurious)], observed);
        Observes(p, start, now, Model(), turns, t);
        StillFull(start, now, now + [ClaimStep(p, spurious)], pendingWrites);
        ClaimOutcome(Model(), p, spurious);
        InLoopNext(old(world.producers[p]), Model(), p, spurious);
        Associate(a.own, claims, [ClaimStep(p, spurious)]);
        EmptyRight(a.accepted);
        claims := claims + [ClaimStep(p, spurious)];
        FullAtLimit(start, now + [ClaimStep(p, spurious)], observed, bufferConfig.txMaxElementsInQueue);
        now := Own(p, ClaimStep(p, spurious), turns, t, start, now);
      }
    }

    /**
      * The call, with the others taking one turn before each shared access after the first. Its own steps
      * accept one packet if it answers Scheduled and none otherwise; it answers QueueFull only if at some moment
      * of the call the counter was at its limit.
      */
    method AsyncWrite(p: nat, toWrite: seq<Octet>, packetID: SizeT, turns: seq<Turn>)
      returns (status: WriteStatus, ghost run: seq<Step>, ghost taken: nat, ghost claims: seq<Step>)
      requires Inv(Model()) && p < |world.producers| && world.producers[p].Away? && Schedule(p, turns)
      modifies this
      ensures Inv(Model()) && Track(p, old(Model()), run, Model(), turns, taken)
      ensures p < |world.producers| && world.producers[p].Away?
      ensures world.statuses != [] && world.statuses[|world.statuses| - 1] == status
      ensures status.Closed? <==> old(closing || stopped)
      ensures status.MessageTooLong? <==> old(!closing && !stopped && |toWrite| > bufferConfig.txMaxSizePerElement)
      ensures var a := AccountOf(p, old(Model()), run);
              && a.own == CallSteps(p, toWrite, packetID, claims, status) && AllClaims(p, claims)
              && if status.Scheduled? then JustOne(a.accepted, toWrite, packetID) && Queued(Model(), a.accepted[0])
                 else a.accepted == []
      ensures status.QueueFull? ==> WasFull(old(Model()), run, bufferConfig.txMaxElementsInQueue)
      ensures taken == Later(turns, 0, |AccountOf(p, old(Model()), run).own| - 1)
    {
      hide Inv, Track, After, Next, WasFull, AccountOf, Accepting, CallSteps, Queued;
      ghost var start := Model();
      claims := [];
      TrackNone(p, start, turns);
      CheckOutcome(start, p, toWrite, packetID);
      taken := 0;
      run := Own(p, CheckStep(p, toWrite, packetID), turns, 0, start, []);
      if world.producers[p].Away? {
        CallStepsAre(p, toWrite, packetID, []);
        status := world.statuses[|world.statuses| - 1];
        return;
      }
      var t;
      t, run := LoadCounter(p, turns, 0, start, run);
      t, run, claims := ClaimSlot(p, turns, t, start, run);
      taken := t;
      CallStepsAre(p, toWrite, packetID, claims);
      if world.producers[p].Away? {
        return QueueFull, run, t, claims;
      }
      taken, run := PostClaim(p, turns, t, start, run);
      status := Scheduled;
    }
  }
}
