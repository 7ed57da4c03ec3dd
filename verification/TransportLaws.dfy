/** What every step does to each thing that a user, the port and the strand can tell: one law for each. */
module TransportLaws {
  import opened Sequences
  import opened Framing
  import opened Sizes
  import opened TransportModel
  import opened TransportLists
  import opened TransportInvariant
  import opened TransportSteps
  import opened TransportTheorems

  // ----- What a step is -----

  /** The strand runs this closure now. */
  predicate Runs(m: State, step: Step, event: Event) {
    step.RunNext? && m.queue != [] && m.queue[0] == event
  }

  /** An open gets past its check. */
  predicate Begins(m: State, step: Step) {
    step.RunNext? && m.queue != [] && m.queue[0].OpenEvent? && !m.closing
  }

  /** The first close runs. */
  predicate Closes(m: State, step: Step) {
    Runs(m, step, CloseEvent) && !m.closing
  }

  /** The session ends: by a close, or by an error of an operation under way. */
  predicate Shuts(m: State, step: Step) {
    Closes(m, step) || Breaks(m, step)
  }

  predicate ReadEnds(m: State, step: Step) {
    step.CompleteRead? && step.i < |m.readOps| && ReadMayReport(m, m.readOps[step.i], step.ec)
  }

  predicate WriteEnds(m: State, step: Step) {
    step.CompleteWrite? && step.i < |m.writeOps| && WriteMayReport(m.writeOps[step.i], step.ec)
  }

  // ----- The handlers of the user -----

  predicate IsSet(handlers: Handlers, kind: HandlerKind) {
    match kind
    case FrameHandler => handlers.frame
    case FatalErrorHandler => handlers.fatal
    case RecuperableErrorHandler => handlers.recuperable
    case WriteHandler => handlers.write
  }

  /** The step sets, or takes away, the handler of this kind. */
  predicate Sets(m: State, step: Step, kind: HandlerKind) {
    step.RunNext? && m.queue != [] && !m.closing && m.queue[0].SetHandlerEvent? && m.queue[0].kind == kind
  }

  /** A handler changes when it is set, before the close, and never otherwise: not at an open, not at a stop. */
  lemma HandlersLaw(m: State, step: Step, kind: HandlerKind)
    ensures IsSet(Next(m, step).handlers, kind)
         == if Sets(m, step, kind) then m.queue[0].present else IsSet(m.handlers, kind)
  {
    hide Without, ReadSize, ReadMayReport, WriteMayReport, HandleRead, HandleWrite, RunEvent;
    match step
    case RunNext(ok) => if m.queue != [] { EventHandlers(m.(queue := m.queue[1..]), m.queue[0], ok, kind); }
    case CompleteRead(i, ec) =>
      if i < |m.readOps| {
        ReadHandlers(m.(readOps := Without(m.readOps, i)), ec, ReadSize(m), m.readOps[i].generation);
      }
    case CompleteWrite(i, ec, between) =>
      if i < |m.writeOps| {
        WriteHandlers(m.(writeOps := Without(m.writeOps, i)), ec, m.writeOps[i].generation, between);
      }
    case _ => OffStrandHandlers(m, step);
  }

  lemma EventHandlers(m: State, event: Event, ok: bool, kind: HandlerKind)
    ensures IsSet(RunEvent(m, event, ok).handlers, kind)
         == if event.SetHandlerEvent? && event.kind == kind && !m.closing then event.present
            else IsSet(m.handlers, kind)
  {
    hide RunOpen, CloseOnStrand, SetHandler, RunWrite;
    match event
    case OpenEvent(config) => OpenHandlers(m, config, ok);
    case CloseEvent => CloseHandlers(m);
    case SetHandlerEvent(k, present) => SetHandlers(m, k, present, kind);
    case WriteEvent(packet) => RunWriteHandlers(m, packet);
  }

  lemma SetHandlers(m: State, k: HandlerKind, present: bool, kind: HandlerKind)
    ensures IsSet(SetHandler(m, k, present).handlers, kind)
         == if k == kind && !m.closing then present else IsSet(m.handlers, kind)
  {
  }

  lemma OpenHandlers(m: State, config: BufferConfig, ok: bool)
    ensures RunOpen(m, config, ok).handlers == m.handlers
  {
  }

  lemma CloseHandlers(m: State)
    ensures CloseOnStrand(m).handlers == m.handlers
  {
    hide Cancel;
  }

  lemma RunWriteHandlers(m: State, packet: Packet)
    ensures RunWrite(m, packet).handlers == m.handlers
  {
  }

  lemma ReadHandlers(m: State, ec: ErrorCode, bytesRead: nat, generation: nat)
    ensures HandleRead(m, ec, bytesRead, generation).handlers == m.handlers
  {
    hide Cancel;
  }

  lemma WriteHandlers(m: State, ec: ErrorCode, generation: nat, between: seq<Step>)
    ensures HandleWrite(m, ec, generation, between).handlers == m.handlers
  {
    hide Cancel, Between;
  }

  lemma OffStrandHandlers(m: State, step: Step)
    requires OffStrand(step)
    ensures Next(m, step).handlers == m.handlers
  {
    hide ThreadStep, LiveRead;
    ThreadStepOnly(m, step);
  }

  /** Some step of the run sets the handler. */
  ghost predicate SetIn(m: State, steps: seq<Step>, kind: HandlerKind) {
    exists k :: 0 <= k < |steps| && Sets(After(m, steps[..k]), steps[k], kind)
  }

  /** So a handler stays until it is set again, over every run. */
  lemma {:induction false} HandlerLasts(m: State, steps: seq<Step>, kind: HandlerKind)
    requires !SetIn(m, steps, kind)
    ensures IsSet(After(m, steps).handlers, kind) == IsSet(m.handlers, kind)
    decreases |steps|
  {
    if steps != [] {
      hide Next, Sets;
      var front := steps[..|steps| - 1];
      forall k | 0 <= k < |front| ensures !Sets(After(m, front[..k]), front[k], kind) {
        assert front[..k] == steps[..k];
      }
      HandlerLasts(m, front, kind);
      assert !Sets(After(m, steps[..|steps| - 1]), steps[|steps| - 1], kind);
      HandlersLaw(After(m, front), steps[|steps| - 1], kind);
    }
  }

  // ----- What the user is told -----

  /** The handler that a notice is for. */
  function KindOf(notice: Notice): HandlerKind {
    match notice
    case FrameNotice(_, _) => FrameHandler
    case RecoverableNotice(_, _, _) => RecuperableErrorHandler
    case FatalNotice(_, _) => FatalErrorHandler
    case WriteNotice(_, _, _) => WriteHandler
  }

  /** The notices that now holds beyond before have reached the user exactly where the handler was set. */
  ghost predicate Reach(before: seq<Notice>, now: seq<Notice>, handlers: Handlers) {
    before <= now
    && forall k :: |before| <= k < |now| ==> (now[k].called <==> IsSet(handlers, KindOf(now[k])))
  }

  /** Every notice calls the handler of its own kind exactly if that is set as the step begins. */
  lemma CalledLaw(m: State, step: Step)
    ensures Reach(Notices(m), Notices(Next(m, step)), m.handlers)
  {
    hide Without, ReadSize, ReadMayReport, WriteMayReport, HandleRead, HandleWrite, RunEvent, Notices, Reach;
    ReachSelf(m);
    match step
    case RunNext(ok) =>
      if m.queue != [] {
        NoticesOnly(m, m.(queue := m.queue[1..]));
        EventCalls(m.(queue := m.queue[1..]), m.queue[0], ok);
      }
    case CompleteRead(i, ec) =>
      if i < |m.readOps| {
        NoticesOnly(m, m.(readOps := Without(m.readOps, i)));
        ReadCalls(m.(readOps := Without(m.readOps, i)), ec, ReadSize(m), m.readOps[i].generation);
      }
    case CompleteWrite(i, ec, between) =>
      if i < |m.writeOps| {
        NoticesOnly(m, m.(writeOps := Without(m.writeOps, i)));
        WriteCalls(m.(writeOps := Without(m.writeOps, i)), ec, m.writeOps[i].generation, between);
      }
    case _ =>
      OffStrandStep(m, step);
      NoticesOnly(m, Next(m, step));
  }

  lemma ReachSelf(m: State)
    ensures Reach(Notices(m), Notices(m), m.handlers)
  {
  }

  lemma NoticesOnly(m: State, n: State)
    requires n.earlier == m.earlier && n.log == m.log
    ensures Notices(n) == Notices(m)
  {
  }

  lemma EventCalls(m: State, event: Event, ok: bool)
    ensures Reach(Notices(m), Notices(RunEvent(m, event, ok)), m.handlers)
  {
    hide Cancel;
    if event.OpenEvent? {
      EmptyRight(m.earlier + m.log);
    }
  }

  lemma ReadCalls(m: State, ec: ErrorCode, bytesRead: nat, generation: nat)
    ensures Reach(Notices(m), Notices(HandleRead(m, ec, bytesRead, generation)), m.handlers)
  {
    hide DispatchError;
    if !ec.NoError? {
      DispatchCalls(m, ec, 0);
    }
  }

  lemma WriteCalls(m: State, ec: ErrorCode, generation: nat, between: seq<Step>)
    ensures Reach(Notices(m), Notices(HandleWrite(m, ec, generation, between)), m.handlers)
  {
    hide Between, FinishWrite, Notices, Reach;
    ReachSelf(m);
    var s := m.(pendingWrites := FetchSub(m.pendingWrites));
    if !Halted(m) && generation == m.generation && m.txDeque != [] {
      NoticesOnly(m, Between(s, between));
      FinishCalls(Between(s, between), ec);
    } else {
      NoticesOnly(m, HandleWrite(m, ec, generation, between));
    }
  }

  lemma FinishCalls(m: State, ec: ErrorCode)
    requires m.txDeque != []
    ensures Reach(Notices(m), Notices(FinishWrite(m, ec)), m.handlers)
  {
    hide DispatchError, Reach, Notices;
    var result := if ec.NoError? then Written else Failed;
    var s := m.(log := m.log + [WriteNotice(result, m.txDeque[0], m.handlers.write)]);
    WriteReaches(m, result);
    if ec.NoError? {
      NoticesOnly(s, FinishWrite(m, ec));
    } else {
      DispatchCalls(s, ec, 1);
      ReachTrans(Notices(m), Notices(s), Notices(FinishWrite(m, ec)), m.handlers);
    }
  }

  lemma WriteReaches(m: State, result: WriteResult)
    requires m.txDeque != []
    ensures Reach(Notices(m), Notices(m.(log := m.log + [WriteNotice(result, m.txDeque[0], m.handlers.write)])),
                  m.handlers)
  {
  }

  lemma DispatchCalls(m: State, ec: ErrorCode, settled: nat)
    requires settled <= |m.txDeque|
    ensures Reach(Notices(m), Notices(DispatchError(m, ec, settled)), m.handlers)
  {
    hide Cancel;
  }

  lemma ReachTrans(a: seq<Notice>, b: seq<Notice>, c: seq<Notice>, handlers: Handlers)
    requires Reach(a, b, handlers) && Reach(b, c, handlers)
    ensures Reach(a, c, handlers)
  {
  }

  /** A handler that was never set is never called, over every run. */
  lemma {:induction false} UncalledUntilSet(threads: nat, steps: seq<Step>, kind: HandlerKind, k: nat)
    requires !SetIn(Init(threads), steps, kind)
    requires var told := Notices(After(Init(threads), steps)); k < |told| && KindOf(told[k]) == kind
    ensures !Notices(After(Init(threads), steps))[k].called
    decreases |steps|
  {
    hide Next, Sets, Notices;
    var m0 := Init(threads);
    if steps == [] {
      assert Notices(m0) == [] by { NothingTold(threads); }
      assert false;
    } else {
      var front, step := steps[..|steps| - 1], steps[|steps| - 1];
      forall j | 0 <= j < |front| ensures !Sets(After(m0, front[..j]), front[j], kind) {
        assert front[..j] == steps[..j];
      }
      HandlerLasts(m0, front, kind);
      NoHandlerYet(threads, kind);
      CalledLaw(After(m0, front), step);
      if k < |Notices(After(m0, front))| {
        UncalledUntilSet(threads, front, kind, k);
      }
    }
  }

  lemma NothingTold(threads: nat)
    ensures Notices(Init(threads)) == []
  {
  }

  lemma NoHandlerYet(threads: nat, kind: HandlerKind)
    ensures !IsSet(Init(threads).handlers, kind)
  {
  }

  /** One fatal error, the one that this code stands for. */
  ghost predicate OneFatal(more: seq<Notice>, ec: ErrorCode) {
    |more| == 1 && more[0].FatalNotice? && Tells(more[0].fatal, ec)
  }

  ghost predicate OneWrite(more: seq<Notice>, result: WriteResult, packet: Packet) {
    |more| == 1 && more[0].WriteNotice? && more[0].result == result && more[0].packet == packet
  }

  /** What a step has to tell. */
  ghost predicate Told(m: State, step: Step, more: seq<Notice>) {
    if step.RunNext? && m.queue != [] && m.queue[0].WriteEvent? && m.stopped then
      OneWrite(more, Cancelled, m.queue[0].packet)
    else if ReadEnds(m, step) && !m.readOps[step.i].cancelled then
      match step.ec
      case NoError =>
        && |more| == 1 && more[0].FrameNotice? && more[0].frame <= m.rxBuffer
        && EndsAtFirst(more[0].frame)
      case NotFound => |more| == 1 && more[0].RecoverableNotice? && more[0].dropped == m.rxBuffer
      case _ => OneFatal(more, step.ec)
    else if WriteEnds(m, step) && !m.writeOps[step.i].cancelled then
      if step.ec.NoError? then m.txDeque != [] && OneWrite(more, Written, m.txDeque[0])
      else |more| == 2 && m.txDeque != [] && OneWrite(more[..1], Failed, m.txDeque[0]) && OneFatal(more[1..], step.ec)
    else more == []
  }

  predicate EndsAtFirst(frame: seq<Octet>) {
    frame != [] && frame[|frame| - 1] == DELIMITER && DELIMITER !in frame[..|frame| - 1]
  }

  /** The user is told exactly this, at every step: no more, no less, in this order. */
  lemma TellsExactly(m: State, step: Step) returns (more: seq<Notice>)
    requires Reachable(m)
    ensures Told(m, step, more) && Notices(Next(m, step)) == Notices(m) + more
  {
    hide Reachable, Inv, Next, Told, Notices;
    ReachableKeepsInv(m);
    match step
    case RunNext(ok) => more := RunTells(m, ok);
    case CompleteRead(i, ec) => more := ReadTells(m, i, ec);
    case CompleteWrite(i, ec, between) => more := WriteTells(m, i, ec, between);
    case _ => more := OffStrandTells(m, step);
  }

  lemma OffStrandTells(m: State, step: Step) returns (more: seq<Notice>)
    requires OffStrand(step)
    ensures Told(m, step, more) && Notices(Next(m, step)) == Notices(m) + more
  {
    hide Next, Notices;
    OffStrandStep(m, step);
    NoticesOnly(m, Next(m, step));
    more := [];
    EmptyRight(Notices(m));
  }

  lemma RunTells(m: State, ok: bool) returns (more: seq<Notice>)
    requires Inv(m)
    ensures Told(m, RunNext(ok), more) && Notices(Next(m, RunNext(ok))) == Notices(m) + more
  {
    hide Cancel, WritesInv, ReadsOk, WritesOk, OnWire, Framed;
    more := [];
    EmptyRight(m.earlier + m.log);
    if m.queue != [] && m.queue[0].WriteEvent? && m.stopped {
      more := [WriteNotice(Cancelled, m.queue[0].packet, m.handlers.write)];
      Associate(m.earlier, m.log, more);
    }
  }

  /** What handleRead tells of a live read that reports what it may. */
  function ReadNotices(m: State, ec: ErrorCode, bytesRead: nat): seq<Notice>
    requires bytesRead <= |m.rxBuffer| && (ec.NoError? || ec.NotFound? || Spontaneous(ec))
  {
    if ec.NoError? then [FrameNotice(m.rxBuffer[..bytesRead], m.handlers.frame)]
    else if ec.NotFound? then [RecoverableNotice(RxBufferFull, m.rxBuffer, m.handlers.recuperable)]
    else [FatalNotice(ClarifyFatalError(ec).value, m.handlers.fatal)]
  }

  lemma ReadLogs(m: State, ec: ErrorCode, bytesRead: nat, generation: nat)
    requires bytesRead <= |m.rxBuffer| && (ec.NoError? || ec.NotFound? || Spontaneous(ec))
    requires !Halted(m) && generation == m.generation
    ensures Notices(HandleRead(m, ec, bytesRead, generation)) == Notices(m) + ReadNotices(m, ec, bytesRead)
  {
    hide Cancel;
    Associate(m.earlier, m.log, ReadNotices(m, ec, bytesRead));
  }

  lemma ReadIgnored(m: State, ec: ErrorCode, bytesRead: nat, generation: nat)
    requires Halted(m) || generation != m.generation
    ensures HandleRead(m, ec, bytesRead, generation) == m
  {
  }

  lemma ReadTells(m: State, i: nat, ec: ErrorCode) returns (more: seq<Notice>)
    requires Inv(m)
    ensures Told(m, CompleteRead(i, ec), more) && Notices(Next(m, CompleteRead(i, ec))) == Notices(m) + more
  {
    hide Inv, Notices, Without, ReadMayReport, HandleRead, ReadSize, EndsAtFirst;
    more := [];
    EmptyRight(Notices(m));
    if i < |m.readOps| && ReadMayReport(m, m.readOps[i], ec) {
      GuardsOfRead(m, i);
      var s := m.(readOps := Without(m.readOps, i));
      NoticesOnly(m, s);
      if m.readOps[i].cancelled {
        ReadIgnored(s, ec, ReadSize(m), m.readOps[i].generation);
      } else {
        MayReport(m, m.readOps[i], ec);
        ReadLogs(s, ec, ReadSize(m), m.readOps[i].generation);
        more := ReadNotices(s, ec, ReadSize(m));
      }
    }
  }

  lemma MayReport(m: State, op: Op, ec: ErrorCode)
    requires ReadMayReport(m, op, ec) && !op.cancelled
    ensures ec.NoError? || ec.NotFound? || Spontaneous(ec)
    ensures ReadSize(m) <= |m.rxBuffer| && (ec.NoError? ==> EndsAtFirst(m.rxBuffer[..ReadSize(m)]))
  {
    if ec.NoError? {
      assert m.rxBuffer[..ReadSize(m)][..ReadSize(m) - 1] == m.rxBuffer[..ReadSize(m) - 1];
    }
  }

  /** What handleWrite tells of a live write. */
  function WriteNotices(m: State, ec: ErrorCode): seq<Notice>
    requires m.txDeque != [] && (ec.NoError? || Spontaneous(ec))
  {
    var front := m.txDeque[0];
    if ec.NoError? then [WriteNotice(Written, front, m.handlers.write)]
    else
      [WriteNotice(Failed, front, m.handlers.write)] + [FatalNotice(ClarifyFatalError(ec).value, m.handlers.fatal)]
  }

  lemma WriteLogs(m: State, ec: ErrorCode, generation: nat, between: seq<Step>)
    requires m.txDeque != [] && (ec.NoError? || Spontaneous(ec)) && !Halted(m) && generation == m.generation
    ensures Notices(HandleWrite(m, ec, generation, between)) == Notices(m) + WriteNotices(m, ec)
  {
    hide Cancel, Between;
    Associate(m.earlier, m.log, WriteNotices(m, ec));
    if !ec.NoError? {
      Associate(m.log, [WriteNotice(Failed, m.txDeque[0], m.handlers.write)],
                [FatalNotice(ClarifyFatalError(ec).value, m.handlers.fatal)]);
    }
  }

  lemma WriteIgnored(m: State, ec: ErrorCode, generation: nat, between: seq<Step>)
    requires Halted(m) || generation != m.generation
    ensures HandleWrite(m, ec, generation, between) == m
  {
  }

  lemma WriteTells(m: State, i: nat, ec: ErrorCode, between: seq<Step>) returns (more: seq<Notice>)
    requires Inv(m)
    ensures var step := CompleteWrite(i, ec, between);
            Told(m, step, more) && Notices(Next(m, step)) == Notices(m) + more
  {
    hide Inv, Notices, Without, HandleWrite;
    more := [];
    EmptyRight(Notices(m));
    if i < |m.writeOps| && WriteMayReport(m.writeOps[i], ec) {
      GuardsOfWrite(m, i);
      var s := m.(writeOps := Without(m.writeOps, i));
      NoticesOnly(m, s);
      if m.writeOps[i].cancelled {
        WriteIgnored(s, ec, m.writeOps[i].generation, between);
      } else {
        LiveWriteFront(m, i);
        WriteLogs(s, ec, m.writeOps[i].generation, between);
        more := WriteNotices(s, ec);
      }
    }
  }

  // ----- The session -----

  /** What a step makes of the session's fields. */
  ghost predicate SessionMoves(m: State, step: Step, n: State) {
    && n.closing == (m.closing || Closes(m, step))
    && n.stopped == (if Begins(m, step) then !step.openOk else m.stopped || Shuts(m, step))
    && n.lifecycle == (if Begins(m, step) then if step.openOk then Lifecycle.Open else Faulted
                       else if Closes(m, step) then Lifecycle.Closed
                       else if Breaks(m, step) then Faulted
                       else m.lifecycle)
    && n.generation == m.generation + (if Begins(m, step) || Shuts(m, step) then 1 else 0)
    && n.session == m.session + (if Begins(m, step) then 1 else 0)
    && n.config == (if Begins(m, step) then m.queue[0].config else m.config)
    && n.cancels == m.cancels + (if Shuts(m, step) then 1 else 0)
    && n.closes == m.closes + (if Shuts(m, step) then 1 else 0)
    && n.opens == m.opens + (if Begins(m, step) && step.openOk then 1 else 0)
  }

  /**
    * A session begins with an open before the close, with its configuration, and ends with the first error of
    * an operation under way or with the close; each of these begins a new generation, and the port is cancelled
    * and closed once as a session ends. Nothing else moves any of this.
    */
  lemma SessionLaw(m: State, step: Step)
    requires Reachable(m)
    ensures SessionMoves(m, step, Next(m, step))
  {
    hide Reachable, Inv, Next, SessionMoves;
    ReachableKeepsInv(m);
    SessionStep(m, step);
  }

  lemma SessionStep(m: State, step: Step)
    requires Inv(m)
    ensures SessionMoves(m, step, Next(m, step))
  {
    hide Inv, Next, SessionMoves;
    match step
    case RunNext(ok) => RunMoves(m, ok);
    case CompleteRead(i, ec) => ReadMoves(m, i, ec);
    case CompleteWrite(i, ec, between) => WriteMoves(m, i, ec, between);
    case _ => OffStrandMoves(m, step);
  }

  lemma OffStrandMoves(m: State, step: Step)
    requires OffStrand(step)
    ensures SessionMoves(m, step, Next(m, step))
  {
    hide ThreadStep, LiveRead;
    ThreadStepOnly(m, step);
  }

  lemma RunMoves(m: State, ok: bool)
    ensures SessionMoves(m, RunNext(ok), Next(m, RunNext(ok)))
  {
    hide RunOpen, CloseOnStrand, SetHandler, RunWrite;
    if m.queue != [] {
      var rest := m.(queue := m.queue[1..]);
      match m.queue[0]
      case OpenEvent(config) => OpenBeginsSession(rest, config, ok);
      case CloseEvent => CloseEndsSession(rest);
      case SetHandlerEvent(kind, present) => SetMovesNothing(rest, kind, present);
      case WriteEvent(packet) => WriteMovesNothing(rest, packet);
    }
  }

  lemma OpenBeginsSession(m: State, config: BufferConfig, ok: bool)
    ensures var n := RunOpen(m, config, ok);
            if m.closing then SameSession(m, n)
            else
              && !n.closing && n.stopped == !ok && n.lifecycle == (if ok then Lifecycle.Open else Faulted)
              && n.generation == m.generation + 1 && n.session == m.session + 1 && n.config == config
              && n.cancels == m.cancels && n.closes == m.closes && n.opens == m.opens + (if ok then 1 else 0)
  {
  }

  lemma CloseEndsSession(m: State)
    ensures var n := CloseOnStrand(m);
            if m.closing then SameSession(m, n)
            else
              && n.closing && n.stopped && n.lifecycle == Lifecycle.Closed
              && n.generation == m.generation + 1 && n.session == m.session && n.config == m.config
              && n.cancels == m.cancels + 1 && n.closes == m.closes + 1 && n.opens == m.opens
  {
    hide Cancel;
  }

  lemma SetMovesNothing(m: State, kind: HandlerKind, present: bool)
    ensures SameSession(m, SetHandler(m, kind, present))
  {
  }

  lemma WriteMovesNothing(m: State, packet: Packet)
    ensures SameSession(m, RunWrite(m, packet))
  {
  }

  /** Between m and n no session begins or ends. */
  ghost predicate SameSession(m: State, n: State) {
    && n.closing == m.closing && n.stopped == m.stopped && n.lifecycle == m.lifecycle
    && n.generation == m.generation && n.session == m.session && n.config == m.config
    && n.cancels == m.cancels && n.closes == m.closes && n.opens == m.opens
  }

  /** Between m and n the session ends by an error. */
  ghost predicate SessionBreaks(m: State, n: State) {
    && n.closing == m.closing && n.stopped && n.lifecycle.Faulted?
    && n.generation == m.generation + 1 && n.session == m.session && n.config == m.config
    && n.cancels == m.cancels + 1 && n.closes == m.closes + 1 && n.opens == m.opens
  }

  lemma ReadEndsSession(m: State, ec: ErrorCode, bytesRead: nat, generation: nat)
    ensures var n := HandleRead(m, ec, bytesRead, generation);
            if Halted(m) || generation != m.generation || ec.NoError? || ec.NotFound? then SameSession(m, n)
            else SessionBreaks(m, n)
  {
    hide Cancel;
  }

  lemma WriteEndsSession(m: State, ec: ErrorCode, generation: nat, between: seq<Step>)
    requires generation == m.generation && !Halted(m) ==> m.txDeque != []
    ensures var n := HandleWrite(m, ec, generation, between);
            if Halted(m) || generation != m.generation || ec.NoError? || ec.NotFound? then SameSession(m, n)
            else SessionBreaks(m, n)
  {
    hide Cancel, Between;
  }

  lemma ReadMoves(m: State, i: nat, ec: ErrorCode)
    requires Inv(m)
    ensures SessionMoves(m, CompleteRead(i, ec), Next(m, CompleteRead(i, ec)))
  {
    hide Inv, Without, ReadMayReport, HandleRead, ReadSize, EndsAtFirst;
    if i < |m.readOps| && ReadMayReport(m, m.readOps[i], ec) {
      GuardsOfRead(m, i);
      ReadEndsSession(m.(readOps := Without(m.readOps, i)), ec, ReadSize(m), m.readOps[i].generation);
      if !m.readOps[i].cancelled {
        MayReport(m, m.readOps[i], ec);
      }
    }
    SpontaneousRead(m, i, ec);
  }

  lemma SpontaneousRead(m: State, i: nat, ec: ErrorCode)
    ensures i < |m.readOps| && Spontaneous(ec) ==> ReadMayReport(m, m.readOps[i], ec)
  {
  }

  lemma WriteMoves(m: State, i: nat, ec: ErrorCode, between: seq<Step>)
    requires Inv(m)
    ensures var step := CompleteWrite(i, ec, between); SessionMoves(m, step, Next(m, step))
  {
    hide Inv, Without, HandleWrite;
    if i < |m.writeOps| && WriteMayReport(m.writeOps[i], ec) {
      GuardsOfWrite(m, i);
      if !m.writeOps[i].cancelled {
        LiveWriteFront(m, i);
      }
      WriteEndsSession(m.(writeOps := Without(m.writeOps, i)), ec, m.writeOps[i].generation, between);
    }
  }

  /** Until the transport closes, each successful open but the current one has been met by one close of the port. */
  ghost predicate Balanced(m: State) {
    && m.cancels == m.closes
    && if m.closing then m.opens <= m.closes <= m.opens + 1 else m.opens == m.closes + if m.stopped then 0 else 1
  }

  /** Over every run: the port is open exactly while the transport is. */
  lemma {:induction false} PortBalance(threads: nat, steps: seq<Step>)
    requires Disciplined(Init(threads), steps)
    ensures Balanced(After(Init(threads), steps))
    decreases |steps|
  {
    if steps != [] {
      hide Next, Inv, SessionMoves, Balanced, DisciplinedStep;
      var front, step := steps[..|steps| - 1], steps[|steps| - 1];
      var m := After(Init(threads), front);
      PortBalance(threads, front);
      RunsKeepInv(threads, front);
      SessionStep(m, step);
      BeginsStopped(m, step);
      BalanceKept(m, step, Next(m, step));
    }
  }

  lemma BeginsStopped(m: State, step: Step)
    requires Inv(m)
    ensures Begins(m, step) ==> m.stopped
    ensures Breaks(m, step) ==> !m.stopped && !m.closing
    ensures m.closing ==> m.stopped
  {
    hide StrandInv, WritesInv;
    if Begins(m, step) {
      OpenMeetsNoWrite(m);
    }
    if Breaks(m, step) {
      UncancelledIsLive(m, step);
    }
    StrandFacts(m);
  }

  lemma BalanceKept(m: State, step: Step, n: State)
    requires Balanced(m) && SessionMoves(m, step, n)
    requires Begins(m, step) ==> m.stopped
    requires Breaks(m, step) ==> !m.stopped && !m.closing
    ensures Balanced(n)
  {
  }

  /** So no open meets a port that a session before it has left open. */
  lemma OpenFindsPortShut(threads: nat, steps: seq<Step>, step: Step)
    requires Disciplined(Init(threads), steps) && Begins(After(Init(threads), steps), step)
    ensures var m := After(Init(threads), steps); m.opens == m.closes
  {
    hide After, Disciplined, Inv;
    PortBalance(threads, steps);
    RunsKeepInv(threads, steps);
    BeginsStopped(After(Init(threads), steps), step);
  }

  // ----- The counter -----

  /** The counter moves by the slots claimed and given up alone, except that an open sets it to zero. */
  lemma CounterLaw(m: State, step: Step)
    requires Reachable(m)
    ensures var n := Next(m, step);
            n.pendingWrites == if Begins(m, step) then 0
                               else m.pendingWrites + |n.accepted| - |m.accepted|
                                    - if Decrements(m, step) then 1 else 0
  {
    hide Reachable, Inv, Next;
    if Decrements(m, step) {
      NoUnderflow(m, step);
      DecrementsBeginsNothing(m, step);
    } else {
      ReachableKeepsInv(m);
      match step
      case RunNext(ok) => RunCounts(m, ok);
      case CompleteRead(i, ec) => ReadCounts(m, i, ec);
      case CompleteWrite(i, ec, between) => WriteCounts(m, i, ec, between);
      case _ => OffStrandCounts(m, step);
    }
  }

  lemma DecrementsBeginsNothing(m: State, step: Step)
    requires Decrements(m, step)
    ensures !Begins(m, step)
  {
  }

  lemma OffStrandCounts(m: State, step: Step)
    requires OffStrand(step)
    ensures var n := Next(m, step); n.pendingWrites == m.pendingWrites + |n.accepted| - |m.accepted|
  {
    hide ThreadStep, LiveRead;
    ThreadStepOnly(m, step);
  }

  lemma RunCounts(m: State, ok: bool)
    requires !Decrements(m, RunNext(ok))
    ensures var n := Next(m, RunNext(ok));
            n.accepted == m.accepted && n.pendingWrites == if Begins(m, RunNext(ok)) then 0 else m.pendingWrites
  {
    hide CloseOnStrand, RunOpen;
    if m.queue != [] && m.queue[0].CloseEvent? {
      CloseCounts(m.(queue := m.queue[1..]));
    } else if m.queue != [] && m.queue[0].OpenEvent? {
      OpenCounts(m.(queue := m.queue[1..]), m.queue[0].config, ok);
    }
  }

  lemma CloseCounts(m: State)
    ensures var n := CloseOnStrand(m); n.accepted == m.accepted && n.pendingWrites == m.pendingWrites
  {
    hide Cancel;
  }

  lemma OpenCounts(m: State, config: BufferConfig, ok: bool)
    ensures var n := RunOpen(m, config, ok);
            n.accepted == m.accepted && n.pendingWrites == if m.closing then m.pendingWrites else 0
  {
  }

  lemma ReadCounts(m: State, i: nat, ec: ErrorCode)
    ensures var n := Next(m, CompleteRead(i, ec)); n.accepted == m.accepted && n.pendingWrites == m.pendingWrites
  {
    hide Cancel, Without, ReadSize, ReadMayReport;
  }

  lemma WriteCounts(m: State, i: nat, ec: ErrorCode, between: seq<Step>)
    requires Inv(m) && !Decrements(m, CompleteWrite(i, ec, between))
    ensures var n := Next(m, CompleteWrite(i, ec, between));
            n.accepted == m.accepted && n.pendingWrites == m.pendingWrites
  {
    hide Inv, Without, FinishWrite, Between;
  }

  // ----- The strand -----

  /** The closures that a step posts to the strand, in order. */
  function Posts(m: State, step: Step): seq<Event> {
    var n := Next(m, step);
    match step
    case Request(event) => if event.WriteEvent? then [] else [event]
    case RunNext(_) => []
    case _ => if |m.posted| <= |n.posted| then WriteEvents(n.posted[|m.posted|..]) else []
  }

  function WriteEvents(packets: seq<Packet>): seq<Event> {
    if packets == [] then [] else WriteEvents(packets[..|packets| - 1]) + [WriteEvent(packets[|packets| - 1])]
  }

  function RunBy(m: State, step: Step): seq<Event> {
    if step.RunNext? && m.queue != [] then [m.queue[0]] else []
  }

  /** All closures posted, and all closures run, over a run. */
  function PostedBy(m: State, steps: seq<Step>): seq<Event>
    decreases |steps|
  {
    if steps == [] then []
    else PostedBy(m, steps[..|steps| - 1]) + Posts(After(m, steps[..|steps| - 1]), steps[|steps| - 1])
  }

  function RunIn(m: State, steps: seq<Step>): seq<Event>
    decreases |steps|
  {
    if steps == [] then []
    else RunIn(m, steps[..|steps| - 1]) + RunBy(After(m, steps[..|steps| - 1]), steps[|steps| - 1])
  }

  /** One step takes the oldest closure or adds its own at the end. */
  lemma StrandStep(m: State, step: Step)
    ensures m.queue + Posts(m, step) == RunBy(m, step) + Next(m, step).queue
  {
    hide Without, ReadSize, ReadMayReport, WriteMayReport, HandleRead, HandleWrite, ThreadStep, WriteEvents, LiveRead;
    match step
    case RunNext(ok) => if m.queue != [] { EventQueue(m.(queue := m.queue[1..]), m.queue[0], ok); }
    case CompleteRead(i, ec) => CompleteReadQueue(m, i, ec);
    case CompleteWrite(i, ec, between) => CompleteWriteQueue(m, i, ec, between);
    case CheckStep(_, _, _) => ThreadQueue(m, step);
    case LoadStep(_) => ThreadQueue(m, step);
    case ClaimStep(_, _) => ThreadQueue(m, step);
    case PostStep(_) => ThreadQueue(m, step);
    case _ =>
      NoPackets();
      assert m.posted[|m.posted|..] == [];
  }

  lemma CompleteReadQueue(m: State, i: nat, ec: ErrorCode)
    ensures var step := CompleteRead(i, ec); m.queue + Posts(m, step) == Next(m, step).queue
  {
    hide Without, ReadSize, ReadMayReport, HandleRead, WriteEvents;
    NoPackets();
    assert m.posted[|m.posted|..] == [];
    if i < |m.readOps| && ReadMayReport(m, m.readOps[i], ec) {
      ReadQueue(m.(readOps := Without(m.readOps, i)), ec, ReadSize(m), m.readOps[i].generation);
    }
  }

  lemma CompleteWriteQueue(m: State, i: nat, ec: ErrorCode, between: seq<Step>)
    ensures var step := CompleteWrite(i, ec, between); m.queue + Posts(m, step) == Next(m, step).queue
  {
    hide Without, WriteMayReport, HandleWrite, WriteEvents;
    if i < |m.writeOps| && WriteMayReport(m.writeOps[i], ec) {
      WriteQueue(m.(writeOps := Without(m.writeOps, i)), ec, m.writeOps[i].generation, between);
    } else {
      NoPackets();
      assert m.posted[|m.posted|..] == [];
    }
  }

  lemma NoPackets()
    ensures WriteEvents([]) == []
  {
  }

  /** The threads have appended what they posted. */
  ghost predicate Appended(m: State, n: State) {
    m.posted <= n.posted && n.queue == m.queue + WriteEvents(n.posted[|m.posted|..])
  }

  lemma AppendedNothing(m: State, n: State)
    requires n.queue == m.queue && n.posted == m.posted
    ensures Appended(m, n)
  {
    EmptyRight(m.queue);
  }

  lemma AppendedTrans(m: State, n: State, p: State)
    requires Appended(m, n) && Appended(n, p)
    ensures Appended(m, p)
  {
    hide WriteEvents;
    var a, b := n.posted[|m.posted|..], p.posted[|n.posted|..];
    assert p.posted[|m.posted|..] == a + b;
    WriteEventsConcat(a, b);
    Associate(m.queue, WriteEvents(a), WriteEvents(b));
  }

  lemma {:induction false} WriteEventsConcat(a: seq<Packet>, b: seq<Packet>)
    ensures WriteEvents(a + b) == WriteEvents(a) + WriteEvents(b)
    decreases |b|
  {
    if b == [] {
      EmptyRight(a);
      EmptyRight(WriteEvents(a));
    } else {
      hide WriteEvents;
      var front, x := b[..|b| - 1], b[|b| - 1];
      FrontLast(b);
      WriteEventsConcat(a, front);
      Associate(a, front, [x]);
      WriteEventsSnoc(front, x);
      WriteEventsSnoc(a + front, x);
      Associate(WriteEvents(a), WriteEvents(front), [WriteEvent(x)]);
    }
  }

  lemma WriteEventsSnoc(packets: seq<Packet>, packet: Packet)
    ensures WriteEvents(packets + [packet]) == WriteEvents(packets) + [WriteEvent(packet)]
  {
    assert (packets + [packet])[..|packets|] == packets;
  }

  lemma ThreadAppends(m: State, step: Step)
    ensures Appended(m, ThreadStep(m, step))
  {
    hide Appended, Check, Load, TryClaim;
    match step
    case CheckStep(p, bytes, packetId) =>
      if p < |m.producers| { CheckOnly(m, p, bytes, packetId); CheckQueue(m, p, bytes, packetId); }
      AppendedNothing(m, ThreadStep(m, step));
    case LoadStep(p) =>
      if p < |m.producers| && m.producers[p].Checked? { LoadQueue(m, p); }
      AppendedNothing(m, ThreadStep(m, step));
    case ClaimStep(p, spurious) =>
      if p < |m.producers| && m.producers[p].Loaded? { ClaimQueue(m, p, spurious); }
      AppendedNothing(m, ThreadStep(m, step));
    case PostStep(p) =>
      if p < |m.producers| && m.producers[p].Claimed? { PostQueue(m, p); } else { AppendedNothing(m, m); }
    case _ => AppendedNothing(m, m);
  }

  lemma CheckQueue(m: State, p: nat, bytes: seq<Octet>, packetId: SizeT)
    requires p < |m.producers|
    ensures var n := Check(m, p, bytes, packetId); n.queue == m.queue && n.posted == m.posted
  {
  }

  lemma LoadQueue(m: State, p: nat)
    requires p < |m.producers| && m.producers[p].Checked?
    ensures var n := Load(m, p); n.queue == m.queue && n.posted == m.posted
  {
  }

  lemma ClaimQueue(m: State, p: nat, spurious: bool)
    requires p < |m.producers| && m.producers[p].Loaded?
    ensures var n := TryClaim(m, p, spurious); n.queue == m.queue && n.posted == m.posted
  {
  }

  lemma PostQueue(m: State, p: nat)
    requires p < |m.producers| && m.producers[p].Claimed?
    ensures Appended(m, Post(m, p))
  {
    hide WriteEvents;
    var packet := m.producers[p].packet;
    assert Post(m, p).posted[|m.posted|..] == [] + [packet];
    NoPackets();
    WriteEventsSnoc([], packet);
  }

  lemma ThreadQueue(m: State, step: Step)
    requires IsThreadStep(step)
    ensures m.queue + Posts(m, step) == RunBy(m, step) + Next(m, step).queue
  {
    hide ThreadStep, WriteEvents;
    ThreadAppends(m, step);
  }

  lemma {:induction false} BetweenAppends(m: State, steps: seq<Step>)
    ensures Appended(m, Between(m, steps))
    decreases |steps|
  {
    hide Appended, ThreadStep;
    if steps == [] {
      AppendedNothing(m, m);
    } else {
      var p := Between(m, steps[..|steps| - 1]);
      BetweenAppends(m, steps[..|steps| - 1]);
      ThreadAppends(p, steps[|steps| - 1]);
      AppendedTrans(m, p, ThreadStep(p, steps[|steps| - 1]));
    }
  }

  lemma EventQueue(m: State, event: Event, ok: bool)
    ensures RunEvent(m, event, ok).queue == m.queue
  {
    hide Cancel;
  }

  lemma ReadQueue(m: State, ec: ErrorCode, bytesRead: nat, generation: nat)
    ensures var n := HandleRead(m, ec, bytesRead, generation); n.queue == m.queue && n.posted == m.posted
  {
    hide DispatchError;
    DispatchQueue(m, ec, 0);
  }

  lemma WriteQueue(m: State, ec: ErrorCode, generation: nat, between: seq<Step>)
    ensures Appended(m, HandleWrite(m, ec, generation, between))
  {
    hide Between, Appended, FinishWrite;
    var n := HandleWrite(m, ec, generation, between);
    var s := m.(pendingWrites := FetchSub(m.pendingWrites));
    if !Halted(m) && generation == m.generation && m.txDeque != [] {
      BetweenAppends(s, between);
      FinishQueue(Between(s, between), ec);
      AppendedNothing(m, s);
      AppendedTrans(m, s, Between(s, between));
      AppendedNothing(Between(s, between), n);
      AppendedTrans(m, Between(s, between), n);
    } else {
      AppendedNothing(m, n);
    }
  }

  lemma FinishQueue(m: State, ec: ErrorCode)
    requires m.txDeque != []
    ensures var n := FinishWrite(m, ec); n.queue == m.queue && n.posted == m.posted
  {
    hide DispatchError;
    if !ec.NoError? {
      DispatchQueue(m.(log := m.log + [WriteNotice(Failed, m.txDeque[0], m.handlers.write)]), ec, 1);
    }
  }

  lemma DispatchQueue(m: State, ec: ErrorCode, settled: nat)
    requires settled <= |m.txDeque|
    ensures var n := DispatchError(m, ec, settled); n.queue == m.queue && n.posted == m.posted
  {
    hide Cancel;
  }

  /** The strand runs its closures in the order in which they were posted, each once, over every run. */
  lemma {:induction false} StrandIsFifo(m: State, steps: seq<Step>)
    ensures m.queue + PostedBy(m, steps) == RunIn(m, steps) + After(m, steps).queue
    decreases |steps|
  {
    if steps == [] {
      EmptyRight(m.queue);
    } else {
      hide Next, Posts, RunBy;
      var front, step := steps[..|steps| - 1], steps[|steps| - 1];
      var p := After(m, front);
      StrandIsFifo(m, front);
      StrandStep(p, step);
      Associate(m.queue, PostedBy(m, front), Posts(p, step));
      Associate(RunIn(m, front), p.queue, Posts(p, step));
      Associate(RunIn(m, front), RunBy(p, step), Next(p, step).queue);
    }
  }

  // ----- Operations under way -----

  /** The operations before are all still there, cancelled or as they were, and any new one is current. */
  ghost predicate Survive(before: seq<Op>, now: seq<Op>, cancel: bool, generation: nat) {
    && |before| <= |now|
    && (forall i :: 0 <= i < |before| ==> now[i] == if cancel then before[i].(cancelled := true) else before[i])
    && (forall i :: |before| <= i < |now| ==> now[i].generation == generation && !now[i].cancelled)
  }

  /** An operation ends by its completion alone; a stop and a close only cancel it. */
  lemma OperationsLaw(m: State, step: Step)
    requires Reachable(m)
    ensures var n := Next(m, step);
            Survive(if ReadEnds(m, step) then Without(m.readOps, step.i) else m.readOps, n.readOps,
                    Shuts(m, step), n.generation)
    ensures var n := Next(m, step);
            !step.Transmit? ==>
              Survive(if WriteEnds(m, step) then Without(m.writeOps, step.i) else m.writeOps, n.writeOps,
                      Shuts(m, step), n.generation)
  {
    hide Reachable, Inv, Next, Survive;
    ReachableKeepsInv(m);
    match step
    case RunNext(ok) => RunOperations(m, ok);
    case CompleteRead(i, ec) => ReadOperations(m, i, ec);
    case CompleteWrite(i, ec, between) => WriteOperations(m, i, ec, between);
    case _ => OffStrandOperations(m, step);
  }

  lemma OffStrandOperations(m: State, step: Step)
    requires OffStrand(step)
    ensures var n := Next(m, step); Survive(m.readOps, n.readOps, false, n.generation)
    ensures var n := Next(m, step); !step.Transmit? ==> Survive(m.writeOps, n.writeOps, false, n.generation)
  {
    hide ThreadStep, LiveRead;
    ThreadStepOnly(m, step);
  }

  lemma RunOperations(m: State, ok: bool)
    ensures var n := Next(m, RunNext(ok)); var shut := Closes(m, RunNext(ok));
            Survive(m.readOps, n.readOps, shut, n.generation) && Survive(m.writeOps, n.writeOps, shut, n.generation)
  {
    hide RunOpen, CloseOnStrand, SetHandler, RunWrite, Survive;
    StillThere(m.readOps, m.generation);
    StillThere(m.writeOps, m.generation);
    if m.queue != [] {
      var rest := m.(queue := m.queue[1..]);
      match m.queue[0]
      case OpenEvent(config) => OpenOperations(rest, config, ok);
      case CloseEvent => CloseOperations(rest);
      case SetHandlerEvent(kind, present) => SetOperations(rest, kind, present);
      case WriteEvent(packet) => QueueOperations(rest, packet);
    }
  }

  /** Both lists of operations survive. */
  ghost predicate BothSurvive(m: State, n: State, cancel: bool) {
    && Survive(m.readOps, n.readOps, cancel, n.generation)
    && Survive(m.writeOps, n.writeOps, cancel, n.generation)
  }

  lemma OpenOperations(m: State, config: BufferConfig, ok: bool)
    ensures BothSurvive(m, RunOpen(m, config, ok), false)
  {
  }

  lemma CloseOperations(m: State)
    ensures BothSurvive(m, CloseOnStrand(m), !m.closing)
  {
  }

  lemma SetOperations(m: State, kind: HandlerKind, present: bool)
    ensures BothSurvive(m, SetHandler(m, kind, present), false)
  {
  }

  lemma QueueOperations(m: State, packet: Packet)
    ensures BothSurvive(m, RunWrite(m, packet), false)
  {
  }

  lemma ReadKeepsOps(m: State, ec: ErrorCode, bytesRead: nat, generation: nat)
    ensures var n := HandleRead(m, ec, bytesRead, generation);
            var shut := !Halted(m) && generation == m.generation && !ec.NoError? && !ec.NotFound?;
            Survive(m.readOps, n.readOps, shut, n.generation) && Survive(m.writeOps, n.writeOps, shut, n.generation)
  {
  }

  lemma ReadOperations(m: State, i: nat, ec: ErrorCode)
    requires Inv(m)
    ensures var step := CompleteRead(i, ec); var n := Next(m, step);
            && Survive(if ReadEnds(m, step) then Without(m.readOps, i) else m.readOps, n.readOps,
                       Shuts(m, step), n.generation)
            && Survive(m.writeOps, n.writeOps, Shuts(m, step), n.generation)
  {
    hide Inv, Without, ReadMayReport, HandleRead, ReadSize, EndsAtFirst;
    if i < |m.readOps| && ReadMayReport(m, m.readOps[i], ec) {
      GuardsOfRead(m, i);
      ReadKeepsOps(m.(readOps := Without(m.readOps, i)), ec, ReadSize(m), m.readOps[i].generation);
      if !m.readOps[i].cancelled {
        MayReport(m, m.readOps[i], ec);
      }
    }
    SpontaneousRead(m, i, ec);
  }

  lemma WriteKeepsOps(m: State, ec: ErrorCode, generation: nat, between: seq<Step>)
    requires !Halted(m) && generation == m.generation ==> m.txDeque != []
    ensures var n := HandleWrite(m, ec, generation, between);
            var shut := !Halted(m) && generation == m.generation && !ec.NoError? && !ec.NotFound?;
            Survive(m.readOps, n.readOps, shut, n.generation) && Survive(m.writeOps, n.writeOps, shut, n.generation)
  {
    hide Between;
  }

  lemma WriteOperations(m: State, i: nat, ec: ErrorCode, between: seq<Step>)
    requires Inv(m)
    ensures var step := CompleteWrite(i, ec, between); var n := Next(m, step);
            && Survive(m.readOps, n.readOps, Shuts(m, step), n.generation)
            && Survive(if WriteEnds(m, step) then Without(m.writeOps, i) else m.writeOps, n.writeOps,
                       Shuts(m, step), n.generation)
  {
    hide Inv, Without, HandleWrite, Survive;
    if i < |m.writeOps| && WriteMayReport(m.writeOps[i], ec) {
      GuardsOfWrite(m, i);
      if !m.writeOps[i].cancelled {
        LiveWriteFront(m, i);
      }
      WriteKeepsOps(m.(writeOps := Without(m.writeOps, i)), ec, m.writeOps[i].generation, between);
    } else {
      StillThere(m.readOps, m.generation);
      StillThere(m.writeOps, m.generation);
    }
  }

  lemma StillThere(ops: seq<Op>, generation: nat)
    ensures Survive(ops, ops, false, generation)
  {
  }
}
