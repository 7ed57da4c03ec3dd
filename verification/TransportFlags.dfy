/** What other threads read of the lifecycle while a handler is still storing to it. */
module TransportFlags {
  import opened TransportModel
  import opened TransportInvariant
  import opened TransportSteps
  import opened TransportTheorems
  import opened TransportLaws

  /** The three atomics that asyncWrite's check and isOpen read. */
  datatype Flags = Flags(closing: bool, stopped: bool, lifecycle: Lifecycle)

  function FlagsOf(m: State): Flags { Flags(m.closing, m.stopped, m.lifecycle) }

  /** asyncWrite would get past its check. */
  predicate LetsWrite(f: Flags) { !f.closing && !f.stopped }

  /** isOpen would answer true. */
  predicate ShowsOpen(f: Flags) { f.lifecycle.Open? }

  // ----- The stores of each handler, in order: the flags after each of them -----

  function OpenStores(f: Flags, ok: bool): seq<Flags> {
    if f.closing then []
    else
      var opening := f.(stopped := true, lifecycle := Opening);
      [f.(stopped := true), opening]
      + if ok then [opening.(stopped := false), opening.(stopped := false, lifecycle := Open)]
        else [opening.(lifecycle := Faulted)]
  }

  function StopStores(f: Flags): seq<Flags> {
    [f.(stopped := true), f.(stopped := true, lifecycle := Faulted)]
  }

  function CloseStores(f: Flags): seq<Flags> {
    if f.closing then [f]
    else
      [f.(closing := true), f.(closing := true, stopped := true),
       Flags(true, true, Closing), Flags(true, true, Lifecycle.Closed)]
  }

  /** An error reaches dispatchError and is not recoverable. */
  predicate StopsAfter(m: State, ec: ErrorCode, generation: nat) {
    !Halted(m) && generation == m.generation && !ec.NoError? && !ec.NotFound?
  }

  function Stores(m: State, step: Step): seq<Flags> {
    match step
    case RunNext(ok) =>
      if m.queue == [] then []
      else if m.queue[0].OpenEvent? then OpenStores(FlagsOf(m), ok)
      else if m.queue[0].CloseEvent? then CloseStores(FlagsOf(m))
      else []
    case CompleteRead(i, ec) =>
      if i < |m.readOps| && ReadMayReport(m, m.readOps[i], ec) && StopsAfter(m, ec, m.readOps[i].generation)
      then StopStores(FlagsOf(m)) else []
    case CompleteWrite(i, ec, _) =>
      if i < |m.writeOps| && WriteMayReport(m.writeOps[i], ec) && StopsAfter(m, ec, m.writeOps[i].generation)
         && m.txDeque != []
      then StopStores(FlagsOf(m)) else []
    case _ => []
  }

  /** The stores of a step lead from the flags before it to those after it. */
  lemma StoresLeadOn(m: State, step: Step)
    ensures var stores := Stores(m, step);
            FlagsOf(Next(m, step)) == if stores == [] then FlagsOf(m) else stores[|stores| - 1]
  {
    hide Without, ReadSize, ReadMayReport, WriteMayReport, HandleRead, HandleWrite, RunEvent;
    match step
    case RunNext(ok) => if m.queue != [] { EventStores(m.(queue := m.queue[1..]), m.queue[0], ok); }
    case CompleteRead(i, ec) =>
      if i < |m.readOps| {
        ReadStores(m.(readOps := Without(m.readOps, i)), ec, ReadSize(m), m.readOps[i].generation);
      }
    case CompleteWrite(i, ec, between) =>
      if i < |m.writeOps| {
        WriteStores(m.(writeOps := Without(m.writeOps, i)), ec, m.writeOps[i].generation, between);
      }
    case _ => OtherStores(m, step);
  }

  lemma OtherStores(m: State, step: Step)
    requires !step.RunNext? && !step.CompleteRead? && !step.CompleteWrite?
    ensures FlagsOf(Next(m, step)) == FlagsOf(m)
  {
    hide HandleRead, HandleWrite, RunEvent, Halted, LiveRead, ThreadStep;
    ThreadStepOnly(m, step);
  }

  lemma EventStores(m: State, event: Event, ok: bool)
    ensures FlagsOf(RunEvent(m, event, ok))
         == match event
            case OpenEvent(_) => if m.closing then FlagsOf(m) else Flags(false, !ok, if ok then Open else Faulted)
            case CloseEvent => if m.closing then FlagsOf(m) else Flags(true, true, Lifecycle.Closed)
            case _ => FlagsOf(m)
  {
    hide Cancel;
  }

  lemma ReadStores(m: State, ec: ErrorCode, bytesRead: nat, generation: nat)
    ensures FlagsOf(HandleRead(m, ec, bytesRead, generation))
         == if StopsAfter(m, ec, generation) then Flags(m.closing, true, Faulted) else FlagsOf(m)
  {
    hide Cancel;
  }

  lemma WriteStores(m: State, ec: ErrorCode, generation: nat, between: seq<Step>)
    ensures FlagsOf(HandleWrite(m, ec, generation, between))
         == if StopsAfter(m, ec, generation) && m.txDeque != [] then Flags(m.closing, true, Faulted) else FlagsOf(m)
  {
    hide Cancel, Between;
  }

  // ----- Where isOpen and asyncWrite's check disagree -----

  /**
    * The windows: asyncWrite lets writes in before isOpen shows the new session open, and isOpen still shows
    * open when a failing or closing session already refuses them.
    */
  predicate InWindow(m: State, step: Step, k: nat) {
    match step
    case RunNext(ok) =>
      if m.queue == [] then false
      else if m.queue[0].OpenEvent? then ok && k == 2
      else m.lifecycle.Open? && k < 2
    case _ => k == 0
  }

  /**
    * After every store of every handler, isOpen and the check agree exactly outside these windows; inside, an
    * open lets writes in before it shows, and a stop and a close refuse them before they show it.
    */
  lemma AgreeOutsideWindows(m: State, step: Step, k: nat)
    requires Reachable(m) && k < |Stores(m, step)|
    ensures var f := Stores(m, step)[k];
            (LetsWrite(f) <==> ShowsOpen(f)) <==> !InWindow(m, step, k)
    ensures InWindow(m, step, k) ==> (LetsWrite(Stores(m, step)[k]) <==> Begins(m, step))
  {
    hide Reachable, Inv, ReadMayReport, WriteMayReport;
    ReachableKeepsInv(m);
    LifeOf(m);
    if step.RunNext? && m.queue[0].OpenEvent? {
      OpenMeetsNoWrite(m);
    }
  }

  /** The flags before the store number k. */
  function Before(m: State, step: Step, k: nat): Flags
    requires k < |Stores(m, step)|
  {
    if k == 0 then FlagsOf(m) else Stores(m, step)[k - 1]
  }

  predicate OneFlag(f: Flags, g: Flags) {
    || g == f.(closing := g.closing)
    || g == f.(stopped := g.stopped)
    || g == f.(lifecycle := g.lifecycle)
  }

  /**
    * Each store writes one flag. An open refuses writes from its first store to its last but one, or for good
    * if the port does not open; a close has raised closing by its first store; a stop and a close refuse writes
    * from the first store on.
    */
  lemma StoreByStore(m: State, step: Step, k: nat)
    requires Reachable(m) && k < |Stores(m, step)|
    ensures OneFlag(Before(m, step, k), Stores(m, step)[k])
    ensures var f := Stores(m, step)[k];
            && (Begins(m, step) ==> (LetsWrite(f) <==> step.openOk && k >= 2))
            && (Closes(m, step) ==> f.closing)
            && (!Begins(m, step) ==> !LetsWrite(f))
  {
    hide Reachable, Inv, ReadMayReport, WriteMayReport;
    ReachableKeepsInv(m);
    LifeOf(m);
  }

  lemma LifeOf(m: State)
    requires Inv(m)
    ensures Life(m)
  {
    hide WritesInv, ReadsOk, WritesOk, OnWire, Framed;
  }
}
