# Verified model of the transport, the frame waiter and the CRC

The repository moves delimited frames between a computer and a microcontroller. This project models three
of its parts and proves what they promise:

* **The serial transport of the API** (`api/include/SerialTransport.hpp`): producers hand writes over from
  any thread, handlers run one at a time on a strand, asynchronous reads and writes complete late, sessions
  open, fail and close.
* **The frame waiter of the firmware** (`firmware/lib/FrameWaiter/FrameWaiter.hpp`) and the loop of the
  second core around it: one producer, one consumer, a bounded ring, overflow and resynchronisation.
* **The CRC trailer of the protocol** (`protocol/src/detail/CrcCalculator.cpp`): CRC-16/CCITT-FALSE, whose
  generator is that of section 2 of ITU-T V.41, and what it detects.

## How it is built

Concurrent parts are state machines over values: one `State`, one `Step` type, a total function `Next`, and
`After` for a run. A step that cannot happen in a state changes nothing, so "every run" is "every sequence of
steps". Beside each machine stands a class that updates the source's fields in place; each of its methods is
proved to take the machine from the old state to the new one, also with other threads running between any two
shared accesses.

| files | content |
|---|---|
| `Bits`, `CrcRegister`, `Words`, `BytesUtilities` | bit strings, the shift register, machine words |
| `CrcOrder` | powers of x modulo the generator; the order of x is exactly 32767 |
| `CrcCalculator`, `CrcDetection` | the calculator's methods, the frames it makes, the errors they expose |
| `Framing`, `Sequences`, `Sizes` | streams cut by a delimiter; sequence idioms; the size type |
| `FrameWaiterModel`, `FrameWaiterTheorems`, `FrameWaiterLaws`, `FrameWaiterLimits` | the frame waiter's machine, its theorems, what each call promises, and exactly when the hypotheses are needed |
| `CoreOne`, `CoreOneLoop` | the second core around a frame waiter, and its drain loop |
| `FrameWaiter` | the class, proved against the machine under any interference |
| `TransportModel`, `TransportLists`, `TransportInvariant`, `TransportSteps` | the transport's machine and its inductive invariant |
| `TransportTheorems`, `TransportLaws`, `TransportFraming`, `TransportLimits` | its theorems, what each step does to all that can be told from outside, and why the hypotheses are needed |
| `TransportFlags`, `TransportWindow` | inside a handler: what other threads see, what they can do, and what is held meanwhile |
| `SerialTransport` | the class `Pimpl`, proved against the machine, with `asyncWrite` under interference |

`dafny verify dfyconfig.toml` checks everything.

## What is assumed

Of the transport:

* The strand is a first-in first-out queue that runs one closure or handler at a time, and a thread sees of a
  handler only `closing`, `stopped`, the counter and the configuration. Inside `asyncWrite` every shared access
  is a step of its own. Of the handlers, `handleWrite` is cut in two where it lowers the counter: its step
  carries the thread steps that fall between there and its next store, among them those of the user's callback.
  Every other handler is one step, because thread steps move out of it: `TransportWindow` proves, for a stop, a
  close, a cancelled write, a read handler, a queued write, a handler being set and an open, that the threads
  lead to the same state as if they had run before or after it (`StopMovesOut`, `CloseMovesOut`,
  `CancelMovesOut`, `ReadMovesOut`, `QueueMovesOut`, `SetMovesOut`, `OpenMovesOut`). What is held inside a
  handler is stated apart, by `HeldInWrite` and `HeldInCancel`.
* `isOpen` reads a fourth atomic, `currentState_m`, which a handler does not store at the same moment as the
  others. So `isOpen` and the check of `asyncWrite` agree between handlers, and not always inside one:
  `TransportFlags.AgreeOutsideWindows` gives the stores after which they differ, and no others.
* `async_read_until` reports a delimiter that is in the buffer, `not_found` when the buffer is full without
  one, or an error of its own. `async_write` reports success when all octets have left, or an error of its
  own, **never `not_found`**; `TransportLimits.NotFoundFromWrite` shows what would follow. Errors of their own
  are the four that `clarifyFatalError` tells apart. A cancelled operation moves no more octets and may
  complete at any later time with any code at all. The handlers themselves are modelled for every code;
  `TransportLimits.UnclassifiedError` says what a live operation with an unknown one would do.
* **The discipline on `open`**: it is requested only while stopped, with no other `open` queued and no thread
  between the check and the post of `asyncWrite`; and the receive buffer can hold something. `open` sets the
  counter to zero without draining anything, so the plain claims are false without it: `OpenWhileOpenWraps`,
  `OpenBehindOpenWraps` and `OpenPastCheckWraps` break the first three clauses one at a time, whether the port
  takes the open in question or refuses it, and `OpenConservesIff` says exactly when the counter survives.
  Without the fourth, a read can only end in a fatal error or a recoverable report of an empty block, again and
  again: `NoRoomToReceive`, and `CanReceiveIff` for the exact condition.
* `stopAfterIoError` and `closeOnStrand` clear the queue without lowering the counter and without a callback.
  While stopped the counter is therefore an upper bound, and the cleared writes are `discarded`: they get no
  outcome. The comments of the source promise an outcome for success and error alike (line 91) and say that
  writes are discarded on an I/O error (line 90); a close, which discards them too, is the case neither mentions.
  The code is followed: `ScheduledWithoutOutcome` shows it of any write `asyncWrite` accepts,
  `DiscardedExactly` says which writes each step loses, `SettledIffNotDiscarded` that exactly these stay without
  an outcome, and `NoOutcomeIff` the same of whole runs.
* `generation` is a natural number. The ring of the frame waiter is a first-in first-out queue of `size`
  octets with atomic insert and remove. `CRC::Calculate` is the bit loop the tests compare it with.

History fields (`posted`, `received`, `wire`, `accepted`, `discarded`, tickets on packets) record what
happened and are read by no handler.

## Model

| member | source | states |
|---|---|---|
| `TransportSteps.RunsKeepInv` | api/include/SerialTransport.hpp:272-611 | one invariant of lifecycle, operations, counter, order, places, bounds and framing holds after every disciplined run of any number of threads |
| `TransportSteps.NextKeepsInv` | api/include/SerialTransport.hpp:272-611 | every single step keeps that invariant |
| `TransportTheorems.Conservation` | api/include/SerialTransport.hpp:353-399 | between two handlers: while open the counter equals claimed, posted and queued writes; in every state it is at least claimed and posted |
| `TransportTheorems.NoUnderflow` | api/include/SerialTransport.hpp:378-386 | neither decrement ever meets a zero counter: the closure of a cancelled write and a live write handler lower it by exactly one, but for the slots that threads take meanwhile |
| `TransportTheorems.Backpressure` | api/include/SerialTransport.hpp:359-372 | between two handlers, however threads race: the counter within the element limit and the octets held within limit times size |
| `TransportWindow.HeldInWrite` | api/include/SerialTransport.hpp:482-500 | inside handleWrite, whatever the threads do: the counter within its limit, exactly one short of the packets held, and the octets held within limit plus one times size |
| `TransportWindow.GoesThroughWrite` | api/include/SerialTransport.hpp:471-502 | a live write handler goes through exactly the state in which the counter is lowered, the threads have done what they do, and nothing is reported or popped yet |
| `TransportWindow.HeldInWriteAttained` | api/include/SerialTransport.hpp:482-500 | that bound is attained, for every configuration with a slot and a receive buffer |
| `TransportWindow.HeldInCancel` | api/include/SerialTransport.hpp:377-386 | the same bound inside the closure of a cancelled write |
| `TransportTheorems.SessionOrder` | api/include/SerialTransport.hpp:450-502 | while open, the posted writes are the written ones, the queue and the waiting ones in that order; the wire is the written packets whole and then a prefix of the front |
| `TransportTheorems.WireIsPostedPrefix` | api/include/SerialTransport.hpp:450-515 | in every state, failed and closed ones too, what left and what was written are prefixes of what was posted |
| `TransportTheorems.OutcomePartition` | api/include/SerialTransport.hpp:353-399 | each accepted write is in exactly one of claimed, posted, queued, discarded and settled, and nothing else is in any |
| `TransportTheorems.OneOutcomeEach` | api/include/SerialTransport.hpp:482-498 | no write is reported twice, in one session or across sessions |
| `TransportTheorems.SingleOperation` | api/include/SerialTransport.hpp:401-469 | while open exactly one read is current, and a write is current iff the queue is not empty: one, of the front packet |
| `TransportTheorems.SessionIsolation` | api/include/SerialTransport.hpp:424-480 | a completion passes the guards iff its operation was not cancelled, and then belongs to this session; any other only ends its operation; the process is never terminated |
| `TransportTheorems.ErrorEndsSession` | api/include/SerialTransport.hpp:549-596 | an error of a live operation stops the transport, cancels and closes the port once, cancels all other operations, reports a failed write first and then the right fatal error once, and discards the whole queue after a read, all but its front after a write |
| `TransportLaws.HandlersLaw` | api/include/SerialTransport.hpp:317-351 | over every step: the handler of a kind is what the closure that sets this kind says, if that is what runs and the transport has not closed, and otherwise what it was: an open, a stop and a close keep all four |
| `TransportLaws.HandlerLasts` | api/include/SerialTransport.hpp:317-351 | so over every run a handler stays until it is set again |
| `TransportLaws.CalledLaw` | api/include/SerialTransport.hpp:377-386 | over every step: notices are only added, and each calls the handler of its own kind iff that is set as the step begins |
| `TransportLaws.UncalledUntilSet` | api/include/SerialTransport.hpp:441-443 | over every run from the start: while no step has set the handler of a kind, none of its notices has called |
| `TransportLaws.TellsExactly` | api/include/SerialTransport.hpp:423-502 | what the user is told by each step, in order and nothing else: Cancelled for a write run while stopped; for a live read its first frame, the block dropped or the fatal error of its code; for a live write Written, or Failed and then the fatal error |
| `TransportLaws.SessionLaw` | api/include/SerialTransport.hpp:271-315 | over every step: a session begins with an open before the close, with its configuration, and ends with an error of a live operation or with the close; lifecycle, generation, session, configuration and the calls on the port move then, as stated, and never otherwise |
| `TransportLaws.PortBalance` | api/include/SerialTransport.hpp:504-547 | over every run: until the close, the port has been closed once for each successful open but the one in force; cancels and closes go together |
| `TransportLaws.OpenFindsPortShut` | api/include/SerialTransport.hpp:292-300 | so no open meets a port that a former session has left open |
| `TransportLaws.CounterLaw` | api/include/SerialTransport.hpp:353-399 | over every step: the counter moves by the slots claimed and by the two decrements alone, except that an open sets it to zero; a stop and a close leave it |
| `TransportLaws.StrandIsFifo` | api/include/SerialTransport.hpp:375-396 | over every run: the closures waiting at first and those posted since are those run, in that order, and those waiting |
| `TransportLaws.OperationsLaw` | api/include/SerialTransport.hpp:401-469 | over every step: an operation ends by its own completion only; a stop and a close cancel all others and lose none; a new one is of the current generation |
| `TransportTheorems.DiscardedExactly` | api/include/SerialTransport.hpp:504-515 | each step discards exactly: the queue when the transport closes and when a live read fails, all but its front when a live write fails, otherwise nothing |
| `TransportTheorems.SettledIffNotDiscarded` | api/include/SerialTransport.hpp:86-93 | an accepted write that is neither claimed nor posted nor queued has an outcome iff it was not discarded |
| `TransportTheorems.DiscardedIff` | api/include/SerialTransport.hpp:504-515 | over every disciplined run from the start: a write is discarded iff some step of the run lost it |
| `TransportTheorems.NoOutcomeIff` | api/include/SerialTransport.hpp:86-93 | so after every run an accepted write that is no longer under way is without an outcome iff a close, a failed read, or a failed write before it, lost it |
| `TransportLimits.ScheduledWithoutOutcome` | api/include/SerialTransport.hpp:86-93 | for every configuration and every write it accepts, a reachable run in which asyncWrite answers Scheduled and no outcome is ever given |
| `TransportTheorems.OpenIffRunning` | api/include/SerialTransport.hpp:613-616 | between two handlers the state is Open iff the transport is neither stopped nor closing |
| `TransportFlags.StoresLeadOn` | api/include/SerialTransport.hpp:282-308 | the stores of a handler to closing, stopped and the state, in their order, lead from the flags before it to those after it |
| `TransportFlags.AgreeOutsideWindows` | api/include/SerialTransport.hpp:505-507 | after every single store isOpen and the check of asyncWrite agree, except between the two stores that open a session, after the first store of a stop, and after the first two of a close of an open transport; the first of these windows lets writes in unseen, the others refuse them while open is still shown |
| `TransportFlags.StoreByStore` | api/include/SerialTransport.hpp:505-507 | each store writes one flag; an open refuses writes up to its third store; a close raises closing first; a stop and a close refuse writes from their first store on |
| `TransportTheorems.FailedThenCancelled` | api/include/SerialTransport.hpp:482-491 | after the handler that reports Failed nothing but Cancelled follows on any continuation without a successful open |
| `TransportTheorems.CloseIsAbsorbing` | api/include/SerialTransport.hpp:529-547 | once closed, over every continuation, disciplined or not: still Closed, no second cancel or close, no report but Cancelled, and exactly the queue of that moment discarded |
| `TransportTheorems.StoppedRun` | api/include/SerialTransport.hpp:355-386 | a stopped transport stays stopped and reports only Cancelled until a successful open |
| `TransportTheorems.NoWriteSurvivesOpen` | api/include/SerialTransport.hpp:282-287 | when an open runs, no accepted write is claimed, posted or queued |
| `TransportFraming.ReceivesAsParsed` | api/include/SerialTransport.hpp:410-447 | the received stream is the delivered frames and dropped blocks joined, then the buffer; each frame ends in its only delimiter within the limit, each dropped block fills it without one |
| `TransportFraming.ChunkingIndependent` | api/include/SerialTransport.hpp:410-447 | two sessions that received the same octets, however cut, agree on all blocks as far as both have come, and on everything once both wait |
| `TransportFraming.ParseFactors` | api/include/SerialTransport.hpp:410-420 | every stream factors into well-formed blocks and a rest that makes none |
| `TransportFraming.FactorsAreUnique` | api/include/SerialTransport.hpp:410-420 | and in one way only |
| `TransportLimits.OpenConservesIff` | api/include/SerialTransport.hpp:282-287 | open keeps the counter right iff nothing is claimed and nothing is posted when it runs |
| `TransportLimits.OpenWhileOpenWraps` | api/include/SerialTransport.hpp:282-287 | from every open state with an idle strand, a free slot and an idle thread, requesting another open leads to a wrapped counter, whether the port takes it or refuses it |
| `TransportLimits.OpenBehindOpenWraps` | api/include/SerialTransport.hpp:282-287 | so does requesting one behind another that succeeds, whatever becomes of the second |
| `TransportLimits.OpenPastCheckWraps` | api/include/SerialTransport.hpp:353-399 | so does requesting one while a thread is past the check, whatever becomes of it |
| `TransportLimits.NoRoomToReceive` | api/include/SerialTransport.hpp:410-447 | with a receive buffer of size zero a read takes no octet and ends only in a fatal error or in a report of an empty block, with the next read as stuck |
| `TransportLimits.CanReceiveIff` | api/include/SerialTransport.hpp:410-420 | a read on an empty buffer can receive something iff the buffer has room |
| `TransportWindow.StopMovesOut` | api/include/SerialTransport.hpp:504-515 | thread steps after the first store of a stop lead to the same state as after the stop |
| `TransportWindow.CloseMovesOut` | api/include/SerialTransport.hpp:529-547 | so do those after the first and those after the second store of a close |
| `TransportWindow.CancelMovesOut` | api/include/SerialTransport.hpp:377-386 | so do those after a cancelled write has given up its slot |
| `TransportWindow.OpenMovesOut` | api/include/SerialTransport.hpp:282-308 | those before the store that lets writes in lead to the same state as before the open, those after it to the same as after the open |
| `TransportWindow.ReadMovesOut` | api/include/SerialTransport.hpp:423-448 | thread steps commute with a read handler that does not stop the transport |
| `TransportWindow.QueueMovesOut` | api/include/SerialTransport.hpp:388-395 | and with the queueing of a write |
| `TransportLimits.NotFoundFromWrite` | api/include/SerialTransport.hpp:484-491 | a write reporting not_found would strand the failed front packet and start a second read |
| `TransportLimits.UnclassifiedError` | api/include/SerialTransport.hpp:560-566 | a live operation reporting an unknown code would stop the transport, and terminate the process iff the fatal handler is set |
| `SerialTransport.Pimpl.constructor` | api/include/SerialTransport.hpp:265-269 | a new transport is the machine's first state |
| `SerialTransport.Pimpl.Open` | api/include/SerialTransport.hpp:271-310 | refines the machine's open, with its stores in order; throws iff not closing and the port fails |
| `SerialTransport.Pimpl.CloseOnStrand` | api/include/SerialTransport.hpp:529-547 | refines the machine's close, with its stores in order |
| `SerialTransport.Pimpl.SetHandler` | api/include/SerialTransport.hpp:317-351 | refines the machine's handler change, ignored once closing |
| `SerialTransport.Pimpl.StartRead` | api/include/SerialTransport.hpp:401-421 | starts one read of the current generation unless halted |
| `SerialTransport.Pimpl.HandleRead` | api/include/SerialTransport.hpp:423-448 | refines the machine's read handler for every error code; the user is called before the octets are erased, or after the recovery or the stop; given that a live read without error reports no more octets than are buffered |
| `SerialTransport.Pimpl.DoWrite` | api/include/SerialTransport.hpp:450-469 | starts one write of the front packet unless halted or idle |
| `SerialTransport.Pimpl.HandleWrite` | api/include/SerialTransport.hpp:471-502 | refines the machine's write handler for every error code, with any thread steps after the counter is lowered; the user is called for the write with the counter lowered and the packet in front, and for the error after the stop; given that a live write finds a queued packet |
| `SerialTransport.Pimpl.RunWrite` | api/include/SerialTransport.hpp:375-396 | refines the machine's posted closure; a cancelled write is reported after its slot is given up |
| `SerialTransport.Pimpl.StopAfterIoError` | api/include/SerialTransport.hpp:504-515 | refines the machine's stop, with its stores in order |
| `SerialTransport.Pimpl.DispatchError` | api/include/SerialTransport.hpp:549-567 | for every error code: recovered and then told, stopped and then told, or stopped and terminated; the user's handler finds the transport as it is after the recovery or the stop |
| `SerialTransport.Pimpl.RecoverFromError` | api/include/SerialTransport.hpp:607-611 | drops the buffer and reads on |
| `SerialTransport.Pimpl.CompleteRead` | api/include/SerialTransport.hpp:413-419 | whatever a read may report, its handler gets what it can take |
| `SerialTransport.Pimpl.CompleteWrite` | api/include/SerialTransport.hpp:459-468 | whatever a write may report, a live one finds its packet at the front |
| `SerialTransport.Pimpl.Perform` | api/include/SerialTransport.hpp:272-611 | any step, performed by the methods, is the machine's step with its stores in order, keeps the invariant and never terminates the process |
| `SerialTransport.Pimpl.ClaimSlot` | api/include/SerialTransport.hpp:363-372 | under any interference the loop ends in a claim of this write, or in a refusal after the counter was at its limit |
| `SerialTransport.Pimpl.AsyncWrite` | api/include/SerialTransport.hpp:353-399 | under any interference the call is a run of the machine and keeps the invariant; its own steps are one check, one load, claims and one post, as far as its status says; they accept exactly one packet, this write, posted last, if it answers Scheduled, and none otherwise; Closed and MessageTooLong iff their conditions held at the call; QueueFull only if the counter was at its limit during the call; the others take one turn before each shared access after the first |
| `SerialTransport.Pimpl.IsOpen` | api/include/SerialTransport.hpp:613-616 | true iff the last store shows Open, at any instant; between two handlers iff neither stopped nor closing, and inside one as `AgreeOutsideWindows` says |
| `FrameWaiterModel.RunsKeepInv` | firmware/lib/FrameWaiter/FrameWaiter.hpp:79-164 | the invariant of ring, flags, pending octets and losses holds over every interleaving |
| `FrameWaiterModel.LosingIff` | firmware/lib/FrameWaiter/FrameWaiter.hpp:81-92 | a loss is under way iff some octet was refused with no delimiter fed after it |
| `FrameWaiterLaws.FeedLaw` | firmware/lib/FrameWaiter/FrameWaiter.hpp:79-99 | an octet fed is skipped iff a loss is under way, refused iff none is and the ring is full, else inserted at the end; exactly a refusal raises the flag and exactly an inserted delimiter calls back; nothing of the consumer changes |
| `FrameWaiterLaws.RefusalIsReported` | firmware/lib/FrameWaiter/FrameWaiter.hpp:88-92 | once feed has returned from a refusal, no IncompleteFrame comes before an Overflow, whatever the consumer did in the middle of feed |
| `FrameWaiterLaws.CallbackPerFrame` | firmware/lib/FrameWaiter/FrameWaiter.hpp:94-98 | over every interleaving: one callback for each frame inserted, but for one about to be made, and no other |
| `FrameWaiterLaws.ResultsAreSound` | firmware/lib/FrameWaiter/FrameWaiter.hpp:108-148 | over every interleaving: no call answers NoFrame; a call writes a plain frame that fits both buffers and answers OK, or writes nothing |
| `FrameWaiterLaws.NoFalseOverflow` | firmware/lib/FrameWaiter/FrameWaiter.hpp:141-145 | over every interleaving: no more Overflow answers than flags taken, and no more of these than octets refused |
| `FrameWaiterTheorems.LossAccounting` | firmware/lib/FrameWaiter/FrameWaiter.hpp:81-92 | removed and ring are what was inserted, in order; an octet is skipped iff a refusal lies before it with no delimiter strictly between |
| `FrameWaiterTheorems.OverflowBeforeIncomplete` | firmware/lib/FrameWaiter/FrameWaiter.hpp:141-147 | once the flag is up, an IncompleteFrame is always preceded by an Overflow |
| `FrameWaiterTheorems.ExactFraming` | firmware/lib/FrameWaiter/FrameWaiter.hpp:109-148 | from any frame boundary on, until an overflow is taken, the results are the inserted frames in order, each as its call's capacity makes it |
| `FrameWaiterTheorems.ExactRemoved` | firmware/lib/FrameWaiter/FrameWaiter.hpp:109-148 | the same of the frames removed, without asking anything of octets still in the ring |
| `FrameWaiterTheorems.ExactWithoutOverflow` | firmware/lib/FrameWaiter/FrameWaiter.hpp:79-148 | without refusals and oversized frames: removed and ring are what was fed, pending is the tail after the last delimiter, results are the fed frames in order |
| `FrameWaiterTheorems.Resynchronisation` | firmware/lib/FrameWaiter/FrameWaiter.hpp:141-164 | after an overflow, once the flag is taken and one later delimiter removed, every later result is exactly the next fed frame |
| `FrameWaiterLimits.ExactIffFits` | firmware/lib/FrameWaiter/FrameWaiter.hpp:109-139 | without refusals, every interleaving that feeds a prefix of a stream gives exactly its frames, in order, iff no frame of the stream is longer than the buffer |
| `FrameWaiterLimits.FrameAfterLossIff` | firmware/lib/FrameWaiter/FrameWaiter.hpp:79-99 | in every state that keeps the invariant: the frame inserted after a loss is what the refusal at index j cut off joined to the frame fed, so it is the frame fed iff nothing was cut off |
| `FrameWaiterLimits.EveryResultHasItsFrame` | firmware/lib/FrameWaiter/FrameWaiter.hpp:109-148 | from any frame boundary until the next overflow is taken, every frame result is about some fed frame, whose delimiter was inserted |
| `FrameWaiterLimits.HandedIff` | firmware/lib/FrameWaiter/FrameWaiter.hpp:109-148 | and for that frame: what the consumer had thrown away joined to the piece handed over is what a loss had cut joined to the frame fed; an OK result is the frame fed iff as much was thrown away as had been cut |
| `FrameWaiterLimits.ResultAfterLossIff` | firmware/lib/FrameWaiter/FrameWaiter.hpp:109-164 | so also for the frame after a loss, whatever flags were taken before: OK and the frame fed iff the consumer had thrown away as much as the refusal had cut off |
| `FrameWaiterLimits.DropDiscards` | firmware/lib/FrameWaiter/FrameWaiter.hpp:132-164 | exactly which octets each Overflow and each drop after BufferTooSmall discards: all removed since the last frame handed over, the octet without room, the ring up to its first delimiter or all of it, and that delimiter; it leaves a frame boundary |
| `FrameWaiterLimits.TruncatedHeadJoinsLaterFrame` | firmware/lib/FrameWaiter/FrameWaiter.hpp:79-148 | for every size, a run in which an overflow makes the call return a frame nobody fed |
| `FrameWaiterLimits.OverflowLeavesSuffix` | firmware/lib/FrameWaiter/FrameWaiter.hpp:141-164 | for every size, a run in which a refusal cuts nothing off, the next frame is inserted as fed, and yet only its suffix is returned, because the drop ate its head |
| `FrameWaiterLimits.OverflowSwallowsFrame` | firmware/lib/FrameWaiter/FrameWaiter.hpp:141-164 | for every size, a run in which a frame inserted whole is in no result: the drop that reports the overflow takes it |
| `FrameWaiterLimits.OversizedFrameLeavesSuffix` | firmware/lib/FrameWaiter/FrameWaiter.hpp:132-136 | for every size and every plain frame, a run without refusal that answers BufferTooSmall once for each size plus one octets and then returns what is left as a frame |
| `FrameWaiterLimits.OversizedFrameLosesWakeup` | firmware/lib/Core_1/Core_1.cpp:6-32 | for every size from three on, a run in which the core sleeps beside a delivered frame after giving up on an oversized one |
| `FrameWaiterLimits.LostWakeupIff` | firmware/lib/Core_1/Core_1.cpp:6-32 | some run loses a wake-up iff the ring holds at least three octets |
| `FrameWaiter.FrameWaiter.constructor` | firmware/lib/FrameWaiter/FrameWaiter.hpp:72-77 | a new waiter is the machine's first state |
| `FrameWaiter.FrameWaiter.Feed` | firmware/lib/FrameWaiter/FrameWaiter.hpp:79-99 | refines the machine's two steps of feed; that octet has been fed |
| `FrameWaiter.FeedingFeeds` | firmware/lib/FrameWaiter/FrameWaiter.hpp:101-106 | whatever becomes of them, the octets fed by these steps are those of the range, in its order |
| `FrameWaiter.FrameWaiter.FeedRange` | firmware/lib/FrameWaiter/FrameWaiter.hpp:101-106 | feeding a range is feeding its octets one by one; exactly they have been fed, in order |
| `FrameWaiter.FrameWaiter.InsertDelimiter` | firmware/lib/FrameWaiter/FrameWaiter.hpp:150-153 | feeds the delimiter |
| `FrameWaiter.FrameWaiter.TryReadFrame` | firmware/lib/FrameWaiter/FrameWaiter.hpp:108-148 | under any interference one call is a run of the machine with one more result, which is what it returns and writes; the rest of the caller's buffer is untouched; the producer takes one turn before each shared action; a null buffer is answered BufferNullptr |
| `FrameWaiter.FrameWaiter.DropBufferUntilDelimiterOrEmpty` | firmware/lib/FrameWaiter/FrameWaiter.hpp:155-164 | under any interference it ends the call with the result its cause calls for |
| `Framing.FramesUnique` | firmware/lib/FrameWaiter/FrameWaiter.hpp:118-139 | a stream is cut into plain frames and a plain tail in one way only |
| `Framing.FramesCover` | firmware/lib/FrameWaiter/FrameWaiter.hpp:118-139 | and nothing of it is lost |
| `CoreOne.NoLostWakeup` | firmware/lib/Core_1/Core_1.cpp:6-32 | whenever the inserted frames fit the buffers, whatever was refused: while the core sleeps with no event set or on its way, the ring holds no delimiter |
| `CoreOne.MissesOnlyAfterGivingUp` | firmware/lib/Core_1/Core_1.cpp:6-32 | on any stream, the core sleeps beside a delivered frame only if its last call gave up on an oversized one |
| `CoreOne.NoLostWakeupWithoutOverflow` | firmware/lib/Core_1/Core_1.cpp:6-32 | so in particular when nothing is refused and the fed frames fit; then also removed and ring are what was fed |
| `CoreOneLoop.CallIsCoreRun` | firmware/lib/Core_1/Core_1.cpp:7 | a call of tryReadFrame with its interference is a run of the core's machine |
| `CoreOneLoop.Drain` | firmware/lib/Core_1/Core_1.cpp:7-29 | under any interference, one turn of the other core before each shared action, the inner loop leads the core to its wait and hands over exactly the frames its calls returned, in order |
| `CrcCalculator.CalculateCrc16CcittFalse` | protocol/tests/test_crc_calculator.cpp:24-44 | the nested loops compute the checksum function |
| `CrcCalculator.CrcIsFeed` | protocol/tests/test_crc_calculator.cpp:27-43 | the byte loop is the bit-serial register preset to ones |
| `CrcCalculator.CheckValue` | protocol/tests/test_crc_calculator.cpp:24-44 | the ASCII digits 1 to 9 give 0x29B1 |
| `CrcCalculator.AddCrc` | protocol/src/detail/CrcCalculator.cpp:9-27 | each error exactly when it applies; otherwise the frame at the front of the output and the rest untouched |
| `CrcCalculator.RemoveCrc` | protocol/src/detail/CrcCalculator.cpp:29-51 | each error exactly when it applies; otherwise the payload at the front of the output and the rest untouched |
| `CrcCalculator.SizesRoundTrip` | protocol/src/detail/CrcCalculator.cpp:53-63 | the two size functions undo each other iff the sum does not wrap |
| `BytesUtilities.BindSplits` | protocol/src/detail/BytesUtilities.hpp:16-42 | joining the two halves gives the word back |
| `BytesUtilities.SplitBinds` | protocol/src/detail/BytesUtilities.hpp:16-42 | splitting a joined word gives the two bytes back |
| `BytesUtilities.BoundBits` | protocol/src/detail/BytesUtilities.hpp:39-42 | big-endian order sends the word's bits in order |
| `CrcRegister.FeedXor` | protocol/tests/test_crc_calculator.cpp:30-41 | the affine law: the register of a sum is the sum of the registers |
| `CrcRegister.StepsInjective` | protocol/tests/test_crc_calculator.cpp:34-40 | zero-bit steps lose nothing |
| `CrcRegister.FeedAligned` | protocol/tests/test_crc_calculator.cpp:30-41 | up to sixteen bits act as if added before the first step |
| `CrcRegister.FeedParity` | protocol/tests/test_crc_calculator.cpp:27-43 | the register's parity is the parity of all bits that entered it |
| `CrcOrder.OrderExact` | protocol/tests/test_crc_calculator.cpp:34-40 | the powers of x return to 1 exactly at the multiples of 32767 |
| `CrcOrder.StepsIsCombine` | protocol/tests/test_crc_calculator.cpp:34-40 | n steps multiply by x to the n modulo the generator |
| `CrcDetection.FrameIsAccepted` | protocol/src/detail/CrcCalculator.cpp:40-50 | what addCRC makes, removeCRC accepts, and gives the payload back |
| `CrcDetection.AcceptedIsFrame` | protocol/src/detail/CrcCalculator.cpp:40-50 | what removeCRC accepts is the frame of its front |
| `CrcDetection.EmptyPayloadFrame` | protocol/src/detail/CrcCalculator.cpp:40-50 | the one frame without payload that removeCRC accepts is 0xFF 0xFF |
| `CrcDetection.AcceptsIffResidueClear` | protocol/src/detail/CrcCalculator.cpp:40-46 | a string is accepted iff the checksum over all of it, trailer included, is zero |
| `CrcDetection.AcceptanceOfError` | protocol/src/detail/CrcCalculator.cpp:40-46 | whether a corrupted frame passes depends on the error alone |
| `CrcDetection.AcceptedIsEven` | protocol/src/detail/CrcCalculator.cpp:40-46 | every accepted frame has even weight |
| `CrcDetection.OddErrorsAreDetected` | protocol/src/detail/CrcCalculator.cpp:40-46 | any odd number of flipped bits is rejected at any length |
| `CrcDetection.BurstsAreDetected` | protocol/src/detail/CrcCalculator.cpp:40-46 | any change within sixteen consecutive bits is rejected at any length |
| `CrcDetection.DoubleErrorsPassIff` | protocol/src/detail/CrcCalculator.cpp:40-46 | two flipped bits pass iff their distance is a multiple of 32767 |
| `CrcDetection.MinimumDistance` | protocol/src/detail/CrcCalculator.cpp:29-51 | distinct accepted frames of one length up to 4095 bytes differ in at least four bits |
| `CrcDetection.DistanceFourIff` | protocol/src/detail/CrcCalculator.cpp:29-51 | that bound is exact: the distance is at least four iff the length is at most 4095 |

## Left out

- AddCrc: asks that the input length plus two does not wrap `size_t`, which no object in memory does; that the input and the output overlap is not modelled, here and in RemoveCrc.
- HandleRead: asks that a live read without error reports no more octets than the buffer holds, as `async_read_until` promises; CompleteRead discharges it from the invariant.
- HandleWrite: asks that a live completion finds a queued packet; CompleteWrite discharges it from the invariant.
- AsyncWrite: the others take finitely many turns and the weak compare-exchange fails finitely often, so the call ends; that both may go on for ever is a matter of the scheduler. The thread's own accesses fall between two handlers here; that they may fall inside `handleWrite` is covered by the machine, whose invariant allows any thread there.
- Drain: decoding, dispatching and answering a frame are not modelled, nor is a second frame waiter; the endless outer loop appears in the core's machine only.
- TryReadFrame: the ring is a first-in first-out queue; the indices and memory orders of `ringbuffer.hpp` are not modelled.
- Opening an already open transport is covered only as the excluded case; that an old read would share the buffer is not modelled.
- Boost.Asio internals, serial port options, the lifetime of shared objects and of buffers under a pending operation, and the data race on `bufferConfig`.
- User handlers that throw; what a user handler does is a request or an asyncWrite step like any other.
- The public wrappers of `BasicSerialTransport` only post closures, which are the requests of the machine; the destructor posts a close.
- Linkage of the firmware's `static` instances: one frame waiter is shared by both cores.
- `ringbuffer.hpp`, CRC++ internals, COBS, `Frame.hpp`, `ProtocolDecoder`, `ProtocolCodec`, `ProtocolEncoder`, `GetDeviceInfoHandler`, `FrameResponder`, `UARTWrapper`, `ValidPins`, `Core_0`, `EasyLoRa` and the fake stream: hardware calls, one-branch dispatch, layouts without a parser, or empty.
