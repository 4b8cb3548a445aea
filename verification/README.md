# The libzmq engine: pipes, ownership, subscriptions, scheduling, codecs

A model of the concurrency and routing engine of libzmq 4.2.2, the messaging library that is vendored
in this repository, and proofs about it.  It covers six pieces:

* **Pipes.**  Two endpoints joined by two lock-free queues and two command channels: the termination
  handshake with its crossing requests and in-band delimiters, the replacement of a queue after a hiccup,
  and the flow control by high and low water mark.
* **Ownership.**  The tree of objects that launch, ask, terminate and acknowledge each other, with the
  sequence numbers that keep an object alive until every promised command has come.
* **Mailboxes.**  Many senders, one reader, one signaler: the wake-up protocol.
* **Subscriptions.**  The multi-trie that maps prefixes to pipes, with its growing and shrinking tables.
* **Scheduling.**  The swap-partitioned arrays of the distributor, the fair queue and the load balancer,
  and the reference counts of the messages they pass around.
* **Codecs.**  The batching of encoders and decoders (with the version 2 framing as an instance), and the
  metadata of the security handshake.

## How the files fit together

An object that updates its fields is a class (`YPipe`, `PipeT`, `OwnT`, `MailboxT`, `MTrie`, `MsgT`,
`ArrayT`, `DistT`, `RingT`, `FqT`, `LbT`, `EncoderT`, `DecoderT`, `MechanismT`).  Beside each of them stands a
`...Step` module (or, for queues and mailboxes, a datatype in the same file) with one function per operation
on plain values.  Every method is proved to change the fields of its object exactly as its function changes
the value.  The `...Run` modules, and `PipePair`, `PipeStream`, `PipeHiccup`, `PipeLinger`,
`PipeTermination`, `PipeFlow`, `PipeCredential`, `PipeAnswers`, `PipeDelivery`, `PipeGiveUp`, `PipeBalance`, `YpipeRun`, `OwnLaunch`,
`OwnTerm`, `OwnAsked`, `DistDelivery`, `FqServed`, `LbServed`, `MechanismTypes` and `MsgRefs`, prove what the source promises about these functions: over every step, every run, every history.

| Piece | Values | In place | Theorems |
|---|---|---|---|
| `ypipe.hpp` | `Ypipe` (`Queue`) | `Ypipe` | `YpipeRun`; used by `PipePair` and `MailboxRun` |
| `pipe.cpp` | `PipeStep` | `Pipe` | `PipePair` (safety), `PipeStream`, `PipeHiccup`, `PipeLinger` (delivery), `PipeAnswers`, `PipeDelivery` (what the users see), `PipeTermination`, `PipeGiveUp` (progress), `PipeFlow`, `PipeCredential`, `PipeBalance` (water marks) |
| `own.cpp`, `object.cpp` | `OwnStep` | `Own` | `OwnTree` (the system and its invariant), `OwnLaunch`, `OwnTerm`, `OwnRun`, `OwnAsked` |
| `mailbox.cpp` | `Mailbox` (`Box`) | `Mailbox` | `MailboxRun` |
| `mtrie.cpp` | `MtrieStep` | `Mtrie` | `MtrieTable`, `MtrieRelation`, `MtrieCalls`, `MtrieLevels`, `MtrieRun` |
| `msg.cpp` | `MsgStep` | `Msg` | `MsgRefs` |
| `array.hpp`, `dist.cpp` | `DistStep` | `Arrays`, `Dist` | `DistRun`, `DistDelivery` |
| `fq.cpp`, `lb.cpp` | `RingStep`, `FqStep`, `LbStep` | `Rings`, `Fq`, `Lb` | `FqRun`, `FqServed`, `FqTorn`, `LbRun`, `LbServed`, `LbTorn` |
| `encoder.hpp`, `decoder.hpp` | `EncoderStep`, `DecoderStep` | `Encoder`, `Decoder` | `EncoderRun`, `DecoderRun`, `V2Codec` |
| `mechanism.cpp` | `MechanismStep` | `Mechanism` | `MechanismRun`, `MechanismTypes` |

In the models of whole systems a failed assertion, an access to freed memory and a command sent to a freed
object are one outcome, `Fault`; the safety theorems say that no enabled step of any run reaches it.

`dafny verify dfyconfig.toml` checks the whole project.

## Where the code does less than one would expect

These are facts about the code, each proved here.

* *Hiccup and terminate can cross.*  If a hiccup reaches a side that has called terminate, the delimiter is in
  the queue that the hiccup throws away.  An endpoint that waits for that delimiter waits for ever, unless it gives up
  with terminate (false) (`PipeTermination.HiccupLosesTheDelimiter`, `PipeTermination.StuckForEver`).  That is the
  only way for termination to get stuck (`PipeTermination.FreedUnlessStuck`).
* *Credential frames are counted on one side only.*  `pipe_t::write` counts every frame that is neither
  identity nor part of a longer message (pipe.cpp:226-230), `pipe_t::read` returns credential frames without
  counting them (pipe.cpp:183-189).  The writer can stop at its high water mark and never be woken.
  It takes more than hwm - lwm credential frames for that, and so many are enough (`PipeCredential.WakeUpThreshold`).
* *A dropped identity stops the writer.*  When a hiccup makes the writer throw its queue away, it takes every
  frame that ends a message off its count, identities included, which it never counted (pipe.cpp:226-230, 285-288).  The count falls below
  what the reader reported, the unsigned comparison takes that for a full window, and nothing wakes the writer
  (`PipeBalance.IdentityStopsTheWriter`).  `PipeBalance.WriterCountsWhatIsUnread` says by how much the count is wrong in any run.
* *A termination request can be lost.*  launch_child sends plug before own (own.cpp:86-90).  A child that asks to terminate in
  between is unknown to its owner, which takes the request for one that was already granted (`OwnAsked.OvertakingRequestIsLost`).
  Every other request is granted (`OwnAsked.RequestsAreHeeded`).
* *Another pipe's termination can steal the turn.*  In the fair queue and the load balancer a pipe that
  terminates in the middle of somebody else's message can make the rest of that message go to, or come from,
  the wrong pipe: exactly when the pipe that has the turn is the last active one and is swapped to a position
  other than the first (`RingStep.TurnStays`, `FqRun.TerminatingMidMessage`, `LbRun.TerminatedIsAtomic`).  It happens
  (`FqTorn.TornMessage`, `LbTorn.TornMessage`).
* *A closed pipe can fail the fair queue's assertion.*  A pipe that its own side has terminated refuses to be read; in
  the middle of its message that fails the assertion in recvpipe (`FqRun.ClosingMidMessage`).
* *Some truncated metadata is accepted.*  A block that ends after a name, or after the length of a missing
  value, is reported as correct (`MechanismRun.TruncatedBlockIsAccepted`); `MechanismRun.AcceptedBlocks` says exactly
  which blocks are accepted.
* *rm(prefix) on an inner node* where nobody is subscribed removes nothing and still answers true
  (`MtrieRelation.InnerNodeAnswersTrue`; the exact answer is in `MtrieRelation.RmAnswer`).

## Model

| member | source | states |
|---|---|---|
| `PipePair.StepKeepsSafe` | zmq/docker/graft-zmq/zeromq-4.2.2/src/pipe.cpp:143-512 | Every step of either endpoint (any public call, any delivery) keeps the invariant of the pair and never faults: no handler assertion fails, no freed queue is touched, no command is sent to a freed endpoint. |
| `PipePair.RunIsSafe` | zmq/docker/graft-zmq/zeromq-4.2.2/src/pipe.cpp:41-75 | Every state of every run from pipepair satisfies the invariant: shapes of the channels, last words, and each queue owned at exactly one place. |
| `PipePair.PipesAreSafe` | zmq/docker/graft-zmq/zeromq-4.2.2/src/pipe.cpp:277-447 | In every state of every run, with terminate, read, write, flush and hiccup interleaved at will: every enabled step succeeds; a pipe_term_ack is the last command of its sender and so is sent at most once; whoever is freed has sent one and got one; when both are freed every queue has been freed and no command is left. |
| `PipePair.CallMoves` | zmq/docker/graft-zmq/zeromq-4.2.2/src/pipe.cpp:169-475 | A public call sends at most one wake-up, or pipe_term (possibly followed by one activate_read), or one pipe_term_ack together with giving up the outpipe; and nothing else. |
| `PipePair.TermIsExpected` | zmq/docker/graft-zmq/zeromq-4.2.2/src/pipe.cpp:302-320 | Whoever has a pipe_term under way to it is in a state in which process_pipe_term does not assert. |
| `PipePair.AckIsExpected` | zmq/docker/graft-zmq/zeromq-4.2.2/src/pipe.cpp:343-360 | A pipe_term_ack arrives in one of the three states the assertion names, is the only command left, and meets term_req_sent1 exactly when the receiver still owes its own acknowledgement. |
| `PipePair.HiccupIsExpected` | zmq/docker/graft-zmq/zeromq-4.2.2/src/pipe.cpp:277-300 | When a hiccup arrives the receiver still has an outpipe and the new queue is allocated. |
| `PipePair.PopAck` | zmq/docker/graft-zmq/zeromq-4.2.2/src/pipe.cpp:343-378 | The last delivery frees one endpoint and one queue; the remaining queue stays owned by exactly one chain, and an acknowledgement sent on the way finds the peer alive. |
| `PipePair.HiccupKeepsSafe` | zmq/docker/graft-zmq/zeromq-4.2.2/src/pipe.cpp:491-512 | hiccup puts a new queue at the end of the chain of queues between the two endpoints and reaches a peer that is alive. |
| `PipePair.FlipRun` | zmq/docker/graft-zmq/zeromq-4.2.2/src/pipe.cpp:41-75 | Mirroring a run is a run: what is proved of one endpoint holds of the other. |
| `PipeStream.DelimiterIsLast` | zmq/docker/graft-zmq/zeromq-4.2.2/src/pipe.cpp:432-446 | When the reader meets the delimiter it has consumed exactly the complete messages of the writer, nothing is behind the delimiter, and the writer is terminating. |
| `PipeStream.ReadKeepsStream` | zmq/docker/graft-zmq/zeromq-4.2.2/src/pipe.cpp:169-204 | read passes frames on in order, including the frames it swallows itself. |
| `PipeStream.TerminateKeepsStream` | zmq/docker/graft-zmq/zeromq-4.2.2/src/pipe.cpp:390-447 | terminate takes back the unfinished message, appends one delimiter and publishes both with a wake-up if the reader sleeps. |
| `PipeStream.ReaderStep` | zmq/docker/graft-zmq/zeromq-4.2.2/src/pipe.cpp:143-204 | Every step of the reader (no hiccup) keeps: consumed plus queued frames are the written frames, and an inactive reader with published frames is owed an activate_read. |
| `PipeStream.WriterStep` | zmq/docker/graft-zmq/zeromq-4.2.2/src/pipe.cpp:206-256 | Every step of the writer, including its hiccup, keeps the same invariant of the stream it writes. |
| `PipeLinger.MessagesArriveInOrder` | zmq/docker/graft-zmq/zeromq-4.2.2/src/pipe.cpp:169-204 | At every moment of a run in which the reader does not call hiccup, what it has consumed is a prefix of what the writer completed. |
| `PipeLinger.LingeringDelivery` | zmq/docker/graft-zmq/zeromq-4.2.2/src/pipe.cpp:235-256 | If the reader calls neither terminate, set_nodelay nor hiccup, then when it has sent its pipe_term_ack it has consumed, in order, exactly the complete messages its peer wrote, then the delimiter, and no frame of an unfinished message. |
| `PipeLinger.RunLingers` | zmq/docker/graft-zmq/zeromq-4.2.2/src/pipe.cpp:477-489 | In every state of such a run: the delay flag is set, the endpoint has not asked for termination, and if it has acknowledged it has consumed everything its peer completed. |
| `PipeFlow.HighWaterMarkBounds` | zmq/docker/graft-zmq/zeromq-4.2.2/src/pipe.cpp:206-233 | For every run with a positive water mark and no hiccup by the reader: messages written minus messages read is between 0 and the high water mark, and equals the unread messages plus the credential frames that were skipped. |
| `PipeFlow.StoppedWriterIsOwedAWakeUp` | zmq/docker/graft-zmq/zeromq-4.2.2/src/pipe.cpp:197-219 | An active writer that stopped at the mark is owed an activate_write, or at least hwm - lwm + 1 complete messages (less the skipped credential frames) are unread; lwm is (hwm + 1) / 2. |
| `PipeFlow.ReadConsumes` | zmq/docker/graft-zmq/zeromq-4.2.2/src/pipe.cpp:192-203 | read adds at most one to its count, reports nothing but that count, and reports it whenever it reaches a multiple of lwm. |
| `PipeFlow.ReaderKeepsWindow` | zmq/docker/graft-zmq/zeromq-4.2.2/src/pipe.cpp:192-203 | Consumption and reports keep the window: the last report under way is the count rounded down to a multiple of lwm. |
| `PipeFlow.CallKeepsWindow` | zmq/docker/graft-zmq/zeromq-4.2.2/src/pipe.cpp:206-256 | No call of the writer, unfinished messages and rollback included, pushes it over the mark. |
| `PipeFlow.NoWrap` | zmq/docker/graft-zmq/zeromq-4.2.2/src/pipe.cpp:536-540 | Inside the window the unsigned comparison of check_hwm decides exactly whether there is room. |
| `Pipe.PipeT.CheckRead` | zmq/docker/graft-zmq/zeromq-4.2.2/src/pipe.cpp:143-167 | check_read on the fields and the queue: refuses outside active and waiting_for_delimiter, goes to sleep on an empty queue, consumes a delimiter at the head. |
| `Pipe.PipeT.Read` | zmq/docker/graft-zmq/zeromq-4.2.2/src/pipe.cpp:169-204 | read: skips credential frames, handles the delimiter, counts finished messages and reports at the low water mark. |
| `Pipe.PipeT.CheckWrite` | zmq/docker/graft-zmq/zeromq-4.2.2/src/pipe.cpp:206-219 | check_write: stops the writer at the high water mark. |
| `Pipe.PipeT.Write` | zmq/docker/graft-zmq/zeromq-4.2.2/src/pipe.cpp:221-233 | write: refuses when stopped, otherwise appends and counts. |
| `Pipe.PipeT.Rollback` | zmq/docker/graft-zmq/zeromq-4.2.2/src/pipe.cpp:235-246 | rollback: takes back exactly the frames of the unfinished message; its assertion holds. |
| `Pipe.PipeT.Flush` | zmq/docker/graft-zmq/zeromq-4.2.2/src/pipe.cpp:248-256 | flush: publishes, and wakes the peer exactly if it slept. |
| `Pipe.PipeT.Terminate` | zmq/docker/graft-zmq/zeromq-4.2.2/src/pipe.cpp:390-447 | terminate: all six states, the rollback, the delimiter and the flush. |
| `Pipe.PipeT.ProcessActivateRead` | zmq/docker/graft-zmq/zeromq-4.2.2/src/pipe.cpp:258-264 | process_activate_read in place. |
| `Pipe.PipeT.ProcessActivateWrite` | zmq/docker/graft-zmq/zeromq-4.2.2/src/pipe.cpp:266-275 | process_activate_write in place. |
| `Pipe.PipeT.ProcessPipeTerm` | zmq/docker/graft-zmq/zeromq-4.2.2/src/pipe.cpp:302-341 | process_pipe_term in place, for the states it accepts. |
| `Pipe.PipeT.ProcessPipeTermAck` | zmq/docker/graft-zmq/zeromq-4.2.2/src/pipe.cpp:343-378 | process_pipe_term_ack in place: acknowledges if still asked to, drains and frees. |
| `Pipe.PipeT.ProcessDelimiter` | zmq/docker/graft-zmq/zeromq-4.2.2/src/pipe.cpp:477-489 | process_delimiter in place. |
| `Pipe.PipeT.Drain` | zmq/docker/graft-zmq/zeromq-4.2.2/src/pipe.cpp:285-291 | The loop of process_hiccup empties the old queue and counts the frames that end a message. |
| `Pipe.PipeT.ProcessHiccup` | zmq/docker/graft-zmq/zeromq-4.2.2/src/pipe.cpp:277-300 | process_hiccup in place: flushes and drains the old queue, takes back its messages from the count, plugs in the new one. |
| `Pipe.PipeT.Hiccup` | zmq/docker/graft-zmq/zeromq-4.2.2/src/pipe.cpp:491-512 | hiccup in place: a new queue, announced to the peer; nothing outside active. |
| `Ypipe.YPipe.Write` | zmq/docker/graft-zmq/zeromq-4.2.2/src/ypipe.hpp:82-92 | Appends to the tail; a complete value completes everything before it. |
| `Ypipe.YPipe.Unwrite` | zmq/docker/graft-zmq/zeromq-4.2.2/src/ypipe.hpp:99-107 | Takes back the last value of the unfinished tail, and only that. |
| `Ypipe.YPipe.Flush` | zmq/docker/graft-zmq/zeromq-4.2.2/src/ypipe.hpp:111-134 | Publishes what is complete; false exactly if it published something to a sleeping reader. |
| `Ypipe.YPipe.CheckRead` | zmq/docker/graft-zmq/zeromq-4.2.2/src/ypipe.hpp:137-158 | True exactly if a published value is left; otherwise the reader falls asleep. |
| `Ypipe.YPipe.Read` | zmq/docker/graft-zmq/zeromq-4.2.2/src/ypipe.hpp:162-173 | Hands out the oldest published value; otherwise the reader falls asleep. |
| `Pipe.PipeT.constructor` | zmq/docker/graft-zmq/zeromq-4.2.2/src/pipe.cpp:77-98 | A new endpoint: active, both directions open, low water mark from the inbound mark, high water mark from the outbound one. |
| `Pipe.PipeT.CloseOut` | zmq/docker/graft-zmq/zeromq-4.2.2/src/pipe.cpp:432-446 | The end of terminate: stops writing, rolls back, writes the delimiter and flushes. |
| `Pipe.PipeT.StartTerminate` | zmq/docker/graft-zmq/zeromq-4.2.2/src/pipe.cpp:404-425 | The transitions of terminate; its last assertion is never reached. |
| `PipePair.FreshIsSafe` | zmq/docker/graft-zmq/zeromq-4.2.2/src/pipe.cpp:41-75 | pipepair establishes the invariant. |
| `PipePair.TerminateMoves` | zmq/docker/graft-zmq/zeromq-4.2.2/src/pipe.cpp:390-447 | terminate makes at most one of: nothing, a request with an optional wake-up, an acknowledgement. |
| `PipePair.ReadMoves` | zmq/docker/graft-zmq/zeromq-4.2.2/src/pipe.cpp:169-204 | read sends at most one activate_write, or acknowledges at the delimiter. |
| `PipePair.PopTerm` | zmq/docker/graft-zmq/zeromq-4.2.2/src/pipe.cpp:302-341 | Receiving pipe_term: either waits for the delimiter or acknowledges to a living peer. |
| `PipePair.PopHiccup` | zmq/docker/graft-zmq/zeromq-4.2.2/src/pipe.cpp:277-300 | Receiving hiccup: the oldest queue of the chain is freed and the next one takes its place. |
| `PipeStream.FlushKeepsStream` | zmq/docker/graft-zmq/zeromq-4.2.2/src/pipe.cpp:248-256 | flush wakes the reader exactly when that is needed for the invariant of the stream. |
| `PipeStream.WriteKeepsStream` | zmq/docker/graft-zmq/zeromq-4.2.2/src/pipe.cpp:221-233 | write appends behind everything written before. |
| `PipeFlow.WriteKeepsWindow` | zmq/docker/graft-zmq/zeromq-4.2.2/src/pipe.cpp:221-233 | A write that is not refused stays within the mark. |
| `PipeFlow.StepInWindow` | zmq/docker/graft-zmq/zeromq-4.2.2/src/pipe.cpp:143-475 | Every step of either side, except a hiccup by the reader, keeps the window. |
| `Ypipe.YPipe.Front` | zmq/docker/graft-zmq/zeromq-4.2.2/src/ypipe.hpp:178-183 | Looking at the oldest published value takes nothing away. |
| `PipeHiccup.ReaderFlows` | zmq/docker/graft-zmq/zeromq-4.2.2/src/pipe.cpp:143-512 | Every step of the reader, hiccup included, keeps: its stream is whole, or cut, in which case its queue is empty and it has seen no delimiter. |
| `PipeHiccup.WriterFlows` | zmq/docker/graft-zmq/zeromq-4.2.2/src/pipe.cpp:143-512 | Every step of the writer keeps the same of the stream it writes. |
| `PipeHiccup.TakenFlows` | zmq/docker/graft-zmq/zeromq-4.2.2/src/pipe.cpp:277-300 | Taking the last hiccup under way starts a new stream, unless the writer terminated before: then the stream stays cut. |
| `PipeHiccup.OncePerChain` | zmq/docker/graft-zmq/zeromq-4.2.2/src/pipe.cpp:491-512 | However many hiccups are under way, no queue is in the chain between the two endpoints twice. |
| `PipeTermination.RunTellsLost` | zmq/docker/graft-zmq/zeromq-4.2.2/src/pipe.cpp:390-447 | In every run: an endpoint has sent pipe_term only if it called terminate, and its delimiter is lost exactly if it took a hiccup after that call. |
| `PipeTermination.WaitingHasMore` | zmq/docker/graft-zmq/zeromq-4.2.2/src/pipe.cpp:302-341 | An endpoint in waiting_for_delimiter whose stream is not cut has a published frame to read, and is active or owed an activate_read. |
| `PipeTermination.FreedUnlessStuck` | zmq/docker/graft-zmq/zeromq-4.2.2/src/pipe.cpp:302-378 | Any run, with any hiccups: once somebody left active, if no command is under way and no waiting endpoint can read on, then both endpoints are freed if and only if no unfreed endpoint waits for the delimiter of a peer that took a hiccup after its own terminate; and then no queue is left. |
| `PipeTermination.TerminationIsNotStuck` | zmq/docker/graft-zmq/zeromq-4.2.2/src/pipe.cpp:302-378 | If no hiccup is taken after the taker called terminate, such a pair is freed, whatever other hiccups there were. |
| `PipeTermination.StuckForEver` | zmq/docker/graft-zmq/zeromq-4.2.2/src/pipe.cpp:412-419 | An endpoint that waits for a lost delimiter waits in every later state of the run, unless it itself calls terminate (false). |
| `PipeTermination.NoHiccupIsNotLate` | zmq/docker/graft-zmq/zeromq-4.2.2/src/pipe.cpp:491-512 | If one side never calls hiccup then the other never takes one late. |
| `PipeTermination.HiccupLosesTheDelimiter` | zmq/docker/graft-zmq/zeromq-4.2.2/src/pipe.cpp:277-300 | The stuck state is reached: a concrete run of four steps. |
| `PipeFlow.NoLostWakeUp` | zmq/docker/graft-zmq/zeromq-4.2.2/src/pipe.cpp:258-275 | Without credential frames, a stopped active writer has an activate_write under way, or at least hwm - lwm + 1 >= 1 messages it wrote, flushed or not, were not read. |
| `PipeFlow.ReadingReports` | zmq/docker/graft-zmq/zeromq-4.2.2/src/pipe.cpp:169-204 | From any state that can read: reads that take lwm - msgs_read % lwm messages send an activate_write. |
| `PipeFlow.ReadingOnWakes` | zmq/docker/graft-zmq/zeromq-4.2.2/src/pipe.cpp:192-203 | Without credential frames and with everything flushed, a stopped active writer is woken by reading on: an activate_write is under way, or lwm - msgs_read % lwm of the messages in the queue, and so all of them, make the reader send one. |
| `PipeCredential.WakeUpThreshold` | zmq/docker/graft-zmq/zeromq-4.2.2/src/pipe.cpp:183-230 | The exact threshold, for every mark and every k: no run of a writer that wrote at most k credential frames ends with the writer stopped, no activate_write under way and nothing unread, if and only if k <= hwm - lwm. |
| `PipeCredential.CredentialsLoseTheWakeUp` | zmq/docker/graft-zmq/zeromq-4.2.2/src/pipe.cpp:183-189 | For every mark, a run that gets there with hwm - lwm + 1 credential frames and lwm - 1 messages, both channels empty. |
| `PipeCredential.FewDoNotStarve` | zmq/docker/graft-zmq/zeromq-4.2.2/src/pipe.cpp:197-219 | The other half: a starved writer wrote more than hwm - lwm credential frames. |
| `PipeCredential.RunMark` | zmq/docker/graft-zmq/zeromq-4.2.2/src/pipe.cpp:77-98 | No step changes a high water mark. |
| `YpipeRun.CallsAreLinearizable` | zmq/docker/graft-zmq/zeromq-4.2.2/src/ypipe.hpp:82-173 | A writer and a reader thread interleaved at every access to the shared pointer, also between the failed swap of a flush and the store that follows it: the finished calls with their results are a history of the sequential queue. |
| `YpipeRun.StepIsACall` | zmq/docker/graft-zmq/zeromq-4.2.2/src/ypipe.hpp:111-158 | Every step of either thread is one call on the queue with its result, or the first half of a failing flush, which changes nothing. |
| `PipeAnswers.ReadsReturnWhatWasWritten` | zmq/docker/graft-zmq/zeromq-4.2.2/src/pipe.cpp:169-233 | From user to user, in every run, hiccups included: what the reads of one side returned since its last hiccup is, in order, a beginning of the messages that the other side's accepted writes completed (rollback and terminate take back an unfinished one); while a hiccup is under way, or if it crossed terminate, reads return nothing. |
| `PipeAnswers.PatientUserGetsEverything` | zmq/docker/graft-zmq/zeromq-4.2.2/src/pipe.cpp:302-341 | A user that calls neither terminate, set_nodelay nor hiccup: when its endpoint acknowledges, its reads have returned exactly the messages that the accepted writes of the peer completed. |
| `PipeAnswers.ReadsReturnWhatTheyConsume` | zmq/docker/graft-zmq/zeromq-4.2.2/src/pipe.cpp:169-204 | In every run the frames returned by read, in order, are the frames consumed, without credentials and delimiters. |
| `PipeAnswers.WritesKeepWhatTheyAccept` | zmq/docker/graft-zmq/zeromq-4.2.2/src/pipe.cpp:221-246 | In every run the complete messages of the outpipe are what the writes that answered true completed, less what was taken back. |
| `PipeAnswers.ReadAnswers` | zmq/docker/graft-zmq/zeromq-4.2.2/src/pipe.cpp:169-204 | The answer of read: with k credentials in front, the frame behind them, having consumed exactly those k + 1 frames; false exactly if the delimiter is behind them, or if nothing is, and then all of it was consumed and the endpoint sleeps. |
| `PipeAnswers.CheckReadForetells` | zmq/docker/graft-zmq/zeromq-4.2.2/src/pipe.cpp:143-167 | Where check_read answers false, read in its place answers false and leaves the same state; where read would return a frame, check_read answers true and changes nothing; and if it answers true and the next frame is no credential, read returns that frame. |
| `PipeAnswers.WriteAnswers` | zmq/docker/graft-zmq/zeromq-4.2.2/src/pipe.cpp:206-233 | write answers true exactly if the frame is behind everything else in the outpipe; otherwise nothing changed, and an active endpoint has stopped. |
| `PipeDelivery.FlushedIsReceived` | zmq/docker/graft-zmq/zeromq-4.2.2/src/pipe.cpp:248-256 | After a flush in any run: what the other side's reads returned so far and what they return if it goes on reading is everything that accepted writes completed; a reader that sleeps has its wake-up under way. |
| `PipeDelivery.ReadingOnGetsEverything` | zmq/docker/graft-zmq/zeromq-4.2.2/src/pipe.cpp:169-204 | As many reads as there are published frames return all of them up to the delimiter, without the credentials. |
| `PipeDelivery.WritesAreAccepted` | zmq/docker/graft-zmq/zeromq-4.2.2/src/pipe.cpp:206-219 | Which writes are accepted, in runs: without a mark exactly those of an active endpoint; with one, if the peer calls no hiccup, exactly those of an active endpoint that did not stop and has written less than the mark beyond what it knows to be read. |
| `PipeDelivery.FramesReport` | zmq/docker/graft-zmq/zeromq-4.2.2/src/pipe.cpp:192-203 | read counts the frame it returns if that ends a message and is no identity, and reports the count exactly if it returned a frame and the count is a multiple of lwm. |
| `PipeDelivery.LwmIsHalf` | zmq/docker/graft-zmq/zeromq-4.2.2/src/pipe.cpp:454-475 | The low mark is half the high mark rounded up, equal to it only for a mark of one, and not positive for an unlimited pipe. |
| `PipeDelivery.MarksAreTheUsers` | zmq/docker/graft-zmq/zeromq-4.2.2/src/pipe.cpp:63-66 | In every state of every run each endpoint is limited by the mark that pipepair was given for it. |
| `PipeGiveUp.GivingUpFreesThePair` | zmq/docker/graft-zmq/zeromq-4.2.2/src/pipe.cpp:412-416 | An endpoint that calls terminate (false) while it waits for the delimiter gives up its outpipe and has acknowledged in every later state; whenever no command is under way then, both endpoints and all queues are freed, however much is unread. |
| `PipeGiveUp.AcknowledgedIsFreed` | zmq/docker/graft-zmq/zeromq-4.2.2/src/pipe.cpp:343-378 | Once one endpoint has acknowledged, a pair with no command under way is a pair of freed endpoints. |
| `PipeGiveUp.DelayIsTheLastWish` | zmq/docker/graft-zmq/zeromq-4.2.2/src/pipe.cpp:385-393 | In every run the delay flag is what set_nodelay and terminate said last, and true before. |
| `PipeGiveUp.NobodyWaitsAgainstItsWish` | zmq/docker/graft-zmq/zeromq-4.2.2/src/pipe.cpp:317-327 | In every run an endpoint that waits for the delimiter although its user does not want to linger was waiting already when the user called set_nodelay. |
| `PipeGiveUp.TermIsAcknowledged` | zmq/docker/graft-zmq/zeromq-4.2.2/src/pipe.cpp:302-341 | In every run pipe_term is acknowledged at its delivery, exactly unless it finds the endpoint active and its user wanting to linger; then the endpoint waits. |
| `PipeBalance.WriterCountsWhatIsUnread` | zmq/docker/graft-zmq/zeromq-4.2.2/src/pipe.cpp:277-291 | In every run, hiccups included: the writer is ahead of the reader's count by the counted messages still in its outpipe, plus the credentials that reads skipped, minus the identities and delimiters that hiccups dropped. |
| `PipeBalance.HiccupStartsAfresh` | zmq/docker/graft-zmq/zeromq-4.2.2/src/pipe.cpp:277-296 | Right after a taken hiccup nothing is left but these two errors, and the writer may try again. |
| `PipeBalance.EndsAreCountedOrNot` | zmq/docker/graft-zmq/zeromq-4.2.2/src/pipe.cpp:285-291 | What process_hiccup takes off the count is what write counted of the dropped frames, plus their identities and delimiters. |
| `PipeBalance.AcceptsAfterHiccup` | zmq/docker/graft-zmq/zeromq-4.2.2/src/pipe.cpp:206-219 | Right after a taken hiccup, and while the counters are in range, an active writer with a mark may write if and only if the reader's count plus the skipped credentials minus the miscounted frames lies between the last report and less than the mark above it. |
| `PipeBalance.UnsignedRoom` | zmq/docker/graft-zmq/zeromq-4.2.2/src/pipe.cpp:536-540 | The unsigned comparison leaves room exactly if the count is not below what the reader reported and less than the mark above it. |
| `PipeBalance.IdentityStopsTheWriter` | zmq/docker/graft-zmq/zeromq-4.2.2/src/pipe.cpp:285-291 | For every mark, a run of four steps in which one dropped identity stops an active writer with nothing unread and nothing under way. |
| `OwnRun.StepKeepsGood` | zmq/docker/graft-zmq/zeromq-4.2.2/src/own.cpp:66-216 | Every step of an unbounded tree (launch, terminate, term_child, inc_seqnum, register and unregister of acks, every delivery) keeps the invariant and faults never: no assertion fails, nothing is sent to a destroyed object. |
| `OwnRun.RunIsGood` | zmq/docker/graft-zmq/zeromq-4.2.2/src/own.cpp:35-58 | Every state of every run from the empty tree satisfies the invariant that ties term_acks and the sequence numbers to children and commands under way. |
| `OwnRun.TreesAreSafe` | zmq/docker/graft-zmq/zeromq-4.2.2/src/own.cpp:194-210 | In every state of every run: every enabled step succeeds; a destroyed object has processed every command counted for it, owns nothing, has no command under way or promised; its children are all destroyed and have acknowledged. |
| `OwnRun.TermOnce` | zmq/docker/graft-zmq/zeromq-4.2.2/src/own.cpp:158-173 | In every run an object runs process_term at most once. |
| `OwnRun.TerminatingIsDestroyed` | zmq/docker/graft-zmq/zeromq-4.2.2/src/own.cpp:158-210 | With no command under way or promised and no extra registered acks, whatever is terminating is destroyed; by induction on the part of the tree below it. |
| `OwnRun.ShutdownCompletes` | zmq/docker/graft-zmq/zeromq-4.2.2/src/own.cpp:135-173 | In every such state of every run, if the root is terminating then every object under it is destroyed: shutdown has no deadlock. |
| `OwnTree.DestroyedIsQuiet` | zmq/docker/graft-zmq/zeromq-4.2.2/src/own.cpp:194-210 | What the invariant says of a destroyed object and its children. |
| `OwnLaunch.LaunchKeepsGood` | zmq/docker/graft-zmq/zeromq-4.2.2/src/own.cpp:81-91 | launch_child: the plug and own commands are counted before they are sent. |
| `OwnLaunch.LateChild` | zmq/docker/graft-zmq/zeromq-4.2.2/src/own.cpp:121-133 | An own command that arrives while its receiver is terminating: the child is asked to terminate and waited for. |
| `OwnLaunch.TermReqKeepsGood` | zmq/docker/graft-zmq/zeromq-4.2.2/src/own.cpp:98-119 | process_term_req: a child that is already gone or asked is not asked again. |
| `OwnTerm.TermKeepsGood` | zmq/docker/graft-zmq/zeromq-4.2.2/src/own.cpp:158-173 | process_term: every owned object is asked and one acknowledgement is expected from each. |
| `OwnTerm.BuryChild` | zmq/docker/graft-zmq/zeromq-4.2.2/src/own.cpp:180-192 | A term_ack comes from a destroyed child that was waited for, and reduces term_acks by one. |
| `OwnLaunch.CountedKeepsGood` | zmq/docker/graft-zmq/zeromq-4.2.2/src/object.cpp:73-153 | attach, bind and inproc_connected were promised with inc_seqnum, so their receiver is alive and counts them. |
| `OwnRun.WaitsForAChild` | zmq/docker/graft-zmq/zeromq-4.2.2/src/own.cpp:194-210 | A terminating object that is alive and has nothing under way waits for at least one child. |
| `Own.OwnT.LaunchChild` | zmq/docker/graft-zmq/zeromq-4.2.2/src/own.cpp:81-91 | Sets the owner, counts and sends plug, counts and sends own. |
| `Own.OwnT.ProcessTermReq` | zmq/docker/graft-zmq/zeromq-4.2.2/src/own.cpp:98-119 | The new fields and the commands sent. |
| `Own.OwnT.ProcessOwn` | zmq/docker/graft-zmq/zeromq-4.2.2/src/own.cpp:121-133 | The new fields and the commands sent, terminating or not. |
| `Own.OwnT.ProcessTerm` | zmq/docker/graft-zmq/zeromq-4.2.2/src/own.cpp:158-173 | Exactly one term to every owned object, in some order, and then, if nothing is pending, its own last words. |
| `Own.OwnT.ProcessSeqnum` | zmq/docker/graft-zmq/zeromq-4.2.2/src/own.cpp:72-79 | Counts a processed command and checks for the end. |
| `Own.OwnT.UnregisterTermAck` | zmq/docker/graft-zmq/zeromq-4.2.2/src/own.cpp:180-192 | One acknowledgement fewer; the assertion holds; checks for the end. |
| `Own.OwnT.CheckTermAcks` | zmq/docker/graft-zmq/zeromq-4.2.2/src/own.cpp:194-210 | Acknowledges to the owner and destroys itself exactly when nothing is pending. |
| `Own.OwnT.Terminate` | zmq/docker/graft-zmq/zeromq-4.2.2/src/own.cpp:135-151 | The root terminates at once, others ask their owner. |
| `Own.OwnT.constructor` | zmq/docker/graft-zmq/zeromq-4.2.2/src/own.cpp:35-58 | A new object: no owner, nothing owned, nothing counted, not terminating. |
| `Own.OwnT.SetOwner` | zmq/docker/graft-zmq/zeromq-4.2.2/src/own.cpp:60-64 | The owner is set once. |
| `Own.OwnT.IncSeqnum` | zmq/docker/graft-zmq/zeromq-4.2.2/src/own.cpp:66-70 | One more command is promised. |
| `Own.OwnT.SendTerms` | zmq/docker/graft-zmq/zeromq-4.2.2/src/own.cpp:163-165 | The loop sends exactly one term to every owned object. |
| `OwnLaunch.PlugKeepsGood` | zmq/docker/graft-zmq/zeromq-4.2.2/src/own.cpp:72-79 | A plug command finds its object alive and is counted. |
| `OwnLaunch.NewChild` | zmq/docker/graft-zmq/zeromq-4.2.2/src/own.cpp:121-133 | An own command that arrives in time: the child joins the owned ones. |
| `OwnTerm.TerminateKeepsGood` | zmq/docker/graft-zmq/zeromq-4.2.2/src/own.cpp:135-151 | terminate on any living object, root or not, any number of times. |
| `OwnTerm.AckKeepsGood` | zmq/docker/graft-zmq/zeromq-4.2.2/src/own.cpp:189-192 | A term_ack never meets the assertion on term_acks, and may finish the owner. |
| `OwnAsked.RequestsAreHeeded` | zmq/docker/graft-zmq/zeromq-4.2.2/src/own.cpp:93-151 | In every run: whoever calls terminate, or is named in its owner's term_child, is destroyed in every later state in which nothing is under way, unless its request reached the owner before the own command did. |
| `OwnAsked.OvertakingRequestIsLost` | zmq/docker/graft-zmq/zeromq-4.2.2/src/own.cpp:81-119 | That condition is needed: send_plug precedes send_own, and a child that asks in between is ignored and stays alive; a run of six steps. |
| `OwnAsked.OvertakingIsIgnored` | zmq/docker/graft-zmq/zeromq-4.2.2/src/own.cpp:98-111 | Such a request does nothing, and unless the owner terminates or there is a second request the object will not terminate because of it. |
| `OwnAsked.StepKeepsDoomed` | zmq/docker/graft-zmq/zeromq-4.2.2/src/own.cpp:98-173 | Whatever terminates, has a request or a term under way, or has a terminating owner stays so with every step but an overtaking request. |
| `OwnAsked.ChildrenAreLaunched` | zmq/docker/graft-zmq/zeromq-4.2.2/src/own.cpp:81-91 | In every run the children of an object are exactly those that it launched. |
| `OwnAsked.QuietFamily` | zmq/docker/graft-zmq/zeromq-4.2.2/src/own.cpp:121-133 | When nothing is under way, a living object that does not terminate owns exactly those of its launched children that are alive. |
| `MailboxRun.MailboxIsSafe` | zmq/docker/graft-zmq/zeromq-4.2.2/src/mailbox.cpp:59-101 | For any number of sender threads in any interleaving: the assertion after waking in recv never fails; signals sent and about to be sent are at most one; a woken reader finds its signal; everything posted is received, published or about to be, in order. |
| `MailboxRun.WaitingReaderWillWake` | zmq/docker/graft-zmq/zeromq-4.2.2/src/mailbox.cpp:59-67 | A published command and a passive reader: exactly one signal is there or about to be sent, and some thread can move towards it. |
| `MailboxRun.SenderStepIsSafe` | zmq/docker/graft-zmq/zeromq-4.2.2/src/mailbox.cpp:59-67 | Lock, write, flush, unlock and ring, one at a time, keep the invariant. |
| `MailboxRun.ReaderStepIsSafe` | zmq/docker/graft-zmq/zeromq-4.2.2/src/mailbox.cpp:69-101 | Every step of recv, timeouts and interruptions included, keeps the invariant. |
| `MailboxRun.SendIsItsSteps` | zmq/docker/graft-zmq/zeromq-4.2.2/src/mailbox.cpp:59-67 | A send that is not interrupted is the composition of its steps. |
| `MailboxRun.RecvIsItsSteps` | zmq/docker/graft-zmq/zeromq-4.2.2/src/mailbox.cpp:69-101 | A recv that is not interrupted is the composition of its steps, whether or not it gets to wait for the signal. |
| `MailboxRun.DrainGetsEverything` | zmq/docker/graft-zmq/zeromq-4.2.2/src/mailbox.cpp:69-101 | At rest, repeated recv calls hand out exactly the published commands, in order. |
| `MailboxRun.NoCommandIsLost` | zmq/docker/graft-zmq/zeromq-4.2.2/src/mailbox.cpp:34-42 | After any run that came to rest, what was received and what recv still hands out is what was posted. |
| `Mailbox.MailboxT.Send` | zmq/docker/graft-zmq/zeromq-4.2.2/src/mailbox.cpp:59-67 | Appends the command and signals exactly if the reader slept. |
| `Mailbox.MailboxT.Recv` | zmq/docker/graft-zmq/zeromq-4.2.2/src/mailbox.cpp:69-101 | Hands out the oldest command, if it is active or may wait for a signal that is there; active afterwards exactly if it did; the state after it is that of the composed steps. |
| `Mailbox.MailboxT.constructor` | zmq/docker/graft-zmq/zeromq-4.2.2/src/mailbox.cpp:34-42 | The first read of the empty pipe fails and puts the reader to sleep. |
| `MailboxRun.RunIsSafe` | zmq/docker/graft-zmq/zeromq-4.2.2/src/mailbox.cpp:59-101 | In every state of every run: signals sent and owed are none if the reader is active or the pipe asleep, and exactly one otherwise. |
| `Mtrie.MTrie.Add` | zmq/docker/graft-zmq/zeromq-4.2.2/src/mtrie.cpp:65-68 | add on the heap: the relation gains exactly the pair; true exactly if nobody was subscribed; the trie stays well formed. |
| `Mtrie.MTrie.Rm` | zmq/docker/graft-zmq/zeromq-4.2.2/src/mtrie.cpp:286-289 | rm(prefix): the relation loses exactly the pair; for a subscribed pipe, true exactly if the prefix has no pipe left; the trie stays well formed. |
| `Mtrie.MTrie.RmAll` | zmq/docker/graft-zmq/zeromq-4.2.2/src/mtrie.cpp:153-160 | rm(pipe): the relation loses exactly the pairs of the pipe; one call for each of its prefixes, or only for those left empty, in lexicographic order and each once. |
| `Mtrie.MTrie.Match` | zmq/docker/graft-zmq/zeromq-4.2.2/src/mtrie.cpp:388-429 | match signals exactly the pairs of a prefix of the data and a pipe subscribed to it, shortest prefix first, each once, through all three representations. |
| `Mtrie.MTrie.AddHelper` | zmq/docker/graft-zmq/zeromq-4.2.2/src/mtrie.cpp:70-150 | The recursion over nodes in place: every representation ends as the value function says. |
| `Mtrie.MTrie.RmHelper` | zmq/docker/graft-zmq/zeromq-4.2.2/src/mtrie.cpp:291-386 | The recursion of rm(prefix) in place, with pruning and compaction. |
| `Mtrie.MTrie.RmPipeHelper` | zmq/docker/graft-zmq/zeromq-4.2.2/src/mtrie.cpp:162-239 | The recursion of rm(pipe) in place; the shared buffer holds the prefix of the node byte for byte, although deeper levels reallocate it. |
| `Mtrie.MTrie.RmTable` | zmq/docker/graft-zmq/zeromq-4.2.2/src/mtrie.cpp:206-284 | The loop of rm(pipe) over a table, with pruning, the running bounds and the compaction after it. |
| `Mtrie.MTrie.CutTable` | zmq/docker/graft-zmq/zeromq-4.2.2/src/mtrie.cpp:241-284 | The compaction after rm(pipe): to nothing, to one child, or to the range of live children. |
| `Mtrie.MTrie.CompactTable` | zmq/docker/graft-zmq/zeromq-4.2.2/src/mtrie.cpp:327-383 | The compaction after rm(prefix): from the left, from the right, or to one child. |
| `Mtrie.MTrie.GrowTable` | zmq/docker/graft-zmq/zeromq-4.2.2/src/mtrie.cpp:84-131 | Growing: one child to a table, a table to the right, a table to the left; every old child keeps its character. |
| `MtrieRun.RmAssertion` | zmq/docker/graft-zmq/zeromq-4.2.2/src/mtrie.cpp:294-303 | The assertion of rm(prefix) holds exactly if the pipe is subscribed to the prefix or nobody is. |
| `MtrieRun.RelationFixesShape` | zmq/docker/graft-zmq/zeromq-4.2.2/src/mtrie.cpp:241-283 | Two well-formed tries that stand for the same set have the same shape: same tables, same bounds, same counts. |
| `MtrieRun.HistoryLeavesNoTrace` | zmq/docker/graft-zmq/zeromq-4.2.2/src/mtrie.cpp:317-383 | Histories that end in the same set of subscriptions end in the same shape: growing leaves nothing behind that removal does not clean up. |
| `MtrieRelation.AddIsWellFormed` | zmq/docker/graft-zmq/zeromq-4.2.2/src/mtrie.cpp:70-150 | add keeps live_nodes, table ends and the absence of redundant children. |
| `MtrieRelation.AddHas` | zmq/docker/graft-zmq/zeromq-4.2.2/src/mtrie.cpp:70-150 | add changes the relation by exactly one pair. |
| `MtrieRelation.RmIsWellFormed` | zmq/docker/graft-zmq/zeromq-4.2.2/src/mtrie.cpp:291-386 | rm(prefix) keeps the trie well formed through pruning and compaction. |
| `MtrieRelation.RmHas` | zmq/docker/graft-zmq/zeromq-4.2.2/src/mtrie.cpp:291-386 | rm(prefix) changes the relation by exactly one pair. |
| `MtrieRelation.RmPipeIsWellFormed` | zmq/docker/graft-zmq/zeromq-4.2.2/src/mtrie.cpp:162-284 | rm(pipe) keeps the trie well formed. |
| `MtrieRelation.RmPipeHas` | zmq/docker/graft-zmq/zeromq-4.2.2/src/mtrie.cpp:162-284 | rm(pipe) removes exactly the pairs of the pipe. |
| `MtrieRelation.NewMeansNobody` | zmq/docker/graft-zmq/zeromq-4.2.2/src/mtrie.cpp:73-82 | add answers true exactly if nobody was subscribed to the prefix. |
| `MtrieRelation.GoneMeansLast` | zmq/docker/graft-zmq/zeromq-4.2.2/src/mtrie.cpp:294-303 | For a subscribed pipe rm(prefix) answers true exactly if it was the last. |
| `MtrieTable.TrimKeeps` | zmq/docker/graft-zmq/zeromq-4.2.2/src/mtrie.cpp:241-284 | Compaction keeps every child at its character and leaves both ends of the table alive. |
| `MtrieTable.TrimIs` | zmq/docker/graft-zmq/zeromq-4.2.2/src/mtrie.cpp:206-283 | The bounds kept by the loop are those of the live children. |
| `MtrieCalls.CallsAreExact` | zmq/docker/graft-zmq/zeromq-4.2.2/src/mtrie.cpp:162-180 | rm(pipe) reports exactly the prefixes of the pipe (or those left without a pipe), in strictly ascending order. |
| `MtrieCalls.CallsAscend` | zmq/docker/graft-zmq/zeromq-4.2.2/src/mtrie.cpp:206-239 | The order of the recursion is the lexicographic order of the prefixes. |
| `Mtrie.Buffer.Realloc` | zmq/docker/graft-zmq/zeromq-4.2.2/src/mtrie.cpp:179-183 | The buffer keeps what fits into its new size. |
| `Mtrie.MTrie.Grow` | zmq/docker/graft-zmq/zeromq-4.2.2/src/mtrie.cpp:84-131 | Growing in place agrees with growing the value, for all five ways. |
| `Mtrie.MTrie.Ensure` | zmq/docker/graft-zmq/zeromq-4.2.2/src/mtrie.cpp:133-148 | A missing child is created and counted. |
| `Mtrie.MTrie.Unlink` | zmq/docker/graft-zmq/zeromq-4.2.2/src/mtrie.cpp:317-330 | A redundant child is removed and no longer counted; the assertions on live_nodes hold. |
| `Mtrie.MTrie.RmSlot` | zmq/docker/graft-zmq/zeromq-4.2.2/src/mtrie.cpp:191-224 | One child of rm(pipe): recursion, pruning, and whether it stays. |
| `Mtrie.MTrie.RmOnly` | zmq/docker/graft-zmq/zeromq-4.2.2/src/mtrie.cpp:189-204 | The node with one child: recursion, pruning and the assertion that nothing is left. |
| `MtrieTable.GrowKeeps` | zmq/docker/graft-zmq/zeromq-4.2.2/src/mtrie.cpp:84-131 | Growing moves no child to another character, changes no count, and stays within the 256 characters. |
| `MtrieRelation.Inhabited` | zmq/docker/graft-zmq/zeromq-4.2.2/src/mtrie.cpp:431-434 | A node that is not redundant has a subscription in it or below it. |
| `MtrieRelation.RedundantHasNothing` | zmq/docker/graft-zmq/zeromq-4.2.2/src/mtrie.cpp:431-434 | A redundant node has no subscription in it or below it. |
| `MtrieCalls.CallsMember` | zmq/docker/graft-zmq/zeromq-4.2.2/src/mtrie.cpp:162-239 | At every level: the calls are the path of the node followed by the prefixes reported below it. |
| `MtrieRelation.RmAnswer` | zmq/docker/graft-zmq/zeromq-4.2.2/src/mtrie.cpp:291-315 | The answer of rm(prefix), whoever is subscribed: true exactly if the prefix is empty or a subscribed prefix begins with it, and nobody but the pipe is subscribed to it. |
| `MtrieRelation.FoundMeansBegins` | zmq/docker/graft-zmq/zeromq-4.2.2/src/mtrie.cpp:305-315 | A prefix leads to a node exactly if it is empty or a subscribed prefix begins with it. |
| `MtrieRelation.InnerNodeAnswersTrue` | zmq/docker/graft-zmq/zeromq-4.2.2/src/mtrie.cpp:294-303 | Subscribe "ab", remove "a": nobody is subscribed to "a", nothing changes, and the answer is true. |
| `MtrieRun.StepDenotes` | zmq/docker/graft-zmq/zeromq-4.2.2/src/mtrie.cpp:65-386 | Every operation takes a well-formed trie that stands for a set of subscriptions to one that stands for the updated set; this includes the removals that the assertion of rm(prefix) stops in the code, which RmAssertion tells apart. |
| `MtrieRun.HistoryDenotes` | zmq/docker/graft-zmq/zeromq-4.2.2/src/mtrie.cpp:65-386 | After any history, those with such removals included, the trie stands for the set that the plain set operations leave. |
| `MsgRefs.StepConserves` | zmq/docker/graft-zmq/zeromq-4.2.2/src/msg.cpp:54-519 | Every operation on any number of messages and contents (init, close, move, copy, add_refs with the copies, rm_refs, a whole distribute) keeps: the counter of a shared content is the number of its handles, and it has been freed once exactly if there is none. |
| `MsgRefs.RunConserves` | zmq/docker/graft-zmq/zeromq-4.2.2/src/msg.cpp:216-336 | From any state in which the counters are right, any list of operations leaves them right. |
| `MsgRefs.ContentsAreFreedOnce` | zmq/docker/graft-zmq/zeromq-4.2.2/src/msg.cpp:216-271 | From nothing, after any run: every content is freed exactly once if no handle is left, and not otherwise; a counter in use counts the handles. |
| `MsgRefs.CloseConserves` | zmq/docker/graft-zmq/zeromq-4.2.2/src/msg.cpp:216-271 | close frees the content exactly at the last handle. |
| `MsgRefs.CopyConserves` | zmq/docker/graft-zmq/zeromq-4.2.2/src/msg.cpp:294-336 | copy turns a private content into a shared one with two handles, or adds one. |
| `MsgRefs.DistributeConserves` | zmq/docker/graft-zmq/zeromq-4.2.2/src/dist.cpp:163-203 | A distribute in which any pipes accept and any number refuse keeps the count equal to the handles that live on. |
| `MsgStep.DistributedCell` | zmq/docker/graft-zmq/zeromq-4.2.2/src/msg.cpp:456-519 | The counter after add_refs (n - 1) and rm_refs (failed): accepted copies plus handles held elsewhere; freed exactly if that is none. |
| `Msg.MsgT.Close` | zmq/docker/graft-zmq/zeromq-4.2.2/src/msg.cpp:216-271 | The handle and the counter after close; an invalid message is refused. |
| `Msg.MsgT.Move` | zmq/docker/graft-zmq/zeromq-4.2.2/src/msg.cpp:273-292 | The source becomes empty, the destination takes its content, the old content is closed. |
| `Msg.MsgT.Copy` | zmq/docker/graft-zmq/zeromq-4.2.2/src/msg.cpp:294-336 | Both handles, both counters, also when they share a content already. |
| `Msg.MsgT.AddRefs` | zmq/docker/graft-zmq/zeromq-4.2.2/src/msg.cpp:456-477 | The counter, whether or not it was in use. |
| `Msg.MsgT.RmRefs` | zmq/docker/graft-zmq/zeromq-4.2.2/src/msg.cpp:479-519 | The counter, the closing at zero and the answer. |
| `Msg.MsgT.Init` | zmq/docker/graft-zmq/zeromq-4.2.2/src/msg.cpp:81-90 | An empty small message. |
| `Msg.MsgT.InitExternalStorage` | zmq/docker/graft-zmq/zeromq-4.2.2/src/msg.cpp:125-145 | A zero-copy message whose counter starts at zero. |
| `MsgRefs.TransferConserves` | zmq/docker/graft-zmq/zeromq-4.2.2/src/msg.cpp:273-292 | move hands a handle on without counting. |
| `MsgRefs.InitConserves` | zmq/docker/graft-zmq/zeromq-4.2.2/src/msg.cpp:54-145 | A new message, with or without a content of its own, keeps all counters right. |
| `Msg.MsgT.InitSize` | zmq/docker/graft-zmq/zeromq-4.2.2/src/msg.cpp:92-123 | Up to the small-message limit an empty handle that needs no content, above it a message with a content of its own, not shared. |
| `Arrays.ArrayT.PushBack` | zmq/docker/graft-zmq/zeromq-4.2.2/src/array.hpp:118-123 | Appends; the item knows its position. |
| `Arrays.ArrayT.Swap` | zmq/docker/graft-zmq/zeromq-4.2.2/src/array.hpp:136-143 | Exchanges two items; both know their new positions. |
| `Arrays.ArrayT.Erase` | zmq/docker/graft-zmq/zeromq-4.2.2/src/array.hpp:125-134 | The last item takes the place of the erased one; all positions stay right. |
| `Arrays.ArrayT.Index` | zmq/docker/graft-zmq/zeromq-4.2.2/src/array.hpp:150-153 | The stored position is the position. |
| `DistRun.MessagesStartAtTheBeginning` | zmq/docker/graft-zmq/zeromq-4.2.2/src/dist.cpp:50-161 | After any history of attach, match, activated, pipe_terminated and sends with arbitrary refusals: whoever accepted a frame accepted every earlier frame of that message, and matching, active, eligible and attached pipes are nested, with active equal to eligible between messages. |
| `DistRun.StepHasNoGaps` | zmq/docker/graft-zmq/zeromq-4.2.2/src/dist.cpp:50-161 | Every step keeps: whoever has a later frame of the message has the earlier ones, and whoever is offered the next frame has all before it. |
| `Dist.DistT.Attach` | zmq/docker/graft-zmq/zeromq-4.2.2/src/dist.cpp:50-66 | A pipe attached in the middle of a message becomes eligible only; otherwise active. |
| `Dist.DistT.Match` | zmq/docker/graft-zmq/zeromq-4.2.2/src/dist.cpp:68-81 | A pipe that is active and not matching joins the matching ones; others stay where they are. |
| `Dist.DistT.ReverseMatch` | zmq/docker/graft-zmq/zeromq-4.2.2/src/dist.cpp:83-97 | The matching pipes become the eligible ones that did not match. |
| `Dist.DistT.PipeTerminated` | zmq/docker/graft-zmq/zeromq-4.2.2/src/dist.cpp:104-122 | The pipe leaves every region and the array. |
| `Dist.DistT.Activated` | zmq/docker/graft-zmq/zeromq-4.2.2/src/dist.cpp:124-138 | A passive pipe becomes eligible, and active between messages. |
| `Dist.DistT.Write` | zmq/docker/graft-zmq/zeromq-4.2.2/src/dist.cpp:210-224 | A refusing pipe leaves the three regions; an accepting one is flushed at the end of a message. |
| `Dist.DistT.WriteAll` | zmq/docker/graft-zmq/zeromq-4.2.2/src/dist.cpp:189-195 | The loop that steps back after a failed write attempts every initially matching pipe exactly once. |
| `Dist.DistT.Distribute` | zmq/docker/graft-zmq/zeromq-4.2.2/src/dist.cpp:163-203 | Every matching pipe is offered the frame exactly once, whoever is full leaves the regions, and the content counts the accepted copies and the handles held elsewhere. |
| `Dist.DistT.SendToMatching` | zmq/docker/graft-zmq/zeromq-4.2.2/src/dist.cpp:146-161 | Between messages every eligible pipe becomes active again. |
| `Dist.DistT.SendToAll` | zmq/docker/graft-zmq/zeromq-4.2.2/src/dist.cpp:140-144 | All active pipes are offered the frame exactly once. |
| `Dist.SentCellCounts` | zmq/docker/graft-zmq/zeromq-4.2.2/src/dist.cpp:163-203 | What the counter says after distribute: other handles plus accepted copies; freed exactly if there are none. |
| `Dist.DistT.Unmatch` | zmq/docker/graft-zmq/zeromq-4.2.2/src/dist.cpp:99-102 | No pipe matches. |
| `DistRun.RunHasNoGaps` | zmq/docker/graft-zmq/zeromq-4.2.2/src/dist.cpp:50-161 | From any state without gaps, any list of operations leads to one without gaps. |
| `Arrays.CutOff` | zmq/docker/graft-zmq/zeromq-4.2.2/src/dist.cpp:104-119 | Swapping an item with the last one of a region and shrinking the region removes exactly that item from the region, and from no region that ends elsewhere. |
| `Arrays.TakeIn` | zmq/docker/graft-zmq/zeromq-4.2.2/src/dist.cpp:124-137 | Swapping an item with the first one behind a region and growing the region adds exactly that item. |
| `DistDelivery.MatchedDelivery` | zmq/docker/graft-zmq/zeromq-4.2.2/src/dist.cpp:68-102 | After any history: unmatch, any matches, possibly reverse_match, send_to_matching. The message begins at exactly those pipes that were matched (or were not), that the history makes willing, and that have room. |
| `DistDelivery.DeliveryToAll` | zmq/docker/graft-zmq/zeromq-4.2.2/src/dist.cpp:140-161 | After any history send_to_all begins a message at exactly the willing pipes that have room. |
| `DistDelivery.RestOfMessage` | zmq/docker/graft-zmq/zeromq-4.2.2/src/dist.cpp:146-203 | A later frame is accepted by exactly the pipes that accepted the frame before it, did not terminate in between and have room. |
| `DistDelivery.HistoryTells` | zmq/docker/graft-zmq/zeromq-4.2.2/src/dist.cpp:50-161 | After any history: eligible is who was attached or activated and has neither left nor refused since; active, who was so when the current message began; and the more flag is that of the last frame. |
| `DistDelivery.HistorySelects` | zmq/docker/graft-zmq/zeromq-4.2.2/src/dist.cpp:68-161 | After any history the matching pipes are those that the calls of match, unmatch, reverse_match and send_to_all chose and that did not leave or refuse since. |
| `DistDelivery.StepMembers` | zmq/docker/graft-zmq/zeromq-4.2.2/src/dist.cpp:50-161 | Every operation, pipe by pipe: who is in the array, eligible and active afterwards. |
| `DistDelivery.StepMatches` | zmq/docker/graft-zmq/zeromq-4.2.2/src/dist.cpp:68-161 | Every operation, pipe by pipe: who matches afterwards. |
| `DistDelivery.MatchIs` | zmq/docker/graft-zmq/zeromq-4.2.2/src/dist.cpp:68-81 | match marks its argument exactly if that is eligible, and leaves every other pipe where it is. |
| `RingStep.TurnStays` | zmq/docker/graft-zmq/zeromq-4.2.2/src/fq.cpp:56-74 | When a pipe leaves, the turn stays where it is if and only if the leaving pipe does not have it and the one that has it is not swapped to a position other than the first. |
| `RingStep.SkippingIsFair` | zmq/docker/graft-zmq/zeromq-4.2.2/src/fq.cpp:115-123 | Swapping an empty pipe out never moves another pipe further from its turn. |
| `RingStep.TerminateOk` | zmq/docker/graft-zmq/zeromq-4.2.2/src/lb.cpp:55-73 | active and current stay within bounds. |
| `FqRun.MessagesAreNotInterleaved` | zmq/docker/graft-zmq/zeromq-4.2.2/src/fq.cpp:88-132 | In every history the frames of one message are returned without a frame of another pipe between them. |
| `FqRun.TerminatingMidMessage` | zmq/docker/graft-zmq/zeromq-4.2.2/src/fq.cpp:56-74 | In the middle of a message, the rest still comes from the same pipe after a termination if and only if the termination leaves the turn alone. |
| `FqRun.NobodyWaitsForLong` | zmq/docker/graft-zmq/zeromq-4.2.2/src/fq.cpp:88-156 | While an active pipe at position i stays non-empty and nothing is attached, activated or terminated, at most (i - current) mod active messages of other pipes are returned before one of its own, has_in and newly arriving messages included. |
| `FqRun.HasInKeepsValid` | zmq/docker/graft-zmq/zeromq-4.2.2/src/fq.cpp:134-156 | has_in is true exactly if recv would return a frame. |
| `Fq.FqT.RecvPipe` | zmq/docker/graft-zmq/zeromq-4.2.2/src/fq.cpp:88-132 | The loop in place, swapping empty pipes out. |
| `Fq.FqT.HasIn` | zmq/docker/graft-zmq/zeromq-4.2.2/src/fq.cpp:134-156 | The loop in place. |
| `Fq.FqT.PipeTerminated` | zmq/docker/graft-zmq/zeromq-4.2.2/src/fq.cpp:56-74 | The swap, the turn, the array, and the last pipe that delivered. |
| `Fq.FqT.Activated` | zmq/docker/graft-zmq/zeromq-4.2.2/src/fq.cpp:76-81 | The pipe joins the active ones. |
| `Fq.FqT.Attach` | zmq/docker/graft-zmq/zeromq-4.2.2/src/fq.cpp:49-54 | The pipe is added and becomes active. |
| `LbRun.MessagesAreAtomic` | zmq/docker/graft-zmq/zeromq-4.2.2/src/lb.cpp:49-173 | After any history: an incomplete message exists in no attached pipe but the current one, and there exactly while more is set and dropping is not; every complete message has been flushed. |
| `LbRun.StepIsAtomic` | zmq/docker/graft-zmq/zeromq-4.2.2/src/lb.cpp:49-173 | Every call, and every pipe making room, keeps incomplete messages out of all pipes but the current one. |
| `LbRun.TerminatedIsAtomic` | zmq/docker/graft-zmq/zeromq-4.2.2/src/lb.cpp:55-73 | A termination keeps messages whole if and only if it comes between messages, hits the current pipe, or leaves the turn alone. |
| `LbRun.RefusalRollsBack` | zmq/docker/graft-zmq/zeromq-4.2.2/src/lb.cpp:103-125 | A refused later frame takes the earlier ones back, touches no other pipe and fails. |
| `LbRun.RestIsDropped` | zmq/docker/graft-zmq/zeromq-4.2.2/src/lb.cpp:89-99 | After the current pipe terminated, the rest of the message is swallowed and no pipe changes. |
| `LbRun.RestGoesToTheSamePipe` | zmq/docker/graft-zmq/zeromq-4.2.2/src/lb.cpp:103-150 | If the rest of a message is accepted, all of it goes to the pipe that has its beginning. |
| `Lb.LbT.SendPipe` | zmq/docker/graft-zmq/zeromq-4.2.2/src/lb.cpp:87-150 | The loop in place: dropping, rolling back, swapping full pipes out, flushing and moving on. |
| `Lb.LbT.HasOut` | zmq/docker/graft-zmq/zeromq-4.2.2/src/lb.cpp:152-173 | The loop in place. |
| `Lb.LbT.PipeTerminated` | zmq/docker/graft-zmq/zeromq-4.2.2/src/lb.cpp:55-73 | The dropping flag, the swap, the turn and the array. |
| `Rings.RingT.Attach` | zmq/docker/graft-zmq/zeromq-4.2.2/src/fq.cpp:49-54 | push_back, swap and counting in place: the pipe becomes the last active one. |
| `Rings.RingT.Activate` | zmq/docker/graft-zmq/zeromq-4.2.2/src/lb.cpp:75-80 | The pipe becomes the last active one. |
| `Rings.RingT.Deactivate` | zmq/docker/graft-zmq/zeromq-4.2.2/src/lb.cpp:165-169 | The current pipe leaves the active ones; the next in turn takes its position. |
| `Rings.RingT.Terminate` | zmq/docker/graft-zmq/zeromq-4.2.2/src/fq.cpp:58-68 | The swap, the reset of the turn and the erase. |
| `Rings.RingT.Advance` | zmq/docker/graft-zmq/zeromq-4.2.2/src/lb.cpp:141-142 | The turn goes to the next active pipe, round the end. |
| `RingStep.AdvancingIsFair` | zmq/docker/graft-zmq/zeromq-4.2.2/src/fq.cpp:108-111 | After a complete message every other active pipe is one closer to its turn. |
| `RingStep.CurrentStays` | zmq/docker/graft-zmq/zeromq-4.2.2/src/fq.cpp:49-81 | attach and activated leave the turn where it is. |
| `FqRun.RecvIsFair` | zmq/docker/graft-zmq/zeromq-4.2.2/src/fq.cpp:88-132 | One recv that returns another pipe's frame brings a waiting pipe closer by one if the message is complete, and never moves it away, whatever was swapped out on the way. |
| `FqRun.HasInIsFair` | zmq/docker/graft-zmq/zeromq-4.2.2/src/fq.cpp:134-156 | has_in moves no waiting pipe away from its turn. |
| `FqRun.ReceivedIsGrouped` | zmq/docker/graft-zmq/zeromq-4.2.2/src/fq.cpp:88-132 | From any state, the rest of a message in progress comes first and from the current pipe. |
| `Fq.FqT.Fetch` | zmq/docker/graft-zmq/zeromq-4.2.2/src/fq.cpp:97-113 | One attempt: the frame, the turn and the last pipe that delivered. |
| `LbRun.SendIsAtomic` | zmq/docker/graft-zmq/zeromq-4.2.2/src/lb.cpp:87-150 | send keeps incomplete messages out of all pipes but the current one, whatever is refused or dropped. |
| `LbRun.HasOutIsAtomic` | zmq/docker/graft-zmq/zeromq-4.2.2/src/lb.cpp:152-173 | has_out keeps incomplete messages out of all pipes but the current one, whatever is swapped out. |
| `Lb.LbT.Attach` | zmq/docker/graft-zmq/zeromq-4.2.2/src/lb.cpp:49-53 | A new pipe is active. |
| `Lb.LbT.Activated` | zmq/docker/graft-zmq/zeromq-4.2.2/src/lb.cpp:75-80 | The pipe joins the active ones. |
| `FqStep.RecvKeepsValid` | zmq/docker/graft-zmq/zeromq-4.2.2/src/fq.cpp:88-132 | While the pipe of a message in progress is not closed by its own side, the assertion that its next frame is there holds, and that frame comes from the same pipe. |
| `FqRun.StepKeepsValid` | zmq/docker/graft-zmq/zeromq-4.2.2/src/fq.cpp:49-156 | No step breaks the fair queue or hits its assertion, pipes closed by their own side included, and only recv changes which message is in progress. |
| `FqRun.ClosingMidMessage` | zmq/docker/graft-zmq/zeromq-4.2.2/src/fq.cpp:115-118 | A pipe that was terminated by its own side refuses to be read (pipe.cpp:173-174); the assertion in recvpipe then fails if and only if that is the pipe a message is being read from. |
| `FqTorn.TornMessage` | zmq/docker/graft-zmq/zeromq-4.2.2/src/fq.cpp:56-68 | A reached state with three pipes, the last in the middle of a message: after the second terminates, the next frame is read from the first pipe, and if that has none the assertion in recvpipe fails. |
| `LbTorn.TornMessage` | zmq/docker/graft-zmq/zeromq-4.2.2/src/lb.cpp:55-73 | A reached state with three pipes, the last with the beginning of a message: after the second terminates, the rest of the message is written to the first pipe and published there, and the last keeps its beginning. |
| `RingStep.ActivateIs` | zmq/docker/graft-zmq/zeromq-4.2.2/src/fq.cpp:76-81 | After activated the first `active` pipes are the earlier ones, in their places, and the pipe named, which is the last of them. |
| `RingStep.AttachIs` | zmq/docker/graft-zmq/zeromq-4.2.2/src/fq.cpp:49-54 | After attach they are the earlier ones and the new pipe. |
| `RingStep.DeactivateIs` | zmq/docker/graft-zmq/zeromq-4.2.2/src/lb.cpp:165-169 | The current pipe and no other leaves the active ones. |
| `RingStep.TerminateIs` | zmq/docker/graft-zmq/zeromq-4.2.2/src/fq.cpp:56-68 | The terminated pipe and no other leaves the active ones and the array. |
| `FqServed.RecvFinds` | zmq/docker/graft-zmq/zeromq-4.2.2/src/fq.cpp:88-132 | recv returns a frame exactly if some active pipe has one; it is the first frame of that pipe, and nothing else is taken from any pipe. |
| `FqServed.ActivatedIsServed` | zmq/docker/graft-zmq/zeromq-4.2.2/src/fq.cpp:76-132 | From its activation on, a pipe with something to read waits for at most as many messages of others as there are active pipes from the current one to the end, and recv does not answer EAGAIN. |
| `FqServed.AttachedIsServed` | zmq/docker/graft-zmq/zeromq-4.2.2/src/fq.cpp:49-132 | The same from its attachment on. |
| `FqServed.MidMessage` | zmq/docker/graft-zmq/zeromq-4.2.2/src/fq.cpp:134-138 | In the middle of a message has_in is true without looking, and recv takes from the current pipe or fails its assertion. |
| `LbServed.SendFinds` | zmq/docker/graft-zmq/zeromq-4.2.2/src/lb.cpp:87-150 | The first frame of a message is accepted exactly if some active pipe has room, and then by exactly one of them, which is the current one while the message goes on; otherwise nobody gets it. |
| `LbServed.HasOutFinds` | zmq/docker/graft-zmq/zeromq-4.2.2/src/lb.cpp:152-173 | has_out is true exactly if a message is in progress or some active pipe has room, and writes nothing. |
| `LbServed.ActivatedIsSentTo` | zmq/docker/graft-zmq/zeromq-4.2.2/src/lb.cpp:75-150 | With all other active pipes full, the message goes to the pipe that was just activated if it has room. |
| `LbServed.AttachedIsSentTo` | zmq/docker/graft-zmq/zeromq-4.2.2/src/lb.cpp:49-150 | The same for a pipe that was just attached. |
| `LbServed.SendIsFair` | zmq/docker/graft-zmq/zeromq-4.2.2/src/lb.cpp:103-150 | A message that goes to another pipe brings a pipe with room one closer to its turn. |
| `EncoderRun.BatchesArePrefixes` | zmq/docker/graft-zmq/zeromq-4.2.2/src/encoder.hpp:81-135 | Over any step machine and any calls: the batches so far and what is pending are the bytes of the message, and the message is not released before its last byte is in a batch. |
| `EncoderRun.EnoughCallsFinish` | zmq/docker/graft-zmq/zeromq-4.2.2/src/encoder.hpp:81-135 | With positive buffer sizes, more calls than bytes finish the message and return all of it. |
| `EncoderRun.BatchingIsInvisible` | zmq/docker/graft-zmq/zeromq-4.2.2/src/encoder.hpp:81-135 | Any two ways of cutting a message into batches, copied or not, return the same bytes. |
| `EncoderRun.EncodeConserves` | zmq/docker/graft-zmq/zeromq-4.2.2/src/encoder.hpp:90-131 | One call returns a prefix of what is pending, nothing if idle and something if there is anything. |
| `Encoder.EncoderT.Encode` | zmq/docker/graft-zmq/zeromq-4.2.2/src/encoder.hpp:81-135 | The loop over the buffer in place, including the call that hands out the data of the message without copying. |
| `DecoderRun.DecodeSplits` | zmq/docker/graft-zmq/zeromq-4.2.2/src/decoder.hpp:107-154 | Decoding a batch and then the rest is decoding both at once: same messages, same state, same bytes used, same error. |
| `DecoderRun.DriveSplits` | zmq/docker/graft-zmq/zeromq-4.2.2/src/decoder.hpp:107-154 | The same for a caller that comes back for every message in a batch. |
| `DecoderRun.BatchesAreOne` | zmq/docker/graft-zmq/zeromq-4.2.2/src/decoder.hpp:107-154 | Any list of batches yields what its concatenation yields. |
| `DecoderRun.BatchingIsInvisible` | zmq/docker/graft-zmq/zeromq-4.2.2/src/decoder.hpp:107-154 | Two ways of cutting a stream yield the same messages, the same consumption and the same error. |
| `DecoderStep.DecodeFacts` | zmq/docker/graft-zmq/zeromq-4.2.2/src/decoder.hpp:115-152 | decode uses everything it is given unless a message is complete or the data is wrong. |
| `Decoder.DecoderT.Decode` | zmq/docker/graft-zmq/zeromq-4.2.2/src/decoder.hpp:107-154 | The loop in place; where the data already is where it should go nothing is copied, with the same result. |
| `Decoder.DecoderT.GetBuffer` | zmq/docker/graft-zmq/zeromq-4.2.2/src/decoder.hpp:79-99 | The place a large message is read into directly, or the buffer of the decoder. |
| `V2Codec.StreamIsOnWire` | zmq/docker/graft-zmq/zeromq-4.2.2/src/v2_encoder.cpp:47-78 | The steps of the version 2 encoder print flags, size (one or eight bytes) and body. |
| `V2Codec.FlagsRoundTrip` | zmq/docker/graft-zmq/zeromq-4.2.2/src/v2_encoder.cpp:49-57 | The three flags are recovered from the flags byte. |
| `V2Codec.ReadMessage` | zmq/docker/graft-zmq/zeromq-4.2.2/src/v2_decoder.cpp:60-161 | The version 2 decoder reads back the message that was printed and is ready for the next one. |
| `V2Codec.MessagesSurviveBatching` | zmq/docker/graft-zmq/zeromq-4.2.2/src/v2_decoder.cpp:60-161 | End to end: any messages, encoded in any batches, cut again into any batches, are decoded to the same messages, every byte used. |
| `Wire.Uint32RoundTrip` | zmq/docker/graft-zmq/zeromq-4.2.2/src/wire.hpp:64-79 | A four-byte number is read back. |
| `Wire.Uint32Back` | zmq/docker/graft-zmq/zeromq-4.2.2/src/wire.hpp:64-79 | Every four bytes are the print of the number they are read as. |
| `Wire.Uint64RoundTrip` | zmq/docker/graft-zmq/zeromq-4.2.2/src/wire.hpp:81-104 | An eight-byte number is read back. |
| `Encoder.EncoderT.LoadMsg` | zmq/docker/graft-zmq/zeromq-4.2.2/src/encoder.hpp:137-142 | Loading a message runs its first step. |
| `EncoderRun.FillConserves` | zmq/docker/graft-zmq/zeromq-4.2.2/src/encoder.hpp:90-131 | The rounds of one call: what they put into the batch and what is left pending is what was pending. |
| `Decoder.DecoderT.RunSteps` | zmq/docker/graft-zmq/zeromq-4.2.2/src/decoder.hpp:142-150 | The inner loop: steps until more data is needed, a message is complete or the data is wrong. |
| `Decoder.DecoderT.Read` | zmq/docker/graft-zmq/zeromq-4.2.2/src/decoder.hpp:130-141 | One copy, or none if the data is already in place. |
| `V2Codec.SentIsOnWire` | zmq/docker/graft-zmq/zeromq-4.2.2/src/v2_encoder.cpp:47-78 | However the calls are sized, released messages were sent as their prints, one after the other. |
| `V2Codec.ReadMessages` | zmq/docker/graft-zmq/zeromq-4.2.2/src/v2_decoder.cpp:60-161 | A concatenation of prints is read back as the list of messages. |
| `EncoderRun.LargeChunkIsHandedOut` | zmq/docker/graft-zmq/zeromq-4.2.2/src/encoder.hpp:106-123 | Without a buffer of the caller's, a chunk that would fill the buffer comes out whole, in one batch; with one, cut to its size. |
| `DecoderRun.ErrorIsFinal` | zmq/docker/graft-zmq/zeromq-4.2.2/src/decoder.hpp:115-152 | After an error the decoder stays where it failed: every further call fails again and uses nothing. |
| `V2Codec.FrameLayout` | zmq/docker/graft-zmq/zeromq-4.2.2/src/v2_encoder.cpp:47-78 | The frame in plain numbers: flags 1, 2 and 4 for more, large and command; the size in one byte up to 255 and otherwise in eight, most significant first; the body. |
| `V2Codec.LimitIsKept` | zmq/docker/graft-zmq/zeromq-4.2.2/src/v2_decoder.cpp:91-103 | With a limit, and however the bytes are cut: exactly the messages in front of the first one over the limit come out, and there is an error if and only if there is one. |
| `V2Codec.ReadTooLarge` | zmq/docker/graft-zmq/zeromq-4.2.2/src/v2_decoder.cpp:91-103 | A message over the limit is refused as soon as its size is known. |
| `Wire.MostSignificantFirst32` | zmq/docker/graft-zmq/zeromq-4.2.2/src/wire.hpp:64-70 | The four bytes denote the number, the first one weighing most. |
| `Wire.MostSignificantFirst64` | zmq/docker/graft-zmq/zeromq-4.2.2/src/wire.hpp:81-91 | The eight bytes denote the number, the first one weighing most. |
| `MechanismRun.MetadataRoundTrip` | zmq/docker/graft-zmq/zeromq-4.2.2/src/mechanism.cpp:86-159 | For every list of properties with names up to 255 and values up to 0x7FFFFFFF bytes that pass the checks: parsing the concatenated prints succeeds and records for every name the first value, or the one already there, and for the identity the last one. |
| `MechanismRun.ParsePrinted` | zmq/docker/graft-zmq/zeromq-4.2.2/src/mechanism.cpp:102-159 | Whatever follows the printed properties is parsed as it would be after recording them. |
| `MechanismRun.BlockIsSplit` | zmq/docker/graft-zmq/zeromq-4.2.2/src/mechanism.cpp:107-128 | Every block is the print of the properties found in it and a tail that holds no further property. |
| `MechanismRun.AcceptedBlocks` | zmq/docker/graft-zmq/zeromq-4.2.2/src/mechanism.cpp:102-159 | A block is accepted if and only if all its properties pass the checks and its tail is empty or ends right after a name or after a value length. |
| `MechanismRun.TruncatedBlockIsAccepted` | zmq/docker/graft-zmq/zeromq-4.2.2/src/mechanism.cpp:114-124 | The two bytes [1, 65] are accepted although no list of properties prints them. |
| `MechanismRun.PeersAreMutual` | zmq/docker/graft-zmq/zeromq-4.2.2/src/mechanism.cpp:169-212 | Socket type a accepts a peer of type b if and only if b accepts a. |
| `MechanismRun.NamesDiffer` | zmq/docker/graft-zmq/zeromq-4.2.2/src/mechanism.cpp:74-84 | Different socket types have different names. |
| `Mechanism.AddProperty` | zmq/docker/graft-zmq/zeromq-4.2.2/src/mechanism.cpp:86-100 | Writes name length, name, value length and value at the place given, nothing else, and returns how much. |
| `Mechanism.MechanismT.ParseMetadata` | zmq/docker/graft-zmq/zeromq-4.2.2/src/mechanism.cpp:102-159 | The loop with its cursor, the insertion into one of the two maps and every error return. |
| `Mechanism.MechanismT.ReadProperty` | zmq/docker/graft-zmq/zeromq-4.2.2/src/mechanism.cpp:107-128 | The cursor reads exactly the first property of the block, or how many bytes are left at the break. |
| `Mechanism.MechanismT.Accept` | zmq/docker/graft-zmq/zeromq-4.2.2/src/mechanism.cpp:130-152 | Identity, socket type and the rest; nothing is recorded on an error. |
| `Mechanism.MechanismT.Insert` | zmq/docker/graft-zmq/zeromq-4.2.2/src/mechanism.cpp:145-152 | insert keeps an earlier value of the same name. |
| `MechanismRun.RecordedValues` | zmq/docker/graft-zmq/zeromq-4.2.2/src/mechanism.cpp:130-152 | Recording a list of properties: the first value for every name, the last for the identity. |
| `MechanismTypes.AcceptsExactly` | zmq/docker/graft-zmq/zeromq-4.2.2/src/mechanism.cpp:169-212 | check_socket_type, type by type: exactly the listed names, letter for letter, are accepted. |
| `MechanismTypes.SocketTypeBlock` | zmq/docker/graft-zmq/zeromq-4.2.2/src/mechanism.cpp:132-139 | A block with one Socket-Type property is accepted, and the name recorded, exactly for the listed names; for any other it is EINVAL and nothing is recorded. |
| `MechanismTypes.IdentityBlock` | zmq/docker/graft-zmq/zeromq-4.2.2/src/mechanism.cpp:130-131 | A block with an identity sets it if the options ask for it. |
| `MechanismTypes.OtherBlock` | zmq/docker/graft-zmq/zeromq-4.2.2/src/mechanism.cpp:140-152 | Any other property is the derived mechanism's to accept: recorded if it does, and otherwise parsing stops and nothing is recorded. |

## Left out

* Conflate pipes, `set_hwms`, `set_hwms_boost` and `send_hwms_to_peer` (pipe.cpp:514-545): water marks are fixed at creation.
* The event sink callbacks (`read_activated`, `write_activated`, `hiccuped`, `pipe_terminated`), the credential and identity a
  pipe stores, and routing ids: they do not feed back into the protocol.
* Metadata of messages and its own reference count; the group and routing id fields of `msg_t`.
* Failing allocations, and the address of a freed queue being used again.
* Weak memory ordering: every operation on an atomic counter or pointer is one indivisible step.
* Interleaving inside a call of a pipe: in the model of two endpoints (`PipePair.Step`) a whole public call or command handler, with
  all its queue operations and sends, is one step.  `YpipeRun` interleaves the two threads of one queue, and `MailboxRun` the steps of
  send and recv.
* Wrap-around of 32-bit and 64-bit counters (sequence numbers, message counts); the unsigned subtraction of check_hwm is modelled
  (`PipeFlow.NoWrap`), the signed overflow of compute_lwm at the largest int is not.
* Subclasses of `own_t` (sockets, sessions, listeners): what they add to the shutdown appears as registered acks and promised commands.
* Linger: the value is passed along and not interpreted.
* `ctx_t` slots and endpoints, pollers, the signaler's file descriptor (a counter of signals here), `check_fd` and fork handling.
* The destructor of `mtrie_t` (mtrie.cpp:49-63) and the memory of its tables: a table is a sequence, and freed nodes are simply unreachable.
* The order of pipes within one node in match and the number of callbacks per node beyond one per pipe: a node's pipes are a set.
* The pipes of the distributor, fair queue and load balancer are stand-ins with a future of accepted and refused writes and an inbox;
  `PipeT` is proved on its own.
* fq.cpp and lb.cpp share the statements on `active`, `current` and the array; they are written once, in `Rings.RingT`.
* The argument message of fq's recv, which is closed before it is filled, and the blob of the last credential.
* The allocators of decoder buffers (`decoder_allocators.hpp`) and the version 1 codec; allocation of message bodies in v2_decoder.cpp.
* `mechanism_t::property`, a virtual call with the result 0 in the base class, is a parameter of the configuration.
* PLAIN, NULL, CURVE and GSSAPI handshakes, options, error strings, the benchmark programs and scripts around the library.

Contracts that ask for more, or say less, than one might expect:

- Fq.FqT.PipeTerminated: in the middle of a message it asks that the turn is not disturbed (`KeepsTurn`), because otherwise the
  message in progress is lost and a later read may hit the assertion (`FqTorn.TornMessage`); `FqRun.TerminatingMidMessage` shows that the condition is exact.
- Fq.FqT.Attach: asks that the pipe holds complete messages only, as the flush of a writer guarantees.
- Dist.DistT.Activated: asks that the pipe is passive; activating an eligible pipe would move somebody else.
- Rings.RingT.Activate: asks that the pipe is passive, for the same reason.
- FqRun.StepKeepsValid: a pipe is not closed while a message is being read from it; `FqRun.ClosingMidMessage` shows that this is exact.
- Dist.DistT.Match: between messages only, as the sockets that use it do; the same holds for `Dist.DistT.ReverseMatch`.
- OwnAsked.RequestsAreHeeded: excludes a request that overtakes the own command (`OwnAsked.OvertakingRequestIsLost`).  The model keeps the
  commands of owner, child and self in channels of their own, so it allows more orders than the mailboxes of one process do.
- Mtrie.MTrie.Rm: asks that the pipe is subscribed to the prefix if anybody is, which the code asserts.
- Mtrie.MTrie.Match: does not fix the order of the pipes of one prefix, which is the order of their addresses in the code.
- PipeFlow.HighWaterMarkBounds: excludes a hiccup by the reader, because process_hiccup takes delimiters and identity frames out of a
  count that never included them (`PipeBalance.WriterCountsWhatIsUnread` has the exact count for all runs); the writer's own hiccups are allowed.
- PipeDelivery.WritesAreAccepted: with a mark it excludes a hiccup by the reader, for the same reason.
- PipeDelivery.FlushedIsReceived: says nothing while a hiccup is under way, when the flushed queue is about to be thrown away.
- PipeLinger.LingeringDelivery: excludes a hiccup by the reader, which discards what is queued by design.
