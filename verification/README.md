# Verified models of the communication stacks and the dispatch scheduler

This project models six parts of the repository in Dafny and proves what they promise.

* **MPI task protocol** (`Packets.dfy`, `TaskProtocol.dfy`, `TaskOrder.dfy`). One server, `machines` clients and
  `thrdpm` workers per client exchange checksummed 8 KB packets. A task goes from the server through
  a channel, the client, the `s2w` queue, a worker, the `w2s` queue, the client again and the return
  channel. The protocol is a state machine; a run is any interleaving of its steps. All results hold
  for every number of machines and threads and for every checksum function. `Packets.dfy` has the
  byte layout and the in-place code.
* **Greedy dispatch sets** (`Greedy.dfy`, `Dgraph.dfy`). `Greedy.dfy` says what a dispatch set is:
  the least correlated live pair, then again and again the live variable with the least total
  correlation to those chosen. `Dgraph.dfy` is the adjacency matrix with its sentinel, overwritten
  in place, and is proved to compute exactly that.
* **Semaphore and producer-consumer queue** (`PcQueue.dfy`). Every lock, unlock, test, sleep and
  condition signal is a step of its own, signals come after the unlock, and sleepers may wake
  spuriously. Any number of threads.
* **TCP thread pool and framing** (`Framing.dfy`, `Addressing.dfy`, `PoolThread.dfy`,
  `ThreadPool.dfy`). Length-prefixed frames over streams that read and write in arbitrary pieces, and
  end anywhere; connections dealt round robin over writer threads with a queue each. Writers and
  readers go on between any two actions of a caller, in steps of one pop, one write(2) or one close;
  any write may fail, and a reader closes the sockets of its writer once `stop_all` has closed its
  pipe.
* **ZeroMQ communication handler** (`Text.dfy`, `CommHandler.dfy`, `PubHandshake.dfy`). The event
  loop with one event per poll branch, the texts it reads and writes down to the characters, and
  the `init_pub` handshake as a system of one publisher and many subscribers that all run that loop.
* **Column standardisation** (`Standardize.dfy`), over exact reals and any square root.

`Words.dfy` has bytes and 32-bit words, `Sequences.dfy` and `Division.dfy` a few shared facts.

## Where the code does not do what it says

* `findset` is documented to return n variables. It does so for every set of at least n live
  variables exactly if 3 <= n <= 1000 (`Greedy.HonouredIff`). `remain` is never decremented, so a
  request for two variables goes on to look for a third; and the sentinel 1000 is also the bound on a
  *sum* of correlations, so a larger set of strongly correlated variables stops at 1000, though never
  earlier (`Greedy.AnswerAtLeast`); above 4096 the program exits. `Greedy.TwoLeft` and
  `Greedy.TooMany` are the concrete inputs.
* The framing round trip holds exactly for payloads of 1 to 2^31-1 bytes (`Framing.RoundTripIff`): an
  empty frame is read as the exit of the peer, and a longer one as a negative length.
* A stream that ends between two frames and one that ends right after a header both read as the exit
  of the peer, so a payload that was announced can be lost without a trace; a stream that ends
  anywhere else makes `readn` spin, because a read of 0 bytes counts as progress in its loop
  (`Framing.DeliverCut`, and `Framing.DeliverLong` for frames whose length does not fit an int).
* `stop_all` loses messages. It pushes EXIT to a writer and closes the pipe of the reader with the same
  sockets in one turn of its loop; the reader may close them before the writer is through, and the
  writer ignores that its writes fail. `PoolThread.StopLoses` is the run: one connection, one message,
  nothing arrives. A connection is sure to get everything if and only if everything for it is on the
  wire when `stop_all` is called (`PoolThread.StopKeepsIff`). Afterwards it has got everything if and
  only if no write to it failed, and otherwise, if only the reader's close made writes fail, the
  beginning of it (`ThreadPool.TcpThreadPool.StopAll`, `ThreadPool.ReceivedCut`).
* For a frame whose header says 2^32-1 bytes `tcp_read` computes the size of its temporary buffer in
  32 bits, allocates nothing, and writes behind it (`Framing.TcpRead`, `Framing.LongestOverruns`).
* `tcp_write` writes the payload even after a failed header, and its result speaks of the payload
  alone (`Framing.TcpWrite`).
* `recv` reports the sender's id exactly if the id is in 0 .. 2^27-1 (`CommHandler.RecvIdIff`):
  negative ids come back untranslated.
* A subscription request is sent without a NUL and read as a C string, so the memory behind the buffer
  takes part. The request is understood exactly if it names at least one group, its address has
  neither a '&' nor a NUL, and that memory starts with a NUL, or with zeros and a NUL after a last id
  of 0 (`Text.SubscriptionRoundTripIff`; `Text.WrongGroup` and `Text.NoGroups` are inputs that
  fail). `subscribe_to` accepts an empty list of groups, and the event loop then subscribes to a
  variable it never read. The addresses that `connect_to` and `init_pub` send are unterminated too.
* A subscriber whose reply the router socket refuses never replies again, because the result is ignored
  and the publisher is remembered as answered. `init_pub` cannot count past the other subscribers,
  and may wait for ever (`PubHandshake.NeverMore`, `PubHandshake.WaitsForEver`).
* A constant Y is divided by a zero deviation; `Standardize.StandardizeInput` reports that as
  not-a-number, and says that it happens exactly then.

## Model

| member | source | states |
|---|---|---|
| `TaskProtocol.TasksConserved` | mpi/scheduler.cpp:58-215 | in every reachable state every sequence number below `outmsg` is at exactly one place, received or in one channel, hand, queue or worker, and no other number is anywhere |
| `TaskProtocol.TasksAtDestination` | mpi/scheduler.cpp:146-150 | a task in flight is at one machine only, among the numbers sent to that machine this round, and a machine never has more than `thrdpm` tasks |
| `TaskProtocol.PacketsAtDestination` | mpi/scheduler.cpp:414-453 | packets at a machine, in channel, hand, queues and workers, are addressed to it; those it sends back come from it and go to the scheduler; the status tells on which side of the workers they are |
| `TaskProtocol.RoundEnd` | mpi/scheduler.cpp:145-172 | when a round ends its replies are exactly the numbers sent in it, once each, `thrdpm` per rank, all DONE; all queues, hands and channels are empty; and `inmsg == outmsg` |
| `TaskProtocol.HeartbeatsAndReplies` | mpi/scheduler.cpp:313-338 | despite the shared tag and any-source receives, `waitforall` takes heartbeats only, one per client, is left only when all clients were heard, and no heartbeat is ever taken as a reply |
| `TaskProtocol.CrcNeverFails` | mpi/scheduler.cpp:159-209 | whatever packet can be received next, by the server or by a client, carries the checksum of its message |
| `TaskProtocol.CrcNeverFailsOnBytes` | mpi/scheduler.cpp:288-311 | the same as the test of `msg_checkcrc` on the 8192 bytes, for every checksum of byte strings |
| `TaskProtocol.LocalMoves` | mpi/worker.cpp:42-57 | every step of a client or worker takes one packet from one place and puts it at the next, whatever is counted |
| `TaskProtocol.StepInv` | mpi/scheduler.cpp:129-215 | every step of every thread keeps the whole invariant: control, packet shapes place by place, and conservation per machine and in total |
| `TaskProtocol.ReachableInv` | mpi/scheduler.cpp:129-215 | the invariant holds in every reachable state |
| `TaskProtocol.StepsCount` | mpi/scheduler.cpp:145-172 | every step of a round, of whichever thread, lowers the sum-of-stages measure by exactly one |
| `TaskProtocol.RoundSteps` | mpi/scheduler.cpp:145-172 | a run inside a round lowers the measure by its length |
| `TaskProtocol.RoundLength` | mpi/scheduler.cpp:145-172 | no interleaving makes a round longer than 9\*machines\*thrdpm + 2\*machines + 1 steps |
| `TaskProtocol.NoDeadlock` | mpi/scheduler.cpp:199-213 | in every reachable state some step is enabled, and while a task is outstanding it is one that brings the round closer to its end |
| `TaskProtocol.RoundFinishes` | mpi/scheduler.cpp:145-172 | from every state that satisfies the invariant the current round can be brought to its end |
| `TaskOrder.FirstInFirstOut` | mpi/scheduler.cpp:58-124 | in every run, what was on a channel or queue and what a hand put on it is what a hand took off it followed by what is there, in order; for both channels, `s2w` and `w2s` |
| `TaskOrder.StepFifo` | mpi/scheduler.cpp:58-124 | the same for one step of any thread |
| `TaskOrder.TasksInOrder` | mpi/scheduler.cpp:64-68 | in every reachable state sequence numbers rise along `s2w`, from there to the task in the client's hand, and from there along the channel |
| `TaskOrder.Whereabouts` | mpi/scheduler.cpp:145-172 | in every reachable state a number was sent if and only if a packet with it is back at the server or at one machine, never both and never at two machines |
| `TaskOrder.RoundComplete` | mpi/scheduler.cpp:152-172 | at a round's end a number was sent in it if and only if some reply of the round has it, and no two have the same |
| `TaskOrder.RepliesFromDestination` | mpi/scheduler.cpp:414-427 | a reply from machine m has a number that was sent to machine m in this round |
| `Packets.LayoutIs` | mpi/scheduler.hpp:59-72 | where each field lies in the 8192 bytes, which 8184 of them are covered, and where the checksum is |
| `Words.BytesAre` | mpi/scheduler.cpp:309-310 | the bytes of a word are its digits in base 256, the lowest first |
| `Words.ValueIs` | socket/src/tcp_comm.cpp:75 | the word that four bytes stand for |
| `Words.ConversionsAre` | socket/src/util.cpp:30 | conversion between int and 32 unsigned bits |
| `Packets.CoveredIs` | mpi/scheduler.hpp:13-20 | header and payload are in the covered prefix, and the checksum slot is not |
| `Packets.CheckIs` | mpi/scheduler.cpp:288-302 | the test on bytes is the comparison of the slot with the checksum of the message |
| `Packets.Encap` | mpi/scheduler.cpp:304-311 | writes the checksum slot and leaves every field as it was |
| `Packets.CheckCrc` | mpi/scheduler.cpp:288-302 | succeeds exactly if the slot holds the checksum of the message |
| `TaskProtocol.OnTheWire` | mpi/scheduler.cpp:259-311 | heartbeats, tasks and replies of the protocol are the packets that the byte-level methods build, and their bytes pass the check |
| `Packets.SealedPasses` | mpi/scheduler.cpp:288-311 | what is encapsulated passes the check |
| `Packets.HeartbeatPacket` | mpi/scheduler.cpp:259-274 | the bytes of a heartbeat are the image of its fields with a correct checksum |
| `Packets.ServerPacket` | mpi/scheduler.cpp:432-453 | the bytes built for a task are the image of the message with its fields and a correct checksum |
| `Packets.MarkDone` | mpi/worker.cpp:54 | changes the status and leaves the checksum slot stale |
| `Packets.ReturnPacket` | mpi/scheduler.cpp:414-430 | source, destination and rank are rewritten before the checksum, so the packet sent back passes the check |
| `Greedy.AnswerUnique` | mpi/dgraph.cpp:89-217 | the greedy specification has one answer for each live set, correlation and n |
| `Greedy.GreedyUnique` | mpi/dgraph.cpp:112-208 | there is one greedy sequence of each length, ties included |
| `Greedy.GreedyDistinct` | mpi/dgraph.cpp:189-192 | greedy picks are live and distinct |
| `Greedy.SumSplit` | mpi/dgraph.cpp:155-162 | the total to a list of variables has one term for each of them |
| `Greedy.SumOne` | mpi/dgraph.cpp:161 | the term is the magnitude of the correlation |
| `Greedy.FirstTwo` | mpi/dgraph.cpp:112-131 | the first two items of every answer, in terms of the correlations: least magnitude over all live pairs, the first of those |
| `Greedy.ThirdItem` | mpi/dgraph.cpp:141-187 | the third item of every answer, in terms of the correlations: least sum of the two magnitudes over all live variables not chosen, the first of those |
| `Greedy.LaterItem` | mpi/dgraph.cpp:141-187 | every later item: least total to all items before it, below 1000, the first of those |
| `Greedy.ExitIff` | mpi/dgraph.cpp:100-103 | the program exits exactly on requests for more than 4096 variables |
| `Greedy.SmallRequests` | mpi/dgraph.cpp:141-207 | what requests for fewer than three variables are answered with |
| `Greedy.LeftIs` | mpi/dgraph.cpp:211-214 | a variable is left exactly if it was live and no answer holds it |
| `Greedy.AnswerSize` | mpi/dgraph.cpp:141-216 | how many variables come back and with which status, for every n up to 1000 and every live set |
| `Greedy.AnswerAtLeast` | mpi/dgraph.cpp:141-187 | for every n the search goes on until n, all live variables or 1000 are reached |
| `Greedy.DispatchLeft` | mpi/dgraph.cpp:211-214 | every full answer takes its variables away from the live set, and nothing else |
| `Greedy.DispatchSizes` | mpi/dgraph.cpp:83-88 | repeated requests on F variables give F/t full answers, then -1 with the remaining F mod t, or none if one is left, where t is what a request for n asks for in effect (n itself from 3 on) |
| `Greedy.DispatchLength` | mpi/dgraph.cpp:83-88 | asking until the first failure takes F/t + 1 requests |
| `Greedy.DispatchDisjoint` | mpi/dgraph.cpp:211-214 | the answers are pairwise disjoint and made of variables that were live |
| `Greedy.HonouredIff` | mpi/dgraph.cpp:83-216 | a request for n is always honoured when n variables are live if and only if 3 <= n <= 1000; the exit above 4096 is not honouring it |
| `Greedy.TwoLeft` | mpi/dgraph.cpp:141-179 | with two variables left a request for two returns both and reports failure |
| `Greedy.TooMany` | mpi/dgraph.cpp:161-179 | for every n from 1001 to 4096, fully correlated variables stop the search at 1000 |
| `Dgraph.CorrGraph.constructor` | mpi/dgraph.cpp:7-39 | all entries invalid, nothing live |
| `Dgraph.CorrGraph.GetCorrInfo` | mpi/dgraph.cpp:41-71 | establishes the representation invariant with all variables live, from the upper triangle |
| `Dgraph.CorrGraph.FillUpper` | mpi/dgraph.cpp:47-54 | the upper triangle holds the correlations and the rest is invalid |
| `Dgraph.CorrGraph.FillLower` | mpi/dgraph.cpp:57-62 | the lower triangle mirrors the upper one and the diagonal is invalid |
| `Dgraph.CorrGraph.CopyAll` | mpi/dgraph.cpp:65-69 | the copy equals the matrix |
| `Dgraph.CorrGraph.Recover` | mpi/dgraph.cpp:73-80 | from any matrix, however diminished, the starting matrix and the full live set are restored |
| `Dgraph.CorrGraph.FirstPair` | mpi/dgraph.cpp:112-128 | finds the lexicographically first of the least correlated live pairs, or that fewer than two are live |
| `Dgraph.CorrGraph.NextPick` | mpi/dgraph.cpp:145-180 | scanning only the first item's row finds the live unchosen variable of least total correlation to all chosen ones, least index on ties |
| `Dgraph.CorrGraph.RowSum` | mpi/dgraph.cpp:155-162 | the sum over the partly invalidated rows is the total correlation |
| `Dgraph.CorrGraph.RemovePair` | mpi/dgraph.cpp:130-137 | only the columns of the pair become invalid |
| `Dgraph.CorrGraph.Extend` | mpi/dgraph.cpp:141-208 | the pair grows greedily to its target, or until no candidate is left, with only columns invalidated |
| `Dgraph.CorrGraph.Retire` | mpi/dgraph.cpp:211-214 | rows and columns of the chosen variables are invalid, every other entry as before |
| `Dgraph.CorrGraph.Drop` | mpi/dgraph.cpp:211-214 | restores the representation invariant with the chosen variables no longer live |
| `Dgraph.CorrGraph.Choose` | mpi/dgraph.cpp:130-216 | from the first pair on: the answer is the greedy one and the live set shrinks by it |
| `Dgraph.CorrGraph.FindSet` | mpi/dgraph.cpp:89-217 | for every n: keeps the representation invariant, returns the greedy answer, removes exactly the returned variables from the live set, and exits exactly above 4096 |
| `Dgraph.CorrGraph.DiminishCol` | mpi/dgraph.cpp:221-226 | one column becomes invalid, nothing else changes |
| `Dgraph.CorrGraph.DiminishRow` | mpi/dgraph.cpp:228-233 | one row becomes invalid, nothing else changes |
| `Dgraph.CorrGraph.Iterate` | mpi/dgraph.hpp:43-47 | requests until depletion, then recovery: the answers are the dispatch sequence of the specification, only the last one fails, and the graph is as at the start |
| `Dgraph.IterationOutcome` | mpi/dgraph.cpp:83-217 | for 3 <= n <= 1000 one iteration over F variables is F/n sets of n with status 0, then -1 with F mod n variables (none if that is 1); the sets are pairwise disjoint and at most one variable is never handed out |
| `Dgraph.Shrinks` | mpi/dgraph.cpp:211-214 | every success leaves fewer live variables, so the iteration ends |
| `Dgraph.ValidIsSymmetric` | mpi/dgraph.cpp:56-62 | between calls the matrix is symmetric, and an entry is invalid exactly on the diagonal or where a row or column is not live |
| `PcQueue.QueueLength` | socket/src/util.hpp:82-106 | queue length = counter + poppers past `wait` + items enqueued but not signalled; so `front` is never called on an empty queue and the counter never wraps |
| `PcQueue.FirstInFirstOut` | socket/src/util.hpp:82-106 | what left the queue followed by the queue is what was pushed, and each push is contiguous |
| `PcQueue.ReturnedInOrder` | socket/src/util.hpp:99-106 | in every run, the values that calls of `pop` have returned, then the one being handed out, then the queue, are what was pushed, in order; and what a thread is about to return left the queue last |
| `PcQueue.BatchesAreCalls` | socket/src/util.hpp:82-97 | in every run, the items of each call of push are pushed exactly as often as push was called with them, counting calls in progress |
| `PcQueue.FlatIs` | socket/src/util.hpp:89-97 | batches are put one after another, unchanged |
| `PcQueue.NoLostWakeup` | socket/src/util.hpp:39-63 | if someone sleeps, the counter is at most the pending signals plus the woken threads that have not retested; with a positive counter some thread is about to act |
| `PcQueue.QuietMeansServed` | socket/src/util.hpp:39-106 | when every thread is idle or asleep, a sleeper means an empty queue |
| `PcQueue.NoDeadlock` | socket/src/util.hpp:39-106 | while some thread is neither idle nor asleep, some call already made can go on |
| `PcQueue.StepWorks` | socket/src/util.hpp:39-106 | every step of a call already made uses up work |
| `PcQueue.InnerRunBound` | socket/src/util.hpp:39-106 | so the number of such steps in a row is bounded |
| `PcQueue.NoWrap` | socket/src/util.hpp:46-49 | the 32-bit addition to the counter is exact |
| `PcQueue.StepInv` | socket/src/util.hpp:39-106 | every step keeps mutual exclusion, the count, the wakeup bound and the history |
| `PcQueue.ReachableInv` | socket/src/util.hpp:39-106 | these hold in every reachable state |
| `Framing.ParseOfFrame` | socket/src/tcp_comm.cpp:72-100 | a frame at the head of a stream is read back whole, whatever follows |
| `Framing.DeliverStep` | socket/src/threadpool.cpp:134-153 | what one more frame adds to what the callback sees, for every length |
| `Framing.DeliverFrames` | socket/src/threadpool.cpp:134-153 | payloads of less than 2^31 bytes are delivered in order, except the empty ones |
| `Framing.RoundTripIff` | socket/src/tcp_comm.cpp:72-113 | reading the frames of a list of payloads gives that list if and only if each has 1 to 2^31-1 bytes |
| `Framing.DeliveredFit` | socket/src/threadpool.cpp:134-153 | whatever is on the stream, only payloads of 1 to 2^31-1 bytes reach the callback |
| `Framing.DeliverCut` | socket/src/util.cpp:10-31 | a stream of frames that ends anywhere: exactly the whole frames are delivered, less the empty ones, and the end is an exit of the peer if nothing or just a header is left over, else a hang |
| `Framing.DeliverLong` | socket/src/threadpool.cpp:138-144 | a whole frame whose length does not fit an int stops the reader at its assertion, wherever the stream ends |
| `Framing.CutIs` | socket/src/tcp_comm.cpp:72-100 | what counts as whole and as left over: the whole frames and the surplus make up the cut, and the surplus is shorter than the next frame |
| `Framing.CutFrame` | socket/src/tcp_comm.cpp:72-100 | one frame that is cut off, at every byte |
| `Framing.FramesAppend` | socket/src/threadpool.hpp:50-62 | frames written one after another are the frames of the list |
| `Framing.FrameIs` | socket/src/threadpool.hpp:56-60 | a frame is the length in four bytes, the lowest first, and the payload byte for byte |
| `Framing.Source.Read` | socket/src/util.cpp:11 | `read`: any positive part of what is asked for and available, into place, the rest of the buffer untouched |
| `Framing.Readn` | socket/src/util.cpp:10-31 | however the stream is cut into reads: 0 at its end, or all bytes in order and the rest left on the stream, or never returning when it ends early |
| `Framing.TcpRead` | socket/src/tcp_comm.cpp:72-100 | one frame is consumed and its payload is in the right buffer, on either buffer branch; the temporary buffer is overrun exactly for the header of 2^32-1 bytes with some of them there and a smaller buffer |
| `Framing.ReadConnection` | socket/src/threadpool.cpp:134-153 | the callbacks of one connection are a function of its bytes, not of how they arrive, up to an overrun of the buffer |
| `Framing.Sink.Write` | socket/src/util.cpp:36 | `write`: any positive part, or an error |
| `Framing.Writen` | socket/src/util.cpp:33-41 | all bytes in order, or exactly a prefix of them and -1 |
| `Framing.TcpWrite` | socket/src/tcp_comm.cpp:106-113 | for every length and every failure: a prefix of the header and a prefix of the payload are appended, the result tells whether the payload is whole, and if both are it is one frame |
| `Framing.NewMsg` | socket/src/threadpool.hpp:50-62 | the buffer is the frame of the payload, and the stored length is what fits a dsize_t |
| `Framing.SentIsFrameIff` | socket/src/threadpool.hpp:50-54 | a writer sends the whole frame exactly if its length does not wrap |
| `Framing.DeliveredLength` | socket/src/tcp_comm.cpp:72-100 | what is delivered came as frames, so it is no longer than the stream |
| `Framing.LongestOverruns` | socket/src/tcp_comm.cpp:84-94 | the header of 2^32-1 bytes with a smaller buffer overruns the temporary one |
| `Addressing.SlotsStep` | socket/src/threadpool.cpp:70-71 | the next connection goes to thread n mod k and its slot n div k |
| `Addressing.SlotsMonotone` | socket/src/threadpool.cpp:29-38 | a thread never needs more slots for fewer connections |
| `Addressing.CapacitySplit` | socket/src/threadpool.cpp:29-39 | the capacities of the threads add up to `max_conns` |
| `Addressing.CapacityNext` | socket/src/threadpool.hpp:113-119 | while not all connections are there, the thread that gets the next one has room |
| `Addressing.RoundRobinNext` | socket/src/threadpool.cpp:65-77 | adding a connection keeps connection c at thread c mod k, slot c div k |
| `Addressing.SlotIs` | socket/src/threadpool.cpp:194-203 | the messages queued at thread c mod k, seen from slot c div k, are exactly the payloads addressed to connection c |
| `Addressing.SentFrames` | socket/src/threadpool.cpp:186-214 | the bytes sent for payloads of any length up to 2^32-5 are their frames |
| `PoolThread.StepOk` | socket/src/threadpool.cpp:79-106 | every pop, write, failing write and close loses no message and keeps each wire equal to what was written of it, or a proper prefix once it was cut |
| `PoolThread.WriteOk` | socket/src/util.cpp:33-41 | one write of any size, in the middle of a frame |
| `PoolThread.SkipOk` | socket/src/threadpool.cpp:88-98 | the step to the next socket, whether the frame was written, refused or lost |
| `PoolThread.StepLater` | socket/src/threadpool.cpp:79-106 | no byte leaves a wire, no thread comes back, and every step of the writer uses up work |
| `PoolThread.RunLater` | socket/src/threadpool.cpp:79-170 | the same over every run |
| `PoolThread.WireIs` | socket/src/threadpool.cpp:79-106 | at every moment, inside a write loop too, a wire holds the beginning of what was pushed for it unless a write failed for another reason than the reader's close, and all of it only if no write failed |
| `PoolThread.WireEnds` | socket/src/threadpool.cpp:84-86 | once the writer is through, a wire holds everything if and only if no write failed |
| `PoolThread.StopKeepsIff` | socket/src/threadpool.cpp:220-225 | every run of the two threads after `stop_all` keeps a connection intact if and only if everything for it is on the wire when `stop_all` is called |
| `PoolThread.StopLoses` | socket/src/threadpool.cpp:151-165 | the run in which the reader closes the socket first and the only message is lost |
| `PoolThread.Drain` | socket/src/threadpool.cpp:79-106 | with all sockets closed the writer still gets to its EXIT, writing nothing |
| `PoolThread.ThrInfo.AddSock` | socket/src/threadpool.hpp:113-119 | a thread that was given nothing yet takes one more socket within its capacity |
| `PoolThread.ThrInfo.StepWriter` | socket/src/threadpool.cpp:79-106 | the next action of the writer on the mutable fields is a step of the state machine |
| `PoolThread.ThrInfo.WriteOnce` | socket/src/util.cpp:36-38 | so is one write(2) or its failure |
| `ThreadPool.TcpThreadPool.constructor` | socket/src/threadpool.cpp:17-60 | an empty pool, with the capacity split over the threads |
| `ThreadPool.TcpThreadPool.RunThreads` | socket/src/threadpool.cpp:79-170 | any number of steps of any writers and readers, in any order, keep the invariant of the pool |
| `ThreadPool.TcpThreadPool.AddConn` | socket/src/threadpool.cpp:65-77 | refused when running or full, else the next id, with the socket at that id's place and no capacity exceeded |
| `ThreadPool.TcpThreadPool.StartAll` | socket/src/threadpool.cpp:172-184 | starts once |
| `ThreadPool.TcpThreadPool.Give` | socket/src/threadpool.cpp:190-201 | one push to one queue, in the middle of a call: that thread, and no other, has been given the call |
| `ThreadPool.TcpThreadPool.Send` | socket/src/threadpool.cpp:194-203 | both error codes; an accepted call adds its payload to those addressed to that connection and to no other, and is queued at its thread, while the threads go on |
| `ThreadPool.TcpThreadPool.ThrBroadcast` | socket/src/threadpool.cpp:186-192 | the same for all connections of one thread |
| `ThreadPool.TcpThreadPool.Broadcast` | socket/src/threadpool.cpp:205-214 | the same for all connections |
| `ThreadPool.TcpThreadPool.PushAll` | socket/src/threadpool.cpp:209-212 | every queue gets the message once, with any steps of the threads between the pushes |
| `ThreadPool.TcpThreadPool.OnTheWay` | socket/src/threadpool.cpp:79-106 | at every moment, in the middle of a broadcast and of a frame too, a connection has been sent the beginning of the bytes addressed to it, unless a write failed for another reason than the reader's close |
| `ThreadPool.TcpThreadPool.Tell` | socket/src/threadpool.cpp:221-225 | one turn of the first loop: the EXIT is pushed, later the pipe is closed, and the threads go on before and between |
| `ThreadPool.TcpThreadPool.JoinWriter` | socket/src/threadpool.cpp:229 | a writer told to exit gets there, however the other threads go on |
| `ThreadPool.TcpThreadPool.JoinReader` | socket/src/threadpool.cpp:232 | a reader whose pipe is closed closes all its sockets |
| `ThreadPool.TcpThreadPool.StopAll` | socket/src/threadpool.cpp:216-237 | with all threads running meanwhile: once they are joined, a connection has been sent exactly the bytes addressed to it if and only if no write to it failed, a proper prefix if only its reader's close made writes fail, and everything if everything was on the wire before |
| `ThreadPool.TcpThreadPool.Complete` | socket/src/threadpool.cpp:84-98 | what a connection has been sent when its writer has exited |
| `ThreadPool.TcpThreadPool.Finished` | socket/src/threadpool.cpp:84-86 | a writer that has exited has finished every message it was given |
| `ThreadPool.TcpThreadPool.EndToEnd` | socket/src/threadpool.cpp:79-153 | after `stop_all` the peer of connection c is delivered, from c's wire, exactly the payloads addressed to c, in call order, if and only if no write to c failed and each payload has 1 to 2^31-1 bytes |
| `ThreadPool.ReceivedCut` | socket/src/threadpool.cpp:151-165 | if only the reader's close made writes fail, the peer is delivered the payloads whose frames are whole before the cut, fewer than were addressed to it |
| `Text.NumberRoundTrip` | comm_zmq/src/comm_handler.cpp:146 | every printed int32_t, negative ones included, is read back and reading stops where it ended |
| `Text.DigitsAre` | comm_zmq/src/comm_handler.cpp:146 | numbers are written in base ten without leading zeros |
| `Text.Written` | comm_zmq/src/comm_handler.cpp:99-147 | texts of both kinds, written out |
| `Text.Misread` | comm_zmq/src/comm_handler.cpp:508-520 | lists on which the loop reads garbage or never ends |
| `Text.NoAmpersand` | comm_zmq/src/comm_handler.cpp:491-494 | a text without '&' is read as address and as list |
| `Text.IdsRoundTrip` | comm_zmq/src/comm_handler.cpp:506-520 | the do-while loop ends and has subscribed to exactly the listed ids in order |
| `Text.SubscriptionRoundTrip` | comm_zmq/src/comm_handler.cpp:141-147 | with a NUL right behind the buffer, the event loop reads from a request the address and the ids that `subscribe_to` wrote |
| `Text.SubscriptionRoundTripIff` | comm_zmq/src/comm_handler.cpp:490-520 | for every list of ids and every memory behind the buffer: it does so if and only if the list is not empty, the address has neither '&' nor NUL, and the memory starts with a NUL, or with zeros and a NUL after a last id of 0 |
| `Text.IdsThen` | comm_zmq/src/comm_handler.cpp:506-520 | the list is read as it was written exactly if what follows it is nothing, or zeros after a last id of 0 |
| `Text.NumberThenDigits` | comm_zmq/src/comm_handler.cpp:512 | a number followed by digits is read as itself exactly if it is 0 and they are zeros |
| `Text.WrongGroup` | comm_zmq/src/comm_handler.cpp:490-520 | a digit in the memory behind the buffer makes the loop subscribe to another group |
| `Text.AddrCut` | comm_zmq/src/comm_handler.cpp:490-494 | otherwise the address that is read is cut short |
| `Text.WriteSubText` | comm_zmq/src/comm_handler.cpp:141-147 | the loop writes the text of the specification |
| `Text.SubscribeLoop` | comm_zmq/src/comm_handler.cpp:506-520 | what the do-while loop subscribes to, for every text, and whether it ends |
| `Text.ReadRequest` | comm_zmq/src/comm_handler.cpp:490-520 | the address and the outcome of the loop that the event loop gets from any text and memory behind it |
| `Text.NoGroups` | comm_zmq/src/comm_handler.cpp:506-520 | a request for no group is never understood; with a NUL behind it the loop subscribes to a variable it never read |
| `Text.HelloRoundTrip` | comm_zmq/src/comm_handler.cpp:537-543 | a published hello is recognised and yields the publisher's id |
| `CommHandler.IdRoundTripIff` | comm_zmq/src/comm_handler.hpp:51-52 | translating an id there and back loses nothing exactly for ids of 28 bits |
| `CommHandler.IdsAre` | comm_zmq/src/comm_handler.hpp:51-52 | an internal id is sixteen times the id, plus one, and its quotient by sixteen is the id |
| `CommHandler.Reserved` | comm_zmq/src/comm_handler.cpp:7-9 | the reserved texts, written out |
| `CommHandler.RecvIdIff` | comm_zmq/src/comm_handler.cpp:225-230 | `recv` reports the sender's id exactly if it is in 0 .. 2^27-1 |
| `CommHandler.IdInjective` | comm_zmq/src/comm_handler.hpp:51-52 | different ids in range stay different |
| `CommHandler.TasksFromPeer` | comm_zmq/src/comm_handler.cpp:357-391 | over every run, the tasks queued from a peer are its router messages in order, without subscriber hellos and without the first other message if the peer was then unknown; it is announced once in that case and never otherwise |
| `CommHandler.RunAgrees` | comm_zmq/src/comm_handler.cpp:328-580 | the books about each node agree with what has happened, after every event |
| `CommHandler.SentToPeer` | comm_zmq/src/comm_handler.cpp:341-355 | over every run, what a peer is sent is the application's messages, a greeting per connection and one reply to its first hello, in order |
| `CommHandler.SentInOrder` | comm_zmq/src/comm_handler.cpp:341-552 | over every run, all messages passed to the router socket, in order |
| `CommHandler.TasksInOrder` | comm_zmq/src/comm_handler.cpp:357-391 | over every run, all tasks, those of publications included, and all announcements, in order |
| `CommHandler.PassedOn` | comm_zmq/src/comm_handler.cpp:455-521 | over every run, the publications sent are exactly those of the applications with a group that is not negative, and likewise the subscribers' replies passed to `init_pub`, the addresses connected to and the groups joined, in order |
| `CommHandler.EndedIff` | comm_zmq/src/comm_handler.cpp:574-577 | the loop has ended exactly if a failure, a shutdown or an endless list was among the events |
| `CommHandler.RunTaken` | comm_zmq/src/comm_handler.cpp:328-580 | every run is the run of the events up to that one |
| `CommHandler.NoReconnect` | comm_zmq/src/comm_handler.cpp:381-385 | no run reaches the branch for reconnected clients |
| `CommHandler.ErrcodeIff` | comm_zmq/src/comm_handler.cpp:348-352 | over every run, the error code is set if and only if the loop took a failing event, and then the loop has ended |
| `CommHandler.EndIsFinal` | comm_zmq/src/comm_handler.cpp:574-579 | once the loop has ended nothing that arrives changes anything |
| `CommHandler.Handler.constructor` | comm_zmq/src/comm_handler.hpp:187-227 | the loop starts with empty maps and queues |
| `CommHandler.Handler.SubPullBranch` | comm_zmq/src/comm_handler.cpp:479-521 | the branch on the mutable state connects, subscribes and ends as the state machine does, parsing included |
| `CommHandler.Handler.Loop` | comm_zmq/src/comm_handler.cpp:328-580 | the loop on mutable state computes the run of the state machine |
| `PubHandshake.HelloStep` | comm_zmq/src/comm_handler.cpp:537-548 | a handler replies to a publisher's first hello and ignores the later ones |
| `PubHandshake.OtherStep` | comm_zmq/src/comm_handler.cpp:523-552 | no other publication, hellos of other publishers included, makes it send anything to this publisher |
| `PubHandshake.OwnStep` | comm_zmq/src/comm_handler.cpp:341-521 | no event but a publication makes a handler send the reply or remember a publisher |
| `PubHandshake.ReceiveOnce` | comm_zmq/src/comm_handler.cpp:544-548 | taking a publication adds at most one reply, only together with the entry in `publishermap`, and never after it |
| `PubHandshake.StepInv` | comm_zmq/src/comm_handler.cpp:98-114 | every step of the system, with any event in any handler, keeps: each subscriber has at most one reply anywhere, exactly one if its router socket sent one and the publisher's loop goes on, and only after a hello |
| `PubHandshake.RunInv` | comm_zmq/src/comm_handler.cpp:98-114 | so does every run |
| `PubHandshake.CountsSubscribers` | comm_zmq/src/comm_handler.cpp:80-115 | however often hellos are repeated or missed, `nsubs` is the number of different subscribers whose reply was drained, each of which received a hello for the group |
| `PubHandshake.AllCounted` | comm_zmq/src/comm_handler.cpp:104-112 | no reply that was sent is lost while the publisher's loop goes on: once all are drained, `nsubs` is the number of subscribers whose reply was sent |
| `PubHandshake.Succeeds` | comm_zmq/src/comm_handler.cpp:98-114 | with one subscriber that is reached and whose reply is sent, `nsubs` becomes 1 |
| `PubHandshake.LostStays` | comm_zmq/src/comm_handler.cpp:544-548 | a refused reply is never made up for, whatever happens next |
| `PubHandshake.NeverMore` | comm_zmq/src/comm_handler.cpp:98-114 | from any state on, `nsubs` never passes the number of subscribers without a refused reply |
| `PubHandshake.WaitsForEver` | comm_zmq/src/comm_handler.cpp:98-114 | with one subscriber whose reply was refused, `nsubs` stays 0 in every continuation |
| `Standardize.VarianceZeroIff` | mpi/getinput.cpp:46-56 | the variance is zero exactly for a constant column, and never negative |
| `Standardize.VarianceIs` | mpi/getinput.cpp:46-53 | the variance in terms of the entries: n times the sum of their squares, less the square of their sum, is n*n times it |
| `Standardize.SumIs` | mpi/getinput.cpp:46-48 | sums add up |
| `Standardize.OrderKept` | mpi/getinput.cpp:64-67 | standardising keeps the order of the values |
| `Standardize.StandardizedSums` | mpi/getinput.cpp:88-89 | a column that is not constant ends up with sum 0 and sum of squares 1, as a positive multiple of its distances from the mean |
| `Standardize.Moments` | mpi/getinput.cpp:43-53 | the accumulating loops compute mean and variance |
| `Standardize.Deviation` | mpi/getinput.cpp:50-53 | dividing term by term gives the variance |
| `Standardize.WriteBack` | mpi/getinput.cpp:64-67 | one column is rescaled in place, no other changes |
| `Standardize.IsZeroColumn` | mpi/getinput.cpp:57-62 | accepts exactly the columns of zeros |
| `Standardize.StandardizeColumn` | mpi/getinput.cpp:42-69 | one column is centred and normed, or accepted unchanged if all zero, or rejected; no other column changes |
| `Standardize.StandardizeInput` | mpi/getinput.cpp:37-85 | every column and Y end up standardised, or the first constant column that is not zero is reported, with those before it standardised |
| `Standardize.StandardizeY` | mpi/getinput.cpp:71-85 | sum 0 and sum of squares 1, a positive multiple of the distances from the mean, unless Y is constant |
| `Standardize.MakeCm` | mpi/getinput.cpp:184-206 | the exact transpose: the rows of the copy are the columns of the matrix |

## Left out

- MPI, ZeroMQ, pthread and socket calls: channels are lossless and ordered per pair, a condition wait releases its mutex and sleeps in one step, inproc sockets are queues; buffer exhaustion and library errors other than the modelled failing events do not occur.
- Concurrent code is modelled as steps on values, so sharing and freeing of packet and message pointers between threads is not captured.
- The start barrier of a client machine is one step that its workers take together with the client.
- Wraparound of `inmsg` and `outmsg`, which are unbounded here.
- The arithmetic of CRC-32: the checksum is any function of the covered bytes. Words lie in memory in little-endian order.
- The payload types of mpi/scheduler.hpp other than the heartbeat, and the message type field, which this code never sets.
- `getcorr_pair`: correlations are any numbers of magnitude at most 1.
- The fixed arrays of `dispatchset` and the bookkeeping of `tmpset`, which never holds more than one item, are a sequence here.
- Snapshots of the correlation graph, reading of the input files, and floating-point rounding: real numbers are exact.
- Queues of 2^32 items and more, where the semaphore's counter wraps, and bulk pushes of negative size.
- `ThreadPool.TcpThreadPool.StopAll`: for a connection on which a write failed for another reason than the reader's close, it says only that less than everything is on the wire.
- A second `stop_all`: the model requires that the writers have not been told to exit before, because `running` is never cleared and a second stop would join threads that are gone.
- `ThreadPool.TcpThreadPool.constructor`: requires at least one thread, because the code divides by their number, and starts `num_conns` at 0, which the initialiser list forgets.
- The `select` loop around the reading of each connection, and the reuse of a closed descriptor by another open file.
- `CommHandler.TasksFromPeer`: speaks of runs that have not ended; after the end the loop takes no more events, and group ids differ from the node's id as comm_zmq/src/comm_handler.hpp:254 demands.
- `sync_mtx`, which is unlocked by other threads than those that lock it, and the calls that only wrap a socket (`send`, `publish`, `connect_to`, `shutdown`).
- The greeting of a new connection is repeated until the router socket takes it, so a peer that cannot be reached stops the loop; here it is taken at once.
- `CommHandler.SentToPeer`: speaks of what the loop passes to the router socket, which may still refuse a peer it has no connection to.
- A memory without any NUL behind an unterminated text is taken to end where the model's memory ends. A malformed hello, whose id is then an uninitialised variable, has no effect here.
- `PubHandshake.CountsSubscribers`: covers one call of `init_pub`, because `publishermap` is keyed by publisher and not by group, and assumes that applications do not send the reserved reply text themselves.
- Command-line options, logging, timing, test programs and build files.
