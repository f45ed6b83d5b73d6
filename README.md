# Pipe-mesh message layer with Lamport clocks

This project models three course programs in Dafny. Each runs N processes
joined by a full mesh of non-blocking pipes. Process 0 coordinates and
processes 1..N-1 are workers.

- **pa4** is Lamport's mutual exclusion. Every worker keeps a queue of
  pending requests ordered by (timestamp, process id) and a Lamport clock.
  A worker that wants the critical section broadcasts a CS_REQUEST. It
  waits for a CS_REPLY from every other worker, then waits until its own
  request heads its queue. It leaves by broadcasting CS_RELEASE.
- **pa3** is a bank on Lamport time. The coordinator orders transfers. The
  source account records the withdrawal and forwards the order to the
  destination. The destination records the income, which counts as
  "pending" while it was in transit, and acknowledges to the coordinator.
  At the end every account sends its balance history to the coordinator.
- **pa2** is the same bank on physical time.

The model covers one process at a time:

- the descriptor table the coordinator fills before forking, and the row
  each process keeps of it (`Fabric`);
- the message records (`Wire`) and their builders (`Messages`);
- the send and receive layer over per-peer FIFO channels (`Ipc`);
- the request queue and the clock (`LamportTime`);
- the critical-section protocol (`Mutex`);
- the balance history and the two banking programs (`Bank`,
  `BankLamport`, `BankPhysical`).

How the environment is represented:

- **Incoming pipes.** A process's incoming pipes are a sequence of frames
  per peer, holding everything that will ever arrive on them. A busy-wait
  loop of the source becomes a loop that consumes frames. It reports
  `Stalled` when none are left, which is where the source would spin
  forever.
- **Writes.** A successful write is appended to a log of `Sent(slot,
  message)` records. The number of writes the OS still refuses is a
  parameter (`writeFailures`).
- **Clocks.** The Lamport clock is a `Clock` object. Physical time is a
  `PhysicalClock` whose upcoming readings are given in advance.

## Model

| member | source | states |
|---|---|---|
| Wire.Max | pa4/lamport_time.c:115-120 | the later of two times is at least both of them and equals one of them |
| Wire.DecrementSize | pa4/pa4.c:128 | `x--` on a size_t: one less for a positive counter, SIZE_MAX for zero |
| LamportTime.Cmp | pa4/lamport_time.c:7-21 | node_cmp returns -1, 0 or 1. It is negative exactly when the first entry precedes the second in (key, value) lexicographic order, positive exactly when the second precedes the first, and zero exactly when they are equal |
| LamportTime.CmpAntisymmetric | pa4/lamport_time.c:7-21 | swapping the arguments of node_cmp negates the result |
| LamportTime.InsertSorted | pa4/lamport_time.c:45-82 | the reference insertion is one entry longer and holds the old entries plus the new one, as a multiset |
| LamportTime.InsertSortedMembers | pa4/lamport_time.c:45-82 | an entry is in the queue after an insertion exactly when it was there before or is the inserted one |
| LamportTime.InsertSortedSplit | pa4/lamport_time.c:45-82 | when the new entry follows the first p entries and precedes the rest, insertion puts it at position p |
| LamportTime.InsertSortedKeepsOrder | pa4/lamport_time.c:45-82 | inserting an entry that is not yet present into a strictly sorted queue leaves it strictly sorted |
| LamportTime.InsertAt | pa4/lamport_time.c:72-80 | linking the node between the neighbours where the walk stops gives the sorted insertion, and the result is sorted |
| LamportTime.InsertLinks | pa4/lamport_time.c:52-81 | the spliced list stays sorted, and `tail` moves to the new node exactly when it was appended at the end |
| LamportTime.HeadIsLeast | pa4/lamport_time.c:85-90 | the head of a sorted queue precedes or equals every entry in it |
| LamportTime.SameEntriesBothEmpty | pa4/lamport_time.c:85-90 | two queues that hold the same entries are either both empty or both non-empty, so peek agrees on emptiness |
| LamportTime.SameRequestsSameOrder | pa4/lamport_time.c:45-82 | two sorted queues that hold the same entries are equal, so processes that have queued the same requests order them identically |
| LamportTime.Queue.constructor | pa4/lamport_time.c:24-29 | a new queue is empty and has no tail |
| LamportTime.Queue.Insert | pa4/lamport_time.c:45-82 | for a pair not yet queued, the queue becomes the sorted insertion of (key, value). It stays strictly sorted, with `tail` on the last node |
| LamportTime.Queue.Place | pa4/lamport_time.c:52-75 | the four branches of the insertion and its walking loop find a position whose left neighbour precedes the node and whose right neighbour follows it |
| LamportTime.Queue.Peek | pa4/lamport_time.c:85-90 | returns -1 for an empty queue. Otherwise it returns the value of the head, which is the least entry. Nothing changes |
| LamportTime.Queue.Get | pa4/lamport_time.c:93-108 | when the queue is empty or the head's value is negative, returns -1 and changes nothing. Otherwise it returns the head's value and removes exactly the head. `tail` is never reset |
| LamportTime.Clock.constructor | pa4/lamport_time.c:4 | the clock starts at 0 |
| LamportTime.Clock.Increment | pa4/lamport_time.c:110-113 | the clock becomes old+1, and that value is returned |
| LamportTime.Clock.Set | pa4/lamport_time.c:115-120 | the clock becomes max(old, new), so it never decreases, and that value is returned |
| LamportTime.Clock.SetFromMsg | pa4/lamport_time.c:122-125 | the pa4 receive rule: the clock becomes max(clock, stamp) with no extra step |
| LamportTime.Clock.SetFromMsgAndTick | pa3/pa3.c:32-35 | the pa3 receive rule: the clock becomes max(clock, stamp) + 1 |
| LamportTime.Clock.Now | pa4/lamport_time.c:127-129 | returns the clock without changing it |
| LamportTime.Clock.ObserveAll | pa4/pa4.c:270-277 | applying the receive rule to a sequence of messages leaves the clock at `Observed` of them |
| LamportTime.ObservedSnoc | pa4/lamport_time.c:122-125 | observing one more message applies the receive rule once more to the clock the earlier ones left |
| LamportTime.ObservedAtLeast | pa4/lamport_time.c:115-125 | receiving never lowers the clock |
| LamportTime.ObservedBounds | pa4/pa4.c:270-277 | after observing messages, the clock is at least its old value and at least every stamp, each plus one under the pa3 rule. Under the pa3 rule it also advanced once per message. Under the pa4 rule it equals the old value or one of the stamps |
| Ipc.GetIndex | pa4/ipc.c:5 | GET_INDEX maps a peer other than oneself to a non-negative slot below the larger of the two ids |
| Ipc.PeerOf | pa4/ipc.c:5 | the inverse of GET_INDEX never names oneself |
| Ipc.SlotsArePeers | pa4/ipc.c:5 | for id in 0..N-1, GET_INDEX maps the N-1 peers bijectively onto 0..N-2, and PeerOf is its inverse in both directions |
| Ipc.SlotRoundTrip | pa4/ipc.c:5 | PeerOf(GetIndex(x)) == x for every peer, and GetIndex(PeerOf(k)) == k for every slot |
| Ipc.PollFinds | pa4/ipc.c:41-56 | a receive_any pass from id i returns 0 or -1. On 0, the sender is a peer at or above i whose channel began with a whole message, and that message is returned and consumed |
| Ipc.PollKeeps | pa4/ipc.c:41-56 | the pass leaves untouched the channels below i and, after a success, those of the ids above the sender |
| Ipc.PollSkips | pa4/ipc.c:45-55 | every channel the pass skipped (all of them on -1, those below the sender on 0) was empty or began with a broken frame, and that frame was consumed |
| Ipc.PollSkipsOne | pa4/ipc.c:45-55 | the same as PollSkips, for one given id |
| Ipc.PollScan | pa4/ipc.c:41-56 | the full receive_any pass from id 0: it returns the lowest peer that had a whole message, and every lower channel was empty or began with a broken frame. Later channels are untouched |
| Ipc.PollProgress | pa4/ipc.c:41-56 | a pass only shortens channels, and it consumes at least one frame whenever any frame is left, so a busy-wait on receive_any ends |
| Ipc.PassFromSuffix | pa4/ipc.c:41-56 | a pass made after earlier passes still leaves suffixes of the original channels. On success it took the message heading the sender's channel |
| Ipc.FirstWanted | pa4/ipc.c:23-39 | the first frame a receive-until-success loop accepts: a whole message, or a whole ACK. It is -1 when there is none |
| Ipc.FanoutCoversSlots | pa4/ipc.c:10-21 | send_multicast writes the message once to each slot 0..N-2, in ascending order |
| Ipc.WorkersBelowShape | pa4/pa4.c:270-273 | the workers receive_all_msgs visits are 1..N-1 without oneself, in strictly ascending order |
| Ipc.WorkerAt | pa4/pa4.c:270-273 | each worker other than oneself comes in that order right after the workers below it |
| Ipc.Pipes.constructor | pa4/pa4.c:170-172 | a process's communication record starts with its id, the process count, its channels and an empty write log |
| Ipc.Pipes.Send | pa4/ipc.c:58-68 | sending to oneself returns -1 and writes nothing. A refused write returns -2 and writes nothing. Otherwise it returns 0 and appends exactly one write, to the slot GET_INDEX(dst) |
| Ipc.Pipes.SendUntilWritten | pa4/ipc.c:18 | retrying until the write goes through appends exactly one write, to dst's slot |
| Ipc.Pipes.SendMulticast | pa4/ipc.c:10-21 | the message goes once to every other process, in ascending order, and the result is 0 |
| Ipc.Pipes.Receive | pa4/ipc.c:23-39 | receiving from oneself returns -1. An empty channel returns -2. A header without its payload returns -3 and keeps the old payload in the buffer. A whole message returns 0. Each read consumes one frame |
| Ipc.Pipes.ReceiveAny | pa4/ipc.c:41-56 | result, buffer and channels are those of the receive_any pass. `last_msg_from` is set to the sender on success and kept on -1 |
| Ipc.TookPass | pa4/ipc.c:41-56 | one receive_any pass takes in the frame it succeeds on, from a peer, and no other whole frame. Every other frame it reads has no payload |
| Ipc.Pipes.AwaitAny | pa4/pa4.c:80 | busy-waiting on receive_any returns the one whole frame it consumed, from a peer's channel. Every other frame it read had no payload. A stall leaves no frame, so no whole message was left |
| Ipc.Pipes.AwaitFrom | pa3/pa3.c:173 | busy-waiting on one peer consumes that channel up to and including the first acceptable frame and returns it. It stalls, with the channel drained, when there is none |
| Ipc.Pipes.TakeFromWorker | pa4/pa4.c:274 | one round of receive_all_msgs: takes the next worker's first whole message or stalls |
| Ipc.Pipes.ReceiveFromWorkers | pa4/pa4.c:266-289 | exactly one message is taken from each worker 1..N-1 other than oneself, in ascending order. The channel from id 0 is never read |
| Fabric.PairSlotIsGetIndex | pa4/pa4.c:156-157 | the table's (i > j ? j : j - 1) is GET_INDEX |
| Fabric.SlotInRange | pa4/pa4.c:156-157 | every table position pipes_init writes lies in [0, 2N(N-1)) |
| Fabric.SlotsDistinct | pa4/pa4.c:156-157 | distinct (owner, peer, end) triples get distinct table positions |
| Fabric.PipeNumbersDistinct | pa4/pa4.c:141-158 | every ordered pair gets its own pipe |
| Fabric.PipeNumberInRange | pa4/pa4.c:141-158 | the pipes are numbered 0..N(N-1)-1 |
| Fabric.PipesInit | pa4/pa4.c:135-161 | pipes_init succeeds exactly when the OS grants all N(N-1) pipes. It then holds each pair's read end in the owner's entry for the peer and the write end in the peer's entry for the owner |
| Fabric.PlaceStep | pa4/pa4.c:156-157 | writing one pair's two ends places that pair and keeps every pair placed before |
| Fabric.SlotApart | pa4/pa4.c:156-157 | the two entries a pair writes differ from every other pair's entries |
| Fabric.RowInRange | pa4/pa4.c:173 | a process's row of 2(N-1) entries lies inside the table |
| Fabric.CommunicationInit | pa4/pa4.c:165-187 | communication_init keeps exactly the 2(N-1) entries that start at curr_proc·2(N-1). It closes, once each and in the loop's order, every entry of every other process's row and nothing in its own row (the corrected loop, see Findings) |
| Fabric.CloseUnused | pa4/pa4.c:176-184 | the close loop, skipping j == i, lists table positions outside the process's own row in ascending order. It covers every entry of every other row |
| Fabric.CloseRow | pa4/pa4.c:180-183 | the inner close loop over one other process's row closes both ends for each of its peers |
| Fabric.SlotOutsideRow | pa4/pa4.c:176-184 | an entry owned by another process is not in the process's own row |
| Fabric.CloseLoopReadsOutside | pa4/pa4.c:181-182 | the close loop as written: with N = 2 at i = 0, j = 0, `j - 1` wraps and the index is SIZE_MAX - 1, outside the table |
| Fabric.CloseLoopClosesTwice | pa4/pa4.c:181-182 | the close loop as written: for i ≥ 1 the diagonal j = i closes the same entries as j = i - 1 |
| Fabric.SenderMeetsReceiver | pa4/pa4.c:156-157 | after pipes_init, x's write end for y, at GET_INDEX(y, x), and y's read end for x, at GET_INDEX(x, y), belong to the same pipe |
| Messages.Signal | pa2/communication.c:115-123 | a STOP, ACK or CS_* message carries payload_len 0 and the given type and stamp |
| Messages.TransferMessage | pa2/communication.c:127-137 | a TRANSFER carries sizeof(TransferOrder) bytes holding the order, with the given stamp |
| Messages.HistoryMessage | pa2/communication.c:151-161 | a BALANCE_HISTORY carries sizeof(BalanceHistory) bytes holding the history |
| Messages.EventMessage | pa2/communication.c:80-112 | a STARTED or DONE message carries the formatted text, with payload_len equal to the text's length |
| Messages.SendAllProcEvent | pa2/communication.c:80-112 | returns -1 for a type other than STARTED and DONE and -2 for an empty text, sending nothing in either case. Otherwise it multicasts the event message and returns 0 |
| Messages.SendAllStop | pa2/communication.c:115-123 | multicasts a STOP |
| Messages.SendTransfer | pa2/communication.c:127-137 | exactly one TRANSFER with the order is written to dst, retried until the write goes through |
| Messages.SendAck | pa2/communication.c:140-148 | exactly one ACK is written to dst |
| Messages.SendBalanceHistory | pa2/communication.c:151-161 | exactly one BALANCE_HISTORY is written to dst |
| Messages.ReceiveAllMsgs | pa3/pa3.c:470-493 | takes one message from each worker except oneself, in ascending order, and applies the receive rule to each stamp |
| Mutex.RequestKeysAgree | pa4/pa4.c:118 | the receivers' half of the key agreement: stamp - 1 on every message of a CS_REQUEST fanout stamped t + 1 gives the entry (t, sender) |
| Mutex.Work | pa4/pa4.c:113-131 | the reference for cs_work on the protocol state. The clock never goes back, the write log grows by CS_REPLY writes only, and done_left drops by at most one, and only on a DONE |
| Mutex.RoundShape | pa4/pa4.c:423-433 | a log that went through a CS_REQUEST fanout, then replies only, then a later CS_RELEASE fanout, with the own id at the head of the queue, is one logged pass |
| Mutex.CS.constructor | pa4/pa4.c:407-414 | a worker's protocol state: its channels, an empty queue, the clock and done_left |
| Mutex.CS.SendAllRequest | pa4/pa4.c:201-210 | the clock advances once, and a CS_REQUEST stamped with the new value goes to everyone |
| Mutex.CS.SendAllRelease | pa4/pa4.c:246-254 | the clock advances once, and a CS_RELEASE stamped with the new value goes to everyone |
| Mutex.CS.SendReply | pa4/pa4.c:256-264 | the clock advances once, and exactly one CS_REPLY stamped with the new value goes to dst |
| Mutex.CS.SendAllProcEvent | pa4/pa4.c:212-244 | the clock advances once, and the STARTED or DONE is stamped with the new value. The result is -1 or -2 as in the shared builder |
| Mutex.CS.CsWork | pa4/pa4.c:113-131 | the new queue, clock, done_left and log are `Work` of the old ones: a request goes into the queue under (stamp - 1, last_msg_from) and gets one CS_REPLY, a release removes the head, a DONE counts down. It returns -1 exactly for a release whose removed head is not last_msg_from |
| Mutex.CS.Step | pa4/pa4.c:80-84 | one busy-wait, clock update and cs_work round. The message returned is the one whole frame it consumed, from a peer's channel, and every other frame it read had no payload. On `Handled` the clock first becomes max(clock, stamp) and the state is then `Work` of it. A request already queued is reported after the clock update, changing nothing else. It stalls only when no frame is left |
| Mutex.CS.StepCounted | pa4/pa4.c:80-88 | a step as the request loops count it: the clock never goes back, the log grows by replies only, CS_REPLY and DONE messages are counted among the whole frames consumed, and every step but a stall consumes a frame |
| Mutex.CS.FileRequest | pa4/pa4.c:75-76 | the requester's half of the key agreement. The queue becomes the sorted insertion of (old clock, self), and a CS_REQUEST stamped old clock + 1 goes to everyone. Every receiver files it under that same entry |
| Mutex.CS.RequestCs | pa4/pa4.c:68-101 | the log starts with the CS_REQUEST fanout stamped old clock + 1, as filed by `FileRequest`, and then holds only replies. On `Entered` at least N-2 CS_REPLY messages were among the whole frames consumed, and the head of the queue carries the own id |
| Mutex.CS.AwaitReplies | pa4/pa4.c:79-89 | the reply loop: on `Handled`, exactly replyLeft CS_REPLY messages were among the whole frames consumed. The log grows by replies only and the clock never goes back |
| Mutex.CS.AwaitHead | pa4/pa4.c:92-98 | the second wait ends only when the head of the queue carries the own id. Only whole frames consumed count as messages taken |
| Mutex.CS.PassCriticalArea | pa4/pa4.c:423-433 | one pass under the lock. On `Entered` the log grew by a CS_REQUEST fanout stamped old clock + 1, then replies only, then a CS_RELEASE fanout stamped with the final clock. In between, the own id headed the queue, and the queue ends as that queue without its head |
| Mutex.CS.PassRounds | pa4/pa4.c:421-434 | on `Entered` there are `rounds` logged passes when mutexl is set and none otherwise. They follow each other in the log, each asking for the lock after the previous one left it |
| Mutex.CS.ServeUntilDone | pa4/pa4.c:439-446 | the final loop ends exactly when done_left reaches 0. Among the whole frames consumed, at least as many are DONE messages as done_left counted down. The log grows by replies only |
| Mutex.CS.ReleaseCs | pa4/pa4.c:103-111 | a CS_RELEASE stamped with the advanced clock goes to everyone, and exactly the head of the queue is removed |
| Mutex.CS.AwaitDones | pa4/pa4.c:392-401 | the coordinator's loop writes nothing. On `Finished` exactly done_left DONE messages were among the whole frames consumed, and the clock is the receive rule applied to those DONE messages only |
| Mutex.CS.TakeDone | pa4/pa4.c:397-399 | a DONE raises the clock to max(clock, stamp) and counts done_left down by one, writing nothing |
| Mutex.CS.Start | pa4/pa4.c:417-418 | the STARTED broadcast stamped old clock + 1 is the only write. Then one message is taken from each other worker, and the clock ends at `Observed` of them from old clock + 1: one tick, then the maximum with each stamp. The queue and done_left do not change |
| Mutex.CS.PassAndServe | pa4/pa4.c:421-446 | on `Finished`, the log after the old one holds the logged passes, then the DONE broadcast, then replies only. At least done_left DONE messages were among the whole frames consumed |
| Mutex.ParentWork | pa4/pa4.c:382-405 | the coordinator writes nothing. It takes one STARTED round from the workers, then ends after N-1 DONE messages from any senders among the whole frames consumed. Its clock is the receive rule over the STARTED messages and then over the DONE messages only |
| Mutex.ChildWork | pa4/pa4.c:406-451 | a worker's log starts with its STARTED broadcast stamped old clock + 1. On `Finished` there follow currentId·5 logged passes when mutexl is set (none otherwise), then the DONE broadcast, then replies only. At least N-2 DONE messages were among the whole frames consumed |
| Mutex.CS.Run | pa4/pa4.c:417-446 | the worker's run on its record: the log starts with the STARTED broadcast stamped old clock + 1. On `Finished` there follow currentId·5 logged passes when mutexl is set (none otherwise), then the DONE broadcast, then replies only, with at least N-2 DONEs among the whole frames consumed |
| Bank.TakeReply | pa3/pa3.c:173 | waits on worker i's channel for its first whole message and cuts the channel just after it. A stall means that channel held no whole message |
| Bank.CollectHistories | pa3/pa3.c:169-181 | takes worker i's first whole message for i = 1, 2, ... and cuts each channel just after it. On `Finished` all N-1 are BALANCE_HISTORY, and all[i-1] is worker i's history. On `Failed` (-1) the last worker read sent another type, and every lower worker sent a history. A stall means that worker's channel held no whole message |
| Bank.OrderWait | pa3/banking.c:16-21 | one order: exactly one ACK is taken when the wait finishes, and none otherwise. The TRANSFER goes out (the order finishes or is left unanswered) exactly when src names a peer. A src that is no peer ends it `Undefined` before anything is sent; a dst equal to the coordinator's id waits for ever, `Stalled` with the channels untouched, since receive from oneself always fails (pa4/ipc.c:26-28); a dst past the table is `Undefined` after the send; a peer dst is read up to its first ACK, or drained and `Stalled` |
| Bank.AckWaits | pa3/banking.c:16-21 | the coordinator's orders, one after the other, each as `OrderWait` says, up to the first whose wait does not finish. The run keeps one channel per peer and takes at most one ACK per order, fewer when it ends early; an order whose TRANSFER went out with no ACK taken ends it, never a finished one |
| Bank.AckWaitsAcks | pa3/banking.c:21 | every message the waits take is an ACK. There is at most one per order, and one for every order exactly when the run finishes. The run ends `Finished`, `Stalled` or `Undefined` |
| Bank.RecordedTimeline | pa3/pa3.c:113-127 | after update_history, every entry up to and including the event carries its own index as its time |
| Bank.RecordedEntries | pa3/pa3.c:113-127 | entries [prev_time, curr) hold the old balance at their own time. The event's entry holds the new balance. Other entries keep their balance and time. pending_in grows by `amount` exactly on [from, curr), for an income |
| Bank.Account.constructor | pa3/pa3.c:193-197 | an account starts from (balance, pending 0, time 0) with prev_time 0 |
| Bank.Account.Record | pa3/pa3.c:113-127 | the history table becomes `Recorded`. history_len = curr + 1, prev_time = curr, and the entry at curr is the state with the balance changed by `amount` |
| BankLamport.EventTime | pa3/pa3.c:104-108 | the event's time is max(clock, stamp), plus one when `inc` is set, so it is at least both |
| BankLamport.UpdateHistory | pa3/pa3.c:101-128 | the clock moves to the event's time and the history is recorded there. An income counts as pending from the stamp, or from one unit before it with `fix` |
| BankLamport.DoTransfer | pa3/pa3.c:131-153 | as source: two events, the balance drops by the amount, and the TRANSFER goes to the destination. As destination: an income event, one more clock step, balance up, and an ACK to the parent. Otherwise it returns -1 and nothing changes |
| BankLamport.RequestTransfer | pa3/banking.c:6-24 | the clock ticks first, whatever the ids. The order (src, dst, amount), stamped with the clock plus one, goes to src, not dst, exactly when src is a peer. The outcome and the channels are those of `OrderWait`, so only dst's channel is read, up to its first ACK. The clock ends at max(clock + 1, ACK stamp) + 1 when the ACK is taken, at clock + 1 otherwise |
| BankLamport.AckClock | pa3/banking.c:16-22 | the coordinator's clock after the ACK waits of its orders, from t: at least two steps on per ACK (the tick for the TRANSFER, then the receive rule), and past every ACK's stamp |
| BankLamport.SendOrder | pa3/banking.c:6-24 | one order, part way through the run. Either its ACK comes: the run goes one order further as `AckWaits` says, the log gains the TRANSFER to src, the clock is `AckClock` with this ACK added, and every order's stamp stays below it. Or it does not: the run ends with the order's outcome as `OrdersCarried` states, its TRANSFER logged when src is a peer, with the clock one tick past `AckClock` of the ACKs taken |
| BankLamport.HandleMessage | pa3/pa3.c:211-225 | one message of the main loop. A TRANSFER is carried out as `Transferred` says: the new clock, history, balance and the one write of `DoTransfer`. A STOP or a DONE is recorded as an event at max(clock, stamp) + 1, and the clock moves there. A STOP is then answered with the DONE fanout stamped with that time; a DONE sends nothing. It fails (-1) exactly when the message is not a TRANSFER, STOP or DONE. `Undefined` exactly when the transfer or the event would leave the history table or write where there is no pipe. In both cases nothing changes. Otherwise the log grows by one answer `Answers` allows and the balance by the message's `NetEffect`. The clock never goes back |
| BankLamport.ServeTransfers | pa3/pa3.c:206-226 | the messages taken are the whole frames consumed. The log grows only by the answers to them, in order, one `Answers` per message: the forwarded order or the ACK to the parent for a TRANSFER, one DONE fanout per STOP, nothing for a DONE. The balance moves by the `Net` of the transfers carried out, and the clock never goes back. On `Finished` there was a STOP and N-2 DONEs, and every message was a TRANSFER, STOP or DONE. On `Failed` (-1) the last message was of another kind and every earlier one was served |
| BankLamport.ServeOne | pa3/pa3.c:207-225 | one round of the loop: the message is the one whole frame consumed, or a stall means none was left. Unless it stalls or leaves the table, the message's answer is appended to the answers so far and its net effect to the balance. It fails exactly on a message that is not served |
| BankLamport.SendHistory | pa3/pa3.c:230-231 | one more event at max(clock, 0) + 1, where the clock moves, recorded in the table as `Event` says. Then exactly one write, the BALANCE_HISTORY to the parent, stamped with that clock. Its timeline has length clock + 1 and its last entry holds the current balance. `Undefined` exactly when that time is past MAX_T, and then nothing changes |
| BankLamport.ChildWork | pa3/pa3.c:187-233 | the log starts with the STARTED fanout stamped max(clock, 0) + 1. One STARTED round is then taken, and the main loop's messages are the whole frames consumed after it. On `Finished` and `Failed` the log is that fanout followed by one `Answers` per message handled. On `Finished` it ends with the BALANCE_HISTORY to the parent, whose timeline has length clock + 1 and whose last entry holds the opening balance moved by the `Net` of the transfers. There was a STOP and N-2 DONEs, and every message was served. On `Failed` the last message was of another kind. The clock never goes back |
| BankLamport.Open | pa3/pa3.c:199-204 | the opening state is recorded as an event at max(clock, 0), as `Event` says. The STARTED fanout stamped max(clock, 0) + 1 is the only write, and a STARTED is taken from every other account with the receive rule applied to each after one more tick. The balance is unchanged |
| BankLamport.Run | pa3/pa3.c:206-232 | the main loop, then the history: on `Finished` the log is one `Answers` per message taken followed by the BALANCE_HISTORY, whose last entry holds the current balance moved by the transfers' `Net`. On `Failed` the log is the answers and the last message is the first unserved one |
| BankLamport.SendOrders | pa3/banking.c:6-24 | the orders are carried out in turn as `OrdersCarried` states, from the channels as they were: the outcome is that of the `AckWaits` run, the channels are where its ACK waits left them, and the log holds exactly the orders that went out, each TRANSFER to its source account, including the one the run ended at when its src is a peer. The clock ends at `AckClock` of the ACKs taken from the old clock, one tick more for the order the run ended at, so it never goes back. When every order is carried out, every order's stamp is below the clock |
| BankLamport.StopAndCollect | pa3/pa3.c:165-181 | the STOP multicast, stamped one past the clock, is the only write. The DONE round is taken from the channels as they were, as `Drained` says, and the clock ends at `Observed` of the DONEs from the STOP's stamp. A stall there ends the run `Stalled` with no history read. Otherwise the histories are collected as in `CollectHistories` from the channels the DONE round left |
| BankLamport.Coordinate | pa3/pa3.c:164-184 | the orders are carried out as `OrdersCarried` states, with the clock at `AckClock` of the ACKs. If they do not all finish, the run ends with that outcome and the clock one tick on for the order it ended at. Otherwise the STOP multicast follows the orders and nothing else, stamped `AckClock` of the ACKs plus one, later than the old clock and than every order's stamp. The DONE round is `Drained` from where the ACK waits left the channels, the clock ends at `Observed` of the DONEs, and the histories are collected as in `CollectHistories`, with all[i-1] worker i's |
| BankLamport.ParentWork | pa3/pa3.c:156-185 | the STARTED round is taken from the channels as they were, as `Drained` says. A stall there ends the run `Stalled` with nothing written. Otherwise the rest is as `Coordinate` states, from the channels the STARTED round left and with the clock at `Observed` of the STARTED messages |
| BankPhysical.PhysicalClock.constructor | pa2/pa2.c:14 | the physical clock with its current and upcoming readings |
| BankPhysical.PhysicalClock.Read | pa2/pa2.c:14 | a reading takes the next upcoming time and keeps the last one when none are left, which is `Next` of the clock's value |
| BankPhysical.SendProcEvent | pa2/communication.c:80-112 | the STARTED or DONE fanout is stamped with the first reading, and formatting its text takes a second one: the clock moves two readings on. Otherwise it returns -1 after one reading and nothing is sent. -2 and no write for an empty text |
| BankPhysical.UpdateHistory | pa2/pa2.c:12-28 | with physical time t, fills [prev_time, t) with the old state, sets history[t] to the balance changed by `amount`, and sets history_len = t + 1 and prev_time = t. pending_in never changes. It is undefined outside the table |
| BankPhysical.DoTransfer | pa2/pa2.c:29-49 | as `Transferred` says. As source, the withdrawal is recorded at the next reading, the balance drops, and the TRANSFER, stamped with the reading after it, goes to the destination. As destination, the same with an income and an ACK to the parent. Otherwise it returns -1 with no change. `defined` is false, with nothing recorded or sent, exactly when the reading falls outside the history table |
| BankPhysical.RequestTransfer | pa2/banking.c:6-24 | the clock moves one reading on, whatever the ids. The TRANSFER with (src, dst, amount), stamped with that reading, goes to src exactly when src is a peer, and is then the only write. The outcome and the channels are those of `OrderWait`: only dst's channel is read, and non-ACK messages are discarded until an ACK |
| BankPhysical.Advance | pa2/communication.c:131 | after k reads, the clock shows its k-th reading, `Reading` of k |
| BankPhysical.SendOrder | pa2/banking.c:6-24 | one order, part way through the run: the clock is read once, the (j+1)-th reading since the run began, and a TRANSFER to src carries it. Either its ACK comes and the run goes one order further as `AckWaits` says, or it does not and the run ends with the order's outcome as `OrdersCarried` states, j+1 orders begun, its TRANSFER logged when src is a peer |
| BankPhysical.HandleMessage | pa2/pa2.c:106-118 | one message of the main loop. A TRANSFER is carried out as `Transferred` says. A STOP is answered with the DONE fanout stamped with the next reading, and the clock moves two readings on, with the account unchanged. A DONE changes nothing. It fails (-1) exactly when the message is not a TRANSFER, STOP or DONE, and then nothing changes. `Undefined` exactly when the transfer is not `TransferDefined`. Otherwise the log grows by one answer `Answers` allows and the balance by the message's `NetEffect` |
| BankPhysical.ServeTransfers | pa2/pa2.c:101-119 | the messages taken are the whole frames consumed. The log grows only by the answers to them, in order, one `Answers` per message: the forwarded order or the ACK to the parent for a TRANSFER, one DONE fanout per STOP, nothing for a DONE. The balance moves by the `Net` of the transfers carried out. On `Finished` there was a STOP and N-2 DONEs, and every message was a TRANSFER, STOP or DONE. On `Failed` (-1) the last message was of another kind and every earlier one was served |
| BankPhysical.ServeOne | pa2/pa2.c:102-118 | one round of the loop: the message is the one whole frame consumed, or a stall means none was left. Unless it stalls or its transfer is undefined, the message's answer is appended to the answers so far and its net effect to the balance. It fails exactly on a message that is not served |
| BankPhysical.SendHistory | pa2/pa2.c:124-125 | one more event at the next reading, recorded as `Event` says. Then exactly one write, the BALANCE_HISTORY to the parent, stamped with the reading after it: the clock moves two readings on. Its last entry holds the current balance. `Undefined` exactly when the first reading falls outside the table; then only that reading is taken and nothing else changes |
| BankPhysical.ChildWork | pa2/pa2.c:84-127 | the log starts with the STARTED fanout stamped with the clock's second reading (the first records the opening state). One STARTED round is then taken, and the main loop's messages are the whole frames consumed after it. On `Finished` and `Failed` the log is that fanout followed by one `Answers` per message handled. On `Finished` it ends with the BALANCE_HISTORY to the parent, whose last entry holds the opening balance moved by the `Net` of the transfers. There was a STOP and N-2 DONEs, and every message was served. On `Failed` the last message was of another kind |
| BankPhysical.Open | pa2/pa2.c:96-99 | the opening state is recorded at the first reading, as `Event` says, and the STARTED fanout stamped with the second is the only write. Formatting its text takes a third reading. A STARTED is then taken from every other account. When the first reading falls outside the table, only that reading is taken and nothing else changes |
| BankPhysical.Run | pa2/pa2.c:101-126 | the main loop, then the history: on `Finished` the log is one `Answers` per message taken followed by the BALANCE_HISTORY, whose last entry holds the current balance moved by the transfers' `Net`. On `Failed` the log is the answers and the last message is the first unserved one |
| BankPhysical.SendOrders | pa2/banking.c:6-24 | the orders are carried out in turn as `OrdersCarried` states, from the channels as they were: the outcome, the channels and the log are those of the `AckWaits` run, each TRANSFER to its source account. The clock is read once per order begun, `Advance` of the old clock by `OrdersBegun`, and the j-th order that went out carries the j-th reading |
| BankPhysical.StopAndCollect | pa2/pa2.c:63-78 | the clock moves one reading on, and the STOP multicast stamped with that reading is the only write. The DONE round is taken from the channels as they were, as `Drained` says, with no further reading. A stall there ends the run `Stalled` with no history read. Otherwise the histories are collected as in `CollectHistories` from the channels the DONE round left |
| BankPhysical.Coordinate | pa2/pa2.c:60-78 | the orders are carried out as `OrdersCarried` states, the j-th stamped with the clock's j-th reading. If they do not all finish, the run ends with that outcome, the clock one reading on per order begun. Otherwise the STOP multicast follows the orders and nothing else, stamped with the reading after those (one more than the number of orders), where the clock stays. The DONE round is `Drained` from where the ACK waits left the channels, and the histories are collected as in `CollectHistories`, with all[i-1] worker i's |
| BankPhysical.ParentWork | pa2/pa2.c:52-82 | the STARTED round is taken from the channels as they were, as `Drained` says, and reads no clock. A stall there ends the run `Stalled` with nothing written and the clock untouched. Otherwise the rest is as `Coordinate` states, from the channels the STARTED round left |

The layout code of pipes_init and communication_init appears three times:
at pa4/pa4.c:135-187, pa3/pa3.c:318-370 and pa2/communication.c:15-67.
The pipe layout and the close loop are the same in all three, and the
`Fabric` module models them. The pa3 and pa2 copies of communication_init
also take the account's opening balance and store it in the record, which
the pa4 copy does not. The model passes that balance to `ChildWork`
instead. The message builders of pa3/pa3.c:383-467 differ from those of
pa2/communication.c:80-161 in the time they use. The stamp is a parameter
of `Messages`: each caller passes the physical or the Lamport time.
Reading the Lamport time changes nothing, but every physical reading
consumes one value of the clock. pa2's send_all_proc_event_msg reads the
clock twice, once for the stamp and once for the text
(pa2/communication.c:87, 91 and 94). `BankPhysical.SendProcEvent` makes
both readings and discards the second, since the text is a parameter. The two
receive_all_msgs differ too: pa3's (pa3/pa3.c:470-493) applies the receive
rule to every message it takes (pa3/pa3.c:480), and pa2's
(pa2/communication.c:164-185) does not. `ReceiveAllMsgs` is pa3's, and
pa4's with pa4's receive rule. pa2's is `Ipc.Pipes.ReceiveFromWorkers`.

pa4 and pa3 use different receive rules, and the model follows the code:

- pa4 takes only the maximum on receipt (`set_lamport_time_from_msg`,
  pa4/lamport_time.c:122-125). The usual statement of Lamport's receive
  rule adds one after the maximum. `Clock.SetFromMsg` models the code.
- pa3 does add one after the maximum. That rule is
  `Clock.SetFromMsgAndTick`.

## Left out

- I/O:
  - All logging, and the formatted texts of the STARTED and DONE payloads.
    The texts are parameters.
  - `print` in the critical area, and `print_history`.
- Functions whose code is not part of the model:
  - `bank_robbery`: the transfers it asks for are the `orders` parameter
    of `ParentWork`.
  - `get_physical_time`: an oracle (`PhysicalClock`) that yields the
    times in advance.
- OS calls:
  - pipe, fcntl and set_nonblock: the number of pipes the OS grants is a
    parameter of `PipesInit`.
  - read and write: frames and the refused-write counter.
  - close: `CloseUnused` lists the positions it closes.
  - malloc, free, fork, waitpid and main.
  - `lamport_queue_destroy` and `communication_destroy`, which only free
    memory.
- Byte framing:
  - The raw framing of messages is replaced by datatypes that carry
    `payload_len`.
  - The header sizes and the constants MESSAGE_MAGIC, MAX_PAYLOAD_LEN,
    MAX_T and the struct sizes come from headers (ipc.h, banking.h) that
    are not part of this model. They are given their usual values.
- Integer widths:
  - Balances, timestamps and history_len are unbounded integers. The
    source's 16-bit `balance_t` and `timestamp_t` and 8-bit
    `s_history_len` overflow on extreme inputs, and that overflow is not
    modelled.
  - The size_t counters (done_left) do wrap, through `DecrementSize`.
- Cross-process behaviour is out of scope: interleavings, and the global
  property that at most one worker is in the critical section. Each method
  is one process's behaviour against a given future input.
- Outcomes that exist only in the model: `Stalled` (the source would spin
  forever), `DuplicateRequest` and `Undefined`. `DuplicateRequest` is a
  request that is already queued, which makes the source's insertion walk
  off the list. `Undefined` covers a history index outside [0, MAX_T], a
  send to oneself or to a non-peer inside a retry loop, and a wait on an
  id past the pipe table. The source has undefined behaviour or no
  progress in these cases.
- Mutex.ParentWork: the coordinator's CS record has a NULL queue in the
  source. The model gives it an empty queue, which a DONE never reads.
- Mutex.ChildWork: the results of request_cs and cs_work, which the source
  ignores, are not returned.
- The history table of a new account is zero-filled. In the source it is
  an uninitialised stack array, and the model fills the entries past
  history_len with zeros.
- RequestCs: does not state that the head of the queue on entering is the
  entry (clock, self) that `FileRequest` queued, only that it carries the
  own id. A CS_RELEASE removes the head whoever owns it
  (pa4/pa4.c:122-125), so the source does not keep that entry in place
  against arbitrary input.
- ServeUntilDone: states that the log grows by CS_REPLY writes only, not
  which requests they answer. That relation is stated per message, by
  `Step` and `Work`.

## Findings

| source | as written | input that shows it | evidently intended | confidence | as-written member | corrected member |
|---|---|---|---|---|---|---|
| pa2/communication.c:60-62 (also pa4/pa4.c:180-182 and pa3/pa3.c:363-365) | the close loop runs j over every id, including j == i. At i = 0 the index `j - 1` wraps in size_t and `pipes[SIZE_MAX - 1]` is closed, an index outside the table (undefined behaviour). For i ≥ 1 the diagonal closes slot i - 1 a second time | N = 2, curr_proc = 1: the loop visits i = 0, j = 0 | skip j == i, as pipes_init does, so that each entry of every other row is closed exactly once | not executed | Fabric.CloseLoopReadsOutside, Fabric.CloseLoopClosesTwice | Fabric.CloseUnused (used by Fabric.CommunicationInit) |
