/** The message builders: each fixes the header of one kind of message and
    sends it, to one peer (retrying until the write goes through) or to
    everyone. The timestamp is a parameter because the three programs stamp
    differently: with the physical time, with the Lamport clock as it is, or
    with the Lamport clock after advancing it. */
module Messages {
  import opened Wire
  import opened Ipc
  import opened LamportTime

  /** Stand-in for an uninitialised receive buffer on the stack. */
  const BLANK: Message := Message(Header(0, 0, Started, 0), NoPayload)

  function MakeHeader(t: MessageType, time: int, len: int): Header
  {
    Header(MESSAGE_MAGIC, len, t, time)
  }

  /** A message with no payload: STOP, ACK, the CS_* messages. */
  function Signal(t: MessageType, time: int): (m: Message)
    ensures WellFramed(m) && m.header.payloadLen == 0
    ensures m.header.msgType == t && m.header.localTime == time
  {
    Message(MakeHeader(t, time, 0), NoPayload)
  }

  function TransferMessage(order: TransferOrder, time: int): (m: Message)
    ensures WellFramed(m) && PayloadMatchesType(m)
    ensures m.header.msgType == Transfer && m.header.localTime == time
    ensures m.header.payloadLen == TRANSFER_ORDER_SIZE && m.payload.order == order
  {
    Message(MakeHeader(Transfer, time, TRANSFER_ORDER_SIZE), Order(order))
  }

  function HistoryMessage(h: History, time: int): (m: Message)
    ensures WellFramed(m) && PayloadMatchesType(m)
    ensures m.header.msgType == BalanceHistory && m.header.localTime == time
    ensures m.header.payloadLen == BALANCE_HISTORY_SIZE && m.payload.history == h
  {
    Message(MakeHeader(BalanceHistory, time, BALANCE_HISTORY_SIZE), Balances(h))
  }

  /** STARTED or DONE, carrying the formatted log line as its payload. */
  function EventMessage(t: MessageType, time: int, text: seq<char>): (m: Message)
    requires (t == Started || t == Done) && |text| <= MAX_PAYLOAD_LEN
    ensures WellFramed(m) && PayloadMatchesType(m)
    ensures m.header.msgType == t && m.header.localTime == time
    ensures m.header.payloadLen == |text| && m.payload == Text(text)
  {
    Message(MakeHeader(t, time, |text|), Text(text))
  }

  /** The STARTED or DONE broadcast of `text`: nothing for an empty text. */
  function Announcement(t: MessageType, time: int, text: seq<char>, self: int, n: int): seq<Sent>
    requires (t == Started || t == Done) && |text| <= MAX_PAYLOAD_LEN
  {
    if text == [] then [] else Fanout(EventMessage(t, time, text), self, n, 0)
  }

  /** The event broadcast common to the three programs: -1 for a type other
      than STARTED and DONE, -2 for an empty text, otherwise the message goes
      to everyone and the result is 0. */
  method SendAllProcEvent(comm: Pipes, t: MessageType, time: int, text: seq<char>) returns (r: int)
    requires comm.Valid() && |text| < MAX_PAYLOAD_LEN
    modifies comm
    ensures comm.Valid() && comm.incoming == old(comm.incoming) && comm.lastMsgFrom == old(comm.lastMsgFrom)
    ensures t != Started && t != Done ==>
              r == -1 && comm.sent == old(comm.sent) && comm.writeFailures == old(comm.writeFailures)
    ensures (t == Started || t == Done) && text == [] ==>
              r == -2 && comm.sent == old(comm.sent) && comm.writeFailures == old(comm.writeFailures)
    ensures (t == Started || t == Done) && text != [] ==>
              && r == 0
              && comm.sent == old(comm.sent) + Fanout(EventMessage(t, time, text), comm.currentId, comm.totalIds, 0)
              && comm.writeFailures == if comm.totalIds >= 2 then 0 else old(comm.writeFailures)
  {
    if t != Started && t != Done {
      return -1;
    }
    if |text| == 0 {
      return -2;
    }
    r := comm.SendMulticast(EventMessage(t, time, text));
  }

  method SendAllStop(comm: Pipes, time: int)
    requires comm.Valid()
    modifies comm
    ensures comm.Valid() && comm.incoming == old(comm.incoming) && comm.lastMsgFrom == old(comm.lastMsgFrom)
    ensures comm.sent == old(comm.sent) + Fanout(Signal(Stop, time), comm.currentId, comm.totalIds, 0)
    ensures comm.writeFailures == if comm.totalIds >= 2 then 0 else old(comm.writeFailures)
  {
    var _ := comm.SendMulticast(Signal(Stop, time));
  }

  method SendTransfer(comm: Pipes, dst: int, order: TransferOrder, time: int)
    requires comm.Valid() && comm.IsPeer(dst)
    modifies comm
    ensures comm.Valid() && comm.incoming == old(comm.incoming) && comm.lastMsgFrom == old(comm.lastMsgFrom)
    ensures comm.sent == old(comm.sent) + [Sent(GetIndex(dst, comm.currentId), TransferMessage(order, time))]
    ensures comm.writeFailures == 0
  {
    comm.SendUntilWritten(dst, TransferMessage(order, time));
  }

  method SendAck(comm: Pipes, dst: int, time: int)
    requires comm.Valid() && comm.IsPeer(dst)
    modifies comm
    ensures comm.Valid() && comm.incoming == old(comm.incoming) && comm.lastMsgFrom == old(comm.lastMsgFrom)
    ensures comm.sent == old(comm.sent) + [Sent(GetIndex(dst, comm.currentId), Signal(Ack, time))]
    ensures comm.writeFailures == 0
  {
    comm.SendUntilWritten(dst, Signal(Ack, time));
  }

  method SendBalanceHistory(comm: Pipes, dst: int, h: History, time: int)
    requires comm.Valid() && comm.IsPeer(dst)
    modifies comm
    ensures comm.Valid() && comm.incoming == old(comm.incoming) && comm.lastMsgFrom == old(comm.lastMsgFrom)
    ensures comm.sent == old(comm.sent) + [Sent(GetIndex(dst, comm.currentId), HistoryMessage(h, time))]
    ensures comm.writeFailures == 0
  {
    comm.SendUntilWritten(dst, HistoryMessage(h, time));
  }

  /** Collects one message from every worker, lowest id first, and applies
      the receive rule of the clock to each stamp (`tick` selects the rule
      that also advances the clock). */
  method ReceiveAllMsgs(comm: Pipes, clock: Clock, tick: bool, buffer: Message)
    returns (stalled: bool, ghost msgs: seq<Message>)
    requires comm.Valid()
    modifies comm, clock
    ensures comm.Valid() && comm.sent == old(comm.sent) && comm.writeFailures == old(comm.writeFailures)
    ensures comm.lastMsgFrom == old(comm.lastMsgFrom)
    ensures Drained(old(comm.incoming), comm.incoming, comm.currentId, comm.totalIds, stalled, msgs)
    ensures clock.time == Observed(old(clock.time), msgs, tick)
  {
    var got;
    stalled, got := comm.ReceiveFromWorkers(buffer);
    clock.ObserveAll(got, tick);
    msgs := got;
  }
}
