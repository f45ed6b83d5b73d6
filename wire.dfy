/** The records that travel between processes: a fixed header followed by a
    typed payload, the constants the builders put into them, and small
    helpers: the maximum used by the Lamport clock rules and the wrapping
    decrement of an unsigned counter. */
module Wire {

  datatype Option<T> = None | Some(value: T)

  /** Process 0 is the coordinating (parent) process; workers are 1..N-1. */
  const PARENT_ID: int := 0

  const MESSAGE_MAGIC: int := 0xAFAF
  const HEADER_SIZE: nat := 8
  const MAX_MESSAGE_LEN: nat := 4096
  const MAX_PAYLOAD_LEN: nat := MAX_MESSAGE_LEN - HEADER_SIZE

  /** Highest timestamp a balance history can hold (it has MAX_T + 1 slots). */
  const MAX_T: nat := 255
  const TRANSFER_ORDER_SIZE: nat := 4
  const BALANCE_STATE_SIZE: nat := 6
  const BALANCE_HISTORY_SIZE: nat := 2 + (MAX_T + 1) * BALANCE_STATE_SIZE

  /** Offsets of the two ends of a pipe inside a process's descriptor table. */
  const PIPE_READ_TYPE: nat := 0
  const PIPE_WRITE_TYPE: nat := 1

  /** Largest value of the unsigned counters (size_t) the loops count down. */
  const SIZE_MAX: nat := 0xFFFF_FFFF_FFFF_FFFF

  datatype MessageType =
    | Started | Done | Ack | Stop | Transfer | BalanceHistory
    | CsRequest | CsReply | CsRelease

  datatype TransferOrder = TransferOrder(src: int, dst: int, amount: int)

  datatype BalanceState = BalanceState(balance: int, time: int, pendingIn: int)

  /** The payload of a BALANCE_HISTORY message: whose history, how many
      entries are meaningful, and the entries themselves. */
  datatype History = History(id: int, len: int, states: seq<BalanceState>)

  datatype Payload =
    | NoPayload
    | Text(text: seq<char>)
    | Order(order: TransferOrder)
    | Balances(history: History)

  datatype Header = Header(magic: int, payloadLen: int, msgType: MessageType, localTime: int)

  datatype Message = Message(header: Header, payload: Payload)

  /** Number of payload bytes a payload occupies on the wire. */
  function PayloadSize(p: Payload): nat
  {
    match p
    case NoPayload => 0
    case Text(s) => |s|
    case Order(_) => TRANSFER_ORDER_SIZE
    case Balances(_) => BALANCE_HISTORY_SIZE
  }

  /** The header tells the truth about the payload that follows it. */
  predicate WellFramed(m: Message)
  {
    && m.header.magic == MESSAGE_MAGIC
    && m.header.payloadLen == PayloadSize(m.payload)
    && m.header.payloadLen <= MAX_PAYLOAD_LEN
  }

  /** The payload is the record a receiver copies out for this type. */
  predicate PayloadMatchesType(m: Message)
  {
    && (m.header.msgType == Transfer ==> m.payload.Order?)
    && (m.header.msgType == BalanceHistory ==> m.payload.Balances?)
  }

  function Max(a: int, b: int): (r: int)
    ensures r >= a && r >= b
    ensures r == a || r == b
  {
    if a < b then b else a
  }

  /** `x--` on a size_t: zero wraps around to SIZE_MAX. */
  function DecrementSize(x: nat): (r: nat)
    requires x <= SIZE_MAX
    ensures r <= SIZE_MAX
    ensures x > 0 ==> r + 1 == x
    ensures x == 0 ==> r == SIZE_MAX
  {
    if x == 0 then SIZE_MAX else x - 1
  }
}
