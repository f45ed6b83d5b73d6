/** The banking program on Lamport time. The coordinator orders transfers;
    the source account records the withdrawal and forwards the order to the
    destination, which records the income and acknowledges it to the
    coordinator. Every history event happens at the later of the process's
    clock and the message's stamp, one step on. */
module BankLamport {
  import opened Wire
  import opened Ipc
  import opened LamportTime
  import opened Messages
  import opened Bank

  /** Time of a history event: the later of the clock and the stamp, one step
      on when `inc` is set. */
  function EventTime(clock: int, stamp: int, inc: bool): (t: int)
    ensures t >= clock && t >= stamp
    ensures inc ==> t > clock && t > stamp
    ensures t == Max(clock, stamp) || (inc && t == Max(clock, stamp) + 1)
  {
    Max(clock, stamp) + (if inc then 1 else 0)
  }

  /** The time an income counts as pending from: the stamp, or with `fix` the
      time unit before it, when the sender recorded the withdrawal. */
  function PendingFrom(stamp: int, fix: bool): int
  {
    if fix then stamp - 1 else stamp
  }

  /** Records an event of `amount` for a message stamped `stamp`, and moves
      the clock to the event's time. */
  method UpdateHistory(acc: Account, clock: Clock, amount: int, stamp: int, inc: bool, fix: bool)
    requires acc.Valid() && EventTime(clock.time, stamp, inc) <= MAX_T
    requires amount > 0 && PendingFrom(stamp, fix) < EventTime(clock.time, stamp, inc) ==>
               0 <= PendingFrom(stamp, fix)
    modifies acc, acc.history, clock
    ensures acc.Valid()
    ensures clock.time == EventTime(old(clock.time), stamp, inc)
    ensures acc.View() == Event(old(acc.View()), clock.time, PendingFrom(stamp, fix), amount, true)
  {
    var curr := EventTime(clock.time, stamp, inc);
    var _ := clock.Set(curr);
    acc.Record(amount, curr, PendingFrom(stamp, fix), true);
  }

  /** The transfer a TRANSFER message orders can be carried out here without
      leaving the history table or sending where there is no pipe. */
  predicate TransferDefined(self: int, n: int, time: int, msg: Message)
  {
    var o := OrderOf(msg.payload);
    var s := msg.header.localTime;
    if self == o.src then 0 <= o.dst < n && o.dst != self && Max(time, s) + 2 <= MAX_T && (o.amount < 0 ==> s >= 0)
    else if self == o.dst then self != PARENT_ID && Max(time, s) + 1 <= MAX_T && (o.amount > 0 ==> s >= 1)
    else true
  }

  /** What carrying out the order of TRANSFER `m` does to the clock (from
      `t0` to `t`), the books (from `a` to `b`) and the log (from `sent0` to
      `sent`). The source records the withdrawal at the event time `t1`,
      records a second event at `t1 + 1` for the send, and forwards the
      order to the destination stamped `t1 + 1`. The destination records
      the income at `t1`, pending since the time unit before the stamp, and
      acknowledges to the coordinator with the clock one step on. Any other
      process changes nothing. */
  ghost predicate Transferred(self: int, m: Message, t0: int, a: Books, sent0: seq<Sent>, t: int, b: Books,
                              sent: seq<Sent>)
  {
    var o := OrderOf(m.payload);
    var s := m.header.localTime;
    var t1 := EventTime(t0, s, true);
    if self == o.src then
      && 0 <= t1 && t1 + 1 < |a.history| && t == t1 + 1
      && b == Event(Event(a, t1, s, -o.amount, true), t1 + 1, 0, 0, true).(balance := a.balance - o.amount)
      && sent == sent0 + [Sent(GetIndex(o.dst, self), TransferMessage(o, t))]
    else if self == o.dst then
      && 0 <= t1 < |a.history| && t == t1 + 1
      && b == Event(a, t1, PendingFrom(s, true), o.amount, true).(balance := a.balance + o.amount)
      && sent == sent0 + [Sent(GetIndex(PARENT_ID, self), Signal(Ack, t))]
    else
      t == t0 && b == a && sent == sent0
  }

  /** Carries out the order in a TRANSFER message, as `Transferred` says;
      -1 when this process is neither its source nor its destination. */
  method DoTransfer(comm: Pipes, clock: Clock, acc: Account, msg: Message) returns (r: int)
    requires comm.Valid() && acc.Valid()
    requires TransferDefined(comm.currentId, comm.totalIds, clock.time, msg)
    modifies comm, acc, acc.history, clock
    ensures comm.Valid() && acc.Valid()
    ensures comm.incoming == old(comm.incoming) && comm.lastMsgFrom == old(comm.lastMsgFrom)
    ensures var o := OrderOf(msg.payload);
            r == (if comm.currentId == o.src || comm.currentId == o.dst then 0 else -1)
    ensures Transferred(comm.currentId, msg, old(clock.time), old(acc.View()), old(comm.sent), clock.time, acc.View(),
                        comm.sent)
  {
    var order := OrderOf(msg.payload);
    if comm.currentId == order.src {
      UpdateHistory(acc, clock, -order.amount, msg.header.localTime, true, false);
      UpdateHistory(acc, clock, 0, 0, true, false);
      SendTransfer(comm, order.dst, order, clock.time);
      acc.balance := acc.balance - order.amount;
    } else if comm.currentId == order.dst {
      UpdateHistory(acc, clock, order.amount, msg.header.localTime, true, true);
      var _ := clock.Increment();
      SendAck(comm, PARENT_ID, clock.time);
      acc.balance := acc.balance + order.amount;
    } else {
      return -1;
    }
    return 0;
  }

  /** The coordinator's side of one transfer: the clock ticks, the order
      goes to `src` stamped with it, and the coordinator waits for the ACK
      from `dst`, as `OrderWait` says. The log gains the TRANSFER exactly
      when `src` is a peer; an ACK taken moves the clock past its stamp
      under the receive rule. */
  method RequestTransfer(comm: Pipes, clock: Clock, src: int, dst: int, amount: int) returns (outcome: Outcome)
    requires comm.Valid()
    modifies comm, clock
    ensures comm.Valid() && comm.lastMsgFrom == old(comm.lastMsgFrom)
    ensures comm.writeFailures == if comm.IsPeer(src) then 0 else old(comm.writeFailures)
    ensures comm.sent == old(comm.sent)
              + if comm.IsPeer(src)
                then [Sent(GetIndex(src, comm.currentId), TransferMessage(TransferOrder(src, dst, amount), old(clock.time) + 1))]
                else []
    ensures var s := OrderWait(old(comm.incoming), comm.currentId, comm.totalIds, TransferOrder(src, dst, amount));
            && outcome == s.outcome && comm.incoming == s.incoming
            && clock.time == if outcome == Finished then Max(old(clock.time) + 1, s.acks[0].header.localTime) + 1
                             else old(clock.time) + 1
  {
    var order := TransferOrder(src, dst, amount);
    var t := clock.Increment();
    if !comm.IsPeer(src) {
      return Undefined;
    }
    SendTransfer(comm, src, order, t);
    if dst == comm.currentId {
      // a read from oneself always fails, so this wait never ends
      return Stalled;
    } else if !comm.IsPeer(dst) {
      return Undefined;
    }
    var stalled, msg := comm.AwaitFrom(dst, AckOnly, BLANK);
    if stalled {
      return Stalled;
    }
    var _ := clock.SetFromMsgAndTick(msg);
    return Finished;
  }

  /** An account process: records its opening state, announces itself and
      waits for the other accounts, then serves transfers until it has been
      told to stop and has heard DONE from every other account; finally it
      records one more event and sends its history to the coordinator. The
      DONE announcement carries the formatted log line `doneText`, the
      STARTED one `startedText`. `started` are the STARTED messages taken,
      `mid` the channels after them, `seen` the messages the main loop took
      and `outs` its answers to them. The log is the STARTED broadcast, the
      answers, and the history; the history's last entry holds the opening
      balance moved by the transfers carried out. */
  method ChildWork(comm: Pipes, clock: Clock, balance: int, startedText: seq<char>, doneText: seq<char>)
    returns (outcome: Outcome, h: History, ghost started: seq<Message>, ghost mid: seq<seq<Frame>>,
             ghost seen: seq<Got>, ghost outs: seq<seq<Sent>>)
    requires comm.Valid() && comm.currentId != PARENT_ID && comm.totalIds <= SIZE_MAX
    requires |startedText| < MAX_PAYLOAD_LEN && |doneText| < MAX_PAYLOAD_LEN
    modifies comm, clock
    ensures clock.time >= old(clock.time)
    ensures outcome == Finished || outcome == Failed ==>
              && Drained(old(comm.incoming), mid, comm.currentId, comm.totalIds, false, started)
              && Took(mid, comm.incoming, comm.currentId, comm.totalIds, seen)
    ensures Ended(outcome, old(comm.sent) + Announcement(Started, Max(old(clock.time), 0) + 1, startedText,
                                                         comm.currentId, comm.totalIds),
                  comm.sent, seen, outs, h, clock.time, balance, comm.currentId, comm.totalIds, doneText)
    ensures outcome == Finished ==> h.len == clock.time + 1
  {
    started, mid, seen, outs := [], comm.incoming, [], [];
    var acc := new Account(comm.currentId, balance);
    h := acc.Snapshot();
    if clock.time > MAX_T {
      outcome := Undefined;
    } else {
      var stalled;
      stalled, started := Open(comm, clock, acc, startedText);
      mid := comm.incoming;
      if stalled {
        outcome := Stalled;
      } else {
        ghost var opening := comm.sent;
        outcome, h, seen, outs := Run(comm, clock, acc, doneText);
        EndedMoved(outcome, opening, old(comm.sent) + Announcement(Started, Max(old(clock.time), 0) + 1, startedText,
                                                             comm.currentId, comm.totalIds),
                   comm.sent, seen, outs, h, clock.time, balance, comm.currentId, comm.totalIds, doneText);
      }
    }
  }

  /** An account process once every STARTED is in: the main loop, then, when
      it ends normally, the history sent to the coordinator. The log is the
      answers to the messages taken followed by the history, whose last
      entry holds the current balance moved by the transfers carried out. */
  method Run(comm: Pipes, clock: Clock, acc: Account, doneText: seq<char>)
    returns (outcome: Outcome, h: History, ghost seen: seq<Got>, ghost outs: seq<seq<Sent>>)
    requires comm.Valid() && acc.Valid() && comm.currentId != PARENT_ID && comm.totalIds <= SIZE_MAX
    requires |doneText| < MAX_PAYLOAD_LEN && acc.id == comm.currentId
    modifies comm, clock, acc, acc.history
    ensures clock.time >= old(clock.time)
    ensures Took(old(comm.incoming), comm.incoming, comm.currentId, comm.totalIds, seen)
    ensures Ended(outcome, old(comm.sent), comm.sent, seen, outs, h, clock.time, old(acc.state.balance),
                  comm.currentId, comm.totalIds, doneText)
    ensures outcome == Finished ==> h.len == clock.time + 1
  {
    h := acc.Snapshot();
    var served;
    served, seen, outs := ServeTransfers(comm, clock, acc, doneText);
    if served != Finished {
      return served, h, seen, outs;
    }
    ghost var log := comm.sent;
    outcome, h := SendHistory(comm, clock, acc);
    if outcome == Finished {
      assert comm.sent[..|comm.sent| - 1] == log;
    }
  }

  /** The opening of an account process: its opening state recorded at the
      clock, the STARTED broadcast stamped one step on, and a STARTED taken
      from every other account with the receive rule applied to each. */
  method Open(comm: Pipes, clock: Clock, acc: Account, startedText: seq<char>)
    returns (stalled: bool, ghost started: seq<Message>)
    requires comm.Valid() && acc.Valid() && |startedText| < MAX_PAYLOAD_LEN && clock.time <= MAX_T
    modifies comm, clock, acc, acc.history
    ensures comm.Valid() && acc.Valid() && clock.time >= old(clock.time)
    ensures acc.balance == old(acc.balance) && acc.state.balance == old(acc.state.balance)
    ensures acc.View() == Event(old(acc.View()), Max(old(clock.time), 0), PendingFrom(0, false), 0, true)
    ensures comm.sent == old(comm.sent) + Announcement(Started, Max(old(clock.time), 0) + 1, startedText,
                                                       comm.currentId, comm.totalIds)
    ensures Drained(old(comm.incoming), comm.incoming, comm.currentId, comm.totalIds, stalled, started)
    ensures clock.time == Observed(Max(old(clock.time), 0) + 2, started, true)
  {
    UpdateHistory(acc, clock, 0, 0, false, false);
    var _ := clock.Increment();
    var _ := SendAllProcEvent(comm, Started, clock.time, startedText);
    var _ := clock.Increment();
    stalled, started := ReceiveAllMsgs(comm, clock, true, BLANK);
    ObservedAtLeast(Max(old(clock.time), 0) + 2, started, true);
  }

  /** An account's last step: one more event, then its history to the
      coordinator, stamped with the clock. `Undefined` when the event would
      fall outside the history table. The history ends with the current
      balance. */
  method SendHistory(comm: Pipes, clock: Clock, acc: Account) returns (outcome: Outcome, h: History)
    requires comm.Valid() && acc.Valid() && comm.currentId != PARENT_ID
    modifies comm, clock, acc, acc.history
    ensures comm.Valid() && comm.incoming == old(comm.incoming) && clock.time >= old(clock.time)
    ensures outcome == Finished || outcome == Undefined
    ensures outcome == Undefined <==> EventTime(old(clock.time), 0, true) > MAX_T
    ensures outcome == Undefined ==>
              comm.sent == old(comm.sent) && clock.time == old(clock.time) && acc.View() == old(acc.View())
    ensures outcome == Finished ==>
              && clock.time == EventTime(old(clock.time), 0, true)
              && acc.View() == Event(old(acc.View()), clock.time, PendingFrom(0, false), 0, true)
    ensures outcome == Finished ==>
              && comm.sent == old(comm.sent) + [Sent(GetIndex(PARENT_ID, comm.currentId), HistoryMessage(h, clock.time))]
              && h.id == acc.id && h.len == clock.time + 1 && |h.states| == MAX_T + 1
              && Timeline(h.states, h.len)
              && 0 < h.len <= |h.states| && h.states[h.len - 1].balance == old(acc.state.balance)
  {
    h := acc.Snapshot();
    if EventTime(clock.time, 0, true) > MAX_T {
      return Undefined, h;
    }
    UpdateHistory(acc, clock, 0, 0, true, false);
    h := acc.Snapshot();
    assert Timeline(h.states, h.len);
    SendBalanceHistory(comm, PARENT_ID, h, clock.time);
    return Finished, h;
  }

  /** The account's main loop: takes messages until it has been told to
      stop and has heard DONE from every other account, and fails (-1 in
      the source) on a message of any other kind. `seen` lists the messages
      taken, in order, each with its sender; `outs[i]` is what the account
      logged in answer to `seen[i]` (the last message taken goes unanswered
      when its event would leave the history table). The clock never goes
      back, and the balance moves by the transfers carried out. */
  method ServeTransfers(comm: Pipes, clock: Clock, acc: Account, doneText: seq<char>)
    returns (outcome: Outcome, ghost seen: seq<Got>, ghost outs: seq<seq<Sent>>)
    requires comm.Valid() && acc.Valid() && comm.currentId != PARENT_ID && comm.totalIds <= SIZE_MAX
    requires |doneText| < MAX_PAYLOAD_LEN
    modifies comm, clock, acc, acc.history
    ensures comm.Valid() && acc.Valid() && clock.time >= old(clock.time)
    ensures Took(old(comm.incoming), comm.incoming, comm.currentId, comm.totalIds, seen)
    ensures outcome == Finished || outcome == Failed || outcome == Stalled || outcome == Undefined
    ensures outcome == Undefined ==> seen != []
    ensures var handled := if outcome == Undefined && seen != [] then seen[..|seen| - 1] else seen;
            && Answered(old(comm.sent), comm.sent, handled, outs, comm.currentId, comm.totalIds, doneText)
            && acc.balance == old(acc.balance) + Net(handled, comm.currentId)
            && acc.state.balance == old(acc.state.balance) + Net(handled, comm.currentId)
    ensures outcome == Finished ==>
              && |OfType(seen, Stop)| >= 1 && |OfType(seen, Done)| >= comm.totalIds - 2
              && forall g :: g in seen ==> Served(g.message.header.msgType)
    ensures outcome == Failed ==>
              && seen != [] && !Served(seen[|seen| - 1].message.header.msgType)
              && forall g :: g in seen[..|seen| - 1] ==> Served(g.message.header.msgType)
  {
    seen, outs := [], [];
    TookNothing(comm.incoming, comm.currentId, comm.totalIds);
    AnsweredNone(comm.sent, comm.currentId, comm.totalIds, doneText);
    var doneLeft: nat := comm.totalIds - 2;
    var notStopped := true;
    var msg := BLANK;
    while doneLeft > 0 || notStopped
      invariant comm.Valid() && acc.Valid() && clock.time >= old(clock.time)
      invariant doneLeft <= SIZE_MAX
      invariant Took(old(comm.incoming), comm.incoming, comm.currentId, comm.totalIds, seen)
      invariant Answered(old(comm.sent), comm.sent, seen, outs, comm.currentId, comm.totalIds, doneText)
      invariant acc.balance == old(acc.balance) + Net(seen, comm.currentId)
      invariant acc.state.balance == old(acc.state.balance) + Net(seen, comm.currentId)
      invariant forall g :: g in seen ==> Served(g.message.header.msgType)
      invariant !notStopped ==> |OfType(seen, Stop)| >= 1
      invariant |OfType(seen, Done)| + doneLeft >= comm.totalIds - 2
      decreases TotalFrames(comm.incoming)
    {
      ghost var inc1 := comm.incoming;
      var status;
      ghost var outs';
      status, msg, outs' := ServeOne(comm, clock, acc, doneText, msg, old(comm.sent), old(acc.balance),
                                     old(acc.state.balance), seen, outs);
      ghost var got: seq<Got> := if status == Stalled then [] else [Got(comm.lastMsgFrom, msg)];
      TookMore(old(comm.incoming), inc1, comm.incoming, comm.currentId, comm.totalIds, seen, got);
      if status == Stalled {
        assert seen + got == seen;
        return Stalled, seen, outs';
      }
      CountsSnoc(seen, Got(comm.lastMsgFrom, msg));
      ghost var before := seen;
      seen, outs := seen + got, outs';
      if status == Undefined || status == Failed {
        assert seen[..|seen| - 1] == before;
        return status, seen, outs;
      }
      if msg.header.msgType == Stop {
        notStopped := false;
      } else if msg.header.msgType == Done {
        doneLeft := DecrementSize(doneLeft);
      }
    }
    outcome := Finished;
  }

  /** One round of the main loop: waits for the next message and handles
      it. The answers and the balance are carried on from those of `seen`:
      the message is added to them unless the wait stalls or its event would
      leave the history table. */
  method ServeOne(comm: Pipes, clock: Clock, acc: Account, doneText: seq<char>, buffer: Message,
                  ghost base: seq<Sent>, ghost bal: int, ghost stateBal: int, ghost seen: seq<Got>,
                  ghost outs: seq<seq<Sent>>)
    returns (status: Outcome, msg: Message, ghost outs': seq<seq<Sent>>)
    requires comm.Valid() && acc.Valid() && |doneText| < MAX_PAYLOAD_LEN
    requires Answered(base, comm.sent, seen, outs, comm.currentId, comm.totalIds, doneText)
    requires acc.balance == bal + Net(seen, comm.currentId) && acc.state.balance == stateBal + Net(seen, comm.currentId)
    modifies comm, clock, acc, acc.history
    ensures comm.Valid() && acc.Valid() && clock.time >= old(clock.time)
    ensures Took(old(comm.incoming), comm.incoming, comm.currentId, comm.totalIds,
                 if status == Stalled then [] else [Got(comm.lastMsgFrom, msg)])
    ensures status != Stalled ==> TotalFrames(comm.incoming) < TotalFrames(old(comm.incoming))
    ensures status != Stalled ==> (status == Failed <==> !Served(msg.header.msgType))
    ensures var handled := if status == Stalled || status == Undefined then seen else seen + [Got(comm.lastMsgFrom, msg)];
            && Answered(base, comm.sent, handled, outs', comm.currentId, comm.totalIds, doneText)
            && acc.balance == bal + Net(handled, comm.currentId)
            && acc.state.balance == stateBal + Net(handled, comm.currentId)
  {
    outs' := outs;
    var stalled;
    stalled, msg := comm.AwaitAny(buffer);
    if stalled {
      return Stalled, msg, outs';
    }
    ghost var g := Got(comm.lastMsgFrom, msg);
    ghost var sent0 := comm.sent;
    status := HandleMessage(comm, clock, acc, msg, doneText);
    if status == Undefined {
      return;
    }
    NetSnoc(seen, g, comm.currentId);
    ghost var out := comm.sent[|sent0|..];
    assert comm.sent == sent0 + out;
    AnsweredSnoc(base, sent0, seen, outs, g, out, comm.currentId, comm.totalIds, doneText);
    outs' := outs + [out];
  }

  /** One message of the account's main loop. A TRANSFER is carried out as
      `Transferred` says. A STOP is recorded as an event at the later of the
      clock and its stamp, one step on, and answered with the DONE
      broadcast stamped with that time. A DONE is recorded the same way and
      answered with nothing. `Failed` (-1) for any other kind and
      `Undefined` when the event would fall outside the history table; in
      both cases nothing changes. Every answer is one `Answers` allows, and
      the clock never goes back. */
  method HandleMessage(comm: Pipes, clock: Clock, acc: Account, msg: Message, doneText: seq<char>)
    returns (status: Outcome)
    requires comm.Valid() && acc.Valid() && |doneText| < MAX_PAYLOAD_LEN
    modifies comm, clock, acc, acc.history
    ensures comm.Valid() && acc.Valid() && comm.incoming == old(comm.incoming) && comm.lastMsgFrom == old(comm.lastMsgFrom)
    ensures status == Finished || status == Failed || status == Undefined
    ensures status == Failed <==> !Served(msg.header.msgType)
    ensures var ty := msg.header.msgType;
            status == Undefined <==>
              || (ty == Transfer && !TransferDefined(comm.currentId, comm.totalIds, old(clock.time), msg))
              || ((ty == Stop || ty == Done) && EventTime(old(clock.time), msg.header.localTime, true) > MAX_T)
    ensures status != Finished ==>
              clock.time == old(clock.time) && acc.View() == old(acc.View()) && comm.sent == old(comm.sent)
    ensures status == Finished && msg.header.msgType == Transfer ==>
              Transferred(comm.currentId, msg, old(clock.time), old(acc.View()), old(comm.sent), clock.time,
                          acc.View(), comm.sent)
    ensures status == Finished && (msg.header.msgType == Stop || msg.header.msgType == Done) ==>
              && clock.time == EventTime(old(clock.time), msg.header.localTime, true)
              && acc.View() == Event(old(acc.View()), clock.time, msg.header.localTime, 0, true)
    ensures status == Finished && msg.header.msgType == Stop ==>
              comm.sent == old(comm.sent) + Announcement(Done, clock.time, doneText, comm.currentId, comm.totalIds)
    ensures status == Finished && msg.header.msgType == Done ==> comm.sent == old(comm.sent)
    ensures clock.time >= old(clock.time)
    ensures status != Undefined ==>
              && acc.balance == old(acc.balance) + NetEffect(msg, comm.currentId)
              && acc.state.balance == old(acc.state.balance) + NetEffect(msg, comm.currentId)
    ensures status != Undefined ==>
              && |old(comm.sent)| <= |comm.sent| && comm.sent[..|old(comm.sent)|] == old(comm.sent)
              && Answers(msg, comm.sent[|old(comm.sent)|..], comm.currentId, comm.totalIds, doneText)
  {
    var stamp := msg.header.localTime;
    if msg.header.msgType == Transfer {
      if !TransferDefined(comm.currentId, comm.totalIds, clock.time, msg) {
        return Undefined;
      }
      var _ := DoTransfer(comm, clock, acc, msg);
    } else if msg.header.msgType == Stop {
      if EventTime(clock.time, stamp, true) > MAX_T {
        return Undefined;
      }
      UpdateHistory(acc, clock, 0, stamp, true, false);
      var _ := SendAllProcEvent(comm, Done, clock.time, doneText);
      AnnouncementStamped(clock.time, doneText, comm.currentId, comm.totalIds);
      assert comm.sent[|old(comm.sent)|..] == Announcement(Done, clock.time, doneText, comm.currentId, comm.totalIds);
    } else if msg.header.msgType == Done {
      if EventTime(clock.time, stamp, true) > MAX_T {
        return Undefined;
      }
      UpdateHistory(acc, clock, 0, stamp, true, false);
    } else {
      return Failed;
    }
    return Finished;
  }

  /** The `count` messages logged from position `base` on all carry stamps
      below `t`. */
  ghost predicate StampsBelow(sent: seq<Sent>, base: nat, count: nat, t: int)
  {
    base + count <= |sent| && forall j :: base <= j < base + count ==> sent[j].message.header.localTime < t
  }

  /** One more message stamped `t0 + 1` after the ones below `t0 + 1`: all
      are below any later clock value past it. */
  lemma StampsSnoc(sent: seq<Sent>, m: Sent, base: nat, j: nat, t0: int, t1: int)
    requires |sent| == base + j && StampsBelow(sent, base, j, t0 + 1)
    requires m.message.header.localTime == t0 + 1 && t1 >= t0 + 1
    ensures StampsBelow(sent + [m], base, j + 1, t1 + 1)
  {
  }

  /** The coordinator's clock after the ACK waits of its transfers, from
      `t`: each order ticks it for the TRANSFER, and its ACK moves it to the
      later of that and the ACK's stamp, one step on. It ends two steps on
      per order at least, and past every ACK's stamp. */
  function AckClock(t: int, acks: seq<Message>): (r: int)
    ensures r >= t + 2 * |acks|
    ensures forall j :: 0 <= j < |acks| ==> acks[j].header.localTime < r
    decreases |acks|
  {
    if acks == [] then t
    else
      var before := acks[..|acks| - 1];
      assert forall j :: 0 <= j < |before| ==> acks[j] == before[j];
      Max(AckClock(t, before) + 1, acks[|acks| - 1].header.localTime) + 1
  }

  /** One more ACK taken: the clock moves past the TRANSFER's tick to the
      later of that and the ACK's stamp, one step on. */
  lemma AckClockSnoc(t0: int, acks: seq<Message>, ack: Message, time0: int, time: int)
    requires time0 == AckClock(t0, acks) && time == Max(time0 + 1, ack.header.localTime) + 1
    ensures time == AckClock(t0, acks + [ack]) && time >= time0 + 2
  {
    assert (acks + [ack])[..|acks|] == acks;
  }

  /** Order `j` sent at clock `time0` and acknowledged: the log, channels
      and clock `sent`, `incoming` and `time` after it are one step further
      through the run. */
  lemma {:induction false} OrderAcked(before: seq<Sent>, orig: seq<seq<Frame>>, self: int, n: int, orders: seq<TransferOrder>, j: int,
                   acks: seq<Message>, t0: int, sent0: seq<Sent>, incoming0: seq<seq<Frame>>, time0: int,
                   sent: seq<Sent>, incoming: seq<seq<Frame>>, time: int)
    requires 0 <= self < n && |orig| == n - 1
    requires Sending(before, sent0, incoming0, self, n, orders, j, acks, AckWaits(orig, self, n, orders, 0))
    requires time0 == AckClock(t0, acks) && StampsBelow(sent0, |before|, j, time0 + 1)
    requires j < |orders|
    requires var s := OrderWait(incoming0, self, n, orders[j]);
             && s.outcome == Finished && incoming == s.incoming
             && time == Max(time0 + 1, s.acks[0].header.localTime) + 1
             && sent == sent0 + [Sent(GetIndex(orders[j].src, self),
                                      TransferMessage(TransferOrder(orders[j].src, orders[j].dst, orders[j].amount), time0 + 1))]
    ensures var acks' := acks + OrderWait(incoming0, self, n, orders[j]).acks;
            && Sending(before, sent, incoming, self, n, orders, j + 1, acks', AckWaits(orig, self, n, orders, 0))
            && time == AckClock(t0, acks') && StampsBelow(sent, |before|, j + 1, time + 1)
  {
    var s := OrderWait(incoming0, self, n, orders[j]);
    assert TransferOrder(orders[j].src, orders[j].dst, orders[j].amount) == orders[j];
    SendingStep(before, sent0, incoming0, self, n, orders, j, acks, AckWaits(orig, self, n, orders, 0), time0 + 1);
    assert s.acks == [s.acks[0]];
    AckClockSnoc(t0, acks, s.acks[0], time0, time);
    StampsSnoc(sent0, sent[|sent0|], |before|, j, time0, time);
  }

  /** Order `j` begun at clock `time0`, whose wait does not finish: the run
      ends there, the clock one tick on, its TRANSFER logged when it went
      out. */
  lemma {:induction false} OrderEnded(before: seq<Sent>, orig: seq<seq<Frame>>, self: int, n: int, orders: seq<TransferOrder>, j: int,
                   acks: seq<Message>, t0: int, sent0: seq<Sent>, incoming0: seq<seq<Frame>>, time0: int,
                   sent: seq<Sent>, incoming: seq<seq<Frame>>, time: int)
    requires 0 <= self < n && |orig| == n - 1
    requires Sending(before, sent0, incoming0, self, n, orders, j, acks, AckWaits(orig, self, n, orders, 0))
    requires time0 == AckClock(t0, acks)
    requires j < |orders|
    requires var s := OrderWait(incoming0, self, n, orders[j]);
             && s.outcome != Finished && incoming == s.incoming && time == time0 + 1
             && sent == sent0 + if s.unanswered
                                then [Sent(GetIndex(orders[j].src, self),
                                           TransferMessage(TransferOrder(orders[j].src, orders[j].dst, orders[j].amount),
                                                           time0 + 1))]
                                else []
    ensures OrdersCarried(before, sent, orig, incoming, self, n, orders, OrderWait(incoming0, self, n, orders[j]).outcome)
    ensures time == AckClock(t0, AckWaits(orig, self, n, orders, 0).acks) + 1
    ensures |before| <= |sent| && sent[..|before|] == before
  {
    assert TransferOrder(orders[j].src, orders[j].dst, orders[j].amount) == orders[j];
    assert sent0 + [] == sent0;
    SendingEnds(before, sent0, orig, incoming0, self, n, orders, j, acks, time0 + 1);
  }

  /** Order `j` of the coordinator's transfers, carried out part way
      through the run over `orders` that started from the log `before`, the
      channels `orig` and the clock `t0`: either its ACK comes and the run
      goes on past it, the ACK added to `acks`, or it does not and the run
      ends here as `OrdersCarried` states, with the clock one tick on. */
  method SendOrder(comm: Pipes, clock: Clock, orders: seq<TransferOrder>, j: int, ghost before: seq<Sent>,
                   ghost orig: seq<seq<Frame>>, ghost t0: int, ghost acks: seq<Message>)
    returns (outcome: Outcome, ghost acks': seq<Message>)
    requires comm.Valid() && |orig| == comm.totalIds - 1 && 0 <= j < |orders|
    requires Sending(before, comm.sent, comm.incoming, comm.currentId, comm.totalIds, orders, j, acks,
                     AckWaits(orig, comm.currentId, comm.totalIds, orders, 0))
    requires clock.time == AckClock(t0, acks) && StampsBelow(comm.sent, |before|, j, clock.time + 1)
    modifies comm, clock
    ensures comm.Valid() && comm.lastMsgFrom == old(comm.lastMsgFrom)
    ensures outcome == Finished ==>
              && Sending(before, comm.sent, comm.incoming, comm.currentId, comm.totalIds, orders, j + 1, acks',
                         AckWaits(orig, comm.currentId, comm.totalIds, orders, 0))
              && clock.time == AckClock(t0, acks') && StampsBelow(comm.sent, |before|, j + 1, clock.time + 1)
    ensures outcome != Finished ==>
              && OrdersCarried(before, comm.sent, orig, comm.incoming, comm.currentId, comm.totalIds, orders, outcome)
              && clock.time == AckClock(t0, AckWaits(orig, comm.currentId, comm.totalIds, orders, 0).acks) + 1
              && |before| <= |comm.sent| && comm.sent[..|before|] == before
  {
    acks' := acks;
    var o := orders[j];
    assert TransferOrder(o.src, o.dst, o.amount) == o;
    ghost var sent0, time0, incoming0 := comm.sent, clock.time, comm.incoming;
    ghost var s := OrderWait(comm.incoming, comm.currentId, comm.totalIds, o);
    outcome := RequestTransfer(comm, clock, o.src, o.dst, o.amount);
    if outcome != Finished {
      OrderEnded(before, orig, comm.currentId, comm.totalIds, orders, j, acks, t0, sent0, incoming0, time0, comm.sent,
                 comm.incoming, clock.time);
      return;
    }
    OrderAcked(before, orig, comm.currentId, comm.totalIds, orders, j, acks, t0, sent0, incoming0, time0, comm.sent,
               comm.incoming, clock.time);
    acks' := acks + s.acks;
  }

  /** The coordinator's transfers, one order after the other: each order
      goes to its source account and the coordinator waits for the ACK from
      its destination, as `OrdersCarried` states. The clock moves as
      `AckClock` says over the ACKs taken, one tick more for the order the
      run ended at; when all are carried out, it is past every order's
      stamp. */
  method SendOrders(comm: Pipes, clock: Clock, orders: seq<TransferOrder>) returns (outcome: Outcome)
    requires comm.Valid()
    modifies comm, clock
    ensures comm.Valid() && comm.lastMsgFrom == old(comm.lastMsgFrom)
    ensures OrdersCarried(old(comm.sent), comm.sent, old(comm.incoming), comm.incoming, comm.currentId, comm.totalIds,
                          orders, outcome)
    ensures clock.time == AckClock(old(clock.time), AckWaits(old(comm.incoming), comm.currentId, comm.totalIds, orders, 0).acks)
                          + (if outcome == Finished then 0 else 1)
    ensures clock.time >= old(clock.time)
    ensures |old(comm.sent)| <= |comm.sent| && comm.sent[..|old(comm.sent)|] == old(comm.sent)
    ensures outcome == Finished ==>
              && |comm.sent| == |old(comm.sent)| + |orders| && OrdersSent(comm.sent, |old(comm.sent)|, comm.currentId, orders)
              && StampsBelow(comm.sent, |old(comm.sent)|, |orders|, clock.time + 1)
  {
    ghost var acks: seq<Message> := [];
    SendingStart(comm.sent, comm.incoming, comm.currentId, comm.totalIds, orders);
    var j := 0;
    outcome := Finished;
    while j < |orders| && outcome == Finished
      invariant 0 <= j <= |orders| && comm.Valid() && comm.lastMsgFrom == old(comm.lastMsgFrom)
      invariant outcome == Finished ==>
                  && Sending(old(comm.sent), comm.sent, comm.incoming, comm.currentId, comm.totalIds, orders, j, acks,
                             AckWaits(old(comm.incoming), comm.currentId, comm.totalIds, orders, 0))
                  && clock.time == AckClock(old(clock.time), acks)
                  && StampsBelow(comm.sent, |old(comm.sent)|, j, clock.time + 1)
      invariant outcome != Finished ==>
                  && OrdersCarried(old(comm.sent), comm.sent, old(comm.incoming), comm.incoming, comm.currentId,
                                   comm.totalIds, orders, outcome)
                  && clock.time == AckClock(old(clock.time), AckWaits(old(comm.incoming), comm.currentId, comm.totalIds,
                                                                      orders, 0).acks) + 1
                  && |old(comm.sent)| <= |comm.sent| && comm.sent[..|old(comm.sent)|] == old(comm.sent)
      decreases |orders| - j, outcome == Finished
    {
      outcome, acks := SendOrder(comm, clock, orders, j, old(comm.sent), old(comm.incoming), old(clock.time), acks);
      if outcome == Finished {
        j := j + 1;
      }
    }
    if outcome == Finished {
      SendingDone(old(comm.sent), comm.sent, old(comm.incoming), comm.incoming, comm.currentId, comm.totalIds, orders,
                  acks);
    }
  }

  /** Logging more after the orders keeps them, and their stamps, where
      they were. */
  lemma LogExtended(log: seq<Sent>, more: seq<Sent>, base: nat, self: int, orders: seq<TransferOrder>, t: int)
    requires |log| == base + |orders| && OrdersSent(log, base, self, orders) && StampsBelow(log, base, |orders|, t)
    ensures (log + more)[..|log|] == log && (log + more)[..base] == log[..base]
    ensures OrdersSent(log + more, base, self, orders) && StampsBelow(log + more, base, |orders|, t)
  {
    OrdersSentExtended(log, more, base, self, orders);
  }

  /** The coordinator's end, once the orders are carried out: STOP to
      everyone one step past the clock, then the DONE round (`dones`, taken
      from the channels as they were, and the clock moved by them under the
      receive rule), then the histories collected (`replies`, taken from the
      channels `collectFrom` the DONE round left). */
  method StopAndCollect(comm: Pipes, clock: Clock)
    returns (outcome: Outcome, all: seq<History>, ghost stopAt: int, ghost dones: seq<Message>,
             ghost collectFrom: seq<seq<Frame>>, ghost replies: seq<Message>)
    requires comm.Valid() && comm.currentId == PARENT_ID
    modifies comm, clock
    ensures outcome == Finished || outcome == Stalled || outcome == Failed
    ensures stopAt == old(clock.time) + 1
    ensures comm.sent == old(comm.sent) + Fanout(Signal(Stop, stopAt), comm.currentId, comm.totalIds, 0)
    ensures Drained(old(comm.incoming), collectFrom, comm.currentId, comm.totalIds, |dones| < comm.totalIds - 1, dones)
    ensures clock.time == Observed(stopAt, dones, true)
    ensures |dones| < comm.totalIds - 1 ==> outcome == Stalled && comm.incoming == collectFrom
    ensures outcome == Finished ==>
              && |all| == comm.totalIds - 1 && |replies| == comm.totalIds - 1
              && FirstFromEach(collectFrom, comm.incoming, replies, comm.totalIds) && Histories(replies, all)
    ensures outcome == Failed ==>
              && replies != [] && FirstFromEach(collectFrom, comm.incoming, replies, |replies| + 1)
              && replies[|replies| - 1].header.msgType != BalanceHistory
              && Histories(replies[..|replies| - 1], all)
  {
    WorkersBelowCoordinator(comm.totalIds);
    replies, all := [], [];
    var _ := clock.Increment();
    stopAt := clock.time;
    SendAllStop(comm, clock.time);
    var stalled;
    stalled, dones := ReceiveAllMsgs(comm, clock, true, BLANK);
    collectFrom := comm.incoming;
    if stalled {
      return Stalled, all, stopAt, dones, collectFrom, replies;
    }
    outcome, all, replies := CollectHistories(comm);
  }

  /** The coordinator once every STARTED is in: the transfers `orders`
      carried out one after the other (the deposits the source's
      bank_robbery routine asks for) as `OrdersCarried` states and, when all
      are, STOP to everyone at a time past every order it sent, the DONE
      round `dones` and one balance history from each account in id order
      (`replies`, taken from the channels `collectFrom`). -1 (`Failed`) when
      an account answers with anything but its history. */
  method Coordinate(comm: Pipes, clock: Clock, orders: seq<TransferOrder>)
    returns (outcome: Outcome, all: seq<History>, ghost stopAt: int, ghost dones: seq<Message>,
             ghost collectFrom: seq<seq<Frame>>, ghost replies: seq<Message>)
    requires comm.Valid() && comm.currentId == PARENT_ID
    modifies comm, clock
    ensures var run := AckWaits(old(comm.incoming), comm.currentId, comm.totalIds, orders, 0);
            run.outcome != Finished ==>
              && outcome == run.outcome
              && OrdersCarried(old(comm.sent), comm.sent, old(comm.incoming), comm.incoming, comm.currentId,
                               comm.totalIds, orders, outcome)
              && clock.time == AckClock(old(clock.time), run.acks) + 1
    ensures var run := AckWaits(old(comm.incoming), comm.currentId, comm.totalIds, orders, 0);
            run.outcome == Finished ==>
              && stopAt == AckClock(old(clock.time), run.acks) + 1
              && Drained(run.incoming, collectFrom, comm.currentId, comm.totalIds, |dones| < comm.totalIds - 1, dones)
              && clock.time == Observed(stopAt, dones, true)
              && (|dones| < comm.totalIds - 1 ==> outcome == Stalled && comm.incoming == collectFrom)
    ensures outcome == Finished || outcome == Failed ==>
              && |old(comm.sent)| + |orders| <= |comm.sent| && comm.sent[..|old(comm.sent)|] == old(comm.sent)
              && OrdersSent(comm.sent, |old(comm.sent)|, comm.currentId, orders)
              && comm.sent == comm.sent[..|old(comm.sent)| + |orders|]
                              + Fanout(Signal(Stop, stopAt), comm.currentId, comm.totalIds, 0)
              && stopAt > old(clock.time) && StampsBelow(comm.sent, |old(comm.sent)|, |orders|, stopAt)
    ensures outcome == Finished ==>
              && |all| == comm.totalIds - 1 && |replies| == comm.totalIds - 1
              && FirstFromEach(collectFrom, comm.incoming, replies, comm.totalIds) && Histories(replies, all)
    ensures outcome == Failed ==>
              && replies != [] && FirstFromEach(collectFrom, comm.incoming, replies, |replies| + 1)
              && replies[|replies| - 1].header.msgType != BalanceHistory
              && Histories(replies[..|replies| - 1], all)
  {
    stopAt, dones, collectFrom, replies := 0, [], comm.incoming, [];
    all := [];
    outcome := SendOrders(comm, clock, orders);
    if outcome != Finished {
      AckWaitsAcks(old(comm.incoming), comm.currentId, comm.totalIds, orders, 0);
      return;
    }
    ghost var log := comm.sent;
    outcome, all, stopAt, dones, collectFrom, replies := StopAndCollect(comm, clock);
    LogExtended(log, comm.sent[|log|..], |old(comm.sent)|, comm.currentId, orders, stopAt);
    assert comm.sent == log + comm.sent[|log|..];
  }

  /** The coordinator: waits for every account's STARTED (`started`,
      leaving the channels `mid`), then goes on as `Coordinate` states from
      there, its clock moved by the STARTED round under the receive rule. */
  method ParentWork(comm: Pipes, clock: Clock, orders: seq<TransferOrder>)
    returns (outcome: Outcome, all: seq<History>, ghost started: seq<Message>, ghost mid: seq<seq<Frame>>,
             ghost stopAt: int, ghost dones: seq<Message>, ghost collectFrom: seq<seq<Frame>>,
             ghost replies: seq<Message>)
    requires comm.Valid() && comm.currentId == PARENT_ID
    modifies comm, clock
    ensures Drained(old(comm.incoming), mid, comm.currentId, comm.totalIds, |started| < comm.totalIds - 1, started)
    ensures |started| < comm.totalIds - 1 ==> outcome == Stalled && comm.incoming == mid && comm.sent == old(comm.sent)
    ensures var run := AckWaits(mid, comm.currentId, comm.totalIds, orders, 0);
            |started| == comm.totalIds - 1 && run.outcome != Finished ==>
              && outcome == run.outcome
              && OrdersCarried(old(comm.sent), comm.sent, mid, comm.incoming, comm.currentId, comm.totalIds, orders, outcome)
              && clock.time == AckClock(Observed(old(clock.time), started, true), run.acks) + 1
    ensures var run := AckWaits(mid, comm.currentId, comm.totalIds, orders, 0);
            |started| == comm.totalIds - 1 && run.outcome == Finished ==>
              && stopAt == AckClock(Observed(old(clock.time), started, true), run.acks) + 1
              && Drained(run.incoming, collectFrom, comm.currentId, comm.totalIds, |dones| < comm.totalIds - 1, dones)
              && clock.time == Observed(stopAt, dones, true)
              && (|dones| < comm.totalIds - 1 ==> outcome == Stalled && comm.incoming == collectFrom)
    ensures outcome == Finished || outcome == Failed ==>
              && |old(comm.sent)| + |orders| <= |comm.sent| && comm.sent[..|old(comm.sent)|] == old(comm.sent)
              && OrdersSent(comm.sent, |old(comm.sent)|, comm.currentId, orders)
              && comm.sent == comm.sent[..|old(comm.sent)| + |orders|]
                              + Fanout(Signal(Stop, stopAt), comm.currentId, comm.totalIds, 0)
              && stopAt > old(clock.time) && StampsBelow(comm.sent, |old(comm.sent)|, |orders|, stopAt)
    ensures outcome == Finished ==>
              && |all| == comm.totalIds - 1 && |replies| == comm.totalIds - 1
              && FirstFromEach(collectFrom, comm.incoming, replies, comm.totalIds) && Histories(replies, all)
    ensures outcome == Failed ==>
              && replies != [] && FirstFromEach(collectFrom, comm.incoming, replies, |replies| + 1)
              && replies[|replies| - 1].header.msgType != BalanceHistory
              && Histories(replies[..|replies| - 1], all)
  {
    WorkersBelowCoordinator(comm.totalIds);
    stopAt, dones, collectFrom, replies := 0, [], comm.incoming, [];
    all := [];
    var stalled;
    stalled, started := ReceiveAllMsgs(comm, clock, true, BLANK);
    mid := comm.incoming;
    ObservedAtLeast(old(clock.time), started, true);
    if stalled {
      return Stalled, all, started, mid, stopAt, dones, collectFrom, replies;
    }
    outcome, all, stopAt, dones, collectFrom, replies := Coordinate(comm, clock, orders);
  }
}
