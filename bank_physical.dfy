/** The banking program on physical time: the same protocol as the one on
    Lamport time, with every timestamp and every history event taken from the
    system clock, no clock rule on receive, and no pending-in accounting. */
module BankPhysical {
  import opened Wire
  import opened Ipc
  import opened Messages
  import opened Bank

  /** What the system clock will show: the current value and the values
      its next reads return. */
  datatype Wall = Wall(now: int, upcoming: seq<int>)

  /** The clock after one read: the next value is taken; once they are used
      up the last value read stays. */
  function Next(w: Wall): (r: Wall)
    ensures w.upcoming != [] ==> r.now == w.upcoming[0] && r.upcoming == w.upcoming[1..]
    ensures w.upcoming == [] ==> r == w
  {
    if w.upcoming == [] then w else Wall(w.upcoming[0], w.upcoming[1..])
  }

  /** The value the `k`-th read from `w` returns (`w.now` for k = 0). */
  function Reading(w: Wall, k: nat): int
    decreases k
  {
    if k == 0 then w.now else Reading(Next(w), k - 1)
  }

  /** The clock after `k` reads from `w`; it shows the `k`-th reading. */
  function Advance(w: Wall, k: nat): (r: Wall)
    ensures r.now == Reading(w, k)
    decreases k
  {
    if k == 0 then w else Advance(Next(w), k - 1)
  }

  /** One more read after `k`: the clock moves one value on. */
  lemma {:induction false} AdvanceSnoc(w: Wall, k: nat)
    ensures Advance(w, k + 1) == Next(Advance(w, k))
    decreases k
  {
    if k > 0 {
      AdvanceSnoc(Next(w), k - 1);
    }
  }

  /** The `count` messages logged from `base` on carry the readings 1 to
      `count` of the clock from `w`, in order. */
  ghost predicate StampedReads(sent: seq<Sent>, base: nat, count: nat, w: Wall)
  {
    && base + count <= |sent|
    && forall j :: base <= j < base + count ==> sent[j].message.header.localTime == Reading(w, j - base + 1)
  }

  /** Logging more keeps the stamps already logged. */
  lemma StampedReadsExtended(log: seq<Sent>, more: seq<Sent>, base: nat, count: nat, w: Wall)
    requires StampedReads(log, base, count, w)
    ensures StampedReads(log + more, base, count, w)
  {
  }

  lemma StampedReadsSnoc(sent: seq<Sent>, m: Sent, base: nat, j: nat, w: Wall)
    requires |sent| == base + j && StampedReads(sent, base, j, w)
    requires m.message.header.localTime == Reading(w, j + 1)
    ensures StampedReads(sent + [m], base, j + 1, w)
  {
  }

  /** The system clock as the program sees it: `upcoming` holds the values
      its next reads return; once they are used up it keeps returning the
      last value read. */
  class PhysicalClock {
    var now: int
    var upcoming: seq<int>

    constructor (now: int, upcoming: seq<int>)
      ensures this.now == now && this.upcoming == upcoming
    {
      this.now := now;
      this.upcoming := upcoming;
    }

    function Value(): Wall
      reads this
    {
      Wall(now, upcoming)
    }

    method Read() returns (t: int)
      modifies this
      ensures old(upcoming) == [] ==> now == old(now) && upcoming == []
      ensures old(upcoming) != [] ==> now == old(upcoming)[0] && upcoming == old(upcoming)[1..]
      ensures Value() == Next(old(Value())) && t == now
    {
      if upcoming != [] {
        now := upcoming[0];
        upcoming := upcoming[1..];
      }
      t := now;
    }
  }

  /** Records an event of `amount` at the time read off the clock. `ok` is
      false, and the history unchanged, when that time falls outside the
      table, where the source's write is undefined. */
  method UpdateHistory(acc: Account, clock: PhysicalClock, amount: int) returns (ok: bool)
    requires acc.Valid()
    modifies acc, acc.history, clock
    ensures acc.Valid() && acc.balance == old(acc.balance)
    ensures clock.Value() == Next(old(clock.Value()))
    ensures ok == (0 <= clock.now <= MAX_T)
    ensures !ok ==> acc.View() == old(acc.View())
    ensures ok ==>
              && acc.prevTime == clock.now && acc.historyLen == clock.now + 1
              && acc.state == BalanceState(old(acc.state).balance + amount, clock.now, old(acc.state).pendingIn)
              && acc.history[..] == Recorded(old(acc.history[..]), old(acc.state), old(acc.prevTime), clock.now,
                                             clock.now, amount, false)
              && acc.history[clock.now] == acc.state
              && acc.View() == Event(old(acc.View()), clock.now, clock.now, amount, false)
  {
    var curr := clock.Read();
    if !(0 <= curr <= MAX_T) {
      return false;
    }
    acc.Record(amount, curr, curr, false);
    return true;
  }

  /** The event broadcast with the system clock: the stamp is one reading,
      and formatting the log line for STARTED or DONE takes another. The
      result and the log are those of the shared builder. */
  method SendProcEvent(comm: Pipes, clock: PhysicalClock, t: MessageType, text: seq<char>) returns (r: int)
    requires comm.Valid() && |text| < MAX_PAYLOAD_LEN
    modifies comm, clock
    ensures comm.Valid() && comm.incoming == old(comm.incoming) && comm.lastMsgFrom == old(comm.lastMsgFrom)
    ensures t != Started && t != Done ==>
              r == -1 && comm.sent == old(comm.sent) && clock.Value() == Next(old(clock.Value()))
    ensures t == Started || t == Done ==>
              && r == (if text == [] then -2 else 0)
              && clock.Value() == Next(Next(old(clock.Value())))
              && comm.sent == old(comm.sent) + Announcement(t, Next(old(clock.Value())).now, text,
                                                            comm.currentId, comm.totalIds)
  {
    var stamp := clock.Read();
    if t == Started || t == Done {
      var _ := clock.Read();
    }
    r := SendAllProcEvent(comm, t, stamp, text);
  }

  /** The transfer a TRANSFER message orders can be carried out here, with
      the clock at `w`, without leaving the history table or sending where
      there is no pipe. */
  predicate TransferDefined(self: int, n: int, w: Wall, msg: Message)
  {
    var o := OrderOf(msg.payload);
    var t := Next(w).now;
    if self == o.src then 0 <= o.dst < n && o.dst != self && 0 <= t <= MAX_T
    else if self == o.dst then 0 <= t <= MAX_T
    else true
  }

  /** What carrying out the order of TRANSFER `m` does to the clock (from
      `w0` to `w`), the books (from `a` to `b`) and the log (from `sent0` to
      `sent`). The source records the withdrawal at the next reading of the
      clock and forwards the order to the destination, stamped with the
      reading after it. The destination records the income at the next
      reading and acknowledges to the coordinator with the reading after
      it. Any other process changes nothing. */
  ghost predicate Transferred(self: int, m: Message, w0: Wall, a: Books, sent0: seq<Sent>, w: Wall, b: Books,
                              sent: seq<Sent>)
  {
    var o := OrderOf(m.payload);
    var t1 := Next(w0).now;
    if self == o.src then
      && 0 <= t1 < |a.history| && w == Next(Next(w0))
      && b == Event(a, t1, t1, -o.amount, false).(balance := a.balance - o.amount)
      && sent == sent0 + [Sent(GetIndex(o.dst, self), TransferMessage(o, w.now))]
    else if self == o.dst then
      && 0 <= t1 < |a.history| && w == Next(Next(w0))
      && b == Event(a, t1, t1, o.amount, false).(balance := a.balance + o.amount)
      && sent == sent0 + [Sent(GetIndex(PARENT_ID, self), Signal(Ack, w.now))]
    else
      w == w0 && b == a && sent == sent0
  }

  /** Carries out the order in a TRANSFER message, as `Transferred` says;
      -1 when this process is neither its source nor its destination.
      `defined` is false when the event time falls outside the history
      table; nothing is recorded or sent then. */
  method DoTransfer(comm: Pipes, clock: PhysicalClock, acc: Account, msg: Message) returns (r: int, defined: bool)
    requires comm.Valid() && acc.Valid()
    requires var o := OrderOf(msg.payload);
             (comm.currentId == o.src ==> comm.IsPeer(o.dst))
             && (comm.currentId != o.src && comm.currentId == o.dst ==> comm.currentId != PARENT_ID)
    modifies comm, acc, acc.history, clock
    ensures comm.Valid() && acc.Valid()
    ensures comm.incoming == old(comm.incoming) && comm.lastMsgFrom == old(comm.lastMsgFrom)
    ensures var o := OrderOf(msg.payload);
            r == (if comm.currentId == o.src || comm.currentId == o.dst then 0 else -1)
    ensures defined == TransferDefined(comm.currentId, comm.totalIds, old(clock.Value()), msg)
    ensures defined ==>
              Transferred(comm.currentId, msg, old(clock.Value()), old(acc.View()), old(comm.sent), clock.Value(),
                          acc.View(), comm.sent)
    ensures !defined ==> comm.sent == old(comm.sent) && acc.View() == old(acc.View())
  {
    var order := OrderOf(msg.payload);
    if comm.currentId == order.src {
      defined := UpdateHistory(acc, clock, -order.amount);
      if !defined {
        return 0, false;
      }
      var t := clock.Read();
      SendTransfer(comm, order.dst, order, t);
      acc.balance := acc.balance - order.amount;
    } else if comm.currentId == order.dst {
      defined := UpdateHistory(acc, clock, order.amount);
      if !defined {
        return 0, false;
      }
      var t := clock.Read();
      SendAck(comm, PARENT_ID, t);
      acc.balance := acc.balance + order.amount;
    } else {
      return -1, true;
    }
    return 0, true;
  }

  /** The coordinator's side of one transfer: the clock is read, the order
      goes to `src` stamped with that reading, and the coordinator waits for
      the ACK from `dst`, as `OrderWait` says. The log gains the TRANSFER
      exactly when `src` is a peer. */
  method RequestTransfer(comm: Pipes, clock: PhysicalClock, src: int, dst: int, amount: int) returns (outcome: Outcome)
    requires comm.Valid()
    modifies comm, clock
    ensures comm.Valid() && comm.lastMsgFrom == old(comm.lastMsgFrom)
    ensures comm.writeFailures == if comm.IsPeer(src) then 0 else old(comm.writeFailures)
    ensures clock.Value() == Next(old(clock.Value()))
    ensures comm.sent == old(comm.sent)
              + if comm.IsPeer(src)
                then [Sent(GetIndex(src, comm.currentId), TransferMessage(TransferOrder(src, dst, amount), clock.now))]
                else []
    ensures var s := OrderWait(old(comm.incoming), comm.currentId, comm.totalIds, TransferOrder(src, dst, amount));
            outcome == s.outcome && comm.incoming == s.incoming
  {
    var order := TransferOrder(src, dst, amount);
    var t := clock.Read();
    if !comm.IsPeer(src) {
      return Undefined;
    }
    SendTransfer(comm, src, order, t);
    if dst == comm.currentId {
      // a read from oneself always fails, so this wait never ends
      return Stalled;
    } else if !comm.IsPeer(dst) {
      return Undefined;
    }
    var stalled, ack := comm.AwaitFrom(dst, AckOnly, BLANK);
    outcome := if stalled then Stalled else Finished;
  }

  /** An account process, as on Lamport time: records its opening state,
      announces itself, waits for the other accounts, serves transfers until
      stopped and until every other account is DONE, then records one more
      event and sends its history to the coordinator. `started` are the
      STARTED messages taken, `mid` the channels after them, `seen` the
      messages the main loop took and `outs` its answers to them. The log is
      the STARTED broadcast stamped with the second reading of the clock,
      the answers, and the history; the history's last entry holds the
      opening balance moved by the transfers carried out. */
  method ChildWork(comm: Pipes, clock: PhysicalClock, balance: int, startedText: seq<char>, doneText: seq<char>)
    returns (outcome: Outcome, h: History, ghost started: seq<Message>, ghost mid: seq<seq<Frame>>,
             ghost seen: seq<Got>, ghost outs: seq<seq<Sent>>)
    requires comm.Valid() && comm.currentId != PARENT_ID && comm.totalIds <= SIZE_MAX
    requires |startedText| < MAX_PAYLOAD_LEN && |doneText| < MAX_PAYLOAD_LEN
    modifies comm, clock
    ensures outcome == Undefined && seen == [] ==> !(0 <= Reading(old(clock.Value()), 1) <= MAX_T)
    ensures outcome == Finished || outcome == Failed ==>
              && Drained(old(comm.incoming), mid, comm.currentId, comm.totalIds, false, started)
              && Took(mid, comm.incoming, comm.currentId, comm.totalIds, seen)
    ensures Ended(outcome, old(comm.sent) + Announcement(Started, Reading(old(clock.Value()), 2), startedText,
                                                         comm.currentId, comm.totalIds),
                  comm.sent, seen, outs, h, clock.now, balance, comm.currentId, comm.totalIds, doneText)
  {
    started, mid, seen, outs := [], comm.incoming, [], [];
    var acc := new Account(comm.currentId, balance);
    h := acc.Snapshot();
    var stalled, ok;
    ok, stalled, started := Open(comm, clock, acc, startedText);
    mid := comm.incoming;
    if !ok {
      outcome := Undefined;
    } else if stalled {
      outcome := Stalled;
    } else {
      ghost var opening := comm.sent;
      outcome, h, seen, outs := Run(comm, clock, acc, doneText);
      EndedMoved(outcome, opening, old(comm.sent) + Announcement(Started, Reading(old(clock.Value()), 2), startedText,
                                                           comm.currentId, comm.totalIds),
                 comm.sent, seen, outs, h, clock.now, balance, comm.currentId, comm.totalIds, doneText);
    }
  }

  /** An account process once every STARTED is in: the main loop, then, when
      it ends normally, the history sent to the coordinator. The log is the
      answers to the messages taken followed by the history, whose last
      entry holds the current balance moved by the transfers carried out. */
  method Run(comm: Pipes, clock: PhysicalClock, acc: Account, doneText: seq<char>)
    returns (outcome: Outcome, h: History, ghost seen: seq<Got>, ghost outs: seq<seq<Sent>>)
    requires comm.Valid() && acc.Valid() && comm.currentId != PARENT_ID && comm.totalIds <= SIZE_MAX
    requires |doneText| < MAX_PAYLOAD_LEN && acc.id == comm.currentId
    modifies comm, clock, acc, acc.history
    ensures Took(old(comm.incoming), comm.incoming, comm.currentId, comm.totalIds, seen)
    ensures outcome == Undefined ==> seen != []
    ensures Ended(outcome, old(comm.sent), comm.sent, seen, outs, h, clock.now, old(acc.state.balance),
                  comm.currentId, comm.totalIds, doneText)
  {
    h := acc.Snapshot();
    var served;
    served, seen, outs := ServeTransfers(comm, clock, acc, doneText);
    if served != Finished {
      return served, h, seen, outs;
    }
    ghost var log := comm.sent;
    outcome, h := SendHistory(comm, clock, acc);
    if outcome == Finished {
      assert comm.sent[..|comm.sent| - 1] == log;
    }
  }

  /** The opening of an account process: its opening state recorded at the
      first reading of the clock, the STARTED broadcast stamped with the
      second (formatting its text takes a third), and a STARTED taken from
      every other account. `ok` is false, and nothing sent, when the first
      reading falls outside the history table. */
  method Open(comm: Pipes, clock: PhysicalClock, acc: Account, startedText: seq<char>)
    returns (ok: bool, stalled: bool, ghost started: seq<Message>)
    requires comm.Valid() && acc.Valid() && |startedText| < MAX_PAYLOAD_LEN
    modifies comm, clock, acc, acc.history
    ensures comm.Valid() && acc.Valid()
    ensures acc.balance == old(acc.balance) && acc.state.balance == old(acc.state.balance)
    ensures ok == (0 <= Reading(old(clock.Value()), 1) <= MAX_T)
    ensures !ok ==>
              && comm.sent == old(comm.sent) && comm.incoming == old(comm.incoming)
              && clock.Value() == Next(old(clock.Value())) && acc.View() == old(acc.View())
    ensures ok ==>
              && clock.Value() == Next(Next(Next(old(clock.Value()))))
              && acc.View() == Event(old(acc.View()), Reading(old(clock.Value()), 1), Reading(old(clock.Value()), 1),
                                     0, false)
    ensures ok ==>
              && comm.sent == old(comm.sent) + Announcement(Started, Reading(old(clock.Value()), 2), startedText,
                                                            comm.currentId, comm.totalIds)
              && Drained(old(comm.incoming), comm.incoming, comm.currentId, comm.totalIds, stalled, started)
  {
    started, stalled := [], false;
    ok := UpdateHistory(acc, clock, 0);
    if !ok {
      return;
    }
    var _ := SendProcEvent(comm, clock, Started, startedText);
    stalled, started := comm.ReceiveFromWorkers(BLANK);
  }

  /** An account's last step: one more event, then its history to the
      coordinator, stamped with the time read off the clock. `Undefined`
      when the event would fall outside the history table. The history ends
      with the current balance. */
  method SendHistory(comm: Pipes, clock: PhysicalClock, acc: Account) returns (outcome: Outcome, h: History)
    requires comm.Valid() && acc.Valid() && comm.currentId != PARENT_ID
    modifies comm, clock, acc, acc.history
    ensures comm.Valid() && comm.incoming == old(comm.incoming)
    ensures outcome == Finished || outcome == Undefined
    ensures outcome == Undefined <==> !(0 <= Reading(old(clock.Value()), 1) <= MAX_T)
    ensures outcome == Undefined ==>
              && comm.sent == old(comm.sent) && clock.Value() == Next(old(clock.Value()))
              && acc.View() == old(acc.View())
    ensures outcome == Finished ==>
              && clock.Value() == Next(Next(old(clock.Value())))
              && acc.View() == Event(old(acc.View()), Reading(old(clock.Value()), 1), Reading(old(clock.Value()), 1),
                                     0, false)
    ensures outcome == Finished ==>
              && comm.sent == old(comm.sent) + [Sent(GetIndex(PARENT_ID, comm.currentId), HistoryMessage(h, clock.now))]
              && h.id == acc.id && |h.states| == MAX_T + 1
              && Timeline(h.states, h.len)
              && 0 < h.len <= |h.states| && h.states[h.len - 1].balance == old(acc.state.balance)
  {
    h := acc.Snapshot();
    var ok := UpdateHistory(acc, clock, 0);
    if !ok {
      return Undefined, h;
    }
    h := acc.Snapshot();
    assert Timeline(h.states, h.len);
    var t := clock.Read();
    SendBalanceHistory(comm, PARENT_ID, h, t);
    return Finished, h;
  }

  /** The account's main loop: takes messages until it has been told to
      stop and has heard DONE from every other account, and fails (-1 in
      the source) on a message of any other kind. `seen` lists the messages
      taken, in order, each with its sender; `outs[i]` is what the account
      logged in answer to `seen[i]` (the last message taken goes unanswered
      when its event would leave the history table). The balance moves by
      the transfers carried out. */
  method ServeTransfers(comm: Pipes, clock: PhysicalClock, acc: Account, doneText: seq<char>)
    returns (outcome: Outcome, ghost seen: seq<Got>, ghost outs: seq<seq<Sent>>)
    requires comm.Valid() && acc.Valid() && comm.currentId != PARENT_ID && comm.totalIds <= SIZE_MAX
    requires |doneText| < MAX_PAYLOAD_LEN
    modifies comm, clock, acc, acc.history
    ensures comm.Valid() && acc.Valid()
    ensures Took(old(comm.incoming), comm.incoming, comm.currentId, comm.totalIds, seen)
    ensures outcome == Finished || outcome == Failed || outcome == Stalled || outcome == Undefined
    ensures outcome == Undefined ==> seen != []
    ensures var handled := if outcome == Undefined && seen != [] then seen[..|seen| - 1] else seen;
            && Answered(old(comm.sent), comm.sent, handled, outs, comm.currentId, comm.totalIds, doneText)
            && acc.balance == old(acc.balance) + Net(handled, comm.currentId)
            && acc.state.balance == old(acc.state.balance) + Net(handled, comm.currentId)
    ensures outcome == Finished ==>
              && |OfType(seen, Stop)| >= 1 && |OfType(seen, Done)| >= comm.totalIds - 2
              && forall g :: g in seen ==> Served(g.message.header.msgType)
    ensures outcome == Failed ==>
              && seen != [] && !Served(seen[|seen| - 1].message.header.msgType)
              && forall g :: g in seen[..|seen| - 1] ==> Served(g.message.header.msgType)
  {
    seen, outs := [], [];
    TookNothing(comm.incoming, comm.currentId, comm.totalIds);
    AnsweredNone(comm.sent, comm.currentId, comm.totalIds, doneText);
    var doneLeft: nat := comm.totalIds - 2;
    var notStopped := true;
    var msg := BLANK;
    while doneLeft > 0 || notStopped
      invariant comm.Valid() && acc.Valid()
      invariant doneLeft <= SIZE_MAX
      invariant Took(old(comm.incoming), comm.incoming, comm.currentId, comm.totalIds, seen)
      invariant Answered(old(comm.sent), comm.sent, seen, outs, comm.currentId, comm.totalIds, doneText)
      invariant acc.balance == old(acc.balance) + Net(seen, comm.currentId)
      invariant acc.state.balance == old(acc.state.balance) + Net(seen, comm.currentId)
      invariant forall g :: g in seen ==> Served(g.message.header.msgType)
      invariant !notStopped ==> |OfType(seen, Stop)| >= 1
      invariant |OfType(seen, Done)| + doneLeft >= comm.totalIds - 2
      decreases TotalFrames(comm.incoming)
    {
      ghost var inc1 := comm.incoming;
      var status;
      ghost var outs';
      status, msg, outs' := ServeOne(comm, clock, acc, doneText, msg, old(comm.sent), old(acc.balance),
                                     old(acc.state.balance), seen, outs);
      ghost var got: seq<Got> := if status == Stalled then [] else [Got(comm.lastMsgFrom, msg)];
      TookMore(old(comm.incoming), inc1, comm.incoming, comm.currentId, comm.totalIds, seen, got);
      if status == Stalled {
        assert seen + got == seen;
        return Stalled, seen, outs';
      }
      CountsSnoc(seen, Got(comm.lastMsgFrom, msg));
      ghost var before := seen;
      seen, outs := seen + got, outs';
      if status == Undefined || status == Failed {
        assert seen[..|seen| - 1] == before;
        return status, seen, outs;
      }
      if msg.header.msgType == Stop {
        notStopped := false;
      } else if msg.header.msgType == Done {
        doneLeft := DecrementSize(doneLeft);
      }
    }
    outcome := Finished;
  }

  /** One round of the main loop: waits for the next message and handles
      it. The answers and the balance are carried on from those of `seen`:
      the message is added to them unless the wait stalls or its transfer
      is not carried out. */
  method ServeOne(comm: Pipes, clock: PhysicalClock, acc: Account, doneText: seq<char>, buffer: Message,
                  ghost base: seq<Sent>, ghost bal: int, ghost stateBal: int, ghost seen: seq<Got>,
                  ghost outs: seq<seq<Sent>>)
    returns (status: Outcome, msg: Message, ghost outs': seq<seq<Sent>>)
    requires comm.Valid() && acc.Valid() && comm.currentId != PARENT_ID && |doneText| < MAX_PAYLOAD_LEN
    requires Answered(base, comm.sent, seen, outs, comm.currentId, comm.totalIds, doneText)
    requires acc.balance == bal + Net(seen, comm.currentId) && acc.state.balance == stateBal + Net(seen, comm.currentId)
    modifies comm, clock, acc, acc.history
    ensures comm.Valid() && acc.Valid()
    ensures Took(old(comm.incoming), comm.incoming, comm.currentId, comm.totalIds,
                 if status == Stalled then [] else [Got(comm.lastMsgFrom, msg)])
    ensures status != Stalled ==> TotalFrames(comm.incoming) < TotalFrames(old(comm.incoming))
    ensures status != Stalled ==> (status == Failed <==> !Served(msg.header.msgType))
    ensures var handled := if status == Stalled || status == Undefined then seen else seen + [Got(comm.lastMsgFrom, msg)];
            && Answered(base, comm.sent, handled, outs', comm.currentId, comm.totalIds, doneText)
            && acc.balance == bal + Net(handled, comm.currentId)
            && acc.state.balance == stateBal + Net(handled, comm.currentId)
  {
    outs' := outs;
    var stalled;
    stalled, msg := comm.AwaitAny(buffer);
    if stalled {
      return Stalled, msg, outs';
    }
    ghost var g := Got(comm.lastMsgFrom, msg);
    ghost var sent0 := comm.sent;
    status := HandleMessage(comm, clock, acc, msg, doneText);
    if status == Undefined {
      return;
    }
    NetSnoc(seen, g, comm.currentId);
    ghost var out := comm.sent[|sent0|..];
    assert comm.sent == sent0 + out;
    AnsweredSnoc(base, sent0, seen, outs, g, out, comm.currentId, comm.totalIds, doneText);
    outs' := outs + [out];
  }

  /** One message of the account's main loop. A TRANSFER is carried out as
      `Transferred` says. A STOP is answered with the DONE broadcast stamped
      with the next reading of the clock (formatting its text takes one
      more). A DONE changes nothing. `Failed` (-1) for any other kind, and
      `Undefined` when the transfer's event would fall outside the history
      table or go where there is no pipe; nothing is recorded or sent then.
      Every answer is one `Answers` allows. */
  method HandleMessage(comm: Pipes, clock: PhysicalClock, acc: Account, msg: Message, doneText: seq<char>)
    returns (status: Outcome)
    requires comm.Valid() && acc.Valid() && comm.currentId != PARENT_ID && |doneText| < MAX_PAYLOAD_LEN
    modifies comm, clock, acc, acc.history
    ensures comm.Valid() && acc.Valid() && comm.incoming == old(comm.incoming) && comm.lastMsgFrom == old(comm.lastMsgFrom)
    ensures status == Finished || status == Failed || status == Undefined
    ensures status == Failed <==> !Served(msg.header.msgType)
    ensures status == Undefined <==>
              msg.header.msgType == Transfer && !TransferDefined(comm.currentId, comm.totalIds, old(clock.Value()), msg)
    ensures status != Finished ==> acc.View() == old(acc.View()) && comm.sent == old(comm.sent)
    ensures status == Failed ==> clock.Value() == old(clock.Value())
    ensures status == Finished && msg.header.msgType == Transfer ==>
              Transferred(comm.currentId, msg, old(clock.Value()), old(acc.View()), old(comm.sent), clock.Value(),
                          acc.View(), comm.sent)
    ensures status == Finished && msg.header.msgType == Stop ==>
              && clock.Value() == Next(Next(old(clock.Value()))) && acc.View() == old(acc.View())
              && comm.sent == old(comm.sent) + Announcement(Done, Next(old(clock.Value())).now, doneText,
                                                            comm.currentId, comm.totalIds)
    ensures status == Finished && msg.header.msgType == Done ==>
              clock.Value() == old(clock.Value()) && acc.View() == old(acc.View()) && comm.sent == old(comm.sent)
    ensures status != Undefined ==>
              && acc.balance == old(acc.balance) + NetEffect(msg, comm.currentId)
              && acc.state.balance == old(acc.state.balance) + NetEffect(msg, comm.currentId)
              && |old(comm.sent)| <= |comm.sent| && comm.sent[..|old(comm.sent)|] == old(comm.sent)
              && Answers(msg, comm.sent[|old(comm.sent)|..], comm.currentId, comm.totalIds, doneText)
  {
    if msg.header.msgType == Transfer {
      var o := OrderOf(msg.payload);
      if comm.currentId == o.src && !comm.IsPeer(o.dst) {
        return Undefined;
      }
      var _, defined := DoTransfer(comm, clock, acc, msg);
      if !defined {
        return Undefined;
      }
    } else if msg.header.msgType == Stop {
      ghost var w0 := clock.Value();
      var _ := SendProcEvent(comm, clock, Done, doneText);
      AnnouncementStamped(Next(w0).now, doneText, comm.currentId, comm.totalIds);
      assert comm.sent[|old(comm.sent)|..] == Announcement(Done, Next(w0).now, doneText, comm.currentId, comm.totalIds);
    } else if msg.header.msgType != Done {
      return Failed;
    }
    return Finished;
  }

  /** Order `j` sent with the clock's reading `j + 1` from `w0` and
      acknowledged: the log, channels and clock `sent`, `incoming` and `w`
      after it are one step further through the run. */
  lemma {:induction false} OrderAcked(before: seq<Sent>, orig: seq<seq<Frame>>, self: int, n: int,
                                      orders: seq<TransferOrder>, j: int, acks: seq<Message>, w0: Wall, sent0: seq<Sent>,
                                      incoming0: seq<seq<Frame>>, sent: seq<Sent>, incoming: seq<seq<Frame>>, w: Wall)
    requires 0 <= self < n && |orig| == n - 1
    requires Sending(before, sent0, incoming0, self, n, orders, j, acks, AckWaits(orig, self, n, orders, 0))
    requires StampedReads(sent0, |before|, j, w0)
    requires j < |orders| && w == Advance(w0, j + 1)
    requires var s := OrderWait(incoming0, self, n, orders[j]);
             && s.outcome == Finished && incoming == s.incoming
             && sent == sent0 + [Sent(GetIndex(orders[j].src, self),
                                      TransferMessage(TransferOrder(orders[j].src, orders[j].dst, orders[j].amount), w.now))]
    ensures var acks' := acks + OrderWait(incoming0, self, n, orders[j]).acks;
            && Sending(before, sent, incoming, self, n, orders, j + 1, acks', AckWaits(orig, self, n, orders, 0))
            && StampedReads(sent, |before|, j + 1, w0)
  {
    assert TransferOrder(orders[j].src, orders[j].dst, orders[j].amount) == orders[j];
    SendingStep(before, sent0, incoming0, self, n, orders, j, acks, AckWaits(orig, self, n, orders, 0), w.now);
    StampedReadsSnoc(sent0, sent[|sent0|], |before|, j, w0);
  }

  /** Order `j` begun with the clock's reading `j + 1` from `w0`, whose wait
      does not finish: the run ends there, `j + 1` orders begun, its
      TRANSFER logged with that reading when it went out. */
  lemma {:induction false} OrderEnded(before: seq<Sent>, orig: seq<seq<Frame>>, self: int, n: int,
                                      orders: seq<TransferOrder>, j: int, acks: seq<Message>, w0: Wall, sent0: seq<Sent>,
                                      incoming0: seq<seq<Frame>>, sent: seq<Sent>, incoming: seq<seq<Frame>>, w: Wall)
    requires 0 <= self < n && |orig| == n - 1
    requires Sending(before, sent0, incoming0, self, n, orders, j, acks, AckWaits(orig, self, n, orders, 0))
    requires StampedReads(sent0, |before|, j, w0)
    requires j < |orders| && w == Advance(w0, j + 1)
    requires var s := OrderWait(incoming0, self, n, orders[j]);
             && s.outcome != Finished && incoming == s.incoming
             && sent == sent0 + if s.unanswered
                                then [Sent(GetIndex(orders[j].src, self),
                                           TransferMessage(TransferOrder(orders[j].src, orders[j].dst, orders[j].amount),
                                                           w.now))]
                                else []
    ensures var run := AckWaits(orig, self, n, orders, 0);
            && OrdersCarried(before, sent, orig, incoming, self, n, orders, OrderWait(incoming0, self, n, orders[j]).outcome)
            && OrdersBegun(run) == j + 1 && StampedReads(sent, |before|, OrdersOut(run), w0)
            && |before| <= |sent| && sent[..|before|] == before
  {
    assert TransferOrder(orders[j].src, orders[j].dst, orders[j].amount) == orders[j];
    assert sent0 + [] == sent0;
    SendingEnds(before, sent0, orig, incoming0, self, n, orders, j, acks, w.now);
    if OrderWait(incoming0, self, n, orders[j]).unanswered {
      StampedReadsSnoc(sent0, sent[|sent0|], |before|, j, w0);
    }
  }

  /** Order `j` of the coordinator's transfers, carried out part way
      through the run over `orders` that started from the log `before`, the
      channels `orig` and the clock `w0`: the clock is read once, and either
      its ACK comes and the run goes on past it, the ACK added to `acks`, or
      it does not and the run ends here as `OrdersCarried` states, the order
      logged with that reading when it went out. */
  method SendOrder(comm: Pipes, clock: PhysicalClock, orders: seq<TransferOrder>, j: int, ghost before: seq<Sent>,
                   ghost orig: seq<seq<Frame>>, ghost w0: Wall, ghost acks: seq<Message>)
    returns (outcome: Outcome, ghost acks': seq<Message>)
    requires comm.Valid() && |orig| == comm.totalIds - 1 && 0 <= j < |orders|
    requires Sending(before, comm.sent, comm.incoming, comm.currentId, comm.totalIds, orders, j, acks,
                     AckWaits(orig, comm.currentId, comm.totalIds, orders, 0))
    requires clock.Value() == Advance(w0, j) && StampedReads(comm.sent, |before|, j, w0)
    modifies comm, clock
    ensures comm.Valid() && comm.lastMsgFrom == old(comm.lastMsgFrom)
    ensures clock.Value() == Advance(w0, j + 1)
    ensures outcome == Finished ==>
              && Sending(before, comm.sent, comm.incoming, comm.currentId, comm.totalIds, orders, j + 1, acks',
                         AckWaits(orig, comm.currentId, comm.totalIds, orders, 0))
              && StampedReads(comm.sent, |before|, j + 1, w0)
    ensures outcome != Finished ==>
              var run := AckWaits(orig, comm.currentId, comm.totalIds, orders, 0);
              && OrdersCarried(before, comm.sent, orig, comm.incoming, comm.currentId, comm.totalIds, orders, outcome)
              && OrdersBegun(run) == j + 1 && StampedReads(comm.sent, |before|, OrdersOut(run), w0)
              && |before| <= |comm.sent| && comm.sent[..|before|] == before
  {
    acks' := acks;
    var o := orders[j];
    assert TransferOrder(o.src, o.dst, o.amount) == o;
    ghost var sent0, incoming0 := comm.sent, comm.incoming;
    ghost var s := OrderWait(comm.incoming, comm.currentId, comm.totalIds, o);
    outcome := RequestTransfer(comm, clock, o.src, o.dst, o.amount);
    AdvanceSnoc(w0, j);
    if outcome != Finished {
      OrderEnded(before, orig, comm.currentId, comm.totalIds, orders, j, acks, w0, sent0, incoming0, comm.sent,
                 comm.incoming, clock.Value());
      return;
    }
    OrderAcked(before, orig, comm.currentId, comm.totalIds, orders, j, acks, w0, sent0, incoming0, comm.sent,
               comm.incoming, clock.Value());
    acks' := acks + s.acks;
  }

  /** The coordinator's transfers, one order after the other: each order
      goes to its source account and the coordinator waits for the ACK from
      its destination, as `OrdersCarried` states. Each order begun read the
      clock once, in turn, and each that went out carries that reading. */
  method SendOrders(comm: Pipes, clock: PhysicalClock, orders: seq<TransferOrder>) returns (outcome: Outcome)
    requires comm.Valid()
    modifies comm, clock
    ensures comm.Valid() && comm.lastMsgFrom == old(comm.lastMsgFrom)
    ensures outcome == Finished || outcome == Stalled || outcome == Undefined
    ensures OrdersCarried(old(comm.sent), comm.sent, old(comm.incoming), comm.incoming, comm.currentId, comm.totalIds,
                          orders, outcome)
    ensures var run := AckWaits(old(comm.incoming), comm.currentId, comm.totalIds, orders, 0);
            && clock.Value() == Advance(old(clock.Value()), OrdersBegun(run))
            && StampedReads(comm.sent, |old(comm.sent)|, OrdersOut(run), old(clock.Value()))
    ensures |old(comm.sent)| <= |comm.sent| && comm.sent[..|old(comm.sent)|] == old(comm.sent)
    ensures outcome == Finished ==>
              |comm.sent| == |old(comm.sent)| + |orders| && OrdersSent(comm.sent, |old(comm.sent)|, comm.currentId, orders)
  {
    ghost var acks: seq<Message> := [];
    SendingStart(comm.sent, comm.incoming, comm.currentId, comm.totalIds, orders);
    var j := 0;
    outcome := Finished;
    while j < |orders| && outcome == Finished
      invariant 0 <= j <= |orders| && comm.Valid() && comm.lastMsgFrom == old(comm.lastMsgFrom)
      invariant outcome == Finished ==>
                  && Sending(old(comm.sent), comm.sent, comm.incoming, comm.currentId, comm.totalIds, orders, j, acks,
                             AckWaits(old(comm.incoming), comm.currentId, comm.totalIds, orders, 0))
                  && clock.Value() == Advance(old(clock.Value()), j)
                  && StampedReads(comm.sent, |old(comm.sent)|, j, old(clock.Value()))
      invariant outcome != Finished ==>
                  var run := AckWaits(old(comm.incoming), comm.currentId, comm.totalIds, orders, 0);
                  && OrdersCarried(old(comm.sent), comm.sent, old(comm.incoming), comm.incoming, comm.currentId,
                                   comm.totalIds, orders, outcome)
                  && clock.Value() == Advance(old(clock.Value()), OrdersBegun(run))
                  && StampedReads(comm.sent, |old(comm.sent)|, OrdersOut(run), old(clock.Value()))
                  && |old(comm.sent)| <= |comm.sent| && comm.sent[..|old(comm.sent)|] == old(comm.sent)
      decreases |orders| - j, outcome == Finished
    {
      outcome, acks := SendOrder(comm, clock, orders, j, old(comm.sent), old(comm.incoming), old(clock.Value()), acks);
      if outcome == Finished {
        j := j + 1;
      }
    }
    AckWaitsAcks(old(comm.incoming), comm.currentId, comm.totalIds, orders, 0);
    if outcome == Finished {
      SendingDone(old(comm.sent), comm.sent, old(comm.incoming), comm.incoming, comm.currentId, comm.totalIds, orders,
                  acks);
    }
  }

  /** The coordinator's end, once the orders are carried out: STOP to
      everyone stamped with the time read off the clock, then the DONE round
      (`dones`, taken from the channels as they were), then the histories
      collected (`replies`, taken from the channels `collectFrom` the DONE
      round left). Nothing reads the clock after the STOP. */
  method StopAndCollect(comm: Pipes, clock: PhysicalClock)
    returns (outcome: Outcome, all: seq<History>, ghost stopAt: int, ghost dones: seq<Message>,
             ghost collectFrom: seq<seq<Frame>>, ghost replies: seq<Message>)
    requires comm.Valid() && comm.currentId == PARENT_ID
    modifies comm, clock
    ensures outcome == Finished || outcome == Stalled || outcome == Failed
    ensures stopAt == clock.now && clock.Value() == Next(old(clock.Value()))
    ensures comm.sent == old(comm.sent) + Fanout(Signal(Stop, stopAt), comm.currentId, comm.totalIds, 0)
    ensures Drained(old(comm.incoming), collectFrom, comm.currentId, comm.totalIds, |dones| < comm.totalIds - 1, dones)
    ensures |dones| < comm.totalIds - 1 ==> outcome == Stalled && comm.incoming == collectFrom
    ensures outcome == Finished ==>
              && |all| == comm.totalIds - 1 && |replies| == comm.totalIds - 1
              && FirstFromEach(collectFrom, comm.incoming, replies, comm.totalIds) && Histories(replies, all)
    ensures outcome == Failed ==>
              && replies != [] && FirstFromEach(collectFrom, comm.incoming, replies, |replies| + 1)
              && replies[|replies| - 1].header.msgType != BalanceHistory
              && Histories(replies[..|replies| - 1], all)
  {
    WorkersBelowCoordinator(comm.totalIds);
    replies, all := [], [];
    var t := clock.Read();
    stopAt := t;
    SendAllStop(comm, t);
    var stalled;
    stalled, dones := comm.ReceiveFromWorkers(BLANK);
    collectFrom := comm.incoming;
    if stalled {
      return Stalled, all, stopAt, dones, collectFrom, replies;
    }
    outcome, all, replies := CollectHistories(comm);
  }

  /** The coordinator once every STARTED is in: the transfers `orders`
      carried out as `OrdersCarried` states, each stamped with the next
      reading of the clock, and, when all are, STOP to everyone with the
      reading after those, the DONE round `dones` and one balance history
      from each account in id order (`replies`, taken from the channels
      `collectFrom`). -1 (`Failed`) when an account answers with anything
      but its history. */
  method Coordinate(comm: Pipes, clock: PhysicalClock, orders: seq<TransferOrder>)
    returns (outcome: Outcome, all: seq<History>, ghost stopAt: int, ghost dones: seq<Message>,
             ghost collectFrom: seq<seq<Frame>>, ghost replies: seq<Message>)
    requires comm.Valid() && comm.currentId == PARENT_ID
    modifies comm, clock
    ensures var run := AckWaits(old(comm.incoming), comm.currentId, comm.totalIds, orders, 0);
            && StampedReads(comm.sent, |old(comm.sent)|, OrdersOut(run), old(clock.Value()))
            && (run.outcome != Finished ==>
                  && outcome == run.outcome && clock.Value() == Advance(old(clock.Value()), OrdersBegun(run))
                  && OrdersCarried(old(comm.sent), comm.sent, old(comm.incoming), comm.incoming, comm.currentId,
                                   comm.totalIds, orders, outcome))
    ensures var run := AckWaits(old(comm.incoming), comm.currentId, comm.totalIds, orders, 0);
            run.outcome == Finished ==>
              && stopAt == Reading(old(clock.Value()), |orders| + 1)
              && clock.Value() == Advance(old(clock.Value()), |orders| + 1)
              && Drained(run.incoming, collectFrom, comm.currentId, comm.totalIds, |dones| < comm.totalIds - 1, dones)
              && (|dones| < comm.totalIds - 1 ==> outcome == Stalled && comm.incoming == collectFrom)
    ensures outcome == Finished || outcome == Failed ==>
              && |old(comm.sent)| + |orders| <= |comm.sent| && comm.sent[..|old(comm.sent)|] == old(comm.sent)
              && OrdersSent(comm.sent, |old(comm.sent)|, comm.currentId, orders)
              && comm.sent == comm.sent[..|old(comm.sent)| + |orders|]
                              + Fanout(Signal(Stop, stopAt), comm.currentId, comm.totalIds, 0)
              && stopAt == clock.now
    ensures outcome == Finished ==>
              && |all| == comm.totalIds - 1 && |replies| == comm.totalIds - 1
              && FirstFromEach(collectFrom, comm.incoming, replies, comm.totalIds) && Histories(replies, all)
    ensures outcome == Failed ==>
              && replies != [] && FirstFromEach(collectFrom, comm.incoming, replies, |replies| + 1)
              && replies[|replies| - 1].header.msgType != BalanceHistory
              && Histories(replies[..|replies| - 1], all)
  {
    stopAt, dones, collectFrom, replies := 0, [], comm.incoming, [];
    all := [];
    outcome := SendOrders(comm, clock, orders);
    if outcome != Finished {
      return;
    }
    ghost var log := comm.sent;
    outcome, all, stopAt, dones, collectFrom, replies := StopAndCollect(comm, clock);
    AdvanceSnoc(old(clock.Value()), |orders|);
    StampedReadsExtended(log, comm.sent[|log|..], |old(comm.sent)|, |orders|, old(clock.Value()));
    OrdersSentExtended(log, comm.sent[|log|..], |old(comm.sent)|, comm.currentId, orders);
    assert comm.sent == log + comm.sent[|log|..];
    assert comm.sent[..|log|] == log && comm.sent[..|old(comm.sent)|] == log[..|old(comm.sent)|];
  }

  /** The coordinator, as on Lamport time: waits for every account's
      STARTED (`started`, leaving the channels `mid`), which reads no clock,
      then goes on as `Coordinate` states from there. */
  method ParentWork(comm: Pipes, clock: PhysicalClock, orders: seq<TransferOrder>)
    returns (outcome: Outcome, all: seq<History>, ghost started: seq<Message>, ghost mid: seq<seq<Frame>>,
             ghost stopAt: int, ghost dones: seq<Message>, ghost collectFrom: seq<seq<Frame>>,
             ghost replies: seq<Message>)
    requires comm.Valid() && comm.currentId == PARENT_ID
    modifies comm, clock
    ensures Drained(old(comm.incoming), mid, comm.currentId, comm.totalIds, |started| < comm.totalIds - 1, started)
    ensures |started| < comm.totalIds - 1 ==>
              && outcome == Stalled && comm.incoming == mid && comm.sent == old(comm.sent)
              && clock.Value() == old(clock.Value())
    ensures var run := AckWaits(mid, comm.currentId, comm.totalIds, orders, 0);
            |started| == comm.totalIds - 1 ==>
              && StampedReads(comm.sent, |old(comm.sent)|, OrdersOut(run), old(clock.Value()))
              && (run.outcome != Finished ==>
                    && outcome == run.outcome && clock.Value() == Advance(old(clock.Value()), OrdersBegun(run))
                    && OrdersCarried(old(comm.sent), comm.sent, mid, comm.incoming, comm.currentId, comm.totalIds, orders,
                                     outcome))
    ensures var run := AckWaits(mid, comm.currentId, comm.totalIds, orders, 0);
            |started| == comm.totalIds - 1 && run.outcome == Finished ==>
              && stopAt == Reading(old(clock.Value()), |orders| + 1)
              && clock.Value() == Advance(old(clock.Value()), |orders| + 1)
              && Drained(run.incoming, collectFrom, comm.currentId, comm.totalIds, |dones| < comm.totalIds - 1, dones)
              && (|dones| < comm.totalIds - 1 ==> outcome == Stalled && comm.incoming == collectFrom)
    ensures outcome == Finished || outcome == Failed ==>
              && |old(comm.sent)| + |orders| <= |comm.sent| && comm.sent[..|old(comm.sent)|] == old(comm.sent)
              && OrdersSent(comm.sent, |old(comm.sent)|, comm.currentId, orders)
              && comm.sent == comm.sent[..|old(comm.sent)| + |orders|]
                              + Fanout(Signal(Stop, stopAt), comm.currentId, comm.totalIds, 0)
              && stopAt == clock.now
    ensures outcome == Finished ==>
              && |all| == comm.totalIds - 1 && |replies| == comm.totalIds - 1
              && FirstFromEach(collectFrom, comm.incoming, replies, comm.totalIds) && Histories(replies, all)
    ensures outcome == Failed ==>
              && replies != [] && FirstFromEach(collectFrom, comm.incoming, replies, |replies| + 1)
              && replies[|replies| - 1].header.msgType != BalanceHistory
              && Histories(replies[..|replies| - 1], all)
  {
    WorkersBelowCoordinator(comm.totalIds);
    stopAt, dones, collectFrom, replies := 0, [], comm.incoming, [];
    all := [];
    var stalled;
    stalled, started := comm.ReceiveFromWorkers(BLANK);
    mid := comm.incoming;
    if stalled {
      return Stalled, all, started, mid, stopAt, dones, collectFrom, replies;
    }
    outcome, all, stopAt, dones, collectFrom, replies := Coordinate(comm, clock, orders);
  }
}
