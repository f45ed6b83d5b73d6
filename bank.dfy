/** What the two banking programs share: an account's balance history, a
    fixed table with one entry per time unit from 0 to MAX_T, and the way an
    event is written into it. Between two events the table is filled with the
    unchanged state, one entry per time unit, so that every entry up to the
    last event carries its own time. The banking program on Lamport time also
    adds the amount being transferred to the "pending in" of the entries
    during which the money was on its way. */
module Bank {
  import opened Wire
  import opened Ipc
  import opened Messages

  /** How a process's run ended: `Failed` is the source's -1 return for a
      message it does not expect; `Stalled` means the source would wait
      forever for input that never comes; `Undefined` means the source would
      write outside the history table, or send to or wait on a process it
      has no pipe to (or, sending to itself, retry forever). */
  datatype Outcome = Finished | Failed | Stalled | Undefined

  /** The transfer order in a TRANSFER payload. A payload of another kind
      gives an order naming no process. */
  function OrderOf(p: Payload): TransferOrder
  {
    if p.Order? then p.order else TransferOrder(-1, -1, 0)
  }

  /** The history in a BALANCE_HISTORY payload; an empty one for a payload of
      another kind. */
  function HistoryOf(p: Payload): History
  {
    if p.Balances? then p.history else History(-1, 0, [])
  }

  /** Every order of `orders` went out, in order, to its source account,
      starting at position `base` of the log. */
  ghost predicate OrdersSent(sent: seq<Sent>, base: nat, self: int, orders: seq<TransferOrder>)
  {
    && base + |orders| <= |sent|
    && forall j :: 0 <= j < |orders| ==>
         && sent[base + j].slot == GetIndex(orders[j].src, self)
         && sent[base + j].message.header.msgType == Transfer
         && sent[base + j].message.payload == Order(orders[j])
  }

  /** `sent` is `before` followed by the orders of `orders`, in order, each
      to its source account. */
  ghost predicate OrdersLogged(before: seq<Sent>, sent: seq<Sent>, self: int, orders: seq<TransferOrder>)
  {
    && |sent| == |before| + |orders| && sent[..|before|] == before
    && OrdersSent(sent, |before|, self, orders)
  }

  lemma OrdersLoggedNone(before: seq<Sent>, self: int)
    ensures OrdersLogged(before, before, self, [])
  {
  }

  /** One more order logged after the ones of `orders[..j]`. */
  lemma OrdersLoggedSnoc(before: seq<Sent>, sent: seq<Sent>, m: Sent, self: int, orders: seq<TransferOrder>, j: nat,
                         time: int)
    requires j < |orders| && OrdersLogged(before, sent, self, orders[..j])
    requires m == Sent(GetIndex(orders[j].src, self), TransferMessage(orders[j], time))
    ensures OrdersLogged(before, sent + [m], self, orders[..j + 1])
  {
    var o := orders[..j + 1];
    var s' := sent + [m];
    var base := |before|;
    assert s'[..base] == sent[..base];
    forall i | 0 <= i < |o|
      ensures s'[base + i].slot == GetIndex(o[i].src, self) && s'[base + i].message.header.msgType == Transfer
              && s'[base + i].message.payload == Order(o[i])
    {
      if i < j {
        assert o[i] == orders[..j][i];
      } else {
        assert s'[base + i] == m;
      }
    }
    assert OrdersSent(s', base, self, o);
  }

  /** Logging more after the orders keeps them where they were. */
  lemma OrdersSentExtended(log: seq<Sent>, more: seq<Sent>, base: nat, self: int, orders: seq<TransferOrder>)
    requires OrdersSent(log, base, self, orders)
    ensures OrdersSent(log + more, base, self, orders)
  {
  }

  /** Where the coordinator's transfers leave its channels: `incoming` after
      the ACK waits, the ACKs `acks` taken (one per order acknowledged, in
      order), how the run ended, and whether the order it ended at went out
      with no ACK ever taken for it (`unanswered`). */
  datatype AckRun = AckRun(incoming: seq<seq<Frame>>, acks: seq<Message>, outcome: Outcome, unanswered: bool)

  /** `p` names a process other than the coordinator `self`. */
  predicate Peer(p: int, self: int, n: int)
  {
    0 <= p < n && p != self
  }

  /** One order of the coordinator's transfers. A source naming no peer
      ends the run `Undefined` before anything goes out. Otherwise the
      TRANSFER goes out and the coordinator waits on the destination: on
      its own id for ever, since a read from oneself always fails
      (`Stalled`, channels untouched); on an id past the table `Undefined`;
      on a peer, it takes every frame of that channel up to and including
      the first whole ACK, or drains it and is `Stalled` when it holds none. */
  function OrderWait(incoming: seq<seq<Frame>>, self: int, n: int, o: TransferOrder): (r: AckRun)
    requires 0 <= self < n && |incoming| == n - 1
    ensures |r.incoming| == |incoming|
    ensures |r.acks| <= 1 && (r.outcome == Finished <==> |r.acks| == 1)
    ensures r.outcome == Finished ==> r.acks[0].header.msgType == Ack && !r.unanswered
    ensures r.outcome == Finished || r.unanswered <==> Peer(o.src, self, n)
  {
    if !Peer(o.src, self, n) then AckRun(incoming, [], Undefined, false)
    else if o.dst == self then AckRun(incoming, [], Stalled, true)
    else if !Peer(o.dst, self, n) then AckRun(incoming, [], Undefined, true)
    else
      var k := GetIndex(o.dst, self);
      var i := FirstWanted(incoming[k], AckOnly);
      if i < 0 then AckRun(incoming[k := []], [], Stalled, true)
      else AckRun(incoming[k := incoming[k][i + 1..]], [incoming[k][i].message], Finished, false)
  }

  /** The coordinator's reads while it has `orders` carried out, from
      position `from` on: each order's wait in turn, up to the first that
      does not finish. */
  function AckWaits(incoming: seq<seq<Frame>>, self: int, n: int, orders: seq<TransferOrder>, from: nat): (r: AckRun)
    requires 0 <= self < n && |incoming| == n - 1 && from <= |orders|
    ensures |r.incoming| == |incoming|
    ensures |r.acks| <= |orders| - from && (r.outcome != Finished ==> |r.acks| < |orders| - from)
    ensures r.unanswered ==> r.outcome != Finished
    decreases |orders| - from
  {
    if from == |orders| then AckRun(incoming, [], Finished, false)
    else
      var s := OrderWait(incoming, self, n, orders[from]);
      if s.outcome != Finished then s
      else
        var rest := AckWaits(s.incoming, self, n, orders, from + 1);
        AckRun(rest.incoming, s.acks + rest.acks, rest.outcome, rest.unanswered)
  }

  /** A run takes at most one ACK per order, only ACKs, and one for every
      order exactly when it finishes. */
  lemma {:induction false} AckWaitsAcks(incoming: seq<seq<Frame>>, self: int, n: int, orders: seq<TransferOrder>, from: nat)
    requires 0 <= self < n && |incoming| == n - 1 && from <= |orders|
    ensures var r := AckWaits(incoming, self, n, orders, from);
            && |r.acks| <= |orders| - from
            && (r.outcome == Finished || r.outcome == Stalled || r.outcome == Undefined)
            && (r.outcome == Finished <==> |r.acks| == |orders| - from)
            && forall j :: 0 <= j < |r.acks| ==> r.acks[j].header.msgType == Ack
    decreases |orders| - from
  {
    if from < |orders| {
      var s := OrderWait(incoming, self, n, orders[from]);
      if s.outcome == Finished {
        AckWaitsAcks(s.incoming, self, n, orders, from + 1);
        var rest := AckWaits(s.incoming, self, n, orders, from + 1);
        assert forall j :: 1 <= j < |s.acks + rest.acks| ==> (s.acks + rest.acks)[j] == rest.acks[j - 1];
      }
    }
  }

  /** Part way through the orders: the first `j` took the ACKs `acks` and
      left the channels `incoming`, and the run `run` over all the orders is
      the one over the rest from there. */
  ghost predicate Midway(run: AckRun, incoming: seq<seq<Frame>>, self: int, n: int, orders: seq<TransferOrder>, j: int,
                         acks: seq<Message>)
  {
    && 0 <= self < n && |incoming| == n - 1 && 0 <= j <= |orders| && |acks| == j
    && var rest := AckWaits(incoming, self, n, orders, j);
    && rest.outcome == run.outcome && rest.incoming == run.incoming && run.acks == acks + rest.acks
    && rest.unanswered == run.unanswered
  }

  lemma MidwayStart(incoming: seq<seq<Frame>>, self: int, n: int, orders: seq<TransferOrder>)
    requires 0 <= self < n && |incoming| == n - 1
    ensures Midway(AckWaits(incoming, self, n, orders, 0), incoming, self, n, orders, 0, [])
  {
  }

  /** Order `j` acknowledged: the run goes on from the channels its wait
      left, with its ACK taken. */
  lemma MidwayStep(run: AckRun, incoming: seq<seq<Frame>>, self: int, n: int, orders: seq<TransferOrder>, j: int,
                   acks: seq<Message>)
    requires Midway(run, incoming, self, n, orders, j, acks) && j < |orders|
    requires OrderWait(incoming, self, n, orders[j]).outcome == Finished
    ensures var s := OrderWait(incoming, self, n, orders[j]);
            Midway(run, s.incoming, self, n, orders, j + 1, acks + s.acks)
  {
  }

  /** Where the run ends: after the last order, or at the first order
      whose wait does not finish, as that wait left things. */
  lemma MidwayEnds(run: AckRun, incoming: seq<seq<Frame>>, self: int, n: int, orders: seq<TransferOrder>, j: int,
                   acks: seq<Message>)
    requires Midway(run, incoming, self, n, orders, j, acks)
    ensures j == |orders| ==> run == AckRun(incoming, acks, Finished, false)
    ensures j < |orders| ==>
              var s := OrderWait(incoming, self, n, orders[j]);
              s.outcome != Finished ==> run == AckRun(s.incoming, acks, s.outcome, s.unanswered)
  {
    assert acks + [] == acks;
  }

  /** How many orders went out in a run: one per ACK taken, and the one
      whose ACK never came. */
  function OrdersOut(r: AckRun): nat
  {
    |r.acks| + if r.unanswered then 1 else 0
  }

  /** How many orders a run began: one per ACK taken, and the one it ended
      at, whether or not that one went out. */
  function OrdersBegun(r: AckRun): nat
  {
    |r.acks| + if r.outcome == Finished then 0 else 1
  }

  /** What the coordinator's transfers did, from the log `before` and the
      channels `orig`: the run ended as `AckWaits` says, the channels are
      where its ACK waits left them, and the log holds the orders that went
      out, each to its source account. */
  ghost predicate OrdersCarried(before: seq<Sent>, sent: seq<Sent>, orig: seq<seq<Frame>>, incoming: seq<seq<Frame>>,
                                self: int, n: int, orders: seq<TransferOrder>, outcome: Outcome)
    requires 0 <= self < n && |orig| == n - 1
  {
    var run := AckWaits(orig, self, n, orders, 0);
    && outcome == run.outcome && incoming == run.incoming
    && OrdersLogged(before, sent, self, orders[..OrdersOut(run)])
  }

  /** Part way through the transfers, `j` orders carried out. */
  ghost predicate Sending(before: seq<Sent>, sent: seq<Sent>, incoming: seq<seq<Frame>>, self: int, n: int,
                          orders: seq<TransferOrder>, j: int, acks: seq<Message>, run: AckRun)
  {
    Midway(run, incoming, self, n, orders, j, acks) && OrdersLogged(before, sent, self, orders[..j])
  }

  lemma SendingStart(before: seq<Sent>, orig: seq<seq<Frame>>, self: int, n: int, orders: seq<TransferOrder>)
    requires 0 <= self < n && |orig| == n - 1
    ensures Sending(before, before, orig, self, n, orders, 0, [], AckWaits(orig, self, n, orders, 0))
  {
    MidwayStart(orig, self, n, orders);
    OrdersLoggedNone(before, self);
  }

  /** Order `j` sent, stamped `time`, and acknowledged. */
  lemma SendingStep(before: seq<Sent>, sent: seq<Sent>, incoming: seq<seq<Frame>>, self: int, n: int,
                    orders: seq<TransferOrder>, j: int, acks: seq<Message>, run: AckRun, time: int)
    requires Sending(before, sent, incoming, self, n, orders, j, acks, run)
    requires j < |orders| && OrderWait(incoming, self, n, orders[j]).outcome == Finished
    ensures var s := OrderWait(incoming, self, n, orders[j]);
            var m := Sent(GetIndex(orders[j].src, self), TransferMessage(orders[j], time));
            Sending(before, sent + [m], s.incoming, self, n, orders, j + 1, acks + s.acks, run)
  {
    var m := Sent(GetIndex(orders[j].src, self), TransferMessage(orders[j], time));
    MidwayStep(run, incoming, self, n, orders, j, acks);
    OrdersLoggedSnoc(before, sent, m, self, orders, j, time);
  }

  /** The transfers end after the last order. */
  lemma SendingDone(before: seq<Sent>, sent: seq<Sent>, orig: seq<seq<Frame>>, incoming: seq<seq<Frame>>,
                    self: int, n: int, orders: seq<TransferOrder>, acks: seq<Message>)
    requires 0 <= self < n && |orig| == n - 1
    requires Sending(before, sent, incoming, self, n, orders, |orders|, acks, AckWaits(orig, self, n, orders, 0))
    ensures |before| <= |sent| && sent[..|before|] == before
    ensures OrdersCarried(before, sent, orig, incoming, self, n, orders, Finished)
    ensures OrdersSent(sent, |before|, self, orders) && AckWaits(orig, self, n, orders, 0).acks == acks
  {
    MidwayEnds(AckWaits(orig, self, n, orders, 0), incoming, self, n, orders, |orders|, acks);
    assert orders[..|orders|] == orders;
  }

  /** The transfers end at order `j`, whose wait does not finish; its
      TRANSFER, stamped `time`, is logged when its source is a peer. */
  lemma SendingEnds(before: seq<Sent>, sent: seq<Sent>, orig: seq<seq<Frame>>, incoming: seq<seq<Frame>>,
                    self: int, n: int, orders: seq<TransferOrder>, j: int, acks: seq<Message>, time: int)
    requires 0 <= self < n && |orig| == n - 1
    requires Sending(before, sent, incoming, self, n, orders, j, acks, AckWaits(orig, self, n, orders, 0))
    requires j < |orders| && OrderWait(incoming, self, n, orders[j]).outcome != Finished
    ensures var s := OrderWait(incoming, self, n, orders[j]);
            var m := Sent(GetIndex(orders[j].src, self), TransferMessage(orders[j], time));
            var sent' := if s.unanswered then sent + [m] else sent;
            && OrdersCarried(before, sent', orig, s.incoming, self, n, orders, s.outcome)
            && |before| <= |sent'| && sent'[..|before|] == before
    ensures var run := AckWaits(orig, self, n, orders, 0);
            run.acks == acks && run.unanswered == OrderWait(incoming, self, n, orders[j]).unanswered
  {
    MidwayEnds(AckWaits(orig, self, n, orders, 0), incoming, self, n, orders, j, acks);
    var m := Sent(GetIndex(orders[j].src, self), TransferMessage(orders[j], time));
    if OrderWait(incoming, self, n, orders[j]).unanswered {
      OrdersLoggedSnoc(before, sent, m, self, orders, j, time);
    }
  }

  /** The kinds of message an account's main loop handles; any other kind
      ends its run with -1. */
  predicate Served(t: MessageType)
  {
    t == Transfer || t == Stop || t == Done
  }

  /** Counting one more message taken: the STOP and DONE counts grow by its
      kind. */
  lemma CountsSnoc(seen: seq<Got>, g: Got)
    ensures |OfType(seen + [g], Stop)| == |OfType(seen, Stop)| + (if g.message.header.msgType == Stop then 1 else 0)
    ensures |OfType(seen + [g], Done)| == |OfType(seen, Done)| + (if g.message.header.msgType == Done then 1 else 0)
  {
    OfTypeAppend(seen, [g], Stop);
    OfTypeAppend(seen, [g], Done);
    assert [g][1..] == [];
  }

  /** The stamp of the first message of `out`; 0 when there is none. */
  function StampOf(out: seq<Sent>): int
  {
    if out == [] then 0 else out[0].message.header.localTime
  }

  /** What an account logs in answer to one message of its main loop,
      whatever the stamps: as the source of a TRANSFER the order, forwarded
      to the destination; as its destination an ACK to the coordinator; for
      a TRANSFER naming neither, nothing; for a STOP the DONE broadcast of
      `text`; for a DONE, or a message it does not serve, nothing. */
  ghost predicate Answers(m: Message, out: seq<Sent>, self: int, n: int, text: seq<char>)
    requires |text| <= MAX_PAYLOAD_LEN
  {
    var o := OrderOf(m.payload);
    var t := StampOf(out);
    if m.header.msgType == Transfer then
      if self == o.src then out == [Sent(GetIndex(o.dst, self), TransferMessage(o, t))]
      else if self == o.dst then out == [Sent(GetIndex(PARENT_ID, self), Signal(Ack, t))]
      else out == []
    else if m.header.msgType == Stop then out == Announcement(Done, t, text, self, n)
    else out == []
  }

  /** Whatever the message, a fanout is empty for the same processes, and
      otherwise starts with a write of that message. */
  lemma {:induction false} FanoutShape(m: Message, m': Message, self: int, n: int, i: int)
    ensures Fanout(m, self, n, i) == [] <==> Fanout(m', self, n, i) == []
    ensures Fanout(m, self, n, i) != [] ==> Fanout(m, self, n, i)[0].message == m
    decreases n - i
  {
    if i < n {
      FanoutShape(m, m', self, n, i + 1);
    }
  }

  /** The DONE broadcast is the one its own first write's stamp names. */
  lemma AnnouncementStamped(t: int, text: seq<char>, self: int, n: int)
    requires |text| <= MAX_PAYLOAD_LEN
    ensures var a := Announcement(Done, t, text, self, n);
            a == Announcement(Done, StampOf(a), text, self, n)
  {
    var a := Announcement(Done, t, text, self, n);
    if text != [] {
      FanoutShape(EventMessage(Done, t, text), EventMessage(Done, StampOf(a), text), self, n, 0);
    }
  }

  /** How much one message moves this account's balance: a TRANSFER takes
      the amount from its source and gives it to its destination (the
      source's branch wins when an order names the account twice); every
      other message moves nothing. */
  function NetEffect(m: Message, self: int): int
  {
    var o := OrderOf(m.payload);
    if m.header.msgType != Transfer then 0
    else if self == o.src then -o.amount
    else if self == o.dst then o.amount
    else 0
  }

  /** How much the messages of `seen`, taken in order, move the balance. */
  function Net(seen: seq<Got>, self: int): int
  {
    if seen == [] then 0 else Net(seen[..|seen| - 1], self) + NetEffect(seen[|seen| - 1].message, self)
  }

  lemma NetSnoc(seen: seq<Got>, g: Got, self: int)
    ensures Net(seen + [g], self) == Net(seen, self) + NetEffect(g.message, self)
  {
    assert (seen + [g])[..|seen|] == seen;
  }

  /** The logs of `outs`, one after the other. */
  function Concat(outs: seq<seq<Sent>>): seq<Sent>
  {
    if outs == [] then [] else Concat(outs[..|outs| - 1]) + outs[|outs| - 1]
  }

  /** `sent` is `base` followed by one answer for each message of `seen`,
      in order: `outs[i]` answers `seen[i]`, and nothing else was logged. */
  ghost predicate Answered(base: seq<Sent>, sent: seq<Sent>, seen: seq<Got>, outs: seq<seq<Sent>>, self: int, n: int,
                           text: seq<char>)
  {
    && |text| <= MAX_PAYLOAD_LEN && |outs| == |seen| && sent == base + Concat(outs)
    && forall i :: 0 <= i < |seen| ==> Answers(seen[i].message, outs[i], self, n, text)
  }

  lemma AnsweredNone(base: seq<Sent>, self: int, n: int, text: seq<char>)
    requires |text| <= MAX_PAYLOAD_LEN
    ensures Answered(base, base, [], [], self, n, text)
  {
  }

  /** One more message taken and answered. */
  lemma AnsweredSnoc(base: seq<Sent>, sent: seq<Sent>, seen: seq<Got>, outs: seq<seq<Sent>>, g: Got, out: seq<Sent>,
                     self: int, n: int, text: seq<char>)
    requires Answered(base, sent, seen, outs, self, n, text) && Answers(g.message, out, self, n, text)
    ensures Answered(base, sent + out, seen + [g], outs + [out], self, n, text)
  {
    assert (outs + [out])[..|outs|] == outs;
  }

  /** How an account process's main loop and its last step ended, as the
      log and the history show it. Normally (`Finished`) the log after
      `base` is one answer per message taken followed by the history,
      stamped `stamp`, whose last entry holds `balance` moved by the
      transfers carried out; it has been told to stop, has heard at least
      N-2 DONEs, and took nothing it does not serve. On -1 (`Failed`) the
      log is the answers, and the last message taken is the first one it
      does not serve. */
  ghost predicate Ended(outcome: Outcome, base: seq<Sent>, sent: seq<Sent>, seen: seq<Got>, outs: seq<seq<Sent>>,
                        h: History, stamp: int, balance: int, self: int, n: int, text: seq<char>)
  {
    && (outcome == Finished || outcome == Failed ==>
          var log := if outcome == Finished && sent != [] then sent[..|sent| - 1] else sent;
          Answered(base, log, seen, outs, self, n, text))
    && (outcome == Finished ==>
          && sent != [] && sent[|sent| - 1] == Sent(GetIndex(PARENT_ID, self), HistoryMessage(h, stamp))
          && h.id == self && |h.states| == MAX_T + 1 && Timeline(h.states, h.len) && 0 < h.len <= |h.states|
          && h.states[h.len - 1].balance == balance + Net(seen, self)
          && |OfType(seen, Stop)| >= 1 && |OfType(seen, Done)| >= n - 2
          && forall g :: g in seen ==> Served(g.message.header.msgType))
    && (outcome == Failed ==>
          && seen != [] && !Served(seen[|seen| - 1].message.header.msgType)
          && forall g :: g in seen[..|seen| - 1] ==> Served(g.message.header.msgType))
  }

  /** A proof helper that models nothing of its own: `Ended` at a log start
      written differently. It lets a caller restate `Ended` without the
      verifier unfolding it. */
  lemma EndedMoved(outcome: Outcome, base: seq<Sent>, base': seq<Sent>, sent: seq<Sent>, seen: seq<Got>,
                   outs: seq<seq<Sent>>, h: History, stamp: int, balance: int, self: int, n: int, text: seq<char>)
    requires Ended(outcome, base, sent, seen, outs, h, stamp, balance, self, n, text) && base == base'
    ensures Ended(outcome, base', sent, seen, outs, h, stamp, balance, self, n, text)
  {
  }

  /** In the coordinator's table slot k holds the channel from worker k+1.
      Each worker from 1 to |msgs| gave its entry of `msgs` as its first whole
      message and its channel now starts just after it; the channels of
      the workers from `upTo` on are untouched. */
  ghost predicate FirstFromEach(orig: seq<seq<Frame>>, cur: seq<seq<Frame>>, msgs: seq<Message>, upTo: int)
  {
    && |cur| == |orig| && |msgs| <= |orig| && |msgs| < upTo
    && (forall k :: 0 <= k < |msgs| ==> TookFirst(orig[k], cur[k], msgs[k]))
    && (forall k :: upTo - 1 <= k < |orig| ==> cur[k] == orig[k])
  }

  /** Every message of `msgs` is a BALANCE_HISTORY and `all` holds their
      histories in the same order. */
  ghost predicate Histories(msgs: seq<Message>, all: seq<History>)
  {
    && |all| == |msgs|
    && forall j :: 0 <= j < |msgs| ==>
         msgs[j].header.msgType == BalanceHistory && all[j] == HistoryOf(msgs[j].payload)
  }

  lemma FirstFromEachStep(orig: seq<seq<Frame>>, pre: seq<seq<Frame>>, cur: seq<seq<Frame>>, msgs: seq<Message>,
                          msg: Message, i: int)
    requires FirstFromEach(orig, pre, msgs, i) && |msgs| == i - 1 && i <= |orig|
    requires |cur| == |pre| && TookFirst(pre[i - 1], cur[i - 1], msg) && cur == pre[i - 1 := cur[i - 1]]
    ensures FirstFromEach(orig, cur, msgs + [msg], i + 1)
  {
    forall k | 0 <= k < |msgs| + 1 ensures TookFirst(orig[k], cur[k], (msgs + [msg])[k]) {
      if k == i - 1 {
        assert pre[i - 1] == orig[i - 1];
      }
    }
  }

  lemma FirstFromEachStall(orig: seq<seq<Frame>>, pre: seq<seq<Frame>>, cur: seq<seq<Frame>>, msgs: seq<Message>,
                           i: int)
    requires FirstFromEach(orig, pre, msgs, i) && |msgs| == i - 1 && i <= |orig|
    requires cur == pre[i - 1 := []]
    ensures FirstFromEach(orig, cur, msgs, i + 1)
  {
  }

  /** One round of CollectHistories: the first whole message from worker
      `i`, or its channel drained when there is none. */
  method TakeReply(comm: Pipes, i: int, buffer: Message, ghost orig: seq<seq<Frame>>, ghost msgs: seq<Message>)
    returns (stalled: bool, msg: Message)
    requires comm.Valid() && comm.currentId == PARENT_ID && 1 <= i < comm.totalIds && |msgs| == i - 1
    requires |orig| == comm.totalIds - 1 && FirstFromEach(orig, comm.incoming, msgs, i)
    modifies comm
    ensures comm.Valid() && comm.sent == old(comm.sent) && comm.writeFailures == old(comm.writeFailures)
    ensures stalled ==>
              && FirstFromEach(orig, comm.incoming, msgs, i + 1)
              && FirstWanted(orig[i - 1], AnyMessage) < 0 && comm.incoming[i - 1] == []
    ensures !stalled ==> FirstFromEach(orig, comm.incoming, msgs + [msg], i + 1)
  {
    ghost var pre := comm.incoming;
    assert pre[i - 1] == orig[i - 1];
    stalled, msg := comm.AwaitFrom(i, AnyMessage, buffer);
    if stalled {
      FirstFromEachStall(orig, pre, comm.incoming, msgs, i);
    } else {
      FirstFromEachStep(orig, pre, comm.incoming, msgs, msg, i);
    }
  }

  /** The coordinator's last step: a BALANCE_HISTORY from every worker in
      turn, lowest id first, each its first whole message; any other message
      ends the run with -1 after the histories of the workers before it. */
  method CollectHistories(comm: Pipes) returns (outcome: Outcome, all: seq<History>, ghost msgs: seq<Message>)
    requires comm.Valid() && comm.currentId == PARENT_ID
    modifies comm
    ensures comm.Valid() && comm.sent == old(comm.sent) && comm.writeFailures == old(comm.writeFailures)
    ensures outcome == Finished || outcome == Stalled || outcome == Failed
    ensures outcome == Finished ==>
              && |msgs| == comm.totalIds - 1
              && FirstFromEach(old(comm.incoming), comm.incoming, msgs, comm.totalIds)
              && Histories(msgs, all)
    ensures outcome == Failed ==>
              && msgs != [] && FirstFromEach(old(comm.incoming), comm.incoming, msgs, |msgs| + 1)
              && msgs[|msgs| - 1].header.msgType != BalanceHistory
              && Histories(msgs[..|msgs| - 1], all)
    ensures outcome == Stalled ==>
              && |msgs| < comm.totalIds - 1
              && FirstFromEach(old(comm.incoming), comm.incoming, msgs, |msgs| + 2)
              && FirstWanted(old(comm.incoming)[|msgs|], AnyMessage) < 0 && comm.incoming[|msgs|] == []
              && Histories(msgs, all)
  {
    all, msgs := [], [];
    var i := 1;
    var msg := BLANK;
    while i < comm.totalIds
      invariant 1 <= i <= comm.totalIds && |msgs| == i - 1
      invariant comm.Valid() && comm.sent == old(comm.sent) && comm.writeFailures == old(comm.writeFailures)
      invariant FirstFromEach(old(comm.incoming), comm.incoming, msgs, i) && Histories(msgs, all)
    {
      var stalled;
      stalled, msg := TakeReply(comm, i, msg, old(comm.incoming), msgs);
      if stalled {
        return Stalled, all, msgs;
      }
      if msg.header.msgType != BalanceHistory {
        assert (msgs + [msg])[..|msgs|] == msgs;
        return Failed, all, msgs + [msg];
      }
      msgs := msgs + [msg];
      all := all + [HistoryOf(msg.payload)];
      i := i + 1;
    }
    return Finished, all, msgs;
  }

  /** Every entry below `upTo` carries its own time. */
  ghost predicate Timeline(h: seq<BalanceState>, upTo: int)
  {
    forall i :: 0 <= i < upTo && i < |h| ==> h[i].time == i
  }

  /** The gap between the previous event `prev` and this one `curr` filled
      with the state as it was. */
  function Filled(h: seq<BalanceState>, s: BalanceState, prev: int, curr: int): (r: seq<BalanceState>)
    ensures |r| == |h|
  {
    seq(|h|, i requires 0 <= i < |h| => if prev <= i < curr then s.(time := i) else h[i])
  }

  /** `amount` counted as pending in at every time from `from` up to `curr`. */
  function WithPending(h: seq<BalanceState>, from: int, curr: int, amount: int): (r: seq<BalanceState>)
    ensures |r| == |h|
  {
    seq(|h|, i requires 0 <= i < |h| =>
      if from <= i < curr then h[i].(pendingIn := h[i].pendingIn + amount) else h[i])
  }

  /** The table after an event at time `curr` that changes the balance by
      `amount`: the gap since `prev` filled, the amount (when `pending` and it
      is an income) counted as pending since `from`, and the new state at
      `curr`. */
  function Recorded(h: seq<BalanceState>, s: BalanceState, prev: int, curr: int, from: int, amount: int,
                    pending: bool): (r: seq<BalanceState>)
    requires 0 <= curr < |h|
    ensures |r| == |h|
  {
    var f := Filled(h, s, prev, curr);
    var p := if pending && amount > 0 then WithPending(f, from, curr, amount) else f;
    p[curr := BalanceState(s.balance + amount, curr, s.pendingIn)]
  }

  /** An account's books: the balance kept in the communication record, the
      current state, the time and table length of the last event, and the
      table itself. */
  datatype Books = Books(balance: int, state: BalanceState, prevTime: int, historyLen: int,
                         history: seq<BalanceState>)

  /** The books after an event at time `t` that changes the balance of the
      state by `amount`: the event is written into the table as `Recorded`
      says and becomes the current state. The communication record's balance
      is not part of an event. */
  function Event(a: Books, t: int, from: int, amount: int, pending: bool): (b: Books)
    requires 0 <= t < |a.history|
    ensures |b.history| == |a.history| && b.prevTime == t && b.historyLen == t + 1
    ensures b.history[t] == b.state && b.state.time == t && b.balance == a.balance
  {
    Books(a.balance, BalanceState(a.state.balance + amount, t, a.state.pendingIn), t, t + 1,
          Recorded(a.history, a.state, a.prevTime, t, from, amount, pending))
  }

  /** Recording an event keeps the table a timeline, now up to and including
      the event. */
  lemma RecordedTimeline(h: seq<BalanceState>, s: BalanceState, prev: int, curr: int, from: int, amount: int,
                         pending: bool)
    requires Timeline(h, prev) && 0 <= curr < |h|
    ensures Timeline(Recorded(h, s, prev, curr, from, amount, pending), curr + 1)
  {
    var r := Recorded(h, s, prev, curr, from, amount, pending);
    var f := Filled(h, s, prev, curr);
    forall i | 0 <= i < curr + 1 && i < |r| ensures r[i].time == i {
      if i < curr {
        assert f[i].time == i;
      }
    }
  }

  /** What recording an event does to each entry: entries of the gap hold the
      old balance at their own time, the event's entry holds the new
      balance, the old entries keep their balance and time, and pending in
      grows by the amount exactly on the entries from `from` to the event. */
  lemma RecordedEntries(h: seq<BalanceState>, s: BalanceState, prev: int, curr: int, from: int, amount: int,
                        pending: bool)
    requires 0 <= curr < |h|
    ensures var r := Recorded(h, s, prev, curr, from, amount, pending);
      && |r| == |h|
      && r[curr] == BalanceState(s.balance + amount, curr, s.pendingIn)
      && (forall i :: 0 <= i && prev <= i < curr ==> r[i].balance == s.balance && r[i].time == i)
      && (forall i :: 0 <= i < |h| && i != curr && !(prev <= i < curr) ==>
            r[i].balance == h[i].balance && r[i].time == h[i].time)
      && (forall i :: 0 <= i < |h| && i != curr ==>
            r[i].pendingIn == (if prev <= i < curr then s.pendingIn else h[i].pendingIn)
                              + (if pending && amount > 0 && from <= i < curr then amount else 0))
  {
    var r := Recorded(h, s, prev, curr, from, amount, pending);
    var f := Filled(h, s, prev, curr);
    forall i | 0 <= i < |h| && i != curr
      ensures r[i].pendingIn == (if prev <= i < curr then s.pendingIn else h[i].pendingIn)
                                + (if pending && amount > 0 && from <= i < curr then amount else 0)
    {
      assert f[i].pendingIn == (if prev <= i < curr then s.pendingIn else h[i].pendingIn);
    }
  }

  /** The balance history of one account and the state it is kept from. */
  class Account {
    const id: int
    /** The balance as kept in the process's communication record. */
    var balance: int
    var state: BalanceState
    const history: array<BalanceState>
    var historyLen: int
    /** Time of the last event written (kept across calls in the source). */
    var prevTime: nat

    ghost predicate Valid()
      reads this, history
    {
      && history.Length == MAX_T + 1
      && prevTime <= MAX_T && state.time == prevTime
      && Timeline(history[..], prevTime)
    }

    /** A fresh history for process `id` with opening `balance`. */
    constructor (id: int, balance: int)
      ensures Valid() && fresh(history)
      ensures this.id == id && this.balance == balance
      ensures state == BalanceState(balance, 0, 0) && prevTime == 0 && historyLen == 0
    {
      this.id := id;
      this.balance := balance;
      state := BalanceState(balance, 0, 0);
      history := new BalanceState[MAX_T + 1](_ => BalanceState(0, 0, 0));
      historyLen := 0;
      prevTime := 0;
    }

    /** The books of this account. */
    function View(): Books
      reads this, history
    {
      Books(balance, state, prevTime, historyLen, history[..])
    }

    /** The BALANCE_HISTORY record of this account. */
    function Snapshot(): (h: History)
      reads this, history
      ensures h.id == id && h.len == historyLen && h.states == history[..]
    {
      History(id, historyLen, history[..])
    }

    /** Writes an event at time `curr` that changes the balance by `amount`:
        fills the gap since the previous event, for an income (when
        `pending`) counts it as pending since `from`, and stores the new
        state at `curr`. */
    method Record(amount: int, curr: int, from: int, pending: bool)
      requires Valid() && 0 <= curr <= MAX_T
      requires pending && amount > 0 && from < curr ==> 0 <= from
      modifies this, history
      ensures Valid() && prevTime == curr && historyLen == curr + 1 && balance == old(balance)
      ensures state == BalanceState(old(state).balance + amount, curr, old(state).pendingIn)
      ensures history[..] == Recorded(old(history[..]), old(state), old(prevTime), curr, from, amount, pending)
      ensures history[curr] == state
      ensures View() == Event(old(View()), curr, from, amount, pending)
    {
      ghost var h0 := history[..];
      ghost var s0 := state;
      ghost var prev := prevTime;
      historyLen := curr + 1;
      var i := prevTime;
      assert Filled(h0, s0, prev, i) == h0;
      while i < curr
        invariant prev <= i && (i <= curr || i == prev)
        invariant state.balance == s0.balance && state.pendingIn == s0.pendingIn
        invariant historyLen == curr + 1 && balance == old(balance) && prevTime == prev
        invariant history[..] == Filled(h0, s0, prev, i)
      {
        state := state.(time := i);
        history[i] := state;
        assert history[..] == Filled(h0, s0, prev, i + 1);
        i := i + 1;
      }
      ghost var f := history[..];
      assert f == Filled(h0, s0, prev, curr);
      if pending && amount > 0 {
        var j := from;
        assert WithPending(f, from, j, amount) == f;
        while j < curr
          invariant from <= j && (j <= curr || j == from)
          invariant history[..] == WithPending(f, from, j, amount)
          invariant state.balance == s0.balance && state.pendingIn == s0.pendingIn
          invariant historyLen == curr + 1 && balance == old(balance) && prevTime == prev
        {
          history[j] := history[j].(pendingIn := history[j].pendingIn + amount);
          assert history[..] == WithPending(f, from, j + 1, amount);
          j := j + 1;
        }
        assert history[..] == WithPending(f, from, curr, amount);
      }
      prevTime := curr;
      state := BalanceState(state.balance + amount, curr, state.pendingIn);
      history[curr] := state;
      RecordedTimeline(h0, s0, prev, curr, from, amount, pending);
    }
  }
}
