/** The critical-section program: Lamport's mutual exclusion over the pipe
    mesh. Every worker keeps a queue of pending requests ordered by
    (timestamp, id); it enters after a reply from every other worker and once
    its own request heads the queue, and leaves by telling everyone. The
    process's clock advances on every send and is raised to the stamp of
    every message it takes in. */
module Mutex {
  import opened Wire
  import opened Ipc
  import opened LamportTime
  import opened Messages

  /** How a protocol step ended (`Handled`: one message taken in and
      reacted to). The last two stand for runs the source
      would not survive: `Stalled` when it would wait forever for input that
      never comes, `DuplicateRequest` when a request already queued arrives
      again, which the queue's insertion cannot handle. */
  datatype Outcome = Entered | Finished | Handled | Stalled | DuplicateRequest

  /** The queue entry a request stands for: the sender queued its own request
      at the clock value before the send advanced it. */
  function RequestEntry(m: Message, from: int): Entry
  {
    Entry(m.header.localTime - 1, from)
  }

  /** The stamp of a request sent when the clock read `t`, taken back off the
      received message, is the key the sender queued it under: every worker
      files the request under the same entry. */
  lemma RequestKeysAgree(t: nat, self: int, n: int)
    requires 0 <= self < n
    ensures var f := Fanout(Signal(CsRequest, t + 1), self, n, 0);
            forall j :: 0 <= j < |f| ==> RequestEntry(f[j].message, self) == Entry(t, self)
  {
    FanoutCoversSlots(Signal(CsRequest, t + 1), self, n, 0);
  }

  /** The value `lamport_queue_get` takes off the queue: the head's value,
      or -1 when the queue is empty or the head's value is negative, in which
      case nothing is taken off. */
  function HeadValue(q: seq<Entry>): int
  {
    if q == [] || q[0].value < 0 then -1 else q[0].value
  }

  /** `log` is `before` followed by CS_REPLY writes only. */
  ghost predicate RepliesSince(log: seq<Sent>, before: seq<Sent>)
  {
    && |before| <= |log| && log[..|before|] == before
    && forall k :: |before| <= k < |log| ==> log[k].message.header.msgType == CsReply
  }

  lemma RepliesSinceTrans(a: seq<Sent>, b: seq<Sent>, c: seq<Sent>)
    requires RepliesSince(b, a) && RepliesSince(c, b)
    ensures RepliesSince(c, a)
  {
    assert c[..|a|] == c[..|b|][..|a|];
  }

  /** A log that starts with `a + b` starts with `a`. */
  lemma RepliesSinceDrop(c: seq<Sent>, a: seq<Sent>, b: seq<Sent>)
    requires RepliesSince(c, a + b)
    ensures |a| <= |c| && c[..|a|] == a
  {
    assert c[..|a|] == (a + b)[..|a|];
  }

  /** The part of a worker's state the protocol changes: its queue, its
      clock, the DONE messages it still awaits, its log of writes and the
      writes the OS will still refuse. */
  datatype CsState = CsState(queue: seq<Entry>, time: int, doneLeft: nat, sent: seq<Sent>, writeFailures: nat)

  /** What reacting to message `m` from process `from` does to the state of
      process `self`: a request is queued under the key its sender filed it
      under and answered with a CS_REPLY stamped with the advanced clock; a
      release takes the head off the queue; a DONE counts down, wrapping as
      a size_t does; any other message changes nothing. The clock never goes
      back and the log only grows, by replies. */
  function Work(s: CsState, m: Message, from: int, self: int): (s': CsState)
    requires s.doneLeft <= SIZE_MAX
    ensures s'.time >= s.time && RepliesSince(s'.sent, s.sent)
    ensures s'.doneLeft + (if m.header.msgType == Done then 1 else 0) >= s.doneLeft
  {
    match m.header.msgType
    case CsRequest =>
      s.(queue := InsertSorted(s.queue, RequestEntry(m, from)), time := s.time + 1,
         sent := s.sent + [Sent(GetIndex(from, self), Signal(CsReply, s.time + 1))], writeFailures := 0)
    case CsRelease =>
      s.(queue := if HeadValue(s.queue) < 0 then s.queue else s.queue[1..])
    case Done =>
      s.(doneLeft := DecrementSize(s.doneLeft))
    case _ => s
  }

  /** One pass through the critical section. */
  datatype Pass = Pass(log: seq<Sent>, asked: int, left: int, held: seq<Entry>)

  /** A pass as the worker's log and queue show it: the CS_REQUEST to
      everyone stamped `asked`, then replies only, then the CS_RELEASE to
      everyone stamped `left`, which is later; on entering, the worker's own
      id headed its queue `held`. */
  ghost predicate RoundLog(p: Pass, self: int, n: int)
  {
    var req := Fanout(Signal(CsRequest, p.asked), self, n, 0);
    var rel := Fanout(Signal(CsRelease, p.left), self, n, 0);
    && p.held != [] && p.held[0].value == self && p.asked < p.left
    && |req| + |rel| <= |p.log| && p.log[..|req|] == req && p.log[|p.log| - |rel|..] == rel
    && forall k :: |req| <= k < |p.log| - |rel| ==> p.log[k].message.header.msgType == CsReply
  }

  /** The logs of `ps`, one after the other. */
  function Logs(ps: seq<Pass>): seq<Sent>
  {
    if ps == [] then [] else Logs(ps[..|ps| - 1]) + ps[|ps| - 1].log
  }

  /** The log after `base` is the passes `passes`, one after the other,
      each one asking for the lock after the previous one gave it up, the
      last one by clock value `t`. */
  ghost predicate PassesLogged(base: seq<Sent>, sent: seq<Sent>, passes: seq<Pass>, self: int, n: int, t: int)
  {
    && sent == base + Logs(passes)
    && (forall j :: 0 <= j < |passes| ==> RoundLog(passes[j], self, n))
    && (forall j :: 0 <= j < |passes| - 1 ==> passes[j].left < passes[j + 1].asked)
    && (passes != [] ==> passes[|passes| - 1].left <= t)
  }

  lemma PassesLoggedGrow(base: seq<Sent>, sent: seq<Sent>, passes: seq<Pass>, p: Pass, self: int, n: int, t: int)
    requires PassesLogged(base, sent, passes, self, n, t) && RoundLog(p, self, n) && p.asked == t + 1
    ensures PassesLogged(base, sent + p.log, passes + [p], self, n, p.left)
  {
    assert (passes + [p])[..|passes|] == passes;
  }

  /** A log that went, after `before`, through the request stamped `asked`,
      replies and then the release stamped `left` holds one pass. */
  lemma RoundShape(before: seq<Sent>, mid: seq<Sent>, final: seq<Sent>, self: int, n: int, asked: int, left: int,
                   held: seq<Entry>)
    requires RepliesSince(mid, before + Fanout(Signal(CsRequest, asked), self, n, 0))
    requires final == mid + Fanout(Signal(CsRelease, left), self, n, 0)
    requires held != [] && held[0].value == self && asked < left
    ensures |before| <= |final| && final == before + final[|before|..]
    ensures RoundLog(Pass(final[|before|..], asked, left, held), self, n)
  {
    var req := Fanout(Signal(CsRequest, asked), self, n, 0);
    var rel := Fanout(Signal(CsRelease, left), self, n, 0);
    var log := final[|before|..];
    assert mid[..|before|] == (before + req)[..|before|] == before;
    assert final == before + log;
    assert log[..|req|] == mid[|before|..|before| + |req|] == (before + req)[|before|..];
    assert log[|log| - |rel|..] == rel;
    forall k | |req| <= k < |log| - |rel| ensures log[k].message.header.msgType == CsReply {
      assert log[k] == mid[|before| + k];
    }
  }

  class CS {
    const comm: Pipes
    const queue: Queue
    const clock: Clock
    /** DONE messages still awaited. */
    var doneLeft: nat

    ghost predicate Valid()
      reads this, comm, queue, clock
    {
      ValidBelow(clock.time)
    }

    /** The parts are consistent and the process's own requests are all
        stamped before `t`; below the current clock value, the next request it
        files cannot already be in the queue. */
    ghost predicate ValidBelow(t: int)
      reads this, comm, queue, clock
    {
      && comm.Valid() && queue.Valid() && doneLeft <= SIZE_MAX
      && forall e :: e in queue.entries && e.value == comm.currentId ==> e.key < t
    }

    constructor (comm: Pipes, queue: Queue, clock: Clock, doneLeft: nat)
      requires comm.Valid() && queue.Valid() && queue.entries == [] && doneLeft <= SIZE_MAX
      ensures Valid()
      ensures this.comm == comm && this.queue == queue && this.clock == clock
      ensures this.doneLeft == doneLeft
    {
      this.comm := comm;
      this.queue := queue;
      this.clock := clock;
      this.doneLeft := doneLeft;
    }

    /** CS_REQUEST to everyone, stamped with the advanced clock. */
    method SendAllRequest()
      requires ValidBelow(clock.time + 1)
      modifies comm, clock
      ensures Valid()
      ensures clock.time == old(clock.time) + 1
      ensures comm.incoming == old(comm.incoming) && comm.lastMsgFrom == old(comm.lastMsgFrom)
      ensures comm.sent == old(comm.sent) + Fanout(Signal(CsRequest, clock.time), comm.currentId, comm.totalIds, 0)
      ensures comm.writeFailures == if comm.totalIds >= 2 then 0 else old(comm.writeFailures)
    {
      var t := clock.Increment();
      var _ := comm.SendMulticast(Signal(CsRequest, t));
    }

    /** CS_RELEASE to everyone, stamped with the advanced clock. */
    method SendAllRelease()
      requires Valid()
      modifies comm, clock
      ensures Valid()
      ensures clock.time == old(clock.time) + 1
      ensures comm.incoming == old(comm.incoming) && comm.lastMsgFrom == old(comm.lastMsgFrom)
      ensures comm.sent == old(comm.sent) + Fanout(Signal(CsRelease, clock.time), comm.currentId, comm.totalIds, 0)
      ensures comm.writeFailures == if comm.totalIds >= 2 then 0 else old(comm.writeFailures)
    {
      var t := clock.Increment();
      var _ := comm.SendMulticast(Signal(CsRelease, t));
    }

    /** CS_REPLY to `dst`, stamped with the advanced clock, retried until the
        write goes through. */
    method SendReply(dst: int)
      requires Valid() && comm.IsPeer(dst)
      modifies comm, clock
      ensures Valid()
      ensures clock.time == old(clock.time) + 1
      ensures comm.incoming == old(comm.incoming) && comm.lastMsgFrom == old(comm.lastMsgFrom)
      ensures comm.sent == old(comm.sent) + [Sent(GetIndex(dst, comm.currentId), Signal(CsReply, clock.time))]
      ensures comm.writeFailures == 0
    {
      var t := clock.Increment();
      comm.SendUntilWritten(dst, Signal(CsReply, t));
    }

    /** STARTED or DONE to everyone. The clock advances before the type is
        looked at, so it advances on the error paths too. */
    method SendAllProcEvent(t: MessageType, text: seq<char>) returns (r: int)
      requires Valid() && |text| < MAX_PAYLOAD_LEN
      modifies comm, clock
      ensures Valid()
      ensures clock.time == old(clock.time) + 1
      ensures comm.incoming == old(comm.incoming) && comm.lastMsgFrom == old(comm.lastMsgFrom)
      ensures t != Started && t != Done ==>
                r == -1 && comm.sent == old(comm.sent) && comm.writeFailures == old(comm.writeFailures)
      ensures (t == Started || t == Done) && text == [] ==>
                r == -2 && comm.sent == old(comm.sent) && comm.writeFailures == old(comm.writeFailures)
      ensures (t == Started || t == Done) && text != [] ==>
                && r == 0
                && comm.sent == old(comm.sent) + Fanout(EventMessage(t, clock.time, text), comm.currentId, comm.totalIds, 0)
                && comm.writeFailures == if comm.totalIds >= 2 then 0 else old(comm.writeFailures)
    {
      var time := clock.Increment();
      r := Messages.SendAllProcEvent(comm, t, time, text);
    }

    /** The part of the state the protocol changes. */
    ghost function View(): CsState
      reads this, comm, queue, clock
    {
      CsState(queue.entries, clock.time, doneLeft, comm.sent, comm.writeFailures)
    }

    /** Reacts to one message from `comm.lastMsgFrom`: a request is queued
        and answered, a release takes the head of the queue off (and is an
        error unless the head was the sender's), a DONE counts down. */
    method CsWork(msg: Message) returns (r: int)
      requires Valid()
      requires msg.header.msgType == CsRequest ==>
                 comm.IsPeer(comm.lastMsgFrom) && RequestEntry(msg, comm.lastMsgFrom) !in queue.entries
      modifies this, comm, queue, clock
      ensures Valid()
      ensures comm.incoming == old(comm.incoming) && comm.lastMsgFrom == old(comm.lastMsgFrom)
      ensures View() == Work(old(View()), msg, comm.lastMsgFrom, comm.currentId)
      ensures r == if msg.header.msgType == CsRelease && HeadValue(old(queue.entries)) != comm.lastMsgFrom then -1 else 0
    {
      r := 0;
      if msg.header.msgType == CsRequest {
        InsertSortedMembers(queue.entries, RequestEntry(msg, comm.lastMsgFrom));
        queue.Insert(msg.header.localTime - 1, comm.lastMsgFrom);
        SendReply(comm.lastMsgFrom);
      } else if msg.header.msgType == CsRelease {
        var got := queue.Get();
        if got != comm.lastMsgFrom {
          r := -1;
        }
      } else if msg.header.msgType == Done {
        doneLeft := DecrementSize(doneLeft);
      }
    }

    /** Takes in the next message from anyone, moves the clock up to its stamp
        and reacts to it. `got` is what was taken in. */
    method Step(buffer: Message) returns (outcome: Outcome, msg: Message, ghost got: seq<Got>)
      requires Valid()
      modifies this, comm, queue, clock
      ensures Valid()
      ensures outcome == Handled || outcome == Stalled || outcome == DuplicateRequest
      ensures Took(old(comm.incoming), comm.incoming, comm.currentId, comm.totalIds, got)
      ensures outcome == Stalled ==> got == [] && TotalFrames(comm.incoming) == 0 && View() == old(View())
      ensures outcome != Stalled ==>
                && got == [Got(comm.lastMsgFrom, msg)] && comm.IsPeer(comm.lastMsgFrom)
                && LastTaken(comm.incoming, old(comm.incoming), GetIndex(comm.lastMsgFrom, comm.currentId), msg)
                && TotalFrames(comm.incoming) < TotalFrames(old(comm.incoming))
      ensures outcome == Handled ==>
                View() == Work(old(View()).(time := Max(old(clock.time), msg.header.localTime)),
                               msg, comm.lastMsgFrom, comm.currentId)
      ensures outcome == DuplicateRequest ==>
                && msg.header.msgType == CsRequest && RequestEntry(msg, comm.lastMsgFrom) in queue.entries
                && View() == old(View()).(time := Max(old(clock.time), msg.header.localTime))
    {
      var stalled;
      stalled, msg := comm.AwaitAny(buffer);
      if stalled {
        return Stalled, msg, [];
      }
      got := [Got(comm.lastMsgFrom, msg)];
      var _ := clock.SetFromMsg(msg);
      if msg.header.msgType == CsRequest && RequestEntry(msg, comm.lastMsgFrom) in queue.entries {
        return DuplicateRequest, msg, got;
      }
      var _ := CsWork(msg);
      outcome := Handled;
    }

    /** What a step keeps, in the terms the protocol's loops count in: the
        clock never goes back, the log grows by replies only, and a DONE
        taken in accounts for every decrement of `doneLeft`. */
    lemma StepBounds(s: CsState, s': CsState, outcome: Outcome, msg: Message, from: int, got: seq<Got>)
      requires s.doneLeft <= SIZE_MAX
      requires outcome == Handled || outcome == Stalled || outcome == DuplicateRequest
      requires outcome == Stalled ==> got == [] && s' == s
      requires outcome != Stalled ==> got == [Got(from, msg)]
      requires outcome == Handled ==> s' == Work(s.(time := Max(s.time, msg.header.localTime)), msg, from, comm.currentId)
      requires outcome == DuplicateRequest ==> s' == s.(time := Max(s.time, msg.header.localTime))
      ensures s'.time >= s.time && RepliesSince(s'.sent, s.sent)
      ensures s'.doneLeft + |OfType(got, Done)| >= s.doneLeft
      ensures |OfType(got, CsReply)| == if outcome != Stalled && msg.header.msgType == CsReply then 1 else 0
    {
      assert s.sent[..|s.sent|] == s.sent;
      if outcome != Stalled {
        assert OfType(got, Done) == (if msg.header.msgType == Done then [msg] else []) + OfType([], Done);
        assert OfType(got, CsReply) == (if msg.header.msgType == CsReply then [msg] else []) + OfType([], CsReply);
      }
    }

    /** A step in the terms the protocol's loops count in: what was taken
        in, the clock never going back, the log growing by replies only, a
        DONE for every decrement of `doneLeft`, and whether a CS_REPLY was
        taken. */
    method StepCounted(buffer: Message) returns (outcome: Outcome, msg: Message, ghost got: seq<Got>)
      requires Valid()
      modifies this, comm, queue, clock
      ensures Valid()
      ensures outcome == Handled || outcome == Stalled || outcome == DuplicateRequest
      ensures Took(old(comm.incoming), comm.incoming, comm.currentId, comm.totalIds, got)
      ensures clock.time >= old(clock.time) && RepliesSince(comm.sent, old(comm.sent))
      ensures doneLeft + |OfType(got, Done)| >= old(doneLeft)
      ensures |OfType(got, CsReply)| == if outcome != Stalled && msg.header.msgType == CsReply then 1 else 0
      ensures outcome == Stalled ==> TotalFrames(comm.incoming) == 0
      ensures outcome != Stalled ==> TotalFrames(comm.incoming) < TotalFrames(old(comm.incoming))
      ensures outcome == DuplicateRequest ==>
                && got == [Got(comm.lastMsgFrom, msg)]
                && msg.header.msgType == CsRequest && RequestEntry(msg, comm.lastMsgFrom) in queue.entries
    {
      ghost var v0 := View();
      outcome, msg, got := Step(buffer);
      StepBounds(v0, View(), outcome, msg, comm.lastMsgFrom, got);
    }

    /** Queues its own request under the current clock value and sends it
        to everyone stamped with the advanced clock. Every receiver files the
        request under the very entry the worker queued. */
    method FileRequest() returns (ghost mine: Entry)
      requires Valid()
      modifies comm, queue, clock
      ensures Valid() && mine == Entry(old(clock.time), comm.currentId)
      ensures queue.entries == InsertSorted(old(queue.entries), mine)
      ensures clock.time == old(clock.time) + 1
      ensures comm.incoming == old(comm.incoming) && comm.lastMsgFrom == old(comm.lastMsgFrom)
      ensures comm.sent == old(comm.sent) + Fanout(Signal(CsRequest, clock.time), comm.currentId, comm.totalIds, 0)
      ensures comm.writeFailures == if comm.totalIds >= 2 then 0 else old(comm.writeFailures)
      ensures var f := Fanout(Signal(CsRequest, clock.time), comm.currentId, comm.totalIds, 0);
              forall j :: 0 <= j < |f| ==> RequestEntry(f[j].message, comm.currentId) == mine
    {
      var now := clock.Now();
      mine := Entry(now, comm.currentId);
      InsertSortedMembers(queue.entries, mine);
      queue.Insert(now, comm.currentId);
      SendAllRequest();
      RequestKeysAgree(now, comm.currentId, comm.totalIds);
    }

    /** Files its own request, then takes messages in until a reply has come
        from every other worker and its own request heads the queue. */
    method RequestCs() returns (outcome: Outcome, ghost taken: seq<Got>)
      requires Valid() && comm.totalIds >= 2
      modifies this, comm, queue, clock
      ensures Valid()
      ensures outcome == Entered || outcome == Stalled || outcome == DuplicateRequest
      ensures Took(old(comm.incoming), comm.incoming, comm.currentId, comm.totalIds, taken)
      ensures RepliesSince(comm.sent, old(comm.sent) + Fanout(Signal(CsRequest, old(clock.time) + 1), comm.currentId, comm.totalIds, 0))
      ensures clock.time > old(clock.time)
      ensures doneLeft + |OfType(taken, Done)| >= old(doneLeft)
      ensures outcome == Entered ==>
                && queue.entries != [] && queue.entries[0].value == comm.currentId
                && |OfType(taken, CsReply)| >= comm.totalIds - 2
      ensures outcome == Stalled ==> TotalFrames(comm.incoming) == 0
      ensures outcome == DuplicateRequest ==>
                && taken != [] && taken[|taken| - 1].message.header.msgType == CsRequest
                && RequestEntry(taken[|taken| - 1].message, comm.lastMsgFrom) in queue.entries
    {
      ghost var mine := FileRequest();
      ghost var log := comm.sent;
      var msg;
      ghost var first, more;
      outcome, msg, first := AwaitReplies(comm.totalIds - 2);
      taken := first;
      if outcome != Handled {
        return;
      }
      ghost var inc1, s1 := comm.incoming, comm.sent;
      outcome, more := AwaitHead(msg);
      TookMore(old(comm.incoming), inc1, comm.incoming, comm.currentId, comm.totalIds, first, more);
      RepliesSinceTrans(log, s1, comm.sent);
      OfTypeAppend(first, more, CsReply);
      OfTypeAppend(first, more, Done);
      taken := first + more;
    }

    /** The first loop of the request: messages are taken in until
        `replyLeft` replies have come. */
    method AwaitReplies(replyLeft: nat) returns (outcome: Outcome, msg: Message, ghost taken: seq<Got>)
      requires Valid()
      modifies this, comm, queue, clock
      ensures Valid()
      ensures outcome == Handled || outcome == Stalled || outcome == DuplicateRequest
      ensures Took(old(comm.incoming), comm.incoming, comm.currentId, comm.totalIds, taken)
      ensures RepliesSince(comm.sent, old(comm.sent)) && clock.time >= old(clock.time)
      ensures doneLeft + |OfType(taken, Done)| >= old(doneLeft)
      ensures outcome == Handled ==> |OfType(taken, CsReply)| == replyLeft
      ensures outcome == Stalled ==> TotalFrames(comm.incoming) == 0
      ensures outcome == DuplicateRequest ==>
                && taken != [] && taken[|taken| - 1].message.header.msgType == CsRequest
                && RequestEntry(taken[|taken| - 1].message, comm.lastMsgFrom) in queue.entries
    {
      ghost var inc0, log, t0, d0 := comm.incoming, comm.sent, clock.time, doneLeft;
      TookNothing(inc0, comm.currentId, comm.totalIds);
      assert log[..|log|] == log;
      var left: nat := replyLeft;
      taken := [];
      msg := BLANK;
      while left > 0
        invariant Valid()
        invariant Took(inc0, comm.incoming, comm.currentId, comm.totalIds, taken)
        invariant RepliesSince(comm.sent, log) && clock.time >= t0
        invariant doneLeft + |OfType(taken, Done)| >= d0
        invariant left + |OfType(taken, CsReply)| == replyLeft
        decreases TotalFrames(comm.incoming)
      {
        ghost var inc1, s1 := comm.incoming, comm.sent;
        var st;
        ghost var got;
        st, msg, got := StepCounted(msg);
        TookMore(inc0, inc1, comm.incoming, comm.currentId, comm.totalIds, taken, got);
        RepliesSinceTrans(log, s1, comm.sent);
        OfTypeAppend(taken, got, CsReply);
        OfTypeAppend(taken, got, Done);
        taken := taken + got;
        if st != Handled {
          return st, msg, taken;
        }
        if msg.header.msgType == CsReply {
          left := left - 1;
        }
      }
      outcome := Handled;
    }

    /** The second loop of the request: messages are taken in until the
        process's own request heads the queue. */
    method AwaitHead(buffer: Message) returns (outcome: Outcome, ghost taken: seq<Got>)
      requires Valid()
      modifies this, comm, queue, clock
      ensures Valid()
      ensures outcome == Entered || outcome == Stalled || outcome == DuplicateRequest
      ensures Took(old(comm.incoming), comm.incoming, comm.currentId, comm.totalIds, taken)
      ensures RepliesSince(comm.sent, old(comm.sent)) && clock.time >= old(clock.time)
      ensures doneLeft + |OfType(taken, Done)| >= old(doneLeft)
      ensures outcome == Entered ==> queue.entries != [] && queue.entries[0].value == comm.currentId
      ensures outcome == Stalled ==> TotalFrames(comm.incoming) == 0
      ensures outcome == DuplicateRequest ==>
                && taken != [] && taken[|taken| - 1].message.header.msgType == CsRequest
                && RequestEntry(taken[|taken| - 1].message, comm.lastMsgFrom) in queue.entries
    {
      ghost var inc0, log, t0, d0 := comm.incoming, comm.sent, clock.time, doneLeft;
      TookNothing(inc0, comm.currentId, comm.totalIds);
      assert log[..|log|] == log;
      taken := [];
      var msg := buffer;
      var head := queue.Peek();
      while head != comm.currentId
        invariant Valid()
        invariant Took(inc0, comm.incoming, comm.currentId, comm.totalIds, taken)
        invariant RepliesSince(comm.sent, log) && clock.time >= t0
        invariant doneLeft + |OfType(taken, Done)| >= d0
        invariant head == if queue.entries == [] then -1 else queue.entries[0].value
        decreases TotalFrames(comm.incoming)
      {
        ghost var inc1, s1 := comm.incoming, comm.sent;
        var st;
        ghost var got;
        st, msg, got := StepCounted(msg);
        TookMore(inc0, inc1, comm.incoming, comm.currentId, comm.totalIds, taken, got);
        RepliesSinceTrans(log, s1, comm.sent);
        OfTypeAppend(taken, got, Done);
        taken := taken + got;
        if st != Handled {
          return st, taken;
        }
        head := queue.Peek();
      }
      return Entered, taken;
    }

    /** One pass through the critical area under the lock: enter, then
        leave at once (the area itself only writes a log line). */
    method PassCriticalArea() returns (outcome: Outcome, ghost taken: seq<Got>, ghost pass: Pass)
      requires Valid() && comm.totalIds >= 2
      modifies this, comm, queue, clock
      ensures Valid()
      ensures outcome == Entered || outcome == Stalled || outcome == DuplicateRequest
      ensures Took(old(comm.incoming), comm.incoming, comm.currentId, comm.totalIds, taken)
      ensures doneLeft + |OfType(taken, Done)| >= old(doneLeft)
      ensures clock.time > old(clock.time)
      ensures |old(comm.sent)| <= |comm.sent| && comm.sent[..|old(comm.sent)|] == old(comm.sent)
      ensures outcome == Entered ==>
                && comm.sent == old(comm.sent) + pass.log
                && RoundLog(pass, comm.currentId, comm.totalIds)
                && pass.asked == old(clock.time) + 1 && pass.left == clock.time
                && queue.entries == pass.held[1..]
    {
      ghost var req := Fanout(Signal(CsRequest, old(clock.time) + 1), comm.currentId, comm.totalIds, 0);
      pass := Pass([], 0, 0, []);
      outcome, taken := RequestCs();
      RepliesSinceDrop(comm.sent, old(comm.sent), req);
      if outcome != Entered {
        return;
      }
      ghost var mid, held := comm.sent, queue.entries;
      var _ := ReleaseCs();
      RoundShape(old(comm.sent), mid, comm.sent, comm.currentId, comm.totalIds, old(clock.time) + 1, clock.time, held);
      pass := Pass(comm.sent[|old(comm.sent)|..], old(clock.time) + 1, clock.time, held);
      assert comm.sent[..|old(comm.sent)|] == old(comm.sent);
    }

    /** `rounds` passes through the critical area, each under the lock when
        `mutexl` is set; `passes` lists the passes made, in order, and each
        one asks for the lock after the previous one gave it up. */
    method PassRounds(rounds: nat, mutexl: bool) returns (outcome: Outcome, ghost taken: seq<Got>, ghost passes: seq<Pass>)
      requires Valid() && comm.totalIds >= 2
      modifies this, comm, queue, clock
      ensures Valid()
      ensures outcome == Entered || outcome == Stalled || outcome == DuplicateRequest
      ensures Took(old(comm.incoming), comm.incoming, comm.currentId, comm.totalIds, taken)
      ensures doneLeft + |OfType(taken, Done)| >= old(doneLeft)
      ensures clock.time >= old(clock.time)
      ensures |old(comm.sent)| <= |comm.sent| && comm.sent[..|old(comm.sent)|] == old(comm.sent)
      ensures outcome == Entered ==>
                && |passes| == (if mutexl then rounds else 0)
                && PassesLogged(old(comm.sent), comm.sent, passes, comm.currentId, comm.totalIds, clock.time)
    {
      ghost var inc0, log, d0 := comm.incoming, comm.sent, doneLeft;
      TookNothing(inc0, comm.currentId, comm.totalIds);
      taken := [];
      passes := [];
      for i := 1 to rounds + 1
        invariant Valid()
        invariant Took(inc0, comm.incoming, comm.currentId, comm.totalIds, taken)
        invariant doneLeft + |OfType(taken, Done)| >= d0
        invariant clock.time >= old(clock.time)
        invariant |passes| == if mutexl then i - 1 else 0
        invariant PassesLogged(log, comm.sent, passes, comm.currentId, comm.totalIds, clock.time)
      {
        if mutexl {
          ghost var inc1, s1, t1 := comm.incoming, comm.sent, clock.time;
          var o;
          ghost var got, p;
          o, got, p := PassCriticalArea();
          TookMore(inc0, inc1, comm.incoming, comm.currentId, comm.totalIds, taken, got);
          OfTypeAppend(taken, got, Done);
          taken := taken + got;
          if o != Entered {
            assert s1[..|log|] == log;
            assert comm.sent[..|log|] == comm.sent[..|s1|][..|log|];
            return o, taken, passes;
          }
          PassesLoggedGrow(log, s1, passes, p, comm.currentId, comm.totalIds, t1);
          passes := passes + [p];
        }
      }
      outcome := Entered;
      assert (log + Logs(passes))[..|log|] == log;
    }

    /** Serves the protocol until a DONE has come from every other worker. */
    method ServeUntilDone() returns (outcome: Outcome, ghost taken: seq<Got>)
      requires Valid()
      modifies this, comm, queue, clock
      ensures Valid()
      ensures outcome == Finished || outcome == Stalled || outcome == DuplicateRequest
      ensures Took(old(comm.incoming), comm.incoming, comm.currentId, comm.totalIds, taken)
      ensures RepliesSince(comm.sent, old(comm.sent)) && clock.time >= old(clock.time)
      ensures doneLeft + |OfType(taken, Done)| >= old(doneLeft)
      ensures outcome == Finished ==> doneLeft == 0
      ensures outcome == Stalled ==> TotalFrames(comm.incoming) == 0
    {
      ghost var inc0, log, t0, d0 := comm.incoming, comm.sent, clock.time, doneLeft;
      TookNothing(inc0, comm.currentId, comm.totalIds);
      assert log[..|log|] == log;
      taken := [];
      var msg := BLANK;
      while doneLeft > 0
        invariant Valid()
        invariant Took(inc0, comm.incoming, comm.currentId, comm.totalIds, taken)
        invariant RepliesSince(comm.sent, log) && clock.time >= t0
        invariant doneLeft + |OfType(taken, Done)| >= d0
        decreases TotalFrames(comm.incoming)
      {
        ghost var inc1, s1 := comm.incoming, comm.sent;
        var o;
        ghost var got;
        o, msg, got := StepCounted(msg);
        TookMore(inc0, inc1, comm.incoming, comm.currentId, comm.totalIds, taken, got);
        RepliesSinceTrans(log, s1, comm.sent);
        OfTypeAppend(taken, got, Done);
        taken := taken + got;
        if o != Handled {
          return o, taken;
        }
      }
      outcome := Finished;
    }

    /** The coordinator's loop: takes messages in until `doneLeft` DONE
        messages have come; only those move the clock and reach the
        protocol. */
    method AwaitDones() returns (outcome: Outcome, ghost seen: seq<Got>)
      requires Valid()
      modifies this, comm, queue, clock
      ensures Valid() && comm.sent == old(comm.sent)
      ensures outcome == Finished || outcome == Stalled
      ensures Took(old(comm.incoming), comm.incoming, comm.currentId, comm.totalIds, seen)
      ensures outcome == Finished ==>
                && |OfType(seen, Done)| == old(doneLeft)
                && clock.time == Observed(old(clock.time), OfType(seen, Done), false)
    {
      ghost var inc0 := comm.incoming;
      TookNothing(inc0, comm.currentId, comm.totalIds);
      seen := [];
      var msg := BLANK;
      while doneLeft > 0
        invariant Valid() && comm.sent == old(comm.sent)
        invariant Took(inc0, comm.incoming, comm.currentId, comm.totalIds, seen)
        invariant doneLeft + |OfType(seen, Done)| == old(doneLeft)
        invariant clock.time == Observed(old(clock.time), OfType(seen, Done), false)
        decreases TotalFrames(comm.incoming)
      {
        ghost var inc1 := comm.incoming;
        ghost var dones := OfType(seen, Done);
        var stalled;
        stalled, msg := comm.AwaitAny(msg);
        ghost var got: seq<Got> := if stalled then [] else [Got(comm.lastMsgFrom, msg)];
        TookMore(inc0, inc1, comm.incoming, comm.currentId, comm.totalIds, seen, got);
        if stalled {
          return Stalled, seen + got;
        }
        OfTypeAppend(seen, got, Done);
        assert OfType(got, Done) == (if msg.header.msgType == Done then [msg] else []) + OfType([], Done);
        assert OfType(seen + got, Done) == dones + (if msg.header.msgType == Done then [msg] else []);
        seen := seen + got;
        if msg.header.msgType == Done {
          ObservedSnoc(old(clock.time), dones, msg, false);
          TakeDone(msg);
        } else {
          assert dones + [] == dones;
        }
      }
      outcome := Finished;
    }

    /** A DONE reaches the coordinator: the clock rises to its stamp and it
        counts down. */
    method TakeDone(msg: Message)
      requires Valid() && msg.header.msgType == Done && doneLeft > 0
      modifies this, comm, queue, clock
      ensures Valid() && doneLeft == old(doneLeft) - 1
      ensures clock.time == Max(old(clock.time), msg.header.localTime)
      ensures comm.sent == old(comm.sent) && comm.incoming == old(comm.incoming)
      ensures comm.lastMsgFrom == old(comm.lastMsgFrom)
    {
      var _ := clock.SetFromMsg(msg);
      var _ := CsWork(msg);
    }

    /** A worker's start: STARTED to everyone, then the first message of
        every other worker taken in; only the clock and the log change
        besides the channels. */
    method Start(startedText: seq<char>) returns (stalled: bool, ghost started: seq<Message>)
      requires Valid() && |startedText| < MAX_PAYLOAD_LEN
      modifies comm, clock
      ensures Valid() && doneLeft == old(doneLeft) && queue.entries == old(queue.entries)
      ensures comm.sent == old(comm.sent) + Announcement(Started, old(clock.time) + 1, startedText, comm.currentId, comm.totalIds)
      ensures Drained(old(comm.incoming), comm.incoming, comm.currentId, comm.totalIds, stalled, started)
      ensures clock.time == Observed(old(clock.time) + 1, started, false)
    {
      var _ := SendAllProcEvent(Started, startedText);
      stalled, started := ReceiveAllMsgs(comm, clock, false, BLANK);
      ObservedAtLeast(old(clock.time) + 1, started, false);
    }

    /** A worker's whole run on its fresh record: the start, then `rounds`
        of `currentId * 5` passes, the DONE broadcast and the protocol
        served to the end, as `ChildWork` states it. */
    method Run(mutexl: bool, startedText: seq<char>, doneText: seq<char>)
      returns (outcome: Outcome, ghost started: seq<Message>, ghost mid: seq<seq<Frame>>, ghost taken: seq<Got>,
               ghost passes: seq<Pass>, ghost doneAt: int)
      requires Valid() && 1 <= comm.currentId && comm.totalIds <= SIZE_MAX && doneLeft == comm.totalIds - 2
      requires |startedText| < MAX_PAYLOAD_LEN && |doneText| < MAX_PAYLOAD_LEN
      modifies this, comm, queue, clock
      ensures outcome == Finished || outcome == Stalled || outcome == DuplicateRequest
      ensures var f := Announcement(Started, old(clock.time) + 1, startedText, comm.currentId, comm.totalIds);
              |old(comm.sent)| + |f| <= |comm.sent| && comm.sent[..|old(comm.sent)| + |f|] == old(comm.sent) + f
      ensures outcome == Finished ==>
                && var f := Announcement(Started, old(clock.time) + 1, startedText, comm.currentId, comm.totalIds);
                && Drained(old(comm.incoming), mid, comm.currentId, comm.totalIds, false, started)
                && Took(mid, comm.incoming, comm.currentId, comm.totalIds, taken)
                && |OfType(taken, Done)| >= comm.totalIds - 2
                && |passes| == (if mutexl then comm.currentId * 5 else 0)
                && RanRounds(old(comm.sent) + f, comm.sent, passes, Announcement(Done, doneAt, doneText, comm.currentId, comm.totalIds),
                             comm.currentId, comm.totalIds, doneAt - 1)
    {
      ghost var f := Announcement(Started, old(clock.time) + 1, startedText, comm.currentId, comm.totalIds);
      taken, passes, doneAt := [], [], 0;
      var stalled;
      stalled, started := Start(startedText);
      mid := comm.incoming;
      ghost var log := comm.sent;
      assert log == old(comm.sent) + f && log[..|log|] == log;
      if stalled {
        return Stalled, started, mid, taken, passes, doneAt;
      }
      outcome, taken, passes, doneAt := PassAndServe(comm.currentId * 5, mutexl, doneText);
    }

    /** The worker's rounds and its end: `rounds` passes through the
        critical area, the DONE broadcast stamped `doneAt` after them, and
        the protocol served until `doneLeft` has run down. */
    method PassAndServe(rounds: nat, mutexl: bool, doneText: seq<char>)
      returns (outcome: Outcome, ghost taken: seq<Got>, ghost passes: seq<Pass>, ghost doneAt: int)
      requires Valid() && comm.totalIds >= 2 && |doneText| < MAX_PAYLOAD_LEN
      modifies this, comm, queue, clock
      ensures Valid()
      ensures outcome == Finished || outcome == Stalled || outcome == DuplicateRequest
      ensures |old(comm.sent)| <= |comm.sent| && comm.sent[..|old(comm.sent)|] == old(comm.sent)
      ensures outcome == Finished ==>
                && Took(old(comm.incoming), comm.incoming, comm.currentId, comm.totalIds, taken)
                && |OfType(taken, Done)| >= old(doneLeft)
                && |passes| == (if mutexl then rounds else 0)
                && RanRounds(old(comm.sent), comm.sent, passes, Announcement(Done, doneAt, doneText, comm.currentId, comm.totalIds),
                             comm.currentId, comm.totalIds, doneAt - 1)
    {
      ghost var first, rest;
      doneAt := 0;
      outcome, first, passes := PassRounds(rounds, mutexl);
      taken := first;
      if outcome != Entered {
        return;
      }
      doneAt := clock.time + 1;
      ghost var ann := Announcement(Done, doneAt, doneText, comm.currentId, comm.totalIds);
      var _ := SendAllProcEvent(Done, doneText);
      ghost var inc3 := comm.incoming;
      assert comm.sent == old(comm.sent) + Logs(passes) + ann;
      outcome, rest := ServeUntilDone();
      TookMore(old(comm.incoming), inc3, comm.incoming, comm.currentId, comm.totalIds, first, rest);
      OfTypeAppend(first, rest, Done);
      taken := first + rest;
      FinishLogged(old(comm.sent), passes, ann, comm.sent, comm.currentId, comm.totalIds, doneAt - 1);
    }

    /** Tells everyone it has left and takes the head of its own queue off. */
    method ReleaseCs() returns (r: int)
      requires Valid()
      modifies comm, queue, clock
      ensures Valid() && r == 0
      ensures clock.time == old(clock.time) + 1
      ensures comm.incoming == old(comm.incoming) && comm.lastMsgFrom == old(comm.lastMsgFrom)
      ensures comm.sent == old(comm.sent) + Fanout(Signal(CsRelease, clock.time), comm.currentId, comm.totalIds, 0)
      ensures var q := old(queue.entries);
              queue.entries == if HeadValue(q) < 0 then q else q[1..]
    {
      SendAllRelease();
      var _ := queue.Get();
      r := 0;
    }
  }

  /** The coordinator: waits for every worker's STARTED, then takes messages
      in until N-1 DONE messages have come; only DONE messages move its
      clock or reach the protocol. */
  method ParentWork(comm: Pipes, clock: Clock)
    returns (outcome: Outcome, ghost started: seq<Message>, ghost mid: seq<seq<Frame>>, ghost seen: seq<Got>)
    requires comm.Valid() && comm.totalIds <= SIZE_MAX
    modifies comm, clock
    ensures outcome == Finished || outcome == Stalled
    ensures comm.sent == old(comm.sent)
    ensures outcome == Finished ==>
              && Drained(old(comm.incoming), mid, comm.currentId, comm.totalIds, false, started)
              && Took(mid, comm.incoming, comm.currentId, comm.totalIds, seen)
              && |OfType(seen, Done)| == comm.totalIds - 1
              && clock.time == Observed(Observed(old(clock.time), started, false), OfType(seen, Done), false)
  {
    var queue := new Queue();
    var cs := new CS(comm, queue, clock, comm.totalIds - 1);
    var stalled;
    stalled, started := ReceiveAllMsgs(comm, clock, false, BLANK);
    mid := comm.incoming;
    seen := [];
    if stalled {
      return Stalled, started, mid, seen;
    }
    outcome, seen := cs.AwaitDones();
  }

  /** A worker: announces itself, waits for the other workers' STARTED, then
      passes `currentId * 5` times through the critical area (asking for and
      giving up the lock around it when `mutexl` is set), announces DONE
      and serves the protocol until a DONE has come from every other worker.
      The two announcements carry the formatted log lines given as texts.
      Once it finishes, its log is the STARTED broadcast, the passes, the DONE
      broadcast stamped `doneAt` after the last pass, and replies; it took in
      the other workers' first messages and then `taken`, with a DONE for
      every other worker among the latter. */
  method ChildWork(comm: Pipes, clock: Clock, mutexl: bool, startedText: seq<char>, doneText: seq<char>)
    returns (outcome: Outcome, ghost started: seq<Message>, ghost mid: seq<seq<Frame>>, ghost taken: seq<Got>,
             ghost passes: seq<Pass>, ghost doneAt: int)
    requires comm.Valid() && 1 <= comm.currentId && comm.totalIds <= SIZE_MAX
    requires |startedText| < MAX_PAYLOAD_LEN && |doneText| < MAX_PAYLOAD_LEN
    modifies comm, clock
    ensures outcome == Finished || outcome == Stalled || outcome == DuplicateRequest
    ensures var f := Announcement(Started, old(clock.time) + 1, startedText, comm.currentId, comm.totalIds);
            |old(comm.sent)| + |f| <= |comm.sent| && comm.sent[..|old(comm.sent)| + |f|] == old(comm.sent) + f
    ensures outcome == Finished ==>
              && var f := Announcement(Started, old(clock.time) + 1, startedText, comm.currentId, comm.totalIds);
              && Drained(old(comm.incoming), mid, comm.currentId, comm.totalIds, false, started)
              && Took(mid, comm.incoming, comm.currentId, comm.totalIds, taken)
              && |OfType(taken, Done)| >= comm.totalIds - 2
              && |passes| == (if mutexl then comm.currentId * 5 else 0)
              && RanRounds(old(comm.sent) + f, comm.sent, passes, Announcement(Done, doneAt, doneText, comm.currentId, comm.totalIds),
                           comm.currentId, comm.totalIds, doneAt - 1)
  {
    var queue := new Queue();
    var cs := new CS(comm, queue, clock, comm.totalIds - 2);
    outcome, started, mid, taken, passes, doneAt := cs.Run(mutexl, startedText, doneText);
  }

  /** A finished worker's log after `base`: its passes, the last one by
      clock value `t`, then the DONE broadcast `ann`, then replies only. */
  ghost predicate RanRounds(base: seq<Sent>, sent: seq<Sent>, passes: seq<Pass>, ann: seq<Sent>, self: int, n: int,
                            t: int)
  {
    && |base| + |Logs(passes)| <= |sent|
    && PassesLogged(base, sent[..|base| + |Logs(passes)|], passes, self, n, t)
    && RepliesSince(sent, base + Logs(passes) + ann)
  }

  /** The DONE announcement `ann` and the replies after the passes keep the
      passes where they were. */
  lemma FinishLogged(base: seq<Sent>, passes: seq<Pass>, ann: seq<Sent>, final: seq<Sent>, self: int, n: int, t: int)
    requires PassesLogged(base, base + Logs(passes), passes, self, n, t)
    requires RepliesSince(final, base + Logs(passes) + ann)
    ensures |base| <= |final| && final[..|base|] == base
    ensures RanRounds(base, final, passes, ann, self, n, t)
  {
    var s2 := base + Logs(passes);
    assert final[..|s2|] == (s2 + ann)[..|s2|] == s2;
    assert final[..|base|] == s2[..|base|] == base;
  }
}
