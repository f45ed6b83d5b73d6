/** One process's end of the channel mesh: addressing of peers, unicast
    send and receive, receive-from-anyone and multicast.

    Each process has one incoming and one outgoing channel per peer, kept in
    an (N-1)-entry table indexed by the peer's slot, `GetIndex(peer, self)`.
    An incoming channel is the sequence of frames that reach this process
    from that peer, in order: all of them, so an empty one means nothing more
    will ever arrive there. Writes are recorded, in order, in `sent`. The
    operating system's answers are the two things the process cannot see in
    advance: how many more writes it refuses as "would block"
    (`writeFailures`) and, per frame, whether the payload read after a
    successful header read fails (`payloadReadable`). */
module Ipc {
  import opened Wire

  /** Slot of peer `x` in the endpoint table of process `id`. */
  function GetIndex(x: int, id: int): (r: int)
    ensures x != id && 0 <= x && 0 <= id ==> 0 <= r
    ensures x != id ==> r < x || r < id
  {
    if x < id then x else x - 1
  }

  /** The peer whose endpoints sit in slot `k` of process `id`'s table. */
  function PeerOf(k: int, id: int): (p: int)
    ensures p != id
    ensures 0 <= k ==> 0 <= p
  {
    if k < id then k else k + 1
  }

  /** Slots of the N-1 peers of `id` are exactly 0..N-2, one each. */
  lemma SlotsArePeers(n: int, id: int)
    requires 0 <= id < n
    ensures forall x :: 0 <= x < n && x != id ==> 0 <= GetIndex(x, id) < n - 1
    ensures forall k :: 0 <= k < n - 1 ==> 0 <= PeerOf(k, id) < n
    ensures forall x :: x != id ==> PeerOf(GetIndex(x, id), id) == x
    ensures forall k :: GetIndex(PeerOf(k, id), id) == k
    ensures forall x, y :: x != id && y != id && GetIndex(x, id) == GetIndex(y, id) ==> x == y
  {
    SlotRoundTrip(id);
  }

  /** GetIndex and PeerOf are inverse bijections between the ids other than
      `id` and the slots. */
  lemma SlotRoundTrip(id: int)
    ensures forall x :: x != id ==> PeerOf(GetIndex(x, id), id) == x
    ensures forall k :: GetIndex(PeerOf(k, id), id) == k
  {
  }

  /** What a read of one channel can find: a whole message, or a header
      whose payload the OS then fails to deliver. */
  datatype Frame = Frame(message: Message, payloadReadable: bool)

  /** A successful write of `message` to the write end in slot `slot`. */
  datatype Sent = Sent(slot: int, message: Message)

  /** Result of one receive attempt on a channel: the status, the caller's
      message buffer afterwards, and what remains in the channel. */
  datatype Read = Read(status: int, msg: Message, rest: seq<Frame>)

  function ReadFrame(ch: seq<Frame>, buffer: Message): Read
  {
    if ch == [] then Read(-2, buffer, ch)
    else if ch[0].payloadReadable then Read(0, ch[0].message, ch[1..])
    else Read(-3, Message(ch[0].message.header, buffer.payload), ch[1..])
  }

  /** Result of one pass of receive-from-anyone. */
  datatype Polled = Polled(status: int, from: int, msg: Message, incoming: seq<seq<Frame>>)

  /** One pass over ids i..n-1 (skipping `self`), trying to receive from
      each in turn until one receive succeeds. */
  function Poll(inc: seq<seq<Frame>>, self: int, n: int, i: int, buffer: Message): (p: Polled)
    requires 0 <= self < n && |inc| == n - 1 && 0 <= i
    ensures |p.incoming| == |inc|
    decreases n - i
  {
    if i >= n then Polled(-1, -1, buffer, inc)
    else if i == self then Poll(inc, self, n, i + 1, buffer)
    else
      var k := GetIndex(i, self);
      var rd := ReadFrame(inc[k], buffer);
      if rd.status == 0 then Polled(0, i, rd.msg, inc[k := rd.rest])
      else Poll(inc[k := rd.rest], self, n, i + 1, rd.msg)
  }

  /** The channel is empty or its first header comes without its payload:
      a receive on it does not succeed. */
  predicate Unreadable(ch: seq<Frame>)
  {
    ch == [] || !ch[0].payloadReadable
  }

  function Drop1(ch: seq<Frame>): seq<Frame>
  {
    if ch == [] then [] else ch[1..]
  }

  /** One pass either fails (-1) or succeeds on an id at or above `i`
      whose next frame is whole, consuming just that frame. */
  lemma {:induction false} PollFinds(inc: seq<seq<Frame>>, self: int, n: int, i: int, buffer: Message)
    requires 0 <= self < n && |inc| == n - 1 && 0 <= i <= n
    ensures var p := Poll(inc, self, n, i, buffer);
      && (p.status == 0 || p.status == -1)
      && (p.status == 0 ==>
            && i <= p.from < n && p.from != self
            && inc[GetIndex(p.from, self)] != []
            && inc[GetIndex(p.from, self)][0] == Frame(p.msg, true)
            && p.incoming[GetIndex(p.from, self)] == inc[GetIndex(p.from, self)][1..])
    decreases n - i
  {
    if i == n {
    } else if i == self {
      PollFinds(inc, self, n, i + 1, buffer);
    } else {
      var k := GetIndex(i, self);
      var rd := ReadFrame(inc[k], buffer);
      if rd.status != 0 {
        var inc' := inc[k := rd.rest];
        PollFinds(inc', self, n, i + 1, rd.msg);
        var p := Poll(inc', self, n, i + 1, rd.msg);
        assert Poll(inc, self, n, i, buffer) == p;
        if p.status == 0 {
          assert GetIndex(p.from, self) != k;
        }
      }
    }
  }

  /** A pass leaves alone the channels of ids below `i` and, when it
      succeeds, those of ids above the sender. */
  lemma {:induction false} PollKeeps(inc: seq<seq<Frame>>, self: int, n: int, i: int, buffer: Message)
    requires 0 <= self < n && |inc| == n - 1 && 0 <= i <= n
    ensures var p := Poll(inc, self, n, i, buffer);
      forall j :: 0 <= j < n && j != self && (j < i || (p.status == 0 && j > p.from)) ==>
        p.incoming[GetIndex(j, self)] == inc[GetIndex(j, self)]
    decreases n - i
  {
    if i == n {
    } else if i == self {
      PollKeeps(inc, self, n, i + 1, buffer);
    } else {
      var k := GetIndex(i, self);
      var rd := ReadFrame(inc[k], buffer);
      if rd.status != 0 {
        var inc' := inc[k := rd.rest];
        PollKeeps(inc', self, n, i + 1, rd.msg);
        PollFinds(inc', self, n, i + 1, rd.msg);
        var p := Poll(inc', self, n, i + 1, rd.msg);
        assert Poll(inc, self, n, i, buffer) == p;
        forall j | 0 <= j < n && j != self && (j < i || (p.status == 0 && j > p.from))
          ensures p.incoming[GetIndex(j, self)] == inc[GetIndex(j, self)]
        {
          assert GetIndex(j, self) != k;
        }
      } else {
        forall j | 0 <= j < n && j != self && (j < i || j > i)
          ensures inc[k := rd.rest][GetIndex(j, self)] == inc[GetIndex(j, self)]
        {
          assert GetIndex(j, self) != k;
        }
      }
    }
  }

  /** Every id the pass tried and failed on, from `i` up to the sender (or
      to the end), had no whole frame next; a header-only frame there was
      consumed. */
  lemma PollSkips(inc: seq<seq<Frame>>, self: int, n: int, i: int, buffer: Message)
    requires 0 <= self < n && |inc| == n - 1 && 0 <= i <= n
    ensures var p := Poll(inc, self, n, i, buffer);
      forall j :: i <= j < n && j != self && (p.status == -1 || j < p.from) ==>
        && Unreadable(inc[GetIndex(j, self)])
        && p.incoming[GetIndex(j, self)] == Drop1(inc[GetIndex(j, self)])
  {
    var p := Poll(inc, self, n, i, buffer);
    forall j | i <= j < n && j != self && (p.status == -1 || j < p.from)
      ensures Unreadable(inc[GetIndex(j, self)])
      ensures p.incoming[GetIndex(j, self)] == Drop1(inc[GetIndex(j, self)])
    {
      PollSkipsOne(inc, self, n, i, buffer, j);
    }
  }

  /** PollSkips for one id `j`. */
  lemma {:induction false} PollSkipsOne(inc: seq<seq<Frame>>, self: int, n: int, i: int, buffer: Message, j: int)
    requires 0 <= self < n && |inc| == n - 1 && 0 <= i <= j < n && j != self
    requires var p := Poll(inc, self, n, i, buffer); p.status == -1 || j < p.from
    ensures Unreadable(inc[GetIndex(j, self)])
    ensures Poll(inc, self, n, i, buffer).incoming[GetIndex(j, self)] == Drop1(inc[GetIndex(j, self)])
    decreases n - i
  {
    if i == self {
      PollSkipsOne(inc, self, n, i + 1, buffer, j);
    } else {
      var k := GetIndex(i, self);
      var rd := ReadFrame(inc[k], buffer);
      var inc' := inc[k := rd.rest];
      var p := Poll(inc', self, n, i + 1, rd.msg);
      assert rd.status != 0;
      assert Poll(inc, self, n, i, buffer) == p;
      if j == i {
        PollKeeps(inc', self, n, i + 1, rd.msg);
        assert p.incoming[k] == inc'[k];
      } else {
        assert GetIndex(j, self) != k;
        PollSkipsOne(inc', self, n, i + 1, rd.msg, j);
      }
    }
  }

  /** What one pass of receive-from-anyone does: it succeeds on the lowest id
      whose next frame is whole, consuming just that frame; every lower id's
      receive failed, and a header-only frame there was consumed; channels
      of higher ids are untouched. */
  lemma PollScan(inc: seq<seq<Frame>>, self: int, n: int, buffer: Message)
    requires 0 <= self < n && |inc| == n - 1
    ensures var p := Poll(inc, self, n, 0, buffer);
      && (p.status == 0 || p.status == -1)
      && (p.status == 0 ==>
            && 0 <= p.from < n && p.from != self
            && inc[GetIndex(p.from, self)] != []
            && inc[GetIndex(p.from, self)][0] == Frame(p.msg, true)
            && p.incoming[GetIndex(p.from, self)] == inc[GetIndex(p.from, self)][1..])
      && (forall j :: 0 <= j < n && j != self && (p.status == -1 || j < p.from) ==>
            && Unreadable(inc[GetIndex(j, self)])
            && p.incoming[GetIndex(j, self)] == Drop1(inc[GetIndex(j, self)]))
      && (forall j :: 0 <= j < n && j != self && p.status == 0 && j > p.from ==>
            p.incoming[GetIndex(j, self)] == inc[GetIndex(j, self)])
  {
    PollFinds(inc, self, n, 0, buffer);
    PollKeeps(inc, self, n, 0, buffer);
    PollSkips(inc, self, n, 0, buffer);
  }

  /** Number of frames still to arrive, over all channels. */
  function TotalFrames(inc: seq<seq<Frame>>): nat
  {
    if inc == [] then 0 else |inc[0]| + TotalFrames(inc[1..])
  }

  ghost predicate IsSuffix(x: seq<Frame>, y: seq<Frame>)
  {
    |x| <= |y| && x == y[|y| - |x|..]
  }

  /** Every channel of `a` is what is left of the same channel of `b` after
      zero or more frames were read from it. */
  ghost predicate Suffixes(a: seq<seq<Frame>>, b: seq<seq<Frame>>)
  {
    |a| == |b| && forall k :: 0 <= k < |a| ==> IsSuffix(a[k], b[k])
  }

  lemma SuffixesTransitive(a: seq<seq<Frame>>, b: seq<seq<Frame>>, c: seq<seq<Frame>>)
    requires Suffixes(a, b) && Suffixes(b, c)
    ensures Suffixes(a, c)
  {
    forall k | 0 <= k < |a| ensures IsSuffix(a[k], c[k]) {
      assert c[k][|c[k]| - |b[k]|..][|b[k]| - |a[k]|..] == c[k][|c[k]| - |a[k]|..];
    }
  }

  lemma {:induction false} ShorterChannelsFewerFrames(a: seq<seq<Frame>>, b: seq<seq<Frame>>)
    requires |a| == |b|
    requires forall k :: 0 <= k < |a| ==> |a[k]| <= |b[k]|
    ensures TotalFrames(a) <= TotalFrames(b)
    ensures (exists k :: 0 <= k < |a| && |a[k]| < |b[k]|) ==> TotalFrames(a) < TotalFrames(b)
  {
    if a != [] {
      ShorterChannelsFewerFrames(a[1..], b[1..]);
      if exists k :: 0 <= k < |a| && |a[k]| < |b[k]| {
        var k :| 0 <= k < |a| && |a[k]| < |b[k]|;
        if k > 0 {
          assert |a[1..][k - 1]| < |b[1..][k - 1]|;
        }
      }
    }
  }

  lemma {:induction false} SomeChannelHoldsFrames(inc: seq<seq<Frame>>)
    requires TotalFrames(inc) > 0
    ensures exists k :: 0 <= k < |inc| && inc[k] != []
  {
    if inc[0] == [] {
      SomeChannelHoldsFrames(inc[1..]);
      var k :| 0 <= k < |inc[1..]| && inc[1..][k] != [];
      assert inc[k + 1] != [];
    }
  }

  /** A full pass only ever consumes frames, and it consumes at least one
      whenever any channel holds one. */
  lemma PollProgress(inc: seq<seq<Frame>>, self: int, n: int, buffer: Message)
    requires 0 <= self < n && |inc| == n - 1
    ensures var p := Poll(inc, self, n, 0, buffer);
      && Suffixes(p.incoming, inc)
      && (TotalFrames(inc) > 0 || p.status == 0 ==> TotalFrames(p.incoming) < TotalFrames(inc))
  {
    var p := Poll(inc, self, n, 0, buffer);
    PollScan(inc, self, n, buffer);
    SlotsArePeers(n, self);
    forall k | 0 <= k < |inc| ensures IsSuffix(p.incoming[k], inc[k]) {
      var j := PeerOf(k, self);
      assert GetIndex(j, self) == k;
    }
    ShorterChannelsFewerFrames(p.incoming, inc);
    if p.status == 0 {
      assert |p.incoming[GetIndex(p.from, self)]| < |inc[GetIndex(p.from, self)]|;
    } else if TotalFrames(inc) > 0 {
      SomeChannelHoldsFrames(inc);
      var k :| 0 <= k < |inc| && inc[k] != [];
      var j := PeerOf(k, self);
      assert GetIndex(j, self) == k;
      assert |p.incoming[k]| < |inc[k]|;
    }
  }

  lemma SuffixesReflexive(a: seq<seq<Frame>>)
    ensures Suffixes(a, a)
  {
    forall k | 0 <= k < |a| ensures IsSuffix(a[k], a[k]) {
      assert a[k][0..] == a[k];
    }
  }

  /** `msg` is the whole frame just read from slot `k`: the one right before
      what is left of that channel, counted from the original channel. */
  ghost predicate LastTaken(cur: seq<seq<Frame>>, orig: seq<seq<Frame>>, k: int, msg: Message)
  {
    && 0 <= k < |cur| && k < |orig|
    && |cur[k]| < |orig[k]|
    && orig[k][|orig[k]| - |cur[k]| - 1] == Frame(msg, true)
  }

  /** One pass of receive-from-anyone started from a channel state `before`
      that is itself what is left of `orig`. */
  lemma PassFromSuffix(before: seq<seq<Frame>>, orig: seq<seq<Frame>>, self: int, n: int, buffer: Message)
    requires 0 <= self < n && |before| == n - 1 && Suffixes(before, orig)
    ensures var p := Poll(before, self, n, 0, buffer);
      && Suffixes(p.incoming, orig)
      && (TotalFrames(before) > 0 ==> TotalFrames(p.incoming) < TotalFrames(before))
      && (p.status == 0 ==>
            && 0 <= p.from < n && p.from != self
            && TotalFrames(p.incoming) < TotalFrames(orig)
            && LastTaken(p.incoming, orig, GetIndex(p.from, self), p.msg))
  {
    var p := Poll(before, self, n, 0, buffer);
    PollScan(before, self, n, buffer);
    PollProgress(before, self, n, buffer);
    SuffixesTransitive(p.incoming, before, orig);
    ShorterChannelsFewerFrames(before, orig);
    SlotsArePeers(n, self);
    if p.status == 0 {
      var k := GetIndex(p.from, self);
      assert before[k] == orig[k][|orig[k]| - |before[k]|..];
      assert |orig[k]| - |p.incoming[k]| - 1 == |orig[k]| - |before[k]|;
    }
  }

  /** A message taken in, with the id of the process it came from. */
  datatype Got = Got(from: int, message: Message)

  /** The messages of the whole frames of `ch`, in order: what receives on
      that channel can take in from it. */
  function WholeOf(ch: seq<Frame>): seq<Message>
  {
    if ch == [] then []
    else (if ch[0].payloadReadable then [ch[0].message] else []) + WholeOf(ch[1..])
  }

  lemma {:induction false} WholeOfAppend(a: seq<Frame>, b: seq<Frame>)
    ensures WholeOf(a + b) == WholeOf(a) + WholeOf(b)
  {
    if a == [] {
      assert a + b == b;
    } else {
      var h := if a[0].payloadReadable then [a[0].message] else [];
      assert (a + b)[0] == a[0] && (a + b)[1..] == a[1..] + b;
      assert WholeOf(a + b) == h + WholeOf(a[1..] + b);
      WholeOfAppend(a[1..], b);
      assert h + (WholeOf(a[1..]) + WholeOf(b)) == (h + WholeOf(a[1..])) + WholeOf(b);
    }
  }

  /** The frames read off channel `orig` to leave `cur`. */
  function Consumed(orig: seq<Frame>, cur: seq<Frame>): seq<Frame>
  {
    if |cur| <= |orig| then orig[..|orig| - |cur|] else []
  }

  lemma ConsumedSplit(x: seq<Frame>, y: seq<Frame>, z: seq<Frame>)
    requires IsSuffix(y, x) && IsSuffix(z, y)
    ensures Consumed(x, z) == Consumed(x, y) + Consumed(y, z)
  {
    assert y[..|y| - |z|] == x[|x| - |y|..|x| - |z|];
    assert x[..|x| - |z|] == x[..|x| - |y|] + x[|x| - |y|..|x| - |z|];
  }

  /** The messages `got` took from process `j`, in order. */
  function FromPeer(got: seq<Got>, j: int): seq<Message>
  {
    if got == [] then []
    else (if got[0].from == j then [got[0].message] else []) + FromPeer(got[1..], j)
  }

  lemma {:induction false} FromPeerAppend(a: seq<Got>, b: seq<Got>, j: int)
    ensures FromPeer(a + b, j) == FromPeer(a, j) + FromPeer(b, j)
  {
    if a == [] {
      assert a + b == b;
    } else {
      var h := if a[0].from == j then [a[0].message] else [];
      assert (a + b)[0] == a[0] && (a + b)[1..] == a[1..] + b;
      assert FromPeer(a + b, j) == h + FromPeer(a[1..] + b, j);
      FromPeerAppend(a[1..], b, j);
      assert h + (FromPeer(a[1..], j) + FromPeer(b, j)) == (h + FromPeer(a[1..], j)) + FromPeer(b, j);
    }
  }

  /** The messages of type `t` that `got` took, in order. */
  function OfType(got: seq<Got>, t: MessageType): seq<Message>
  {
    if got == [] then []
    else (if got[0].message.header.msgType == t then [got[0].message] else []) + OfType(got[1..], t)
  }

  lemma {:induction false} OfTypeAppend(a: seq<Got>, b: seq<Got>, t: MessageType)
    ensures OfType(a + b, t) == OfType(a, t) + OfType(b, t)
  {
    if a == [] {
      assert a + b == b;
    } else {
      var h := if a[0].message.header.msgType == t then [a[0].message] else [];
      assert (a + b)[0] == a[0] && (a + b)[1..] == a[1..] + b;
      assert OfType(a + b, t) == h + OfType(a[1..] + b, t);
      OfTypeAppend(a[1..], b, t);
      assert h + (OfType(a[1..], t) + OfType(b, t)) == (h + OfType(a[1..], t)) + OfType(b, t);
    }
  }

  /** From channel state `orig` to `cur` the reader took in exactly `got`:
      every channel was only read from, the whole frames read off the
      channel of each peer are, in order, the messages `got` took from that
      peer, and `got` names only peers. Frames read besides were headers
      whose payload could not be read. */
  ghost predicate Took(orig: seq<seq<Frame>>, cur: seq<seq<Frame>>, self: int, n: int, got: seq<Got>)
  {
    && 0 <= self < n && |orig| == n - 1 && Suffixes(cur, orig)
    && (forall g :: g in got ==> 0 <= g.from < n && g.from != self)
    && forall j :: 0 <= j < n && j != self ==>
         WholeOf(Consumed(orig[GetIndex(j, self)], cur[GetIndex(j, self)])) == FromPeer(got, j)
  }

  lemma TookNothing(inc: seq<seq<Frame>>, self: int, n: int)
    requires 0 <= self < n && |inc| == n - 1
    ensures Took(inc, inc, self, n, [])
  {
    SuffixesReflexive(inc);
    forall j | 0 <= j < n && j != self
      ensures WholeOf(Consumed(inc[GetIndex(j, self)], inc[GetIndex(j, self)])) == []
    {
      assert Consumed(inc[GetIndex(j, self)], inc[GetIndex(j, self)]) == [];
    }
  }

  /** Taking in `a` and then `b` is taking in `a + b`. */
  lemma TookMore(x: seq<seq<Frame>>, y: seq<seq<Frame>>, z: seq<seq<Frame>>, self: int, n: int,
                 a: seq<Got>, b: seq<Got>)
    requires Took(x, y, self, n, a) && Took(y, z, self, n, b)
    ensures Took(x, z, self, n, a + b)
  {
    SuffixesTransitive(z, y, x);
    forall j | 0 <= j < n && j != self
      ensures WholeOf(Consumed(x[GetIndex(j, self)], z[GetIndex(j, self)])) == FromPeer(a + b, j)
    {
      var k := GetIndex(j, self);
      ConsumedSplit(x[k], y[k], z[k]);
      WholeOfAppend(Consumed(x[k], y[k]), Consumed(y[k], z[k]));
      FromPeerAppend(a, b, j);
    }
  }

  /** One pass of receive-from-anyone takes in the frame it succeeds on and
      nothing else. */
  lemma TookPass(inc: seq<seq<Frame>>, self: int, n: int, buffer: Message)
    requires 0 <= self < n && |inc| == n - 1
    ensures var p := Poll(inc, self, n, 0, buffer);
      Took(inc, p.incoming, self, n, if p.status == 0 then [Got(p.from, p.msg)] else [])
  {
    var p := Poll(inc, self, n, 0, buffer);
    var got := if p.status == 0 then [Got(p.from, p.msg)] else [];
    PollScan(inc, self, n, buffer);
    PollProgress(inc, self, n, buffer);
    forall j | 0 <= j < n && j != self
      ensures WholeOf(Consumed(inc[GetIndex(j, self)], p.incoming[GetIndex(j, self)])) == FromPeer(got, j)
    {
      var k := GetIndex(j, self);
      var c := Consumed(inc[k], p.incoming[k]);
      if p.status == 0 && j == p.from {
        assert c == [Frame(p.msg, true)];
        assert WholeOf(c) == [p.msg] == FromPeer(got, j);
      } else if p.status == -1 || j < p.from {
        assert c == [] || c == [inc[k][0]];
        assert WholeOf(c) == [] == FromPeer(got, j);
      } else {
        assert c == [];
        assert FromPeer(got, j) == [];
      }
    }
  }

  /** Which frame a blocking-style receive loop waits for. */
  datatype Wanted = AnyMessage | AckOnly

  predicate Wants(w: Wanted, f: Frame)
  {
    f.payloadReadable && (w == AnyMessage || f.message.header.msgType == Ack)
  }

  /** Position of the first frame a receive loop stops at, or -1. */
  function FirstWanted(ch: seq<Frame>, w: Wanted): (r: int)
    ensures -1 <= r < |ch|
    ensures r >= 0 ==> Wants(w, ch[r]) && forall j :: 0 <= j < r ==> !Wants(w, ch[j])
    ensures r < 0 ==> forall j :: 0 <= j < |ch| ==> !Wants(w, ch[j])
  {
    if ch == [] then -1
    else if Wants(w, ch[0]) then 0
    else
      var r := FirstWanted(ch[1..], w);
      assert forall j :: 1 <= j < |ch| ==> ch[j] == ch[1..][j - 1];
      if r < 0 then -1 else r + 1
  }

  /** Ids i..n-1 other than `self`, ascending. */
  function Fanout(m: Message, self: int, n: int, i: int): seq<Sent>
    decreases n - i
  {
    if i >= n then []
    else if i == self then Fanout(m, self, n, i + 1)
    else [Sent(GetIndex(i, self), m)] + Fanout(m, self, n, i + 1)
  }

  /** A multicast from id 0 on writes the message once into every slot,
      in ascending slot order, which is ascending peer order. */
  lemma {:induction false} FanoutCoversSlots(m: Message, self: int, n: int, i: int)
    requires 0 <= self < n && 0 <= i <= n
    ensures var s := if i <= self then i else i - 1;
      && |Fanout(m, self, n, i)| == n - 1 - s
      && forall j :: 0 <= j < |Fanout(m, self, n, i)| ==> Fanout(m, self, n, i)[j] == Sent(s + j, m)
    decreases n - i
  {
    if i < n {
      FanoutCoversSlots(m, self, n, i + 1);
    }
  }

  /** Worker ids (1..i-1) other than `self`, ascending. */
  function WorkersBelow(self: int, i: int): (w: seq<int>)
    ensures forall j :: 0 <= j < |w| ==> 1 <= w[j] < i && w[j] != self
    decreases i
  {
    if i <= 1 then []
    else WorkersBelow(self, i - 1) + (if i - 1 == self then [] else [i - 1])
  }

  lemma {:induction false} WorkersBelowShape(self: int, i: int)
    ensures forall j :: 0 <= j < |WorkersBelow(self, i)| ==>
      1 <= WorkersBelow(self, i)[j] < i && WorkersBelow(self, i)[j] != self
    ensures forall j, l :: 0 <= j < l < |WorkersBelow(self, i)| ==>
      WorkersBelow(self, i)[j] < WorkersBelow(self, i)[l]
    decreases i
  {
    if i > 1 {
      WorkersBelowShape(self, i - 1);
    }
  }

  lemma {:induction false} WorkersBelowPrefix(self: int, i: int, n: int)
    requires i <= n
    ensures |WorkersBelow(self, i)| <= |WorkersBelow(self, n)|
    ensures WorkersBelow(self, n)[..|WorkersBelow(self, i)|] == WorkersBelow(self, i)
    decreases n - i
  {
    if i < n {
      WorkersBelowPrefix(self, i, n - 1);
    }
  }

  /** For the coordinator (id 0) the workers below `i` are all of ids
      1..i-1. */
  lemma {:induction false} WorkersBelowCoordinator(i: int)
    requires 1 <= i
    ensures |WorkersBelow(0, i)| == i - 1
    decreases i
  {
    if i > 1 {
      WorkersBelowCoordinator(i - 1);
    }
  }

  /** `m` is the first whole message of channel `orig`, and `cur` is what
      follows it. */
  ghost predicate TookFirst(orig: seq<Frame>, cur: seq<Frame>, m: Message)
  {
    && FirstWanted(orig, AnyMessage) >= 0
    && m == orig[FirstWanted(orig, AnyMessage)].message
    && cur == orig[FirstWanted(orig, AnyMessage) + 1..]
  }

  /** Worker `i` comes right after the workers below it. */
  lemma WorkerAt(self: int, i: int, n: int)
    requires 1 <= i < n && i != self
    ensures |WorkersBelow(self, i)| < |WorkersBelow(self, n)|
    ensures WorkersBelow(self, n)[|WorkersBelow(self, i)|] == i
    ensures WorkersBelow(self, n)[..|WorkersBelow(self, i)|] == WorkersBelow(self, i)
  {
    WorkersBelowPrefix(self, i + 1, n);
    assert WorkersBelow(self, i + 1) == WorkersBelow(self, i) + [i];
  }

  /** State after taking one message from each worker below `i`: the
      messages are those workers' first whole frames, in ascending id order,
      and the channels of id 0 and of ids from `i` on are untouched. */
  ghost predicate DrainedBelow(orig: seq<seq<Frame>>, cur: seq<seq<Frame>>, self: int, n: int, i: int, msgs: seq<Message>)
  {
    && 0 <= self < n && |orig| == n - 1 && |cur| == n - 1 && 1 <= i <= n
    && |msgs| == |WorkersBelow(self, i)|
    && (forall j :: 0 <= j < |msgs| ==>
          TookFirst(orig[GetIndex(WorkersBelow(self, i)[j], self)], cur[GetIndex(WorkersBelow(self, i)[j], self)], msgs[j]))
    && (forall x :: 0 <= x < n && x != self && (x == 0 || x >= i) ==>
          cur[GetIndex(x, self)] == orig[GetIndex(x, self)])
  }

  /** Outcome of receiving once from every worker: each worker in ascending
      id order gave its first whole message, until (when `stalled`) the first
      worker with none, whose channel was drained; the channel from id 0, and
      after a stall those of the later workers, are untouched. */
  ghost predicate Drained(orig: seq<seq<Frame>>, cur: seq<seq<Frame>>, self: int, n: int, stalled: bool, msgs: seq<Message>)
  {
    && 0 <= self < n && |orig| == n - 1 && |cur| == n - 1
    && var w := WorkersBelow(self, n);
    && |msgs| <= |w|
    && stalled == (|msgs| < |w|)
    && (forall j :: 0 <= j < |msgs| ==>
          TookFirst(orig[GetIndex(w[j], self)], cur[GetIndex(w[j], self)], msgs[j]))
    && (stalled ==>
          && FirstWanted(orig[GetIndex(w[|msgs|], self)], AnyMessage) < 0
          && cur[GetIndex(w[|msgs|], self)] == [])
    && (forall x ::
          (0 <= x < n && x != self && (x == 0 || (stalled && x > w[|msgs|]))) ==>
          cur[GetIndex(x, self)] == orig[GetIndex(x, self)])
  }

  lemma DrainSkipSelf(orig: seq<seq<Frame>>, cur: seq<seq<Frame>>, self: int, n: int, msgs: seq<Message>)
    requires 1 <= self < n && DrainedBelow(orig, cur, self, n, self, msgs)
    ensures DrainedBelow(orig, cur, self, n, self + 1, msgs)
  {
    assert WorkersBelow(self, self + 1) == WorkersBelow(self, self);
  }

  lemma DrainStep(orig: seq<seq<Frame>>, pre: seq<seq<Frame>>, cur: seq<seq<Frame>>, self: int, n: int, i: int,
                  msgs: seq<Message>, msg: Message)
    requires DrainedBelow(orig, pre, self, n, i, msgs) && i < n && i != self
    requires var k := GetIndex(i, self);
      && 0 <= k < |pre| && |cur| == |pre|
      && TookFirst(pre[k], cur[k], msg)
      && cur == pre[k := cur[k]]
    ensures DrainedBelow(orig, cur, self, n, i + 1, msgs + [msg])
  {
    SlotsArePeers(n, self);
    var w := WorkersBelow(self, i);
    assert WorkersBelow(self, i + 1) == w + [i];
    var k := GetIndex(i, self);
    forall j | 0 <= j < |w| ensures GetIndex(w[j], self) != k {
    }
  }

  lemma DrainStall(orig: seq<seq<Frame>>, pre: seq<seq<Frame>>, cur: seq<seq<Frame>>, self: int, n: int, i: int,
                   msgs: seq<Message>)
    requires DrainedBelow(orig, pre, self, n, i, msgs) && i < n && i != self
    requires var k := GetIndex(i, self);
      && 0 <= k < |pre|
      && FirstWanted(pre[k], AnyMessage) < 0
      && cur == pre[k := []]
    ensures Drained(orig, cur, self, n, true, msgs)
  {
    SlotsArePeers(n, self);
    WorkerAt(self, i, n);
    var w := WorkersBelow(self, i);
    var k := GetIndex(i, self);
    forall j | 0 <= j < |w| ensures GetIndex(w[j], self) != k {
    }
  }

  lemma DrainDone(orig: seq<seq<Frame>>, cur: seq<seq<Frame>>, self: int, n: int, msgs: seq<Message>)
    requires DrainedBelow(orig, cur, self, n, n, msgs)
    ensures Drained(orig, cur, self, n, false, msgs)
  {
  }

  class Pipes {
    const totalIds: nat
    const currentId: nat
    var lastMsgFrom: int
    /** Slot k: frames from PeerOf(k, currentId) not read yet. */
    var incoming: seq<seq<Frame>>
    /** Every successful write, oldest first. */
    var sent: seq<Sent>
    /** Writes the OS still refuses before the next one goes through. */
    var writeFailures: nat

    ghost predicate Valid()
      reads this
    {
      currentId < totalIds && |incoming| == totalIds - 1
    }

    predicate IsPeer(p: int)
    {
      0 <= p < totalIds && p != currentId
    }

    constructor (totalIds: nat, currentId: nat, incoming: seq<seq<Frame>>, writeFailures: nat, lastMsgFrom: int)
      requires currentId < totalIds && |incoming| == totalIds - 1
      ensures Valid()
      ensures this.totalIds == totalIds && this.currentId == currentId
      ensures this.incoming == incoming && this.writeFailures == writeFailures
      ensures this.lastMsgFrom == lastMsgFrom && sent == []
    {
      this.totalIds := totalIds;
      this.currentId := currentId;
      this.incoming := incoming;
      this.writeFailures := writeFailures;
      this.lastMsgFrom := lastMsgFrom;
      sent := [];
    }

    /** Writes header and payload as one write into the channel to `dst`. */
    method Send(dst: int, m: Message) returns (r: int)
      requires Valid() && 0 <= dst < totalIds
      modifies this
      ensures Valid() && incoming == old(incoming) && lastMsgFrom == old(lastMsgFrom)
      ensures dst == currentId ==>
                r == -1 && sent == old(sent) && writeFailures == old(writeFailures)
      ensures dst != currentId && old(writeFailures) > 0 ==>
                r == -2 && sent == old(sent) && writeFailures == old(writeFailures) - 1
      ensures dst != currentId && old(writeFailures) == 0 ==>
                r == 0 && sent == old(sent) + [Sent(GetIndex(dst, currentId), m)] && writeFailures == 0
    {
      if dst == currentId {
        return -1;
      }
      if writeFailures > 0 {
        writeFailures := writeFailures - 1;
        return -2;
      }
      sent := sent + [Sent(GetIndex(dst, currentId), m)];
      return 0;
    }

    /** The retry idiom `while (send(...) < 0);` for a send that must go
        through: it spins until the OS accepts the write. */
    method SendUntilWritten(dst: int, m: Message)
      requires Valid() && IsPeer(dst)
      modifies this
      ensures Valid() && incoming == old(incoming) && lastMsgFrom == old(lastMsgFrom)
      ensures sent == old(sent) + [Sent(GetIndex(dst, currentId), m)] && writeFailures == 0
    {
      var r := Send(dst, m);
      while r < 0
        invariant Valid() && incoming == old(incoming) && lastMsgFrom == old(lastMsgFrom)
        invariant r < 0 ==> sent == old(sent)
        invariant r == 0 ==> sent == old(sent) + [Sent(GetIndex(dst, currentId), m)] && writeFailures == 0
        invariant r == 0 || r == -2
        decreases writeFailures, if r < 0 then 1 else 0
      {
        r := Send(dst, m);
      }
    }

    /** Sends `m` to every other process, lowest id first, retrying each
        until it goes through. */
    method SendMulticast(m: Message) returns (r: int)
      requires Valid()
      modifies this
      ensures Valid() && incoming == old(incoming) && lastMsgFrom == old(lastMsgFrom)
      ensures r == 0
      ensures sent == old(sent) + Fanout(m, currentId, totalIds, 0)
      ensures writeFailures == if totalIds >= 2 then 0 else old(writeFailures)
    {
      var i := 0;
      while i < totalIds
        invariant 0 <= i <= totalIds
        invariant Valid() && incoming == old(incoming) && lastMsgFrom == old(lastMsgFrom)
        invariant old(sent) + Fanout(m, currentId, totalIds, 0) == sent + Fanout(m, currentId, totalIds, i)
        invariant writeFailures == if i >= 2 || (i == 1 && currentId != 0) then 0 else old(writeFailures)
      {
        if i == currentId {
          i := i + 1;
          continue;
        }
        SendUntilWritten(i, m);
        i := i + 1;
      }
      return 0;
    }

    /** Reads one message from `from`: the header, then the payload it
        announces. -1 for oneself, -2 when no header is there, -3 when the
        payload read fails after the header was consumed. */
    method Receive(from: int, buffer: Message) returns (r: int, msg: Message)
      requires Valid() && 0 <= from < totalIds
      modifies this
      ensures Valid() && sent == old(sent) && writeFailures == old(writeFailures)
      ensures lastMsgFrom == old(lastMsgFrom)
      ensures from == currentId ==> r == -1 && msg == buffer && incoming == old(incoming)
      ensures from != currentId ==>
                var k := GetIndex(from, currentId);
                var ch := old(incoming)[k];
                && (ch == [] ==> r == -2 && msg == buffer && incoming == old(incoming))
                && (ch != [] && ch[0].payloadReadable ==>
                      r == 0 && msg == ch[0].message && incoming == old(incoming)[k := ch[1..]])
                && (ch != [] && !ch[0].payloadReadable ==>
                      && r == -3 && msg == Message(ch[0].message.header, buffer.payload)
                      && incoming == old(incoming)[k := ch[1..]])
    {
      if from == currentId {
        return -1, buffer;
      }
      var k := GetIndex(from, currentId);
      if incoming[k] == [] {
        return -2, buffer;
      }
      var f := incoming[k][0];
      incoming := incoming[k := incoming[k][1..]];
      if !f.payloadReadable {
        return -3, Message(f.message.header, buffer.payload);
      }
      return 0, f.message;
    }

    /** Tries every other id in ascending order; on the first successful
        receive records the sender in `lastMsgFrom` and returns 0, else -1. */
    method ReceiveAny(buffer: Message) returns (r: int, msg: Message)
      requires Valid()
      modifies this
      ensures Valid() && sent == old(sent) && writeFailures == old(writeFailures)
      ensures var p := Poll(old(incoming), currentId, totalIds, 0, buffer);
        && r == p.status && msg == p.msg && incoming == p.incoming
        && lastMsgFrom == (if p.status == 0 then p.from else old(lastMsgFrom))
    {
      var i := 0;
      msg := buffer;
      while i < totalIds
        invariant 0 <= i <= totalIds
        invariant Valid() && sent == old(sent) && writeFailures == old(writeFailures)
        invariant lastMsgFrom == old(lastMsgFrom)
        invariant Poll(incoming, currentId, totalIds, i, msg) == Poll(old(incoming), currentId, totalIds, 0, buffer)
      {
        if i == currentId {
          i := i + 1;
          continue;
        }
        ghost var inc0, msg0 := incoming, msg;
        var st;
        st, msg := Receive(i, msg);
        ghost var rd := ReadFrame(inc0[GetIndex(i, currentId)], msg0);
        assert st == rd.status && msg == rd.msg && incoming == inc0[GetIndex(i, currentId) := rd.rest];
        if st == 0 {
          lastMsgFrom := i;
          return 0, msg;
        }
        i := i + 1;
      }
      return -1, msg;
    }

    /** The busy wait `while (receive_any(...));`. Stalls, as the source
        would spin forever, once no channel holds a frame. Every frame it
        reads besides the message it returns is a header without its
        payload, so a stall means no whole message was left anywhere. */
    method AwaitAny(buffer: Message) returns (stalled: bool, msg: Message)
      requires Valid()
      modifies this
      ensures Valid() && sent == old(sent) && writeFailures == old(writeFailures)
      ensures Took(old(incoming), incoming, currentId, totalIds, if stalled then [] else [Got(lastMsgFrom, msg)])
      ensures stalled ==> TotalFrames(incoming) == 0 && lastMsgFrom == old(lastMsgFrom)
      ensures !stalled ==> IsPeer(lastMsgFrom) && TotalFrames(incoming) < TotalFrames(old(incoming))
      ensures !stalled ==> LastTaken(incoming, old(incoming), GetIndex(lastMsgFrom, currentId), msg)
    {
      var r := -1;
      msg := buffer;
      SuffixesReflexive(incoming);
      TookNothing(incoming, currentId, totalIds);
      while r != 0
        invariant Valid() && sent == old(sent) && writeFailures == old(writeFailures)
        invariant Suffixes(incoming, old(incoming))
        invariant Took(old(incoming), incoming, currentId, totalIds, if r == 0 then [Got(lastMsgFrom, msg)] else [])
        invariant r != 0 ==> lastMsgFrom == old(lastMsgFrom)
        invariant r == 0 ==> IsPeer(lastMsgFrom) && TotalFrames(incoming) < TotalFrames(old(incoming))
        invariant r == 0 ==> LastTaken(incoming, old(incoming), GetIndex(lastMsgFrom, currentId), msg)
        decreases TotalFrames(incoming), if r != 0 then 1 else 0
      {
        if TotalFrames(incoming) == 0 {
          return true, msg;
        }
        ghost var before := incoming;
        PassFromSuffix(incoming, old(incoming), currentId, totalIds, msg);
        TookPass(incoming, currentId, totalIds, msg);
        r, msg := ReceiveAny(msg);
        ghost var pass: seq<Got> := if r == 0 then [Got(lastMsgFrom, msg)] else [];
        TookMore(old(incoming), before, incoming, currentId, totalIds, [], pass);
        assert [] + pass == pass;
      }
      return false, msg;
    }

    /** The busy waits `while (receive(from) < 0);` (any message) and
        `while (receive(from) < 0 || type != ACK);` (an ACK): consumes frames
        from `from` up to and including the first one it stops at. Stalls, as
        the source would spin forever, when there is none. */
    method AwaitFrom(from: int, want: Wanted, buffer: Message) returns (stalled: bool, msg: Message)
      requires Valid() && IsPeer(from)
      modifies this
      ensures Valid() && sent == old(sent) && writeFailures == old(writeFailures)
      ensures lastMsgFrom == old(lastMsgFrom)
      ensures var k := GetIndex(from, currentId);
              var ch := old(incoming)[k];
              var i := FirstWanted(ch, want);
              && stalled == (i < 0)
              && (i < 0 ==> incoming == old(incoming)[k := []])
              && (i >= 0 ==> msg == ch[i].message && incoming == old(incoming)[k := ch[i + 1..]])
    {
      SlotsArePeers(totalIds, currentId);
      var k := GetIndex(from, currentId);
      ghost var ch := incoming[k];
      ghost var d := 0;
      msg := buffer;
      while true
        invariant 0 <= d <= |ch|
        invariant Valid() && sent == old(sent) && writeFailures == old(writeFailures)
        invariant lastMsgFrom == old(lastMsgFrom)
        invariant incoming == old(incoming)[k := ch[d..]]
        invariant forall j :: 0 <= j < d ==> !Wants(want, ch[j])
        decreases |ch| - d
      {
        if incoming[k] == [] {
          assert ch[d..] == [];
          return true, msg;
        }
        var r;
        r, msg := Receive(from, msg);
        assert ch[d..][1..] == ch[d + 1..];
        d := d + 1;
        if r == 0 && (want == AnyMessage || msg.header.msgType == Ack) {
          return false, msg;
        }
      }
    }

    /** One round of ReceiveFromWorkers: the first whole message from worker
        `i`, or its channel drained when there is none. */
    method TakeFromWorker(i: int, buffer: Message, ghost orig: seq<seq<Frame>>, ghost msgs: seq<Message>)
      returns (stalled: bool, msg: Message)
      requires Valid() && IsPeer(i) && 1 <= i
      requires DrainedBelow(orig, incoming, currentId, totalIds, i, msgs)
      modifies this
      ensures Valid() && sent == old(sent) && writeFailures == old(writeFailures)
      ensures lastMsgFrom == old(lastMsgFrom)
      ensures stalled ==> Drained(orig, incoming, currentId, totalIds, true, msgs)
      ensures !stalled ==> DrainedBelow(orig, incoming, currentId, totalIds, i + 1, msgs + [msg])
    {
      ghost var pre := incoming;
      stalled, msg := AwaitFrom(i, AnyMessage, buffer);
      if stalled {
        DrainStall(orig, pre, incoming, currentId, totalIds, i, msgs);
      } else {
        DrainStep(orig, pre, incoming, currentId, totalIds, i, msgs, msg);
      }
    }

    /** Consumes one message from every worker 1..N-1 other than oneself,
        lowest id first, returning them in that order. Never reads the
        channel from id 0. */
    method ReceiveFromWorkers(buffer: Message) returns (stalled: bool, msgs: seq<Message>)
      requires Valid()
      modifies this
      ensures Valid() && sent == old(sent) && writeFailures == old(writeFailures)
      ensures lastMsgFrom == old(lastMsgFrom)
      ensures Drained(old(incoming), incoming, currentId, totalIds, stalled, msgs)
    {
      msgs := [];
      var i := 1;
      var msg := buffer;
      while i < totalIds
        invariant Valid() && sent == old(sent) && writeFailures == old(writeFailures)
        invariant lastMsgFrom == old(lastMsgFrom)
        invariant DrainedBelow(old(incoming), incoming, currentId, totalIds, i, msgs)
      {
        if i == currentId {
          DrainSkipSelf(old(incoming), incoming, currentId, totalIds, msgs);
          i := i + 1;
          continue;
        }
        var st;
        st, msg := TakeFromWorker(i, msg, old(incoming), msgs);
        if st {
          return true, msgs;
        }
        msgs := msgs + [msg];
        i := i + 1;
      }
      DrainDone(old(incoming), incoming, currentId, totalIds, msgs);
      return false, msgs;
    }
  }
}
