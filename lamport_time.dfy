/** The pending-request queue of the mutual-exclusion protocol and the
    process's Lamport clock.

    The queue holds (timestamp, process id) entries ordered by timestamp and,
    on equal timestamps, by process id. The source keeps them in a doubly
    linked list with head and tail links; here the list is the sequence
    `entries` (head first) and the tail link is `tail`, which, as in the
    source, is left pointing at the removed node when the last entry is taken
    out. */
module LamportTime {
  import opened Wire

  /** A request: `key` is the timestamp, `value` the requesting process. */
  datatype Entry = Entry(key: int, value: int)

  /** Reference order: lexicographic on (key, value). */
  predicate Before(a: Entry, b: Entry)
  {
    a.key < b.key || (a.key == b.key && a.value < b.value)
  }

  /** Three-way comparison of two entries. */
  function Cmp(a: Entry, b: Entry): (r: int)
    ensures r == -1 || r == 0 || r == 1
    ensures r < 0 <==> Before(a, b)
    ensures r > 0 <==> Before(b, a)
    ensures r == 0 <==> a == b
  {
    if a.key < b.key then -1
    else if a.key > b.key then 1
    else if a.value < b.value then -1
    else if a.value > b.value then 1
    else 0
  }

  lemma CmpAntisymmetric(a: Entry, b: Entry)
    ensures Cmp(a, b) == -Cmp(b, a)
  {
  }

  /** Strictly ascending, hence free of duplicates. */
  ghost predicate Sorted(s: seq<Entry>)
  {
    forall i, j :: 0 <= i < j < |s| ==> Before(s[i], s[j])
  }

  /** Reference insertion into an ascending sequence. */
  function InsertSorted(s: seq<Entry>, x: Entry): (r: seq<Entry>)
    ensures |r| == |s| + 1
    ensures multiset(r) == multiset(s) + multiset{x}
  {
    if s == [] then [x]
    else if Before(x, s[0]) then [x] + s
    else
      assert s == [s[0]] + s[1..];
      [s[0]] + InsertSorted(s[1..], x)
  }

  /** The reference insertion adds `x` and keeps every other entry. */
  lemma InsertSortedMembers(s: seq<Entry>, x: Entry)
    ensures forall e :: e in InsertSorted(s, x) <==> e in s || e == x
  {
    var r := InsertSorted(s, x);
    forall e ensures e in r <==> e in s || e == x {
      calc {
        e in r;
        e in multiset(r);
        e in multiset(s) + multiset{x};
        e in s || e == x;
      }
    }
  }

  /** Inserting at a point that splits the entries into those below and those
      above the new one is the reference insertion. */
  lemma {:induction false} InsertSortedSplit(s: seq<Entry>, x: Entry, p: nat)
    requires Sorted(s)
    requires p <= |s|
    requires forall i :: 0 <= i < p ==> Before(s[i], x)
    requires forall i :: p <= i < |s| ==> Before(x, s[i])
    ensures InsertSorted(s, x) == s[..p] + [x] + s[p..]
  {
    if s == [] {
    } else if p == 0 {
      assert Before(x, s[0]);
    } else {
      assert !Before(x, s[0]);
      InsertSortedSplit(s[1..], x, p - 1);
      assert s[1..][..p - 1] == s[1..p];
      assert s[1..][p - 1..] == s[p..];
      assert s[..p] == [s[0]] + s[1..p];
    }
  }

  lemma {:induction false} InsertSortedKeepsOrder(s: seq<Entry>, x: Entry)
    requires Sorted(s)
    requires x !in s
    ensures Sorted(InsertSorted(s, x))
  {
    if s == [] {
    } else if Before(x, s[0]) {
      var r := [x] + s;
      forall i, j | 0 <= i < j < |r| ensures Before(r[i], r[j]) {
        if i > 0 {
          assert r[i] == s[i - 1] && r[j] == s[j - 1];
        } else {
          assert r[j] == s[j - 1];
        }
      }
    } else {
      assert s[0] != x;
      assert x !in s[1..];
      InsertSortedKeepsOrder(s[1..], x);
      var t := InsertSorted(s[1..], x);
      var r := [s[0]] + t;
      assert Before(s[0], x);
      forall e | e in t ensures Before(s[0], e) {
        assert e in multiset(t);
        assert e in multiset(s[1..]) + multiset{x};
        if e != x {
          assert e in s[1..];
          var k :| 0 <= k < |s[1..]| && s[1..][k] == e;
          assert s[k + 1] == e;
        }
      }
      forall i, j | 0 <= i < j < |r| ensures Before(r[i], r[j]) {
        if i > 0 {
          assert r[i] == t[i - 1] && r[j] == t[j - 1];
        } else {
          assert r[j] == t[j - 1];
          assert t[j - 1] in t;
        }
      }
    }
  }

  /** Linking `x` in between its two strict neighbours at `p` is the
      reference insertion and keeps the entries ascending. */
  lemma InsertAt(s: seq<Entry>, x: Entry, p: nat)
    requires Sorted(s) && p <= |s|
    requires p > 0 ==> Before(s[p - 1], x)
    requires p < |s| ==> Before(x, s[p])
    ensures InsertSorted(s, x) == s[..p] + [x] + s[p..]
    ensures Sorted(InsertSorted(s, x)) && Sorted(s[..p] + [x] + s[p..])
  {
    NeighboursSplit(s, x, p);
    InsertSortedSplit(s, x, p);
    SortedSplice(s, x, p);
  }

  /** The list from head to tail is ascending and the tail link refers
      to its last node (when there is one). */
  ghost predicate Linked(s: seq<Entry>, tail: Option<Entry>)
  {
    Sorted(s) && (s != [] ==> tail == Some(s[|s| - 1]))
  }

  /** Linking `x` in between its neighbours at `p`, and moving the tail to it
      when it goes at the end, keeps the list linked and is the reference
      insertion. */
  lemma InsertLinks(s: seq<Entry>, tail: Option<Entry>, x: Entry, p: nat)
    requires Linked(s, tail) && p <= |s|
    requires p > 0 ==> Before(s[p - 1], x)
    requires p < |s| ==> Before(x, s[p])
    ensures InsertSorted(s, x) == s[..p] + [x] + s[p..]
    ensures Linked(s[..p] + [x] + s[p..], if p == |s| then Some(x) else tail)
  {
    InsertAt(s, x, p);
    SpliceLast(s, x, p);
  }

  /** The last entry after a splice: `x` when it went at the end. */
  lemma SpliceLast(s: seq<Entry>, x: Entry, p: nat)
    requires p <= |s|
    ensures var r := s[..p] + [x] + s[p..];
      r[|r| - 1] == if p == |s| then x else s[|s| - 1]
  {
    if p < |s| {
      assert (s[..p] + [x] + s[p..])[|s|] == s[p..][|s| - p - 1];
    }
  }

  /** Between its two strict neighbours, `x` is above every entry before
      `p` and below every entry from `p` on. */
  lemma NeighboursSplit(s: seq<Entry>, x: Entry, p: nat)
    requires Sorted(s) && p <= |s|
    requires p > 0 ==> Before(s[p - 1], x)
    requires p < |s| ==> Before(x, s[p])
    ensures forall i :: 0 <= i < p ==> Before(s[i], x)
    ensures forall i :: p <= i < |s| ==> Before(x, s[i])
  {
    forall i | 0 <= i < p - 1 ensures Before(s[i], x) {
      assert Before(s[i], s[p - 1]);
    }
    forall i | p < i < |s| ensures Before(x, s[i]) {
      assert Before(s[p], s[i]);
    }
  }

  /** Splicing `x` in at a point that splits the entries into those below
      and those above it keeps them ascending. */
  lemma SortedSplice(s: seq<Entry>, x: Entry, p: nat)
    requires Sorted(s) && p <= |s|
    requires forall i :: 0 <= i < p ==> Before(s[i], x)
    requires forall i :: p <= i < |s| ==> Before(x, s[i])
    ensures Sorted(s[..p] + [x] + s[p..])
  {
    var r := s[..p] + [x] + s[p..];
    assert forall i :: 0 <= i < p ==> r[i] == s[i];
    assert forall i :: p < i < |r| ==> r[i] == s[i - 1];
    forall i, j | 0 <= i < j < |r| ensures Before(r[i], r[j]) {
      if j < p {
        assert Before(s[i], s[j]);
      } else if i > p {
        assert Before(s[i - 1], s[j - 1]);
      } else if i < p && j > p {
        assert Before(s[i], s[j - 1]);
      }
    }
  }

  /** The head of an ascending sequence is its least entry. */
  lemma HeadIsLeast(s: seq<Entry>, e: Entry)
    requires Sorted(s)
    requires e in s
    ensures e == s[0] || Before(s[0], e)
  {
    var k :| 0 <= k < |s| && s[k] == e;
    if k > 0 {
      assert Before(s[0], s[k]);
    }
  }

  lemma SameEntriesBothEmpty(a: seq<Entry>, b: seq<Entry>)
    requires forall e :: e in a <==> e in b
    ensures a == [] <==> b == []
  {
    if a != [] {
      assert a[0] in a;
    }
    if b != [] {
      assert b[0] in b;
    }
  }

  /** Two ascending sequences that hold the same entries are the same
      sequence: processes that know the same requests order them the same
      way. */
  lemma {:induction false} SameRequestsSameOrder(a: seq<Entry>, b: seq<Entry>)
    requires Sorted(a) && Sorted(b)
    requires forall e :: e in a <==> e in b
    ensures a == b
  {
    SameEntriesBothEmpty(a, b);
    if a != [] {
      assert a[0] in b;
      assert b[0] in a;
      HeadIsLeast(b, a[0]);
      HeadIsLeast(a, b[0]);
      assert a[0] == b[0];
      forall e ensures e in a[1..] <==> e in b[1..] {
        if e in a[1..] {
          var k :| 0 <= k < |a[1..]| && a[1..][k] == e;
          assert a[k + 1] == e && Before(a[0], e);
          assert e in b;
          var m :| 0 <= m < |b| && b[m] == e;
          assert m > 0 && b[1..][m - 1] == e;
        }
        if e in b[1..] {
          var k :| 0 <= k < |b[1..]| && b[1..][k] == e;
          assert b[k + 1] == e && Before(b[0], e);
          assert e in a;
          var m :| 0 <= m < |a| && a[m] == e;
          assert m > 0 && a[1..][m - 1] == e;
        }
      }
      SameRequestsSameOrder(a[1..], b[1..]);
      assert a == [a[0]] + a[1..] && b == [b[0]] + b[1..];
    }
  }

  class Queue {
    /** The list from head to tail. */
    var entries: seq<Entry>
    /** The node the tail link refers to; not cleared when the list empties. */
    var tail: Option<Entry>

    ghost predicate Valid()
      reads this
    {
      Linked(entries, tail)
    }

    constructor ()
      ensures Valid() && entries == [] && tail == None
    {
      entries := [];
      tail := None;
    }

    /** Links a new node for (key, value) into its place. The pair must not
        be in the list already: the in-between walk only stops between two
        strict neighbours. */
    method Insert(key: int, value: int)
      requires Valid()
      requires Entry(key, value) !in entries
      modifies this
      ensures Valid()
      ensures entries == InsertSorted(old(entries), Entry(key, value))
    {
      var node := Entry(key, value);
      var p := Place(node);
      InsertLinks(entries, tail, node, p);
      if p == |entries| {
        tail := Some(node);
      }
      entries := entries[..p] + [node] + entries[p..];
    }

    /** Where a new node goes: the position of the node it is linked in
        before, found as the source does (at the head, after the tail, or by
        walking to the pair of strict neighbours). */
    method Place(node: Entry) returns (p: nat)
      requires Valid() && node !in entries
      ensures p <= |entries|
      ensures p > 0 ==> Before(entries[p - 1], node)
      ensures p < |entries| ==> Before(node, entries[p])
    {
      if entries == [] {
        p := 0;
      } else if Cmp(node, entries[0]) < 0 {
        p := 0;
      } else if Cmp(node, tail.value) > 0 {
        p := |entries|;
      } else {
        assert entries[0] in entries && entries[|entries| - 1] in entries;
        // `left` is the position of tmp_left; tmp_right is the next node.
        var left := 0;
        while !(Cmp(node, entries[left]) > 0 && Cmp(node, entries[left + 1]) < 0)
          invariant 0 <= left < |entries| - 1
          invariant Before(entries[left], node)
          decreases |entries| - left
        {
          assert entries[left + 1] in entries;
          left := left + 1;
        }
        p := left + 1;
      }
    }

    /** Value of the head entry, which is the least entry; -1 when empty. */
    method Peek() returns (v: int)
      requires Valid()
      ensures entries == [] ==> v == -1
      ensures entries != [] ==> v == entries[0].value
      ensures entries != [] ==> forall e :: e in entries ==> e == entries[0] || Before(entries[0], e)
    {
      if entries == [] {
        return -1;
      }
      v := entries[0].value;
    }

    /** Unlinks the head and returns its value. Returns -1 and changes
        nothing when the list is empty or the head's value is negative. */
    method Get() returns (v: int)
      requires Valid()
      modifies this
      ensures Valid() && tail == old(tail)
      ensures old(entries) == [] || old(entries)[0].value < 0 ==>
                v == -1 && entries == old(entries)
      ensures old(entries) != [] && old(entries)[0].value >= 0 ==>
                v == old(entries)[0].value && entries == old(entries)[1..]
    {
      v := Peek();
      if v < 0 {
        return -1;
      }
      entries := entries[1..];
    }
  }

  /** The process's logical clock. */
  class Clock {
    var time: nat

    constructor ()
      ensures time == 0
    {
      time := 0;
    }

    /** A local or send event: advance by one and return the new value. */
    method Increment() returns (t: nat)
      modifies this
      ensures time == old(time) + 1 && t == time
    {
      time := time + 1;
      t := time;
    }

    /** Raise the clock to `newTime` if that is later; never lowers it. */
    method Set(newTime: int) returns (t: nat)
      modifies this
      ensures time == Max(old(time), newTime) && t == time
    {
      if time < newTime {
        time := newTime;
      }
      t := time;
    }

    /** Receive rule of this program: max of the clock and the stamp, with
        no extra increment. */
    method SetFromMsg(m: Message) returns (t: nat)
      modifies this
      ensures time == Max(old(time), m.header.localTime) && t == time
    {
      t := Set(m.header.localTime);
    }

    /** Receive rule of the banking program: raise to the stamp, then count
        the receive as an event of its own. */
    method SetFromMsgAndTick(m: Message) returns (t: nat)
      modifies this
      ensures time == Max(old(time), m.header.localTime) + 1 && t == time
    {
      var _ := Set(m.header.localTime);
      t := Increment();
    }

    method Now() returns (t: nat)
      ensures t == time
    {
      t := time;
    }

    /** Applies the receive rule to the stamps of `msgs`, first to last. */
    method ObserveAll(msgs: seq<Message>, tick: bool)
      modifies this
      ensures time == Observed(old(time), msgs, tick)
    {
      var i := 0;
      while i < |msgs|
        invariant 0 <= i <= |msgs|
        invariant Observed(time, msgs[i..], tick) == Observed(old(time), msgs, tick)
      {
        assert msgs[i..][1..] == msgs[i + 1..];
        if tick {
          var _ := SetFromMsgAndTick(msgs[i]);
        } else {
          var _ := SetFromMsg(msgs[i]);
        }
        i := i + 1;
      }
      assert msgs[i..] == [];
    }
  }

  /** The clock after receiving `msgs` in order, starting from `t`: each
      receive raises it to the stamp, and with `tick` also advances it. */
  function Observed(t: int, msgs: seq<Message>, tick: bool): int
    decreases |msgs|
  {
    if msgs == [] then t
    else Observed(Max(t, msgs[0].header.localTime) + (if tick then 1 else 0), msgs[1..], tick)
  }

  /** After the receives the clock is past every stamp it saw (strictly so
      with `tick`) and was never lowered; with `tick` it advanced at least
      once per message, and without it it is exactly the largest of the
      start and the stamps. */
  lemma {:induction false} ObservedBounds(t: int, msgs: seq<Message>, tick: bool)
    ensures Observed(t, msgs, tick) >= t + (if tick then |msgs| else 0)
    ensures forall j :: 0 <= j < |msgs| ==>
              msgs[j].header.localTime + (if tick then 1 else 0) <= Observed(t, msgs, tick)
    ensures !tick ==>
              Observed(t, msgs, tick) == t
              || exists j :: 0 <= j < |msgs| && Observed(t, msgs, tick) == msgs[j].header.localTime
    decreases |msgs|
  {
    if msgs != [] {
      var t' := Max(t, msgs[0].header.localTime) + (if tick then 1 else 0);
      ObservedBounds(t', msgs[1..], tick);
      forall j | 0 <= j < |msgs|
        ensures msgs[j].header.localTime + (if tick then 1 else 0) <= Observed(t, msgs, tick)
      {
        if j > 0 {
          assert msgs[j] == msgs[1..][j - 1];
        }
      }
      if !tick && Observed(t, msgs, tick) != t {
        if Observed(t', msgs[1..], tick) == t' {
          assert Observed(t, msgs, tick) == msgs[0].header.localTime;
        } else {
          var j :| 0 <= j < |msgs[1..]| && Observed(t', msgs[1..], tick) == msgs[1..][j].header.localTime;
          assert msgs[j + 1] == msgs[1..][j];
        }
      }
    }
  }

  /** Receiving never lowers the clock. */
  lemma ObservedAtLeast(t: int, msgs: seq<Message>, tick: bool)
    ensures Observed(t, msgs, tick) >= t
  {
    ObservedBounds(t, msgs, tick);
  }

  /** One more receive after `msgs` applies the rule once more to the clock
      they left: the clock can be kept message by message. */
  lemma {:induction false} ObservedSnoc(t: int, msgs: seq<Message>, m: Message, tick: bool)
    ensures Observed(t, msgs + [m], tick) == Max(Observed(t, msgs, tick), m.header.localTime) + (if tick then 1 else 0)
    decreases |msgs|
  {
    if msgs == [] {
      assert msgs + [m] == [m] && [m][1..] == [];
    } else {
      assert (msgs + [m])[0] == msgs[0] && (msgs + [m])[1..] == msgs[1..] + [m];
      ObservedSnoc(Max(t, msgs[0].header.localTime) + (if tick then 1 else 0), msgs[1..], m, tick);
    }
  }
}
