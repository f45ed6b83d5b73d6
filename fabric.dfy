/** The flattened descriptor table that the coordinating process fills
    before forking, and the row each process keeps of it.

    The table has 2(N-1) entries per process: for each peer, in slot order,
    the read end and then the write end of the pipes that connect the two.
    A descriptor is recorded by the pipe it belongs to (pipes are numbered
    in the order they are created) and which of its two ends it is; the
    numbers the operating system hands out are not modelled. */
module Fabric {
  import opened Wire
  import opened Ipc

  datatype Descriptor = Unset | ReadEnd(pipe: int) | WriteEnd(pipe: int)

  /** The slot arithmetic as the table code spells it: the slot process `a`
      gives peer `b`. */
  function PairSlot(a: int, b: int): int
  {
    if a > b then b else b - 1
  }

  /** Entries per process row: two ends for each of the N-1 peers. */
  function Stride(n: int): int
  {
    (n - 1) * 2
  }

  function TableSize(n: int): int
  {
    n * Stride(n)
  }

  /** Where the end of kind `t` that `owner` uses for `peer` sits. */
  function Slot(n: int, owner: int, peer: int, t: int): int
  {
    owner * Stride(n) + PairSlot(owner, peer) * 2 + t
  }

  /** The pipe created for the ordered pair (a, b): read by `a`, written by
      `b`. Pipes are created row by row, skipping a == b. */
  function PipeNumber(n: int, a: int, b: int): int
  {
    a * (n - 1) + GetIndex(b, a)
  }

  /** The table's slot for a peer is the one the send and receive layer
      computes. */
  lemma PairSlotIsGetIndex(a: int, b: int)
    requires a != b
    ensures PairSlot(a, b) == GetIndex(b, a)
  {
  }

  lemma MulMonotone(x: int, y: int, m: int)
    requires 0 <= x <= y && 0 <= m
    ensures x * m <= y * m
  {
  }

  lemma MulSucc(x: int, m: int)
    ensures (x + 1) * m == x * m + m
  {
  }

  /** Quotient and remainder are unique. */
  lemma DecomposeUnique(q1: int, r1: int, q2: int, r2: int, m: int)
    requires 0 <= q1 && 0 <= q2 && 0 <= r1 < m && 0 <= r2 < m
    requires q1 * m + r1 == q2 * m + r2
    ensures q1 == q2 && r1 == r2
  {
    if q1 < q2 {
      MulMonotone(q1 + 1, q2, m);
      assert false;
    } else if q2 < q1 {
      MulMonotone(q2 + 1, q1, m);
      assert false;
    }
  }

  predicate Member(n: int, a: int, b: int, t: int)
  {
    0 <= a < n && 0 <= b < n && a != b && 0 <= t < 2
  }

  /** Every (owner, peer, end) lands in its own entry of the 2N(N-1)-entry
      table. */
  lemma SlotInRange(n: int, a: int, b: int, t: int)
    requires Member(n, a, b, t)
    ensures 0 <= Slot(n, a, b, t) < TableSize(n)
  {
    var m := Stride(n);
    assert 0 <= PairSlot(a, b) * 2 + t < m;
    MulMonotone(a + 1, n, m);
    MulSucc(a, m);
    MulMonotone(0, a, m);
  }

  lemma SlotsDistinct(n: int, a: int, b: int, t: int, a': int, b': int, t': int)
    requires Member(n, a, b, t) && Member(n, a', b', t')
    requires Slot(n, a, b, t) == Slot(n, a', b', t')
    ensures a == a' && b == b' && t == t'
  {
    var m := Stride(n);
    DecomposeUnique(a, PairSlot(a, b) * 2 + t, a', PairSlot(a', b') * 2 + t', m);
    DecomposeUnique(PairSlot(a, b), t, PairSlot(a', b'), t', 2);
  }

  /** Pipe numbers 0..N(N-1)-1 go to the ordered pairs one each. */
  lemma PipeNumbersDistinct(n: int, a: int, b: int, a': int, b': int)
    requires Member(n, a, b, 0) && Member(n, a', b', 0)
    requires PipeNumber(n, a, b) == PipeNumber(n, a', b')
    ensures a == a' && b == b'
  {
    SlotsArePeers(n, a);
    SlotsArePeers(n, a');
    DecomposeUnique(a, GetIndex(b, a), a', GetIndex(b', a'), n - 1);
  }

  lemma PipeNumberInRange(n: int, a: int, b: int)
    requires Member(n, a, b, 0)
    ensures 0 <= PipeNumber(n, a, b) < n * (n - 1)
  {
    SlotsArePeers(n, a);
    MulMonotone(a + 1, n, n - 1);
    MulSucc(a, n - 1);
    MulMonotone(0, a, n - 1);
  }

  /** The pipe of pair (a, b) has its read end in a's entry for b and its
      write end in b's entry for a. */
  ghost predicate Placed(table: seq<Descriptor>, n: int, a: int, b: int)
  {
    && 0 <= Slot(n, a, b, PIPE_READ_TYPE) < |table|
    && 0 <= Slot(n, b, a, PIPE_WRITE_TYPE) < |table|
    && table[Slot(n, a, b, PIPE_READ_TYPE)] == ReadEnd(PipeNumber(n, a, b))
    && table[Slot(n, b, a, PIPE_WRITE_TYPE)] == WriteEnd(PipeNumber(n, a, b))
  }

  ghost predicate IsLayout(table: seq<Descriptor>, n: int)
  {
    forall a, b :: 0 <= a < n && 0 <= b < n && a != b ==> Placed(table, n, a, b)
  }

  /** Creates one pipe per ordered pair of distinct processes and records
      its two ends. `pipesAvailable` is how many pipes the OS lets it create
      and make non-blocking; the first failure makes it give up. */
  method PipesInit(n: nat, pipesAvailable: nat) returns (ok: bool, pipes: array<Descriptor>)
    ensures fresh(pipes)
    ensures pipes.Length == TableSize(n)
    ensures ok <==> n * (n - 1) <= pipesAvailable
    ensures ok ==> IsLayout(pipes[..], n)
  {
    if n > 0 {
      MulMonotone(0, n, Stride(n));
    }
    pipes := new Descriptor[TableSize(n)](_ => Unset);
    var created := 0;
    var i := 0;
    while i < n
      invariant 0 <= i <= n
      invariant created == i * (n - 1) && created <= pipesAvailable
      invariant forall a, b :: 0 <= a < i && 0 <= b < n && a != b ==> Placed(pipes[..], n, a, b)
    {
      var j := 0;
      while j < n
        invariant 0 <= j <= n
        invariant created == i * (n - 1) + (if j <= i then j else j - 1) && created <= pipesAvailable
        invariant forall a, b :: 0 <= a < n && 0 <= b < n && a != b && (a < i || (a == i && b < j)) ==>
                    Placed(pipes[..], n, a, b)
      {
        if i == j {
          j := j + 1;
          continue;
        }
        if created == pipesAvailable {
          PipeNumberInRange(n, i, j);
          return false, pipes;
        }
        SlotInRange(n, i, j, PIPE_READ_TYPE);
        SlotInRange(n, j, i, PIPE_WRITE_TYPE);
        ghost var before := pipes[..];
        pipes[i * Stride(n) + (if i > j then j else j - 1) * 2 + PIPE_READ_TYPE] := ReadEnd(created);
        pipes[j * Stride(n) + (if j > i then i else i - 1) * 2 + PIPE_WRITE_TYPE] := WriteEnd(created);
        PlaceStep(before, pipes[..], n, i, j, created);
        created := created + 1;
        j := j + 1;
      }
      MulSucc(i, n - 1);
      i := i + 1;
    }
    return true, pipes;
  }

  /** Writing the two ends of pair (i, j) keeps every pair placed before it
      placed, and places (i, j). */
  lemma PlaceStep(before: seq<Descriptor>, after: seq<Descriptor>, n: int, i: int, j: int, created: int)
    requires Member(n, i, j, 0) && |before| == |after| == TableSize(n)
    requires created == i * (n - 1) + (if j <= i then j else j - 1)
    requires 0 <= Slot(n, i, j, PIPE_READ_TYPE) < |before| && 0 <= Slot(n, j, i, PIPE_WRITE_TYPE) < |before|
    requires after == before[Slot(n, i, j, PIPE_READ_TYPE) := ReadEnd(created)][Slot(n, j, i, PIPE_WRITE_TYPE) := WriteEnd(created)]
    ensures Placed(after, n, i, j)
    ensures forall a, b :: Member(n, a, b, 0) && Placed(before, n, a, b) && (a != i || b != j) ==> Placed(after, n, a, b)
  {
    if Slot(n, i, j, PIPE_READ_TYPE) == Slot(n, j, i, PIPE_WRITE_TYPE) {
      SlotsDistinct(n, i, j, PIPE_READ_TYPE, j, i, PIPE_WRITE_TYPE);
    }
    forall a, b | Member(n, a, b, 0) && Placed(before, n, a, b) && (a != i || b != j)
      ensures Placed(after, n, a, b)
    {
      SlotApart(n, i, j, a, b, PIPE_READ_TYPE);
      SlotApart(n, i, j, b, a, PIPE_WRITE_TYPE);
    }
  }

  /** An entry other than the two that pair (i, j) writes is a different
      position of the table. */
  lemma SlotApart(n: int, i: int, j: int, a: int, b: int, t: int)
    requires Member(n, i, j, 0) && Member(n, a, b, t)
    requires (a, b, t) != (i, j, PIPE_READ_TYPE) && (a, b, t) != (j, i, PIPE_WRITE_TYPE)
    ensures Slot(n, a, b, t) != Slot(n, i, j, PIPE_READ_TYPE)
    ensures Slot(n, a, b, t) != Slot(n, j, i, PIPE_WRITE_TYPE)
  {
    if Slot(n, a, b, t) == Slot(n, i, j, PIPE_READ_TYPE) {
      SlotsDistinct(n, a, b, t, i, j, PIPE_READ_TYPE);
    }
    if Slot(n, a, b, t) == Slot(n, j, i, PIPE_WRITE_TYPE) {
      SlotsDistinct(n, a, b, t, j, i, PIPE_WRITE_TYPE);
    }
  }

  /** Process `cur`'s own row of the table. */
  function Row(table: seq<Descriptor>, n: int, cur: int): seq<Descriptor>
    requires 0 <= cur * Stride(n) <= cur * Stride(n) + Stride(n) <= |table|
  {
    table[cur * Stride(n)..cur * Stride(n) + Stride(n)]
  }

  lemma RowInRange(n: int, cur: int)
    requires 0 <= cur < n
    ensures 0 <= cur * Stride(n) <= cur * Stride(n) + Stride(n) <= TableSize(n)
  {
    MulMonotone(0, cur, Stride(n));
    MulMonotone(cur + 1, n, Stride(n));
    MulSucc(cur, Stride(n));
  }

  /** Keeps the 2(N-1) entries of process `curProc`'s row and closes every
      other entry of the table (`closed` lists the positions closed, in the
      order the loop closes them). */
  method CommunicationInit(pipes: array<Descriptor>, n: nat, curProc: nat)
    returns (mine: array<Descriptor>, closed: seq<int>)
    requires curProc < n && pipes.Length == TableSize(n)
    ensures fresh(mine)
    ensures mine.Length == Stride(n)
    ensures 0 <= curProc * Stride(n) <= curProc * Stride(n) + Stride(n) <= pipes.Length
    ensures mine[..] == Row(pipes[..], n, curProc)
    ensures Unused(closed, n, curProc)
  {
    RowInRange(n, curProc);
    var seg := pipes[curProc * Stride(n)..curProc * Stride(n) + Stride(n)];
    mine := new Descriptor[|seg|](k requires 0 <= k < |seg| => seg[k]);
    assert mine[..] == seg;
    closed := CloseUnused(n, curProc);
  }

  /** Position `k` of the table lies in process `cur`'s row. */
  predicate InRow(n: int, cur: int, k: int)
  {
    cur * Stride(n) <= k < cur * Stride(n) + Stride(n)
  }

  /** `closed` lists, in ascending order and so each once, positions of the
      table outside `cur`'s row, and among them every entry of every other
      process's row. */
  ghost predicate Unused(closed: seq<int>, n: int, cur: int)
  {
    && (forall k :: 0 <= k < |closed| ==> 0 <= closed[k] < TableSize(n) && !InRow(n, cur, closed[k]))
    && (forall p, q :: 0 <= p < q < |closed| ==> closed[p] < closed[q])
    && (forall a, b, t :: Member(n, a, b, t) && a != cur ==> Slot(n, a, b, t) in closed)
  }

  /** The close loop of the descriptor hand-over, skipping the diagonal:
      both ends of every entry in every row but the process's own. */
  method CloseUnused(n: nat, cur: nat) returns (closed: seq<int>)
    requires cur < n
    ensures Unused(closed, n, cur)
  {
    closed := [];
    ghost var who: seq<(int, int, int)> := [];
    var i := 0;
    while i < n
      invariant 0 <= i <= n
      invariant Closing(closed, who, n, cur, i * Stride(n))
      invariant forall a, b, t :: Member(n, a, b, t) && a != cur && a < i ==> Slot(n, a, b, t) in closed
    {
      if i != cur {
        closed, who := CloseRow(n, cur, i, closed, who);
      } else {
        MulSucc(i, Stride(n));
        ClosingRaise(closed, who, n, cur, i * Stride(n), (i + 1) * Stride(n));
      }
      i := i + 1;
    }
    forall k | 0 <= k < |closed|
      ensures 0 <= closed[k] < TableSize(n) && !InRow(n, cur, closed[k])
    {
      SlotInRange(n, who[k].0, who[k].1, who[k].2);
      SlotOutsideRow(n, who[k].0, who[k].1, who[k].2, cur);
    }
  }

  /** The inner loop for row `i`: both ends of each entry but the
      diagonal, appended to what was closed before. */
  method CloseRow(n: nat, cur: nat, i: nat, closed0: seq<int>, ghost who0: seq<(int, int, int)>)
    returns (closed: seq<int>, ghost who: seq<(int, int, int)>)
    requires cur < n && i < n && i != cur
    requires Closing(closed0, who0, n, cur, i * Stride(n))
    requires forall a, b, t :: Member(n, a, b, t) && a != cur && a < i ==> Slot(n, a, b, t) in closed0
    ensures Closing(closed, who, n, cur, (i + 1) * Stride(n))
    ensures forall a, b, t :: Member(n, a, b, t) && a != cur && a < i + 1 ==> Slot(n, a, b, t) in closed
  {
    closed, who := closed0, who0;
    var j := 0;
    while j < n
      invariant 0 <= j <= n
      invariant Closing(closed, who, n, cur, Lo(n, i, j))
      invariant forall a, b, t :: Member(n, a, b, t) && a != cur && (a < i || (a == i && b < j)) ==>
                  Slot(n, a, b, t) in closed
    {
      if j != i {
        ghost var c0 := closed;
        closed := closed + [Slot(n, i, j, PIPE_READ_TYPE), Slot(n, i, j, PIPE_WRITE_TYPE)];
        ClosingStep(c0, who, n, cur, i, j);
        who := who + [(i, j, PIPE_READ_TYPE), (i, j, PIPE_WRITE_TYPE)];
      }
      j := j + 1;
    }
    MulSucc(i, Stride(n));
  }

  /** The loop's progress: every position closed so far is an entry (named
      by `who`) of a row other than `cur`'s, they ascend, and all lie below
      `bound`. */
  ghost predicate Closing(closed: seq<int>, who: seq<(int, int, int)>, n: int, cur: int, bound: int)
  {
    && |who| == |closed|
    && (forall k :: 0 <= k < |closed| ==>
          Member(n, who[k].0, who[k].1, who[k].2) && who[k].0 != cur
          && closed[k] == Slot(n, who[k].0, who[k].1, who[k].2))
    && (forall k :: 0 <= k < |closed| ==> closed[k] < bound)
    && (forall p, q :: 0 <= p < q < |closed| ==> closed[p] < closed[q])
  }

  lemma ClosingRaise(closed: seq<int>, who: seq<(int, int, int)>, n: int, cur: int, bound: int, bound': int)
    requires Closing(closed, who, n, cur, bound) && bound <= bound'
    ensures Closing(closed, who, n, cur, bound')
  {
  }

  /** Closing both ends of row `i`, column `j` continues the ascent. */
  lemma ClosingStep(closed: seq<int>, who: seq<(int, int, int)>, n: int, cur: int, i: int, j: int)
    requires Closing(closed, who, n, cur, Lo(n, i, j))
    requires Member(n, i, j, 0) && i != cur
    ensures var c := closed + [Slot(n, i, j, PIPE_READ_TYPE), Slot(n, i, j, PIPE_WRITE_TYPE)];
      && Closing(c, who + [(i, j, PIPE_READ_TYPE), (i, j, PIPE_WRITE_TYPE)], n, cur, Lo(n, i, j + 1))
      && (forall x :: x in closed ==> x in c)
      && Slot(n, i, j, PIPE_READ_TYPE) in c && Slot(n, i, j, PIPE_WRITE_TYPE) in c
  {
    var c := closed + [Slot(n, i, j, PIPE_READ_TYPE), Slot(n, i, j, PIPE_WRITE_TYPE)];
    var w := who + [(i, j, PIPE_READ_TYPE), (i, j, PIPE_WRITE_TYPE)];
    assert forall k :: 0 <= k < |closed| ==> c[k] == closed[k] && w[k] == who[k];
    assert c[|closed|] == Lo(n, i, j) && c[|closed| + 1] == Lo(n, i, j) + 1;
  }

  /** Start of the entry the loop writes at row `i`, column `j`. */
  function Lo(n: int, i: int, j: int): int
  {
    i * Stride(n) + (if j <= i then j else j - 1) * 2
  }

  /** An entry of another process's row is outside `cur`'s row. */
  lemma SlotOutsideRow(n: int, a: int, b: int, t: int, cur: int)
    requires Member(n, a, b, t) && a != cur && 0 <= cur
    ensures !InRow(n, cur, Slot(n, a, b, t))
  {
    var m := Stride(n);
    assert 0 <= PairSlot(a, b) * 2 + t < m;
    if a < cur {
      MulSucc(a, m);
      MulMonotone(a + 1, cur, m);
    } else {
      MulSucc(cur, m);
      MulMonotone(cur + 1, a, m);
    }
  }

  /** The index the close loop as written computes for row `i`, column `j`
      and end `t`, in size_t arithmetic: it does not skip the diagonal, and
      at i == j == 0 the `j - 1` wraps around. */
  function CloseIndexAsWritten(n: nat, i: nat, j: nat, t: nat): nat
    requires j <= SIZE_MAX
  {
    var col := if i > j then j else DecrementSize(j);
    (i * Stride(n) + col * 2 + t) % (SIZE_MAX + 1)
  }

  /** With two processes, the worker (`cur` = 1) closes row 0 first, and
      there column 0 is the diagonal: the index lies outside the table. */
  lemma CloseLoopReadsOutside()
    ensures CloseIndexAsWritten(2, 0, 0, PIPE_READ_TYPE) == SIZE_MAX - 1
    ensures CloseIndexAsWritten(2, 0, 0, PIPE_READ_TYPE) >= TableSize(2)
  {
  }

  /** On a row other than the first, the diagonal column repeats the column
      before it: that entry is closed twice. */
  lemma CloseLoopClosesTwice(n: nat, i: nat, t: nat)
    requires 1 <= i < n && i <= SIZE_MAX && t < 2
    ensures CloseIndexAsWritten(n, i, i, t) == CloseIndexAsWritten(n, i, i - 1, t)
  {
  }

  /** In the rows the processes keep, what `x` writes for `y` is the write
      end of the very pipe whose read end `y` reads for `x`; so the slot
      arithmetic of send and receive pairs up the two processes. */
  lemma {:induction false} SenderMeetsReceiver(table: seq<Descriptor>, n: int, x: int, y: int)
    requires IsLayout(table, n) && |table| == TableSize(n)
    requires Member(n, x, y, 0)
    ensures 0 <= x * Stride(n) <= x * Stride(n) + Stride(n) <= |table|
    ensures 0 <= y * Stride(n) <= y * Stride(n) + Stride(n) <= |table|
    ensures 0 <= GetIndex(y, x) * 2 + PIPE_WRITE_TYPE < Stride(n)
    ensures 0 <= GetIndex(x, y) * 2 + PIPE_READ_TYPE < Stride(n)
    ensures Row(table, n, x)[GetIndex(y, x) * 2 + PIPE_WRITE_TYPE] == WriteEnd(PipeNumber(n, y, x))
    ensures Row(table, n, y)[GetIndex(x, y) * 2 + PIPE_READ_TYPE] == ReadEnd(PipeNumber(n, y, x))
  {
    SlotsArePeers(n, x);
    SlotsArePeers(n, y);
    RowInRange(n, x);
    RowInRange(n, y);
    assert Placed(table, n, y, x);
    assert x * Stride(n) + GetIndex(y, x) * 2 + PIPE_WRITE_TYPE == Slot(n, x, y, PIPE_WRITE_TYPE);
    assert y * Stride(n) + GetIndex(x, y) * 2 + PIPE_READ_TYPE == Slot(n, y, x, PIPE_READ_TYPE);
  }
}
